/** Following one key of a multi-key channel through a run of management actions. */
module KeyTracking {
  import opened Basics
  import opened MultiKey

  /** Whether delete_disabled_keys really deletes, rather than refusing or re-enabling all. */
  predicate Purges(v: seq<Entry>) { |Survivors(v)| < |v| && Survivors(v) != [] }

  /** Where the entry at p is after an action, if it is still there. */
  function Place(v: seq<Entry>, a: Action, p: nat): Option<nat>
    requires p < |v|
  {
    match a
    case DeleteKey(k) =>
      if !(0 <= k < |v|) || |v| == 1 || p < k then Some(p) else if p == k then None else Some(p - 1)
    case DeleteDisabled =>
      if !Purges(v) then Some(p) else if v[p].status == AUTO_DISABLED then None else Some(|Survivors(v[..p])|)
    case _ => Some(p)
  }

  /** Whether an action is meant to change the attributes of the entry at p; a report is meant for
      the first position of the key it names. */
  predicate Touches(v: seq<Entry>, a: Action, p: nat)
    requires p < |v|
  {
    match a
    case DisableKey(k) => p == k
    case EnableKey(k) => p == k
    case EnableAll => true
    case DisableAll => v[p].status == ENABLED
    case DeleteKey(k) => false
    case DeleteDisabled => Survivors(v) == []
    case Runtime(usingKey, _, _, _) => v[p].key == usingKey && p == KeyIndex(Texts(v), usingKey)
  }

  /** Whether an action is a report that hits the entry at p although it names a key that is not,
      or no longer, in the list. */
  predicate Strays(v: seq<Entry>, a: Action, p: nat) {
    a.Runtime? && a.usingKey !in Texts(v) && p == 0
  }

  lemma {:induction false} SurvivorAt(v: seq<Entry>, p: nat)
    requires p < |v| && v[p].status != AUTO_DISABLED
    ensures |Survivors(v[..p])| < |Survivors(v)| && Survivors(v)[|Survivors(v[..p])|] == Shown(v[p])
  {
    var init := v[..|v| - 1];
    if p < |v| - 1 {
      SurvivorAt(init, p);
      assert init[..p] == v[..p];
    }
  }

  lemma {:induction false} SurvivorSource(v: seq<Entry>, q: nat) returns (p: nat)
    requires q < |Survivors(v)|
    ensures p < |v| && v[p].status != AUTO_DISABLED && |Survivors(v[..p])| == q
  {
    var init := v[..|v| - 1];
    if q < |Survivors(init)| {
      p := SurvivorSource(init, q);
      assert init[..p] == v[..p];
    } else {
      p := |v| - 1;
    }
  }

  /** An entry keeps its key, and its shown attributes unless the action addresses it or is a
      stray report that hits it. */
  lemma ActionFollows(v: seq<Entry>, a: Action, p: nat)
    requires p < |v| && Place(v, a, p).Some?
    ensures var q, w := Place(v, a, p).value, Meaning(v, a);
      q < |w| && w[q].key == v[p].key && (!Touches(v, a, p) && !Strays(v, a, p) ==> Shown(w[q]) == Shown(v[p]))
  {
    match a
    case DeleteDisabled =>
      SurvivorsComeFrom(v);
      if Purges(v) { SurvivorAt(v, p); }
    case Runtime(usingKey, _, _, _) =>
      KeyIndexInRange(Texts(v), usingKey);
      assert Texts(v)[p] == v[p].key;
    case _ =>
  }

  // ---------- reports that hit another key ----------

  /** A report changes only entries of the key it names, if and only if that key is in the list,
      or the first entry already is as the report would make it. */
  lemma ReportHitsItsKeyIff(v: seq<Entry>, usingKey: string, status: int, reason: string, now: int)
    requires v != []
    ensures var w := Meaning(v, Runtime(usingKey, status, reason, now));
      && |w| == |v|
      && ((forall i :: 0 <= i < |v| && w[i] != v[i] ==> v[i].key == usingKey)
          <==> usingKey in Texts(v) || Mark(v[0], status, reason, now) == v[0])
  {
    var k, w := KeyIndex(Texts(v), usingKey), Meaning(v, Runtime(usingKey, status, reason, now));
    KeyIndexInRange(Texts(v), usingKey);
    assert w == v[k := Mark(v[k], status, reason, now)];
    assert Texts(v)[k] == v[k].key && Texts(v)[0] == v[0].key;
  }

  lemma StaleReportMeaning(v: seq<Entry>, x: string, y: string, reason: string, now: int)
    requires Texts(v) == [x, y] && x != y
    ensures var rest := Meaning(v, DeleteKey(0));
      && Texts(rest) == [y]
      && Meaning(rest, Runtime(x, AUTO_DISABLED, reason, now)) == [Entry(y, AUTO_DISABLED, Some(now), Some(reason))]
  {
    assert v[1].key == Texts(v)[1];
    assert Texts(Meaning(v, DeleteKey(0))) == [y];
    KeyIndexInRange([y], x);
  }

  /** It does happen: the failure of a key that was deleted meanwhile disables the next one. */
  lemma StaleReportHitsOther(s: State, x: string, y: string, reason: string, now: int, parse: JsonArray)
    requires Valid(s, parse) && KeysOf(s.key, parse) == [x, y] && x != y && Plain(y)
    ensures View(Run(s, [DeleteKey(0), Runtime(x, AUTO_DISABLED, reason, now)], parse), parse)
            == [Entry(y, AUTO_DISABLED, Some(now), Some(reason))]
  {
    var delete, report := DeleteKey(0), Runtime(x, AUTO_DISABLED, reason, now);
    ViewTexts(s, parse);
    StaleReportMeaning(View(s, parse), x, y, reason, now);
    PlainReadsBack([y], parse);
    RunTwo(s, delete, report, parse);
    DoRefines(s, delete, parse);
    DoRefines(Do(s, delete, parse), report, parse);
  }

  /** Nothing is invented: every entry after an action was somewhere before it. */
  lemma ActionInventsNothing(v: seq<Entry>, a: Action, q: nat) returns (p: nat)
    requires q < |Meaning(v, a)|
    ensures p < |v| && Place(v, a, p) == Some(q)
  {
    p := q;
    match a
    case DeleteKey(k) => if 0 <= k < |v| && |v| > 1 && q >= k { p := q + 1; }
    case DeleteDisabled =>
      SurvivorsComeFrom(v);
      if Purges(v) { p := SurvivorSource(v, q); }
    case Runtime(usingKey, _, _, _) => KeyIndexInRange(Texts(v), usingKey);
    case _ =>
  }

  /** The actions reach their goals on every valid stored channel: the addressed key is disabled
      and no other touched, enabling undoes disabling, after disabling all no key is enabled and
      the others keep everything, and a purge whose survivors can be stored leaves no
      auto-disabled key. */
  lemma {:induction false} ActionsReachTheirGoals(s: State, k: nat, p: nat, parse: JsonArray)
    requires Valid(s, parse) && k < s.size && p < s.size
    ensures var v, w := View(s, parse), View(Do(s, DisableKey(k), parse), parse);
      |w| == |v| && w[k].status == DISABLED && (p != k ==> w[p] == v[p])
    ensures View(s, parse)[k] == Entry(View(s, parse)[k].key, ENABLED, None, None) ==>
              View(Do(Do(s, DisableKey(k), parse), EnableKey(k), parse), parse) == View(s, parse)
    ensures var v, w := View(s, parse), View(Do(s, DisableAll, parse), parse);
      |w| == |v| && w[p].status != ENABLED && (v[p].status != ENABLED ==> w[p] == v[p])
    ensures var v, w := View(s, parse), View(Do(s, EnableAll, parse), parse);
      |w| == |v| && w[p] == Entry(v[p].key, ENABLED, None, None)
    ensures StepReadsBack(View(s, parse), DeleteDisabled, parse) ==>
              forall e :: e in View(Do(s, DeleteDisabled, parse), parse) ==> e.status != AUTO_DISABLED
  {
    DoRefines(s, DisableKey(k), parse);
    DoRefines(Do(s, DisableKey(k), parse), EnableKey(k), parse);
    DoRefines(s, DisableAll, parse);
    DoRefines(s, EnableAll, parse);
    DoRefines(s, DeleteDisabled, parse);
    assert |View(s, parse)| == s.size;
    MeaningsReachTheirGoals(View(s, parse), k, p);
  }

  lemma MeaningsReachTheirGoals(v: seq<Entry>, k: nat, p: nat)
    requires k < |v| && p < |v|
    ensures var w := Meaning(v, DisableKey(k)); |w| == |v| && w[k].status == DISABLED && (p != k ==> w[p] == v[p])
    ensures v[k] == Entry(v[k].key, ENABLED, None, None) ==> Meaning(Meaning(v, DisableKey(k)), EnableKey(k)) == v
    ensures var w := Meaning(v, DisableAll);
      |w| == |v| && w[p].status != ENABLED && (v[p].status != ENABLED ==> w[p] == v[p])
    ensures |Meaning(v, EnableAll)| == |v| && Meaning(v, EnableAll)[p] == Entry(v[p].key, ENABLED, None, None)
    ensures forall e :: e in Meaning(v, DeleteDisabled) ==> e.status != AUTO_DISABLED
  {
    PurgeLeavesNoAuto(v);
  }

  lemma {:induction false} PurgeLeavesNoAuto(v: seq<Entry>)
    ensures forall e :: e in Survivors(v) ==> e.status != AUTO_DISABLED
    ensures |Survivors(v)| <= |v|
    ensures |Survivors(v)| == |v| ==> forall e :: e in v ==> e.status != AUTO_DISABLED
  {
    if v != [] { PurgeLeavesNoAuto(v[..|v| - 1]); }
  }

  // ---------- whole runs on the stored channel ----------

  function RunPlace(v: seq<Entry>, acts: seq<Action>, p: nat): Option<nat>
    requires p < |v|
    decreases acts
  {
    if acts == [] then Some(p) else
    match Place(v, acts[0], p)
    case None => None
    case Some(q) => ActionFollows(v, acts[0], p); RunPlace(Meaning(v, acts[0]), acts[1..], q)
  }

  predicate RunTouches(v: seq<Entry>, acts: seq<Action>, p: nat)
    requires p < |v|
    decreases acts
  {
    if acts == [] then false else
    Touches(v, acts[0], p) ||
    match Place(v, acts[0], p)
    case None => false
    case Some(q) => ActionFollows(v, acts[0], p); RunTouches(Meaning(v, acts[0]), acts[1..], q)
  }

  /** Whether some report of the run, for a key not in the list at that moment, hits the entry
      that started at p. */
  predicate RunStrays(v: seq<Entry>, acts: seq<Action>, p: nat)
    requires p < |v|
    decreases acts
  {
    if acts == [] then false else
    Strays(v, acts[0], p) ||
    match Place(v, acts[0], p)
    case None => false
    case Some(q) => ActionFollows(v, acts[0], p); RunStrays(Meaning(v, acts[0]), acts[1..], q)
  }

  /** Attributes follow keys: over every run of actions that leave what can be stored, the entry
      that started at p, if not deleted, sits at its tracked index with its own key, and shows
      its original attributes unless some action addressed it or some stray report hit it. */
  lemma {:induction false} AttributesFollowKeys(s: State, acts: seq<Action>, p: nat, parse: JsonArray)
    requires Valid(s, parse) && RunReadsBack(View(s, parse), acts, parse) && p < s.size
    requires RunPlace(View(s, parse), acts, p).Some?
    ensures var v, w := View(s, parse), View(Run(s, acts, parse), parse);
      var q := RunPlace(v, acts, p).value;
      && q < |w| && w[q].key == v[p].key
      && (!RunTouches(v, acts, p) && !RunStrays(v, acts, p) ==> Shown(w[q]) == Shown(v[p]))
    decreases acts
  {
    if acts != [] {
      var v := View(s, parse);
      DoRefines(s, acts[0], parse);
      ActionFollows(v, acts[0], p);
      AttributesFollowKeys(Do(s, acts[0], parse), acts[1..], Place(v, acts[0], p).value, parse);
    }
  }
}
