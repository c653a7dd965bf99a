/** What the actions on a multi-key channel do to its three attribute maps, key by key and in
    the numbers that are stored: status 1 is enabled, 2 disabled, 3 auto-disabled. */
module KeyMaps {
  import opened Basics
  import opened MultiKey
  import opened KeyTracking

  /** A key without a stored status is enabled. */
  function Effective(s: State, i: int): int { if i in s.status then s.status[i] else 1 }

  /** The key at i in s is the key at j in s', with everything stored about it. */
  predicate Stays(s: State, i: nat, s': State, j: nat, parse: JsonArray) {
    && i < |KeysOf(s.key, parse)| && j < |KeysOf(s'.key, parse)|
    && KeysOf(s'.key, parse)[j] == KeysOf(s.key, parse)[i] && Effective(s', j) == Effective(s, i)
    && Find(s'.time, j) == Find(s.time, i) && Find(s'.reason, j) == Find(s.reason, i)
  }

  lemma ViewAt(s: State, i: nat, parse: JsonArray)
    requires i < |KeysOf(s.key, parse)|
    ensures |View(s, parse)| == |KeysOf(s.key, parse)|
    ensures View(s, parse)[i] == Entry(KeysOf(s.key, parse)[i], Effective(s, i), Find(s.time, i), Find(s.reason, i))
  {
  }

  lemma SameEntryStays(s: State, i: nat, s': State, j: nat, parse: JsonArray)
    requires i < |View(s, parse)| && j < |View(s', parse)|
    ensures View(s', parse)[j] == View(s, parse)[i] <==> Stays(s, i, s', j, parse)
  {
    ViewAt(s, i, parse);
    ViewAt(s', j, parse);
  }

  /** enable_key: whatever was stored about the key is gone, and about no other. */
  lemma EnablingClears(s: State, k: nat, i: nat, parse: JsonArray)
    requires Valid(s, parse) && k < s.size && i < s.size
    ensures var s' := Do(s, EnableKey(k), parse);
      && s'.key == s.key && s'.size == s.size
      && Effective(s', k) == 1 && k !in s'.time && k !in s'.reason
      && (i != k ==> Stays(s, i, s', i, parse))
  {
    DoRefines(s, EnableKey(k), parse);
    var s' := Do(s, EnableKey(k), parse);
    ViewAt(s', k, parse);
    SameEntryStays(s, i, s', i, parse);
  }

  /** disable_key: the key gets status 2 and keeps the rest. */
  lemma DisablingMarks(s: State, k: nat, i: nat, parse: JsonArray)
    requires Valid(s, parse) && k < s.size && i < s.size
    ensures var s' := Do(s, DisableKey(k), parse);
      && s'.key == s.key && s'.size == s.size
      && Effective(s', k) == 2 && Find(s'.time, k) == Find(s.time, k) && Find(s'.reason, k) == Find(s.reason, k)
      && (i != k ==> Stays(s, i, s', i, parse))
  {
    DoRefines(s, DisableKey(k), parse);
    var s' := Do(s, DisableKey(k), parse);
    ViewAt(s', k, parse); ViewAt(s, k, parse);
    SameEntryStays(s, i, s', i, parse);
  }

  /** enable_all_keys and disable_all_keys, at every key. */
  lemma AllAreSet(s: State, i: nat, parse: JsonArray)
    requires Valid(s, parse) && i < s.size
    ensures var s' := Do(s, EnableAll, parse);
      s'.key == s.key && Effective(s', i) == 1 && i !in s'.time && i !in s'.reason
    ensures var s' := Do(s, DisableAll, parse);
      && s'.key == s.key && Effective(s', i) == (if Effective(s, i) == 1 then 2 else Effective(s, i))
      && Find(s'.time, i) == Find(s.time, i) && Find(s'.reason, i) == Find(s.reason, i)
  {
    AttributesRefine(s, EnableAll, parse);
    AttributesRefine(s, DisableAll, parse);
    ViewAt(s, i, parse);
    ViewAt(Do(s, EnableAll, parse), i, parse);
    ViewAt(Do(s, DisableAll, parse), i, parse);
  }

  /** delete_key: every other key stays, those behind it one place further to the front. */
  lemma DeletingMoves(s: State, k: nat, i: nat, parse: JsonArray)
    requires Valid(s, parse) && k < s.size && s.size > 1 && i < s.size && i != k
    requires StepReadsBack(View(s, parse), DeleteKey(k), parse)
    ensures var s' := Do(s, DeleteKey(k), parse);
      s'.size == s.size - 1 && Stays(s, i, s', if i < k then i else i - 1, parse)
  {
    DoRefines(s, DeleteKey(k), parse);
    SameEntryStays(s, i, Do(s, DeleteKey(k), parse), if i < k then i else i - 1, parse);
  }

  /** The keys before position p that are not auto-disabled. */
  function Before(s: State, p: nat): set<int> { set q | 0 <= q < p && Effective(s, q) != 3 }

  function Spared(v: seq<Entry>, p: nat): set<int>
    requires p <= |v|
  {
    set q | 0 <= q < p && v[q].status != 3
  }

  lemma {:induction false} SurvivorsAreSpared(v: seq<Entry>, p: nat)
    requires p <= |v|
    ensures |Survivors(v[..p])| == |Spared(v, p)|
  {
    if p == 0 {
      assert Spared(v, p) == {};
    } else {
      SurvivorsAreSpared(v, p - 1);
      assert v[..p][..p - 1] == v[..p - 1];
      assert Spared(v, p) == Spared(v, p - 1) + if v[p - 1].status != 3 then {p - 1} else {};
    }
  }

  lemma SurvivorsBefore(s: State, p: nat, parse: JsonArray)
    requires p <= |View(s, parse)|
    ensures |Survivors(View(s, parse)[..p])| == |Before(s, p)|
  {
    SurvivorsAreSpared(View(s, parse), p);
    forall q | 0 <= q < p ensures q in Before(s, p) <==> q in Spared(View(s, parse), p) { ViewAt(s, q, parse); }
    assert Before(s, p) == Spared(View(s, parse), p);
  }

  /** delete_disabled_keys: every key whose status is not 3 stays, behind the others that do;
      an enabled one without its left-over time and reason. */
  lemma PurgingMoves(s: State, i: nat, parse: JsonArray)
    requires Valid(s, parse) && i < s.size && Effective(s, i) != 3 && |Before(s, s.size)| < s.size
    requires StepReadsBack(View(s, parse), DeleteDisabled, parse)
    ensures var s', j := Do(s, DeleteDisabled, parse), |Before(s, i)|;
      && s'.size == |KeysOf(s'.key, parse)| == |Before(s, s.size)| && j < |KeysOf(s'.key, parse)|
      && KeysOf(s'.key, parse)[j] == KeysOf(s.key, parse)[i] && Effective(s', j) == Effective(s, i)
      && Find(s'.time, j) == (if Effective(s, i) == 1 then None else Find(s.time, i))
      && Find(s'.reason, j) == (if Effective(s, i) == 1 then None else Find(s.reason, i))
  {
    var v, s' := View(s, parse), Do(s, DeleteDisabled, parse);
    ViewAt(s, i, parse);
    DoRefines(s, DeleteDisabled, parse);
    SurvivorsBefore(s, i, parse);
    SurvivorsBefore(s, s.size, parse);
    assert v[..s.size] == v;
    SurvivorAt(v, i);
    ViewAt(s', |Before(s, i)|, parse);
  }

  /** Positions out of range, deleting the only key, and purging when no key has status 3, change
      nothing at all. */
  lemma RefusedActions(s: State, k: int, parse: JsonArray)
    requires Valid(s, parse)
    ensures k < 0 || k >= s.size ==>
              Do(s, EnableKey(k), parse) == Do(s, DisableKey(k), parse) == Do(s, DeleteKey(k), parse) == s
    ensures s.size == 1 ==> Do(s, DeleteKey(k), parse) == s
    ensures |Before(s, s.size)| == s.size ==> Do(s, DeleteDisabled, parse) == s
  {
    SurvivorsBefore(s, s.size, parse);
    assert View(s, parse)[..s.size] == View(s, parse);
  }

  /** The runtime's report on the key at p: status 1 only enables it; any other status is stored
      with the time and the reason. */
  lemma ReportMarks(s: State, usingKey: string, status: int, reason: string, now: int, p: nat, i: nat, parse: JsonArray)
    requires Valid(s, parse) && p < s.size && i < s.size
    requires var keys := KeysOf(s.key, parse);
      if usingKey in keys then keys[p] == usingKey && forall q :: 0 <= q < p ==> keys[q] != usingKey else p == 0
    ensures var s' := Do(s, Runtime(usingKey, status, reason, now), parse);
      && s'.key == s.key
      && (status == 1 ==>
            Effective(s', p) == 1 && Find(s'.time, p) == Find(s.time, p) && Find(s'.reason, p) == Find(s.reason, p))
      && (status != 1 ==>
            Effective(s', p) == status && Find(s'.time, p) == Some(now) && Find(s'.reason, p) == Some(reason))
      && (i != p ==> Stays(s, i, s', i, parse))
  {
    var a := Runtime(usingKey, status, reason, now);
    var keys, s' := KeysOf(s.key, parse), Do(s, a, parse);
    KeyIndexInRange(keys, usingKey);
    ViewTexts(s, parse);
    RuntimeRefines(s, a, parse);
    ViewAt(s, p, parse); ViewAt(s', p, parse);
    SameEntryStays(s, i, s', i, parse);
  }

  /** get_key_status: time and reason are shown only for keys that are not enabled. */
  lemma ReportShows(s: State, i: nat, parse: JsonArray)
    requires i < |KeysOf(s.key, parse)|
    ensures |Report(View(s, parse))| == |KeysOf(s.key, parse)|
    ensures Report(View(s, parse))[i] ==
            if Effective(s, i) == 1 then Entry(KeysOf(s.key, parse)[i], 1, None, None)
            else Entry(KeysOf(s.key, parse)[i], Effective(s, i), Find(s.time, i), Find(s.reason, i))
  {
    ViewAt(s, i, parse);
  }
}
