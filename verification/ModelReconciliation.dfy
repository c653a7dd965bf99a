/** Detecting and applying upstream model changes on one channel
    (controller/channel_upstream_update.go). */
module ModelReconciliation {
  import opened Basics
  import opened Text
  import opened ModelLists

  /** Whether a trimmed regular expression compiles and matches a model name. */
  type Matcher = (string, string) -> bool

  datatype Settings = Settings(
    autoSync: bool, lastCheck: int, detected: seq<string>, removed: seq<string>, ignored: seq<string>)

  /** The stored channel: the comma-joined model list and its update settings. */
  datatype Row = Row(models: string, settings: Settings)

  function Models(row: Row): seq<string> { Pieces(row.models, ',') }

  predicate Hits(rule: string, x: string, matches: Matcher) {
    if "regex:" <= rule then matches(TrimSpace(rule[6..]), x) else rule == x
  }

  predicate Ignored(rules: seq<string>, x: string, matches: Matcher) {
    exists i :: 0 <= i < |rules| && Hits(rules[i], x, matches)
  }

  // ---------- detection ----------

  /** collectPendingUpstreamModelChangesFromModels: the pending additions. */
  function PendingAdd(local: seq<string>, upstream: seq<string>, ignored: seq<string>,
                      mapping: map<string, string>, matches: Matcher): seq<string>
  {
    var names := Normalize(upstream);
    Normalize(Keep(names, set x | x in names && x !in Normalize(local) && x !in mapping.Values
                                  && !Ignored(Normalize(ignored), x, matches)))
  }

  /** The pending removals: redirect sources are aliases and stay. */
  function PendingRemove(local: seq<string>, upstream: seq<string>, mapping: map<string, string>): seq<string> {
    var names := Normalize(local);
    Normalize(Keep(names, set x | x in names && x !in mapping && x !in Normalize(upstream)))
  }

  lemma {:induction false} PendingFacts(local: seq<string>, upstream: seq<string>, ignored: seq<string>,
                     mapping: map<string, string>, matches: Matcher)
    ensures var adds := PendingAdd(local, upstream, ignored, mapping, matches);
      var removes := PendingRemove(local, upstream, mapping);
      && Normalized(adds) && Normalized(removes)
      && (forall x :: x in adds <==> x in Normalize(upstream) && x !in Normalize(local) && x !in mapping.Values
                                     && !Ignored(Normalize(ignored), x, matches))
      && (forall x :: x in removes <==> x in Normalize(local) && x !in mapping && x !in Normalize(upstream))
      && Items(adds) !! Items(removes)
  {
    var up, loc := Normalize(upstream), Normalize(local);
    var a := set x | x in up && x !in loc && x !in mapping.Values && !Ignored(Normalize(ignored), x, matches);
    var r := set x | x in loc && x !in mapping && x !in up;
    NormalizeFacts(upstream); NormalizeFacts(local);
    KeepFacts(up, a); KeepFacts(loc, r);
    NormalizeSame(Keep(up, a)); NormalizeSame(Keep(loc, r));
    forall x ensures x in Keep(up, a) <==> x in a { assert x in Keep(up, a) <==> x in Items(Keep(up, a)); }
    forall x ensures x in Keep(loc, r) <==> x in r { assert x in Keep(loc, r) <==> x in Items(Keep(loc, r)); }
  }

  /** checkAndPersistChannelUpstreamModelUpdates after a successful fetch. */
  function Detect(row: Row, upstream: seq<string>, mapping: map<string, string>, matches: Matcher,
                  allowAuto: bool, now: int): Row
  {
    var adds := PendingAdd(Models(row), upstream, row.settings.ignored, mapping, matches);
    var removes := PendingRemove(Models(row), upstream, mapping);
    var seen := row.settings.(lastCheck := now, removed := removes);
    if allowAuto && row.settings.autoSync && adds != [] then
      var origin := Normalize(Models(row));
      var merged := Merge(origin, adds);
      Row(if |merged| > |origin| then Join(merged, ',') else row.models, seen.(detected := []))
    else
      Row(row.models, seen.(detected := adds))
  }

  /** Pending additions are all new, so merging appends every one of them. */
  lemma MergePending(row: Row, upstream: seq<string>, mapping: map<string, string>, matches: Matcher)
    ensures var adds := PendingAdd(Models(row), upstream, row.settings.ignored, mapping, matches);
      var origin := Normalize(Models(row));
      Merge(origin, adds) == origin + adds && Normalized(origin + adds)
  {
    var adds := PendingAdd(Models(row), upstream, row.settings.ignored, mapping, matches);
    var origin := Normalize(Models(row));
    PendingFacts(Models(row), upstream, row.settings.ignored, mapping, matches);
    NormalizeFacts(Models(row));
    NormalizeSame(origin);
    NormalizeSame(adds);
    KeepAll(adds, Items(adds) - Items(origin));
    DisjointAppend(origin, adds);
  }

  // ---------- applying ----------

  /** What one apply request does: the lists it reports. */
  datatype Applied = Applied(
    added: seq<string>, removed: seq<string>, remaining: seq<string>, remainingRemove: seq<string>)

  function Selection(settings: Settings, add: seq<string>, ignore: seq<string>, remove: seq<string>): Applied {
    var pendingAdd, pendingRemove := Normalize(settings.detected), Normalize(settings.removed);
    var added := Intersect(add, pendingAdd);
    var removed := Subtract(Intersect(remove, pendingRemove), added);
    Applied(added, removed, Subtract(pendingAdd, added + Intersect(ignore, pendingAdd)),
            Subtract(pendingRemove, removed))
  }

  /** applyChannelUpstreamModelUpdates when the row can be saved. */
  function Apply(row: Row, add: seq<string>, ignore: seq<string>, remove: seq<string>, now: int): Row {
    var pick := Selection(row.settings, add, ignore, remove);
    var origin := Normalize(Models(row));
    var next := ApplySelected(origin, pick.added, pick.removed);
    var ignored := Merge(row.settings.ignored, Intersect(ignore, Normalize(row.settings.detected)));
    Row(if next == origin then row.models else Join(next, ','),
        row.settings.(ignored := if pick.added == [] then ignored else Subtract(ignored, pick.added),
                      detected := pick.remaining, removed := pick.remainingRemove, lastCheck := now))
  }

  /** A stored channel that the two operations rewrite. */
  class StoredChannel {
    var models: string
    var settings: Settings
    const mapping: map<string, string>
    const matches: Matcher

    constructor (row: Row, mapping: map<string, string>, matches: Matcher)
      ensures Stored() == row && this.mapping == mapping && this.matches == matches
    {
      models, settings := row.models, row.settings;
      this.mapping, this.matches := mapping, matches;
    }

    function Stored(): Row
      reads this
    {
      Row(models, settings)
    }

    /** `upstream` is absent when fetching failed; `saveOk` says whether the row can be saved. */
    method CheckAndPersist(upstream: Option<seq<string>>, force: bool, allowAuto: bool,
                           now: int, minInterval: int, saveOk: bool)
      returns (changed: bool, autoAdded: int, ok: bool)
      modifies this`models, this`settings
      ensures var skip := !force && old(settings).lastCheck > 0 && now - old(settings).lastCheck < minInterval;
        && (skip ==> Stored() == old(Stored()) && ok && !changed)
        && (!skip ==> ok == (upstream.Some? && saveOk))
        && (!skip && !saveOk ==> Stored() == old(Stored()))
        && (!skip && saveOk && upstream.None? ==> Stored() == Row(old(models), old(settings).(lastCheck := now)))
        && (!skip && ok ==> Stored() == Detect(old(Stored()), upstream.value, mapping, matches, allowAuto, now))
        && (!skip && ok ==>
              var adds := PendingAdd(Models(old(Stored())), upstream.value, old(settings).ignored, mapping, matches);
              autoAdded == (if allowAuto && old(settings).autoSync then |adds| else 0) && changed == (autoAdded > 0))
      ensures ok && !(!force && old(settings).lastCheck > 0 && now - old(settings).lastCheck < minInterval) ==>
        var adds := PendingAdd(Models(old(Stored())), upstream.value, old(settings).ignored, mapping, matches);
        var automatic := allowAuto && old(settings).autoSync;
        && settings == Settings(old(settings).autoSync, now, if automatic then [] else adds,
                                PendingRemove(Models(old(Stored())), upstream.value, mapping), old(settings).ignored)
        && models == if automatic && adds != [] then Join(Normalize(Models(old(Stored()))) + adds, ',') else old(models)
    {
      changed, autoAdded := false, 0;
      if !force && settings.lastCheck > 0 && now - settings.lastCheck < minInterval {
        return false, 0, true;
      }
      var draft, names := settings.(lastCheck := now), models;
      if upstream.None? {
        if saveOk { settings := draft; }
        return false, 0, false;
      }
      var adds := PendingAdd(Models(Stored()), upstream.value, settings.ignored, mapping, matches);
      var removes := PendingRemove(Models(Stored()), upstream.value, mapping);
      if allowAuto && settings.autoSync && |adds| > 0 {
        var origin := Normalize(Models(Stored()));
        var merged := MergeModelNames(origin, adds);
        MergePending(Stored(), upstream.value, mapping, matches);
        if |merged| > |origin| {
          names := Join(merged, ',');
          autoAdded := |merged| - |origin|;
          changed := true;
        }
        draft := draft.(detected := []);
      } else {
        draft := draft.(detected := adds);
      }
      draft := draft.(removed := removes);
      if !saveOk { return false, autoAdded, false; }
      models, settings := names, draft;
      return changed, autoAdded, true;
    }

    method ApplyUpdates(add: seq<string>, ignore: seq<string>, remove: seq<string>, now: int, saveOk: bool)
      returns (result: Option<Applied>)
      modifies this`models, this`settings
      ensures !saveOk ==> result.None? && Stored() == old(Stored())
      ensures saveOk ==> result == Some(Selection(old(settings), add, ignore, remove)) &&
                         Stored() == Apply(old(Stored()), add, ignore, remove, now)
      ensures saveOk ==> settings.lastCheck == now && settings.autoSync == old(settings).autoSync
    {
      var pendingAdd, pendingRemove := Normalize(settings.detected), Normalize(settings.removed);
      var added := Intersect(add, pendingAdd);
      var ignoring := Intersect(ignore, pendingAdd);
      var removed := Subtract(Intersect(remove, pendingRemove), added);
      var origin := Normalize(Models(Stored()));
      var next := ApplySelected(origin, added, removed);
      var names := if origin != next then Join(next, ',') else models;
      var ignored := MergeModelNames(settings.ignored, ignoring);
      if |added| > 0 {
        ignored := Subtract(ignored, added);
      }
      var remaining := Subtract(pendingAdd, added + ignoring);
      var remainingRemove := Subtract(pendingRemove, removed);
      if !saveOk { return None; }
      models := names;
      settings := settings.(ignored := ignored, detected := remaining, removed := remainingRemove, lastCheck := now);
      return Some(Applied(added, removed, remaining, remainingRemove));
    }
  }

  // ---------- what one apply request does ----------

  /** The pending additions split into added, ignored and remaining names; removals come
      from the pending removals and never include an added name. */
  lemma {:induction false} SelectionPartitions(settings: Settings, add: seq<string>,
                                               ignore: seq<string>, remove: seq<string>)
    ensures var pick := Selection(settings, add, ignore, remove);
      var pending := Items(Normalize(settings.detected));
      && Items(pick.added) == pending * Items(Normalize(add))
      && Items(pick.remaining) == pending - Items(Normalize(add)) - Items(Normalize(ignore))
      && Items(pick.removed) == Items(Normalize(settings.removed)) * Items(Normalize(remove)) - Items(pick.added)
      && Items(pick.remainingRemove) == Items(Normalize(settings.removed)) - Items(pick.removed)
      && Normalized(pick.added) && Normalized(pick.removed)
  {
    var pick := Selection(settings, add, ignore, remove);
    var pa, pr := Normalize(settings.detected), Normalize(settings.removed);
    var ign, rem := Intersect(ignore, pa), Intersect(remove, pr);
    NormalizeTwice(settings.detected); NormalizeTwice(settings.removed);
    IntersectFacts(add, pa); IntersectFacts(ignore, pa); IntersectFacts(remove, pr);
    RemainingFacts(pa, pick.added, ign);
    SubtractNormalized(rem, pick.added);
    SubtractNormalized(pr, pick.removed);
  }

  lemma SubtractNormalized(base: seq<string>, removed: seq<string>)
    requires Normalized(base) && Normalized(removed)
    ensures Items(Subtract(base, removed)) == Items(base) - Items(removed)
    ensures Normalized(Subtract(base, removed))
  {
    NormalizeSame(base); NormalizeSame(removed);
    SubtractFacts(base, removed);
  }

  lemma RemainingFacts(pending: seq<string>, added: seq<string>, ignoring: seq<string>)
    requires Normalized(pending) && Normalized(added) && Normalized(ignoring)
    ensures Items(Subtract(pending, added + ignoring)) == Items(pending) - Items(added) - Items(ignoring)
  {
    NormalizeSame(pending);
    NormalizeConcat(added, ignoring);
    SubtractFacts(pending, added + ignoring);
  }

  /** After applying, what was not selected stays pending; the ignore list has gained the
      ignored names and holds no added name, so add wins over ignore. */
  lemma {:induction false} ApplySettles(row: Row, add: seq<string>, ignore: seq<string>, remove: seq<string>, now: int)
    ensures var pick, after := Selection(row.settings, add, ignore, remove), Apply(row, add, ignore, remove, now);
      && after.settings.detected == pick.remaining && after.settings.removed == pick.remainingRemove
      && Normalized(after.settings.ignored)
      && Items(after.settings.ignored) == Items(Normalize(row.settings.ignored))
           + Items(Normalize(row.settings.detected)) * Items(Normalize(ignore)) - Items(pick.added)
  {
    var pick := Selection(row.settings, add, ignore, remove);
    var ign := Intersect(ignore, Normalize(row.settings.detected));
    SelectionPartitions(row.settings, add, ignore, remove);
    NormalizeTwice(row.settings.detected);
    IntersectFacts(ignore, Normalize(row.settings.detected));
    NormalizeSame(ign); NormalizeSame(pick.added);
    MergeFacts(row.settings.ignored, ign);
    NormalizeSame(Merge(row.settings.ignored, ign));
    SubtractFacts(Merge(row.settings.ignored, ign), pick.added);
    EmptyItems(pick.added);
  }

  lemma NormalizeTwice(xs: seq<string>)
    ensures Normalized(Normalize(xs)) && Normalize(Normalize(xs)) == Normalize(xs)
  {
    NormalizeFacts(xs);
    NormalizeSame(Normalize(xs));
  }

  lemma IntersectFacts(base: seq<string>, allowed: seq<string>)
    ensures Items(Intersect(base, allowed)) == Items(Normalize(base)) * Items(Normalize(allowed))
    ensures Normalized(Intersect(base, allowed))
  {
    NormalizeFacts(base);
    KeepFacts(Normalize(base), Items(Normalize(allowed)));
  }

  lemma SubtractFacts(base: seq<string>, removed: seq<string>)
    ensures Items(Subtract(base, removed)) == Items(Normalize(base)) - Items(Normalize(removed))
    ensures Normalized(Subtract(base, removed))
  {
    NormalizeFacts(base);
    KeepFacts(Normalize(base), Items(Normalize(base)) - Items(Normalize(removed)));
  }

  lemma {:induction false} MergeFacts(base: seq<string>, appended: seq<string>)
    ensures Items(Merge(base, appended)) == Items(Normalize(base)) + Items(Normalize(appended))
    ensures Normalized(Merge(base, appended))
  {
    NormalizeFacts(base); NormalizeFacts(appended);
    var b, a := Normalize(base), Normalize(appended);
    KeepFacts(a, Items(a) - Items(b));
    DisjointAppend(b, Drop(a, Items(b)));
    ItemsAppend(b, Drop(a, Items(b)));
  }

  lemma NormalizeConcat(xs: seq<string>, ys: seq<string>)
    requires Normalized(xs) && Normalized(ys)
    ensures Items(Normalize(xs + ys)) == Items(xs) + Items(ys)
  {
    NormalizeFacts(xs + ys);
    forall x | x in xs + ys ensures TrimSpace(x) == x && x != "" { TrimFacts(x, Space()); }
    assert Items(Normalize(xs + ys)) == set x | x in xs + ys && TrimSpace(x) != "" :: TrimSpace(x);
    forall x ensures x in Items(Normalize(xs + ys)) <==> x in Items(xs) + Items(ys) {
      if x in xs + ys { assert TrimSpace(x) == x; }
    }
  }

  /** The stored list reads back as the old list without the removed names followed by the
      added names it did not have, each in order, if and only if no added name contains a
      comma. */
  lemma {:induction false} ApplyKeepsOrder(row: Row, add: seq<string>,
                                           ignore: seq<string>, remove: seq<string>, now: int)
    ensures var pick, after := Selection(row.settings, add, ignore, remove), Apply(row, add, ignore, remove, now);
      var origin := Normalize(Models(row));
      var next := Drop(origin, Items(pick.removed)) + Drop(pick.added, Items(origin));
      Normalized(next) && (Normalize(Models(after)) == next <==> Free(pick.added, ','))
  {
    var pick, origin := Selection(row.settings, add, ignore, remove), Normalize(Models(row));
    SelectionPartitions(row.settings, add, ignore, remove);
    NormalizeFacts(Models(row));
    ApplySelectedShape(origin, pick.added, pick.removed);
    assert Items(pick.removed) - Items(pick.added) == Items(pick.removed);
    LocalFree(row);
    LocalFree(Apply(row, add, ignore, remove, now));
    StoredOrder(row.models, origin, pick.added, Items(pick.removed));
  }

  /** Storing `kept` names and then the new ones among `added`. */
  lemma StoredOrder(models: string, origin: seq<string>, added: seq<string>, gone: set<string>)
    requires origin == Normalize(Pieces(models, ',')) && Normalized(origin) && Free(origin, ',') && Normalized(added)
    requires Normalized(Drop(origin, gone) + Drop(added, Items(origin)))
    ensures var next := Drop(origin, gone) + Drop(added, Items(origin));
      var stored := if next == origin then models else Join(next, ',');
      Normalize(Pieces(stored, ',')) == next <==> Free(added, ',')
  {
    var kept, extra := Drop(origin, gone), Drop(added, Items(origin));
    var stored := if kept + extra == origin then models else Join(kept + extra, ',');
    if Free(added, ',') {
      FreeSublist(origin, kept); FreeSublist(added, extra);
      if kept + extra != origin { ReadBack(kept + extra); }
    } else {
      var i :| 0 <= i < |added| && ',' in added[i];
      KeepFacts(added, Items(added) - Items(origin));
      assert added[i] in Items(added) && added[i] in Items(extra);
      assert added[i] in kept + extra;
      LocalFree(Row(stored, Settings(false, 0, [], [], [])));
    }
  }

  /** No name read from a stored list contains a comma. */
  lemma LocalFree(row: Row)
    ensures Free(Normalize(Models(row)), ',')
  {
    PiecesFree(row.models, ',');
    NormalizeFacts(Models(row));
    forall i | 0 <= i < |Normalize(Models(row))| ensures ',' !in Normalize(Models(row))[i] {
      var x := Normalize(Models(row))[i];
      assert x in Items(Normalize(Models(row)));
      var y :| y in Models(row) && TrimSpace(y) == x;
      TrimFacts(y, Space());
    }
  }

  lemma FreeSublist(xs: seq<string>, ys: seq<string>)
    requires Free(xs, ',') && exists s :: ys == Keep(xs, s)
    ensures Free(ys, ',')
  {
    var s :| ys == Keep(xs, s);
    KeepFacts(xs, s);
    forall i | 0 <= i < |ys| ensures ',' !in ys[i] { assert ys[i] in Items(ys); }
  }

  /** A normalized comma-free list survives being stored. */
  lemma ReadBack(xs: seq<string>)
    requires Normalized(xs) && Free(xs, ',')
    ensures Normalize(Pieces(Join(xs, ','), ',')) == xs
  {
    PiecesOfJoin(xs, ',');
    if xs != [] { assert Name(xs[0]) && Name(xs[|xs| - 1]); }
    NormalizeSame(xs);
  }

  // ---------- detection after applying ----------

  /** Taking the applied names out of the ignore list leaves every upstream name that was
      ignored, and is not otherwise covered, still ignored. */
  predicate IgnoringSurvives(row: Row, upstream: seq<string>, mapping: map<string, string>, matches: Matcher) {
    var rules := Normalize(row.settings.ignored);
    var adds := PendingAdd(Models(row), upstream, row.settings.ignored, mapping, matches);
    forall x ::
      x in Normalize(upstream) && x !in Normalize(Models(row)) && x !in mapping.Values && Ignored(rules, x, matches)
      ==> Ignored(Drop(rules, Items(adds)), x, matches)
  }

  /** The row after detecting against `upstream` and applying everything found. */
  function Reconciled(row: Row, upstream: seq<string>, mapping: map<string, string>, matches: Matcher, now: int): Row {
    var found := Detect(row, upstream, mapping, matches, false, now);
    Apply(found, found.settings.detected, [], found.settings.removed, now)
  }

  /** Applying everything detected adds and removes exactly what was detected. */
  lemma EverythingIsPicked(found: Row)
    requires Normalized(found.settings.detected) && Normalized(found.settings.removed)
    requires Items(found.settings.detected) !! Items(found.settings.removed)
    ensures var pick := Selection(found.settings, found.settings.detected, [], found.settings.removed);
      pick.added == found.settings.detected && Items(pick.removed) == Items(found.settings.removed)
  {
    var adds, removes := found.settings.detected, found.settings.removed;
    SelectionPartitions(found.settings, adds, [], removes);
    NormalizeSame(adds); NormalizeSame(removes);
    KeepAll(adds, Items(adds));
  }

  /** The ignore list and the local names after reconciling. */
  lemma ReconciledShape(row: Row, upstream: seq<string>, mapping: map<string, string>, matches: Matcher, now: int)
    ensures var after := Reconciled(row, upstream, mapping, matches, now);
      var adds := PendingAdd(Models(row), upstream, row.settings.ignored, mapping, matches);
      var removes := PendingRemove(Models(row), upstream, mapping);
      && Items(Normalize(after.settings.ignored)) == Items(Normalize(row.settings.ignored)) - Items(adds)
      && (Free(adds, ',') ==>
            Items(Normalize(Models(after))) == Items(Normalize(Models(row))) - Items(removes) + Items(adds))
  {
    var found := Detect(row, upstream, mapping, matches, false, now);
    var adds, removes := found.settings.detected, found.settings.removed;
    PendingFacts(Models(row), upstream, row.settings.ignored, mapping, matches);
    EverythingIsPicked(found);
    ApplySettles(found, adds, [], removes, now);
    NormalizeSame(Reconciled(row, upstream, mapping, matches, now).settings.ignored);
    ApplyKeepsOrder(found, adds, [], removes, now);
    ReplacedItems(Normalize(Models(row)), adds, Items(removes));
  }

  lemma ReplacedItems(origin: seq<string>, adds: seq<string>, gone: set<string>)
    requires Items(adds) !! gone
    ensures Items(Drop(origin, gone) + Drop(adds, Items(origin))) == Items(origin) - gone + Items(adds)
  {
    KeepFacts(origin, Items(origin) - gone);
    KeepFacts(adds, Items(adds) - Items(origin));
    ItemsAppend(Drop(origin, gone), Drop(adds, Items(origin)));
  }

  lemma IgnoredByMember(rules: seq<string>, rule: string, x: string, matches: Matcher)
    requires rule in Items(rules) && Hits(rule, x, matches)
    ensures Ignored(rules, x, matches)
  {
    var j :| 0 <= j < |rules| && rules[j] == rule;
  }

  lemma IgnoredBySet(rules: seq<string>, rules': seq<string>, x: string, matches: Matcher)
    requires Items(rules) <= Items(rules')
    ensures Ignored(rules, x, matches) ==> Ignored(rules', x, matches)
  {
    if i :| 0 <= i < |rules| && Hits(rules[i], x, matches) {
      assert rules[i] in Items(rules);
      IgnoredByMember(rules', rules[i], x, matches);
    }
  }

  /** Reconciliation reaches a fixpoint: after detecting against an upstream list and applying
      everything, detecting again against the same list finds nothing, if and only if no
      pending addition contains a comma and the ignore list survives losing the added names. */
  lemma {:induction false} FixpointIff(row: Row, upstream: seq<string>, mapping: map<string, string>,
                                       matches: Matcher, now: int)
    ensures var after := Reconciled(row, upstream, mapping, matches, now);
      (PendingAdd(Models(after), upstream, after.settings.ignored, mapping, matches) == []
       && PendingRemove(Models(after), upstream, mapping) == [])
      <==> (Free(PendingAdd(Models(row), upstream, row.settings.ignored, mapping, matches), ',')
            && IgnoringSurvives(row, upstream, mapping, matches))
  {
    var after := Reconciled(row, upstream, mapping, matches, now);
    var adds := PendingAdd(Models(row), upstream, row.settings.ignored, mapping, matches);
    var adds' := PendingAdd(Models(after), upstream, after.settings.ignored, mapping, matches);
    var removes' := PendingRemove(Models(after), upstream, mapping);
    var rules, rules' := Normalize(row.settings.ignored), Normalize(after.settings.ignored);
    PendingFacts(Models(row), upstream, row.settings.ignored, mapping, matches);
    PendingFacts(Models(after), upstream, after.settings.ignored, mapping, matches);
    ReconciledShape(row, upstream, mapping, matches, now);
    KeepFacts(rules, Items(rules) - Items(adds));
    forall x ensures Ignored(rules', x, matches) ==> Ignored(rules, x, matches)
      ensures Ignored(rules', x, matches) <==> Ignored(Drop(rules, Items(adds)), x, matches)
    {
      IgnoredBySet(rules', rules, x, matches);
      IgnoredBySet(rules', Drop(rules, Items(adds)), x, matches);
      IgnoredBySet(Drop(rules, Items(adds)), rules', x, matches);
    }
    if !Free(adds, ',') {
      var i :| 0 <= i < |adds| && ',' in adds[i];
      LocalFree(after);
      assert adds[i] in adds && adds[i] in adds';
    } else {
      forall x ensures x in Normalize(Models(after)) <==>
        x in adds || (x in Normalize(Models(row)) && x !in PendingRemove(Models(row), upstream, mapping))
      {
        assert x in Normalize(Models(after)) <==> x in Items(Normalize(Models(after)));
      }
      EmptyItems(adds'); EmptyItems(removes');
      assert Items(removes') == {};
      if adds' != [] { assert adds'[0] in adds'; }
    }
  }

  /** In particular it is reached when no added name contains a comma or looks like a rule. */
  lemma PlainNamesReachFixpoint(row: Row, upstream: seq<string>, mapping: map<string, string>, matches: Matcher)
    requires forall x :: x in PendingAdd(Models(row), upstream, row.settings.ignored, mapping, matches) ==>
               !("regex:" <= x)
    ensures IgnoringSurvives(row, upstream, mapping, matches)
  {
    var rules := Normalize(row.settings.ignored);
    var adds := PendingAdd(Models(row), upstream, row.settings.ignored, mapping, matches);
    PendingFacts(Models(row), upstream, row.settings.ignored, mapping, matches);
    KeepFacts(rules, Items(rules) - Items(adds));
    forall x | Ignored(rules, x, matches) ensures Ignored(Drop(rules, Items(adds)), x, matches) {
      var i :| 0 <= i < |rules| && Hits(rules[i], x, matches);
      assert rules[i] !in adds;
      assert rules[i] in Items(rules);
      IgnoredByMember(Drop(rules, Items(adds)), rules[i], x, matches);
    }
  }

  // ---------- what an entry of the ignore list does ----------

  /** The name stands in the ignore list itself, and is not a pattern. */
  predicate Named(ignored: seq<string>, x: string) { x in Normalize(ignored) && !("regex:" <= x) }

  /** Some pattern of the ignore list, trimmed, matches the name. */
  ghost predicate Patterned(ignored: seq<string>, x: string, matches: Matcher) {
    exists pattern: string :: "regex:" + pattern in Normalize(ignored) && matches(TrimSpace(pattern), x)
  }

  /** A name is pending exactly if upstream offers it, it is neither local nor the target of a
      redirect, it does not stand in the ignore list, and no pattern there matches it. */
  lemma PendingIff(local: seq<string>, upstream: seq<string>, ignored: seq<string>,
                   mapping: map<string, string>, matches: Matcher, x: string)
    ensures x in PendingAdd(local, upstream, ignored, mapping, matches) <==>
            && x in Normalize(upstream) && x !in Normalize(local) && x !in mapping.Values
            && !Named(ignored, x) && !Patterned(ignored, x, matches)
  {
    var rules := Normalize(ignored);
    PendingFacts(local, upstream, ignored, mapping, matches);
    if Named(ignored, x) {
      assert x in Items(rules);
      IgnoredByMember(rules, x, x, matches);
    }
    if pattern: string :| "regex:" + pattern in rules && matches(TrimSpace(pattern), x) {
      var rule := "regex:" + pattern;
      assert rule[6..] == pattern && "regex:" <= rule && rule in Items(rules);
      IgnoredByMember(rules, rule, x, matches);
    }
    if i :| 0 <= i < |rules| && Hits(rules[i], x, matches) {
      if "regex:" <= rules[i] { assert rules[i] == "regex:" + rules[i][6..]; }
    }
  }

  /** xs is what it holds of `all`, in the order of `all`. */
  predicate Ordered(xs: seq<string>, all: seq<string>) { xs == Keep(all, Items(xs)) }

  lemma KeptIsOrdered(all: seq<string>, s: set<string>)
    ensures Ordered(Keep(all, s), all)
  {
    KeepFacts(all, s);
    KeepSame(all, s, Items(Keep(all, s)));
  }

  lemma KeptAndNormalizedIsOrdered(xs: seq<string>, s: set<string>)
    ensures Ordered(Normalize(Keep(Normalize(xs), s)), Normalize(xs))
  {
    NormalizeFacts(xs);
    KeepFacts(Normalize(xs), s);
    NormalizeSame(Keep(Normalize(xs), s));
    KeptIsOrdered(Normalize(xs), s);
  }

  /** Pending lists follow upstream and the local list; an apply request reports what it added and
      removed as it asked for them, and what is left as it was pending. */
  lemma {:induction false} ListsKeepTheirOrder(
    local: seq<string>, upstream: seq<string>, ignored: seq<string>, mapping: map<string, string>, matches: Matcher,
    settings: Settings, add: seq<string>, ignore: seq<string>, remove: seq<string>)
    ensures Ordered(PendingAdd(local, upstream, ignored, mapping, matches), Normalize(upstream))
    ensures Ordered(PendingRemove(local, upstream, mapping), Normalize(local))
    ensures var pick := Selection(settings, add, ignore, remove);
      && Ordered(pick.added, Normalize(add)) && Ordered(pick.removed, Normalize(remove))
      && Ordered(pick.remaining, Normalize(settings.detected))
      && Ordered(pick.remainingRemove, Normalize(settings.removed))
  {
    KeptAndNormalizedIsOrdered(upstream, set x | x in Normalize(upstream) && x !in Normalize(local)
                               && x !in mapping.Values && !Ignored(Normalize(ignored), x, matches));
    KeptAndNormalizedIsOrdered(local, set x | x in Normalize(local) && x !in mapping && x !in Normalize(upstream));
    SelectionIsOrdered(settings, add, ignore, remove);
  }

  lemma {:induction false} SelectionIsOrdered(
    settings: Settings, add: seq<string>, ignore: seq<string>, remove: seq<string>)
    ensures var pick := Selection(settings, add, ignore, remove);
      && Ordered(pick.added, Normalize(add)) && Ordered(pick.removed, Normalize(remove))
      && Ordered(pick.remaining, Normalize(settings.detected))
      && Ordered(pick.remainingRemove, Normalize(settings.removed))
  {
    var pendingAdd, pendingRemove := Normalize(settings.detected), Normalize(settings.removed);
    var pick := Selection(settings, add, ignore, remove);
    var wanted := Intersect(remove, pendingRemove);
    NormalizeTwice(settings.detected); NormalizeTwice(settings.removed);
    IntersectFacts(remove, pendingRemove);
    NormalizeSame(wanted);
    KeptIsOrdered(Normalize(add), Items(Normalize(pendingAdd)));
    var s := Items(wanted) - Items(Normalize(pick.added));
    KeepTwice(Normalize(remove), Items(Normalize(pendingRemove)), s);
    KeptIsOrdered(Normalize(remove), Items(Normalize(pendingRemove)) * s);
    KeptIsOrdered(pendingAdd, Items(pendingAdd) - Items(Normalize(pick.added + Intersect(ignore, pendingAdd))));
    KeptIsOrdered(pendingRemove, Items(pendingRemove) - Items(Normalize(pick.removed)));
  }

  lemma {:induction false} KeepTwice(xs: seq<string>, s: set<string>, t: set<string>)
    ensures Keep(Keep(xs, s), t) == Keep(xs, s * t)
  {
    if xs != [] {
      KeepTwice(xs[1..], s, t);
      var rest := Keep(xs[1..], s);
      if xs[0] in s {
        assert Keep(xs, s) == [xs[0]] + rest && Keep(xs, s)[1..] == rest;
      } else {
        assert Keep(xs, s) == rest;
      }
    }
  }

  /** A pending name that is ignored through an apply request, and not added by it, does not come
      back: no later detection lists or adds it, whatever upstream offers. */
  lemma IgnoredStaysOut(row: Row, add: seq<string>, ignore: seq<string>, remove: seq<string>, now: int,
                        upstream: seq<string>, mapping: map<string, string>, matches: Matcher,
                        allowAuto: bool, later: int, x: string)
    requires x in Normalize(row.settings.detected) && x in Normalize(ignore) && x !in Normalize(add) && !("regex:" <= x)
    ensures var after := Apply(row, add, ignore, remove, now);
      var next := Detect(after, upstream, mapping, matches, allowAuto, later);
      && x !in PendingAdd(Models(after), upstream, after.settings.ignored, mapping, matches)
      && x !in next.settings.detected && x in Normalize(next.settings.ignored)
  {
    var after := Apply(row, add, ignore, remove, now);
    SelectionPartitions(row.settings, add, ignore, remove);
    ApplySettles(row, add, ignore, remove, now);
    NormalizeSame(after.settings.ignored);
    assert x in Items(Normalize(row.settings.detected)) && x in Items(Normalize(ignore)) && x !in Items(Normalize(add));
    assert x in Items(after.settings.ignored);
    PendingIff(Models(after), upstream, after.settings.ignored, mapping, matches, x);
  }

  // ---------- both conditions matter ----------

  lemma NamesStay(xs: seq<string>)
    requires Normalized(xs)
    ensures Normalize(xs) == xs && forall x :: x in Normalize(xs) <==> x in xs
  {
    NormalizeSame(xs);
  }

  /** An upstream name with a comma is stored as several names and never settles. */
  lemma CommaNameNeverSettles(name: string, mapping: map<string, string>, matches: Matcher, now: int)
    requires Name(name) && ',' in name && name !in mapping.Values
    ensures var row, upstream := Row("", Settings(false, 0, [], [], [])), [name];
      var after := Reconciled(row, upstream, mapping, matches, now);
      PendingAdd(Models(after), upstream, after.settings.ignored, mapping, matches) != []
      || PendingRemove(Models(after), upstream, mapping) != []
  {
    var row, upstream := Row("", Settings(false, 0, [], [], [])), [name];
    var adds := PendingAdd(Models(row), upstream, [], mapping, matches);
    NamesStay(upstream); NamesStay([]);
    PendingFacts(Models(row), upstream, [], mapping, matches);
    FixpointIff(row, upstream, mapping, matches, now);
    assert upstream[0] in upstream && name in adds;
    assert !Free(adds, ',');
  }

  /** For instance the name "a,b". */
  lemma CommaNameWitness(matches: Matcher, now: int)
    ensures var row, upstream := Row("", Settings(false, 0, [], [], [])), ["a,b"];
      var after := Reconciled(row, upstream, map[], matches, now);
      PendingAdd(Models(after), upstream, after.settings.ignored, map[], matches) != []
      || PendingRemove(Models(after), upstream, map[]) != []
  {
    assert "a,b"[1] == ',';
    CommaNameNeverSettles("a,b", map[], matches, now);
  }

  /** Detection on an empty channel that ignores by one rule which does not hit itself. */
  lemma RuleIsPending(rule: string, x: string, matches: Matcher)
    requires Name(rule) && Name(x) && x != rule && !Hits(rule, rule, matches)
    ensures rule in PendingAdd([], [rule, x], [rule], map[], matches)
  {
    NamesStay([rule, x]); NamesStay([rule]); NamesStay([]);
    PendingFacts([], [rule, x], [rule], map[], matches);
    assert [rule, x][0] in [rule, x];
  }

  lemma LoneRuleHits(rule: string, x: string, matches: Matcher)
    requires Hits(rule, x, matches)
    ensures Ignored([rule], x, matches) && !Ignored([], x, matches)
  {
    assert Hits([rule][0], x, matches);
  }

  lemma LoneRuleGoes(rule: string, adds: seq<string>)
    requires rule in adds
    ensures Drop([rule], Items(adds)) == []
  {
    KeepFacts([rule], Items([rule]) - Items(adds));
    EmptyItems(Drop([rule], Items(adds)));
  }

  /** An upstream name that is also a rule of the ignore list takes the rule away when it is
      added, and what the rule ignored becomes pending. */
  lemma {:induction false} RuleNameUnignores(rule: string, x: string, matches: Matcher, now: int)
    requires Name(rule) && Name(x) && ',' !in rule && ',' !in x && x != rule
    requires Hits(rule, x, matches) && !Hits(rule, rule, matches)
    ensures var row, upstream := Row("", Settings(false, 0, [], [], [rule])), [rule, x];
      var after := Reconciled(row, upstream, map[], matches, now);
      PendingAdd(Models(after), upstream, after.settings.ignored, map[], matches) != []
      || PendingRemove(Models(after), upstream, map[]) != []
  {
    var row, upstream := Row("", Settings(false, 0, [], [], [rule])), [rule, x];
    var adds := PendingAdd(Models(row), upstream, [rule], map[], matches);
    RuleIsPending(rule, x, matches);
    NamesStay(upstream); NamesStay([rule]); NamesStay([]);
    LoneRuleGoes(rule, adds);
    LoneRuleHits(rule, x, matches);
    assert upstream[1] in upstream;
    FixpointIff(row, upstream, map[], matches, now);
  }

  /** Such rules exist: one that matches the name "x" and nothing else. */
  lemma RuleNameWitness(now: int)
    ensures var row, upstream := Row("", Settings(false, 0, [], [], ["regex:x"])), ["regex:x", "x"];
      var matches: Matcher := (rule, name) => name == "x";
      var after := Reconciled(row, upstream, map[], matches, now);
      PendingAdd(Models(after), upstream, after.settings.ignored, map[], matches) != []
      || PendingRemove(Models(after), upstream, map[]) != []
  {
    RuleNameUnignores("regex:x", "x", (rule, name) => name == "x", now);
  }

  // ---------- automatic synchronisation ----------

  /** Auto-sync keeps every local model in place, appends the additions, leaves the pending
      removals exactly as they were, and finds no addition the next time, if and only if no
      addition contains a comma. */
  lemma AutoSyncIff(row: Row, upstream: seq<string>, mapping: map<string, string>, matches: Matcher, now: int)
    requires row.settings.autoSync
    ensures var after := Detect(row, upstream, mapping, matches, true, now);
      var adds := PendingAdd(Models(row), upstream, row.settings.ignored, mapping, matches);
      && (PendingAdd(Models(after), upstream, after.settings.ignored, mapping, matches) == [] <==> Free(adds, ','))
      && (Free(adds, ',') ==>
            Normalize(Models(after)) == Normalize(Models(row)) + adds &&
            PendingRemove(Models(after), upstream, mapping) == after.settings.removed)
  {
    var after := Detect(row, upstream, mapping, matches, true, now);
    var adds := PendingAdd(Models(row), upstream, row.settings.ignored, mapping, matches);
    var adds' := PendingAdd(Models(after), upstream, after.settings.ignored, mapping, matches);
    var origin := Normalize(Models(row));
    PendingFacts(Models(row), upstream, row.settings.ignored, mapping, matches);
    PendingFacts(Models(after), upstream, after.settings.ignored, mapping, matches);
    MergePending(row, upstream, mapping, matches);
    if Free(adds, ',') {
      LocalFree(row);
      if adds != [] { ReadBack(origin + adds); } else { assert origin + adds == origin; }
      assert Items(adds') == {};
      EmptyItems(adds');
      SameRemovals(row, after, upstream, mapping, adds);
    } else {
      var i :| 0 <= i < |adds| && ',' in adds[i];
      LocalFree(after);
      assert adds[i] in adds && adds[i] in adds';
    }
  }

  lemma SameRemovals(row: Row, after: Row, upstream: seq<string>, mapping: map<string, string>, adds: seq<string>)
    requires Normalize(Models(after)) == Normalize(Models(row)) + adds
    requires forall x :: x in adds ==> x in Normalize(upstream)
    ensures PendingRemove(Models(after), upstream, mapping) == PendingRemove(Models(row), upstream, mapping)
  {
    var l, l' := Normalize(Models(row)), Normalize(Models(after));
    var s := set x | x in l && x !in mapping && x !in Normalize(upstream);
    var s' := set x | x in l' && x !in mapping && x !in Normalize(upstream);
    KeepAppend(l, adds, s');
    KeepFacts(adds, s');
    EmptyItems(Keep(adds, s'));
    KeepSame(l, s, s');
    assert Keep(l', s') == Keep(l, s) + [];
    assert Keep(l', s') == Keep(l, s);
  }
}
