/** The imperative side of multi-key management: ManageMultiKeys and Channel.Update rewriting
    one stored channel, each proved to perform the action of module MultiKey. */
module MultiKeyChannel {
  import opened Basics
  import opened Text
  import opened MultiKey

  /** What the loops have written so far encodes the entries kept so far. */
  ghost predicate Built(kept: seq<Entry>, texts: seq<string>, st: map<int, int>,
                        tm: map<int, int>, rs: map<int, string>)
  {
    texts == Texts(kept) && st == StatusMap(kept) && tm == TimeMap(kept) && rs == ReasonMap(kept)
  }

  /** Saving what was built from the kept entries performs the deletion. */
  lemma DeletionDoes(s: State, k: int, draft: State, parse: JsonArray)
    requires 0 <= k < s.size && RemoveAt(View(s, parse), k) != []
    requires draft == Encode(RemoveAt(View(s, parse), k))
    ensures Save(draft, s, parse) == DoDelete(s, k, parse)
  {
  }

  lemma PurgeDoes(s: State, draft: State, parse: JsonArray)
    requires |Survivors(View(s, parse))| != |View(s, parse)|
    requires draft == Encode(Survivors(View(s, parse)))
    ensures Save(draft, s, parse) == DoPurge(s, parse)
  {
  }

  lemma BuiltIsEncoded(kept: seq<Entry>, texts: seq<string>, st: map<int, int>, tm: map<int, int>, rs: map<int, string>)
    requires Built(kept, texts, st, tm, rs)
    ensures State(Join(texts, '\n'), |texts|, st, tm, rs) == Encode(kept)
  {
  }

  /** Keeping one entry more writes at most one place of each map, the next index. */
  lemma BuildOneMore(kept: seq<Entry>, e: Entry, texts: seq<string>, st: map<int, int>,
                     tm: map<int, int>, rs: map<int, string>)
    requires Built(kept, texts, st, tm, rs)
    ensures var n := |kept|;
      Built(kept + [e], texts + [e.key],
            if e.status != ENABLED then st[n := e.status] else st,
            if e.time.Some? then tm[n := e.time.value] else tm,
            if e.reason.Some? then rs[n := e.reason.value] else rs)
  {
    assert (kept + [e])[..|kept|] == kept;
    assert Texts(kept + [e]) == Texts(kept) + [e.key];
  }

  /** Keeping what is shown of the entry at position i writes nothing for an enabled one. */
  lemma BuildShown(row: State, kept: seq<Entry>, e: Entry, i: nat,
                   texts: seq<string>, st: map<int, int>, tm: map<int, int>, rs: map<int, string>)
    requires Built(kept, texts, st, tm, rs) &&
      e == Entry(e.key, StatusAt(row, i), Find(row.time, i), Find(row.reason, i))
    ensures e.status == ENABLED ==> Built(kept + [Shown(e)], texts + [e.key], st, tm, rs)
    ensures e.status != ENABLED ==>
              Built(kept + [Shown(e)], texts + [e.key], st[|kept| := e.status],
                    if i in row.time then tm[|kept| := row.time[i]] else tm,
                    if i in row.reason then rs[|kept| := row.reason[i]] else rs)
  {
    BuildOneMore(kept, Shown(e), texts, st, tm, rs);
  }

  /** The first i entries, without entry k. */
  function Skipping(v: seq<Entry>, k: nat, i: nat): seq<Entry>
    requires i <= |v|
  {
    if i <= k then v[..i] else v[..k] + v[k + 1..i]
  }

  /** disable_all_keys' loop: every enabled key becomes disabled, other states stay. */
  method CollectDisabled(row: State) returns (next: map<int, int>, disabledCount: nat)
    ensures next == Disabled(row, row.size)
    ensures disabledCount > 0 <==> exists j :: 0 <= j < row.size && StatusAt(row, j) == ENABLED
  {
    next, disabledCount := row.status, 0;
    for i := 0 to row.size
      invariant next == Disabled(row, i)
      invariant disabledCount > 0 <==> exists j :: 0 <= j < i && StatusAt(row, j) == ENABLED
    {
      DisabledFacts(row, i);
      var current := if i in next then next[i] else ENABLED;
      assert current == StatusAt(row, i);
      if current == ENABLED {
        next := next[i := DISABLED];
        disabledCount := disabledCount + 1;
      }
    }
  }

  lemma SkipOneMore(v: seq<Entry>, k: nat, i: nat)
    requires i < |v|
    ensures Skipping(v, k, i + 1) == if i == k then Skipping(v, k, i) else Skipping(v, k, i) + [v[i]]
  {
    if i > k { assert v[k + 1..i + 1] == v[k + 1..i] + [v[i]]; }
  }

  /** The entry at i comes next unless it is entry k, with whatever the row stores for its position. */
  lemma BuildOther(row: State, v: seq<Entry>, k: nat, i: nat,
                   texts: seq<string>, st: map<int, int>, tm: map<int, int>, rs: map<int, string>)
    requires i < |v| && Built(Skipping(v, k, i), texts, st, tm, rs)
    requires v[i] == Entry(v[i].key, StatusAt(row, i), Find(row.time, i), Find(row.reason, i))
    ensures var kept, next := Skipping(v, k, i), Skipping(v, k, i + 1);
      && (i == k ==> next == kept)
      && (i != k ==> |next| == |kept| + 1)
      && (i != k ==>
            Built(next, texts + [v[i].key],
                  if i in row.status && row.status[i] != ENABLED then st[|kept| := row.status[i]] else st,
                  if i in row.time then tm[|kept| := row.time[i]] else tm,
                  if i in row.reason then rs[|kept| := row.reason[i]] else rs))
  {
    SkipOneMore(v, k, i);
    BuildOneMore(Skipping(v, k, i), v[i], texts, st, tm, rs);
  }

  /** delete_key's loop: every key but k, with its attributes moved to its new index. */
  method CollectOthers(row: State, k: nat, parse: JsonArray)
    returns (remaining: seq<string>, newStatus: map<int, int>, newTime: map<int, int>, newReason: map<int, string>)
    ensures Built(RemoveAt(View(row, parse), k), remaining, newStatus, newTime, newReason)
  {
    var keys := KeysOf(row.key, parse);
    remaining, newStatus, newTime, newReason := [], map[], map[], map[];
    var newIndex := 0;
    ghost var v := View(row, parse);
    for i := 0 to |keys|
      invariant newIndex == |Skipping(v, k, i)|
      invariant Built(Skipping(v, k, i), remaining, newStatus, newTime, newReason)
    {
      assert v[i] == Entry(keys[i], StatusAt(row, i), Find(row.time, i), Find(row.reason, i));
      BuildOther(row, v, k, i, remaining, newStatus, newTime, newReason);
      if i != k {
        remaining := remaining + [keys[i]];
        if i in row.status && row.status[i] != ENABLED { newStatus := newStatus[newIndex := row.status[i]]; }
        if i in row.time { newTime := newTime[newIndex := row.time[i]]; }
        if i in row.reason { newReason := newReason[newIndex := row.reason[i]]; }
        newIndex := newIndex + 1;
      }
    }
    assert Skipping(v, k, |v|) == RemoveAt(v, k);
  }

  /** The entry at i is skipped when auto-disabled; otherwise it comes next, as it is shown. */
  lemma BuildSurvivor(row: State, v: seq<Entry>, i: nat,
                      texts: seq<string>, st: map<int, int>, tm: map<int, int>, rs: map<int, string>)
    requires i < |v| && Built(Survivors(v[..i]), texts, st, tm, rs)
    requires v[i] == Entry(v[i].key, StatusAt(row, i), Find(row.time, i), Find(row.reason, i))
    ensures var kept, next := Survivors(v[..i]), Survivors(v[..i + 1]);
      && (v[i].status == AUTO_DISABLED ==> next == kept)
      && (v[i].status != AUTO_DISABLED ==> |next| == |kept| + 1)
      && (v[i].status == ENABLED ==> Built(next, texts + [v[i].key], st, tm, rs))
      && (v[i].status != ENABLED && v[i].status != AUTO_DISABLED ==>
            Built(next, texts + [v[i].key], st[|kept| := v[i].status],
                  if i in row.time then tm[|kept| := row.time[i]] else tm,
                  if i in row.reason then rs[|kept| := row.reason[i]] else rs))
  {
    assert v[..i + 1][..i] == v[..i];
    BuildShown(row, Survivors(v[..i]), v[i], i, texts, st, tm, rs);
  }

  /** delete_disabled_keys' loop: every key that is not auto-disabled, re-indexed. */
  method CollectSurvivors(row: State, parse: JsonArray)
    returns (remaining: seq<string>, newStatus: map<int, int>, newTime: map<int, int>, newReason: map<int, string>,
             deletedCount: nat)
    ensures Built(Survivors(View(row, parse)), remaining, newStatus, newTime, newReason)
    ensures deletedCount == |View(row, parse)| - |Survivors(View(row, parse))|
  {
    var keys := KeysOf(row.key, parse);
    remaining, newStatus, newTime, newReason, deletedCount := [], map[], map[], map[], 0;
    var newIndex := 0;
    ghost var v := View(row, parse);
    for i := 0 to |keys|
      invariant newIndex == |Survivors(v[..i])| == i - deletedCount
      invariant Built(Survivors(v[..i]), remaining, newStatus, newTime, newReason)
    {
      BuildSurvivor(row, v, i, remaining, newStatus, newTime, newReason);
      var current := if i in row.status then row.status[i] else ENABLED;
      assert v[i] == Entry(keys[i], current, Find(row.time, i), Find(row.reason, i));
      if current == AUTO_DISABLED {
        deletedCount := deletedCount + 1;
      } else {
        remaining := remaining + [keys[i]];
        if current != ENABLED {
          newStatus := newStatus[newIndex := current];
          if i in row.time { newTime := newTime[newIndex := row.time[i]]; }
          if i in row.reason { newReason := newReason[newIndex := row.reason[i]]; }
        }
        newIndex := newIndex + 1;
      }
    }
    assert v[..|v|] == v;
  }

  function Count(v: seq<Entry>, status: int): nat {
    if v == [] then 0 else Count(v[..|v| - 1], status) + if v[|v| - 1].status == status then 1 else 0
  }

  /** Counting is the size of the set of matching positions. */
  lemma {:induction false} CountIsSize(v: seq<Entry>, status: int)
    ensures Count(v, status) == |set i | 0 <= i < |v| && v[i].status == status|
  {
    if v != [] {
      var n := |v| - 1;
      CountIsSize(v[..n], status);
      var before := set i | 0 <= i < |v[..n]| && v[..n][i].status == status;
      assert (set i | 0 <= i < |v| && v[i].status == status) == before + if v[n].status == status then {n} else {};
    }
  }

  class Channel {
    var key: string
    var size: nat
    var status: map<int, int>
    var time: map<int, int>
    var reason: map<int, string>
    const parse: JsonArray

    constructor (row: State, parse: JsonArray)
      ensures Stored() == row && this.parse == parse
    {
      key, size, status, time, reason := row.key, row.size, row.status, row.time, row.reason;
      this.parse := parse;
    }

    function Stored(): State
      reads this
    {
      State(key, size, status, time, reason)
    }

    /** Channel.Update; `saveOk` says whether the database accepts the row. */
    method Update(draft: State, saveOk: bool)
      modifies this`key, this`size, this`status, this`time, this`reason
      ensures Stored() == if saveOk then Save(draft, old(Stored()), parse) else old(Stored())
    {
      if saveOk {
        var text := if draft.key == "" then key else draft.key;
        var n := SizeOf(text, parse);
        var kept, pending := draft.status, draft.status.Keys;
        while pending != {}
          invariant pending <= draft.status.Keys && kept.Keys <= draft.status.Keys
          invariant forall i: int :: i in kept ==> kept[i] == draft.status[i]
          invariant forall i: int :: i in draft.status ==> (i in kept <==> i in pending || i < n)
          decreases pending
        {
          var idx := Pick(pending);
          if idx >= n { kept := kept - {idx}; }
          pending := pending - {idx};
        }
        var want := map i: int | i in draft.status && i < n :: draft.status[i];
        assert forall i: int :: i in kept <==> i in want;
        assert kept == want;
        key, size, status, time, reason := text, n, kept, draft.time, draft.reason;
      }
    }

    /** get_key_status without paging: what is shown for every key, and how many keys are
        enabled, disabled and auto-disabled. */
    method KeyStatuses() returns (list: seq<Entry>, enabled: nat, manual: nat, automatic: nat)
      ensures list == Report(View(Stored(), parse))
      ensures enabled == Count(list, ENABLED) && manual == Count(list, DISABLED) &&
        automatic == Count(list, AUTO_DISABLED)
    {
      var keys := KeysOf(key, parse);
      ghost var shown := Report(View(Stored(), parse));
      list, enabled, manual, automatic := [], 0, 0, 0;
      for i := 0 to |keys|
        invariant list == shown[..i]
        invariant enabled == Count(list, ENABLED) && manual == Count(list, DISABLED) &&
          automatic == Count(list, AUTO_DISABLED)
      {
        var current := if i in status then status[i] else ENABLED;
        match current {
          case 1 => enabled := enabled + 1;
          case 2 => manual := manual + 1;
          case 3 => automatic := automatic + 1;
          case _ =>
        }
        var disabledTime: Option<int>, why: Option<string> := None, None;
        if current != ENABLED {
          if i in time { disabledTime := Some(time[i]); }
          if i in reason { why := Some(reason[i]); }
        }
        var e := Entry(keys[i], current, disabledTime, why);
        assert e == shown[i] && (list + [e])[..|list|] == list;
        list := list + [e];
      }
    }

    method DisableKey(index: Option<int>, saveOk: bool) returns (done: bool)
      modifies this`key, this`size, this`status, this`time, this`reason
      ensures done == (index.Some? && 0 <= index.value < old(size) && saveOk)
      ensures Stored() == if done then Do(old(Stored()), MultiKey.DisableKey(index.value), parse) else old(Stored())
    {
      if index.None? || index.value < 0 || index.value >= size { return false; }
      Update(Stored().(status := status[index.value := DISABLED]), saveOk);
      return saveOk;
    }

    method EnableKey(index: Option<int>, saveOk: bool) returns (done: bool)
      modifies this`key, this`size, this`status, this`time, this`reason
      ensures done == (index.Some? && 0 <= index.value < old(size) && saveOk)
      ensures Stored() == if done then Do(old(Stored()), MultiKey.EnableKey(index.value), parse) else old(Stored())
    {
      if index.None? || index.value < 0 || index.value >= size { return false; }
      var k := index.value;
      var draft := Stored().(status := status - {k}, time := time - {k}, reason := reason - {k});
      Update(draft, saveOk);
      return saveOk;
    }

    method EnableAllKeys(saveOk: bool) returns (done: bool)
      modifies this`key, this`size, this`status, this`time, this`reason
      ensures done == saveOk
      ensures Stored() == if done then Do(old(Stored()), EnableAll, parse) else old(Stored())
    {
      Update(Stored().(status := map[], time := map[], reason := map[]), saveOk);
      return saveOk;
    }

    method DisableAllKeys(saveOk: bool) returns (done: bool)
      modifies this`key, this`size, this`status, this`time, this`reason
      ensures done == (saveOk && exists i :: 0 <= i < old(size) && StatusAt(old(Stored()), i) == ENABLED)
      ensures Stored() == if done then Do(old(Stored()), DisableAll, parse) else old(Stored())
    {
      var next, disabledCount := CollectDisabled(Stored());
      if disabledCount == 0 { return false; }
      Update(Stored().(status := next), saveOk);
      return saveOk;
    }

    method DeleteKey(index: Option<int>, saveOk: bool) returns (done: bool)
      modifies this`key, this`size, this`status, this`time, this`reason
      ensures done == (index.Some? && 0 <= index.value < old(size) && saveOk &&
                       RemoveAt(View(old(Stored()), parse), index.value) != [])
      ensures Stored() == if done then DoDelete(old(Stored()), index.value, parse) else old(Stored())
    {
      if index.None? || index.value < 0 || index.value >= size { return false; }
      var row, k := Stored(), index.value;
      var remaining, newStatus, newTime, newReason := CollectOthers(row, k, parse);
      if |remaining| == 0 { return false; }
      var draft := State(Join(remaining, '\n'), |remaining|, newStatus, newTime, newReason);
      BuiltIsEncoded(RemoveAt(View(row, parse), k), remaining, newStatus, newTime, newReason);
      DeletionDoes(row, k, draft, parse);
      Update(draft, saveOk);
      return saveOk;
    }

    method DeleteDisabledKeys(saveOk: bool) returns (done: bool)
      modifies this`key, this`size, this`status, this`time, this`reason
      ensures done == (saveOk && |Survivors(View(old(Stored()), parse))| < |View(old(Stored()), parse)|)
      ensures Stored() == if done then DoPurge(old(Stored()), parse) else old(Stored())
    {
      var row := Stored();
      var remaining, newStatus, newTime, newReason, deletedCount := CollectSurvivors(row, parse);
      if deletedCount == 0 { return false; }
      var draft := State(Join(remaining, '\n'), |remaining|, newStatus, newTime, newReason);
      BuiltIsEncoded(Survivors(View(row, parse)), remaining, newStatus, newTime, newReason);
      PurgeDoes(row, draft, parse);
      Update(draft, saveOk);
      return saveOk;
    }

    /** handlerMultiKeyUpdate: the runtime disables or re-enables the key it was using. */
    method RuntimeUpdate(usingKey: string, newStatus: int, why: string, now: int)
      modifies this`status, this`time, this`reason
      ensures Stored() == Do(old(Stored()), Runtime(usingKey, newStatus, why, now), parse)
    {
      var keys := KeysOf(key, parse);
      if |keys| == 0 { return; }
      var keyIndex := 0;
      var i := 0;
      KeyIndexInRange(keys, usingKey);
      while i < |keys|
        invariant 0 <= i <= |keys| && keyIndex == 0
        invariant forall j :: 0 <= j < i ==> keys[j] != usingKey
      {
        if keys[i] == usingKey {
          keyIndex := i;
          break;
        }
        i := i + 1;
      }
      assert keyIndex == KeyIndex(keys, usingKey) by {
        if usingKey in keys { assert keys[KeyIndex(keys, usingKey)] == usingKey; }
      }
      if newStatus == ENABLED {
        status := status - {keyIndex};
      } else {
        status := status[keyIndex := newStatus];
        reason := reason[keyIndex := why];
        time := time[keyIndex := now];
      }
    }
  }
}
