/** Multi-key channels: the actions of ManageMultiKeys (controller/channel.go), the storage step
    Channel.Update and the runtime's status changes (model/channel.go).  Keys live in one text,
    their attributes in three maps indexed by position. */
module MultiKey {
  import opened Basics
  import opened Text

  /** How a bracketed key text parses as a JSON array, if it does. */
  type JsonArray = string -> Option<seq<string>>

  datatype State = State(
    key: string, size: nat, status: map<int, int>, time: map<int, int>, reason: map<int, string>)

  const ENABLED := 1
  const DISABLED := 2
  const AUTO_DISABLED := 3

  predicate Bracketed(text: string) {
    var t := TrimSpace(text);
    t != "" && t[0] == '['
  }

  /** Channel.GetKeys. */
  function KeysOf(text: string, parse: JsonArray): seq<string> {
    if text == "" then []
    else if Bracketed(text) && parse(TrimSpace(text)).Some? then parse(TrimSpace(text)).value
    else Pieces(text, '\n')
  }

  /** The key count as Channel.Update recomputes it. */
  function SizeOf(text: string, parse: JsonArray): nat {
    if text == "" then 0
    else if Bracketed(text) && parse(TrimSpace(text)).Some? && parse(TrimSpace(text)).value != []
    then |parse(TrimSpace(text)).value|
    else |Pieces(text, '\n')|
  }

  // ---------- the keys with their attributes ----------

  datatype Entry = Entry(key: string, status: int, time: Option<int>, reason: Option<string>)

  function Find<T>(m: map<int, T>, i: int): Option<T> { if i in m then Some(m[i]) else None }

  function StatusAt(s: State, i: int): int { if i in s.status then s.status[i] else ENABLED }

  /** Everything stored about every key, in key order. */
  function View(s: State, parse: JsonArray): seq<Entry> {
    var keys := KeysOf(s.key, parse);
    seq(|keys|, i requires 0 <= i < |keys| => Entry(keys[i], StatusAt(s, i), Find(s.time, i), Find(s.reason, i)))
  }

  /** What get_key_status shows: time and reason of keys that are not enabled. */
  function Shown(e: Entry): Entry { if e.status == ENABLED then e.(time := None, reason := None) else e }

  function Texts(v: seq<Entry>): seq<string> { seq(|v|, i requires 0 <= i < |v| => v[i].key) }

  /** The attribute maps of a list of entries, indexed from zero; enabled keys get no status. */
  function StatusMap(v: seq<Entry>): map<int, int> {
    if v == [] then map[] else
    var n, m := |v| - 1, StatusMap(v[..|v| - 1]);
    if v[n].status != ENABLED then m[n := v[n].status] else m
  }

  function TimeMap(v: seq<Entry>): map<int, int> {
    if v == [] then map[] else
    var n, m := |v| - 1, TimeMap(v[..|v| - 1]);
    if v[n].time.Some? then m[n := v[n].time.value] else m
  }

  function ReasonMap(v: seq<Entry>): map<int, string> {
    if v == [] then map[] else
    var n, m := |v| - 1, ReasonMap(v[..|v| - 1]);
    if v[n].reason.Some? then m[n := v[n].reason.value] else m
  }

  /** Storing a list of entries. */
  function Encode(v: seq<Entry>): State {
    State(Join(Texts(v), '\n'), |v|, StatusMap(v), TimeMap(v), ReasonMap(v))
  }

  /** Channel.Update on the stored `row`: an empty key text means "not provided" and keeps the old
      one, the size is recounted, and status entries past it are dropped. */
  function Save(s: State, row: State, parse: JsonArray): State {
    var key := if s.key == "" then row.key else s.key;
    var n := SizeOf(key, parse);
    s.(key := key, size := n, status := map i: int | i in s.status && i < n :: s.status[i])
  }

  // ---------- the actions on entries ----------

  datatype Action =
    | DisableKey(k: int)
    | EnableKey(k: int)
    | EnableAll
    | DisableAll
    | DeleteKey(k: int)
    | DeleteDisabled
    | Runtime(usingKey: string, status: int, reason: string, now: int)

  function RemoveAt<T>(v: seq<T>, k: int): seq<T> {
    if 0 <= k < |v| then v[..k] + v[k + 1..] else v
  }

  /** What delete_disabled_keys keeps: all but the auto-disabled keys; enabled keys lose
      whatever time and reason was still recorded for them. */
  function Survivors(v: seq<Entry>): seq<Entry> {
    if v == [] then [] else
    Survivors(v[..|v| - 1]) + if v[|v| - 1].status == AUTO_DISABLED then [] else [Shown(v[|v| - 1])]
  }

  function Reset(v: seq<Entry>): seq<Entry> {
    seq(|v|, i requires 0 <= i < |v| => Entry(v[i].key, ENABLED, None, None))
  }

  /** The first position of a key, or the first position when it is missing. */
  function KeyIndex(keys: seq<string>, usingKey: string): nat {
    if keys == [] || usingKey !in keys then 0
    else if keys[0] == usingKey then 0 else 1 + KeyIndex(keys[1..], usingKey)
  }

  lemma {:induction false} KeyIndexInRange(keys: seq<string>, usingKey: string)
    ensures keys != [] ==> KeyIndex(keys, usingKey) < |keys|
    ensures usingKey in keys ==> keys[KeyIndex(keys, usingKey)] == usingKey
    ensures usingKey in keys ==> forall i :: 0 <= i < KeyIndex(keys, usingKey) ==> keys[i] != usingKey
    ensures usingKey !in keys ==> KeyIndex(keys, usingKey) == 0
  {
    if keys != [] && usingKey in keys && keys[0] != usingKey { KeyIndexInRange(keys[1..], usingKey); }
  }

  function Mark(e: Entry, status: int, reason: string, now: int): Entry {
    if status == ENABLED then e.(status := ENABLED) else e.(status := status, time := Some(now), reason := Some(reason))
  }

  /** The meaning of an action: a change of the entry list and nothing else. */
  function Meaning(v: seq<Entry>, a: Action): seq<Entry> {
    match a
    case DisableKey(k) => if 0 <= k < |v| then v[k := v[k].(status := DISABLED)] else v
    case EnableKey(k) => if 0 <= k < |v| then v[k := Entry(v[k].key, ENABLED, None, None)] else v
    case EnableAll => Reset(v)
    case DisableAll => seq(|v|, i requires 0 <= i < |v| =>
      if v[i].status == ENABLED then v[i].(status := DISABLED) else v[i])
    case DeleteKey(k) => if 0 <= k < |v| && |v| > 1 then RemoveAt(v, k) else v
    case DeleteDisabled =>
      if |Survivors(v)| == |v| then v
      else if Survivors(v) == [] then Reset(v)
      else Survivors(v)
    case Runtime(usingKey, status, reason, now) =>
      if v == [] then v else
      KeyIndexInRange(Texts(v), usingKey);
      var k := KeyIndex(Texts(v), usingKey);
      v[k := Mark(v[k], status, reason, now)]
  }

  // ---------- the actions on the stored row ----------

  function Do(s: State, a: Action, parse: JsonArray): State {
    match a
    case DisableKey(k) =>
      if 0 <= k < s.size then Save(s.(status := s.status[k := DISABLED]), s, parse) else s
    case EnableKey(k) =>
      if 0 <= k < s.size
      then Save(s.(status := s.status - {k}, time := s.time - {k}, reason := s.reason - {k}), s, parse) else s
    case EnableAll => Save(s.(status := map[], time := map[], reason := map[]), s, parse)
    case DisableAll =>
      if exists i :: 0 <= i < s.size && StatusAt(s, i) == ENABLED
      then Save(s.(status := Disabled(s, s.size)), s, parse) else s
    case DeleteKey(k) => DoDelete(s, k, parse)
    case DeleteDisabled => DoPurge(s, parse)
    case Runtime(usingKey, status, reason, now) => DoRuntime(s, usingKey, status, reason, now, parse)
  }

  /** The status map with the enabled ones among the first n keys disabled. */
  function Disabled(s: State, n: nat): map<int, int> {
    if n == 0 then s.status
    else if StatusAt(s, n - 1) == ENABLED then Disabled(s, n - 1)[n - 1 := DISABLED] else Disabled(s, n - 1)
  }

  function DoDelete(s: State, k: int, parse: JsonArray): State {
    var kept := RemoveAt(View(s, parse), k);
    if 0 <= k < s.size && kept != [] then Save(Encode(kept), s, parse) else s
  }

  function DoPurge(s: State, parse: JsonArray): State {
    var kept := Survivors(View(s, parse));
    if |kept| == |View(s, parse)| then s else Save(Encode(kept), s, parse)
  }

  function DoRuntime(s: State, usingKey: string, status: int, reason: string, now: int, parse: JsonArray): State {
    var keys := KeysOf(s.key, parse);
    if keys == [] then s else
    var k := KeyIndex(keys, usingKey);
    if status == ENABLED then s.(status := s.status - {k})
    else s.(status := s.status[k := status], time := s.time[k := now], reason := s.reason[k := reason])
  }

  /** Sizes agree and no map mentions a position without a key. */
  ghost predicate Valid(s: State, parse: JsonArray) {
    && s.size == SizeOf(s.key, parse) == |KeysOf(s.key, parse)|
    && (forall i: int :: i in s.status ==> 0 <= i < s.size)
    && (forall i: int :: i in s.time ==> 0 <= i < s.size)
    && (forall i: int :: i in s.reason ==> 0 <= i < s.size)
  }

  /** A key text free of line breaks whose first visible character is not a bracket. */
  predicate Plain(key: string) { key != "" && '\n' !in key && !Bracketed(key) }

  predicate AllPlain(keys: seq<string>) { forall i :: 0 <= i < |keys| ==> Plain(keys[i]) }

  // ---------- storing a list of keys ----------

  /** The first visible character. */
  function Ink(s: string): Option<char> {
    if s == "" then None else if IsSpace(s[0]) then Ink(s[1..]) else Some(s[0])
  }

  lemma {:induction false} InkConcat(a: string, b: string)
    ensures Ink(a + b) == if Ink(a).Some? then Ink(a) else Ink(b)
  {
    if a == "" {
      assert a + b == b;
    } else {
      assert (a + b)[1..] == a[1..] + b;
      InkConcat(a[1..], b);
    }
  }

  lemma {:induction false} InkTrims(s: string)
    ensures Ink(s) == if TrimLeft(s, Space()) == "" then None else Some(TrimLeft(s, Space())[0])
  {
    if s != "" && IsSpace(s[0]) { InkTrims(s[1..]); }
  }

  lemma BracketedByInk(s: string)
    ensures Bracketed(s) <==> Ink(s) == Some('[')
  {
    InkTrims(s);
    var l := TrimLeft(s, Space());
    TrimLeftFacts(s, Space());
    TrimRightFacts(l, Space());
    var k :| 0 <= k <= |l| && TrimRight(l, Space()) == l[..k];
    if l != "" && k == 0 { TrimRightNonEmpty(l, Space(), 0); }
  }

  /** Cutting at the right cannot pass a character that is not cut. */
  lemma {:induction false} TrimRightNonEmpty(s: string, cut: char -> bool, i: nat)
    requires i < |s| && !cut(s[i])
    ensures |TrimRight(s, cut)| > i
  {
    if cut(s[|s| - 1]) { TrimRightNonEmpty(s[..|s| - 1], cut, i); }
  }

  lemma {:induction false} InkOfJoin(keys: seq<string>)
    requires AllPlain(keys)
    ensures Ink(Join(keys, '\n')) != Some('[')
  {
    if keys != [] {
      BracketedByInk(keys[0]);
      if |keys| > 1 {
        InkOfJoin(keys[1..]);
        InkConcat(keys[0] + ['\n'], Join(keys[1..], '\n'));
        InkConcat(keys[0], ['\n']);
      }
    }
  }

  /** A list that the newline format can hold. */
  predicate Storable(keys: seq<string>) {
    keys != [] && Free(keys, '\n') && keys[0] != "" && keys[|keys| - 1] != ""
  }

  /** The text is read as a JSON array. */
  predicate Parses(text: string, parse: JsonArray) { Bracketed(text) && parse(TrimSpace(text)).Some? }

  /** A list that survives being stored: its text parses as this very list, or does not parse and
      is storable line by line. */
  predicate ReadsBack(keys: seq<string>, parse: JsonArray) {
    var text := Join(keys, '\n');
    if Parses(text, parse) then parse(TrimSpace(text)).value == keys else Storable(keys)
  }

  /** A list of lines reads back line by line exactly when it is storable. */
  lemma StoredLines(keys: seq<string>)
    requires keys != []
    ensures Pieces(Join(keys, '\n'), '\n') == keys <==> Storable(keys)
    ensures Storable(keys) ==> Join(keys, '\n') != ""
  {
    if Free(keys, '\n') {
      PiecesOfJoin(keys, '\n');
      if Storable(keys) { JoinTight(keys, '\n'); }
    } else {
      PiecesFree(Join(keys, '\n'), '\n');
    }
  }

  /** Any list, however its text parses: it reads back, with its count, exactly in those cases. */
  lemma StoredList(keys: seq<string>, parse: JsonArray)
    ensures KeysOf(Join(keys, '\n'), parse) == keys <==> keys == [] || ReadsBack(keys, parse)
    ensures ReadsBack(keys, parse) ==> Join(keys, '\n') != "" && SizeOf(Join(keys, '\n'), parse) == |keys| > 0
  {
    if keys != [] { StoredLines(keys); }
  }

  lemma PlainReadsBack(keys: seq<string>, parse: JsonArray)
    requires AllPlain(keys) && keys != []
    ensures Storable(keys) && ReadsBack(keys, parse)
  {
    InkOfJoin(keys);
    BracketedByInk(Join(keys, '\n'));
  }

  lemma {:induction false} MapsHold(v: seq<Entry>)
    ensures forall i: int :: i in StatusMap(v) <==> 0 <= i < |v| && v[i].status != ENABLED
    ensures forall i: int :: i in StatusMap(v) ==> StatusMap(v)[i] == v[i].status
    ensures forall i: int :: Find(TimeMap(v), i) == if 0 <= i < |v| then v[i].time else None
    ensures forall i: int :: Find(ReasonMap(v), i) == if 0 <= i < |v| then v[i].reason else None
  {
    if v != [] {
      var n, init := |v| - 1, v[..|v| - 1];
      MapsHold(init);
      forall i: int
        ensures Find(TimeMap(v), i) == if 0 <= i < |v| then v[i].time else None
        ensures Find(ReasonMap(v), i) == if 0 <= i < |v| then v[i].reason else None
      {
        assert Find(TimeMap(init), i) == if 0 <= i < n then init[i].time else None;
        assert Find(ReasonMap(init), i) == if 0 <= i < n then init[i].reason else None;
      }
    }
  }

  /** Saving an encoded list that reads back shows exactly that list. */
  lemma SaveEncoded(v: seq<Entry>, row: State, parse: JsonArray)
    requires ReadsBack(Texts(v), parse)
    ensures View(Save(Encode(v), row, parse), parse) == v
    ensures Valid(Save(Encode(v), row, parse), parse)
  {
    StoredList(Texts(v), parse);
    MapsHold(v);
    var s := Save(Encode(v), row, parse);
    assert forall i: int :: i in s.time ==> Find(s.time, i).Some?;
    assert forall i: int :: i in s.reason ==> Find(s.reason, i).Some?;
  }

  /** The recounted size is the number of keys unless the text parses as the empty list: the key
      text "[]" then counts as one key and yields none. */
  lemma SizeIsCountIff(text: string, parse: JsonArray)
    ensures SizeOf(text, parse) == |KeysOf(text, parse)| <==>
            !(Bracketed(text) && parse(TrimSpace(text)) == Some([]))
  {
  }

  /** Whatever is saved on whatever row: an empty text leaves the stored one, statuses stay exactly
      below the size, times and reasons stay. */
  lemma SavedFacts(draft: State, row: State, i: int, parse: JsonArray)
    ensures var s := Save(draft, row, parse);
      && s.key == (if draft.key != "" then draft.key else row.key)
      && (parse(TrimSpace(s.key)) != Some([]) ==> s.size == |KeysOf(s.key, parse)|)
      && (i in s.status ==> i < s.size) && (i < s.size ==> Find(s.status, i) == Find(draft.status, i))
      && Find(s.time, i) == Find(draft.time, i) && Find(s.reason, i) == Find(draft.reason, i)
  {
    SizeIsCountIff(Save(draft, row, parse).key, parse);
  }

  /** Saving with an empty key text keeps every key and forgets every attribute. */
  lemma SaveNothing(row: State, parse: JsonArray)
    requires Valid(row, parse)
    ensures View(Save(Encode([]), row, parse), parse) == Reset(View(row, parse))
    ensures Valid(Save(Encode([]), row, parse), parse)
  {
  }

  /** Saving new attributes under unchanged keys stores them all. */
  lemma SaveInPlace(draft: State, row: State, parse: JsonArray)
    requires Valid(row, parse) && draft.key == row.key
    requires forall i: int :: i in draft.status ==> 0 <= i < row.size
    ensures Save(draft, row, parse) == draft.(size := row.size)
  {
    var s := Save(draft, row, parse);
    assert s.status == draft.status;
  }

  lemma ViewTexts(s: State, parse: JsonArray)
    ensures Texts(View(s, parse)) == KeysOf(s.key, parse)
  {
  }

  // ---------- the stored row means the entry list ----------

  /** What is left after an action that removes keys can be stored. */
  predicate StepReadsBack(v: seq<Entry>, a: Action, parse: JsonArray) {
    match a
    case DeleteKey(k) => 0 <= k < |v| && |v| > 1 ==> ReadsBack(Texts(RemoveAt(v, k)), parse)
    case DeleteDisabled => 0 < |Survivors(v)| < |v| ==> ReadsBack(Texts(Survivors(v)), parse)
    case _ => true
  }

  /** Every action on any valid channel changes the entry list as it means, if and only if what
      it leaves can be stored; the channel is then valid again. */
  lemma {:induction false} DoRefines(s: State, a: Action, parse: JsonArray)
    requires Valid(s, parse)
    ensures View(Do(s, a, parse), parse) == Meaning(View(s, parse), a) <==> StepReadsBack(View(s, parse), a, parse)
    ensures StepReadsBack(View(s, parse), a, parse) ==> Valid(Do(s, a, parse), parse)
  {
    match a
    case DeleteKey(k) => DeleteRefines(s, k, parse);
    case DeleteDisabled => PurgeRefines(s, parse);
    case Runtime(usingKey, status, reason, now) => RuntimeRefines(s, a, parse);
    case _ => AttributesRefine(s, a, parse);
  }

  lemma AttributesRefine(s: State, a: Action, parse: JsonArray)
    requires Valid(s, parse) && (a.DisableKey? || a.EnableKey? || a.EnableAll? || a.DisableAll?)
    ensures var s' := Do(s, a, parse);
      View(s', parse) == Meaning(View(s, parse), a) && Valid(s', parse) && s'.key == s.key
  {
    match a
    case DisableKey(k) => DisableRefines(s, k, parse);
    case EnableKey(k) => EnableRefines(s, k, parse);
    case EnableAll => ResetRefines(s, parse);
    case DisableAll => DisableAllRefines(s, parse);
  }

  lemma DisableRefines(s: State, k: int, parse: JsonArray)
    requires Valid(s, parse)
    ensures var s' := Do(s, DisableKey(k), parse);
      View(s', parse) == Meaning(View(s, parse), DisableKey(k)) && Valid(s', parse) && s'.key == s.key
  {
    if 0 <= k < s.size {
      SaveInPlace(s.(status := s.status[k := DISABLED]), s, parse);
      assert View(Do(s, DisableKey(k), parse), parse) == Meaning(View(s, parse), DisableKey(k));
    }
  }

  lemma EnableRefines(s: State, k: int, parse: JsonArray)
    requires Valid(s, parse)
    ensures var s' := Do(s, EnableKey(k), parse);
      View(s', parse) == Meaning(View(s, parse), EnableKey(k)) && Valid(s', parse) && s'.key == s.key
  {
    if 0 <= k < s.size {
      SaveInPlace(s.(status := s.status - {k}, time := s.time - {k}, reason := s.reason - {k}), s, parse);
      assert View(Do(s, EnableKey(k), parse), parse) == Meaning(View(s, parse), EnableKey(k));
    }
  }

  lemma ResetRefines(s: State, parse: JsonArray)
    requires Valid(s, parse)
    ensures var s' := Do(s, EnableAll, parse);
      View(s', parse) == Meaning(View(s, parse), EnableAll) && Valid(s', parse) && s'.key == s.key
  {
    SaveInPlace(s.(status := map[], time := map[], reason := map[]), s, parse);
    assert View(Do(s, EnableAll, parse), parse) == Reset(View(s, parse));
  }

  lemma {:induction false} DisabledFacts(s: State, n: nat)
    ensures forall i: int :: i in Disabled(s, n) <==> i in s.status || (0 <= i < n && StatusAt(s, i) == ENABLED)
    ensures forall i: int :: i in Disabled(s, n) ==>
              Disabled(s, n)[i] == if 0 <= i < n && StatusAt(s, i) == ENABLED then DISABLED else s.status[i]
  {
    if n > 0 { DisabledFacts(s, n - 1); }
  }

  lemma DisableAllRefines(s: State, parse: JsonArray)
    requires Valid(s, parse)
    ensures var s' := Do(s, DisableAll, parse);
      View(s', parse) == Meaning(View(s, parse), DisableAll) && Valid(s', parse) && s'.key == s.key
  {
    DisabledFacts(s, s.size);
    SaveInPlace(s.(status := Disabled(s, s.size)), s, parse);
    var v, v' := View(s, parse), View(Do(s, DisableAll, parse), parse);
    forall i | 0 <= i < |v|
      ensures v'[i] == if v[i].status == ENABLED then v[i].(status := DISABLED) else v[i]
    {
      assert v[i].status == StatusAt(s, i);
    }
    assert v' == Meaning(v, DisableAll);
  }

  lemma RuntimeRefines(s: State, a: Action, parse: JsonArray)
    requires Valid(s, parse) && a.Runtime?
    ensures var s' := Do(s, a, parse);
      View(s', parse) == Meaning(View(s, parse), a) && Valid(s', parse) && s'.key == s.key
  {
    var keys, v := KeysOf(s.key, parse), View(s, parse);
    ViewTexts(s, parse);
    KeyIndexInRange(keys, a.usingKey);
    if keys != [] { MarkRefines(s, KeyIndex(keys, a.usingKey), a, parse); }
  }

  lemma MarkRefines(s: State, k: nat, a: Action, parse: JsonArray)
    requires Valid(s, parse) && a.Runtime? && k == KeyIndex(KeysOf(s.key, parse), a.usingKey) && k < |View(s, parse)|
    ensures var v := View(s, parse);
      View(DoRuntime(s, a.usingKey, a.status, a.reason, a.now, parse), parse) ==
        v[k := Mark(v[k], a.status, a.reason, a.now)]
  {
    var v, v' := View(s, parse), View(DoRuntime(s, a.usingKey, a.status, a.reason, a.now, parse), parse);
    forall i | 0 <= i < |v| ensures v'[i] == if i == k then Mark(v[k], a.status, a.reason, a.now) else v[i] { }
  }

  /** Saving fewer entries than there are keys stores exactly them if and only if they read back. */
  lemma SavedListIff(w: seq<Entry>, row: State, parse: JsonArray)
    requires Valid(row, parse) && |w| < row.size
    ensures View(Save(Encode(w), row, parse), parse) == w <==> ReadsBack(Texts(w), parse)
    ensures ReadsBack(Texts(w), parse) ==> Valid(Save(Encode(w), row, parse), parse)
  {
    if w == [] {
      SaveNothing(row, parse);
    } else if ReadsBack(Texts(w), parse) {
      SaveEncoded(w, row, parse);
    } else {
      StoredList(Texts(w), parse);
      ViewTexts(Save(Encode(w), row, parse), parse);
    }
  }

  /** delete_key removes exactly entry k, whatever the keys are, if and only if the remaining list
      reads back: a blank end would be trimmed and the attributes would slip, and a text that
      begins with a bracket may be taken for a JSON array. */
  lemma DeleteIff(s: State, k: int, parse: JsonArray)
    requires Valid(s, parse) && 0 <= k < s.size && s.size > 1
    ensures View(DoDelete(s, k, parse), parse) == RemoveAt(View(s, parse), k)
            <==> ReadsBack(Texts(RemoveAt(View(s, parse), k)), parse)
    ensures ReadsBack(Texts(RemoveAt(View(s, parse), k)), parse) ==> Valid(DoDelete(s, k, parse), parse)
  {
    SavedListIff(RemoveAt(View(s, parse), k), s, parse);
  }

  lemma DeleteRefines(s: State, k: int, parse: JsonArray)
    requires Valid(s, parse)
    ensures View(DoDelete(s, k, parse), parse) == Meaning(View(s, parse), DeleteKey(k))
            <==> StepReadsBack(View(s, parse), DeleteKey(k), parse)
    ensures StepReadsBack(View(s, parse), DeleteKey(k), parse) ==> Valid(DoDelete(s, k, parse), parse)
  {
    if 0 <= k < s.size && s.size > 1 { DeleteIff(s, k, parse); }
  }

  lemma {:induction false} SurvivorsComeFrom(v: seq<Entry>)
    ensures forall i :: 0 <= i < |Survivors(v)| ==> Survivors(v)[i].key in Texts(v)
    ensures |Survivors(v)| <= |v|
  {
    if v != [] {
      SurvivorsComeFrom(v[..|v| - 1]);
      assert Texts(v) == Texts(v[..|v| - 1]) + [v[|v| - 1].key];
    }
  }

  /** delete_disabled_keys leaves exactly the survivors, whatever the keys are, if and only if
      their list reads back, which takes at least one.  When every key is auto-disabled the
      action deletes nothing and instead enables every key. */
  lemma {:induction false} PurgeIff(s: State, parse: JsonArray)
    requires Valid(s, parse) && |Survivors(View(s, parse))| < s.size
    ensures View(DoPurge(s, parse), parse) == Survivors(View(s, parse))
            <==> ReadsBack(Texts(Survivors(View(s, parse))), parse)
    ensures ReadsBack(Texts(Survivors(View(s, parse))), parse) ==> Valid(DoPurge(s, parse), parse)
    ensures Survivors(View(s, parse)) == [] ==>
              View(DoPurge(s, parse), parse) == Reset(View(s, parse)) && Valid(DoPurge(s, parse), parse)
  {
    SavedListIff(Survivors(View(s, parse)), s, parse);
    SaveNothing(s, parse);
  }

  lemma PurgeRefines(s: State, parse: JsonArray)
    requires Valid(s, parse)
    ensures View(DoPurge(s, parse), parse) == Meaning(View(s, parse), DeleteDisabled)
            <==> StepReadsBack(View(s, parse), DeleteDisabled, parse)
    ensures StepReadsBack(View(s, parse), DeleteDisabled, parse) ==> Valid(DoPurge(s, parse), parse)
  {
    SurvivorsComeFrom(View(s, parse));
    if |Survivors(View(s, parse))| < s.size { PurgeIff(s, parse); }
  }

  // ---------- whole runs ----------

  function Run(s: State, acts: seq<Action>, parse: JsonArray): State
    decreases acts
  {
    if acts == [] then s else Run(Do(s, acts[0], parse), acts[1..], parse)
  }

  lemma RunTwo(s: State, a: Action, b: Action, parse: JsonArray)
    ensures Run(s, [a, b], parse) == Do(Do(s, a, parse), b, parse)
  {
    assert [a, b][1..] == [b] && [b][1..] == [];
    assert Run(Do(s, a, parse), [b], parse) == Run(Do(Do(s, a, parse), b, parse), [], parse);
  }

  function RunMeaning(v: seq<Entry>, acts: seq<Action>): seq<Entry>
    decreases acts
  {
    if acts == [] then v else RunMeaning(Meaning(v, acts[0]), acts[1..])
  }

  /** Whatever each action of the run leaves can be stored. */
  predicate RunReadsBack(v: seq<Entry>, acts: seq<Action>, parse: JsonArray)
    decreases acts
  {
    acts != [] ==> StepReadsBack(v, acts[0], parse) && RunReadsBack(Meaning(v, acts[0]), acts[1..], parse)
  }

  /** Over such a run the three maps and the key text stay in step: the size is the number of
      keys, no map mentions a missing position, and the entries are what the run means. */
  lemma {:induction false} RunRefines(s: State, acts: seq<Action>, parse: JsonArray)
    requires Valid(s, parse) && RunReadsBack(View(s, parse), acts, parse)
    ensures Valid(Run(s, acts, parse), parse)
    ensures View(Run(s, acts, parse), parse) == RunMeaning(View(s, parse), acts)
    decreases acts
  {
    if acts != [] {
      DoRefines(s, acts[0], parse);
      RunRefines(Do(s, acts[0], parse), acts[1..], parse);
    }
  }

  /** The entries are what the run means after every one of its actions. */
  ghost predicate InStep(s: State, acts: seq<Action>, parse: JsonArray) {
    forall n :: 0 <= n <= |acts| ==> View(Run(s, acts[..n], parse), parse) == RunMeaning(View(s, parse), acts[..n])
  }

  /** And over no other: a run of any actions on any valid channel stays in step if and only if
      whatever each action leaves can be stored. */
  lemma {:induction false} RunStaysInStepIff(s: State, acts: seq<Action>, parse: JsonArray)
    requires Valid(s, parse)
    ensures InStep(s, acts, parse) <==> RunReadsBack(View(s, parse), acts, parse)
    decreases acts
  {
    if acts != [] {
      DoRefines(s, acts[0], parse);
      if InStep(s, acts, parse) { FirstStep(s, acts, parse); }
      if StepReadsBack(View(s, parse), acts[0], parse) {
        LaterSteps(s, acts, parse);
        RunStaysInStepIff(Do(s, acts[0], parse), acts[1..], parse);
      }
    }
  }

  lemma FirstStep(s: State, acts: seq<Action>, parse: JsonArray)
    requires acts != [] && InStep(s, acts, parse)
    ensures View(Do(s, acts[0], parse), parse) == Meaning(View(s, parse), acts[0])
  {
    var first := acts[..1];
    assert first[0] == acts[0] && first[1..] == [];
    assert Run(s, first, parse) == Do(s, acts[0], parse) &&
      RunMeaning(View(s, parse), first) == Meaning(View(s, parse), acts[0]);
  }

  lemma LaterSteps(s: State, acts: seq<Action>, parse: JsonArray)
    requires acts != [] && View(Do(s, acts[0], parse), parse) == Meaning(View(s, parse), acts[0])
    ensures InStep(s, acts, parse) <==> InStep(Do(s, acts[0], parse), acts[1..], parse)
  {
    var s', rest := Do(s, acts[0], parse), acts[1..];
    if InStep(s, acts, parse) {
      forall n | 0 <= n <= |rest|
        ensures View(Run(s', rest[..n], parse), parse) == RunMeaning(View(s', parse), rest[..n])
      {
        OneLater(s, acts, n, parse);
      }
    }
    if InStep(s', rest, parse) {
      forall n | 0 <= n <= |acts|
        ensures View(Run(s, acts[..n], parse), parse) == RunMeaning(View(s, parse), acts[..n])
      {
        if n > 0 { OneLater(s, acts, n - 1, parse); }
      }
    }
  }

  lemma OneLater(s: State, acts: seq<Action>, n: nat, parse: JsonArray)
    requires n < |acts|
    ensures Run(s, acts[..n + 1], parse) == Run(Do(s, acts[0], parse), acts[1..][..n], parse)
    ensures RunMeaning(View(s, parse), acts[..n + 1]) == RunMeaning(Meaning(View(s, parse), acts[0]), acts[1..][..n])
  {
    assert acts[..n + 1][0] == acts[0] && acts[..n + 1][1..] == acts[1..][..n];
  }

  /** In particular every run on plain keys stays in step. */
  lemma {:induction false} PlainRunsReadBack(v: seq<Entry>, acts: seq<Action>, parse: JsonArray)
    requires AllPlain(Texts(v))
    ensures RunReadsBack(v, acts, parse)
    decreases acts
  {
    if acts != [] {
      PlainStepReadsBack(v, acts[0], parse);
      PlainRunsReadBack(Meaning(v, acts[0]), acts[1..], parse);
    }
  }

  lemma PlainStepReadsBack(v: seq<Entry>, a: Action, parse: JsonArray)
    requires AllPlain(Texts(v))
    ensures StepReadsBack(v, a, parse) && AllPlain(Texts(Meaning(v, a)))
  {
    var w := Meaning(v, a);
    forall i | 0 <= i < |Texts(w)| ensures Plain(Texts(w)[i]) {
      MeaningInventsNoKey(v, a, i);
      assert w[i].key in Texts(v);
    }
    if w != [] { PlainReadsBack(Texts(w), parse); }
  }

  lemma MeaningInventsNoKey(v: seq<Entry>, a: Action, i: nat)
    requires i < |Meaning(v, a)|
    ensures Meaning(v, a)[i].key in Texts(v)
  {
    match a
    case DeleteKey(k) => assert Meaning(v, a)[i].key == Texts(v)[if |v| == |Meaning(v, a)| || i < k then i else i + 1];
    case DeleteDisabled => SurvivorsComeFrom(v); if |Meaning(v, a)| == |v| { assert Texts(v)[i] == v[i].key; }
    case Runtime(usingKey, _, _, _) => KeyIndexInRange(Texts(v), usingKey); assert Texts(v)[i] == v[i].key;
    case _ => assert Texts(v)[i] == v[i].key;
  }

  // ---------- deletions that fail ----------

  lemma FirstDeleted(s: State, parse: JsonArray)
    requires Valid(s, parse) && s.size > 1
    ensures Texts(RemoveAt(View(s, parse), 0)) == KeysOf(s.key, parse)[1..]
    ensures Do(s, DeleteKey(0), parse) == DoDelete(s, 0, parse)
  {
    ViewTexts(s, parse);
    var v := View(s, parse);
    assert RemoveAt(v, 0) == v[1..];
  }

  /** It does fail: when the keys are x, a blank one and a plain y, whatever their attributes,
      deleting x does not leave the last two entries. */
  lemma DeleteShifts(s: State, x: string, y: string, parse: JsonArray)
    requires Valid(s, parse) && KeysOf(s.key, parse) == [x, "", y] && Plain(y)
    ensures View(Do(s, DeleteKey(0), parse), parse) != RemoveAt(View(s, parse), 0)
  {
    FirstDeleted(s, parse);
    assert KeysOf(s.key, parse)[1..] == ["", y];
    BlankFirst(y);
    DeleteIff(s, 0, parse);
  }

  lemma BlankFirst(y: string)
    requires Plain(y)
    ensures !Bracketed(Join(["", y], '\n'))
  {
    assert ["", y][1..] == [y] && Join(["", y], '\n') == "\n" + y;
    BracketedByInk(y); BracketedByInk("\n" + y);
    InkConcat("\n", y);
  }

  /** Such a channel: two plain keys with a blank one between them. */
  lemma BlankMiddle(x: string, y: string, status: map<int, int>, parse: JsonArray)
    requires Plain(x) && Plain(y) && status.Keys <= {0, 1, 2}
    ensures var text := Join([x, "", y], '\n');
      KeysOf(text, parse) == [x, "", y] && Valid(State(text, 3, status, map[], map[]), parse)
  {
    var keys := [x, "", y];
    BracketedByInk(x); BracketedByInk(y);
    InkOfPlainFirst(x, keys[1..]);
    InkOfPlainFirst("", [y]);
    assert [x] + keys[1..] == keys && [""] + [y] == keys[1..];
    BracketedByInk(Join(keys, '\n'));
    StoredList(keys, parse);
  }

  /** Text whose first key is plain is not bracketed, unless that key shows nothing. */
  lemma InkOfPlainFirst(x: string, rest: seq<string>)
    ensures Ink(Join([x] + rest, '\n')) == if Ink(x).Some? then Ink(x) else Ink(Join(rest, '\n'))
  {
    assert ([x] + rest)[1..] == rest;
    if rest != [] {
      InkConcat(x + ['\n'], Join(rest, '\n'));
      InkConcat(x, ['\n']);
    }
  }

  lemma LoneListIsUnread(y: string, parse: JsonArray)
    requires Parses(y, parse) && parse(TrimSpace(y)).value != [y]
    ensures !ReadsBack([y], parse)
  {
    assert Join([y], '\n') == y;
  }

  /** And when a lone key that parses as a list of other keys is left behind. */
  lemma DeleteReparses(s: State, x: string, y: string, parse: JsonArray)
    requires Valid(s, parse) && KeysOf(s.key, parse) == [x, y] && Parses(y, parse) && parse(TrimSpace(y)).value != [y]
    ensures View(Do(s, DeleteKey(0), parse), parse) != RemoveAt(View(s, parse), 0)
  {
    FirstDeleted(s, parse);
    assert KeysOf(s.key, parse)[1..] == [y];
    LoneListIsUnread(y, parse);
    DeleteIff(s, 0, parse);
  }

  /** Such a channel: a plain key that shows something, and any one-line text after it. */
  lemma BracketedEnd(x: string, y: string, status: map<int, int>, parse: JsonArray)
    requires Plain(x) && Ink(x).Some? && y != "" && '\n' !in y && status.Keys <= {0, 1}
    ensures var text := Join([x, y], '\n');
      KeysOf(text, parse) == [x, y] && Valid(State(text, 2, status, map[], map[]), parse)
  {
    BracketedByInk(x);
    InkOfPlainFirst(x, [y]);
    assert [x] + [y] == [x, y];
    BracketedByInk(Join([x, y], '\n'));
    StoredList([x, y], parse);
  }

  /** Deleting x then fails although the rest is storable line by line. */
  lemma BracketedRestFails(x: string, y: string, parse: JsonArray)
    requires Plain(x) && Ink(x).Some? && '\n' !in y && Parses(y, parse) && parse(TrimSpace(y)).value != [y]
    ensures var s := State(Join([x, y], '\n'), 2, map[], map[], map[]);
      && Valid(s, parse) && Storable([y])
      && View(Do(s, DeleteKey(0), parse), parse) != RemoveAt(View(s, parse), 0)
  {
    assert y != "" by { BracketedByInk(y); }
    BracketedEnd(x, y, map[], parse);
    DeleteReparses(State(Join([x, y], '\n'), 2, map[], map[], map[]), x, y, parse);
  }

  /** For instance the keys "x" and "[1,2]". */
  lemma BracketWitness(parse: JsonArray)
    requires parse("[1,2]") == Some(["1", "2"])
    ensures var s := State(Join(["x", "[1,2]"], '\n'), 2, map[], map[], map[]);
      Valid(s, parse) && View(Do(s, DeleteKey(0), parse), parse) != RemoveAt(View(s, parse), 0)
  {
    TrimFacts("[1,2]", Space());
    BracketedByInk("x");
    BracketedRestFails("x", "[1,2]", parse);
  }

  lemma LoneKeyIsReset(s: State, parse: JsonArray)
    requires Valid(s, parse) && s.size == 1 && StatusAt(s, 0) == AUTO_DISABLED
    ensures View(Do(s, DeleteDisabled, parse), parse) == Reset(View(s, parse))
  {
    var v := View(s, parse);
    assert |v| == 1 && v[0].status == AUTO_DISABLED;
    assert Survivors(v) == [] by { assert v[..0] == []; }
    PurgeIff(s, parse);
  }

  /** It does fail: purging a channel whose only key is auto-disabled keeps and enables it. */
  lemma {:induction false} PurgeReenables(key: string, parse: JsonArray)
    requires Plain(key)
    ensures var s := State(key, 1, map[0 := AUTO_DISABLED], map[], map[]);
      Valid(s, parse) && View(Do(s, DeleteDisabled, parse), parse) == [Entry(key, ENABLED, None, None)]
  {
    var s := State(key, 1, map[0 := AUTO_DISABLED], map[], map[]);
    LonePlainKey(key, parse);
    assert Valid(s, parse);
    LoneKeyIsReset(s, parse);
    assert |View(s, parse)| == 1 && View(s, parse)[0].key == key;
    assert Reset(View(s, parse)) == [Entry(key, ENABLED, None, None)];
  }

  lemma LonePlainKey(key: string, parse: JsonArray)
    requires Plain(key)
    ensures KeysOf(key, parse) == [key] && SizeOf(key, parse) == 1
  {
    assert Join([key], '\n') == key;
    StoredList([key], parse);
  }

  /** Survivors are the plain filter, by status, of what get_key_status shows. */
  function NotAuto(v: seq<Entry>): seq<Entry> {
    if v == [] then [] else (if v[0].status != AUTO_DISABLED then [v[0]] else []) + NotAuto(v[1..])
  }

  function Report(v: seq<Entry>): seq<Entry> { seq(|v|, i requires 0 <= i < |v| => Shown(v[i])) }

  lemma {:induction false} NotAutoSnoc(v: seq<Entry>, e: Entry)
    ensures NotAuto(v + [e]) == NotAuto(v) + if e.status != AUTO_DISABLED then [e] else []
  {
    if v == [] {
      assert v + [e] == [e];
    } else {
      assert (v + [e])[1..] == v[1..] + [e] && (v + [e])[0] == v[0];
      NotAutoSnoc(v[1..], e);
      var head := if v[0].status != AUTO_DISABLED then [v[0]] else [];
      var tail := if e.status != AUTO_DISABLED then [e] else [];
      assert head + (NotAuto(v[1..]) + tail) == (head + NotAuto(v[1..])) + tail;
    }
  }

  lemma {:induction false} SurvivorsAreFiltered(v: seq<Entry>)
    ensures Survivors(v) == NotAuto(Report(v))
  {
    if v != [] {
      SurvivorsAreFiltered(v[..|v| - 1]);
      assert Report(v) == Report(v[..|v| - 1]) + [Shown(v[|v| - 1])];
      NotAutoSnoc(Report(v[..|v| - 1]), Shown(v[|v| - 1]));
    }
  }
}
