/** Appending keys to a multi-key channel: the append branch of UpdateChannel
    (controller/channel.go) for channels other than Vertex AI. */
module KeyAppend {
  import opened Basics
  import opened Text
  import opened MultiKey

  /** The keys already stored; a bracketed text that does not parse yields none. */
  function ExistingKeys(origin: string, parse: JsonArray): seq<string> {
    if Bracketed(origin)
    then (if parse(TrimSpace(origin)).Some? then parse(TrimSpace(origin)).value else [])
    else Split(Trim(origin, Only('\n')), '\n')
  }

  /** The visible lines of a text, trimmed. */
  function Visible(lines: seq<string>): seq<string> {
    if lines == [] then [] else
    Visible(lines[..|lines| - 1]) + if TrimSpace(lines[|lines| - 1]) == "" then [] else [TrimSpace(lines[|lines| - 1])]
  }

  /** Names not seen before, each once, in order. */
  function Novel(seen: set<string>, keys: seq<string>): seq<string> {
    if keys == [] then [] else
    var init, x := Novel(seen, keys[..|keys| - 1]), TrimSpace(keys[|keys| - 1]);
    if x == "" || x in seen || x in init then init else init + [x]
  }

  function Added(origin: string, input: string, parse: JsonArray): seq<string> {
    Novel(Items(Visible(ExistingKeys(origin, parse))), Visible(Split(input, '\n')))
  }

  /** The stored text after appending; without stored keys the input replaces the text. */
  function Append(origin: string, input: string, parse: JsonArray): string {
    if origin == "" then input
    else Join(ExistingKeys(origin, parse) + Added(origin, input, parse), '\n')
  }

  method CollectVisible(lines: seq<string>) returns (keys: seq<string>)
    ensures keys == Visible(lines)
  {
    keys := [];
    for i := 0 to |lines|
      invariant keys == Visible(lines[..i])
    {
      assert lines[..i + 1][..i] == lines[..i];
      var key := TrimSpace(lines[i]);
      if key != "" { keys := keys + [key]; }
    }
    assert lines[..|lines|] == lines;
  }

  method CollectSeen(keys: seq<string>) returns (seen: set<string>)
    ensures seen == Items(Visible(keys))
  {
    seen := {};
    for i := 0 to |keys|
      invariant seen == Items(Visible(keys[..i]))
    {
      assert keys[..i + 1][..i] == keys[..i];
      var normalized := TrimSpace(keys[i]);
      if normalized != "" { seen := seen + {normalized}; }
    }
    assert keys[..|keys|] == keys;
  }

  lemma NovelSnoc(seen: set<string>, keys: seq<string>, i: nat)
    requires i < |keys|
    ensures var init, x := Novel(seen, keys[..i]), TrimSpace(keys[i]);
      Novel(seen, keys[..i + 1]) == if x == "" || x in seen || x in init then init else init + [x]
  {
    assert keys[..i + 1][..i] == keys[..i];
  }

  method Dedupe(known: set<string>, keys: seq<string>) returns (deduped: seq<string>)
    ensures deduped == Novel(known, keys)
  {
    deduped := [];
    var seen := known;
    for i := 0 to |keys|
      invariant deduped == Novel(known, keys[..i])
      invariant seen == known + Items(deduped)
    {
      NovelSnoc(known, keys, i);
      var normalized := TrimSpace(keys[i]);
      if normalized != "" && normalized !in seen {
        seen := seen + {normalized};
        deduped := deduped + [normalized];
      }
    }
    assert keys[..|keys|] == keys;
  }

  /** The branch itself, with its three loops. */
  method AppendKeys(origin: string, input: string, parse: JsonArray) returns (text: string)
    ensures text == Append(origin, input, parse)
  {
    if origin == "" { return input; }
    var existingKeys := ExistingKeys(origin, parse);
    var newKeys := CollectVisible(Split(input, '\n'));
    var seen := CollectSeen(existingKeys);
    var dedupedNewKeys := Dedupe(seen, newKeys);
    text := Join(existingKeys + dedupedNewKeys, '\n');
  }

  // ---------- what is added ----------

  lemma {:induction false} VisibleFacts(lines: seq<string>)
    ensures Items(Visible(lines)) == set x | x in lines && TrimSpace(x) != "" :: TrimSpace(x)
  {
    if lines != [] {
      var init := lines[..|lines| - 1];
      VisibleFacts(init);
      assert lines == init + [lines[|lines| - 1]];
      forall x ensures x in Items(Visible(lines)) <==> x in set y | y in lines && TrimSpace(y) != "" :: TrimSpace(y) {
        assert x in Visible(init) <==> x in Items(Visible(init));
      }
    }
  }

  lemma {:induction false} NovelFacts(seen: set<string>, keys: seq<string>)
    ensures var r := Novel(seen, keys);
      && (forall i, j :: 0 <= i < j < |r| ==> r[i] != r[j])
      && Items(r) == (set x | x in keys && TrimSpace(x) != "" :: TrimSpace(x)) - seen
  {
    if keys != [] {
      NovelFacts(seen, keys[..|keys| - 1]);
      assert keys == keys[..|keys| - 1] + [keys[|keys| - 1]];
      var r, init := Novel(seen, keys), Novel(seen, keys[..|keys| - 1]);
      forall x ensures x in Items(r) <==> x in (set y | y in keys && TrimSpace(y) != "" :: TrimSpace(y)) - seen {
        assert x in Items(init) <==> x in init;
      }
    }
  }

  /** Exactly the visible trimmed input keys that match no trimmed stored key are added, each
      once, and nothing that could break the line format. */
  lemma AddedFacts(origin: string, input: string, parse: JsonArray)
    ensures var added := Added(origin, input, parse);
      && (forall i, j :: 0 <= i < j < |added| ==> added[i] != added[j])
      && Items(added) == (set x | x in Split(input, '\n') && TrimSpace(x) != "" :: TrimSpace(x))
                         - (set x | x in ExistingKeys(origin, parse) && TrimSpace(x) != "" :: TrimSpace(x))
      && (forall i :: 0 <= i < |added| ==> added[i] != "" && Tight(added[i], Space()) && '\n' !in added[i])
  {
    var lines := Split(input, '\n');
    VisibleFacts(lines);
    VisibleFacts(ExistingKeys(origin, parse));
    NovelFacts(Items(Visible(ExistingKeys(origin, parse))), Visible(lines));
    SplitFree(input, '\n');
    forall x | x in Visible(lines) ensures TrimSpace(x) == x && x != "" && '\n' !in x && Tight(x, Space()) {
      assert x in Items(Visible(lines));
      var y :| y in lines && TrimSpace(y) == x;
      TrimFacts(y, Space());
      TrimFacts(x, Space());
    }
    var added := Added(origin, input, parse);
    var fromInput := set x | x in Visible(lines) && TrimSpace(x) != "" :: TrimSpace(x);
    forall x ensures x in fromInput <==> x in Items(Visible(lines)) {
      if x in Visible(lines) { assert TrimSpace(x) == x; }
    }
    forall i | 0 <= i < |added| ensures added[i] != "" && Tight(added[i], Space()) && '\n' !in added[i] {
      assert added[i] in Items(added);
    }
  }

  // ---------- the stored keys keep their places ----------

  lemma {:induction false} JoinSplit(s: string, sep: char)
    ensures Join(Split(s, sep), sep) == s
  {
    if s != "" {
      JoinSplit(s[1..], sep);
      var rest := Split(s[1..], sep);
      if s[0] == sep {
        assert ([""] + rest)[1..] == rest;
      } else {
        assert ([[s[0]] + rest[0]] + rest[1..])[1..] == rest[1..];
      }
    }
  }

  lemma {:induction false} JoinConcat(xs: seq<string>, ys: seq<string>, sep: char)
    requires xs != [] && ys != []
    ensures Join(xs + ys, sep) == Join(xs, sep) + [sep] + Join(ys, sep)
  {
    if |xs| == 1 {
      assert (xs + ys)[1..] == ys;
    } else {
      assert (xs + ys)[1..] == xs[1..] + ys;
      JoinConcat(xs[1..], ys, sep);
    }
  }

  lemma {:induction false} InkOfTrimLeft(s: string)
    ensures Ink(TrimLeft(s, Only('\n'))) == Ink(s)
  {
    if s != "" && s[0] == '\n' { InkOfTrimLeft(s[1..]); }
  }

  lemma {:induction false} InkOfTrimRight(s: string)
    ensures Ink(TrimRight(s, Only('\n'))) == Ink(s)
  {
    if s != "" && s[|s| - 1] == '\n' {
      InkOfTrimRight(s[..|s| - 1]);
      assert s == s[..|s| - 1] + "\n";
      InkConcat(s[..|s| - 1], "\n");
    }
  }

  lemma InkOfAdded(added: seq<string>)
    requires added != [] && added[0] != "" && !IsSpace(added[0][0])
    ensures Ink(Join(added, '\n')) == Some(added[0][0])
  {
    if |added| > 1 {
      InkConcat(added[0] + "\n", Join(added[1..], '\n'));
      InkConcat(added[0], "\n");
    }
  }

  /** Appending to an unbracketed text makes it bracketed exactly when the text shows nothing
      and the first new key begins with a bracket. */
  lemma AppendBracketsIff(origin: string, input: string, parse: JsonArray)
    requires origin != "" && !Bracketed(origin)
    ensures Bracketed(Append(origin, input, parse)) <==>
            var added := Added(origin, input, parse);
            Ink(origin).None? && added != [] && added[0] != "" && added[0][0] == '['
  {
    var t, existing, added := Trim(origin, Only('\n')), ExistingKeys(origin, parse), Added(origin, input, parse);
    BracketedByInk(origin);
    InkOfTrimLeft(origin);
    InkOfTrimRight(TrimLeft(origin, Only('\n')));
    JoinSplit(t, '\n');
    if added == [] {
      assert existing + added == existing;
    } else {
      AddedFacts(origin, input, parse);
      InkOfAdded(added);
      JoinConcat(existing, added, '\n');
      InkConcat(t + "\n", Join(added, '\n'));
      InkConcat(t, "\n");
    }
    BracketedByInk(Append(origin, input, parse));
  }

  /** The stored list after appending can be read back exactly when the old text was more than
      line breaks. */
  lemma AppendedIsStorable(origin: string, input: string, parse: JsonArray)
    requires origin != "" && !Bracketed(origin)
    ensures Storable(ExistingKeys(origin, parse) + Added(origin, input, parse)) <==> Trim(origin, Only('\n')) != ""
  {
    var t := Trim(origin, Only('\n'));
    AddedFacts(origin, input, parse);
    SplitFree(t, '\n');
    TrimFacts(origin, Only('\n'));
    if t != "" { SplitEnds(t, '\n'); }
  }

  /** The text after appending reads as the stored keys followed by the new ones: it parses as
      that list, or it does not parse, the stored keys were understood, and the list is
      storable line by line. */
  predicate AppendReadsBack(origin: string, input: string, parse: JsonArray) {
    var text, existing, added := Append(origin, input, parse), ExistingKeys(origin, parse), Added(origin, input, parse);
    if Parses(text, parse) then parse(TrimSpace(text)).value == KeysOf(origin, parse) + added
    else existing == KeysOf(origin, parse) && (existing + added == [] || Storable(existing + added))
  }

  lemma AddedReadsBack(origin: string, input: string, parse: JsonArray)
    ensures Pieces(Join(Added(origin, input, parse), '\n'), '\n') == Added(origin, input, parse)
  {
    AddedFacts(origin, input, parse);
    if Added(origin, input, parse) != [] { StoredLines(Added(origin, input, parse)); }
  }

  /** Appending to any stored text keeps every stored key at its index and puts the new keys
      after them, exactly in those cases. */
  lemma AppendIsIndexStable(origin: string, input: string, parse: JsonArray)
    requires origin != ""
    ensures KeysOf(Append(origin, input, parse), parse) == KeysOf(origin, parse) + Added(origin, input, parse)
            <==> AppendReadsBack(origin, input, parse)
    ensures AppendReadsBack(origin, input, parse) && KeysOf(origin, parse) != [] ==>
              Append(origin, input, parse) != "" &&
              SizeOf(Append(origin, input, parse), parse) == |KeysOf(Append(origin, input, parse), parse)|
  {
    var existing, added := ExistingKeys(origin, parse), Added(origin, input, parse);
    if existing + added != [] { StoredLines(existing + added); }
    if existing != KeysOf(origin, parse) {
      assert existing + added == added;
      AddedReadsBack(origin, input, parse);
    }
  }

  /** For lines that stay lines the one exception is a text of nothing but line breaks: its blank
      key is lost. */
  lemma LinesReadBackIff(origin: string, input: string, parse: JsonArray)
    requires origin != "" && !Bracketed(origin) && !Bracketed(Append(origin, input, parse))
    ensures AppendReadsBack(origin, input, parse) <==> Trim(origin, Only('\n')) != ""
  {
    AppendedIsStorable(origin, input, parse);
  }

  /** A stored text that begins with a bracket and does not parse is dropped: only the new keys
      are left. */
  lemma UnparsedTextIsDropped(origin: string, input: string, parse: JsonArray)
    requires Bracketed(origin) && !Parses(origin, parse) && !Parses(Append(origin, input, parse), parse)
    ensures KeysOf(origin, parse) != [] && KeysOf(Append(origin, input, parse), parse) == Added(origin, input, parse)
  {
    var added := Added(origin, input, parse);
    assert ExistingKeys(origin, parse) + added == added;
    AddedReadsBack(origin, input, parse);
    AddedFacts(origin, input, parse);
  }

  // ---------- appending the same input again ----------

  lemma {:induction false} SplitSnoc(s: string)
    ensures Split(s + "\n", '\n') == Split(s, '\n') + [""]
  {
    if s == "" {
      assert Split("\n", '\n') == [""] + Split("", '\n');
    } else {
      assert (s + "\n")[1..] == s[1..] + "\n" && (s + "\n")[0] == s[0];
      SplitSnoc(s[1..]);
    }
  }

  /** The trimmed visible lines of a text. */
  function Wanted(lines: seq<string>): set<string> { set x | x in lines && TrimSpace(x) != "" :: TrimSpace(x) }

  lemma BlankIsUnwanted(lines: seq<string>)
    ensures Wanted([""] + lines) == Wanted(lines) == Wanted(lines + [""])
  {
    forall x ensures x in Wanted([""] + lines) <==> x in Wanted(lines)
      ensures x in Wanted(lines + [""]) <==> x in Wanted(lines)
    {
    }
  }

  lemma {:induction false} TrimmedLeftWanted(s: string)
    ensures Wanted(Split(TrimLeft(s, Only('\n')), '\n')) == Wanted(Split(s, '\n'))
  {
    if s != "" && s[0] == '\n' {
      TrimmedLeftWanted(s[1..]);
      BlankIsUnwanted(Split(s[1..], '\n'));
    }
  }

  lemma {:induction false} TrimmedRightWanted(s: string)
    ensures Wanted(Split(TrimRight(s, Only('\n')), '\n')) == Wanted(Split(s, '\n'))
  {
    if s != "" && s[|s| - 1] == '\n' {
      var init := s[..|s| - 1];
      TrimmedRightWanted(init);
      assert s == init + "\n";
      SplitSnoc(init);
      BlankIsUnwanted(Split(init, '\n'));
    }
  }

  /** Nothing is added to a text that already holds every visible line of the input. */
  lemma NothingToAdd(text: string, input: string, parse: JsonArray)
    requires Wanted(Split(input, '\n')) <= Wanted(ExistingKeys(text, parse))
    ensures Added(text, input, parse) == []
  {
    AddedFacts(text, input, parse);
    assert Items(Added(text, input, parse)) == Wanted(Split(input, '\n')) - Wanted(ExistingKeys(text, parse)) == {};
    EmptyItems(Added(text, input, parse));
  }

  lemma WantedAfterAppend(origin: string, input: string, parse: JsonArray)
    ensures Wanted(Split(input, '\n')) <= Wanted(ExistingKeys(origin, parse) + Added(origin, input, parse))
  {
    var existing, added := ExistingKeys(origin, parse), Added(origin, input, parse);
    AddedFacts(origin, input, parse);
    forall x | x in Wanted(Split(input, '\n')) ensures x in Wanted(existing + added) {
      if x in Wanted(existing) {
        var y :| y in existing && TrimSpace(y) == x;
        assert y in existing + added;
      } else {
        assert x in Items(added) && x in existing + added;
        TrimFacts(x, Space());
      }
    }
  }

  // ---------- a key is one of the lines of the text that holds it ----------

  lemma {:induction false} TrimLeftSnoc(s: string, c: char)
    requires TrimLeft(s, Space()) != ""
    ensures TrimLeft(s + [c], Space()) == TrimLeft(s, Space()) + [c]
  {
    if IsSpace(s[0]) {
      assert (s + [c])[1..] == s[1..] + [c];
      TrimLeftSnoc(s[1..], c);
    }
  }

  /** A space at either end does not show. */
  lemma OuterSpace(s: string, c: char)
    requires IsSpace(c)
    ensures TrimSpace([c] + s) == TrimSpace(s)
    ensures TrimSpace(s) != "" ==> TrimSpace(s + [c]) == TrimSpace(s)
  {
    assert ([c] + s)[1..] == s;
    if TrimSpace(s) != "" {
      TrimLeftSnoc(s, c);
      assert (TrimLeft(s, Space()) + [c])[..|TrimLeft(s, Space())|] == TrimLeft(s, Space());
    }
  }

  /** lines with c put at the end of the last one */
  function Extended(lines: seq<string>, c: char): seq<string>
    requires lines != []
  {
    lines[..|lines| - 1] + [lines[|lines| - 1] + [c]]
  }

  lemma {:induction false} SplitSnocChar(s: string, c: char)
    requires c != '\n'
    ensures Split(s + [c], '\n') == Extended(Split(s, '\n'), c)
  {
    if s == "" {
      assert s + [c] == [c];
      SplitPlain([c], '\n');
    } else {
      assert (s + [c])[1..] == s[1..] + [c] && (s + [c])[0] == s[0];
      SplitSnocChar(s[1..], c);
      ExtendedSnoc(s[0], Split(s[1..], '\n'), c);
    }
  }

  lemma ExtendedSnoc(first: char, lines: seq<string>, c: char)
    requires lines != []
    ensures [""] + Extended(lines, c) == Extended([""] + lines, c)
    ensures var e := Extended(lines, c);
      [[first] + e[0]] + e[1..] == Extended([[first] + lines[0]] + lines[1..], c)
  {
    if |lines| == 1 {
      assert [first] + (lines[0] + [c]) == ([first] + lines[0]) + [c];
    }
  }

  lemma WantedBySome(lines: seq<string>, i: nat)
    requires i < |lines| && TrimSpace(lines[i]) != ""
    ensures TrimSpace(lines[i]) in Wanted(lines)
  {
  }

  /** Text without a line break inside its visible part shows that part in one of its lines. */
  lemma {:induction false} OwnLine(e: string)
    requires TrimSpace(e) != "" && '\n' !in TrimSpace(e)
    ensures TrimSpace(e) in Wanted(Split(e, '\n'))
    decreases |e|
  {
    if IsSpace(e[0]) { OwnLineLeft(e); }
    else if IsSpace(e[|e| - 1]) { OwnLineRight(e); }
    else {
      TrimFacts(e, Space());
      SplitPlain(e, '\n');
      WantedBySome([e], 0);
    }
  }

  lemma OwnLineLeft(e: string)
    requires TrimSpace(e) != "" && '\n' !in TrimSpace(e) && IsSpace(e[0])
    ensures TrimSpace(e) in Wanted(Split(e, '\n'))
    decreases |e|, 0
  {
    var rest := e[1..];
    assert e == [e[0]] + rest;
    OuterSpace(rest, e[0]);
    OwnLine(rest);
    if e[0] == '\n' {
      BlankIsUnwanted(Split(rest, '\n'));
    } else {
      PrefixedWanted(e[0], Split(rest, '\n'), TrimSpace(e));
    }
  }

  lemma PrefixedWanted(c: char, lines: seq<string>, x: string)
    requires lines != [] && IsSpace(c) && x in Wanted(lines)
    ensures x in Wanted([[c] + lines[0]] + lines[1..])
  {
    var i :| 0 <= i < |lines| && TrimSpace(lines[i]) == x;
    OuterSpace(lines[i], c);
    WantedBySome([[c] + lines[0]] + lines[1..], i);
  }

  lemma OwnLineRight(e: string)
    requires TrimSpace(e) != "" && '\n' !in TrimSpace(e) && !IsSpace(e[0]) && IsSpace(e[|e| - 1])
    ensures TrimSpace(e) in Wanted(Split(e, '\n'))
    decreases |e|, 0
  {
    var init, c := e[..|e| - 1], e[|e| - 1];
    LastSpace(e);
    OwnLine(init);
    if c == '\n' {
      SplitSnoc(init);
      BlankIsUnwanted(Split(init, '\n'));
    } else {
      SplitSnocChar(init, c);
      ExtendedWanted(Split(init, '\n'), c, TrimSpace(e));
    }
  }

  lemma LastSpace(e: string)
    requires e != "" && !IsSpace(e[0]) && IsSpace(e[|e| - 1])
    ensures e == e[..|e| - 1] + [e[|e| - 1]] && TrimSpace(e) == TrimSpace(e[..|e| - 1])
  {
    assert e[..|e| - 1][0] == e[0];
  }

  lemma ExtendedWanted(lines: seq<string>, c: char, x: string)
    requires lines != [] && IsSpace(c) && x in Wanted(lines)
    ensures x in Wanted(Extended(lines, c))
  {
    var i :| 0 <= i < |lines| && TrimSpace(lines[i]) == x;
    OuterSpace(lines[i], c);
    assert Extended(lines, c)[i] == if i == |lines| - 1 then lines[i] + [c] else lines[i];
    WantedBySome(Extended(lines, c), i);
  }

  lemma {:induction false} SplitConcat(a: string, b: string)
    ensures Split(a + "\n" + b, '\n') == Split(a, '\n') + Split(b, '\n')
  {
    if a == "" {
      assert (a + "\n" + b)[1..] == b;
    } else {
      assert (a + "\n" + b)[1..] == a[1..] + "\n" + b && (a + "\n" + b)[0] == a[0];
      SplitConcat(a[1..], b);
      PrefixConcat(a[0], Split(a[1..], '\n'), Split(b, '\n'));
    }
  }

  lemma PrefixConcat(c: char, xs: seq<string>, ys: seq<string>)
    requires xs != []
    ensures [""] + (xs + ys) == ([""] + xs) + ys
    ensures [[c] + (xs + ys)[0]] + (xs + ys)[1..] == ([[c] + xs[0]] + xs[1..]) + ys
  {
  }

  lemma WantedOfConcat(xs: seq<string>, ys: seq<string>)
    ensures Wanted(xs + ys) == Wanted(xs) + Wanted(ys)
  {
    forall x ensures x in Wanted(xs + ys) <==> x in Wanted(xs) + Wanted(ys) { }
  }

  /** The visible part of every key, if it is one line, is a line of the stored text. */
  lemma {:induction false} KeysAreLines(keys: seq<string>, x: string)
    requires x in Wanted(keys) && '\n' !in x
    ensures x in Wanted(Split(Join(keys, '\n'), '\n'))
  {
    var first, rest := keys[0], keys[1..];
    assert keys == [first] + rest;
    WantedOfConcat([first], rest);
    if TrimSpace(first) == x { OwnLine(first); } else { KeysAreLines(rest, x); }
    if rest != [] {
      SplitConcat(first, Join(rest, '\n'));
      WantedOfConcat(Split(first, '\n'), Split(Join(rest, '\n'), '\n'));
    }
  }

  /** After an append every visible line of the input is a line of the stored text. */
  lemma WantedInText(origin: string, input: string, parse: JsonArray)
    ensures var text := Append(origin, input, parse);
      Wanted(Split(input, '\n')) <= Wanted(Split(Trim(text, Only('\n')), '\n'))
  {
    var text := Append(origin, input, parse);
    TrimmedLeftWanted(text);
    TrimmedRightWanted(TrimLeft(text, Only('\n')));
    if origin != "" {
      WantedAfterAppend(origin, input, parse);
      forall x | x in Wanted(Split(input, '\n')) ensures x in Wanted(Split(text, '\n')) {
        WantedIsOneLine(input, x);
        KeysAreLines(ExistingKeys(origin, parse) + Added(origin, input, parse), x);
      }
    }
  }

  lemma WantedIsOneLine(input: string, x: string)
    requires x in Wanted(Split(input, '\n'))
    ensures '\n' !in x
  {
    SplitFree(input, '\n');
    var y :| y in Split(input, '\n') && TrimSpace(y) == x;
    TrimFacts(y, Space());
  }

  // ---------- new keys come in the order of the input ----------

  lemma {:induction false} VisibleConcat(xs: seq<string>, ys: seq<string>)
    ensures Visible(xs + ys) == Visible(xs) + Visible(ys)
  {
    if ys == [] {
      assert xs + ys == xs;
    } else {
      assert (xs + ys)[..|xs + ys| - 1] == xs + ys[..|ys| - 1];
      VisibleConcat(xs, ys[..|ys| - 1]);
    }
  }

  lemma {:induction false} NovelPrefix(seen: set<string>, xs: seq<string>, ys: seq<string>)
    ensures Novel(seen, xs) <= Novel(seen, xs + ys)
  {
    if ys == [] {
      assert xs + ys == xs;
    } else {
      assert (xs + ys)[..|xs + ys| - 1] == xs + ys[..|ys| - 1];
      NovelPrefix(seen, xs, ys[..|ys| - 1]);
    }
  }

  /** The keys added for some first lines of the input come first, whatever lines follow. */
  lemma AddedInOrder(origin: string, input: string, more: string, parse: JsonArray)
    ensures Added(origin, input, parse) <= Added(origin, input + "\n" + more, parse)
  {
    SplitConcat(input, more);
    VisibleConcat(Split(input, '\n'), Split(more, '\n'));
    NovelPrefix(Items(Visible(ExistingKeys(origin, parse))), Visible(Split(input, '\n')), Visible(Split(more, '\n')));
  }

  // ---------- the second append ----------

  /** Appending the same input a second time, to whatever was stored before, changes nothing if
      and only if the text after the first append has no outer line breaks; an empty one must
      meet an empty input. */
  lemma RepeatIff(origin: string, input: string, parse: JsonArray)
    requires !Bracketed(Append(origin, input, parse))
    ensures var text := Append(origin, input, parse);
      Append(text, input, parse) == text <==> if text == "" then input == "" else Tight(text, Only('\n'))
  {
    var text := Append(origin, input, parse);
    if text != "" {
      var lines := Split(Trim(text, Only('\n')), '\n');
      WantedInText(origin, input, parse);
      NothingToAdd(text, input, parse);
      assert lines + [] == lines;
      JoinSplit(Trim(text, Only('\n')), '\n');
      TrimFacts(text, Only('\n'));
    }
  }

  /** For stored lines, in terms of what was there before the first append: the stored text was
      more than line breaks, or there was nothing to append; into an empty text the input goes
      unchanged, and must have no outer line breaks itself. */
  lemma AppendIsIdempotent(origin: string, input: string, parse: JsonArray)
    requires !Bracketed(origin) && !Bracketed(Append(origin, input, parse))
    ensures Append(Append(origin, input, parse), input, parse) == Append(origin, input, parse)
            <==> if origin == "" then Trim(input, Only('\n')) == input
                 else Trim(origin, Only('\n')) != "" || input == ""
  {
    RepeatIff(origin, input, parse);
    if origin == "" {
      TrimFacts(input, Only('\n'));
    } else if Trim(origin, Only('\n')) != "" {
      AppendedIsTight(origin, input, parse);
    } else {
      AppendedToBreaks(origin, input, parse);
    }
  }

  lemma AppendedIsTight(origin: string, input: string, parse: JsonArray)
    requires origin != "" && !Bracketed(origin) && Trim(origin, Only('\n')) != ""
    ensures Append(origin, input, parse) != "" && Tight(Append(origin, input, parse), Only('\n'))
  {
    AppendedIsStorable(origin, input, parse);
    JoinTight(ExistingKeys(origin, parse) + Added(origin, input, parse), '\n');
  }

  lemma AppendedToBreaks(origin: string, input: string, parse: JsonArray)
    requires origin != "" && !Bracketed(origin) && Trim(origin, Only('\n')) == ""
    ensures var text := Append(origin, input, parse); if input == "" then text == "" else text == "" || text[0] == '\n'
  {
    var added := Added(origin, input, parse);
    assert ExistingKeys(origin, parse) == [""];
    if added == [] {
      assert [""] + added == [""];
    } else {
      NothingInNothing(origin, input, parse);
      assert ([""] + added)[1..] == added && ([""] + added)[0] == "";
      assert Append(origin, input, parse) == "" + ['\n'] + Join(added, '\n');
    }
  }

  lemma NothingInNothing(origin: string, input: string, parse: JsonArray)
    requires Added(origin, input, parse) != []
    ensures input != ""
  {
    AddedFacts(origin, input, parse);
    assert Added(origin, input, parse)[0] in Items(Added(origin, input, parse));
  }

  /** It does fail: the second append of a key to a lone line break changes the text again. */
  lemma LoneBreakIsLost(origin: string, key: string, parse: JsonArray)
    requires |origin| == 1 && origin[0] == '\n' && '\n' !in key && TrimSpace(key) == key != "" && key[0] != '['
    ensures Append(Append(origin, key, parse), key, parse) != Append(origin, key, parse)
  {
    AddedToBreak(origin, key, parse);
    AppendBracketsIff(origin, key, parse);
    AppendIsIdempotent(origin, key, parse);
  }

  lemma AddedToBreak(origin: string, key: string, parse: JsonArray)
    requires |origin| == 1 && origin[0] == '\n' && '\n' !in key && TrimSpace(key) == key != ""
    ensures origin != "" && !Bracketed(origin) && Trim(origin, Only('\n')) == ""
    ensures ExistingKeys(origin, parse) == [""] && Added(origin, key, parse) == [key]
  {
    assert TrimLeft(origin[1..], Only('\n')) == "";
    BracketedByInk(origin);
    assert Ink(origin[1..]) == None;
    SplitPlain(key, '\n');
    OneVisible(key);
    assert Items(Visible([""])) == {};
  }

  lemma OneVisible(key: string)
    requires TrimSpace(key) == key != ""
    ensures Visible([key]) == [key] && Visible([""]) == [] && Novel({}, [key]) == [key]
  {
    assert [key][..0] == [] && [""][..0] == [];
  }

  /** For instance with the key "k". */
  lemma LoneBreakWitness(parse: JsonArray)
    ensures Append(Append("\n", "k", parse), "k", parse) != Append("\n", "k", parse)
  {
    LoneBreakIsLost("\n", "k", parse);
  }

  // ---------- the attributes of the stored keys ----------

  /** `s'` shows every entry of s in its place, followed by bare entries for the added keys. */
  ghost predicate Extends(s': State, s: State, added: seq<string>, parse: JsonArray) {
    && Valid(s', parse) && |View(s', parse)| == |View(s, parse)| + |added|
    && View(s', parse)[..|View(s, parse)|] == View(s, parse)
    && forall i :: 0 <= i < |added| ==> View(s', parse)[|View(s, parse)| + i] == Entry(added[i], ENABLED, None, None)
  }

  /** Unchanged attribute maps under a longer key list: old entries stay, new ones are bare. */
  lemma LongerListView(s: State, text: string, added: seq<string>, parse: JsonArray)
    requires Valid(s, parse) && text != "" && KeysOf(text, parse) == KeysOf(s.key, parse) + added
    requires SizeOf(text, parse) == |KeysOf(text, parse)|
    ensures Extends(Save(s.(key := text), s, parse), s, added, parse)
  {
    SaveLonger(s, text, |added|, parse);
    LongerList(s, s.(key := text, size := s.size + |added|), added, parse);
  }

  function Entries(keys: seq<string>, s: State): seq<Entry> {
    seq(|keys|, i requires 0 <= i < |keys| => Entry(keys[i], StatusAt(s, i), Find(s.time, i), Find(s.reason, i)))
  }

  lemma LongerEntries(keys: seq<string>, added: seq<string>, s: State, s': State)
    requires s'.status == s.status && s'.time == s.time && s'.reason == s.reason
    requires forall i: int :: i >= |keys| ==> i !in s.status && i !in s.time && i !in s.reason
    ensures var v, v' := Entries(keys, s), Entries(keys + added, s');
      v'[..|v|] == v && forall i :: 0 <= i < |added| ==> v'[|v| + i] == Entry(added[i], ENABLED, None, None)
  {
  }

  lemma LongerList(s: State, s': State, added: seq<string>, parse: JsonArray)
    requires Valid(s, parse) && s'.size == SizeOf(s'.key, parse) == s.size + |added|
    requires s' == State(s'.key, s'.size, s.status, s.time, s.reason)
    requires KeysOf(s'.key, parse) == KeysOf(s.key, parse) + added
    ensures Extends(s', s, added, parse)
  {
    LongerEntries(KeysOf(s.key, parse), added, s, s');
    assert View(s, parse) == Entries(KeysOf(s.key, parse), s);
    assert View(s', parse) == Entries(KeysOf(s.key, parse) + added, s');
  }

  lemma SaveLonger(s: State, text: string, extra: nat, parse: JsonArray)
    requires Valid(s, parse) && text != "" && SizeOf(text, parse) == s.size + extra
    ensures Save(s.(key := text), s, parse) == s.(key := text, size := s.size + extra)
  {
    var s' := Save(s.(key := text), s, parse);
    assert s'.status == s.status;
  }

  /** Saving an empty text changes nothing here. */
  lemma SameListView(s: State, parse: JsonArray)
    requires Valid(s, parse) && s.key != ""
    ensures Extends(Save(s.(key := ""), s, parse), s, [], parse)
  {
    SaveInPlace(s, s, parse);
  }

  lemma OtherListView(s: State, text: string, added: seq<string>, parse: JsonArray)
    requires text != "" && Extends(Save(s.(key := text), s, parse), s, added, parse)
    ensures KeysOf(text, parse) == KeysOf(s.key, parse) + added
  {
    var s' := Save(s.(key := text), s, parse);
    var v, v' := View(s, parse), View(s', parse);
    ViewTexts(s, parse); ViewTexts(s', parse);
    forall i | 0 <= i < |v'| ensures Texts(v')[i] == (Texts(v) + added)[i] {
      if i < |v| { assert v'[i] == v'[..|v|][i]; } else { assert v'[i] == v'[|v| + (i - |v|)]; }
    }
  }

  /** The attribute maps, untouched by the append, still name the same keys, and every new key is
      enabled and carries no attribute, if and only if the new text reads back, or it is empty
      and so nothing is changed at all. */
  lemma {:induction false} AttributesStayWithKeys(s: State, input: string, parse: JsonArray)
    requires Valid(s, parse) && s.key != ""
    ensures Extends(Save(s.(key := Append(s.key, input, parse)), s, parse), s, Added(s.key, input, parse), parse)
            <==> Append(s.key, input, parse) == "" || AppendReadsBack(s.key, input, parse)
  {
    var text, added := Append(s.key, input, parse), Added(s.key, input, parse);
    if text == "" {
      NothingAddedToNothing(s.key, input, parse);
      SameListView(s, parse);
    } else {
      AppendIsIndexStable(s.key, input, parse);
      KeysAreSome(s.key, parse);
      if AppendReadsBack(s.key, input, parse) {
        LongerListView(s, text, added, parse);
      } else if Extends(Save(s.(key := text), s, parse), s, added, parse) {
        OtherListView(s, text, added, parse);
      }
    }
  }

  lemma NothingAddedToNothing(origin: string, input: string, parse: JsonArray)
    requires origin != "" && Append(origin, input, parse) == ""
    ensures Added(origin, input, parse) == []
  {
    var existing, added := ExistingKeys(origin, parse), Added(origin, input, parse);
    AddedFacts(origin, input, parse);
    if added != [] {
      if existing == [] { assert existing + added == added; JoinTight(added, '\n'); }
      else { JoinConcat(existing, added, '\n'); }
    }
  }

  lemma KeysAreSome(text: string, parse: JsonArray)
    requires text != "" && SizeOf(text, parse) == |KeysOf(text, parse)|
    ensures KeysOf(text, parse) != []
  {
  }
}
