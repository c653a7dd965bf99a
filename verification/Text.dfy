/** The string functions the channel code relies on: trimming, splitting and joining. */
module Text {

  /** Go's unicode.IsSpace. */
  predicate IsSpace(c: char) {
    c in {'\t', '\n', '\U{000B}', '\U{000C}', '\r', ' ', '\U{0085}', '\U{00A0}', '\U{1680}',
          '\U{2028}', '\U{2029}', '\U{202F}', '\U{205F}', '\U{3000}'} || '\U{2000}' <= c <= '\U{200A}'
  }

  function TrimLeft(s: string, cut: char -> bool): string {
    if s != "" && cut(s[0]) then TrimLeft(s[1..], cut) else s
  }

  function TrimRight(s: string, cut: char -> bool): string {
    if s != "" && cut(s[|s| - 1]) then TrimRight(s[..|s| - 1], cut) else s
  }

  function Trim(s: string, cut: char -> bool): string { TrimRight(TrimLeft(s, cut), cut) }

  /** Neither end of s would be cut. */
  predicate Tight(s: string, cut: char -> bool) {
    s != "" ==> !cut(s[0]) && !cut(s[|s| - 1])
  }

  function Space(): char -> bool { c => IsSpace(c) }
  function Only(sep: char): char -> bool { c => c == sep }

  function TrimSpace(s: string): string { Trim(s, Space()) }

  lemma {:induction false} TrimLeftFacts(s: string, cut: char -> bool)
    ensures TrimLeft(s, cut) != "" ==> !cut(TrimLeft(s, cut)[0])
    ensures exists k :: 0 <= k <= |s| && TrimLeft(s, cut) == s[k..]
  {
    if s != "" && cut(s[0]) {
      TrimLeftFacts(s[1..], cut);
      var k :| 0 <= k <= |s[1..]| && TrimLeft(s[1..], cut) == s[1..][k..];
      assert TrimLeft(s, cut) == s[k + 1..];
    } else {
      assert s == s[0..];
    }
  }

  lemma {:induction false} TrimRightFacts(s: string, cut: char -> bool)
    ensures TrimRight(s, cut) != "" ==> !cut(TrimRight(s, cut)[|TrimRight(s, cut)| - 1])
    ensures exists k :: 0 <= k <= |s| && TrimRight(s, cut) == s[..k]
  {
    if s != "" && cut(s[|s| - 1]) {
      TrimRightFacts(s[..|s| - 1], cut);
      var k :| 0 <= k <= |s| - 1 && TrimRight(s[..|s| - 1], cut) == s[..|s| - 1][..k];
      assert TrimRight(s, cut) == s[..k];
    } else {
      assert s == s[..|s|];
    }
  }

  /** Trimming yields a tight stretch of the original, and leaves tight text alone. */
  lemma TrimFacts(s: string, cut: char -> bool)
    ensures Tight(Trim(s, cut), cut)
    ensures exists i, j :: 0 <= i <= j <= |s| && Trim(s, cut) == s[i..j]
    ensures Tight(s, cut) ==> Trim(s, cut) == s
  {
    var l := TrimLeft(s, cut);
    TrimLeftFacts(s, cut);
    TrimRightFacts(l, cut);
    var i :| 0 <= i <= |s| && l == s[i..];
    var k :| 0 <= k <= |l| && TrimRight(l, cut) == l[..k];
    SliceOfSlice(s, i, k);
    if l[..k] != "" { assert l[..k][0] == l[0]; }
  }

  predicate AllCut(s: string, cut: char -> bool) { forall i :: 0 <= i < |s| ==> cut(s[i]) }

  lemma {:induction false} TrimLeftCuts(s: string, cut: char -> bool)
    ensures |TrimLeft(s, cut)| <= |s| && s[|s| - |TrimLeft(s, cut)|..] == TrimLeft(s, cut)
    ensures AllCut(s[..|s| - |TrimLeft(s, cut)|], cut)
  {
    if s != "" && cut(s[0]) { TrimLeftCuts(s[1..], cut); }
  }

  lemma {:induction false} TrimRightCuts(s: string, cut: char -> bool)
    ensures |TrimRight(s, cut)| <= |s| && s[..|TrimRight(s, cut)|] == TrimRight(s, cut)
    ensures AllCut(s[|TrimRight(s, cut)|..], cut)
  {
    if s != "" && cut(s[|s| - 1]) { TrimRightCuts(s[..|s| - 1], cut); }
  }

  /** Trimming takes away nothing but characters that are cut, on both sides. */
  lemma TrimTakesOnlyCut(s: string, cut: char -> bool) returns (left: string, right: string)
    ensures s == left + Trim(s, cut) + right && AllCut(left, cut) && AllCut(right, cut)
  {
    var l := TrimLeft(s, cut);
    TrimLeftCuts(s, cut);
    TrimRightCuts(l, cut);
    left, right := s[..|s| - |l|], l[|TrimRight(l, cut)|..];
  }

  /** Whatever surrounds tight text, if all of it is cut, does not show. */
  lemma {:induction false} TrimPadded(left: string, x: string, right: string, cut: char -> bool)
    requires AllCut(left, cut) && AllCut(right, cut) && Tight(x, cut) && x != ""
    ensures Trim(left + x + right, cut) == x
  {
    TrimLeftPadded(left, x + right, cut);
    assert left + x + right == left + (x + right);
    TrimRightPadded(x, right, cut);
  }

  lemma {:induction false} TrimLeftPadded(left: string, x: string, cut: char -> bool)
    requires AllCut(left, cut) && x != "" && !cut(x[0])
    ensures TrimLeft(left + x, cut) == x
  {
    if left == "" {
      assert left + x == x;
    } else {
      assert (left + x)[1..] == left[1..] + x;
      TrimLeftPadded(left[1..], x, cut);
    }
  }

  lemma {:induction false} TrimRightPadded(x: string, right: string, cut: char -> bool)
    requires AllCut(right, cut) && x != "" && !cut(x[|x| - 1])
    ensures TrimRight(x + right, cut) == x
  {
    if right == "" {
      assert x + right == x;
    } else {
      assert (x + right)[..|x + right| - 1] == x + right[..|right| - 1];
      TrimRightPadded(x, right[..|right| - 1], cut);
    }
  }

  /** The code points with Unicode's White_Space property. */
  predicate Blank(code: int) {
    9 <= code <= 13 || 0x2000 <= code <= 0x200A ||
    code in {0x20, 0x85, 0xA0, 0x1680, 0x2028, 0x2029, 0x202F, 0x205F, 0x3000}
  }

  /** White space around a name does not show, and nothing else disappears. */
  lemma PaddingIsInvisible(left: string, x: string, right: string)
    requires forall i :: 0 <= i < |left| ==> Blank(left[i] as int)
    requires forall i :: 0 <= i < |right| ==> Blank(right[i] as int)
    requires x != "" && !Blank(x[0] as int) && !Blank(x[|x| - 1] as int)
    ensures TrimSpace(left + x + right) == x
  {
    TrimPadded(left, x, right, Space());
  }

  lemma SliceOfSlice(s: string, i: nat, k: nat)
    requires i <= |s| && k <= |s[i..]|
    ensures s[i..][..k] == s[i..i + k]
  {
  }

  // ---------- split and join ----------

  /** strings.Split by a one-character separator: always at least one piece. */
  function Split(s: string, sep: char): (r: seq<string>)
    ensures r != []
  {
    if s == "" then [""]
    else var rest := Split(s[1..], sep);
      if s[0] == sep then [""] + rest else [[s[0]] + rest[0]] + rest[1..]
  }

  function Join(xs: seq<string>, sep: char): string {
    if xs == [] then "" else if |xs| == 1 then xs[0] else xs[0] + [sep] + Join(xs[1..], sep)
  }

  predicate Free(xs: seq<string>, sep: char) {
    forall i :: 0 <= i < |xs| ==> sep !in xs[i]
  }

  lemma {:induction false} SplitFree(s: string, sep: char)
    ensures Free(Split(s, sep), sep)
  {
    if s != "" { SplitFree(s[1..], sep); }
  }

  lemma {:induction false} SplitPlain(x: string, sep: char)
    requires sep !in x
    ensures Split(x, sep) == [x]
  {
    if x != "" { SplitPlain(x[1..], sep); assert x == [x[0]] + x[1..]; }
  }

  lemma {:induction false} SplitFirst(x: string, rest: string, sep: char)
    requires sep !in x
    ensures Split(x + [sep] + rest, sep) == [x] + Split(rest, sep)
  {
    var s := x + [sep] + rest;
    if x == "" {
      assert s[1..] == rest;
    } else {
      assert s[1..] == x[1..] + [sep] + rest && x == [x[0]] + x[1..];
      SplitFirst(x[1..], rest, sep);
    }
  }

  /** Splitting what was joined gives the pieces back, exactly when none holds a separator. */
  lemma {:induction false} SplitJoin(xs: seq<string>, sep: char)
    requires xs != []
    ensures Split(Join(xs, sep), sep) == xs <==> Free(xs, sep)
  {
    SplitFree(Join(xs, sep), sep);
    if Free(xs, sep) {
      if |xs| == 1 {
        SplitPlain(xs[0], sep);
      } else {
        SplitJoin(xs[1..], sep);
        SplitFirst(xs[0], Join(xs[1..], sep), sep);
      }
    }
  }

  /** Joined pieces are tight when the outer ones are not empty. */
  lemma {:induction false} JoinTight(xs: seq<string>, sep: char)
    requires xs != [] && Free(xs, sep) && xs[0] != "" && xs[|xs| - 1] != ""
    ensures Tight(Join(xs, sep), Only(sep)) && Join(xs, sep) != ""
  {
    JoinEnds(xs, sep);
  }

  lemma JoinEnds(xs: seq<string>, sep: char)
    requires xs != [] && xs[0] != "" && xs[|xs| - 1] != ""
    ensures var s := Join(xs, sep);
      s != "" && s[0] == xs[0][0] && s[|s| - 1] == xs[|xs| - 1][|xs[|xs| - 1]| - 1]
  {
    JoinLast(xs, sep);
  }

  lemma {:induction false} JoinLast(xs: seq<string>, sep: char)
    requires xs != [] && xs[|xs| - 1] != ""
    ensures var s, x := Join(xs, sep), xs[|xs| - 1]; s != "" && s[|s| - 1] == x[|x| - 1]
  {
    if |xs| > 1 { JoinLast(xs[1..], sep); }
  }

  /** How the channel code reads back a stored list: nothing for the empty text, otherwise
      the pieces after dropping outer separators. */
  function Pieces(s: string, sep: char): seq<string> {
    if s == "" then [] else Split(Trim(s, Only(sep)), sep)
  }

  lemma {:induction false} SplitEnds(s: string, sep: char)
    requires s != ""
    ensures s[0] != sep ==> Split(s, sep)[0] != ""
    ensures var r := Split(s, sep); s[|s| - 1] != sep ==> r[|r| - 1] != ""
  {
    if |s| > 1 { SplitEnds(s[1..], sep); }
  }

  lemma PiecesFree(s: string, sep: char)
    ensures Free(Pieces(s, sep), sep)
  {
    SplitFree(Trim(s, Only(sep)), sep);
  }

  /** A stored list reads back unchanged exactly when its first and last pieces are not empty. */
  lemma PiecesOfJoin(xs: seq<string>, sep: char)
    requires Free(xs, sep)
    ensures Pieces(Join(xs, sep), sep) == xs <==> (xs == [] || (xs[0] != "" && xs[|xs| - 1] != ""))
  {
    var s := Join(xs, sep);
    TrimFacts(s, Only(sep));
    if xs != [] {
      SplitJoin(xs, sep);
      if xs[0] != "" && xs[|xs| - 1] != "" {
        JoinTight(xs, sep);
      } else {
        var t := Trim(s, Only(sep));
        if t != "" { SplitEnds(t, sep); }
      }
    }
  }
}
