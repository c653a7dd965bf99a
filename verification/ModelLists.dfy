/** The ordered-set algebra on model names at the top of controller/channel_upstream_update.go. */
module ModelLists {
  import opened Basics
  import opened Text

  predicate Distinct(xs: seq<string>) { forall i, j :: 0 <= i < j < |xs| ==> xs[i] != xs[j] }

  /** A usable model name: not empty, no space at either end. */
  predicate Name(x: string) { x != "" && Tight(x, Space()) }

  predicate Normalized(xs: seq<string>) { Distinct(xs) && forall x :: x in xs ==> Name(x) }

  /** lo.Filter: what lies in `allowed`, in order. */
  function Keep(xs: seq<string>, allowed: set<string>): seq<string> {
    if xs == [] then [] else (if xs[0] in allowed then [xs[0]] else []) + Keep(xs[1..], allowed)
  }

  function Drop(xs: seq<string>, banned: set<string>): seq<string> { Keep(xs, Items(xs) - banned) }

  lemma {:induction false} KeepFacts(xs: seq<string>, s: set<string>)
    ensures Items(Keep(xs, s)) == Items(xs) * s
    ensures Distinct(xs) ==> Distinct(Keep(xs, s))
    ensures Normalized(xs) ==> Normalized(Keep(xs, s))
  {
    if xs != [] {
      KeepFacts(xs[1..], s);
      assert Items(xs) == {xs[0]} + Items(xs[1..]);
      assert forall x :: x in Keep(xs, s) <==> x in Items(Keep(xs, s));
      assert forall x :: x in Keep(xs[1..], s) <==> x in Items(Keep(xs[1..], s));
      if Distinct(xs) {
        assert Distinct(xs[1..]);
        assert xs[0] !in xs[1..];
        assert xs[0] !in Keep(xs[1..], s);
      }
    }
  }

  /** Filtering depends only on what the filter says about the members. */
  lemma {:induction false} KeepSame(xs: seq<string>, s: set<string>, t: set<string>)
    requires Items(xs) * s == Items(xs) * t
    ensures Keep(xs, s) == Keep(xs, t)
  {
    if xs != [] {
      assert Items(xs) == {xs[0]} + Items(xs[1..]);
      assert xs[0] in Items(xs) * s <==> xs[0] in Items(xs) * t;
      forall x ensures x in Items(xs[1..]) * s <==> x in Items(xs[1..]) * t {
        assert x in Items(xs) * s <==> x in Items(xs) * t;
      }
      KeepSame(xs[1..], s, t);
    }
  }

  lemma {:induction false} KeepAll(xs: seq<string>, s: set<string>)
    requires Items(xs) <= s
    ensures Keep(xs, s) == xs
  {
    if xs != [] {
      assert Items(xs) == {xs[0]} + Items(xs[1..]);
      KeepAll(xs[1..], s);
    }
  }

  lemma {:induction false} KeepAppend(xs: seq<string>, ys: seq<string>, s: set<string>)
    ensures Keep(xs + ys, s) == Keep(xs, s) + Keep(ys, s)
  {
    if xs == [] {
      assert xs + ys == ys;
    } else {
      assert (xs + ys)[1..] == xs[1..] + ys && (xs + ys)[0] == xs[0];
      KeepAppend(xs[1..], ys, s);
      var head := if xs[0] in s then [xs[0]] else [];
      assert head + (Keep(xs[1..], s) + Keep(ys, s)) == (head + Keep(xs[1..], s)) + Keep(ys, s);
    }
  }

  /** Filtering one element further into a list without repetitions. */
  lemma TakeOneMore(xs: seq<string>, i: nat, s: set<string>)
    requires i < |xs| && Distinct(xs)
    ensures Keep(xs[..i + 1], s) == Keep(xs[..i], s) + if xs[i] in s then [xs[i]] else []
    ensures Items(xs[..i + 1]) == Items(xs[..i]) + {xs[i]}
    ensures xs[i] in Items(xs) && xs[i] !in Items(xs[..i])
  {
    assert xs[..i + 1] == xs[..i] + [xs[i]];
    KeepAppend(xs[..i], [xs[i]], s);
  }

  // ---------- the five operations ----------

  /** Trim every name, forget blanks, keep first occurrences. */
  function Normalize(models: seq<string>): seq<string> {
    if models == [] then [] else
    var init, x := Normalize(models[..|models| - 1]), TrimSpace(models[|models| - 1]);
    if x == "" || x in init then init else init + [x]
  }

  function Merge(base: seq<string>, appended: seq<string>): seq<string> {
    Normalize(base) + Drop(Normalize(appended), Items(Normalize(base)))
  }

  function Subtract(base: seq<string>, removed: seq<string>): seq<string> {
    Drop(Normalize(base), Items(Normalize(removed)))
  }

  function Intersect(base: seq<string>, allowed: seq<string>): seq<string> {
    Keep(Normalize(base), Items(Normalize(allowed)))
  }

  /** Add wins when a name is both added and removed. */
  function ApplySelected(origin: seq<string>, add: seq<string>, remove: seq<string>): seq<string> {
    var normalizedAdd := Normalize(add);
    var normalizedRemove := Subtract(Normalize(remove), normalizedAdd);
    Subtract(Merge(origin, normalizedAdd), normalizedRemove)
  }

  /** The first i names of `more` have been merged. */
  predicate Merged(first: seq<string>, more: seq<string>, i: nat, seen: set<string>, merged: seq<string>) {
    i <= |more| && seen == Items(first) + Items(more[..i]) &&
    merged == first + Keep(more[..i], Items(more) - Items(first))
  }

  lemma MergeOneMore(first: seq<string>, more: seq<string>, i: nat, seen: set<string>, merged: seq<string>)
    requires i < |more| && Distinct(more) && Merged(first, more, i, seen, merged)
    ensures if more[i] in seen then Merged(first, more, i + 1, seen, merged)
            else Merged(first, more, i + 1, seen + {more[i]}, merged + [more[i]])
  {
    TakeOneMore(more, i, Items(more) - Items(first));
  }

  /** mergeModelNames, with the source's loop over a set of names already seen. */
  method MergeModelNames(base: seq<string>, appended: seq<string>) returns (merged: seq<string>)
    ensures merged == Merge(base, appended)
  {
    var first, more := Normalize(base), Normalize(appended);
    merged := first;
    var seen := Items(merged);
    NormalizeFacts(appended);
    for i := 0 to |more|
      invariant Merged(first, more, i, seen, merged)
    {
      MergeOneMore(first, more, i, seen, merged);
      if more[i] !in seen {
        seen := seen + {more[i]};
        merged := merged + [more[i]];
      }
    }
    assert more[..|more|] == more;
  }

  lemma {:induction false} NormalizeFacts(models: seq<string>)
    ensures Normalized(Normalize(models))
    ensures Items(Normalize(models)) == set x | x in models && TrimSpace(x) != "" :: TrimSpace(x)
  {
    if models != [] {
      var init, last := models[..|models| - 1], models[|models| - 1];
      NormalizeFacts(init);
      assert models == init + [last];
      TrimFacts(last, Space());
      forall x ensures x in Items(Normalize(models)) <==>
        x in set y | y in models && TrimSpace(y) != "" :: TrimSpace(y) {
        assert x in Normalize(init) <==> x in Items(Normalize(init));
      }
    }
  }

  /** First occurrences stay where they are: more names only add to the end. */
  lemma {:induction false} NormalizePrefix(xs: seq<string>, ys: seq<string>)
    ensures Normalize(xs) <= Normalize(xs + ys)
  {
    if ys == [] {
      assert xs + ys == xs;
    } else {
      NormalizePrefix(xs, ys[..|ys| - 1]);
      assert (xs + ys)[..|xs + ys| - 1] == xs + ys[..|ys| - 1];
    }
  }

  lemma {:induction false} NormalizeSame(xs: seq<string>)
    requires Normalized(xs)
    ensures Normalize(xs) == xs
  {
    if xs != [] {
      var init, last := xs[..|xs| - 1], xs[|xs| - 1];
      assert Normalized(init) by { forall x | x in init ensures Name(x) { assert x in xs; } }
      NormalizeSame(init);
      TrimFacts(last, Space());
      assert last in xs && last !in init;
    }
  }

  /** The new list is the old one without the removed names, then the genuinely new ones; a name
      in both lists counts as added. */
  lemma {:induction false} ApplySelectedShape(origin: seq<string>, add: seq<string>, remove: seq<string>)
    requires Normalized(origin) && Normalized(add) && Normalized(remove)
    ensures ApplySelected(origin, add, remove) == Drop(origin, Items(remove) - Items(add)) + Drop(add, Items(origin))
    ensures Normalized(ApplySelected(origin, add, remove))
  {
    NormalizeSame(origin); NormalizeSame(add); NormalizeSame(remove);
    var added, removed := Drop(add, Items(origin)), Drop(remove, Items(add));
    KeepFacts(add, Items(add) - Items(origin));
    KeepFacts(remove, Items(remove) - Items(add));
    assert Items(removed) == Items(remove) - Items(add);
    NormalizeSame(removed);
    var merged := origin + added;
    assert Normalized(merged) by { DisjointAppend(origin, added); }
    NormalizeSame(merged);
    var rest := Items(merged) - Items(removed);
    KeepAppend(origin, added, rest);
    ItemsAppend(origin, added);
    KeepSame(origin, rest, Items(origin) - Items(removed));
    KeepAll(added, rest);
    KeepFacts(merged, rest);
  }

  lemma ItemsAppend(xs: seq<string>, ys: seq<string>)
    ensures Items(xs + ys) == Items(xs) + Items(ys)
  {
  }

  lemma DisjointAppend(xs: seq<string>, ys: seq<string>)
    requires Normalized(xs) && Normalized(ys) && Items(xs) !! Items(ys)
    ensures Normalized(xs + ys)
  {
    forall i, j | 0 <= i < j < |xs + ys| ensures (xs + ys)[i] != (xs + ys)[j] {
      if i < |xs| <= j { assert xs[i] in Items(xs) && ys[j - |xs|] in Items(ys); }
    }
  }
}
