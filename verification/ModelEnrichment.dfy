/** Filling in models that match others by a name rule (the rule branch of enrichModels in
    controller/model_meta.go): one pass over the pricing list for all rules at once, and one
    batched channel query, against the join done for each rule alone. */
module ModelEnrichment {
  import opened Basics

  datatype NameRule = Exact | Prefix | Contains | Suffix | Unknown

  datatype Rule = Rule(kind: NameRule, name: string)

  datatype Pricing = Pricing(name: string, endpoints: seq<string>, groups: seq<string>, quotaType: int)

  datatype Channel = Channel(name: string, kind: int)

  predicate Matches(r: Rule, name: string) {
    match r.kind
    case Prefix => r.name <= name
    case Suffix => |r.name| <= |name| && name[|name| - |r.name|..] == r.name
    case Contains => exists i :: 0 <= i <= |name| && r.name <= name[i..]
    case _ => false
  }

  lemma PrefixIff(part: string, name: string)
    ensures part <= name <==> exists rest: string :: name == part + rest
  {
    if part <= name { assert name == part + name[|part|..]; }
  }

  lemma SuffixIff(part: string, name: string)
    ensures |part| <= |name| && name[|name| - |part|..] == part <==> exists rest: string :: name == rest + part
  {
    if |part| <= |name| && name[|name| - |part|..] == part { assert name == name[..|name| - |part|] + part; }
  }

  lemma InfixIff(part: string, name: string)
    ensures (exists i :: 0 <= i <= |name| && part <= name[i..]) <==>
            exists left: string, right: string :: name == left + part + right
  {
    if i :| 0 <= i <= |name| && part <= name[i..] {
      assert name == name[..i] + part + name[i..][|part|..];
    }
    if left: string, right: string :| name == left + part + right {
      assert name[|left|..] == part + right;
    }
  }

  /** A prefix rule accepts exactly the names that continue its own, a suffix rule those that end
      with it, a contains rule those it stands in the middle of, other rules nothing. */
  lemma MatchFacts(r: Rule, name: string)
    ensures Matches(r, name) <==>
            match r.kind
            case Prefix => exists rest: string :: name == r.name + rest
            case Suffix => exists rest: string :: name == rest + r.name
            case Contains => exists left: string, right: string :: name == left + r.name + right
            case Exact => false
            case Unknown => false
  {
    match r.kind
    case Prefix => PrefixIff(r.name, name);
    case Suffix => SuffixIff(r.name, name);
    case Contains => InfixIff(r.name, name);
    case _ =>
  }

  // ---------- the join for one rule ----------

  /** What the matches of a rule have in common with nothing but themselves: their names in
      pricing order, and the unions of their endpoints, groups and quota types. */
  datatype Joined = Joined(names: seq<string>, endpoints: set<string>, groups: set<string>, quotas: set<int>)

  const NOTHING := Joined([], {}, {}, {})

  function Add(j: Joined, p: Pricing): Joined {
    Joined(j.names + [p.name], j.endpoints + Items(p.endpoints), j.groups + Items(p.groups), j.quotas + {p.quotaType})
  }

  function Join(pricings: seq<Pricing>, r: Rule): Joined {
    if pricings == [] then NOTHING else
    var j, p := Join(pricings[..|pricings| - 1], r), pricings[|pricings| - 1];
    if Matches(r, p.name) then Add(j, p) else j
  }

  /** The join read as sets: exactly what some matching pricing entry offers. */
  lemma {:induction false} JoinFacts(pricings: seq<Pricing>, r: Rule)
    ensures var j := Join(pricings, r);
      && (forall n :: n in j.names <==> exists i :: 0 <= i < |pricings| && Matches(r, n) && pricings[i].name == n)
      && (forall g :: g in j.groups <==>
                     exists i :: 0 <= i < |pricings| && Matches(r, pricings[i].name) && g in pricings[i].groups)
      && (forall e :: e in j.endpoints <==>
                     exists i :: 0 <= i < |pricings| && Matches(r, pricings[i].name) && e in pricings[i].endpoints)
      && (forall q :: q in j.quotas <==>
                     exists i :: 0 <= i < |pricings| && Matches(r, pricings[i].name) && pricings[i].quotaType == q)
  {
    if pricings != [] {
      JoinFacts(pricings[..|pricings| - 1], r);
      assert pricings == pricings[..|pricings| - 1] + [pricings[|pricings| - 1]];
    }
  }

  /** The names of the matches, in the order of the pricing list and as often as they occur. */
  function Matching(pricings: seq<Pricing>, r: Rule): seq<string> {
    if pricings == [] then []
    else (if Matches(r, pricings[0].name) then [pricings[0].name] else []) + Matching(pricings[1..], r)
  }

  lemma {:induction false} MatchingSnoc(pricings: seq<Pricing>, p: Pricing, r: Rule)
    ensures Matching(pricings + [p], r) == Matching(pricings, r) + if Matches(r, p.name) then [p.name] else []
  {
    if pricings == [] {
      assert pricings + [p] == [p];
    } else {
      assert (pricings + [p])[1..] == pricings[1..] + [p] && (pricings + [p])[0] == pricings[0];
      MatchingSnoc(pricings[1..], p, r);
      var head := if Matches(r, pricings[0].name) then [pricings[0].name] else [];
      var last := if Matches(r, p.name) then [p.name] else [];
      assert head + (Matching(pricings[1..], r) + last) == (head + Matching(pricings[1..], r)) + last;
    }
  }

  lemma {:induction false} NamesInOrder(pricings: seq<Pricing>, r: Rule)
    ensures Join(pricings, r).names == Matching(pricings, r)
  {
    if pricings != [] {
      var n := |pricings| - 1;
      NamesInOrder(pricings[..n], r);
      assert pricings == pricings[..n] + [pricings[n]];
      MatchingSnoc(pricings[..n], pricings[n], r);
    }
  }

  /** The channels bound to any of the names. */
  function ChannelsOf(names: seq<string>, bound: string -> seq<Channel>): set<Channel> {
    if names == [] then {} else ChannelsOf(names[..|names| - 1], bound) + Items(bound(names[|names| - 1]))
  }

  lemma {:induction false} ChannelsIff(names: seq<string>, bound: string -> seq<Channel>, c: Channel)
    ensures c in ChannelsOf(names, bound) <==> exists i :: 0 <= i < |names| && c in bound(names[i])
  {
    if names != [] {
      var n := |names| - 1;
      ChannelsIff(names[..n], bound, c);
      if i :| 0 <= i < |names| && c in bound(names[i]) { if i < n { assert c in bound(names[..n][i]); } }
      if i :| 0 <= i < n && c in bound(names[..n][i]) { assert c in bound(names[i]); }
    }
  }

  // ---------- the batched pass ----------

  predicate Distinct<T(==)>(xs: seq<T>) { forall i, j :: 0 <= i < j < |xs| ==> xs[i] != xs[j] }

  /** The source's four maps from model index, which always share their keys. */
  type Batch = map<nat, Joined>

  function At(b: Batch, idx: nat): Joined { if idx in b then b[idx] else NOTHING }

  /** Every rule's accumulator holds the join over the pricing entries seen so far. */
  ghost predicate Joins(b: Batch, pricings: seq<Pricing>, rules: seq<Rule>, idx: nat)
    requires idx < |rules|
  {
    At(b, idx) == Join(pricings, rules[idx]) && (idx in b <==> At(b, idx).names != [])
  }

  method CollectAll(pricings: seq<Pricing>, rules: seq<Rule>, indices: seq<nat>) returns (b: Batch)
    requires Distinct(indices) && forall k :: 0 <= k < |indices| ==> indices[k] < |rules|
    ensures forall k :: 0 <= k < |indices| ==> Joins(b, pricings, rules, indices[k])
    ensures forall idx :: idx in b ==> idx in indices
  {
    b := map[];
    for i := 0 to |pricings|
      invariant forall k :: 0 <= k < |indices| ==> Joins(b, pricings[..i], rules, indices[k])
      invariant forall idx :: idx in b ==> idx in indices
    {
      var p := pricings[i];
      assert pricings[..i + 1][..i] == pricings[..i];
      for k := 0 to |indices|
        invariant forall l :: 0 <= l < k ==> Joins(b, pricings[..i + 1], rules, indices[l])
        invariant forall l :: k <= l < |indices| ==> Joins(b, pricings[..i], rules, indices[l])
        invariant forall idx :: idx in b ==> idx in indices
      {
        var idx := indices[k];
        ghost var before := b;
        assert Joins(before, pricings[..i], rules, idx);
        if Matches(rules[idx], p.name) {
          b := b[idx := Add(At(b, idx), p)];
        }
        assert Joins(b, pricings[..i + 1], rules, idx);
        forall l | 0 <= l < |indices| && l != k ensures At(b, indices[l]) == At(before, indices[l]) { }
      }
    }
    assert pricings[..|pricings|] == pricings;
  }

  /** A list in some order: Go's iteration over a set. */
  method Listed<T(==)>(s: set<T>) returns (xs: seq<T>)
    ensures Distinct(xs) && Items(xs) == s
  {
    xs := [];
    var pending := s;
    while pending != {}
      invariant pending <= s && Items(xs) == s - pending && Distinct(xs)
      decreases pending
    {
      var x :| x in pending;
      assert x !in Items(xs) && Items(xs + [x]) == Items(xs) + {x};
      xs := xs + [x];
      pending := pending - {x};
    }
  }

  predicate Increasing(xs: seq<int>) { forall i, j :: 0 <= i < j < |xs| ==> xs[i] < xs[j] }

  /** sort.Ints on the elements of a set. */
  method Sorted(s: set<int>) returns (xs: seq<int>)
    ensures Increasing(xs) && Items(xs) == s
  {
    xs := [];
    var pending := s;
    while pending != {}
      invariant pending <= s && Items(xs) == s - pending && Increasing(xs)
      invariant forall i, y :: 0 <= i < |xs| && y in pending ==> xs[i] < y
      decreases pending
    {
      var least := Least(pending);
      assert Items(xs + [least]) == Items(xs) + {least};
      xs := xs + [least];
      pending := pending - {least};
    }
  }

  method Least(s: set<int>) returns (m: int)
    requires s != {}
    ensures m in s && forall y :: y in s ==> m <= y
  {
    m := Pick(s);
    var pending := s - {m};
    while pending != {}
      invariant pending <= s && m in s && forall y :: y in s && y !in pending ==> m <= y
      decreases pending
    {
      var y := Pick(pending);
      if y < m { m := y; }
      pending := pending - {y};
    }
  }

  /** All matched names once, for the single channel query. */
  method AllMatched(b: Batch) returns (names: set<string>)
    ensures forall idx :: idx in b ==> Items(b[idx].names) <= names
  {
    names := {};
    var pending := b.Keys;
    while pending != {}
      invariant pending <= b.Keys
      invariant forall idx :: idx in b && idx !in pending ==> Items(b[idx].names) <= names
      decreases pending
    {
      var idx := Pick(pending);
      names := names + Items(b[idx].names);
      pending := pending - {idx};
    }
  }

  /** The union of the channels of one rule's names, looked up in the batched answer. */
  method UnionChannels(names: seq<string>, answer: map<string, seq<Channel>>, ghost bound: string -> seq<Channel>)
    returns (channels: set<Channel>)
    requires forall i :: 0 <= i < |names| ==> (if names[i] in answer then answer[names[i]] else []) == bound(names[i])
    ensures channels == ChannelsOf(names, bound)
  {
    channels := {};
    for i := 0 to |names|
      invariant channels == ChannelsOf(names[..i], bound)
    {
      assert names[..i + 1][..i] == names[..i];
      channels := channels + Items(if names[i] in answer then answer[names[i]] else []);
    }
    assert names[..|names|] == names;
  }

  // ---------- writing the models ----------

  class Model {
    const rule: Rule
    var endpoints: Option<seq<string>>
    var groups: seq<string>
    var quotaTypes: seq<int>
    var channels: seq<Channel>
    var matchedModels: seq<string>
    var matchedCount: int

    constructor (rule: Rule)
      ensures this.rule == rule && endpoints.None?
    {
      this.rule := rule;
      endpoints, groups, quotaTypes, channels, matchedModels, matchedCount := None, [], [], [], [], 0;
    }

    /** The fields agree with the join of this model's rule alone; where the join is empty the
        previous value stays, and endpoints already set are not touched. */
    twostate predicate Enriched(pricings: seq<Pricing>, bound: string -> seq<Channel>)
      reads this
    {
      var j := Join(pricings, rule);
      && matchedModels == j.names && matchedCount == |j.names|
      && (if j.names == [] then groups == old(groups) && quotaTypes == old(quotaTypes)
          else Distinct(groups) && Items(groups) == j.groups && Increasing(quotaTypes) && Items(quotaTypes) == j.quotas)
      && (if j.names == [] || old(endpoints).Some? then endpoints == old(endpoints)
          else endpoints.Some? && Distinct(endpoints.value) && Items(endpoints.value) == j.endpoints)
      && (if ChannelsOf(j.names, bound) == {} then channels == old(channels)
          else Distinct(channels) && Items(channels) == ChannelsOf(j.names, bound))
    }

    /** The unions of endpoints, groups and quota types, where anything matched. */
    method FillSets(j: Joined)
      modifies this`endpoints, this`groups, this`quotaTypes
      ensures Distinct(groups) && Items(groups) == j.groups && Increasing(quotaTypes) && Items(quotaTypes) == j.quotas
      ensures if old(endpoints).Some? then endpoints == old(endpoints)
              else endpoints.Some? && Distinct(endpoints.value) && Items(endpoints.value) == j.endpoints
    {
      if endpoints.None? {
        var eps := Listed(j.endpoints);
        endpoints := Some(eps);
      }
      groups := Listed(j.groups);
      quotaTypes := Sorted(j.quotas);
    }

    /** One model's share of the final loop. */
    method Fill(pricings: seq<Pricing>, j: Joined, found: bool, answer: map<string, seq<Channel>>,
                ghost bound: string -> seq<Channel>)
      requires j == Join(pricings, rule) && (found <==> j.names != [])
      requires forall i :: 0 <= i < |j.names| ==>
        (if j.names[i] in answer then answer[j.names[i]] else []) == bound(j.names[i])
      modifies this
      ensures Enriched(pricings, bound)
    {
      if found { FillSets(j); }
      var channelSet := UnionChannels(j.names, answer, bound);
      if |channelSet| > 0 { channels := Listed(channelSet); }
      matchedModels := j.names;
      matchedCount := |j.names|;
    }
  }

  /** The rule branch of enrichModels.  `indices` are the positions of the rule models; `query`
      is the batched channel lookup, whose answer for a name does not depend on the batch. */
  method EnrichRules(models: seq<Model>, indices: seq<nat>, pricings: seq<Pricing>, query: string -> seq<Channel>)
    requires Distinct(models) && Distinct(indices) && forall k :: 0 <= k < |indices| ==> indices[k] < |models|
    modifies models
    ensures forall k :: 0 <= k < |indices| ==> models[indices[k]].Enriched(pricings, query)
  {
    var rules := seq(|models|, i requires 0 <= i < |models| => models[i].rule);
    var b := CollectAll(pricings, rules, indices);
    var allMatched := AllMatched(b);
    var answer := map n | n in allMatched && query(n) != [] :: query(n);
    for k := 0 to |indices|
      invariant forall l :: 0 <= l < k ==> models[indices[l]].Enriched(pricings, query)
      invariant forall l :: k <= l < |indices| ==> unchanged(models[indices[l]])
    {
      var idx := indices[k];
      assert Joins(b, pricings, rules, idx);
      label before:
      assert forall n :: n in At(b, idx).names ==> n in Items(At(b, idx).names);
      models[idx].Fill(pricings, At(b, idx), idx in b, answer, query);
      forall l | 0 <= l < |indices| && l != k ensures models[indices[l]] != models[idx] { }
    }
  }
}
