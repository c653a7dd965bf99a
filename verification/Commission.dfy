/** Multi-level sales commission and the write-off of withdrawals (controller/agent.go). */
module Commission {

  /** users.id -> users.inviter_id; zero means nobody.  Nothing rules out cycles. */
  type Inviters = map<int, int>

  datatype TopUp = TopUp(user: int, money: real, success: bool)

  datatype Agent = Agent(id: int, level: int, customRate: real)

  /** The configured rates by agent level. */
  datatype Rates = Rates(l1: real, l2: real, l3: real)

  /** computeSelfRate: a positive personal rate wins, otherwise the level decides. */
  function SelfRate(a: Agent, r: Rates): real {
    if a.customRate > 0.0 then a.customRate
    else if a.level == 1 then r.l1 else if a.level == 2 then r.l2 else if a.level == 3 then r.l3 else 0.0
  }

  /** The customers k levels below an agent, as the nested queries select them. */
  function Level(users: Inviters, agent: int, k: nat): set<int>
    requires k >= 1
  {
    if k == 1 then set u | u in users && users[u] == agent
    else var above := Level(users, agent, k - 1); set u | u in users && users[u] in above
  }

  /** SUM(money) over the successful top-ups of a set of users. */
  function SumIn(topUps: seq<TopUp>, who: set<int>): real {
    if topUps == [] then 0.0
    else (if topUps[0].success && topUps[0].user in who then topUps[0].money else 0.0) + SumIn(topUps[1..], who)
  }

  function Successful(topUps: seq<TopUp>): real {
    if topUps == [] then 0.0 else (if topUps[0].success then topUps[0].money else 0.0) + Successful(topUps[1..])
  }

  /** computeMultiLevelStats: the top-ups of customers one, two and three levels down. */
  function Volume(users: Inviters, topUps: seq<TopUp>, agent: int): real {
    SumIn(topUps, Level(users, agent, 1)) + SumIn(topUps, Level(users, agent, 2)) +
    SumIn(topUps, Level(users, agent, 3))
  }

  function Volumes(users: Inviters, topUps: seq<TopUp>, agents: seq<Agent>): seq<real> {
    seq(|agents|, i requires 0 <= i < |agents| => Volume(users, topUps, agents[i].id))
  }

  function SelfRates(agents: seq<Agent>, r: Rates): seq<real> {
    seq(|agents|, i requires 0 <= i < |agents| => SelfRate(agents[i], r))
  }

  /** The sum of xs[i] * ys[i]. */
  function Dot(xs: seq<real>, ys: seq<real>): real
    requires |xs| == |ys|
  {
    if xs == [] then 0.0 else xs[0] * ys[0] + Dot(xs[1..], ys[1..])
  }

  /** computeEstimatedCommission, volume times own rate, for all agents together. */
  function TotalEstimated(users: Inviters, topUps: seq<TopUp>, agents: seq<Agent>, r: Rates): real {
    Dot(Volumes(users, topUps, agents), SelfRates(agents, r))
  }

  predicate Paid(topUps: seq<TopUp>) { forall i :: 0 <= i < |topUps| ==> topUps[i].money >= 0.0 }

  predicate DistinctAgents(agents: seq<Agent>) {
    forall i, j :: 0 <= i < j < |agents| ==> agents[i].id != agents[j].id
  }

  // ---------- every user has at most one ancestor at each distance ----------

  lemma {:induction false} LevelsAreDisjoint(users: Inviters, a: int, b: int, k: nat)
    requires a != b && k >= 1
    ensures Level(users, a, k) !! Level(users, b, k)
  {
    if k > 1 { LevelsAreDisjoint(users, a, b, k - 1); }
  }

  /** Whether following the inviter k times is possible and ends at the agent. */
  predicate InvitedBy(users: Inviters, user: int, k: nat, agent: int)
    decreases k
  {
    if k == 0 then user == agent else user in users && InvitedBy(users, users[user], k - 1, agent)
  }

  /** The customers of level k are exactly the users from whom k invitations lead up to the agent. */
  lemma {:induction false} LevelIff(users: Inviters, agent: int, k: nat, user: int)
    requires k >= 1
    ensures user in Level(users, agent, k) <==> InvitedBy(users, user, k, agent)
  {
    if k == 1 {
      assert user in users ==> (InvitedBy(users, users[user], 0, agent) <==> users[user] == agent);
    } else if user in users {
      LevelIff(users, agent, k - 1, users[user]);
    }
  }

  /** How often a user's payments count for an agent: once for every of the three levels on which
      the user is the agent's customer. */
  function Times(users: Inviters, user: int, agent: int): int {
    (if InvitedBy(users, user, 1, agent) then 1 else 0) + (if InvitedBy(users, user, 2, agent) then 1 else 0)
    + (if InvitedBy(users, user, 3, agent) then 1 else 0)
  }

  function Weighted(users: Inviters, topUps: seq<TopUp>, agent: int): real {
    if topUps == [] then 0.0
    else (if topUps[0].success then topUps[0].money * Times(users, topUps[0].user, agent) as real else 0.0)
         + Weighted(users, topUps[1..], agent)
  }

  /** An agent's volume, top-up by top-up: each successful one counts once per level. */
  lemma {:induction false} VolumeByTopUps(users: Inviters, topUps: seq<TopUp>, agent: int)
    ensures Volume(users, topUps, agent) == Weighted(users, topUps, agent)
  {
    if topUps != [] {
      VolumeByTopUps(users, topUps[1..], agent);
      LevelIff(users, agent, 1, topUps[0].user);
      LevelIff(users, agent, 2, topUps[0].user);
      LevelIff(users, agent, 3, topUps[0].user);
      CountTimes(topUps[0].money, Times(users, topUps[0].user, agent));
    }
  }

  lemma CountTimes(money: real, n: int)
    requires 0 <= n <= 3
    ensures money * n as real ==
            if n == 0 then 0.0 else if n == 1 then money else if n == 2 then money + money else money + money + money
  {
  }

  lemma DotOne(x: real, y: real)
    ensures Dot([x], [y]) == x * y
  {
    assert Dot([x], [y]) == x * y + Dot([x][1..], [y][1..]);
  }

  /** One agent's estimate: the volume times the personal rate if that is positive, and otherwise
      times the rate of the agent's level, which is zero outside the levels one to three. */
  lemma EstimateOfOne(users: Inviters, topUps: seq<TopUp>, a: Agent, r: Rates)
    ensures var rate := if a.customRate > 0.0 then a.customRate
                        else match a.level case 1 => r.l1 case 2 => r.l2 case 3 => r.l3 case _ => 0.0;
      TotalEstimated(users, topUps, [a], r) == Weighted(users, topUps, a.id) * rate
  {
    VolumeByTopUps(users, topUps, a.id);
    assert Volumes(users, topUps, [a]) == [Weighted(users, topUps, a.id)];
    assert SelfRates([a], r) == [SelfRate(a, r)];
    DotOne(Weighted(users, topUps, a.id), SelfRate(a, r));
  }

  /** And the estimates of several agents add up. */
  lemma EstimatesAddUp(users: Inviters, topUps: seq<TopUp>, a: Agent, agents: seq<Agent>, r: Rates)
    ensures TotalEstimated(users, topUps, [a] + agents, r) ==
            TotalEstimated(users, topUps, [a], r) + TotalEstimated(users, topUps, agents, r)
  {
    var xs, rs := Volumes(users, topUps, [a] + agents), SelfRates([a] + agents, r);
    assert xs == [Volume(users, topUps, a.id)] + Volumes(users, topUps, agents);
    assert rs == [SelfRate(a, r)] + SelfRates(agents, r);
    assert xs[1..] == Volumes(users, topUps, agents) && rs[1..] == SelfRates(agents, r);
    assert Volumes(users, topUps, [a]) == [xs[0]] && SelfRates([a], r) == [rs[0]];
    DotOne(xs[0], rs[0]);
  }

  lemma {:induction false} SumOfUnion(topUps: seq<TopUp>, s: set<int>, t: set<int>)
    requires s !! t
    ensures SumIn(topUps, s + t) == SumIn(topUps, s) + SumIn(topUps, t)
  {
    if topUps != [] { SumOfUnion(topUps[1..], s, t); }
  }

  lemma {:induction false} SumBounds(topUps: seq<TopUp>, s: set<int>)
    requires Paid(topUps)
    ensures 0.0 <= SumIn(topUps, s) <= Successful(topUps)
  {
    if topUps != [] { SumBounds(topUps[1..], s); }
  }

  /** The users at distance k below any of the agents. */
  function Reached(users: Inviters, agents: seq<Agent>, k: nat): set<int>
    requires k >= 1
  {
    if agents == [] then {} else Level(users, agents[0].id, k) + Reached(users, agents[1..], k)
  }

  function LevelSum(users: Inviters, topUps: seq<TopUp>, agents: seq<Agent>, k: nat): real
    requires k >= 1
  {
    if agents == [] then 0.0 else SumIn(topUps, Level(users, agents[0].id, k)) + LevelSum(users, topUps, agents[1..], k)
  }

  lemma {:induction false} ReachedIsDisjoint(users: Inviters, a: int, agents: seq<Agent>, k: nat)
    requires k >= 1 && forall i :: 0 <= i < |agents| ==> agents[i].id != a
    ensures Level(users, a, k) !! Reached(users, agents, k)
  {
    if agents != [] {
      LevelsAreDisjoint(users, a, agents[0].id, k);
      ReachedIsDisjoint(users, a, agents[1..], k);
    }
  }

  /** Summing over agents first or over users first gives the same. */
  lemma {:induction false} LevelSumIsOneSum(users: Inviters, topUps: seq<TopUp>, agents: seq<Agent>, k: nat)
    requires k >= 1 && DistinctAgents(agents)
    ensures LevelSum(users, topUps, agents, k) == SumIn(topUps, Reached(users, agents, k))
  {
    if agents == [] {
      SumOfNobody(topUps);
    } else {
      ReachedIsDisjoint(users, agents[0].id, agents[1..], k);
      LevelSumIsOneSum(users, topUps, agents[1..], k);
      SumOfUnion(topUps, Level(users, agents[0].id, k), Reached(users, agents[1..], k));
    }
  }

  lemma {:induction false} SumOfNobody(topUps: seq<TopUp>)
    ensures SumIn(topUps, {}) == 0.0
  {
    if topUps != [] { SumOfNobody(topUps[1..]); }
  }

  function Sum(xs: seq<real>): real { if xs == [] then 0.0 else xs[0] + Sum(xs[1..]) }

  /** Each level counts every top-up at most once, whatever the number of agents. */
  lemma TotalVolumeBound(users: Inviters, topUps: seq<TopUp>, agents: seq<Agent>)
    requires Paid(topUps) && DistinctAgents(agents)
    ensures Sum(Volumes(users, topUps, agents)) <= 3.0 * Successful(topUps)
  {
    VolumeByLevels(users, topUps, agents);
    LevelSumIsOneSum(users, topUps, agents, 1);
    LevelSumIsOneSum(users, topUps, agents, 2);
    LevelSumIsOneSum(users, topUps, agents, 3);
    SumBounds(topUps, Reached(users, agents, 1));
    SumBounds(topUps, Reached(users, agents, 2));
    SumBounds(topUps, Reached(users, agents, 3));
  }

  lemma {:induction false} VolumeByLevels(users: Inviters, topUps: seq<TopUp>, agents: seq<Agent>)
    ensures Sum(Volumes(users, topUps, agents)) ==
            LevelSum(users, topUps, agents, 1) + LevelSum(users, topUps, agents, 2) + LevelSum(users, topUps, agents, 3)
  {
    if agents != [] {
      VolumeByLevels(users, topUps, agents[1..]);
      assert Volumes(users, topUps, agents)[1..] == Volumes(users, topUps, agents[1..]);
    }
  }

  lemma Scale(a: real, b: real, x: real)
    requires a <= b && x >= 0.0
    ensures x * a <= x * b && a * x <= b * x
  {
  }

  /** One agent's commission and the rest's, each under the cap, are together under it. */
  lemma Combine(x: real, rate: real, rest: real, y: real, cap: real)
    requires x >= 0.0 && rate <= cap && rest <= y * cap
    ensures x * rate + rest <= (x + y) * cap
  {
    Scale(rate, cap, x);
    assert (x + y) * cap == x * cap + y * cap;
  }

  lemma {:induction false} DotUnderCap(xs: seq<real>, rates: seq<real>, cap: real)
    requires |xs| == |rates|
    requires forall i :: 0 <= i < |xs| ==> xs[i] >= 0.0 && rates[i] <= cap
    ensures Dot(xs, rates) <= Sum(xs) * cap
  {
    if xs != [] {
      DotUnderCap(xs[1..], rates[1..], cap);
      Combine(xs[0], rates[0], Dot(xs[1..], rates[1..]), Sum(xs[1..]), cap);
    }
  }

  lemma Loosen(d: real, p: real, q: real, cap: real)
    requires d <= p * cap && p <= q && cap >= 0.0
    ensures d <= q * cap
  {
    Scale(p, q, cap);
  }

  lemma DotBound(xs: seq<real>, rates: seq<real>, cap: real, total: real)
    requires |xs| == |rates| && cap >= 0.0 && Sum(xs) <= total
    requires forall i :: 0 <= i < |xs| ==> xs[i] >= 0.0 && rates[i] <= cap
    ensures Dot(xs, rates) <= total * cap
  {
    DotUnderCap(xs, rates, cap);
    Loosen(Dot(xs, rates), Sum(xs), total, cap);
  }

  lemma VolumesAreNotNegative(users: Inviters, topUps: seq<TopUp>, agents: seq<Agent>)
    requires Paid(topUps)
    ensures var xs := Volumes(users, topUps, agents); forall i :: 0 <= i < |xs| ==> xs[i] >= 0.0
  {
    var xs := Volumes(users, topUps, agents);
    forall i | 0 <= i < |xs| ensures xs[i] >= 0.0 {
      SumBounds(topUps, Level(users, agents[i].id, 1));
      SumBounds(topUps, Level(users, agents[i].id, 2));
      SumBounds(topUps, Level(users, agents[i].id, 3));
    }
  }

  /** The global bound: whoever invited whom, even in circles, all estimated commissions
      together are at most three times the highest rate on all successful top-ups. */
  lemma CommissionBound(users: Inviters, topUps: seq<TopUp>, agents: seq<Agent>, r: Rates, cap: real)
    requires Paid(topUps) && DistinctAgents(agents) && cap >= 0.0
    requires forall i :: 0 <= i < |agents| ==> SelfRate(agents[i], r) <= cap
    ensures TotalEstimated(users, topUps, agents, r) <= (3.0 * Successful(topUps)) * cap
  {
    var xs := Volumes(users, topUps, agents);
    VolumesAreNotNegative(users, topUps, agents);
    TotalVolumeBound(users, topUps, agents);
    DotBound(xs, SelfRates(agents, r), cap, 3.0 * Successful(topUps));
  }

  /** The bound is attained: one user who invited himself is his own customer on all three
      levels, and any top-up of his pays him three times his rate. */
  lemma BoundIsTight(money: real, rate: real)
    requires money >= 0.0 && rate > 0.0
    ensures TotalEstimated(map[7 := 7], [TopUp(7, money, true)], [Agent(7, 1, rate)], Rates(0.0, 0.0, 0.0))
            == (3.0 * Successful([TopUp(7, money, true)])) * rate
  {
    var users, ups, a := map[7 := 7], [TopUp(7, money, true)], Agent(7, 1, rate);
    assert Level(users, 7, 1) == {7};
    assert Level(users, 7, 2) == {7};
    assert Level(users, 7, 3) == {7};
    assert SumIn(ups, {7}) == money;
    var xs, rs := Volumes(users, ups, [a]), SelfRates([a], Rates(0.0, 0.0, 0.0));
    assert xs == [3.0 * money] && rs == [rate];
    assert Dot(xs, rs) == xs[0] * rs[0] + Dot(xs[1..], rs[1..]);
  }

  // ---------- writing off a withdrawal ----------

  lemma {:induction false} SumSnoc(xs: seq<real>, x: real)
    ensures Sum(xs + [x]) == Sum(xs) + x
  {
    if xs == [] {
      assert xs + [x] == [x];
    } else {
      assert (xs + [x])[1..] == xs[1..] + [x];
      SumSnoc(xs[1..], x);
    }
  }

  /** The FIFO loop of AdminProcessWithdrawal over the approved ledger entries in id order:
      the first `paid` of them become paid. */
  method WriteOff(entries: seq<real>, amount: real) returns (paid: nat)
    ensures paid <= |entries|
    ensures paid < |entries| ==> Sum(entries[..paid]) >= amount
    ensures forall k :: 0 <= k < paid ==> Sum(entries[..k]) < amount
  {
    var remaining := amount;
    paid := 0;
    for i := 0 to |entries|
      invariant paid == i && remaining == amount - Sum(entries[..i])
      invariant forall k :: 0 <= k < i ==> Sum(entries[..k]) < amount
    {
      if remaining <= 0.0 { return; }
      assert entries[..i + 1] == entries[..i] + [entries[i]];
      SumSnoc(entries[..i], entries[i]);
      remaining := remaining - entries[i];
      paid := i + 1;
    }
    assert entries[..|entries|] == entries;
  }

  /** Entries are never split, so the amount written off equals the amount withdrawn if and only
      if some first entries add up to it exactly and no fewer exceed it; what is written off
      too much is less than the last entry paid. */
  lemma WriteOffExactIff(entries: seq<real>, amount: real, paid: nat)
    requires paid <= |entries| && (paid < |entries| ==> Sum(entries[..paid]) >= amount)
    requires forall k :: 0 <= k < paid ==> Sum(entries[..k]) < amount
    ensures Sum(entries[..paid]) == amount <==>
            exists k :: 0 <= k <= |entries| && Sum(entries[..k]) == amount && NoneExceeds(entries, k, amount)
    ensures (forall i :: 0 <= i < |entries| ==> entries[i] >= 0.0) ==>
              (Sum(entries[..paid]) == amount <==> exists k :: 0 <= k <= |entries| && Sum(entries[..k]) == amount)
    ensures Sum(entries[..paid]) >= amount <==> exists k :: 0 <= k <= |entries| && Sum(entries[..k]) >= amount
    ensures paid > 0 ==> Sum(entries[..paid]) - amount < entries[paid - 1]
  {
    assert entries[..|entries|] == entries;
    if paid > 0 {
      assert entries[..paid] == entries[..paid - 1] + [entries[paid - 1]];
      SumSnoc(entries[..paid - 1], entries[paid - 1]);
    }
    if k :| 0 <= k <= |entries| && Sum(entries[..k]) == amount && NoneExceeds(entries, k, amount) {
      if k > paid { assert Sum(entries[..paid]) <= amount; }
    }
    if forall i :: 0 <= i < |entries| ==> entries[i] >= 0.0 {
      if k :| 0 <= k <= |entries| && Sum(entries[..k]) == amount { GrowingEntriesNeverExceed(entries, k, amount); }
    }
  }

  /** No proper first part of the first k entries adds up to more than the amount. */
  predicate NoneExceeds(entries: seq<real>, k: nat, amount: real)
    requires k <= |entries|
  {
    forall j :: 0 <= j < k ==> Sum(entries[..j]) <= amount
  }

  /** When no entry is negative none can exceed it first. */
  lemma GrowingEntriesNeverExceed(entries: seq<real>, k: nat, amount: real)
    requires k <= |entries| && (forall i :: 0 <= i < |entries| ==> entries[i] >= 0.0) && Sum(entries[..k]) == amount
    ensures NoneExceeds(entries, k, amount)
  {
    forall j | 0 <= j < k ensures Sum(entries[..j]) <= amount { SumGrows(entries, j, k); }
  }

  lemma {:induction false} SumGrows(entries: seq<real>, i: nat, j: nat)
    requires i < j <= |entries| && forall k :: 0 <= k < |entries| ==> entries[k] >= 0.0
    ensures Sum(entries[..i]) <= Sum(entries[..j])
  {
    assert entries[..j] == entries[..j - 1] + [entries[j - 1]];
    SumSnoc(entries[..j - 1], entries[j - 1]);
    if i < j - 1 { SumGrows(entries, i, j - 1); }
  }
}
