/** The in-memory sliding-window rate limiter of common/rate-limit.go.  It keeps a short queue
    of timestamps per key and a sweeper forgets idle keys; the specification keeps every
    acceptance for ever and counts the recent ones. */
module RateLimiter {

  type Store = map<string, seq<int>>

  /** A request is refused when the queue is full and its head is younger than `duration`. */
  predicate Admits(store: Store, key: string, max: int, duration: int, now: int) {
    key in store && 0 < |store[key]| ==> |store[key]| < max || now - store[key][0] >= duration
  }

  function AfterRequest(store: Store, key: string, max: int, duration: int, now: int): Store {
    if !Admits(store, key, max, duration, now) then store
    else if key !in store then store[key := [now]]
    else if |store[key]| < max || store[key] == [] then store[key := store[key] + [now]]
    else store[key := store[key][1..] + [now]]
  }

  /** The sweeper's test: no acceptance within the last `expiration` seconds. */
  predicate Idle(queue: seq<int>, expiration: int, now: int) {
    queue == [] || now - queue[|queue| - 1] > expiration
  }

  function AfterSweep(store: Store, expiration: int, now: int): Store {
    map k | k in store && !Idle(store[k], expiration, now) :: store[k]
  }

  class InMemoryRateLimiter {
    var store: Store
    var expiration: int

    ghost predicate Valid()
      reads this
    {
      forall k :: k in store ==> store[k] != []
    }

    constructor Init(expiration: int)
      ensures Valid() && store == map[] && this.expiration == expiration
    {
      store := map[];
      this.expiration := expiration;
    }

    /** A negative maxRequestNum makes the source panic on a fresh key. */
    method Request(key: string, max: int, duration: int, now: int) returns (ok: bool)
      requires Valid() && max >= 0
      modifies this`store
      ensures Valid()
      ensures ok == Admits(old(store), key, max, duration, now)
      ensures store == AfterRequest(old(store), key, max, duration, now)
    {
      if key in store {
        var queue := store[key];
        if |queue| < max {
          store := store[key := queue + [now]];
          return true;
        } else if now - queue[0] >= duration {
          queue := queue[1..];
          queue := queue + [now];
          store := store[key := queue];
          return true;
        } else {
          return false;
        }
      }
      store := store[key := []];
      store := store[key := store[key] + [now]];
      assert [] + [now] == [now];
      return true;
    }

    /** One pass of the background sweeper. */
    method ClearExpiredItems(now: int)
      requires Valid()
      modifies this`store
      ensures Valid()
      ensures store == AfterSweep(old(store), expiration, now)
    {
      var pending := store.Keys;
      while pending != {}
        invariant pending <= store.Keys <= old(store).Keys
        invariant forall k :: k in store ==> store[k] == old(store)[k]
        invariant forall k :: k in old(store) && k !in pending ==>
                    (k in store <==> !Idle(old(store)[k], expiration, now))
        decreases pending
      {
        var key :| key in pending;
        var queue := store[key];
        if |queue| == 0 || now - queue[|queue| - 1] > expiration {
          store := store - {key};
        }
        pending := pending - {key};
      }
    }
  }

  // ---------- whole runs ----------

  /** One limiter's fixed parameters, in seconds. */
  datatype Config = Config(max: nat, duration: int, expiration: nat)

  datatype Event = Ask(key: string, now: int) | Sweep(now: int)

  /** `accepted` is the history the real limiter does not keep. */
  datatype History = History(store: Store, accepted: map<string, seq<int>>)

  function Accepted(h: History, key: string): seq<int> {
    if key in h.accepted then h.accepted[key] else []
  }

  function Queue(h: History, key: string): seq<int> {
    if key in h.store then h.store[key] else []
  }

  function Step(c: Config, h: History, e: Event): History {
    match e
    case Sweep(now) => h.(store := AfterSweep(h.store, c.expiration, now))
    case Ask(key, now) =>
      History(AfterRequest(h.store, key, c.max, c.duration, now),
              if Admits(h.store, key, c.max, c.duration, now)
              then h.accepted[key := Accepted(h, key) + [now]] else h.accepted)
  }

  function Run(c: Config, events: seq<Event>): History {
    if events == [] then History(map[], map[])
    else Step(c, Run(c, events[..|events| - 1]), events[|events| - 1])
  }

  /** How many of the times `a` are younger than `duration` at `now`. */
  function Recent(a: seq<int>, duration: int, now: int): nat {
    if a == [] then 0 else
    Recent(a[..|a| - 1], duration, now) + if now - a[|a| - 1] < duration then 1 else 0
  }

  /** The clock never runs backwards. */
  predicate Timed(events: seq<Event>) {
    forall i, j :: 0 <= i < j < |events| ==> events[i].now <= events[j].now
  }

  /** The specification: accept exactly when fewer than max acceptances are recent. */
  ghost predicate Correct(c: Config, events: seq<Event>) {
    forall i :: 0 <= i < |events| && events[i].Ask? ==>
      var h := Run(c, events[..i]);
      Admits(h.store, events[i].key, c.max, c.duration, events[i].now) <==>
      Recent(Accepted(h, events[i].key), c.duration, events[i].now) < c.max
  }

  lemma {:induction false} RecentSplit(a: seq<int>, b: seq<int>, duration: int, now: int)
    ensures Recent(a + b, duration, now) == Recent(a, duration, now) + Recent(b, duration, now)
  {
    if b == [] {
      assert a + b == a;
    } else {
      RecentSplit(a, b[..|b| - 1], duration, now);
      assert (a + b)[..|a + b| - 1] == a + b[..|b| - 1];
    }
  }

  lemma {:induction false} RecentBounds(a: seq<int>, duration: int, now: int)
    ensures Recent(a, duration, now) <= |a|
    ensures (forall i :: 0 <= i < |a| ==> now - a[i] >= duration) ==> Recent(a, duration, now) == 0
    ensures (forall i :: 0 <= i < |a| ==> now - a[i] < duration) ==> Recent(a, duration, now) == |a|
  {
    if a != [] { RecentBounds(a[..|a| - 1], duration, now); }
  }

  predicate Sorted(a: seq<int>) { forall i, j :: 0 <= i < j < |a| ==> a[i] <= a[j] }

  predicate AllBefore(a: seq<int>, limit: int) { forall i :: 0 <= i < |a| ==> a[i] <= limit }

  /** Any max + 1 consecutive acceptances span at least `duration`. */
  predicate Spaced(c: Config, a: seq<int>) {
    forall i :: 0 <= i && i + c.max < |a| ==> a[i + c.max] - a[i] >= c.duration
  }

  /** The part of the history that the queue no longer holds. */
  function Lost(q: seq<int>, a: seq<int>): seq<int>
    requires |q| <= |a|
  {
    a[..|a| - |q|]
  }

  /** The queue is the newest part of the history; everything it has lost has expired. */
  predicate Faithful(c: Config, q: seq<int>, a: seq<int>, now: int) {
    && |q| <= c.max && |q| <= |a| && a == Lost(q, a) + q
    && AllBefore(Lost(q, a), now - c.duration)
    && Sorted(a) && AllBefore(a, now) && Spaced(c, a)
  }

  /** A sorted queue of at most max times has room among the recent ones exactly when it is
      short or its head has expired. */
  lemma SortedQueueAnswers(c: Config, q: seq<int>, now: int)
    requires Sorted(q) && |q| <= c.max && c.max >= 1
    ensures (|q| < c.max || now - q[0] >= c.duration) <==> Recent(q, c.duration, now) < c.max
  {
    RecentBounds(q, c.duration, now);
    if |q| == c.max && now - q[0] >= c.duration {
      assert q == [q[0]] + q[1..];
      RecentSplit([q[0]], q[1..], c.duration, now);
      RecentBounds([q[0]], c.duration, now);
      RecentBounds(q[1..], c.duration, now);
    }
  }

  lemma SuffixIsSorted(lost: seq<int>, q: seq<int>)
    requires Sorted(lost + q)
    ensures Sorted(q)
  {
    forall i, j | 0 <= i < j < |q| ensures q[i] <= q[j] {
      assert (lost + q)[|lost| + i] <= (lost + q)[|lost| + j];
    }
  }

  lemma ExpiredDoNotCount(lost: seq<int>, q: seq<int>, duration: int, now: int)
    requires AllBefore(lost, now - duration)
    ensures Recent(lost + q, duration, now) == Recent(q, duration, now)
  {
    RecentSplit(lost, q, duration, now);
    RecentBounds(lost, duration, now);
  }

  /** A faithful queue answers as the whole history would. */
  lemma QueueAnswers(c: Config, q: seq<int>, a: seq<int>, now: int)
    requires Faithful(c, q, a, now) && c.max >= 1
    ensures (|q| < c.max || now - q[0] >= c.duration) <==> Recent(a, c.duration, now) < c.max
  {
    SuffixIsSorted(Lost(q, a), q);
    ExpiredDoNotCount(Lost(q, a), q, c.duration, now);
    SortedQueueAnswers(c, q, now);
  }

  /** The side condition under which the limiter is exact. */
  predicate Sane(c: Config) { c.max >= 1 && c.duration <= c.expiration + 1 }

  /** Runs on which the limiter is exact: under the side condition, or if no sweeper runs, as
      when Init is given a non-positive expiration. */
  predicate Covered(c: Config, events: seq<Event>) {
    Sane(c) || (c.max >= 1 && forall i :: 0 <= i < |events| ==> events[i].Ask?)
  }

  ghost predicate FaithfulAll(c: Config, h: History, now: int) {
    (forall k :: k in h.store ==> h.store[k] != []) && forall k :: Faithful(c, Queue(h, k), Accepted(h, k), now)
  }

  /** Time passing expires more, never less. */
  lemma AgeKeepsFaith(c: Config, q: seq<int>, a: seq<int>, before: int, now: int)
    requires Faithful(c, q, a, before) && before <= now
    ensures Faithful(c, q, a, now)
  {
  }

  lemma StepKeepsFaith(c: Config, h: History, e: Event, before: int)
    requires c.max >= 1 && (e.Sweep? ==> Sane(c)) && FaithfulAll(c, h, before) && before <= e.now
    ensures FaithfulAll(c, Step(c, h, e), e.now)
  {
    forall k ensures Faithful(c, Queue(Step(c, h, e), k), Accepted(Step(c, h, e), k), e.now) {
      assert Faithful(c, Queue(h, k), Accepted(h, k), before);
      StepKeepsKey(c, h, e, before, k);
    }
    StepStoresNoEmptyQueue(c, h, e);
  }

  lemma StepStoresNoEmptyQueue(c: Config, h: History, e: Event)
    requires forall k :: k in h.store ==> h.store[k] != []
    ensures var h' := Step(c, h, e); forall k :: k in h'.store ==> h'.store[k] != []
  {
  }

  lemma {:induction false} StepKeepsKey(c: Config, h: History, e: Event, before: int, k: string)
    requires c.max >= 1 && (e.Sweep? ==> Sane(c)) && before <= e.now
    requires Faithful(c, Queue(h, k), Accepted(h, k), before)
    ensures Faithful(c, Queue(Step(c, h, e), k), Accepted(Step(c, h, e), k), e.now)
  {
    AgeKeepsFaith(c, Queue(h, k), Accepted(h, k), before, e.now);
    match e
    case Sweep(now) => SweepKeepsKey(c, h, now, k);
    case Ask(key, now) => AskKeepsKey(c, h, key, now, k);
  }

  lemma SweepKeepsKey(c: Config, h: History, now: int, k: string)
    requires Sane(c) && Faithful(c, Queue(h, k), Accepted(h, k), now)
    ensures var h' := Step(c, h, Sweep(now)); Faithful(c, Queue(h', k), Accepted(h', k), now)
  {
    if Idle(Queue(h, k), c.expiration, now) { SweepKeepsFaith(c, Queue(h, k), Accepted(h, k), now); }
  }

  lemma {:induction false} AskKeepsKey(c: Config, h: History, key: string, now: int, k: string)
    requires c.max >= 1 && Faithful(c, Queue(h, k), Accepted(h, k), now)
    ensures var h' := Step(c, h, Ask(key, now)); Faithful(c, Queue(h', k), Accepted(h', k), now)
  {
    var q, h' := Queue(h, k), Step(c, h, Ask(key, now));
    if k == key && Admits(h.store, k, c.max, c.duration, now) {
      AcceptKeepsFaith(c, q, Accepted(h, k), now);
      assert Queue(h', k) == (if |q| < c.max then q else q[1..]) + [now];
    }
  }

  /** Forgetting an idle queue loses only expired times. */
  lemma SweepKeepsFaith(c: Config, q: seq<int>, a: seq<int>, now: int)
    requires Sane(c) && Faithful(c, q, a, now) && Idle(q, c.expiration, now)
    ensures Faithful(c, [], a, now)
  {
    assert a == Lost([], a) + [];
    forall i | 0 <= i < |a| ensures a[i] <= now - c.duration {
      if i < |a| - |q| { assert a[i] == Lost(q, a)[i]; } else { assert a[|a| - 1] == q[|q| - 1]; }
    }
  }

  /** Accepting keeps the newest times and stays spaced, because what gives way has expired. */
  lemma AcceptKeepsFaith(c: Config, q: seq<int>, a: seq<int>, now: int)
    requires c.max >= 1 && Faithful(c, q, a, now)
    requires |q| < c.max || now - q[0] >= c.duration
    ensures Faithful(c, (if |q| < c.max then q else q[1..]) + [now], a + [now], now)
  {
    if |q| < c.max {
      PushKeepsFaith(c, Lost(q, a), q, now);
    } else {
      var lost, kept := Lost(q, a) + [q[0]], q[1..];
      assert a == lost + kept;
      HeadHasExpired(c, q, a, now);
      PushKeepsFaith(c, lost, kept, now);
    }
  }

  lemma HeadHasExpired(c: Config, q: seq<int>, a: seq<int>, now: int)
    requires |q| <= |a| && AllBefore(Lost(q, a), now - c.duration) && q != [] && now - q[0] >= c.duration
    ensures AllBefore(Lost(q, a) + [q[0]], now - c.duration)
  {
  }

  lemma PushKeepsFaith(c: Config, lost: seq<int>, kept: seq<int>, now: int)
    requires |kept| < c.max && AllBefore(lost, now - c.duration)
    requires Sorted(lost + kept) && AllBefore(lost + kept, now) && Spaced(c, lost + kept)
    ensures Faithful(c, kept + [now], lost + kept + [now], now)
  {
    var a' := lost + kept + [now];
    assert Lost(kept + [now], a') == lost;
    assert a' == lost + (kept + [now]);
    AppendKeepsSpacing(c, lost, kept, now);
  }

  lemma AppendKeepsSpacing(c: Config, lost: seq<int>, kept: seq<int>, now: int)
    requires Spaced(c, lost + kept) && |kept| < c.max && AllBefore(lost, now - c.duration)
    ensures Spaced(c, lost + kept + [now])
  {
    var a, a' := lost + kept, lost + kept + [now];
    forall i | 0 <= i && i + c.max < |a'| ensures a'[i + c.max] - a'[i] >= c.duration {
      if i + c.max == |a| { assert a'[i] == lost[i]; } else { assert a[i + c.max] - a[i] >= c.duration; }
    }
  }

  lemma {:induction false} RunIsFaithful(c: Config, events: seq<Event>, now: int)
    requires Covered(c, events) && Timed(events) && (events != [] ==> events[|events| - 1].now <= now)
    ensures FaithfulAll(c, Run(c, events), now)
  {
    if events != [] {
      var e := events[|events| - 1];
      RunIsFaithful(c, events[..|events| - 1], e.now);
      StepKeepsFaith(c, Run(c, events[..|events| - 1]), e, e.now);
      forall k ensures Faithful(c, Queue(Run(c, events), k), Accepted(Run(c, events), k), now) {
        assert Faithful(c, Queue(Run(c, events), k), Accepted(Run(c, events), k), e.now);
      }
    }
  }

  lemma CoveredIsCorrect(c: Config, events: seq<Event>)
    requires Covered(c, events) && Timed(events)
    ensures Correct(c, events)
  {
    forall i | 0 <= i < |events| && events[i].Ask?
      ensures var h := Run(c, events[..i]);
        Admits(h.store, events[i].key, c.max, c.duration, events[i].now) <==>
        Recent(Accepted(h, events[i].key), c.duration, events[i].now) < c.max
    {
      var h, k := Run(c, events[..i]), events[i].key;
      RunIsFaithful(c, events[..i], events[i].now);
      QueueAnswers(c, Queue(h, k), Accepted(h, k), events[i].now);
    }
  }

  // ---------- what the sweeper forgets ----------

  /** The newest acceptance of a key, if there is one. */
  function Newest(h: History, key: string): seq<int> {
    var a := Accepted(h, key); if a == [] then [] else [a[|a| - 1]]
  }

  /** A stored queue ends with the newest acceptance; a key that is not stored was accepted long
      ago, or never. */
  predicate Remembers(h: History, expiration: int, now: int, key: string) {
    && (key in h.store ==>
          h.store[key] != [] && Accepted(h, key) != [] &&
          h.store[key][|h.store[key]| - 1] == Accepted(h, key)[|Accepted(h, key)| - 1])
    && (key !in h.store && Accepted(h, key) != [] ==> now - Accepted(h, key)[|Accepted(h, key)| - 1] > expiration)
  }

  lemma StepRemembers(c: Config, h: History, e: Event, before: int, key: string)
    requires Remembers(h, c.expiration, before, key) && before <= e.now
    ensures Remembers(Step(c, h, e), c.expiration, e.now, key)
  {
  }

  lemma {:induction false} RunRemembers(c: Config, events: seq<Event>, now: int, key: string)
    requires Timed(events) && (events != [] ==> events[|events| - 1].now <= now)
    ensures Remembers(Run(c, events), c.expiration, now, key)
  {
    if events != [] {
      var e := events[|events| - 1];
      RunRemembers(c, events[..|events| - 1], e.now, key);
      StepRemembers(c, Run(c, events[..|events| - 1]), e, e.now, key);
    }
  }

  /** After a sweep, whatever the parameters and whatever happened before, exactly those keys are
      stored whose newest acceptance is at most `expiration` seconds old; so the memory of the
      limiter never outgrows the recently accepted keys. */
  lemma SweptIff(c: Config, events: seq<Event>, now: int, key: string)
    requires Timed(events + [Sweep(now)])
    ensures var h := Run(c, events + [Sweep(now)]);
      key in h.store <==> exists a :: a in Newest(h, key) && now - a <= c.expiration
  {
    var all := events + [Sweep(now)];
    assert all[..|all| - 1] == events && all[|all| - 1] == Sweep(now);
    if events != [] { assert all[|events| - 1].now <= all[|events|].now; }
    forall i, j | 0 <= i < j < |events| ensures events[i].now <= events[j].now { assert all[i].now <= all[j].now; }
    RunRemembers(c, events, now, key);
    var h, h' := Run(c, events), Run(c, all);
    assert h' == Step(c, h, Sweep(now)) && Newest(h', key) == Newest(h, key);
    if Newest(h, key) != [] { assert Newest(h, key)[0] in Newest(h, key); }
  }

  // ---------- the side condition is necessary ----------

  function Burst(n: nat): seq<Event> { seq(n, _ => Ask("k", 0)) }

  lemma {:induction false} BurstFills(c: Config, n: nat)
    requires n <= c.max
    ensures Run(c, Burst(n)) == if n == 0 then History(map[], map[])
                                else History(map["k" := seq(n, _ => 0)], map["k" := seq(n, _ => 0)])
  {
    if n > 0 {
      assert Burst(n)[..n - 1] == Burst(n - 1);
      BurstFills(c, n - 1);
      assert Burst(n)[n - 1] == Ask("k", 0);
      assert n > 1 ==> seq(n - 1, _ => 0) + [0] == seq(n, _ => 0);
      assert n == 1 ==> [] + [0] == [0] == seq(n, _ => 0);
    }
  }

  /** A burst, then one sweep late enough to find the key idle. */
  function BurstAndSweep(c: Config): seq<Event> { Burst(c.max) + [Sweep(c.expiration + 1)] }

  lemma SweepForgetsBurst(c: Config)
    requires c.max >= 1
    ensures Run(c, BurstAndSweep(c)) == History(map[], map["k" := seq(c.max, _ => 0)])
  {
    BurstFills(c, c.max);
    assert BurstAndSweep(c)[..c.max] == Burst(c.max);
  }

  lemma ForgottenBurstIsRecent(c: Config, h: History, late: int)
    requires h == History(map[], map["k" := seq(c.max, _ => 0)]) && c.duration > late
    ensures Admits(h.store, "k", c.max, c.duration, late) && Recent(Accepted(h, "k"), c.duration, late) == c.max
  {
    RecentBounds(seq(c.max, _ => 0), c.duration, late);
  }

  lemma BurstAndSweepIsTimed(c: Config)
    ensures Timed(BurstAndSweep(c) + [Ask("k", c.expiration + 1)])
  {
  }

  lemma Overfilled(c: Config, events: seq<Event>, last: Event)
    requires last.Ask? && var h := Run(c, events);
      && Admits(h.store, last.key, c.max, c.duration, last.now)
      && Recent(Accepted(h, last.key), c.duration, last.now) >= c.max
    ensures !Correct(c, events + [last])
  {
    var all := events + [last];
    assert all[..|events|] == events && all[|events|] == last;
  }

  /** The limiter forgets too early when the window outlives the sweeper's patience: max
      requests, one sweep, and one request too many is let in. */
  lemma LongWindowFails(c: Config)
    requires c.max >= 1 && c.duration > c.expiration + 1
    ensures exists events :: Timed(events) && !Correct(c, events)
  {
    var last := Ask("k", c.expiration + 1);
    SweepForgetsBurst(c);
    ForgottenBurstIsRecent(c, Run(c, BurstAndSweep(c)), last.now);
    BurstAndSweepIsTimed(c);
    Overfilled(c, BurstAndSweep(c), last);
  }

  lemma ZeroLimitFails(c: Config)
    requires c.max == 0
    ensures exists events :: Timed(events) && !Correct(c, events)
  {
    var e := [Ask("k", 0)];
    assert e[..0] == [] && e[0].Ask?;
    assert !Correct(c, e);
  }

  /** The limiter meets its specification on every run with a monotone clock if and only if
      at least one request is allowed and the window is no longer than expiration + 1. */
  lemma ExactIff(c: Config)
    ensures (forall events :: Timed(events) ==> Correct(c, events)) <==> Sane(c)
  {
    if Sane(c) {
      forall events | Timed(events) ensures Correct(c, events) { CoveredIsCorrect(c, events); }
    } else if c.max == 0 {
      ZeroLimitFails(c);
    } else {
      LongWindowFails(c);
    }
  }

  // ---------- no window is overfull ----------

  /** Acceptances in [from, from + duration). */
  function Within(a: seq<int>, from: int, duration: int): nat {
    if a == [] then 0 else
    Within(a[..|a| - 1], from, duration) + if from <= a[|a| - 1] < from + duration then 1 else 0
  }

  lemma {:induction false} WithinBounds(a: seq<int>, cut: nat, from: int, duration: int)
    requires cut <= |a| && forall i :: 0 <= i < cut ==> a[i] < from
    ensures Within(a, from, duration) <= |a| - cut
  {
    if a != [] {
      WithinBounds(a[..|a| - 1], if cut == |a| then cut - 1 else cut, from, duration);
    }
  }

  lemma {:induction false} SpacedWindow(c: Config, a: seq<int>, from: int)
    requires Sorted(a) && Spaced(c, a)
    ensures Within(a, from, c.duration) <= c.max
  {
    if a != [] {
      var n := |a| - 1;
      if from <= a[n] < from + c.duration && n >= c.max {
        assert a[n - c.max + c.max] - a[n - c.max] >= c.duration;
        WithinBounds(a, n - c.max + 1, from, c.duration);
      } else if from <= a[n] < from + c.duration {
        WithinBounds(a, 0, from, c.duration);
      } else {
        SpacedWindow(c, a[..n], from);
      }
    }
  }

  /** Over every run, no half-open window of `duration` seconds, wherever it starts, holds
      more than max accepted requests of one key. */
  lemma NoWindowOverfull(c: Config, events: seq<Event>, key: string, from: int)
    requires Covered(c, events) && Timed(events)
    ensures Within(Accepted(Run(c, events), key), from, c.duration) <= c.max
  {
    var now := if events == [] then 0 else events[|events| - 1].now;
    RunIsFaithful(c, events, now);
    assert Faithful(c, Queue(Run(c, events), key), Accepted(Run(c, events), key), now);
    SpacedWindow(c, Accepted(Run(c, events), key), from);
  }
}
