/** The per-order lock of controller/topup.go: a reference-counted mutex per trade
    number, created and destroyed on demand.  Goroutines are small-step programs; a run
    is any sequence of actions, so every interleaving is covered. */
module OrderLock {

  type TradeNo = string
  /** The address of a refCountedMutex. */
  type Ref = nat

  datatype Mutex = Mutex(locked: bool, refCount: int)

  /** Where a goroutine stands in LockOrder or UnlockOrder.  Each value names the next
      operation.  From Critical to Unlock the goroutine owns no pointer in the source;
      there `m` is only a record, for the proofs, of the mutex it acquired. */
  datatype Pc =
    | Idle
    | Enter(t: TradeNo)            // createLock.Lock()
    | Lookup(t: TradeNo)           // orderLocks.Load, Store when missing
    | Count(t: TradeNo, m: Ref)    // refCount++
    | Publish(t: TradeNo, m: Ref)  // createLock.Unlock()
    | Acquire(t: TradeNo, m: Ref)  // rcm.mu.Lock()
    | Critical(t: TradeNo, m: Ref) // LockOrder returned: the caller's own code
    | Find(t: TradeNo, m: Ref)     // UnlockOrder: orderLocks.Load
    | Unlock(t: TradeNo, m: Ref)   // rcm.mu.Unlock()
    | Leave(t: TradeNo, m: Ref)    // createLock.Lock()
    | Uncount(t: TradeNo, m: Ref)  // refCount--
    | Drop(t: TradeNo, m: Ref)     // if refCount == 0 then orderLocks.Delete
    | Exit                         // createLock.Unlock()

  /** `fault` records sync.Mutex's fatal error, unlocking a free mutex.
      Addresses from `next` on are not yet allocated. */
  datatype State = State(
    createLock: bool,
    table: map<TradeNo, Ref>,
    heap: map<Ref, Mutex>,
    next: Ref,
    pcs: seq<Pc>,
    fault: bool)

  /** A mutex never written is the zero value `&refCountedMutex{}`. */
  function At(s: State, m: Ref): Mutex {
    if m in s.heap then s.heap[m] else Mutex(false, 0)
  }

  function Init(n: nat): State {
    State(false, map[], map[], 0, seq(n, _ => Idle), false)
  }

  // ---------- the steps ----------

  /** The two mutex acquisitions block; nothing else does.  An idle goroutine and one in
      its critical section are moved by their client, not by the lock. */
  predicate Enabled(s: State, i: nat)
    requires i < |s.pcs|
  {
    match s.pcs[i]
    case Idle => false
    case Critical(_, _) => false
    case Enter(_) => !s.createLock
    case Leave(_, _) => !s.createLock
    case Acquire(_, m) => !At(s, m).locked
    case _ => true
  }

  function Step(s: State, i: nat): (s': State)
    requires i < |s.pcs| && Enabled(s, i)
    ensures |s'.pcs| == |s.pcs| && s'.pcs == s.pcs[i := s'.pcs[i]]
  {
    match s.pcs[i]
    case Enter(t) => s.(pcs := s.pcs[i := Lookup(t)], createLock := true)
    case Lookup(t) =>
      if t in s.table then s.(pcs := s.pcs[i := Count(t, s.table[t])])
      else s.(pcs := s.pcs[i := Count(t, s.next)], table := s.table[t := s.next], next := s.next + 1)
    case Count(t, m) =>
      s.(pcs := s.pcs[i := Publish(t, m)], heap := s.heap[m := At(s, m).(refCount := At(s, m).refCount + 1)])
    case Publish(t, m) => s.(pcs := s.pcs[i := Acquire(t, m)], createLock := false)
    case Acquire(t, m) => s.(pcs := s.pcs[i := Critical(t, m)], heap := s.heap[m := At(s, m).(locked := true)])
    case Find(t, m) =>
      s.(pcs := s.pcs[i := if t in s.table then Unlock(t, s.table[t]) else Idle])
    case Unlock(t, m) =>
      if At(s, m).locked then s.(pcs := s.pcs[i := Leave(t, m)], heap := s.heap[m := At(s, m).(locked := false)])
      else s.(fault := true)
    case Leave(t, m) => s.(pcs := s.pcs[i := Uncount(t, m)], createLock := true)
    case Uncount(t, m) =>
      s.(pcs := s.pcs[i := Drop(t, m)], heap := s.heap[m := At(s, m).(refCount := At(s, m).refCount - 1)])
    case Drop(t, m) =>
      s.(pcs := s.pcs[i := Exit], table := if At(s, m).refCount == 0 then s.table - {t} else s.table)
    case Exit => s.(pcs := s.pcs[i := Idle], createLock := false)
  }

  function Go(s: State, i: nat, pc: Pc): State
    requires i < |s.pcs|
  {
    s.(pcs := s.pcs[i := pc])
  }

  /** Call: an idle goroutine calls LockOrder.  Return: a holder calls UnlockOrder.
      Run: one step inside either.  An action that cannot happen changes nothing. */
  datatype Action = Call(i: nat, t: TradeNo) | Return(i: nat) | Run(i: nat)

  function Act(s: State, a: Action): (s': State)
    ensures |s'.pcs| == |s.pcs|
  {
    if a.i >= |s.pcs| then s else
    match a
    case Call(i, t) => if s.pcs[i].Idle? then Go(s, i, Enter(t)) else s
    case Return(i) => if s.pcs[i].Critical? then Go(s, i, Find(s.pcs[i].t, s.pcs[i].m)) else s
    case Run(i) => if Enabled(s, i) then Step(s, i) else s
  }

  function Exec(s: State, acts: seq<Action>): (s': State)
    ensures |s'.pcs| == |s.pcs|
    decreases acts
  {
    if acts == [] then s else Exec(Act(s, acts[0]), acts[1..])
  }

  // ---------- counting goroutines ----------

  function Bit(b: bool): nat { if b then 1 else 0 }

  function Tally(pcs: seq<Pc>, p: Pc -> bool): nat {
    if pcs == [] then 0 else Bit(p(pcs[0])) + Tally(pcs[1..], p)
  }

  /** Holding createLock. */
  predicate Guarded(pc: Pc) {
    pc.Lookup? || pc.Count? || pc.Publish? || pc.Uncount? || pc.Drop? || pc.Exit?
  }

  /** Between the increment and the decrement of some refCount. */
  predicate Counted(pc: Pc) {
    pc.Publish? || pc.Acquire? || pc.Critical? || pc.Find? || pc.Unlock? || pc.Leave? || pc.Uncount?
  }

  predicate Refers(pc: Pc, m: Ref) { Counted(pc) && pc.m == m }

  /** Between mu.Lock() and mu.Unlock(). */
  predicate Owner(pc: Pc) { pc.Critical? || pc.Find? || pc.Unlock? }

  predicate Holds(pc: Pc, m: Ref) { Owner(pc) && pc.m == m }

  /** Relies on the table still mapping its trade number to its mutex. */
  predicate Bound(pc: Pc) { pc.Count? || Counted(pc) || pc.Drop? }

  function GuardedP(): Pc -> bool { pc => Guarded(pc) }
  function RefersTo(m: Ref): Pc -> bool { pc => Refers(pc, m) }
  function HoldsOf(m: Ref): Pc -> bool { pc => Holds(pc, m) }

  lemma {:induction false} TallyUpdate(pcs: seq<Pc>, i: nat, pc: Pc, p: Pc -> bool)
    requires i < |pcs|
    ensures Tally(pcs[i := pc], p) == Tally(pcs, p) - Bit(p(pcs[i])) + Bit(p(pc))
  {
    if i == 0 {
      assert pcs[i := pc][1..] == pcs[1..];
    } else {
      TallyUpdate(pcs[1..], i - 1, pc, p);
      assert pcs[i := pc][1..] == pcs[1..][i - 1 := pc];
    }
  }

  lemma {:induction false} TallyMember(pcs: seq<Pc>, i: nat, p: Pc -> bool)
    requires i < |pcs| && p(pcs[i])
    ensures Tally(pcs, p) >= 1
    ensures forall j :: 0 <= j < |pcs| && j != i && p(pcs[j]) ==> Tally(pcs, p) >= 2
  {
    if i > 0 { TallyMember(pcs[1..], i - 1, p); }
    forall j | 0 <= j < |pcs| && j != i && p(pcs[j]) ensures Tally(pcs, p) >= 2 {
      if i == 0 {
        TallyMember(pcs[1..], j - 1, p);
      } else if j > 0 {
        assert pcs[1..][j - 1] == pcs[j];
      }
    }
  }

  lemma {:induction false} TallyWitness(pcs: seq<Pc>, p: Pc -> bool) returns (i: nat)
    requires Tally(pcs, p) > 0
    ensures i < |pcs| && p(pcs[i])
  {
    if p(pcs[0]) { i := 0; } else { i := TallyWitness(pcs[1..], p); i := i + 1; }
  }

  lemma {:induction false} TallyNone(pcs: seq<Pc>, p: Pc -> bool)
    requires forall i :: 0 <= i < |pcs| ==> !p(pcs[i])
    ensures Tally(pcs, p) == 0
  {
    if pcs != [] { TallyNone(pcs[1..], p); }
  }

  // ---------- the invariant ----------

  /** m's refCount is the number of goroutines between its increment and its decrement,
      and m is locked exactly when one goroutine holds it. */
  ghost predicate Balanced(s: State, m: Ref) {
    Tally(s.pcs, RefersTo(m)) == At(s, m).refCount && Tally(s.pcs, HoldsOf(m)) == Bit(At(s, m).locked)
  }

  predicate Anchored(s: State, i: nat)
    requires i < |s.pcs|
  {
    Bound(s.pcs[i]) ==> s.pcs[i].t in s.table && s.table[s.pcs[i].t] == s.pcs[i].m
  }

  /** An entry of the table is allocated, in use, and shared by no other trade number. */
  ghost predicate Wanted(s: State, t: TradeNo)
    requires t in s.table
  {
    s.table[t] < s.next && exists i :: 0 <= i < |s.pcs| && Bound(s.pcs[i]) && s.pcs[i].t == t
  }

  ghost predicate CountInv(s: State) {
    Tally(s.pcs, GuardedP()) == Bit(s.createLock) && forall m: Ref :: Balanced(s, m)
  }

  ghost predicate TableInv(s: State) {
    && (forall i :: 0 <= i < |s.pcs| ==> Anchored(s, i))
    && (forall t :: t in s.table ==> Wanted(s, t))
    && (forall t, t' :: t in s.table && t' in s.table && s.table[t] == s.table[t'] ==> t == t')
    && (forall m :: m in s.heap ==> m < s.next)
  }

  ghost predicate Inv(s: State) { !s.fault && CountInv(s) && TableInv(s) }

  /** Moving goroutine i keeps the counts when the lock words change by what it did. */
  lemma Recount(s: State, s': State, i: nat)
    requires CountInv(s) && i < |s.pcs| == |s'.pcs| && s'.pcs == s.pcs[i := s'.pcs[i]]
    requires Bit(s'.createLock) == Bit(s.createLock) - Bit(Guarded(s.pcs[i])) + Bit(Guarded(s'.pcs[i]))
    requires forall m: Ref :: At(s', m).refCount ==
                              At(s, m).refCount - Bit(Refers(s.pcs[i], m)) + Bit(Refers(s'.pcs[i], m))
    requires forall m: Ref :: Bit(At(s', m).locked) ==
                              Bit(At(s, m).locked) - Bit(Holds(s.pcs[i], m)) + Bit(Holds(s'.pcs[i], m))
    ensures CountInv(s')
  {
    TallyUpdate(s.pcs, i, s'.pcs[i], GuardedP());
    forall m: Ref ensures Balanced(s', m) {
      assert Balanced(s, m);
      TallyUpdate(s.pcs, i, s'.pcs[i], RefersTo(m));
      TallyUpdate(s.pcs, i, s'.pcs[i], HoldsOf(m));
    }
  }

  lemma InitInv(n: nat)
    ensures Inv(Init(n))
  {
    var s := Init(n);
    TallyNone(s.pcs, GuardedP());
    forall m: Ref ensures Balanced(s, m) {
      TallyNone(s.pcs, RefersTo(m));
      TallyNone(s.pcs, HoldsOf(m));
    }
  }

  /** The only goroutine inside createLock. */
  lemma SoleGuard(s: State, i: nat)
    requires CountInv(s) && i < |s.pcs| && Guarded(s.pcs[i])
    ensures s.createLock
    ensures forall j :: 0 <= j < |s.pcs| && j != i ==> !Guarded(s.pcs[j])
  {
    TallyMember(s.pcs, i, GuardedP());
  }

  /** UnlockOrder finds its own mutex in the table, and finds it locked. */
  lemma UnlockFindsOwnMutex(s: State, i: nat)
    requires Inv(s) && i < |s.pcs| && Owner(s.pcs[i])
    ensures s.pcs[i].t in s.table && s.table[s.pcs[i].t] == s.pcs[i].m && At(s, s.pcs[i].m).locked
  {
    assert Anchored(s, i) && Balanced(s, s.pcs[i].m);
    TallyMember(s.pcs, i, HoldsOf(s.pcs[i].m));
  }

  /** The steps that write a mutex. */
  predicate Writes(pc: Pc) { pc.Count? || pc.Acquire? || pc.Unlock? || pc.Uncount? }

  lemma WritingStep(s: State, i: nat)
    requires i < |s.pcs| && Enabled(s, i) && Writes(s.pcs[i]) && (s.pcs[i].Unlock? ==> At(s, s.pcs[i].m).locked)
    ensures var s', m := Step(s, i), s.pcs[i].m;
      && s'.heap == s.heap[m := At(s', m)] &&
         (s'.pcs[i].Publish? || s'.pcs[i].Critical? || s'.pcs[i].Leave? || s'.pcs[i].Drop?) && s'.pcs[i].m == m
      && At(s', m).refCount == At(s, m).refCount - Bit(Counted(s.pcs[i])) + Bit(Counted(s'.pcs[i]))
      && Bit(At(s', m).locked) == Bit(At(s, m).locked) - Bit(Owner(s.pcs[i])) + Bit(Owner(s'.pcs[i]))
  {
  }

  lemma QuietStep(s: State, i: nat)
    requires i < |s.pcs| && Enabled(s, i) && !Writes(s.pcs[i])
    requires Owner(s.pcs[i]) ==> s.pcs[i].t in s.table && s.table[s.pcs[i].t] == s.pcs[i].m
    ensures var s' := Step(s, i);
      && s'.heap == s.heap
      && Counted(s'.pcs[i]) == Counted(s.pcs[i]) && (Counted(s.pcs[i]) ==> s'.pcs[i].m == s.pcs[i].m)
      && Owner(s'.pcs[i]) == Owner(s.pcs[i])
  {
  }

  /** A step changes the words of mutex m exactly as its program counter says. */
  lemma {:induction false} StepMovesWords(s: State, i: nat, m: Ref)
    requires i < |s.pcs| && Enabled(s, i)
    requires Owner(s.pcs[i]) ==> s.pcs[i].t in s.table && s.table[s.pcs[i].t] == s.pcs[i].m && At(s, s.pcs[i].m).locked
    ensures var s' := Step(s, i);
      && At(s', m).refCount == At(s, m).refCount - Bit(Refers(s.pcs[i], m)) + Bit(Refers(s'.pcs[i], m))
      && Bit(At(s', m).locked) == Bit(At(s, m).locked) - Bit(Holds(s.pcs[i], m)) + Bit(Holds(s'.pcs[i], m))
  {
    if Writes(s.pcs[i]) { WritingStep(s, i); } else { QuietStep(s, i); }
  }

  /** The lock words follow the program counters, whatever the step. */
  lemma StepKeepsCounts(s: State, i: nat)
    requires Inv(s) && i < |s.pcs| && Enabled(s, i)
    ensures CountInv(Step(s, i)) && !Step(s, i).fault
  {
    if Owner(s.pcs[i]) { UnlockFindsOwnMutex(s, i); }
    if Guarded(s.pcs[i]) { SoleGuard(s, i); }
    var s' := Step(s, i);
    forall m: Ref
      ensures At(s', m).refCount == At(s, m).refCount - Bit(Refers(s.pcs[i], m)) + Bit(Refers(s'.pcs[i], m))
      ensures Bit(At(s', m).locked) == Bit(At(s, m).locked) - Bit(Holds(s.pcs[i], m)) + Bit(Holds(s'.pcs[i], m))
    {
      StepMovesWords(s, i, m);
    }
    Recount(s, s', i);
  }

  /** Every step but creating and deleting an entry leaves the table alone. */
  lemma QuietStepKeepsTable(s: State, s': State, i: nat)
    requires TableInv(s) && i < |s.pcs| == |s'.pcs| && s'.pcs == s.pcs[i := s'.pcs[i]]
    requires s'.table == s.table && s'.next == s.next && s'.heap.Keys <= s.heap.Keys + (set m | m in s.table.Values)
    requires Bound(s.pcs[i]) ==> Bound(s'.pcs[i]) && s'.pcs[i].t == s.pcs[i].t
    requires Anchored(s', i)
    ensures TableInv(s')
  {
    forall j | 0 <= j < |s'.pcs| ensures Anchored(s', j) { assert j != i ==> Anchored(s, j); }
    forall t | t in s'.table ensures Wanted(s', t) {
      assert Wanted(s, t);
      var j :| 0 <= j < |s.pcs| && Bound(s.pcs[j]) && s.pcs[j].t == t;
      assert Bound(s'.pcs[j]) && s'.pcs[j].t == t;
    }
    forall m | m in s'.heap ensures m < s'.next {
      if m !in s.heap {
        var t :| t in s.table && s.table[t] == m;
        assert Wanted(s, t);
      }
    }
  }

  lemma StepKeepsTable(s: State, i: nat)
    requires Inv(s) && i < |s.pcs| && Enabled(s, i) && !s.pcs[i].Lookup? && !s.pcs[i].Drop?
    ensures TableInv(Step(s, i))
  {
    assert Anchored(s, i);
    if Owner(s.pcs[i]) { UnlockFindsOwnMutex(s, i); }
    QuietStepKeepsTable(s, Step(s, i), i);
  }

  lemma LookupKeepsTable(s: State, i: nat)
    requires Inv(s) && i < |s.pcs| && s.pcs[i].Lookup?
    ensures TableInv(Step(s, i))
  {
    var s', t := Step(s, i), s.pcs[i].t;
    if t in s.table {
      QuietStepKeepsTable(s, s', i);
    } else {
      forall j | 0 <= j < |s'.pcs| ensures Anchored(s', j) { assert Anchored(s, j); }
      forall t' | t' in s'.table ensures Wanted(s', t') {
        if t' == t {
          assert Bound(s'.pcs[i]) && s'.pcs[i].t == t;
        } else {
          assert Wanted(s, t');
          var j :| 0 <= j < |s.pcs| && Bound(s.pcs[j]) && s.pcs[j].t == t';
          assert Bound(s'.pcs[j]) && s'.pcs[j].t == t';
        }
      }
      forall t' | t' in s.table ensures s.table[t'] < s.next { assert Wanted(s, t'); }
    }
  }

  /** Deleting at zero takes the entry from nobody; not deleting leaves it to someone. */
  lemma DropKeepsTable(s: State, i: nat)
    requires Inv(s) && i < |s.pcs| && s.pcs[i].Drop?
    ensures TableInv(Step(s, i))
  {
    var s', t, m := Step(s, i), s.pcs[i].t, s.pcs[i].m;
    SoleGuard(s, i);
    assert Anchored(s, i) && Balanced(s, m);
    forall j | 0 <= j < |s'.pcs| ensures Anchored(s', j) {
      assert Anchored(s, j);
      if j != i && Bound(s.pcs[j]) && s.pcs[j].t == t { TallyMember(s.pcs, j, RefersTo(m)); }
    }
    forall t' | t' in s'.table ensures Wanted(s', t') {
      assert Wanted(s, t');
      var j :| 0 <= j < |s.pcs| && Bound(s.pcs[j]) && s.pcs[j].t == t';
      if j == i {
        j := TallyWitness(s.pcs, RefersTo(m));
        assert Anchored(s, j);
      }
      assert Bound(s'.pcs[j]) && s'.pcs[j].t == t';
    }
  }

  lemma StepKeepsInv(s: State, i: nat)
    requires Inv(s) && i < |s.pcs| && Enabled(s, i)
    ensures Inv(Step(s, i))
  {
    StepKeepsCounts(s, i);
    if s.pcs[i].Lookup? { LookupKeepsTable(s, i); }
    else if s.pcs[i].Drop? { DropKeepsTable(s, i); }
    else { StepKeepsTable(s, i); }
  }

  /** The client's moves, calling and returning, keep the invariant. */
  lemma ClientKeepsInv(s: State, i: nat, pc: Pc)
    requires Inv(s) && i < |s.pcs|
    requires (s.pcs[i].Idle? && pc.Enter?) || (s.pcs[i].Critical? && pc == Find(s.pcs[i].t, s.pcs[i].m))
    ensures Inv(Go(s, i, pc))
  {
    Recount(s, Go(s, i, pc), i);
    assert Anchored(s, i);
    QuietStepKeepsTable(s, Go(s, i, pc), i);
  }

  lemma ActKeepsInv(s: State, a: Action)
    requires Inv(s)
    ensures Inv(Act(s, a))
  {
    if a.i < |s.pcs| {
      match a
      case Call(i, t) => if s.pcs[i].Idle? { ClientKeepsInv(s, i, Enter(t)); }
      case Return(i) => if s.pcs[i].Critical? { ClientKeepsInv(s, i, Find(s.pcs[i].t, s.pcs[i].m)); }
      case Run(i) => if Enabled(s, i) { StepKeepsInv(s, i); }
    }
  }

  lemma {:induction false} ExecKeepsInv(s: State, acts: seq<Action>)
    requires Inv(s)
    ensures Inv(Exec(s, acts))
    decreases acts
  {
    if acts != [] {
      ActKeepsInv(s, acts[0]);
      ExecKeepsInv(Act(s, acts[0]), acts[1..]);
    }
  }

  /** Whatever n goroutines do, in whatever order, the invariant holds; in particular no
      UnlockOrder ever unlocks a free mutex. */
  lemma EveryRunIsInvariant(n: nat, acts: seq<Action>)
    ensures Inv(Exec(Init(n), acts))
  {
    InitInv(n);
    ExecKeepsInv(Init(n), acts);
  }

  // ---------- what the lock promises ----------

  /** Mutual exclusion, for any number of goroutines and any interleaving: two goroutines
      between acquiring and releasing the lock of one trade number are the same. */
  lemma MutualExclusion(n: nat, acts: seq<Action>, i: nat, j: nat)
    requires var s := Exec(Init(n), acts);
      i < |s.pcs| && j < |s.pcs| && Owner(s.pcs[i]) && Owner(s.pcs[j]) && s.pcs[i].t == s.pcs[j].t
    ensures i == j
  {
    EveryRunIsInvariant(n, acts);
    SoleOwner(Exec(Init(n), acts), i, j);
  }

  lemma SoleOwner(s: State, i: nat, j: nat)
    requires Inv(s) && i < |s.pcs| && j < |s.pcs|
    requires Owner(s.pcs[i]) && Owner(s.pcs[j]) && s.pcs[i].t == s.pcs[j].t
    ensures i == j
  {
    var m := s.pcs[i].m;
    assert Anchored(s, i) && Anchored(s, j) && Balanced(s, m);
    TallyMember(s.pcs, i, HoldsOf(m));
  }

  /** No leak: when every goroutine is outside the protocol the table is empty and every
      mutex ever allocated is free and uncounted. */
  lemma NoLeak(s: State)
    requires Inv(s) && forall i :: 0 <= i < |s.pcs| ==> s.pcs[i].Idle?
    ensures s.table == map[] && !s.createLock
    ensures forall m: Ref :: At(s, m) == Mutex(false, 0)
  {
    TallyNone(s.pcs, GuardedP());
    forall m: Ref ensures At(s, m) == Mutex(false, 0) {
      assert Balanced(s, m);
      TallyNone(s.pcs, RefersTo(m));
      TallyNone(s.pcs, HoldsOf(m));
    }
    forall t ensures t !in s.table { if t in s.table { var i := EntryHasUser(s, t); } }
  }

  lemma EntryHasUser(s: State, t: TradeNo) returns (i: nat)
    requires Inv(s) && t in s.table
    ensures i < |s.pcs| && Bound(s.pcs[i]) && s.pcs[i].t == t
  {
    assert Wanted(s, t);
    i :| 0 <= i < |s.pcs| && Bound(s.pcs[i]) && s.pcs[i].t == t;
  }

  /** No deadlock: while any goroutine is inside the protocol, one of them can move, either
      by a step of its own or because it holds an order lock it may return. */
  lemma NoDeadlock(s: State, i: nat) returns (j: nat)
    requires Inv(s) && i < |s.pcs| && !s.pcs[i].Idle?
    ensures j < |s.pcs| && (s.pcs[j].Critical? || Enabled(s, j))
  {
    j := i;
    if !s.pcs[i].Critical? && !Enabled(s, i) {
      if s.pcs[i].Acquire? {
        assert Balanced(s, s.pcs[i].m);
        j := TallyWitness(s.pcs, HoldsOf(s.pcs[i].m));
      } else {
        j := TallyWitness(s.pcs, GuardedP());
      }
    }
  }

  // ---------- every run can be brought to rest ----------

  /** Operations a goroutine still has to perform before it is idle. */
  function Remaining(pc: Pc): nat {
    match pc
    case Idle => 0 case Exit => 1 case Drop(_, _) => 2 case Uncount(_, _) => 3
    case Leave(_, _) => 4 case Unlock(_, _) => 5 case Find(_, _) => 6 case Critical(_, _) => 7
    case Acquire(_, _) => 8 case Publish(_, _) => 9 case Count(_, _) => 10 case Lookup(_) => 11
    case Enter(_) => 12
  }

  function Load(pcs: seq<Pc>): nat {
    if pcs == [] then 0 else Remaining(pcs[0]) + Load(pcs[1..])
  }

  lemma {:induction false} LoadUpdate(pcs: seq<Pc>, i: nat, pc: Pc)
    requires i < |pcs|
    ensures Load(pcs[i := pc]) == Load(pcs) - Remaining(pcs[i]) + Remaining(pc)
  {
    if i == 0 {
      assert pcs[i := pc][1..] == pcs[1..];
    } else {
      LoadUpdate(pcs[1..], i - 1, pc);
      assert pcs[i := pc][1..] == pcs[1..][i - 1 := pc];
    }
  }

  lemma WritingStepShortens(s: State, i: nat)
    requires i < |s.pcs| && Enabled(s, i) && Writes(s.pcs[i]) && (s.pcs[i].Unlock? ==> At(s, s.pcs[i].m).locked)
    ensures Remaining(Step(s, i).pcs[i]) == Remaining(s.pcs[i]) - 1
  {
  }

  lemma QuietStepShortens(s: State, i: nat)
    requires i < |s.pcs| && Enabled(s, i) && !Writes(s.pcs[i])
    requires s.pcs[i].Find? ==> s.pcs[i].t in s.table
    ensures Remaining(Step(s, i).pcs[i]) == Remaining(s.pcs[i]) - 1
  {
  }

  lemma StepShortens(s: State, i: nat)
    requires i < |s.pcs| && Enabled(s, i)
    requires Owner(s.pcs[i]) ==> s.pcs[i].t in s.table && s.table[s.pcs[i].t] == s.pcs[i].m && At(s, s.pcs[i].m).locked
    ensures Remaining(Step(s, i).pcs[i]) == Remaining(s.pcs[i]) - 1
  {
    if Writes(s.pcs[i]) { WritingStepShortens(s, i); } else { QuietStepShortens(s, i); }
  }

  /** Every step that is not a fresh call finishes exactly one outstanding operation, so
      without new calls no run makes more than Load(pcs) effective steps. */
  lemma ProgressIsBounded(s: State, a: Action)
    requires Inv(s) && !a.Call?
    ensures Load(Act(s, a).pcs) == Load(s.pcs) - 1 || Act(s, a) == s
  {
    if a.i < |s.pcs| {
      if a.Return? && s.pcs[a.i].Critical? { LoadUpdate(s.pcs, a.i, Find(s.pcs[a.i].t, s.pcs[a.i].m)); }
      if a.Run? && Enabled(s, a.i) { StepIsProgress(s, a.i); }
    }
  }

  lemma StepIsProgress(s: State, i: nat)
    requires Inv(s) && i < |s.pcs| && Enabled(s, i)
    ensures Load(Step(s, i).pcs) == Load(s.pcs) - 1
  {
    if Owner(s.pcs[i]) { UnlockFindsOwnMutex(s, i); }
    StepShortens(s, i);
    LoadUpdate(s.pcs, i, Step(s, i).pcs[i]);
  }

  /** From every state a run can reach, some schedule without new calls brings every
      goroutine out of the protocol; the lock table is then empty. */
  lemma {:induction false} Drains(s: State) returns (acts: seq<Action>)
    requires Inv(s)
    ensures forall k :: 0 <= k < |acts| ==> !acts[k].Call?
    ensures |acts| == Load(s.pcs)
    ensures var e := Exec(s, acts); e.table == map[] && forall i :: 0 <= i < |e.pcs| ==> e.pcs[i].Idle?
    decreases Load(s.pcs)
  {
    if i :| 0 <= i < |s.pcs| && !s.pcs[i].Idle? {
      var j := NoDeadlock(s, i);
      var a := if s.pcs[j].Critical? then Return(j) else Run(j);
      if s.pcs[j].Critical? {
        LoadUpdate(s.pcs, j, Find(s.pcs[j].t, s.pcs[j].m));
      }
      ActKeepsInv(s, a);
      ProgressIsBounded(s, a);
      var rest := Drains(Act(s, a));
      acts := [a] + rest;
      assert acts[1..] == rest;
    } else {
      acts := [];
      AllIdleLoad(s.pcs);
      NoLeak(s);
    }
  }

  lemma {:induction false} AllIdleLoad(pcs: seq<Pc>)
    requires forall i :: 0 <= i < |pcs| ==> pcs[i].Idle?
    ensures Load(pcs) == 0
  {
    if pcs != [] { AllIdleLoad(pcs[1..]); }
  }

  // ---------- a goroutine on its own ----------

  /** Every goroutine but i is outside the protocol. */
  predicate Alone(s: State, i: nat) {
    i < |s.pcs| && forall j :: 0 <= j < |s.pcs| && j != i ==> s.pcs[j].Idle?
  }

  function Runs(i: nat, k: nat): seq<Action> { seq(k, _ => Run(i)) }

  /** A goroutine on its own is never blocked. */
  lemma AloneSteps(s: State, i: nat)
    requires Inv(s) && Alone(s, i) && !s.pcs[i].Idle? && !s.pcs[i].Critical?
    ensures Enabled(s, i) && Inv(Step(s, i)) && Alone(Step(s, i), i)
    ensures Remaining(Step(s, i).pcs[i]) == Remaining(s.pcs[i]) - 1
  {
    var j := NoDeadlock(s, i);
    StepKeepsInv(s, i);
    if Owner(s.pcs[i]) { UnlockFindsOwnMutex(s, i); }
    StepShortens(s, i);
  }

  /** Until it exits, a goroutine keeps its trade number. */
  lemma StepKeepsTradeNo(s: State, i: nat)
    requires i < |s.pcs| && Enabled(s, i)
    requires Remaining(s.pcs[i]) > 7
    ensures Step(s, i).pcs[i].t == s.pcs[i].t
  {
  }

  /** On its own it walks into its critical section. */
  lemma {:induction false} AloneEnters(s: State, i: nat, k: nat)
    requires Inv(s) && Alone(s, i) && Remaining(s.pcs[i]) == 7 + k
    ensures var s' := Exec(s, Runs(i, k));
      Inv(s') && Alone(s', i) && s'.pcs[i].Critical? && s'.pcs[i].t == s.pcs[i].t
    decreases k
  {
    if k > 0 {
      AloneSteps(s, i);
      StepKeepsTradeNo(s, i);
      assert Runs(i, k)[0] == Run(i) && Runs(i, k)[1..] == Runs(i, k - 1);
      AloneEnters(Step(s, i), i, k - 1);
    }
  }

  /** And, having called UnlockOrder, out of the protocol. */
  lemma {:induction false} AloneLeaves(s: State, i: nat, k: nat)
    requires Inv(s) && Alone(s, i) && Remaining(s.pcs[i]) == k < 7
    ensures var s' := Exec(s, Runs(i, k)); Inv(s') && Alone(s', i) && s'.pcs[i].Idle?
    decreases k
  {
    if k > 0 {
      AloneSteps(s, i);
      assert Runs(i, k)[0] == Run(i) && Runs(i, k)[1..] == Runs(i, k - 1);
      AloneLeaves(Step(s, i), i, k - 1);
    }
  }
}
