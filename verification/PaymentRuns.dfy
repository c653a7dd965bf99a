/** More about whole runs of the payment section: when nothing fails every successful order is
    paid for exactly once, and a run that fires the empty hook. */
module PaymentRuns {
  import L = OrderLock
  import opened PaymentCallback

  // ---------- nothing is forgotten ----------

  /** Request i is in the section of order t. */
  predicate Inside(w: World, i: nat, t: L.TradeNo) {
    i < |w.work| == |w.lock.pcs| && w.lock.pcs[i].Critical? && w.lock.pcs[i].t == t
  }

  ghost predicate CreditDue(w: World, t: L.TradeNo) { exists i: nat :: Inside(w, i, t) && w.work[i].Saved? }

  ghost predicate HookDue(w: World, t: L.TradeNo) { exists i: nat :: Inside(w, i, t) && w.work[i].Paid? }

  /** A successful order was credited, or a request inside its section is about to; a credited
      one had its hook, or a request inside is about to fire it. */
  ghost predicate Followed(w: World, t: L.TradeNo) {
    && (t in w.orders ==> w.orders[t].amount >= 0)
    && (t in w.rows ==> w.rows[t].status.Pending? || w.rows[t].status.Success?)
    && (t in w.rows && w.rows[t].status.Success? ==> Credits(w.log, t) == 1 || CreditDue(w, t))
    && (Credits(w.log, t) == 1 ==> Hooks(w.log, t) == 1 || HookDue(w, t))
  }

  /** No database call fails; amounts and quota units are not negative. */
  predicate Smooth(a: Action) {
    && (a.Body? ==> a.o.Ok?)
    && (a.Create? ==> a.row.amount >= 0)
    && (a.Reprice? ==> a.unit >= 0.0)
  }

  /** Steps that leave the row and the events of order t alone, and whoever is inside with work
      to do for it. */
  lemma QuietKeepsFollowed(w: World, w': World, t: L.TradeNo)
    requires Followed(w, t) && (t in w'.orders ==> t in w.orders && w'.orders[t] == w.orders[t])
    requires t in w'.rows ==> t in w.rows && w'.rows[t] == w.rows[t]
    requires Credits(w'.log, t) == Credits(w.log, t) && Hooks(w'.log, t) == Hooks(w.log, t)
    requires forall i: nat :: Inside(w, i, t) && (w.work[i].Saved? || w.work[i].Paid?) ==>
               Inside(w', i, t) && w'.work[i] == w.work[i]
    ensures Followed(w', t)
  {
    if CreditDue(w, t) { var i: nat :| Inside(w, i, t) && w.work[i].Saved?; assert Inside(w', i, t); }
    if HookDue(w, t) { var i: nat :| Inside(w, i, t) && w.work[i].Paid?; assert Inside(w', i, t); }
  }

  /** A step of request i inside the section of another order changes nothing for order t. */
  lemma OtherStepLeaves(w: World, w': World, i: nat, t: L.TradeNo)
    requires i < |w.work| == |w.lock.pcs| && w.lock.pcs[i].Critical? && w.lock.pcs[i].t != t && OwnStep(w, w', i)
    ensures w'.orders == w.orders && (t in w'.rows <==> t in w.rows) && (t in w.rows ==> w'.rows[t] == w.rows[t])
    ensures Credits(w'.log, t) == Credits(w.log, t) && Hooks(w'.log, t) == Hooks(w.log, t)
    ensures forall j: nat :: Inside(w', j, t) <==> Inside(w, j, t)
    ensures forall j: nat :: Inside(w, j, t) ==> w'.work[j] == w.work[j]
  {
    var u := w.lock.pcs[i].t;
    assert (t in w.rows - {u}) == (t in w'.rows - {u});
    assert t in w.rows ==> (w.rows - {u})[t] == (w'.rows - {u})[t];
    if w'.log != w.log {
      assert w'.log == w.log + [w'.log[|w.log|]];
      LogCounts(w.log, w'.log[|w.log|], t);
    }
  }

  lemma OthersStayFollowed(w: World, w': World, i: nat, t: L.TradeNo)
    requires i < |w.work| == |w.lock.pcs| && w.lock.pcs[i].Critical? && w.lock.pcs[i].t != t && OwnStep(w, w', i)
    requires Followed(w, t)
    ensures Followed(w', t)
  {
    OtherStepLeaves(w, w', i, t);
    QuietKeepsFollowed(w, w', t);
  }

  /** The steps of a callback on its own order: found, saved, credited, hooked. */
  lemma CallbackKeepsFollowed(w: World, i: nat, t: L.TradeNo)
    requires Good(w) && Followed(w, t) && Inside(w, i, t) && w.unit >= 0.0
    requires w.work[i].Found? || w.work[i].Saved? || w.work[i].Paid?
    ensures Followed(Act(w, Body(i, Ok)), t)
  {
    var row, w' := w.work[i].row, Act(w, Body(i, Ok));
    assert Sound(w, i) && Settled(w, t) && Inside(w', i, t);
    if w.work[i].Found? {
      CallbackSaves(w, i);
      assert CreditDue(w', t);
    } else if w.work[i].Saved? {
      EpayWorth(row, w.unit);
      CallbackCredits(w, i);
      LogCounts(w.log, Credit(t, row.user, Worth(row, w.unit), w.unit), t);
      assert HookDue(w', t);
    } else {
      CallbackFires(w, i);
      LogCounts(w.log, Hook(t, row.id, row.user, row.money), t);
    }
  }

  lemma ManualStep(w: World, i: nat)
    requires i < |w.work| == |w.lock.pcs| && w.lock.pcs[i].Critical? && w.work[i] == Asked(Admin)
    ensures var t, w' := w.lock.pcs[i].t, Act(w, Body(i, Ok));
      || w' == To(w, i, Finished) || w' == To(w, i, Late)
      || (t in w.rows && w' == Completed(w, i, w.rows[t].(status := Success)))
  {
  }

  /** Row, credit and bookkeeping of a manual completion. */
  function Completed(w: World, i: nat, row: TopUp): World
    requires i < |w.work| == |w.lock.pcs| && w.lock.pcs[i].Critical?
  {
    var t := w.lock.pcs[i].t;
    To(Log(w.(rows := w.rows[t := row]), Credit(t, row.user, Worth(row, w.unit), w.unit)), i, Paid(row))
  }

  lemma CompletedIsFollowed(w: World, i: nat, t: L.TradeNo, row: TopUp)
    requires Followed(w, t) && Inside(w, i, t) && row.status.Success? && Credits(w.log, t) == 0
    ensures Followed(Completed(w, i, row), t)
  {
    var w' := Completed(w, i, row);
    LogCounts(w.log, Credit(t, row.user, Worth(row, w.unit), w.unit), t);
    assert Inside(w', i, t) && w'.work[i] == Paid(row);
  }

  /** A manual completion of its own order. */
  lemma CompleteKeepsFollowed(w: World, i: nat, t: L.TradeNo)
    requires Good(w) && Followed(w, t) && Inside(w, i, t) && w.work[i] == Asked(Admin)
    ensures Followed(Act(w, Body(i, Ok)), t)
  {
    var w' := Act(w, Body(i, Ok));
    ManualStep(w, i);
    if w'.log == w.log {
      QuietKeepsFollowed(w, w', t);
    } else {
      assert Settled(w, t);
      CompletedIsFollowed(w, i, t, w.rows[t].(status := Success));
    }
  }

  lemma IdleStep(w: World, i: nat)
    requires i < |w.work| == |w.lock.pcs| && w.lock.pcs[i].Critical?
    requires w.work[i].Late? || (w.work[i].Asked? && w.work[i].c.Epay?)
    ensures var w' := Act(w, Body(i, Ok));
      && w' == w.(work := w'.work, log := w'.log) && |w'.work| == |w.work|
      && (forall j: nat :: j < |w.work| && j != i ==> w'.work[j] == w.work[j])
      && (w'.log == w.log || w'.log == w.log + [Hook(w.lock.pcs[i].t, 0, 0, 0.0)])
  {
  }

  /** The query of a callback and the hook of a late completion change nothing for the order. */
  lemma IdleCallKeepsFollowed(w: World, i: nat, t: L.TradeNo)
    requires Followed(w, t) && Inside(w, i, t) && (w.work[i].Late? || (w.work[i].Asked? && w.work[i].c.Epay?))
    ensures Followed(Act(w, Body(i, Ok)), t)
  {
    LogCounts(w.log, Hook(t, 0, 0, 0.0), t);
    IdleStep(w, i);
    QuietKeepsFollowed(w, Act(w, Body(i, Ok)), t);
  }

  lemma OwnSectionKeepsFollowed(w: World, i: nat, t: L.TradeNo)
    requires Good(w) && Followed(w, t) && w.unit >= 0.0 && Inside(w, i, t) && !w.work[i].Finished?
    ensures Followed(Act(w, Body(i, Ok)), t)
  {
    assert Sound(w, i);
    match w.work[i]
    case Asked(Admin) => CompleteKeepsFollowed(w, i, t);
    case Asked(Epay(_)) => IdleCallKeepsFollowed(w, i, t);
    case Late => IdleCallKeepsFollowed(w, i, t);
    case _ => CallbackKeepsFollowed(w, i, t);
  }

  lemma SectionKeepsFollowed(w: World, i: nat, t: L.TradeNo)
    requires Good(w) && Followed(w, t) && w.unit >= 0.0 && i < |w.work| && w.lock.pcs[i].Critical?
    ensures Followed(Act(w, Body(i, Ok)), t)
  {
    if w.work[i].Finished? {
      assert Act(w, Body(i, Ok)) == w;
    } else if w.lock.pcs[i].t == t {
      OwnSectionKeepsFollowed(w, i, t);
    } else {
      SectionIsSound(w, i, Ok);
      OthersStayFollowed(w, Act(w, Body(i, Ok)), i, t);
    }
  }

  /** Entering and leaving the section touches nobody who is inside with work to do. */
  lemma LockMoveKeepsFollowed(w: World, a: Action, t: L.TradeNo)
    requires Followed(w, t) && (a.Arrive? || a.Lock? || a.Depart?)
    ensures Followed(Act(w, a), t)
  {
    QuietKeepsFollowed(w, Act(w, a), t);
  }

  lemma TableKeepsFollowed(w: World, a: Action, t: L.TradeNo)
    requires Good(w) && Followed(w, t) && Smooth(a) && (a.Create? || a.Delete? || a.Reprice?)
    ensures Followed(Act(w, a), t)
  {
    assert Settled(w, t);
    if !(a.Create? && a.t == t) { QuietKeepsFollowed(w, Act(w, a), t); }
  }

  lemma ActKeepsFollowed(w: World, a: Action, t: L.TradeNo)
    requires Good(w) && Followed(w, t) && w.unit >= 0.0 && Smooth(a)
    ensures Followed(Act(w, a), t)
  {
    if a.Arrive? || a.Lock? || a.Depart? {
      LockMoveKeepsFollowed(w, a, t);
    } else if !a.Body? {
      TableKeepsFollowed(w, a, t);
    } else if a.i < |w.work| && w.lock.pcs[a.i].Critical? {
      SectionKeepsFollowed(w, a.i, t);
    }
  }

  lemma {:induction false} ExecKeepsFollowed(w: World, acts: seq<Action>, t: L.TradeNo)
    requires Good(w) && Followed(w, t) && w.unit >= 0.0 && forall k :: 0 <= k < |acts| ==> Smooth(acts[k])
    ensures Followed(Exec(w, acts), t)
    decreases acts
  {
    if acts != [] {
      ActKeepsGood(w, acts[0]);
      ActKeepsFollowed(w, acts[0], t);
      UnitStays(w, acts[0]);
      ExecKeepsFollowed(Act(w, acts[0]), acts[1..], t);
    }
  }

  lemma UnitStays(w: World, a: Action)
    ensures Act(w, a).unit == if a.Reprice? then a.unit else w.unit
  {
  }

  /** Nothing is forgotten: over every interleaving in which no database call fails, an order
      with no request inside its section is successful exactly when it was credited, and then it
      was credited exactly once and its hook fired exactly once. */
  lemma PaidExactlyOnce(n: nat, unit: real, acts: seq<Action>, t: L.TradeNo)
    requires unit >= 0.0 && forall k :: 0 <= k < |acts| ==> Smooth(acts[k])
    requires var w := Exec(Start(n, unit), acts); t in w.rows && forall i: nat :: !Inside(w, i, t)
    ensures var w := Exec(Start(n, unit), acts);
      Credits(w.log, t) == Hooks(w.log, t) == if w.rows[t].status.Success? then 1 else 0
  {
    StartIsGood(n, unit);
    ExecKeepsGood(Start(n, unit), acts);
    ExecKeepsFollowed(Start(n, unit), acts, t);
    assert Settled(Exec(Start(n, unit), acts), t);
  }

  // ---------- an order that is forgotten ----------

  /** Successful, or deleted since, and never credited; nobody inside is about to change that. */
  ghost predicate Forgotten(w: World, t: L.TradeNo) {
    && t in w.orders && (t in w.rows ==> w.rows[t].status.Success?)
    && Credits(w.log, t) == 0
    && forall i: nat :: Inside(w, i, t) ==> !w.work[i].Found? && !w.work[i].Saved?
  }

  /** The world after the query, the update and the credit of request i. */
  function Called(w: World, i: nat, update: Outcome, credit: Outcome): World {
    Act(Act(Act(w, Body(i, Ok)), Body(i, update)), Body(i, credit))
  }

  lemma CallbackMarks(w: World, i: nat, update: Outcome)
    requires i < |w.work| == |w.lock.pcs| && w.lock.pcs[i].Critical? && w.work[i].Found?
    ensures var row, t, w' := w.work[i].row, w.lock.pcs[i].t, Act(w, Body(i, update));
      w' == To(if update.Error? then w else w.(rows := w.rows[t := row]),
               i, if update.Ok? then Saved(row) else Finished)
  {
  }

  lemma CallbackTries(w: World, i: nat, credit: Outcome)
    requires i < |w.work| == |w.lock.pcs| && w.lock.pcs[i].Critical? && w.work[i].Saved?
    ensures var row, t, quota := w.work[i].row, w.lock.pcs[i].t, Worth(w.work[i].row, w.unit);
      Act(w, Body(i, credit)) ==
      if quota < 0 || credit.Error? then To(w, i, Finished)
      else To(Log(w, Credit(t, row.user, quota, w.unit)), i, if credit.Ok? then Paid(row) else Finished)
  {
  }

  /** A callback on a pending order leaves it forgotten if and only if its update failed after
      taking effect, or succeeded and the credit failed or was refused for a negative worth. */
  lemma ForgottenIff(w: World, i: nat, kind: string, update: Outcome, credit: Outcome)
    requires Good(w) && i < |w.work| && w.lock.pcs[i].Critical? && w.work[i] == Asked(Epay(kind))
    requires var t := w.lock.pcs[i].t;
      t in w.rows && w.rows[t].provider == "epay" && w.rows[t].status.Pending?
    ensures var t := w.lock.pcs[i].t;
      Forgotten(Called(w, i, update, credit), t) <==>
      update.ErrorAfterEffect? || (update.Ok? && (credit.Error? || Worth(w.rows[t], w.unit) < 0))
  {
    var t := w.lock.pcs[i].t;
    var row := w.rows[t].(payMethod := kind, status := Success);
    assert Settled(w, t);
    EpayWorth(row, w.unit); EpayWorth(w.rows[t], w.unit);
    CallbackFinds(w, i, kind);
    var w1 := To(w, i, Found(row));
    CallbackMarks(w1, i, update);
    var w2 := Act(w1, Body(i, update));
    if update.Ok? {
      CallbackTries(w2, i, credit);
      LogCounts(w.log, Credit(t, row.user, Worth(row, w.unit), w.unit), t);
    } else {
      assert Act(w2, Body(i, credit)) == w2;
    }
    var w3 := Act(w2, Body(i, credit));
    forall j: nat | Inside(w3, j, t) ensures j == i { L.SoleOwner(w.lock, i, j); }
  }

  /** It stays forgotten, whatever happens: no later callback, completion or other action ever
      credits it or fires its hook. */
  lemma {:induction false} ForgottenForEver(w: World, acts: seq<Action>, t: L.TradeNo)
    requires Good(w) && Forgotten(w, t)
    ensures var w' := Exec(w, acts); Forgotten(w', t) && Hooks(w'.log, t) == 0
    decreases acts
  {
    assert Settled(w, t);
    if acts != [] {
      ActKeepsGood(w, acts[0]);
      ActKeepsForgotten(w, acts[0], t);
      ForgottenForEver(Act(w, acts[0]), acts[1..], t);
    }
  }

  /** Steps that neither credit the order nor let anyone inside find it pending. */
  lemma QuietKeepsForgotten(w: World, w': World, t: L.TradeNo)
    requires Forgotten(w, t) && t in w'.orders && Credits(w'.log, t) == 0
    requires t in w'.rows ==> t in w.rows && w'.rows[t] == w.rows[t]
    requires forall i: nat :: Inside(w', i, t) ==>
               (!w'.work[i].Found? && !w'.work[i].Saved?) || (Inside(w, i, t) && w'.work[i] == w.work[i])
    ensures Forgotten(w', t)
  {
  }

  lemma ActKeepsForgotten(w: World, a: Action, t: L.TradeNo)
    requires Good(w) && Forgotten(w, t)
    ensures Forgotten(Act(w, a), t)
  {
    if a.Body? {
      if a.i < |w.work| && w.lock.pcs[a.i].Critical? { CallKeepsForgotten(w, a.i, a.o, t); }
    } else if a.Lock? {
      LockKeepsForgotten(w, a.i, t);
    } else {
      QuietKeepsForgotten(w, Act(w, a), t);
    }
  }

  lemma LockKeepsForgotten(w: World, i: nat, t: L.TradeNo)
    requires Good(w) && Forgotten(w, t)
    ensures Forgotten(Act(w, Lock(i)), t)
  {
    var w' := Act(w, Lock(i));
    forall j: nat | Inside(w', j, t) && !Inside(w, j, t) ensures !w'.work[j].Found? && !w'.work[j].Saved? {
      assert Sound(w, j);
    }
    QuietKeepsForgotten(w, w', t);
  }

  lemma CallKeepsForgotten(w: World, i: nat, o: Outcome, t: L.TradeNo)
    requires Good(w) && Forgotten(w, t) && i < |w.work| && w.lock.pcs[i].Critical?
    ensures Forgotten(Act(w, Body(i, o)), t)
  {
    if w.work[i].Finished? {
      assert Act(w, Body(i, o)) == w;
    } else if w.lock.pcs[i].t == t {
      OwnCallKeepsForgotten(w, i, o, t);
    } else {
      SectionIsSound(w, i, o);
      OtherStepLeaves(w, Act(w, Body(i, o)), i, t);
      QuietKeepsForgotten(w, Act(w, Body(i, o)), t);
    }
  }

  lemma OwnCallKeepsForgotten(w: World, i: nat, o: Outcome, t: L.TradeNo)
    requires Good(w) && Forgotten(w, t) && Inside(w, i, t) && !w.work[i].Finished?
    ensures Forgotten(Act(w, Body(i, o)), t)
  {
    assert Sound(w, i);
    if w.work[i] == Asked(Admin) { CompleteKeepsForgotten(w, i, o, t); } else { IdleCallKeepsForgotten(w, i, o, t); }
  }

  /** The query of a callback that finds nothing pending. */
  lemma CallbackMisses(w: World, i: nat, o: Outcome)
    requires i < |w.work| == |w.lock.pcs| && w.lock.pcs[i].Critical? && w.work[i].Asked? && w.work[i].c.Epay?
    requires var t := w.lock.pcs[i].t; t in w.rows ==> !w.rows[t].status.Pending?
    ensures Act(w, Body(i, o)) == To(w, i, Finished)
  {
  }

  lemma LateFires(w: World, i: nat, o: Outcome)
    requires i < |w.work| == |w.lock.pcs| && w.lock.pcs[i].Critical? && w.work[i].Late?
    ensures Act(w, Body(i, o)) == To(Log(w, Hook(w.lock.pcs[i].t, 0, 0, 0.0)), i, Finished)
  {
  }

  lemma IdleCallKeepsForgotten(w: World, i: nat, o: Outcome, t: L.TradeNo)
    requires Forgotten(w, t) && Inside(w, i, t) && (w.work[i].Late? || (w.work[i].Asked? && w.work[i].c.Epay?))
    ensures Forgotten(Act(w, Body(i, o)), t)
  {
    if w.work[i].Late? {
      LateFires(w, i, o);
      LogCounts(w.log, Hook(t, 0, 0, 0.0), t);
      QuietKeepsForgotten(w, To(Log(w, Hook(t, 0, 0, 0.0)), i, Finished), t);
    } else {
      CallbackMisses(w, i, o);
      QuietKeepsForgotten(w, To(w, i, Finished), t);
    }
  }

  /** A manual completion that finds nothing pending. */
  lemma CompleteMisses(w: World, i: nat, o: Outcome)
    requires i < |w.work| == |w.lock.pcs| && w.lock.pcs[i].Critical? && w.work[i] == Asked(Admin)
    requires var t := w.lock.pcs[i].t; t in w.rows ==> !w.rows[t].status.Pending?
    ensures Act(w, Body(i, o)) == To(w, i, Late) || Act(w, Body(i, o)) == To(w, i, Finished)
  {
  }

  lemma CompleteKeepsForgotten(w: World, i: nat, o: Outcome, t: L.TradeNo)
    requires Forgotten(w, t) && Inside(w, i, t) && w.work[i] == Asked(Admin)
    ensures Forgotten(Act(w, Body(i, o)), t)
  {
    CompleteMisses(w, i, o);
    QuietKeepsForgotten(w, To(w, i, Late), t);
    QuietKeepsForgotten(w, To(w, i, Finished), t);
  }

  // ---------- a run that fires the empty hook ----------

  predicate Alone(w: World, i: nat) { i < |w.work| == |w.lock.pcs| && L.Alone(w.lock, i) }

  function Locks(i: nat, k: nat): seq<Action> { seq(k, _ => Lock(i)) }

  lemma {:induction false} ExecConcat(w: World, a: seq<Action>, b: seq<Action>)
    ensures Exec(w, a + b) == Exec(Exec(w, a), b)
    decreases a
  {
    if a == [] {
      assert a + b == b;
    } else {
      assert (a + b)[0] == a[0] && (a + b)[1..] == a[1..] + b;
      ExecConcat(Act(w, a[0]), a[1..], b);
    }
  }

  lemma {:induction false} LocksRun(w: World, i: nat, k: nat)
    ensures Exec(w, Locks(i, k)) == w.(lock := L.Exec(w.lock, L.Runs(i, k)))
    decreases k
  {
    if k > 0 {
      assert Locks(i, k)[0] == Lock(i) && Locks(i, k)[1..] == Locks(i, k - 1);
      assert L.Runs(i, k)[0] == L.Run(i) && L.Runs(i, k)[1..] == L.Runs(i, k - 1);
      LocksRun(Act(w, Lock(i)), i, k - 1);
    }
  }

  /** On its own, a request walks into the section of its order. */
  function Visit(i: nat, c: Client, t: L.TradeNo): seq<Action> { [Arrive(i, c, t)] + Locks(i, 5) }

  lemma Visits(w: World, i: nat, c: Client, t: L.TradeNo)
    requires Good(w) && Alone(w, i) && w.lock.pcs[i].Idle?
    ensures var w' := Exec(w, Visit(i, c, t));
      Good(w') && Alone(w', i) && Inside(w', i, t) && w' == w.(lock := w'.lock, work := w.work[i := Asked(c)])
  {
    var w1 := Act(w, Arrive(i, c, t));
    assert Sound(w, i);
    ActKeepsGood(w, Arrive(i, c, t));
    assert Visit(i, c, t)[0] == Arrive(i, c, t) && Visit(i, c, t)[1..] == Locks(i, 5);
    L.AloneEnters(w1.lock, i, 5);
    LocksRun(w1, i, 5);
    ExecKeepsGood(w1, Locks(i, 5));
  }

  /** And out again, when it has finished. */
  function Farewell(i: nat): seq<Action> { [Depart(i)] + Locks(i, 6) }

  lemma SaysFarewell(w: World, i: nat)
    requires Good(w) && Alone(w, i) && w.lock.pcs[i].Critical? && w.work[i].Finished?
    ensures var w' := Exec(w, Farewell(i));
      Good(w') && Alone(w', i) && w'.lock.pcs[i].Idle? && w' == w.(lock := w'.lock, work := w.work[i := Resting])
  {
    var w1 := Act(w, Depart(i));
    ActKeepsGood(w, Depart(i));
    assert Farewell(i)[0] == Depart(i) && Farewell(i)[1..] == Locks(i, 6);
    L.AloneLeaves(w1.lock, i, 6);
    LocksRun(w1, i, 6);
    ExecKeepsGood(w1, Locks(i, 6));
  }

  lemma ExecTwo(w: World, a: Action, b: Action)
    ensures Exec(w, [a, b]) == Act(Act(w, a), b)
  {
    assert [a, b][1..] == [b] && [b][1..] == [];
    assert Exec(Act(w, a), [b]) == Exec(Act(Act(w, a), b), []);
  }

  function TwoCalls(i: nat): seq<Action> { [Body(i, Ok), Body(i, Ok)] }

  /** A manual completion of a pending order of some worth: credit and hook. */
  lemma CompletionPays(w: World, i: nat)
    requires Good(w) && i < |w.work| && w.lock.pcs[i].Critical? && w.work[i] == Asked(Admin)
    requires var t := w.lock.pcs[i].t;
      t != "" && t in w.rows && w.rows[t].status.Pending? && Worth(w.rows[t], w.unit) > 0
    ensures var w', t := Exec(w, TwoCalls(i)), w.lock.pcs[i].t;
      Good(w') && w'.lock == w.lock && |w'.work| == |w.work| &&
      w'.work[i].Finished? && t in w'.rows && w'.rows[t].status.Success?
  {
    var b := Body(i, Ok);
    var w1 := Act(w, b);
    ExecTwo(w, b, b);
    ActKeepsGood(w, b);
    ActKeepsGood(w1, b);
    assert w1.work[i].Paid? && w1.rows[w.lock.pcs[i].t].status.Success?;
    CallbackFires(w1, i);
  }

  function FirstVisit(i: nat, t: L.TradeNo): seq<Action> { Visit(i, Admin, t) + TwoCalls(i) + Farewell(i) }

  lemma FirstVisitPays(w: World, i: nat, t: L.TradeNo)
    requires Good(w) && Alone(w, i) && w.lock.pcs[i].Idle?
    requires t != "" && t in w.rows && w.rows[t].status.Pending? && Worth(w.rows[t], w.unit) > 0
    ensures var w' := Exec(w, FirstVisit(i, t));
      Good(w') && Alone(w', i) && w'.lock.pcs[i].Idle? && t in w'.rows && w'.rows[t].status.Success?
  {
    ExecConcat(w, Visit(i, Admin, t) + TwoCalls(i), Farewell(i));
    ExecConcat(w, Visit(i, Admin, t), TwoCalls(i));
    Visits(w, i, Admin, t);
    var inside := Exec(w, Visit(i, Admin, t));
    CompletionPays(inside, i);
    SaysFarewell(Exec(inside, TwoCalls(i)), i);
  }

  lemma SecondVisitFires(w: World, i: nat, t: L.TradeNo)
    requires Good(w) && Alone(w, i) && w.lock.pcs[i].Idle? && t != "" && t in w.rows && w.rows[t].status.Success?
    ensures Hook(t, 0, 0, 0.0) in Exec(w, Visit(i, Admin, t) + TwoCalls(i)).log
  {
    ExecConcat(w, Visit(i, Admin, t), TwoCalls(i));
    Visits(w, i, Admin, t);
    var inside := Exec(w, Visit(i, Admin, t));
    ExecTwo(inside, Body(i, Ok), Body(i, Ok));
    EmptyHookIffAlreadyPaid(inside, i, Ok, Ok);
  }

  /** Completing the same order twice by hand, one after the other, fires the empty hook. */
  lemma EmptyHookIsReached(unit: real, t: L.TradeNo, row: TopUp) returns (acts: seq<Action>)
    requires t != "" && row.status.Pending? && row.id > 0 && Worth(row, unit) > 0
    ensures Hook(t, 0, 0, 0.0) in Exec(Start(1, unit), acts).log
  {
    var w0, create, second := Start(1, unit), Create(t, row), Visit(0, Admin, t) + TwoCalls(0);
    var w1 := Act(w0, create);
    StartIsGood(1, unit);
    ActKeepsGood(w0, create);
    FirstVisitPays(w1, 0, t);
    SecondVisitFires(Exec(w1, FirstVisit(0, t)), 0, t);
    ExecConcat(w1, FirstVisit(0, t), second);
    acts := [create] + (FirstVisit(0, t) + second);
    assert acts[1..] == FirstVisit(0, t) + second;
  }
}
