/** Payment callbacks (EpayNotify) and manual completions (AdminCompleteTopUp) racing on the
    same orders, under the lock of OrderLock.  Database writes may fail, or fail after having
    taken effect; users may delete unpaid rows at any moment without the lock. */
module PaymentCallback {
  import opened Basics
  import opened OrderLock

  datatype Status = Pending | Success | Failed | Expired

  /** A row of top_ups. */
  datatype TopUp = TopUp(
    id: int, user: int, amount: int, money: real, payMethod: string, provider: string, status: Status)

  /** Who is inside the lock: a verified callback carrying its payment type, or an admin. */
  datatype Client = Epay(kind: string) | Admin

  /** How far a request has come in the section it runs under the lock. */
  datatype Work =
    | Resting
    | Asked(c: Client)     // from the call of LockOrder to the first query
    | Found(row: TopUp)    // a pending row was read and set to Success in memory
    | Saved(row: TopUp)    // Update returned nil
    | Paid(row: TopUp)     // the user's quota was increased without error
    | Late                 // ManualCompleteTopUp found the order already paid
    | Finished             // the deferred UnlockOrder comes next

  /** Effects outside the order table.  `t` tags each with the request's trade number; a credit
      also remembers the quota unit it was computed with. */
  datatype Event =
    | Credit(t: TradeNo, user: int, quota: int, unit: real)
    | Hook(t: TradeNo, id: int, user: int, money: real)

  /** What a database call reports, and whether it took effect. */
  datatype Outcome = Ok | Error | ErrorAfterEffect

  /** `orders` remembers every order as it was created; `rows` is the table now; `unit` is
      QuotaPerUnit, which an administrator may change at any moment. */
  datatype World = World(
    lock: State,
    work: seq<Work>,
    rows: map<TradeNo, TopUp>,
    orders: map<TradeNo, TopUp>,
    log: seq<Event>,
    unit: real)

  function Start(n: nat, unit: real): World {
    World(Init(n), seq(n, _ => Resting), map[], map[], [], unit)
  }

  /** The quota an order is worth. */
  function Worth(row: TopUp, unit: real): int {
    Quota(if row.provider == "stripe" then row.money else row.amount as real, unit)
  }

  function Quota(units: real, unit: real): int { Truncate(units * unit) }

  datatype Action =
    | Arrive(i: nat, c: Client, t: TradeNo)    // a request calls LockOrder
    | Lock(i: nat)                             // one step inside LockOrder or UnlockOrder
    | Body(i: nat, o: Outcome)                 // one database call or hook inside the section
    | Depart(i: nat)                           // the section is over: UnlockOrder is called
    | Create(t: TradeNo, row: TopUp)           // a fresh order is inserted
    | Delete(t: TradeNo)                       // a user deletes the row, outside the lock
    | Reprice(unit: real)                      // the option QuotaPerUnit is changed

  function Act(w: World, a: Action): World {
    match a
    case Arrive(i, c, t) =>
      if i < |w.work| == |w.lock.pcs| && w.work[i].Resting? && w.lock.pcs[i].Idle?
      then w.(lock := OrderLock.Act(w.lock, Call(i, t)), work := w.work[i := Asked(c)]) else w
    case Lock(i) => w.(lock := OrderLock.Act(w.lock, Run(i)))
    case Body(i, o) =>
      if i < |w.work| == |w.lock.pcs| && w.lock.pcs[i].Critical? then Section(w, i, w.lock.pcs[i].t, o) else w
    case Depart(i) =>
      if i < |w.work| == |w.lock.pcs| && w.work[i].Finished? && w.lock.pcs[i].Critical?
      then w.(lock := OrderLock.Act(w.lock, Return(i)), work := w.work[i := Resting]) else w
    case Create(t, row) =>
      if t !in w.orders && row.status.Pending? && row.id > 0
      then w.(rows := w.rows[t := row], orders := w.orders[t := row]) else w
    case Delete(t) =>
      w.(rows := w.rows - {t})
    case Reprice(unit) =>
      w.(unit := unit)
  }

  /** One step of the locked section of request i, on trade number t. */
  function Section(w: World, i: nat, t: TradeNo, o: Outcome): World
    requires i < |w.work|
  {
    match w.work[i]
    case Asked(Epay(kind)) =>
      if t in w.rows && w.rows[t].provider == "epay" && w.rows[t].status.Pending?
      then To(w, i, Found(w.rows[t].(payMethod := kind, status := Success)))
      else To(w, i, Finished)
    case Asked(Admin) => Complete(w, i, t, o)
    case Found(row) =>
      var w' := if o.Error? then w else w.(rows := w.rows[t := row]);
      To(w', i, if o.Ok? then Saved(row) else Finished)
    case Saved(row) =>
      if Worth(row, w.unit) < 0 || o.Error? then To(w, i, Finished)
      else To(Log(w, Credit(t, row.user, Worth(row, w.unit), w.unit)), i, if o.Ok? then Paid(row) else Finished)
    case Paid(row) => To(Log(w, Hook(t, row.id, row.user, row.money)), i, Finished)
    case Late => To(Log(w, Hook(t, 0, 0, 0.0)), i, Finished)
    case _ => w
  }

  /** ManualCompleteTopUp's transaction, which the database runs as one step. */
  function Complete(w: World, i: nat, t: TradeNo, o: Outcome): World
    requires i < |w.work|
  {
    if t == "" || t !in w.rows || o.Error? then To(w, i, Finished)
    else if w.rows[t].status.Success? then To(w, i, if o.Ok? then Late else Finished)
    else if !w.rows[t].status.Pending? || Worth(w.rows[t], w.unit) <= 0 then To(w, i, Finished)
    else
      var row := w.rows[t].(status := Success);
      To(Log(w.(rows := w.rows[t := row]), Credit(t, row.user, Worth(row, w.unit), w.unit)),
         i, if o.Ok? then Paid(row) else Finished)
  }

  function To(w: World, i: nat, k: Work): World
    requires i < |w.work|
  {
    w.(work := w.work[i := k])
  }

  function Log(w: World, e: Event): World { w.(log := w.log + [e]) }

  function Exec(w: World, acts: seq<Action>): World
    decreases acts
  {
    if acts == [] then w else Exec(Act(w, acts[0]), acts[1..])
  }

  // ---------- reading the log ----------

  function Credits(log: seq<Event>, t: TradeNo): nat {
    if log == [] then 0 else
    Credits(log[..|log| - 1], t) + Bit(log[|log| - 1].Credit? && log[|log| - 1].t == t)
  }

  /** Hooks that name a real order; order ids are positive. */
  function Hooks(log: seq<Event>, t: TradeNo): nat {
    if log == [] then 0 else
    Hooks(log[..|log| - 1], t) + Bit(log[|log| - 1].Hook? && log[|log| - 1].t == t && log[|log| - 1].id != 0)
  }

  lemma LogCounts(log: seq<Event>, e: Event, t: TradeNo)
    ensures Credits(log + [e], t) == Credits(log, t) + Bit(e.Credit? && e.t == t)
    ensures Hooks(log + [e], t) == Hooks(log, t) + Bit(e.Hook? && e.t == t && e.id != 0)
  {
    assert (log + [e])[..|log|] == log;
  }

  // ---------- the invariant ----------

  /** What request i knows about the order it is locked on. */
  ghost predicate Sound(w: World, i: nat)
    requires i < |w.work| == |w.lock.pcs|
  {
    var k, pc := w.work[i], w.lock.pcs[i];
    && (k.Resting? <==> Outside(pc))
    && (!k.Resting? && !k.Asked? ==> pc.Critical?)
    && (k.Found? || k.Saved? || k.Paid? ==> pc.t in w.orders)
    && (k.Found? || k.Saved? || k.Paid? ==> SameOrder(k.row, w.orders[pc.t]) && k.row.status.Success?)
    && (k.Found? ==> Credits(w.log, pc.t) == 0 && k.row.provider == "epay")
    && (k.Saved? ==> Credits(w.log, pc.t) == 0 && NotPending(w, pc.t) && k.row.provider == "epay")
    && (k.Paid? ==> Credits(w.log, pc.t) == 1 && Hooks(w.log, pc.t) == 0 && NotPending(w, pc.t))
  }

  /** Not yet in LockOrder, or already in UnlockOrder. */
  predicate Outside(pc: Pc) {
    pc.Idle? || pc.Find? || pc.Unlock? || pc.Leave? || pc.Uncount? || pc.Drop? || pc.Exit?
  }

  predicate SameOrder(row: TopUp, order: TopUp) {
    row == order.(payMethod := row.payMethod, status := row.status)
  }

  predicate NotPending(w: World, t: TradeNo) { t in w.rows ==> !w.rows[t].status.Pending? }

  /** Order by order: one credit at most, none while pending, no hook before the credit. */
  ghost predicate Settled(w: World, t: TradeNo) {
    && Hooks(w.log, t) <= Credits(w.log, t) <= 1
    && (t in w.rows ==> t in w.orders && SameOrder(w.rows[t], w.orders[t]))
    && (t in w.orders ==> w.orders[t].id > 0)
    && (t !in w.orders ==> Credits(w.log, t) == 0)
    && (t in w.rows && w.rows[t].status.Pending? ==> Credits(w.log, t) == 0)
  }

  /** A credit is exactly what its order is worth in the unit of that moment; a hook names its
      order or is empty. */
  ghost predicate Exact(w: World, e: Event) {
    && (e.Credit? ==>
          e.t in w.orders && e.user == w.orders[e.t].user && e.quota == Worth(w.orders[e.t], e.unit) && e.quota >= 0)
    && (e.Hook? && e.id != 0 ==>
          e.t in w.orders && (e.id, e.user, e.money) == (w.orders[e.t].id, w.orders[e.t].user, w.orders[e.t].money))
    && (e.Hook? && e.id == 0 ==> e.user == 0 && e.money == 0.0)
  }

  ghost predicate Good(w: World) {
    && Inv(w.lock)
    && |w.work| == |w.lock.pcs|
    && (forall i :: 0 <= i < |w.work| ==> Sound(w, i))
    && (forall t :: Settled(w, t))
    && (forall k :: 0 <= k < |w.log| ==> Exact(w, w.log[k]))
  }

  lemma StartIsGood(n: nat, unit: real)
    ensures Good(Start(n, unit))
  {
    InitInv(n);
  }

  // ---------- every action keeps the invariant ----------

  /** Request i, alone in the section of its order, touches that order only. */
  ghost predicate OwnStep(w: World, w': World, i: nat)
    requires i < |w.work| == |w.lock.pcs| && w.lock.pcs[i].Critical?
  {
    var t := w.lock.pcs[i].t;
    && w'.lock == w.lock && w'.orders == w.orders && w'.unit == w.unit && |w'.work| == |w.work| &&
       w'.work == w.work[i := w'.work[i]]
    && w'.rows - {t} == w.rows - {t}
    && (w'.log == w.log || (|w'.log| == |w.log| + 1 && w'.log[..|w.log|] == w.log &&
                            w'.log[|w.log|].t == t && Exact(w, w'.log[|w.log|])))
    && Settled(w', t) && Sound(w', i)
  }

  /** A request in its section disturbs nobody else, because nobody else is in a section
      of the same order. */
  lemma Advance(w: World, w': World, i: nat)
    requires Good(w) && i < |w.work| && w.lock.pcs[i].Critical?
    requires OwnStep(w, w', i)
    ensures Good(w')
  {
    var t := w.lock.pcs[i].t;
    forall u | u != t
      ensures Credits(w'.log, u) == Credits(w.log, u) && Hooks(w'.log, u) == Hooks(w.log, u)
      ensures (u in w.rows) == (u in w'.rows) && (u in w.rows ==> w.rows[u] == w'.rows[u])
    {
      assert (u in w.rows - {t}) == (u in w'.rows - {t});
      assert u in w.rows ==> (w.rows - {t})[u] == (w'.rows - {t})[u];
    }
    forall j | 0 <= j < |w'.work| ensures Sound(w', j) {
      assert Sound(w, j);
      if j != i && w.lock.pcs[j].Critical? && w.lock.pcs[j].t == t { SoleOwner(w.lock, i, j); }
    }
    forall u ensures Settled(w', u) { assert Settled(w, u); }
    forall k | 0 <= k < |w'.log| ensures Exact(w', w'.log[k]) {
      if k < |w.log| { assert w'.log[k] == w'.log[..|w.log|][k] && Exact(w, w.log[k]); }
    }
  }

  lemma QueryIsSound(w: World, i: nat, o: Outcome)
    requires Good(w) && i < |w.work| && w.lock.pcs[i].Critical?
    requires w.work[i].Found? || (w.work[i].Asked? && w.work[i].c.Epay?)
    ensures OwnStep(w, Section(w, i, w.lock.pcs[i].t, o), i)
  {
    assert Sound(w, i) && Settled(w, w.lock.pcs[i].t);
  }

  lemma CreditIsSound(w: World, i: nat, o: Outcome)
    requires Good(w) && i < |w.work| && w.lock.pcs[i].Critical? && w.work[i].Saved?
    ensures OwnStep(w, Section(w, i, w.lock.pcs[i].t, o), i)
  {
    var t, row := w.lock.pcs[i].t, w.work[i].row;
    assert Sound(w, i) && Settled(w, t);
    LogCounts(w.log, Credit(t, row.user, Worth(row, w.unit), w.unit), t);
  }

  lemma HookIsSound(w: World, i: nat, o: Outcome)
    requires Good(w) && i < |w.work| && w.lock.pcs[i].Critical? && (w.work[i].Paid? || w.work[i].Late?)
    ensures OwnStep(w, Section(w, i, w.lock.pcs[i].t, o), i)
  {
    var t, k := w.lock.pcs[i].t, w.work[i];
    assert Sound(w, i) && Settled(w, t);
    var e := if k.Paid? then Hook(t, k.row.id, k.row.user, k.row.money) else Hook(t, 0, 0, 0.0);
    LogCounts(w.log, e, t);
    assert Section(w, i, t, o) == To(Log(w, e), i, Finished);
    assert Exact(w, e);
  }

  lemma CompleteIsSound(w: World, i: nat, o: Outcome)
    requires Good(w) && i < |w.work| && w.lock.pcs[i].Critical? && w.work[i].Asked?
    ensures OwnStep(w, Complete(w, i, w.lock.pcs[i].t, o), i)
    ensures var t, w' := w.lock.pcs[i].t, Complete(w, i, w.lock.pcs[i].t, o);
      w'.log != w.log ==>
        && t in w.rows && w.rows[t].status.Pending? && w'.rows[t] == w.rows[t].(status := Success)
        && w'.log[|w.log|].Credit? && w'.log[|w.log|].user == w.rows[t].user && w'.log[|w.log|].unit == w.unit
        && InFull(w.rows[t], w'.log[|w.log|].quota, w.unit)
  {
    var t, w' := w.lock.pcs[i].t, Complete(w, i, w.lock.pcs[i].t, o);
    assert Sound(w, i) && Settled(w, t);
    if w'.log == w.log {
      assert w' == To(w, i, w'.work[i]);
    } else {
      CompletePays(w, i, o);
      WorthIsInFull(w.rows[t], w.unit);
      SameWorth(w.rows[t], w.unit);
    }
  }

  lemma SameWorth(row: TopUp, unit: real)
    ensures Worth(row.(status := Success), unit) == Worth(row, unit)
  {
  }

  /** The one outcome of a manual completion that changes more than the request itself. */
  lemma CompletePays(w: World, i: nat, o: Outcome)
    requires Good(w) && i < |w.work| && w.lock.pcs[i].Critical? && w.work[i].Asked?
    requires Complete(w, i, w.lock.pcs[i].t, o).log != w.log
    ensures OwnStep(w, Complete(w, i, w.lock.pcs[i].t, o), i)
  {
    var t, w' := w.lock.pcs[i].t, Complete(w, i, w.lock.pcs[i].t, o);
    var row := w.rows[t].(status := Success);
    var e := Credit(t, row.user, Worth(row, w.unit), w.unit);
    assert Sound(w, i) && Settled(w, t);
    LogCounts(w.log, e, t);
    assert w' == To(Log(w.(rows := w.rows[t := row]), e), i, if o.Ok? then Paid(row) else Finished);
    assert Exact(w, e);
    assert Settled(w', t);
  }

  lemma SectionIsSound(w: World, i: nat, o: Outcome)
    requires Good(w) && i < |w.work| && w.lock.pcs[i].Critical? && !w.work[i].Finished?
    ensures OwnStep(w, Section(w, i, w.lock.pcs[i].t, o), i)
  {
    assert Sound(w, i);
    match w.work[i]
    case Asked(Admin) => CompleteIsSound(w, i, o);
    case Asked(Epay(_)) => QueryIsSound(w, i, o);
    case Found(_) => QueryIsSound(w, i, o);
    case Saved(_) => CreditIsSound(w, i, o);
    case _ => HookIsSound(w, i, o);
  }

  lemma SectionKeepsGood(w: World, i: nat, o: Outcome)
    requires Good(w) && i < |w.work| && w.lock.pcs[i].Critical?
    ensures Good(Section(w, i, w.lock.pcs[i].t, o))
  {
    if !w.work[i].Finished? {
      SectionIsSound(w, i, o);
      Advance(w, Section(w, i, w.lock.pcs[i].t, o), i);
    }
  }

  /** Steps of the lock itself, and calls into it, touch neither rows nor log. */
  lemma LockMoveKeepsGood(w: World, w': World, i: nat)
    requires Good(w) && i < |w.work|
    requires w' == w.(lock := w'.lock, work := w'.work) && Inv(w'.lock)
    requires |w'.work| == |w.work| == |w'.lock.pcs| && w'.work == w.work[i := w'.work[i]]
    requires w'.lock.pcs == w.lock.pcs[i := w'.lock.pcs[i]]
    requires Sound(w', i)
    ensures Good(w')
  {
    forall j | 0 <= j < |w'.work| ensures Sound(w', j) { assert j != i ==> Sound(w, j); }
    forall t ensures Settled(w', t) { assert Settled(w, t); }
    forall k | 0 <= k < |w'.log| ensures Exact(w', w'.log[k]) { assert Exact(w, w.log[k]); }
  }

  /** A step of the lock brings a request neither in nor out without its work saying so. */
  lemma LockStepIsSound(w: World, i: nat)
    requires Good(w) && i < |w.work| && Enabled(w.lock, i)
    ensures Sound(Act(w, Lock(i)), i)
  {
    assert Sound(w, i);
    if Owner(w.lock.pcs[i]) { UnlockFindsOwnMutex(w.lock, i); }
    StepShortens(w.lock, i);
  }

  lemma LockKeepsGood(w: World, i: nat)
    requires Good(w) && i < |w.work|
    ensures Good(Act(w, Lock(i)))
  {
    ActKeepsInv(w.lock, Run(i));
    if Enabled(w.lock, i) {
      LockStepIsSound(w, i);
      LockMoveKeepsGood(w, Act(w, Lock(i)), i);
    }
  }

  /** Rows come and go outside the lock without breaking the accounts. */
  lemma TableKeepsGood(w: World, t: TradeNo, row: TopUp)
    requires Good(w)
    ensures Good(Act(w, Create(t, row))) && Good(Act(w, Delete(t)))
  {
    assert Settled(w, t);
    forall w' | w' == Act(w, Create(t, row)) || w' == Act(w, Delete(t)) ensures Good(w') {
      forall j | 0 <= j < |w'.work| ensures Sound(w', j) { assert Sound(w, j); }
      forall u ensures Settled(w', u) { assert Settled(w, u); }
      forall k | 0 <= k < |w'.log| ensures Exact(w', w'.log[k]) { assert Exact(w, w.log[k]); }
    }
  }

  lemma RepriceKeepsGood(w: World, unit: real)
    requires Good(w)
    ensures Good(Act(w, Reprice(unit)))
  {
    var w' := Act(w, Reprice(unit));
    forall j | 0 <= j < |w'.work| ensures Sound(w', j) { assert Sound(w, j); }
    forall u ensures Settled(w', u) { assert Settled(w, u); }
    forall k | 0 <= k < |w'.log| ensures Exact(w', w'.log[k]) { assert Exact(w, w.log[k]); }
  }

  lemma ActKeepsGood(w: World, a: Action)
    requires Good(w)
    ensures Good(Act(w, a))
  {
    match a
    case Arrive(i, c, t) =>
      if i < |w.work| && w.work[i].Resting? && w.lock.pcs[i].Idle? {
        OrderLock.ActKeepsInv(w.lock, Call(i, t));
        LockMoveKeepsGood(w, Act(w, a), i);
      }
    case Lock(i) => if i < |w.work| { LockKeepsGood(w, i); }
    case Body(i, o) => if i < |w.work| && w.lock.pcs[i].Critical? { SectionKeepsGood(w, i, o); }
    case Depart(i) =>
      if i < |w.work| && w.work[i].Finished? && w.lock.pcs[i].Critical? {
        OrderLock.ActKeepsInv(w.lock, Return(i));
        LockMoveKeepsGood(w, Act(w, a), i);
      }
    case Create(t, row) => TableKeepsGood(w, t, row);
    case Delete(t) => TableKeepsGood(w, t, TopUp(1, 0, 0, 0.0, "", "", Pending));
    case Reprice(unit) => RepriceKeepsGood(w, unit);
  }

  lemma {:induction false} ExecKeepsGood(w: World, acts: seq<Action>)
    requires Good(w)
    ensures Good(Exec(w, acts))
    decreases acts
  {
    if acts != [] {
      ActKeepsGood(w, acts[0]);
      ExecKeepsGood(Act(w, acts[0]), acts[1..]);
    }
  }

  // ---------- what the payment section promises ----------

  /** `quota` is what was paid, in quota units, without its fractional part: the amount of an
      order, or for stripe the money. */
  ghost predicate InFull(order: TopUp, quota: int, unit: real) {
    && (order.provider != "stripe" && order.amount >= 0 && unit >= 0.0 ==>
          quota as real <= order.amount as real * unit < quota as real + 1.0)
    && (order.provider == "stripe" && order.money >= 0.0 && unit >= 0.0 ==>
          quota as real <= order.money * unit < quota as real + 1.0)
  }

  lemma WorthIsInFull(row: TopUp, unit: real)
    ensures InFull(row, Worth(row, unit), unit)
  {
    if row.provider == "stripe" {
      TruncateFacts(row.money * unit);
      if row.money >= 0.0 && unit >= 0.0 { assert row.money * unit >= 0.0; }
    } else {
      TruncateFacts(row.amount as real * unit);
      if row.amount >= 0 && unit >= 0.0 { assert row.amount as real * unit >= 0.0; }
    }
  }

  /** However many duplicate callbacks and manual completions race, whatever fails, and
      whatever rows are deleted meanwhile: each order is credited at most once, its hook fires
      at most as often, and every credit and hook carries that order's own user and all that
      was paid for it. */
  lemma AtMostOnce(n: nat, unit: real, acts: seq<Action>, t: TradeNo)
    ensures var w := Exec(Start(n, unit), acts);
      && Hooks(w.log, t) <= Credits(w.log, t) <= 1
      && (t in w.rows && w.rows[t].status.Pending? ==> Credits(w.log, t) == 0)
      && (forall k :: 0 <= k < |w.log| ==> Exact(w, w.log[k]))
      && (forall k :: 0 <= k < |w.log| && w.log[k].Credit? ==>
            InFull(w.orders[w.log[k].t], w.log[k].quota, w.log[k].unit))
  {
    StartIsGood(n, unit);
    ExecKeepsGood(Start(n, unit), acts);
    var w := Exec(Start(n, unit), acts);
    assert Settled(w, t);
    forall k | 0 <= k < |w.log| && w.log[k].Credit?
      ensures InFull(w.orders[w.log[k].t], w.log[k].quota, w.log[k].unit)
    {
      assert Exact(w, w.log[k]);
      WorthIsInFull(w.orders[w.log[k].t], w.log[k].unit);
    }
  }

  /** Whoever credits an order, and when: the request inside its section, at the unit in force. */
  lemma CreditsUseTheUnitInForce(w: World, a: Action)
    requires |Act(w, a).log| > |w.log| && Act(w, a).log[|w.log|].Credit?
    ensures a.Body? && a.i < |w.work| == |w.lock.pcs| && w.lock.pcs[a.i].Critical?
    ensures Act(w, a).log == w.log + [Act(w, a).log[|w.log|]]
    ensures Act(w, a).log[|w.log|].t == w.lock.pcs[a.i].t && Act(w, a).log[|w.log|].unit == w.unit == Act(w, a).unit
  {
  }

  lemma WorthIsPositiveIff(row: TopUp, unit: real, paid: real)
    requires paid == if row.provider == "stripe" then row.money else row.amount as real
    ensures Worth(row, unit) > 0 <==> paid * unit >= 1.0
  {
    QuotaIsPositiveIff(paid, unit);
  }

  lemma QuotaIsPositiveIff(units: real, unit: real)
    ensures Quota(units, unit) > 0 <==> units * unit >= 1.0
  {
    TruncateFacts(units * unit);
  }

  /** A manual completion pays exactly pending orders worth at least one unit of quota, unless its
      transaction is rolled back; only when told so does it go on to the hook. */
  lemma ManualPaysIff(w: World, i: nat, o: Outcome, paid: real)
    requires i < |w.work| == |w.lock.pcs| && w.lock.pcs[i].Critical? && w.work[i] == Asked(Admin)
    requires var t := w.lock.pcs[i].t; t in w.rows ==>
      paid == if w.rows[t].provider == "stripe" then w.rows[t].money else w.rows[t].amount as real
    ensures var t, w' := w.lock.pcs[i].t, Act(w, Body(i, o));
      var pays := t != "" && t in w.rows && w.rows[t].status.Pending? && paid * w.unit >= 1.0 && !o.Error?;
      && (w'.log != w.log <==> pays) && (w'.work[i].Paid? <==> pays && o.Ok?)
      && w'.rows == if pays then w.rows[t := w.rows[t].(status := Success)] else w.rows
  {
    var t := w.lock.pcs[i].t;
    if t in w.rows { WorthIsPositiveIff(w.rows[t], w.unit, paid); }
  }

  /** A row that is gone when a request first asks for it is not paid, by callback or by hand. */
  lemma DeletedIsNotPaid(w: World, i: nat, o: Outcome)
    requires i < |w.work| == |w.lock.pcs| && w.lock.pcs[i].Critical? && w.work[i].Asked?
    ensures Act(Act(w, Delete(w.lock.pcs[i].t)), Body(i, o)) ==
            To(w.(rows := w.rows - {w.lock.pcs[i].t}), i, Finished)
  {
  }

  /** The hook of an order fires only after its credit, when it is no longer pending. */
  lemma HookComesLast(n: nat, unit: real, acts: seq<Action>, i: nat, o: Outcome)
    requires var w := Exec(Start(n, unit), acts);
      |Act(w, Body(i, o)).log| > |w.log| &&
      Act(w, Body(i, o)).log[|w.log|].Hook? && Act(w, Body(i, o)).log[|w.log|].id != 0
    ensures var w := Exec(Start(n, unit), acts);
      var t := Act(w, Body(i, o)).log[|w.log|].t;
      Credits(w.log, t) == 1 && Hooks(w.log, t) == 0 && NotPending(w, t)
  {
    StartIsGood(n, unit);
    ExecKeepsGood(Start(n, unit), acts);
    assert Sound(Exec(Start(n, unit), acts), i);
  }

  /** What an epay order is worth, whatever became of its row. */
  lemma EpayWorth(row: TopUp, unit: real)
    requires row.provider == "epay"
    ensures Worth(row, unit) == Quota(row.amount as real, unit)
    ensures row.amount >= 0 && unit >= 0.0 ==> Worth(row, unit) >= 0
  {
    assert |row.provider| != |"stripe"|;
    if row.amount >= 0 && unit >= 0.0 { assert row.amount as real * unit >= 0.0; }
  }

  /** The four successful database calls of a callback, one by one. */
  lemma CallbackFinds(w: World, i: nat, kind: string)
    requires i < |w.work| == |w.lock.pcs| && w.lock.pcs[i].Critical? && w.work[i] == Asked(Epay(kind))
    requires var t := w.lock.pcs[i].t; t in w.rows && w.rows[t].provider == "epay" && w.rows[t].status.Pending?
    ensures Act(w, Body(i, Ok)) == To(w, i, Found(w.rows[w.lock.pcs[i].t].(payMethod := kind, status := Success)))
  {
  }

  lemma CallbackSaves(w: World, i: nat)
    requires i < |w.work| == |w.lock.pcs| && w.lock.pcs[i].Critical? && w.work[i].Found?
    ensures var row := w.work[i].row;
      Act(w, Body(i, Ok)) == To(w.(rows := w.rows[w.lock.pcs[i].t := row]), i, Saved(row))
  {
  }

  lemma CallbackCredits(w: World, i: nat)
    requires i < |w.work| == |w.lock.pcs| && w.lock.pcs[i].Critical? &&
      w.work[i].Saved? && Worth(w.work[i].row, w.unit) >= 0
    ensures var row := w.work[i].row;
      Act(w, Body(i, Ok)) == To(Log(w, Credit(w.lock.pcs[i].t, row.user, Worth(row, w.unit), w.unit)), i, Paid(row))
  {
  }

  lemma CallbackFires(w: World, i: nat)
    requires i < |w.work| == |w.lock.pcs| && w.lock.pcs[i].Critical? && w.work[i].Paid?
    ensures var row := w.work[i].row;
      Act(w, Body(i, Ok)) == To(Log(w, Hook(w.lock.pcs[i].t, row.id, row.user, row.money)), i, Finished)
  {
  }

  lemma Overwrite(w: World, i: nat, k: Work, k': Work)
    requires i < |w.work|
    ensures To(To(w, i, k), i, k') == To(w, i, k')
  {
    assert w.work[i := k][i := k'] == w.work[i := k'];
  }

  /** A callback for a pending order whose database calls succeed does pay: it leaves the
      order successful, credits the user the order's worth, and fires the hook. */
  lemma {:induction false} UndisturbedCallbackPays(w: World, i: nat, kind: string)
    requires Good(w) && i < |w.work| && w.lock.pcs[i].Critical? && w.work[i] == Asked(Epay(kind))
    requires var t := w.lock.pcs[i].t;
      t in w.rows && w.rows[t].provider == "epay" && w.rows[t].status.Pending? && Worth(w.rows[t], w.unit) >= 0
    ensures var t, b := w.lock.pcs[i].t, Body(i, Ok);
      var row := w.rows[t].(payMethod := kind, status := Success);
      var credit := Credit(t, row.user, Worth(w.rows[t], w.unit), w.unit);
      Act(Act(Act(Act(w, b), b), b), b) ==
      To(Log(Log(w.(rows := w.rows[t := row]), credit), Hook(t, row.id, row.user, row.money)), i, Finished)
  {
    var t := w.lock.pcs[i].t;
    var row := w.rows[t].(payMethod := kind, status := Success);
    var saved := w.(rows := w.rows[t := row]);
    var credited := Log(saved, Credit(t, row.user, Worth(row, w.unit), w.unit));
    EpayWorth(row, w.unit); EpayWorth(w.rows[t], w.unit);
    var b, fired := Body(i, Ok), Hook(t, row.id, row.user, row.money);
    var w1, w2, w3 := To(w, i, Found(row)), To(saved, i, Saved(row)), To(credited, i, Paid(row));
    assert Act(w, b) == w1 by { CallbackFinds(w, i, kind); }
    assert Act(w1, b) == w2 by { CallbackSaves(w1, i); Overwrite(saved, i, Found(row), Saved(row)); }
    assert Act(w2, b) == w3 by { CallbackCredits(w2, i); Overwrite(credited, i, Saved(row), Paid(row)); }
    assert Act(w3, b) == To(Log(credited, fired), i, Finished) by {
      CallbackFires(w3, i);
      Overwrite(Log(credited, fired), i, Paid(row), Finished);
    }
  }

  /** An admin completing an order that is already paid credits nothing but still fires the
      hook, with an empty payload; it does so exactly then. */
  lemma EmptyHookIffAlreadyPaid(w: World, i: nat, o: Outcome, o': Outcome)
    requires Good(w) && i < |w.work| && w.lock.pcs[i].Critical? && w.work[i] == Asked(Admin)
    ensures var t := w.lock.pcs[i].t;
      var w' := Act(Act(w, Body(i, o)), Body(i, o'));
      (|w'.log| > |w.log| && w'.log[|w.log|] == Hook(t, 0, 0, 0.0)) <==>
      (o.Ok? && t != "" && t in w.rows && w.rows[t].status.Success?)
  {
  }

  /** No deadlock: while a request is unfinished some action changes the world. */
  lemma NeverStuck(w: World, i: nat) returns (a: Action)
    requires Good(w) && i < |w.work| && !w.lock.pcs[i].Idle?
    ensures (a.Lock? || a.Body? || a.Depart?) && Act(w, a) != w
  {
    var j := NoDeadlock(w.lock, i);
    assert Sound(w, j);
    if !w.lock.pcs[j].Critical? {
      a := Lock(j);
      StepIsProgress(w.lock, j);
    } else if w.work[j].Finished? {
      a := Depart(j);
    } else {
      a := Body(j, Ok);
    }
  }
}
