/** Polling video tasks: status changes, re-billing by tokens and refunds
    (updateVideoSingleTask in controller/task_video.go). */
module TaskSettlement {
  import opened Basics

  /** Task statuses; Other stands for any text the status switch does not know. */
  datatype Status = NotStart | Submitted | Queued | InProgress | Success | Failure | Other(text: string)

  /** A stored task. `quota` is what its user has paid for it so far. */
  datatype Task = Task(user: int, quota: int, status: Status, progress: string, startTime: int, finishTime: int)

  /** A parsed upstream answer; no status stands for the empty one. */
  datatype Report = Report(status: Option<Status>, progress: string, tokens: int)

  /** The ratios looked up for the task's model and group, where they exist. */
  datatype Rates = Rates(model: Option<real>, group: Option<real>, ownGroup: Option<real>)

  /** Which of the three database writes succeed. */
  datatype Writes = Writes(charge: bool, save: bool, refund: bool)

  /** Tasks, user balances, and the tasks refunded so far in order. */
  datatype World = World(tasks: map<string, Task>, balances: map<int, int>, refunds: seq<string>)

  function Balance(w: World, user: int): int { if user in w.balances then w.balances[user] else 0 }

  function Pay(w: World, user: int, amount: int): World {
    w.(balances := w.balances[user := Balance(w, user) + amount])
  }

  function Bill(tokens: int, model: real, group: real): int { Truncate(tokens as real * model * group) }

  /** The quota the tokens are worth, when the model is billed by ratio. */
  function Actual(report: Report, rates: Rates): Option<int> {
    if report.tokens > 0 && rates.model.Some? && rates.model.value > 0.0 && rates.group.Some?
    then Some(Bill(report.tokens, rates.model.value,
                   if rates.ownGroup.Some? then rates.ownGroup.value else rates.group.value))
    else None
  }

  function Outcome(report: Report): Status { if report.status.Some? then report.status.value else Failure }

  predicate Known(s: Status) { s.Submitted? || s.Queued? || s.InProgress? || s.Success? || s.Failure? }

  /** The row as the status switch leaves it, before its quota is settled. */
  function Advanced(t: Task, report: Report, now: int): Task {
    var s := Outcome(report);
    var progress :=
      if s.Submitted? then "10%" else if s.Queued? then "20%" else if s.InProgress? then "30%" else "100%";
    t.(status := s,
       progress := if s.Failure? then "100%" else if report.progress != "" then report.progress else progress,
       startTime := if s.InProgress? && t.startTime == 0 then now else t.startTime,
       finishTime := if (s.Success? || s.Failure?) && t.finishTime == 0 then now else t.finishTime)
  }

  /** Whether re-billing changes the user's balance. */
  predicate Charges(t: Task, report: Report, rates: Rates, writes: Writes) {
    Outcome(report).Success? && Actual(report, rates).Some? && Actual(report, rates).value != t.quota && writes.charge
  }

  /** Whether the failure is refunded: it is new, it was saved, and there is something to return. */
  predicate Refunds(t: Task, report: Report, writes: Writes) {
    Outcome(report).Failure? && t.quota != 0 && !t.status.Failure? && writes.save
  }

  /** One poll of one task. */
  function Poll(w: World, id: string, report: Report, rates: Rates, writes: Writes, now: int): World {
    if id !in w.tasks || !Known(Outcome(report)) then w else
    var t := w.tasks[id];
    var quota := if Charges(t, report, rates, writes) then Actual(report, rates).value else t.quota;
    var charged := if Charges(t, report, rates, writes) then Pay(w, t.user, t.quota - quota) else w;
    var saved := if writes.save then charged.(tasks := w.tasks[id := Advanced(t, report, now).(quota := quota)])
      else charged;
    if Refunds(t, report, writes) then
      var paid := if writes.refund && t.quota >= 0 then Pay(saved, t.user, t.quota) else saved;
      paid.(refunds := w.refunds + [id])
    else saved
  }

  /** The same poll as the source performs it, step by step. */
  class VideoTasks {
    var tasks: map<string, Task>
    var balances: map<int, int>
    var refunds: seq<string>

    function Now(): World
      reads this
    {
      World(tasks, balances, refunds)
    }

    constructor (w: World)
      ensures Now() == w
    {
      tasks, balances, refunds := w.tasks, w.balances, w.refunds;
    }

    /** IncreaseUserQuota refuses negative amounts; `ok` is the database's answer. */
    method IncreaseUserQuota(user: int, amount: int, ok: bool) returns (done: bool)
      modifies this`balances
      ensures done == (ok && amount >= 0)
      ensures Now() == if done then Pay(old(Now()), user, amount) else old(Now())
    {
      if amount < 0 || !ok { return false; }
      balances := balances[user := Balance(Now(), user) + amount];
      return true;
    }

    method DecreaseUserQuota(user: int, amount: int, ok: bool) returns (done: bool)
      modifies this`balances
      ensures done == (ok && amount >= 0)
      ensures Now() == if done then Pay(old(Now()), user, -amount) else old(Now())
    {
      if amount < 0 || !ok { return false; }
      balances := balances[user := Balance(Now(), user) - amount];
      return true;
    }

    method UpdateVideoSingleTask(id: string, report: Report, rates: Rates, writes: Writes, now: int) returns (err: bool)
      modifies this`tasks, this`balances, this`refunds
      ensures err <==> id !in old(tasks) || !Known(Outcome(report))
      ensures Now() == Poll(old(Now()), id, report, rates, writes, now)
    {
      if id !in tasks { return true; }
      var task := tasks[id];
      var status := if report.status.None? then Failure else report.status.value;
      var progress := report.progress;
      var shouldRefund := false;
      var quota, preStatus := task.quota, task.status;
      task := task.(status := status);
      match status {
        case Submitted => task := task.(progress := "10%");
        case Queued => task := task.(progress := "20%");
        case InProgress =>
          task := task.(progress := "30%");
          if task.startTime == 0 { task := task.(startTime := now); }
        case Success =>
          task := task.(progress := "100%");
          if task.finishTime == 0 { task := task.(finishTime := now); }
          var actual := Actual(report, rates);
          if actual.Some? {
            var quotaDelta := actual.value - task.quota;
            if quotaDelta > 0 {
              var ok := DecreaseUserQuota(task.user, quotaDelta, writes.charge);
              if ok { task := task.(quota := actual.value); }
            } else if quotaDelta < 0 {
              var ok := IncreaseUserQuota(task.user, -quotaDelta, writes.charge);
              if ok { task := task.(quota := actual.value); }
            }
          }
        case Failure =>
          task := task.(progress := "100%");
          if task.finishTime == 0 { task := task.(finishTime := now); }
          progress := "100%";
          if quota != 0 && !preStatus.Failure? { shouldRefund := true; }
        case _ => return true;
      }
      if progress != "" { task := task.(progress := progress); }
      if writes.save { tasks := tasks[id := task]; } else { shouldRefund := false; }
      if shouldRefund {
        var refunded := IncreaseUserQuota(task.user, quota, writes.refund);
        refunds := refunds + [id];
      }
      return false;
    }
  }

  // ---------- what users own ----------

  /** The quota a task holds for a user: what was paid, unless the task has failed. */
  function HeldFor(t: Task, user: int): int { if t.user == user && !t.status.Failure? then t.quota else 0 }

  ghost function HeldSum(tasks: map<string, Task>, user: int): int {
    if tasks == map[] then 0 else
    var id :| id in tasks;
    HeldFor(tasks[id], user) + HeldSum(tasks - {id}, user)
  }

  /** A user's balance together with what tasks hold for the user. */
  ghost function Wealth(w: World, user: int): int { Balance(w, user) + HeldSum(w.tasks, user) }

  lemma {:induction false} HeldSplit(tasks: map<string, Task>, user: int, id: string)
    requires id in tasks
    ensures HeldSum(tasks, user) == HeldFor(tasks[id], user) + HeldSum(tasks - {id}, user)
    decreases |tasks|
  {
    var k :| k in tasks && HeldSum(tasks, user) == HeldFor(tasks[k], user) + HeldSum(tasks - {k}, user);
    if k != id {
      HeldSplit(tasks - {k}, user, id);
      HeldSplit(tasks - {id}, user, k);
      assert (tasks - {k}) - {id} == (tasks - {id}) - {k};
    }
  }

  lemma HeldUpdate(tasks: map<string, Task>, user: int, id: string, t: Task)
    requires id in tasks
    ensures HeldSum(tasks[id := t], user) == HeldSum(tasks, user) - HeldFor(tasks[id], user) + HeldFor(t, user)
  {
    HeldSplit(tasks, user, id);
    HeldSplit(tasks[id := t], user, id);
    assert tasks[id := t] - {id} == tasks - {id};
  }

  /** The situations in which a poll creates or destroys quota: a failed task that held quota
      comes back to life; a charge is made and the row then not saved; a failure is saved and
      its refund refused. */
  predicate Leaks(t: Task, report: Report, rates: Rates, writes: Writes) {
    var s := Outcome(report);
    if !Known(s) then false
    else if s.Failure? then Refunds(t, report, writes) && !(writes.refund && t.quota >= 0)
    else if writes.save then t.status.Failure? && t.quota != 0
    else Charges(t, report, rates, writes)
  }

  lemma PollMovesWealth(w: World, id: string, report: Report, rates: Rates, writes: Writes, now: int, user: int)
    requires id in w.tasks
    ensures var t, w' := w.tasks[id], Poll(w, id, report, rates, writes, now);
      && (!Leaks(t, report, rates, writes) || user != t.user ==> Wealth(w', user) == Wealth(w, user))
      && (Leaks(t, report, rates, writes) && user == t.user ==> Wealth(w', user) != Wealth(w, user))
  {
    if Known(Outcome(report)) {
      var t := w.tasks[id];
      var quota := if Charges(t, report, rates, writes) then Actual(report, rates).value else t.quota;
      HeldUpdate(w.tasks, user, id, Advanced(t, report, now).(quota := quota));
    }
  }

  /** Conservation, exactly: a poll leaves every user's balance plus held quota unchanged if
      and only if it is not one of the leaking situations. */
  lemma PollConservesIff(w: World, id: string, report: Report, rates: Rates, writes: Writes, now: int)
    requires id in w.tasks
    ensures (forall user :: Wealth(Poll(w, id, report, rates, writes, now), user) == Wealth(w, user))
            <==> !Leaks(w.tasks[id], report, rates, writes)
  {
    if !Leaks(w.tasks[id], report, rates, writes) {
      forall user ensures Wealth(Poll(w, id, report, rates, writes, now), user) == Wealth(w, user) {
        PollMovesWealth(w, id, report, rates, writes, now, user);
      }
    } else {
      PollMovesWealth(w, id, report, rates, writes, now, w.tasks[id].user);
    }
  }

  /** Polling a settled success again with the same usage and ratios moves nothing. */
  lemma SettledPollMovesNothing(w: World, id: string, report: Report, rates: Rates, writes: Writes, now: int, now': int)
    requires id in w.tasks && Outcome(report).Success? && writes.charge && writes.save
    ensures var once := Poll(w, id, report, rates, writes, now);
      var twice := Poll(once, id, report, rates, writes, now');
      twice.balances == once.balances && twice.refunds == once.refunds && twice.tasks[id].quota == once.tasks[id].quota
  {
  }

  // ---------- what a poll does, in amounts and texts ----------

  /** Success with known ratios: the task then costs the integer part of tokens times model ratio
      times group ratio, the user's own group ratio if there is one, and the user's balance
      changes by what was paid before minus that. */
  lemma SuccessBills(w: World, id: string, report: Report, rates: Rates, now: int, ratio: real)
    requires id in w.tasks && report.status == Some(Success)
    requires report.tokens > 0 && rates.model.Some? && rates.model.value > 0.0 && rates.group.Some?
    requires ratio >= 0.0 && (rates.ownGroup == Some(ratio) || (rates.ownGroup.None? && rates.group == Some(ratio)))
    ensures var t, w' := w.tasks[id], Poll(w, id, report, rates, Writes(true, true, true), now);
      && w'.tasks.Keys == w.tasks.Keys && w'.tasks[id].status == Success
      && w'.tasks[id].quota as real <= report.tokens as real * rates.model.value * ratio
      && report.tokens as real * rates.model.value * ratio < w'.tasks[id].quota as real + 1.0
      && Balance(w', t.user) == Balance(w, t.user) + t.quota - w'.tasks[id].quota
      && (forall user :: user != t.user ==> Balance(w', user) == Balance(w, user))
      && w'.refunds == w.refunds
  {
    BillIsThePrice(report.tokens, rates.model.value, ratio);
    assert Actual(report, rates) == Some(Bill(report.tokens, rates.model.value, ratio));
  }

  lemma BillIsThePrice(tokens: int, model: real, group: real)
    requires tokens > 0 && model > 0.0 && group >= 0.0
    ensures Bill(tokens, model, group) as real <= tokens as real * model * group
    ensures tokens as real * model * group < Bill(tokens, model, group) as real + 1.0
  {
    assert tokens as real * model >= 0.0;
    assert tokens as real * model * group >= 0.0;
    TruncateFacts(tokens as real * model * group);
  }

  /** Without tokens, a positive model ratio or a group ratio, and for every status but success
      and failure, no quota moves. */
  lemma OthersMoveNothing(w: World, id: string, report: Report, rates: Rates, writes: Writes, now: int)
    requires id in w.tasks && report.status.Some? && report.status.value != Failure
    requires report.status.value == Success ==>
               report.tokens <= 0 || rates.model.None? || rates.model.value <= 0.0 || rates.group.None?
    ensures var w' := Poll(w, id, report, rates, writes, now);
      w'.balances == w.balances && w'.refunds == w.refunds && w'.tasks[id].quota == w.tasks[id].quota
  {
  }

  /** A new failure, or an empty status, pays back what the task had cost. */
  lemma FailureRefunds(w: World, id: string, report: Report, rates: Rates, now: int)
    requires id in w.tasks && w.tasks[id].status != Failure && w.tasks[id].quota > 0
    requires report.status == None || report.status == Some(Failure)
    ensures var t, w' := w.tasks[id], Poll(w, id, report, rates, Writes(true, true, true), now);
      && w'.tasks[id].status == Failure && w'.tasks[id].progress == "100%" && w'.tasks[id].quota == t.quota
      && Balance(w', t.user) == Balance(w, t.user) + t.quota
      && (forall user :: user != t.user ==> Balance(w', user) == Balance(w, user))
      && w'.refunds == w.refunds + [id]
  {
  }

  /** The stored row: its status, upstream's progress or the usual one of the status, and the
      times of the first start and the first end.  Statuses the switch does not know, tasks it
      cannot find and rows it cannot save stay as they are. */
  lemma RowFacts(w: World, id: string, report: Report, rates: Rates, writes: Writes, now: int)
    requires id in w.tasks
    ensures var t, t' := w.tasks[id], Poll(w, id, report, rates, writes, now).tasks[id];
      var s := if report.status.None? then Failure else report.status.value;
      var known := s in {Submitted, Queued, InProgress, Success, Failure};
      && (!known ==> Poll(w, id, report, rates, writes, now) == w)
      && (!writes.save ==> t' == t)
      && (known && writes.save ==>
            && t'.status == s && t'.user == t.user
            && (s != Failure && report.progress != "" ==> t'.progress == report.progress)
            && (report.progress == "" ==>
                  t'.progress == (if s == Submitted then "10%" else if s == Queued then "20%"
                                  else if s == InProgress then "30%" else "100%"))
            && t'.startTime == (if s == InProgress && t.startTime == 0 then now else t.startTime)
            && t'.finishTime == (if s in {Success, Failure} && t.finishTime == 0 then now else t.finishTime))
  {
  }

  // ---------- whole runs ----------

  /** One poll of a task, or the bulk failure of the loaded tasks of a lost channel. */
  datatype Action =
    | Polled(id: string, report: Report, rates: Rates, writes: Writes, now: int)
    | ChannelLost(ids: seq<string>, saved: bool)

  /** GetAllUnFinishSyncTasks hands out only these tasks. */
  predicate Unfinished(t: Task) { t.progress != "100%" && !t.status.Failure? && !t.status.Success? }

  predicate Loaded(w: World, id: string) { id in w.tasks && Unfinished(w.tasks[id]) }

  /** When its channel has disappeared a task is failed without a refund. */
  function FailUnrefunded(w: World, id: string): World {
    if Loaded(w, id) then w.(tasks := w.tasks[id := w.tasks[id].(status := Failure, progress := "100%")]) else w
  }

  function FailAll(w: World, ids: seq<string>): World
    decreases ids
  {
    if ids == [] then w else FailAll(FailUnrefunded(w, ids[0]), ids[1..])
  }

  function Do(w: World, a: Action): World {
    match a
    case Polled(id, report, rates, writes, now) => if Loaded(w, id) then Poll(w, id, report, rates, writes, now) else w
    case ChannelLost(ids, saved) => if saved then FailAll(w, ids) else w
  }

  /** The poller asks upstream about a task exactly while its progress is not "100%" and its
      status is neither success nor failure, and a lost channel fails exactly those. */
  lemma OnlyUnfinishedAreTouched(w: World, id: string, report: Report, rates: Rates, writes: Writes, now: int)
    requires id in w.tasks
    ensures var t := w.tasks[id];
      var unfinished := t.progress != "100%" && t.status != Success && t.status != Failure;
      && Do(w, Polled(id, report, rates, writes, now)) ==
         (if unfinished then Poll(w, id, report, rates, writes, now) else w)
      && Do(w, ChannelLost([id], true)) ==
         (if unfinished then w.(tasks := w.tasks[id := t.(status := Failure, progress := "100%")]) else w)
  {
    assert [id][1..] == [] && FailAll(FailUnrefunded(w, id), []) == FailUnrefunded(w, id);
  }

  function Run(w: World, acts: seq<Action>): World
    decreases acts
  {
    if acts == [] then w else Run(Do(w, acts[0]), acts[1..])
  }

  /** What a user loses when the tasks are failed in bulk: all they held for the user. */
  function Lost(w: World, ids: seq<string>, user: int): int
    decreases ids
  {
    if ids == [] then 0 else
    (if Loaded(w, ids[0]) then HeldFor(w.tasks[ids[0]], user) else 0) + Lost(FailUnrefunded(w, ids[0]), ids[1..], user)
  }

  function Forfeited(w: World, acts: seq<Action>, user: int): int
    decreases acts
  {
    if acts == [] then 0 else
    (if acts[0].ChannelLost? && acts[0].saved then Lost(w, acts[0].ids, user) else 0) +
    Forfeited(Do(w, acts[0]), acts[1..], user)
  }

  predicate Solvent(w: World) { forall id :: id in w.tasks ==> w.tasks[id].quota >= 0 }

  predicate Benign(a: Action) {
    a.Polled? ==>
      && a.writes == Writes(true, true, true)
      && (a.rates.group.Some? ==> a.rates.group.value >= 0.0) &&
         (a.rates.ownGroup.Some? ==> a.rates.ownGroup.value >= 0.0)
  }

  lemma ActualIsNotNegative(a: Action)
    requires a.Polled? && Benign(a)
    ensures Actual(a.report, a.rates).Some? ==> Actual(a.report, a.rates).value >= 0
  {
    if Actual(a.report, a.rates).Some? {
      var tokens, model := a.report.tokens as real, a.rates.model.value;
      var ratio := if a.rates.ownGroup.Some? then a.rates.ownGroup.value else a.rates.group.value;
      assert tokens * model >= 0.0;
      assert tokens * model * ratio >= 0.0;
    }
  }

  /** Losing its channel costs a task's user exactly what the task held, and nobody else. */
  lemma LostChannelForfeits(w: World, id: string, user: int)
    ensures Wealth(FailUnrefunded(w, id), user) ==
            Wealth(w, user) - if Loaded(w, id) then HeldFor(w.tasks[id], user) else 0
  {
    if Loaded(w, id) { HeldUpdate(w.tasks, user, id, w.tasks[id].(status := Failure, progress := "100%")); }
  }

  lemma {:induction false} BulkForfeits(w: World, ids: seq<string>, user: int)
    requires Solvent(w)
    ensures Solvent(FailAll(w, ids)) && Wealth(FailAll(w, ids), user) == Wealth(w, user) - Lost(w, ids, user)
    ensures Lost(w, ids, user) >= 0
    decreases ids
  {
    if ids != [] {
      LostChannelForfeits(w, ids[0], user);
      BulkForfeits(FailUnrefunded(w, ids[0]), ids[1..], user);
    }
  }

  lemma BenignPollConserves(w: World, a: Action, user: int)
    requires Solvent(w) && a.Polled? && Benign(a)
    ensures Solvent(Do(w, a)) && Wealth(Do(w, a), user) == Wealth(w, user)
  {
    if Loaded(w, a.id) {
      PollMovesWealth(w, a.id, a.report, a.rates, a.writes, a.now, user);
      ActualIsNotNegative(a);
    }
  }

  /** Quota conservation over every run of the poller whose database writes succeed: whatever
      upstream reports, a user's balance plus held quota changes by exactly what the user's
      tasks held when their channel was lost; so it never grows, and without such losses it
      stays the same. */
  lemma {:induction false} RunConserves(w: World, acts: seq<Action>, user: int)
    requires Solvent(w) && forall i :: 0 <= i < |acts| ==> Benign(acts[i])
    ensures Solvent(Run(w, acts)) && Wealth(Run(w, acts), user) == Wealth(w, user) - Forfeited(w, acts, user)
    ensures Forfeited(w, acts, user) >= 0
    ensures (forall i :: 0 <= i < |acts| ==> acts[i].Polled?) ==> Forfeited(w, acts, user) == 0
    decreases acts
  {
    if acts != [] {
      if acts[0].Polled? { BenignPollConserves(w, acts[0], user); } else { BulkForfeits(w, acts[0].ids, user); }
      RunConserves(Do(w, acts[0]), acts[1..], user);
    }
  }

  function Times(log: seq<string>, id: string): nat {
    if log == [] then 0 else Times(log[..|log| - 1], id) + if log[|log| - 1] == id then 1 else 0
  }

  /** A refunded task was refunded once and has failed. */
  predicate OnceRefunded(w: World, id: string) {
    Times(w.refunds, id) <= 1 && (Times(w.refunds, id) == 1 ==> id in w.tasks && w.tasks[id].status.Failure?)
  }

  lemma TimesOneMore(log: seq<string>, x: string, id: string)
    ensures Times(log + [x], id) == Times(log, id) + if x == id then 1 else 0
  {
    assert (log + [x])[..|log|] == log;
  }

  lemma PollRefundsOnce(w: World, a: Action, id: string)
    requires a.Polled? && OnceRefunded(w, id)
    ensures OnceRefunded(Do(w, a), id)
  {
    TimesOneMore(w.refunds, a.id, id);
  }

  lemma {:induction false} BulkRefundsNobody(w: World, ids: seq<string>, id: string)
    requires OnceRefunded(w, id)
    ensures OnceRefunded(FailAll(w, ids), id)
    decreases ids
  {
    if ids != [] { BulkRefundsNobody(FailUnrefunded(w, ids[0]), ids[1..], id); }
  }

  lemma {:induction false} RefundsStayUnique(w: World, acts: seq<Action>, id: string)
    requires OnceRefunded(w, id)
    ensures OnceRefunded(Run(w, acts), id)
    decreases acts
  {
    if acts != [] {
      if acts[0].Polled? {
        PollRefundsOnce(w, acts[0], id);
      } else {
        BulkRefundsNobody(w, acts[0].ids, id);
      }
      RefundsStayUnique(Do(w, acts[0]), acts[1..], id);
    }
  }

  /** Whatever fails and whatever upstream reports, the poller refunds a task at most once. */
  lemma AtMostOneRefund(tasks: map<string, Task>, balances: map<int, int>, acts: seq<Action>, id: string)
    ensures Times(Run(World(tasks, balances, []), acts).refunds, id) <= 1
  {
    RefundsStayUnique(World(tasks, balances, []), acts, id);
  }

  /** That rests on the loader: polling a failed task directly could refund it twice. */
  lemma DirectPollsRefundTwice()
    ensures var t := Task(1, 10, Queued, "20%", 0, 0);
      var ok, none := Writes(true, true, true), Rates(None, None, None);
      var fail, again := Report(Some(Failure), "", 0), Report(Some(InProgress), "", 0);
      var w1 := Poll(World(map["x" := t], map[], []), "x", fail, none, ok, 0);
      var w3 := Poll(Poll(w1, "x", again, none, ok, 0), "x", fail, none, ok, 0);
      Times(w3.refunds, "x") == 2 && Balance(w3, 1) == 20
  {
    assert ["x", "x"][..1] == ["x"] && ["x"][..0] == [];
  }
}
