/** Whole runs of body storages: any sequence of creations, reads, seeks, fetches and repeated
    closes, on both backends together, with the usage counters they share. */
module BodyRuns {
  import opened Basics
  import opened BodyStream
  import opened BodyStorage

  // ---------- what a run means ----------

  /** A body as its clients see it, and where it is kept. */
  datatype Body = Body(onDisk: bool, stream: Stream)

  datatype Event =
    | Create(data: Bytes, config: Config, diskOk: bool)
    | Receive(input: Bytes, contentLength: int, maxBytes: int, config: Config, streamOk: bool, diskOk: bool)
    | Use(k: nat, op: Op)

  /** How many open bodies are on disk, or in memory, and how many bytes they hold. */
  function Open(bodies: seq<Body>, onDisk: bool): nat {
    if bodies == [] then 0 else
    Open(bodies[..|bodies| - 1], onDisk) + if Counts(bodies[|bodies| - 1], onDisk) then 1 else 0
  }

  function Held(bodies: seq<Body>, onDisk: bool): nat {
    if bodies == [] then 0 else
    Held(bodies[..|bodies| - 1], onDisk) +
      if Counts(bodies[|bodies| - 1], onDisk) then |bodies[|bodies| - 1].stream.content| else 0
  }

  predicate Counts(b: Body, onDisk: bool) { b.onDisk == onDisk && !b.stream.closed }

  /** The body an event creates when `usage` bytes are on disk, if it succeeds. */
  function Admitted(usage: int, e: Event): Option<Body> {
    match e
    case Create(data, config, diskOk) => Some(Body(GoesToDisk(config, usage, |data|) && diskOk, Stream(data, 0, false)))
    case Receive(input, contentLength, maxBytes, config, streamOk, diskOk) =>
      var direct := contentLength > 0 && GoesToDisk(config, usage, contentLength);
      if (direct && !streamOk) || |input| > maxBytes then None
      else Some(Body(direct || (GoesToDisk(config, usage, |input|) && diskOk), Stream(input, 0, false)))
    case Use(_, _) => None
  }

  function Answer(b: Body, op: Op): (Stream, Out) { if b.onDisk then DiskDo(b.stream, op) else MemoryDo(b.stream, op) }

  function Next(bodies: seq<Body>, e: Event): seq<Body> {
    if e.Use? then
      if e.k < |bodies| then bodies[e.k := bodies[e.k].(stream := Answer(bodies[e.k], e.op).0)] else bodies
    else
      var b := Admitted(Held(bodies, true), e);
      if b.Some? then bodies + [b.value] else bodies
  }

  function Run(bodies: seq<Body>, events: seq<Event>): seq<Body>
    decreases events
  {
    if events == [] then bodies else Run(Next(bodies, events[0]), events[1..])
  }

  /** The answers of a run, in order. */
  function Answers(bodies: seq<Body>, events: seq<Event>): seq<Out>
    decreases events
  {
    if events == [] then [] else Reply(bodies, events[0]) + Answers(Next(bodies, events[0]), events[1..])
  }

  function Reply(bodies: seq<Body>, e: Event): seq<Out> {
    if e.Use? && e.k < |bodies| then [Answer(bodies[e.k], e.op).1] else []
  }

  lemma OneMore(bodies: seq<Body>, b: Body, onDisk: bool)
    ensures Open(bodies + [b], onDisk) == Open(bodies, onDisk) + if Counts(b, onDisk) then 1 else 0
    ensures Held(bodies + [b], onDisk) == Held(bodies, onDisk) + if Counts(b, onDisk) then |b.stream.content| else 0
  {
    assert (bodies + [b])[..|bodies|] == bodies;
  }

  lemma {:induction false} OneChanged(bodies: seq<Body>, k: nat, b: Body, onDisk: bool)
    requires k < |bodies|
    ensures Open(bodies[k := b], onDisk) ==
            Open(bodies, onDisk) - (if Counts(bodies[k], onDisk) then 1 else 0) + if Counts(b, onDisk) then 1 else 0
    ensures Held(bodies[k := b], onDisk) ==
            Held(bodies, onDisk) - (if Counts(bodies[k], onDisk) then |bodies[k].stream.content| else 0)
                                 + if Counts(b, onDisk) then |b.stream.content| else 0
  {
    var init := bodies[..|bodies| - 1];
    if k == |bodies| - 1 {
      assert bodies[k := b][..k] == init;
    } else {
      OneChanged(init, k, b, onDisk);
      assert bodies[k := b][..|bodies| - 1] == init[k := b];
    }
  }

  // ---------- the storages of a run ----------

  /** The storages are distinct objects that look like the bodies, and the counters are the
      number and the byte sum of the open ones. */
  ghost predicate Mirrors(storages: seq<Storage>, bodies: seq<Body>, stats: CacheStats)
    reads stats, set s | s in storages :: Object(s)
  {
    && |storages| == |bodies|
    && (forall i, j :: 0 <= i < j < |storages| ==> Object(storages[i]) != Object(storages[j]))
    && (forall i :: 0 <= i < |storages| ==> Looks(storages[i], bodies[i], stats))
    && Exact(bodies, stats)
  }

  ghost predicate Looks(s: Storage, b: Body, stats: CacheStats)
    reads stats, Object(s)
  {
    Sound(s, stats) && s.Disk? == b.onDisk && Shape(s) == b.stream
  }

  /** Among others, Valid says that no decrement was ever cut off at zero. */
  ghost predicate Exact(bodies: seq<Body>, stats: CacheStats)
    reads stats
  {
    && stats.Valid()
    && stats.activeDiskFiles == Open(bodies, true) && stats.diskUsage == Held(bodies, true)
    && stats.activeMemoryBuffers == Open(bodies, false) && stats.memoryUsage == Held(bodies, false)
  }

  lemma Without(m: map<object, nat>, k: object)
    ensures Total(m - {k}) == Total(m) - (if k in m then m[k] else 0)
    ensures |m - {k}| == |m| - if k in m then 1 else 0
  {
    if k in m {
      TotalWithout(m, k);
      SizeWithout(m, k);
    } else {
      assert m - {k} == m;
    }
  }

  /** One operation on one storage. */
  method Perform(s: Storage, op: Op, stats: CacheStats) returns (out: Out)
    requires Sound(s, stats) && stats.Valid()
    modifies Object(s), stats
    ensures Sound(s, stats) && stats.Valid()
    ensures (Shape(s), out) == if s.Disk? then DiskDo(old(Shape(s)), op) else MemoryDo(old(Shape(s)), op)
    ensures stats.onDisk == if s.Disk? && op.Close? then old(stats.onDisk) - {s.d} else old(stats.onDisk)
    ensures stats.inMemory == if s.Memory? && op.Close? then old(stats.inMemory) - {s.m} else old(stats.inMemory)
  {
    match s
    case Memory(m) =>
      match op {
        case Read(n) => out := m.Read(n);
        case Seek(offset, whence) => out := m.Seek(offset, whence);
        case GetBytes => out := m.Fetch();
        case Close => m.Close(); out := Done;
      }
    case Disk(d) =>
      match op {
        case Read(n) => out := d.Read(n);
        case Seek(offset, whence) => out := d.Seek(offset, whence);
        case GetBytes => out := d.Fetch();
        case Close => d.Close(); out := Done;
      }
  }

  /** The open storages of one kind, with their sizes, are as many and as large as the bodies say. */
  ghost predicate Tallies(open: map<object, nat>, bodies: seq<Body>, onDisk: bool) {
    |open| == Open(bodies, onDisk) && Total(open) == Held(bodies, onDisk)
  }

  lemma TallyAfter(open: map<object, nat>, who: object, bodies: seq<Body>, k: nat, op: Op, onDisk: bool)
    requires k < |bodies| && Tallies(open, bodies, onDisk)
    requires bodies[k].onDisk == onDisk ==> (who in open <==> !bodies[k].stream.closed)
    requires bodies[k].onDisk == onDisk && who in open ==> open[who] == |bodies[k].stream.content|
    ensures Tallies(if op.Close? && bodies[k].onDisk == onDisk then open - {who} else open,
                    Next(bodies, Use(k, op)), onDisk)
  {
    Without(open, who);
    OneChanged(bodies, k, Next(bodies, Use(k, op))[k], onDisk);
    ContentStays(bodies[k], op);
  }

  lemma ContentStays(b: Body, op: Op)
    ensures Answer(b, op).0 == b.stream.(pos := Answer(b, op).0.pos, closed := op.Close? || b.stream.closed)
  {
  }

  /** An operation on the body at k leaves the others as they look. */
  method UseAmong(storages: seq<Storage>, k: nat, op: Op, stats: CacheStats, ghost bodies: seq<Body>) returns (out: Out)
    requires |storages| == |bodies| && k < |storages| && stats.Valid()
    requires forall i :: 0 <= i < |storages| ==> Looks(storages[i], bodies[i], stats)
    requires forall i, j :: 0 <= i < j < |storages| ==> Object(storages[i]) != Object(storages[j])
    modifies stats, Object(storages[k])
    ensures out == Answer(bodies[k], op).1 && stats.Valid()
    ensures var next := Next(bodies, Use(k, op)); forall i :: 0 <= i < |storages| ==> Looks(storages[i], next[i], stats)
    ensures stats.onDisk ==
            if op.Close? && bodies[k].onDisk then old(stats.onDisk) - {Object(storages[k])} else old(stats.onDisk)
    ensures stats.inMemory ==
            if op.Close? && !bodies[k].onDisk then old(stats.inMemory) - {Object(storages[k])} else old(stats.inMemory)
  {
    ghost var s, next := storages[k], Next(bodies, Use(k, op));
    assert Looks(s, bodies[k], stats);
    out := Perform(storages[k], op, stats);
    forall i | 0 <= i < |storages| ensures Looks(storages[i], next[i], stats) {
      assert i != k ==> Object(storages[i]) != Object(s) && old(Looks(storages[i], bodies[i], stats));
    }
  }

  method UseOne(storages: seq<Storage>, k: nat, op: Op, stats: CacheStats, ghost bodies: seq<Body>) returns (out: Out)
    requires Mirrors(storages, bodies, stats) && k < |storages|
    modifies stats, Object(storages[k])
    ensures out == Answer(bodies[k], op).1 && Mirrors(storages, Next(bodies, Use(k, op)), stats)
  {
    ghost var s, next := storages[k], Next(bodies, Use(k, op));
    assert Looks(s, bodies[k], stats);
    TallyAfter(stats.onDisk, Object(s), bodies, k, op, true);
    TallyAfter(stats.inMemory, Object(s), bodies, k, op, false);
    out := UseAmong(storages, k, op, stats, bodies);
  }

  /** What a client gets from one of the two creation functions. */
  method Make(e: Event, stats: CacheStats) returns (r: Option<Storage>)
    requires stats.Valid() && !e.Use?
    modifies stats
    ensures stats.Valid()
    ensures r.Some? <==> Admitted(old(stats.diskUsage), e).Some?
    ensures r.Some? ==> fresh(Object(r.value)) && Looks(r.value, Admitted(old(stats.diskUsage), e).value, stats)
    ensures stats.onDisk ==
            if r.Some? && r.value.Disk? then old(stats.onDisk)[r.value.d := |Shape(r.value).content|]
            else old(stats.onDisk)
    ensures stats.inMemory ==
            if r.Some? && r.value.Memory? then old(stats.inMemory)[r.value.m := |Shape(r.value).content|]
            else old(stats.inMemory)
  {
    match e
    case Create(data, config, diskOk) =>
      var s := CreateBodyStorage(data, config, stats, diskOk);
      return Some(s);
    case Receive(input, contentLength, maxBytes, config, streamOk, diskOk) =>
      var created := CreateFromReader(input, contentLength, maxBytes, config, stats, streamOk, diskOk);
      if created.Ok? { return Some(created.s); }
      return None;
  }

  lemma TallyJoined(open: map<object, nat>, who: object, bodies: seq<Body>, b: Body, onDisk: bool)
    requires Tallies(open, bodies, onDisk) && who !in open && !b.stream.closed
    ensures Tallies(if b.onDisk == onDisk then open[who := |b.stream.content|] else open, bodies + [b], onDisk)
  {
    OneMore(bodies, b, onDisk);
    TotalWith(open, who, |b.stream.content|);
  }

  /** A creation leaves the bodies already there as they look. */
  method MakeAmong(storages: seq<Storage>, e: Event, stats: CacheStats, ghost bodies: seq<Body>)
    returns (r: Option<Storage>)
    requires |storages| == |bodies| && stats.Valid() && !e.Use?
    requires forall i :: 0 <= i < |storages| ==> Looks(storages[i], bodies[i], stats)
    modifies stats
    ensures stats.Valid()
    ensures r.Some? <==> Admitted(old(stats.diskUsage), e).Some?
    ensures r.Some? ==> fresh(Object(r.value)) && Looks(r.value, Admitted(old(stats.diskUsage), e).value, stats)
    ensures forall i :: 0 <= i < |storages| ==> Looks(storages[i], bodies[i], stats)
    ensures stats.onDisk ==
            if r.Some? && r.value.Disk? then old(stats.onDisk)[r.value.d := |Shape(r.value).content|]
            else old(stats.onDisk)
    ensures stats.inMemory ==
            if r.Some? && r.value.Memory? then old(stats.inMemory)[r.value.m := |Shape(r.value).content|]
            else old(stats.inMemory)
  {
    r := Make(e, stats);
    forall i | 0 <= i < |storages| ensures Looks(storages[i], bodies[i], stats) {
      assert old(Looks(storages[i], bodies[i], stats));
    }
  }

  /** The counters after a creation. */
  method MakeOne(storages: seq<Storage>, e: Event, stats: CacheStats, ghost bodies: seq<Body>)
    returns (next: seq<Storage>)
    requires Mirrors(storages, bodies, stats) && !e.Use?
    modifies stats
    ensures Mirrors(next, Next(bodies, e), stats)
    ensures storages <= next && forall i :: |storages| <= i < |next| ==> fresh(Object(next[i]))
  {
    ghost var disk, memory, b := stats.onDisk, stats.inMemory, Admitted(stats.diskUsage, e);
    var r := MakeAmong(storages, e, stats, bodies);
    if r.None? { return storages; }
    next := storages + [r.value];
    TallyJoined(disk, Object(r.value), bodies, b.value, true);
    TallyJoined(memory, Object(r.value), bodies, b.value, false);
  }

  method Handle(storages: seq<Storage>, e: Event, stats: CacheStats, ghost bodies: seq<Body>)
    returns (next: seq<Storage>, outs: seq<Out>)
    requires Mirrors(storages, bodies, stats)
    modifies stats, set s | s in storages :: Object(s)
    ensures Mirrors(next, Next(bodies, e), stats) && outs == Reply(bodies, e)
    ensures storages <= next && forall i :: |storages| <= i < |next| ==> fresh(Object(next[i]))
  {
    next, outs := storages, [];
    if !e.Use? {
      next := MakeOne(storages, e, stats, bodies);
    } else if e.k < |storages| {
      var out := UseOne(storages, e.k, e.op, stats, bodies);
      outs := [out];
    }
  }

  method HandleAll(storages: seq<Storage>, events: seq<Event>, stats: CacheStats, ghost bodies: seq<Body>)
    returns (next: seq<Storage>, outs: seq<Out>)
    requires Mirrors(storages, bodies, stats)
    modifies stats, set s | s in storages :: Object(s)
    ensures Mirrors(next, Run(bodies, events), stats) && outs == Answers(bodies, events)
    decreases events
  {
    if events == [] { return storages, []; }
    var mid, reply := Handle(storages, events[0], stats, bodies);
    var rest;
    next, rest := HandleAll(mid, events[1..], stats, Next(bodies, events[0]));
    outs := reply + rest;
  }

  /** Any client: whatever bodies are created, used and closed, in whatever order and however
      often, every storage answers as its own stream, and the counters are always the number
      and the byte sum of the open storages. */
  method Serve(events: seq<Event>) returns (storages: seq<Storage>, stats: CacheStats, outs: seq<Out>)
    ensures Mirrors(storages, Run([], events), stats) && outs == Answers([], events)
  {
    stats := new CacheStats();
    storages, outs := HandleAll([], events, stats, []);
  }

  // ---------- what follows for every run ----------

  predicate Within(bodies: seq<Body>, config: Config) { Held(bodies, true) <= config.maxSizeMB * MB }

  predicate Under(e: Event, config: Config) { e.Use? || e.config == config }

  /** A body longer than announced, but not too long to be accepted, is streamed to disk although
      only the announced length was checked against the maximum. */
  predicate Overruns(e: Event) {
    && e.Receive? && e.streamOk
    && 0 < e.contentLength < |e.input| <= e.maxBytes
    && GoesToDisk(e.config, 0, e.contentLength)
  }

  /** Whatever else is admitted to disk fits. */
  lemma AdmissionFits(usage: nat, e: Event)
    requires !Overruns(e) && !e.Use? && Admitted(usage, e).Some? && Admitted(usage, e).value.onDisk
    ensures usage + |Admitted(usage, e).value.stream.content| <= e.config.maxSizeMB * MB
  {
  }

  lemma StepStaysWithin(bodies: seq<Body>, e: Event, config: Config)
    requires Under(e, config) && !Overruns(e) && Within(bodies, config)
    ensures Within(Next(bodies, e), config)
  {
    var usage := Held(bodies, true);
    if e.Use? {
      UseStaysWithin(bodies, e.k, e.op, config);
    } else if Admitted(usage, e).Some? {
      OneMore(bodies, Admitted(usage, e).value, true);
      if Admitted(usage, e).value.onDisk { AdmissionFits(usage, e); }
    }
  }

  lemma UseStaysWithin(bodies: seq<Body>, k: nat, op: Op, config: Config)
    requires Within(bodies, config)
    ensures Within(Next(bodies, Use(k, op)), config)
  {
    if k < |bodies| {
      OneChanged(bodies, k, Next(bodies, Use(k, op))[k], true);
      ContentStays(bodies[k], op);
    }
  }

  /** n bytes on disk. */
  function Filled(n: nat): Body { Body(true, Stream(seq(n, _ => 0), 0, false)) }

  lemma FilledHolds(n: nat)
    ensures Held([Filled(n)], true) == n
  {
    assert [] + [Filled(n)] == [Filled(n)];
    OneMore([], Filled(n), true);
  }

  lemma OverrunIsAdmitted(usage: nat, e: Event)
    requires Overruns(e) && usage + e.contentLength <= e.config.maxSizeMB * MB
    ensures Admitted(usage, e) == Some(Body(true, Stream(e.input, 0, false)))
  {
  }

  /** With just enough bytes on disk an overrunning event exceeds the maximum. */
  lemma OverrunExceeds(e: Event) returns (bodies: seq<Body>)
    requires Overruns(e)
    ensures Within(bodies, e.config) && !Within(Next(bodies, e), e.config)
  {
    var n := e.config.maxSizeMB * MB - e.contentLength;
    bodies := [Filled(n)];
    FilledHolds(n);
    OverrunIsAdmitted(n, e);
    OneMore(bodies, Body(true, Stream(e.input, 0, false)), true);
  }

  lemma {:induction false} RunStaysWithin(bodies: seq<Body>, events: seq<Event>, config: Config)
    requires Within(bodies, config)
    requires forall i :: 0 <= i < |events| ==> Under(events[i], config) && !Overruns(events[i])
    ensures Within(Run(bodies, events), config)
    decreases events
  {
    if events != [] {
      StepStaysWithin(bodies, events[0], config);
      RunStaysWithin(Next(bodies, events[0]), events[1..], config);
    }
  }

  /** Every run from within the maximum ends within it. */
  ghost predicate AllRunsStayWithin(allowed: iset<Event>, config: Config) {
    forall bodies, events ::
      Within(bodies, config) && (forall i :: 0 <= i < |events| ==> events[i] in allowed)
      ==> Within(Run(bodies, events), config)
  }

  /** Whatever events may occur under one configuration, in whatever order: no run exceeds the
      configured maximum of disk usage if and only if none of these events overruns. */
  lemma RunsStayWithinIff(allowed: iset<Event>, config: Config)
    requires forall e :: e in allowed ==> Under(e, config)
    ensures AllRunsStayWithin(allowed, config) <==> forall e :: e in allowed ==> !Overruns(e)
  {
    if e :| e in allowed && Overruns(e) {
      var bodies := OverrunExceeds(e);
      assert [e][1..] == [] && Run(Next(bodies, e), []) == Next(bodies, e);
      assert !Within(Run(bodies, [e]), config);
    } else if !AllRunsStayWithin(allowed, config) {
      var bodies, events :|
        Within(bodies, config) && (forall i :: 0 <= i < |events| ==> events[i] in allowed) &&
        !Within(Run(bodies, events), config);
      RunStaysWithin(bodies, events, config);
    }
  }

  /** Announced lengths that are not too short are enough. */
  predicate Honest(e: Event) { e.Receive? ==> |e.input| <= e.contentLength }

  lemma HonestNeverOverruns(e: Event)
    requires Honest(e)
    ensures !Overruns(e)
  {
  }

  /** One body longer than announced is enough to exceed it. */
  lemma ShortAnnouncementExceeds(input: Bytes, maxBytes: int)
    requires MB < |input| <= maxBytes
    ensures Held(Run([], [Receive(input, MB, maxBytes, Config(true, 0, 1), true, true)]), true) > 1 * MB
  {
    var e := Receive(input, MB, maxBytes, Config(true, 0, 1), true, true);
    assert [e][1..] == [] && Run(Next([], e), []) == Next([], e);
    OneMore([], Admitted(0, e).value, true);
  }

  /** The operations addressed to body k. */
  function Addressed(events: seq<Event>, k: nat): seq<Op>
    decreases events
  {
    if events == [] then []
    else (if events[0].Use? && events[0].k == k then [events[0].op] else []) + Addressed(events[1..], k)
  }

  /** Bodies do not disturb each other: after any run each is where its own operations brought it. */
  lemma {:induction false} BodiesAreSeparate(bodies: seq<Body>, events: seq<Event>, k: nat)
    requires k < |bodies|
    ensures |bodies| <= |Run(bodies, events)|
    ensures Run(bodies, events)[k].onDisk == bodies[k].onDisk
    ensures var ops := Addressed(events, k);
      Run(bodies, events)[k].stream ==
        if bodies[k].onDisk then RunDisk(bodies[k].stream, ops).0
        else RunMemory(bodies[k].stream, ops).0
    decreases events
  {
    if events != [] {
      var next := Next(bodies, events[0]);
      BodiesAreSeparate(next, events[1..], k);
      if events[0].Use? && events[0].k == k {
        assert Addressed(events, k)[1..] == Addressed(events[1..], k);
      } else {
        assert next[k] == bodies[k] && Addressed(events, k) == Addressed(events[1..], k);
      }
    }
  }

  /** When every body is closed both pairs of counters are back at zero. */
  lemma {:induction false} AllClosedIsZero(bodies: seq<Body>, onDisk: bool)
    requires forall i :: 0 <= i < |bodies| ==> bodies[i].stream.closed
    ensures Open(bodies, onDisk) == 0 && Held(bodies, onDisk) == 0
  {
    if bodies != [] { AllClosedIsZero(bodies[..|bodies| - 1], onDisk); }
  }
}
