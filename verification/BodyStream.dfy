/** What a request body looks like to its reader, and how each backend of
    common/body_storage.go answers every operation. */
module BodyStream {

  type Bytes = seq<bv8>

  /** The abstract object: its content, the read position, and whether it was closed. */
  datatype Stream = Stream(content: Bytes, pos: nat, closed: bool)

  datatype Op = Read(n: nat) | Seek(offset: int, whence: int) | GetBytes | Close

  datatype Out = Data(bytes: Bytes) | Eof | At(pos: nat) | Done | ClosedError | SeekError

  /** The next n bytes, fewer at the end. */
  function Chunk(s: Stream, n: nat): Bytes {
    if s.pos >= |s.content| then []
    else s.content[s.pos..if s.pos + n <= |s.content| then s.pos + n else |s.content|]
  }

  /** io.Seeker: from the start, the current position or the end. */
  function Target(s: Stream, offset: int, whence: int): int {
    if whence == 0 then offset else if whence == 1 then s.pos + offset else |s.content| + offset
  }

  function DoSeek(s: Stream, offset: int, whence: int): (Stream, Out) {
    if whence < 0 || whence > 2 || Target(s, offset, whence) < 0 then (s, SeekError)
    else (s.(pos := Target(s, offset, whence)), At(Target(s, offset, whence)))
  }

  /** bytes.Reader: end of file is reported first, even to an empty buffer. */
  function MemoryDo(s: Stream, op: Op): (Stream, Out) {
    if op.Close? then (s.(closed := true), Done) else if s.closed then (s, ClosedError) else
    match op
    case Read(n) =>
      if s.pos >= |s.content| then (s, Eof) else (s.(pos := s.pos + |Chunk(s, n)|), Data(Chunk(s, n)))
    case Seek(offset, whence) => DoSeek(s, offset, whence)
    case GetBytes => (s, Data(s.content))
  }

  /** os.File: an empty buffer is filled at once; the whole content is read by seeking to the
      start, reading everything and seeking back. */
  function DiskDo(s: Stream, op: Op): (Stream, Out) {
    if op.Close? then (s.(closed := true), Done) else if s.closed then (s, ClosedError) else
    match op
    case Read(n) =>
      if n > 0 && s.pos >= |s.content| then (s, Eof) else (s.(pos := s.pos + |Chunk(s, n)|), Data(Chunk(s, n)))
    case Seek(offset, whence) => DoSeek(s, offset, whence)
    case GetBytes =>
      var (s1, here) := DoSeek(s, 0, 1);
      var (s2, _) := DoSeek(s1, 0, 0);
      var all := Chunk(s2, |s2.content|);
      var (s3, _) := DoSeek(s2.(pos := |all|), s.pos, 0);
      (s3, Data(all))
  }

  /** An empty buffer offered at or past the end of an open body. */
  predicate EmptyReadAtEnd(s: Stream, op: Op) { !s.closed && op == Read(0) && s.pos >= |s.content| }

  /** The two backends give the same answer and reach the same state in every situation but one. */
  lemma BackendsAgreeIff(s: Stream, op: Op)
    ensures MemoryDo(s, op) == DiskDo(s, op) <==> !EmptyReadAtEnd(s, op)
    ensures MemoryDo(s, op).0 == DiskDo(s, op).0
  {
    if op.GetBytes? && !s.closed { assert s.content[0..|s.content|] == s.content; }
  }

  /** Fetching the whole content returns it and leaves the position alone, on either backend. */
  lemma BytesKeepsPosition(s: Stream)
    requires !s.closed
    ensures MemoryDo(s, GetBytes) == DiskDo(s, GetBytes) == (s, Data(s.content))
  {
    BackendsAgreeIff(s, GetBytes);
  }

  function RunMemory(s: Stream, ops: seq<Op>): (Stream, seq<Out>)
    decreases ops
  {
    if ops == [] then (s, []) else
    var (s1, out) := MemoryDo(s, ops[0]);
    var (s2, outs) := RunMemory(s1, ops[1..]);
    (s2, [out] + outs)
  }

  function RunDisk(s: Stream, ops: seq<Op>): (Stream, seq<Out>)
    decreases ops
  {
    if ops == [] then (s, []) else
    var (s1, out) := DiskDo(s, ops[0]);
    var (s2, outs) := RunDisk(s1, ops[1..]);
    (s2, [out] + outs)
  }

  /** A reader that never offers an empty buffer cannot tell the backends apart, over any
      sequence of reads, seeks, whole-content requests and closes. */
  lemma {:induction false} BackendsIndistinguishable(s: Stream, ops: seq<Op>)
    requires forall i :: 0 <= i < |ops| ==> ops[i] != Read(0)
    ensures RunMemory(s, ops) == RunDisk(s, ops)
    decreases ops
  {
    if ops != [] {
      BackendsAgreeIff(s, ops[0]);
      BackendsIndistinguishable(MemoryDo(s, ops[0]).0, ops[1..]);
    }
  }

  // ---------- what the answers are, in bytes and positions ----------

  function Do(s: Stream, op: Op, onDisk: bool): (Stream, Out) { if onDisk then DiskDo(s, op) else MemoryDo(s, op) }

  /** A read answers the next n bytes of the content, or all that is left of it, and moves past
      them; at the end it reports the end, except that an empty buffer is filled on disk. */
  lemma ReadAnswers(s: Stream, n: nat, onDisk: bool)
    requires !s.closed
    ensures s.pos + n <= |s.content| && (n > 0 || s.pos < |s.content|) ==>
              Do(s, Read(n), onDisk) == (Stream(s.content, s.pos + n, false), Data(s.content[s.pos..s.pos + n]))
    ensures s.pos < |s.content| < s.pos + n ==>
              Do(s, Read(n), onDisk) == (Stream(s.content, |s.content|, false), Data(s.content[s.pos..]))
    ensures s.pos >= |s.content| ==>
              Do(s, Read(n), onDisk) == (s, if onDisk && n == 0 then Data([]) else Eof)
  {
    if s.pos < |s.content| {
      assert s.content[s.pos..|s.content|] == s.content[s.pos..];
      if s.pos + n <= |s.content| { assert |s.content[s.pos..s.pos + n]| == n; }
    }
  }

  /** A seek answers where it went, counted from the start, the position or the end, and goes
      nowhere before the start or from anywhere else. */
  lemma SeekAnswers(s: Stream, offset: int, onDisk: bool)
    requires !s.closed
    ensures Do(s, Seek(offset, 0), onDisk) ==
            if offset < 0 then (s, SeekError) else (Stream(s.content, offset, false), At(offset))
    ensures Do(s, Seek(offset, 1), onDisk) ==
            if s.pos + offset < 0 then (s, SeekError)
            else (Stream(s.content, s.pos + offset, false), At(s.pos + offset))
    ensures Do(s, Seek(offset, 2), onDisk) ==
            if |s.content| + offset < 0 then (s, SeekError)
            else (Stream(s.content, |s.content| + offset, false), At(|s.content| + offset))
    ensures forall whence :: whence !in {0, 1, 2} ==> Do(s, Seek(offset, whence), onDisk) == (s, SeekError)
  {
  }

  /** What a reader collects who reads in chunks of n bytes until no more come. */
  function Drain(s: Stream, n: nat, onDisk: bool): Bytes
    decreases |s.content| - s.pos
  {
    var (next, out) := Do(s, Read(n), onDisk);
    if out.Data? && out.bytes != [] then out.bytes + Drain(next, n, onDisk) else []
  }

  /** Reading to the end, whatever the buffer size and the backend, collects exactly the rest of
      the content. */
  lemma {:induction false} DrainYieldsRest(s: Stream, n: nat, onDisk: bool)
    requires n > 0 && !s.closed && s.pos <= |s.content|
    ensures Drain(s, n, onDisk) == s.content[s.pos..]
    decreases |s.content| - s.pos
  {
    ReadAnswers(s, n, onDisk);
    if s.pos < |s.content| {
      var (next, out) := Do(s, Read(n), onDisk);
      DrainYieldsRest(next, n, onDisk);
      assert s.content[s.pos..] == out.bytes + next.content[next.pos..];
    }
  }

  /** A seek lands where its origin says: reading on to the end from there collects the content
      after `offset`, after `offset` more bytes, or its last `-offset` bytes. */
  lemma SeekThenDrain(s: Stream, offset: int, whence: int, n: nat, onDisk: bool)
    requires n > 0 && !s.closed && 0 <= whence <= 2 && 0 <= Target(s, offset, whence) <= |s.content|
    ensures var rest := Drain(Do(s, Seek(offset, whence), onDisk).0, n, onDisk);
      && (whence == 0 ==> rest == s.content[offset..])
      && (whence == 1 && s.pos <= |s.content| && offset >= 0 ==> s.content[s.pos..][offset..] == rest)
      && (whence == 2 ==> |rest| == -offset && rest <= s.content[|s.content| + offset..])
  {
    DrainYieldsRest(Do(s, Seek(offset, whence), onDisk).0, n, onDisk);
  }

  /** Every operation on a closed body fails without effect, except closing again. */
  lemma ClosedStaysClosed(s: Stream, op: Op)
    requires s.closed
    ensures DiskDo(s, op) == MemoryDo(s, op) == (s, if op.Close? then Done else ClosedError)
  {
  }
}
