/** Request body storage and its usage counters: common/body_storage.go and
    common/disk_cache_config.go, run sequentially. */
module BodyStorage {
  import opened BodyStream

  // ---------- sums over open storages ----------

  ghost function Total(m: map<object, nat>): nat {
    if m == map[] then 0 else
    var k :| k in m;
    m[k] + Total(m - {k})
  }

  lemma {:induction false} TotalWithout(m: map<object, nat>, k: object)
    requires k in m
    ensures Total(m) == m[k] + Total(m - {k})
    decreases |m|
  {
    var j :| j in m && Total(m) == m[j] + Total(m - {j});
    if j != k {
      TotalWithout(m - {j}, k);
      TotalWithout(m - {k}, j);
      assert (m - {j}) - {k} == (m - {k}) - {j};
    }
  }

  lemma TotalWith(m: map<object, nat>, k: object, n: nat)
    requires k !in m
    ensures Total(m[k := n]) == Total(m) + n && |m[k := n]| == |m| + 1
  {
    TotalWithout(m[k := n], k);
    assert m[k := n] - {k} == m;
  }

  lemma SizeWithout(m: map<object, nat>, k: object)
    requires k in m
    ensures |m - {k}| == |m| - 1
  {
    assert (m - {k}).Keys == m.Keys - {k};
  }

  /** The cache configuration; sizes are in mebibytes. */
  datatype Config = Config(enabled: bool, thresholdMB: int, maxSizeMB: int)

  const MB := 1048576

  /** IsDiskCacheAvailable, together with the threshold test of the two creation functions. */
  predicate GoesToDisk(config: Config, usage: int, size: int) {
    config.enabled && size >= config.thresholdMB * MB && usage + size <= config.maxSizeMB * MB
  }

  /** The process-wide counters.  `onDisk` and `inMemory` are the open storages with their
      sizes; `clamped` records that a decrement was cut off at zero. */
  class CacheStats {
    var activeDiskFiles: int
    var diskUsage: int
    var activeMemoryBuffers: int
    var memoryUsage: int
    var diskHits: int
    var memoryHits: int
    ghost var onDisk: map<object, nat>
    ghost var inMemory: map<object, nat>
    ghost var clamped: bool

    /** Counters equal the number and the byte sum of the open storages. */
    ghost predicate Valid()
      reads this
    {
      && activeDiskFiles == |onDisk| && diskUsage == Total(onDisk)
      && activeMemoryBuffers == |inMemory| && memoryUsage == Total(inMemory)
      && !clamped
    }

    constructor ()
      ensures Valid() && onDisk == map[] && inMemory == map[] && diskHits == 0 && memoryHits == 0
    {
      activeDiskFiles, diskUsage, activeMemoryBuffers, memoryUsage, diskHits, memoryHits := 0, 0, 0, 0, 0, 0;
      onDisk, inMemory, clamped := map[], map[], false;
    }

    method IncrementDiskFiles(size: nat, ghost who: object)
      requires Valid() && who !in onDisk
      modifies this`activeDiskFiles, this`diskUsage, this`onDisk
      ensures Valid() && onDisk == old(onDisk)[who := size]
    {
      TotalWith(onDisk, who, size);
      activeDiskFiles := activeDiskFiles + 1;
      diskUsage := diskUsage + size;
      onDisk := onDisk[who := size];
    }

    /** The source clamps both counters at zero. */
    method DecrementDiskFiles(size: nat, ghost who: object)
      modifies this`activeDiskFiles, this`diskUsage, this`onDisk, this`clamped
      ensures onDisk == old(onDisk) - {who}
      ensures old(Valid()) && who in old(onDisk) && old(onDisk)[who] == size ==> Valid()
    {
      if who in onDisk { TotalWithout(onDisk, who); SizeWithout(onDisk, who); }
      activeDiskFiles := activeDiskFiles - 1;
      if activeDiskFiles < 0 { activeDiskFiles := 0; clamped := true; }
      diskUsage := diskUsage - size;
      if diskUsage < 0 { diskUsage := 0; clamped := true; }
      onDisk := onDisk - {who};
    }

    method IncrementMemoryBuffers(size: nat, ghost who: object)
      requires Valid() && who !in inMemory
      modifies this`activeMemoryBuffers, this`memoryUsage, this`inMemory
      ensures Valid() && inMemory == old(inMemory)[who := size]
    {
      TotalWith(inMemory, who, size);
      activeMemoryBuffers := activeMemoryBuffers + 1;
      memoryUsage := memoryUsage + size;
      inMemory := inMemory[who := size];
    }

    method DecrementMemoryBuffers(size: nat, ghost who: object)
      requires Valid() && who in inMemory && inMemory[who] == size
      modifies this`activeMemoryBuffers, this`memoryUsage, this`inMemory
      ensures Valid() && inMemory == old(inMemory) - {who}
    {
      TotalWithout(inMemory, who);
      SizeWithout(inMemory, who);
      activeMemoryBuffers := activeMemoryBuffers - 1;
      memoryUsage := memoryUsage - size;
      inMemory := inMemory - {who};
    }
  }

  class MemoryStorage {
    const data: Bytes
    const size: nat
    const stats: CacheStats
    var pos: nat
    var closed: bool

    function AsStream(): Stream
      reads this
    {
      Stream(data, pos, closed)
    }

    /** An open storage is counted, with its size; a closed one is not. */
    ghost predicate Valid()
      reads this, stats
    {
      size == |data| && (closed <==> this !in stats.inMemory) && (!closed ==> stats.inMemory[this] == size)
    }

    constructor (data: Bytes, stats: CacheStats)
      requires stats.Valid()
      modifies stats`activeMemoryBuffers, stats`memoryUsage, stats`inMemory
      ensures Valid() && stats.Valid() && this.stats == stats && AsStream() == Stream(data, 0, false)
      ensures this !in old(stats.inMemory) && stats.inMemory == old(stats.inMemory)[this := |data|]
    {
      this.data, this.size, this.stats, this.pos, this.closed := data, |data|, stats, 0, false;
      new;
      stats.IncrementMemoryBuffers(|data|, this);
    }

    method Read(n: nat) returns (out: Out)
      modifies this`pos
      ensures (AsStream(), out) == MemoryDo(old(AsStream()), Op.Read(n))
    {
      if closed { return ClosedError; }
      if pos >= |data| { return Eof; }
      var count := if n < |data| - pos then n else |data| - pos;
      out := Data(data[pos..pos + count]);
      pos := pos + count;
    }

    method Seek(offset: int, whence: int) returns (out: Out)
      modifies this`pos
      ensures (AsStream(), out) == MemoryDo(old(AsStream()), Op.Seek(offset, whence))
    {
      if closed { return ClosedError; }
      if whence < 0 || whence > 2 { return SeekError; }
      var target := if whence == 0 then offset else if whence == 1 then pos + offset else |data| + offset;
      if target < 0 { return SeekError; }
      pos := target;
      return At(target);
    }

    method Fetch() returns (out: Out)
      ensures (AsStream(), out) == MemoryDo(AsStream(), GetBytes)
    {
      return if closed then ClosedError else Data(data);
    }

    /** Closing again is allowed and counts once. */
    method Close()
      requires Valid() && stats.Valid()
      modifies this`closed, stats`activeMemoryBuffers, stats`memoryUsage, stats`inMemory
      ensures Valid() && stats.Valid()
      ensures (AsStream(), Done) == MemoryDo(old(AsStream()), Op.Close)
      ensures stats.inMemory == old(stats.inMemory) - {this}
    {
      if !closed {
        closed := true;
        stats.DecrementMemoryBuffers(size, this);
      }
    }
  }

  class DiskStorage {
    var file: Bytes
    var offset: nat
    const size: nat
    const stats: CacheStats
    var closed: bool

    function AsStream(): Stream
      reads this
    {
      Stream(file, offset, closed)
    }

    ghost predicate Valid()
      reads this, stats
    {
      size == |file| && (closed <==> this !in stats.onDisk) && (!closed ==> stats.onDisk[this] == size)
    }

    constructor (data: Bytes, stats: CacheStats)
      requires stats.Valid()
      modifies stats`activeDiskFiles, stats`diskUsage, stats`onDisk
      ensures Valid() && stats.Valid() && this.stats == stats && AsStream() == Stream(data, 0, false)
      ensures this !in old(stats.onDisk) && stats.onDisk == old(stats.onDisk)[this := |data|]
    {
      this.file, this.offset, this.size, this.stats, this.closed := data, 0, |data|, stats, false;
      new;
      stats.IncrementDiskFiles(|data|, this);
    }

    method Read(n: nat) returns (out: Out)
      modifies this`offset
      ensures (AsStream(), out) == DiskDo(old(AsStream()), Op.Read(n))
    {
      if closed { return ClosedError; }
      if n > 0 && offset >= |file| { return Eof; }
      var count := if offset >= |file| then 0 else if n < |file| - offset then n else |file| - offset;
      out := if offset >= |file| then Data([]) else Data(file[offset..offset + count]);
      offset := offset + count;
    }

    method Seek(to: int, whence: int) returns (out: Out)
      modifies this`offset
      ensures (AsStream(), out) == DiskDo(old(AsStream()), Op.Seek(to, whence))
    {
      if closed { return ClosedError; }
      if whence < 0 || whence > 2 { return SeekError; }
      var target := if whence == 0 then to else if whence == 1 then offset + to else |file| + to;
      if target < 0 { return SeekError; }
      offset := target;
      return At(target);
    }

    /** Remember the position, read `size` bytes from the start, go back. */
    method Fetch() returns (out: Out)
      requires Valid()
      modifies this`offset
      ensures (AsStream(), out) == DiskDo(old(AsStream()), GetBytes)
    {
      if closed { return ClosedError; }
      var currentPos := offset;
      offset := 0;
      var data := file[offset..offset + size];
      offset := offset + |data|;
      offset := currentPos;
      assert file[0..|file|] == file;
      return Data(data);
    }

    method Close()
      requires Valid() && stats.Valid()
      modifies this`closed, stats`activeDiskFiles, stats`diskUsage, stats`onDisk, stats`clamped
      ensures Valid() && stats.Valid()
      ensures (AsStream(), Done) == DiskDo(old(AsStream()), Op.Close)
      ensures stats.onDisk == old(stats.onDisk) - {this}
    {
      if !closed {
        closed := true;
        stats.DecrementDiskFiles(size, this);
      }
    }
  }

  // ---------- creation ----------

  datatype Storage = Memory(m: MemoryStorage) | Disk(d: DiskStorage)

  ghost function Object(s: Storage): object { if s.Memory? then s.m else s.d }

  function Shape(s: Storage): Stream
    reads Object(s)
  {
    if s.Memory? then s.m.AsStream() else s.d.AsStream()
  }

  ghost predicate Sound(s: Storage, stats: CacheStats)
    reads stats, Object(s)
  {
    if s.Memory? then s.m.stats == stats && s.m.Valid() else s.d.stats == stats && s.d.Valid()
  }

  /** `diskOk` is false when the cache file cannot be created, written or rewound; the data is
      then kept in memory. */
  method CreateBodyStorage(data: Bytes, config: Config, stats: CacheStats, diskOk: bool) returns (s: Storage)
    requires stats.Valid()
    modifies stats`activeDiskFiles, stats`diskUsage, stats`onDisk,
             stats`activeMemoryBuffers, stats`memoryUsage, stats`inMemory
    ensures stats.Valid() && Sound(s, stats) && Shape(s) == Stream(data, 0, false)
    ensures s.Disk? <==>
              && config.enabled && |data| >= config.thresholdMB * 1048576
              && old(stats.diskUsage) + |data| <= config.maxSizeMB * 1048576 && diskOk
    ensures s.Disk? ==>
        fresh(s.d) && stats.onDisk == old(stats.onDisk)[s.d := |data|] && stats.inMemory == old(stats.inMemory)
    ensures s.Memory? ==>
        fresh(s.m) && stats.inMemory == old(stats.inMemory)[s.m := |data|] && stats.onDisk == old(stats.onDisk)
    ensures s.Disk? ==> stats.diskUsage == old(stats.diskUsage) + |data| <= config.maxSizeMB * 1048576
    ensures s.Memory? ==> stats.diskUsage == old(stats.diskUsage)
  {
    if GoesToDisk(config, stats.diskUsage, |data|) && diskOk {
      ghost var before := stats.onDisk;
      var d := new DiskStorage(data, stats);
      TotalWith(before, d, |data|);
      return Disk(d);
    }
    var m := new MemoryStorage(data, stats);
    return Memory(m);
  }

  datatype Created = Ok(s: Storage) | TooLarge | Failed

  function Limit(input: Bytes, maxBytes: int): Bytes {
    if maxBytes + 1 <= 0 then [] else if maxBytes + 1 < |input| then input[..maxBytes + 1] else input
  }

  /** Creation from a reader holding `input` whose length was announced as `contentLength`.
      At most maxBytes + 1 bytes are ever taken from the reader. */
  method CreateFromReader(input: Bytes, contentLength: int, maxBytes: int, config: Config, stats: CacheStats,
                          streamOk: bool, diskOk: bool)
    returns (r: Created)
    requires stats.Valid()
    modifies stats
    ensures stats.Valid()
    ensures var direct := contentLength > 0 && GoesToDisk(config, old(stats.diskUsage), contentLength);
      && (direct && !streamOk ==> r == Failed)
      && (!(direct && !streamOk) ==> (r.Ok? <==> |input| <= maxBytes) && (!r.Ok? ==> r == TooLarge))
      && (r.Ok? && direct ==> r.s.Disk? && stats.diskUsage == old(stats.diskUsage) + |input|)
      && (r.Ok? && !direct ==> (r.s.Disk? <==> GoesToDisk(config, old(stats.diskUsage), |input|) && diskOk))
      && (r.Ok? && r.s.Disk? && (direct ==> |input| <= contentLength) ==>
            stats.diskUsage <= config.maxSizeMB * 1048576)
    ensures r.Ok? ==> Sound(r.s, stats) && Shape(r.s) == Stream(input, 0, false) && fresh(Object(r.s))
    ensures r.Ok? && r.s.Disk? ==>
        stats.onDisk == old(stats.onDisk)[r.s.d := |input|] && stats.inMemory == old(stats.inMemory)
    ensures r.Ok? && r.s.Memory? ==>
        stats.inMemory == old(stats.inMemory)[r.s.m := |input|] && stats.onDisk == old(stats.onDisk)
    ensures !r.Ok? ==> stats.onDisk == old(stats.onDisk) && stats.inMemory == old(stats.inMemory)
    ensures stats.diskHits - old(stats.diskHits) == (if r.Ok? && r.s.Disk? then 1 else 0)
    ensures stats.memoryHits - old(stats.memoryHits) == (if r.Ok? && r.s.Memory? then 1 else 0)
  {
    if contentLength > 0 && GoesToDisk(config, stats.diskUsage, contentLength) {
      if !streamOk { return Failed; }
      var written := Limit(input, maxBytes);
      if |written| > maxBytes { return TooLarge; }
      ghost var before := stats.onDisk;
      var d := new DiskStorage(written, stats);
      TotalWith(before, d, |written|);
      stats.diskHits := stats.diskHits + 1;
      return Ok(Disk(d));
    }
    var data := Limit(input, maxBytes);
    if |data| > maxBytes { return TooLarge; }
    var s := CreateBodyStorage(data, config, stats, diskOk);
    if s.Memory? { stats.memoryHits := stats.memoryHits + 1; } else { stats.diskHits := stats.diskHits + 1; }
    return Ok(s);
  }
}
