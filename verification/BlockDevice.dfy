/** The paravirtual block device: a read-only base image under a sparse overlay of clusters
    (crates/dh-devices/src/blk.rs, the guest-memory contract of ctx.rs). */
module BlockDevice {
  import opened Common
  import opened Bytes

  // Sectors have 512 bytes and clusters 65536; the sizes are written out where they multiply or divide.

  const CLUSTER_SIZE: nat := 65536

  const CMD_READ: u32 := 1
  const CMD_WRITE: u32 := 2
  const CMD_FLUSH: u32 := 3

  const STATUS_OK: u32 := 0
  const STATUS_BAD_REQUEST: u32 := 1
  const STATUS_MEM_FAULT: u32 := 2
  const STATUS_HOST_IO: u32 := 0xFE

  type Cluster = b: bytes | |b| == CLUSTER_SIZE witness Zeros(CLUSTER_SIZE)

  type Image = b: bytes | |b| <= U64_MAX witness []

  type Overlay = map<u64, Cluster>

  // ---- the flat disk that the guest sees --------------------------------------------

  function BaseByte(base: Image, i: nat): byte
  {
    if i < |base| then base[i] else 0
  }

  function ByteAt(base: Image, overlay: Overlay, i: nat): byte
  {
    if i / 65536 in overlay then overlay[i / 65536][i % 65536] else BaseByte(base, i)
  }

  /** The addressable part of the image: whole sectors. */
  function Size(base: Image): (n: nat)
    ensures n <= |base| && n % 512 == 0
  {
    |base| / 512 * 512
  }

  function FlatPrefix(base: Image, overlay: Overlay, n: nat): (f: bytes)
    ensures |f| == n
  {
    if n == 0 then [] else FlatPrefix(base, overlay, n - 1) + [ByteAt(base, overlay, n - 1)]
  }

  /** Stated by recursion and read through `FlatAt`, so that division stays out of the loops below. */
  function Flat(base: Image, overlay: Overlay): (f: bytes)
    ensures |f| == Size(base)
  {
    FlatPrefix(base, overlay, Size(base))
  }

  lemma {:induction false} FlatPrefixAt(base: Image, overlay: Overlay, n: nat, i: nat)
    requires i < n
    ensures FlatPrefix(base, overlay, n)[i] == ByteAt(base, overlay, i)
  {
    if i < n - 1 { FlatPrefixAt(base, overlay, n - 1, i); }
  }

  /** The flat disk, byte by byte. */
  lemma FlatAt(base: Image, overlay: Overlay)
    ensures forall i :: 0 <= i < Size(base) ==> Flat(base, overlay)[i] == ByteAt(base, overlay, i)
  {
    forall i | 0 <= i < Size(base) ensures Flat(base, overlay)[i] == ByteAt(base, overlay, i) {
      FlatPrefixAt(base, overlay, Size(base), i);
    }
  }

  /** `b` is `a` with `n` bytes of `src` from `off` on copied to `at`. */
  predicate Copied(a: bytes, b: bytes, at: nat, src: bytes, off: nat, n: nat)
  {
    && |b| == |a| && (n > 0 ==> at + n <= |a| && off + n <= |src|)
    && forall i :: 0 <= i < |a| ==> b[i] == if at <= i < at + n then src[off + (i - at)] else a[i]
  }

  lemma CopiedMore(a: bytes, b: bytes, d: bytes, at: nat, src: bytes, off: nat, n: nat, k: nat)
    requires Copied(a, b, at, src, off, n) && Copied(b, d, at + n, src, off + n, k)
    ensures Copied(a, d, at, src, off, n + k)
  {}

  lemma CopiedUnique(a: bytes, b: bytes, d: bytes, at: nat, src: bytes, off: nat, n: nat)
    requires Copied(a, b, at, src, off, n) && Copied(a, d, at, src, off, n)
    ensures b == d
  {}

  // ---- chunks -------------------------------------------------------------------------

  /** The first part of `rest` bytes at `at` that stays in one cluster. */
  function ChunkLen(at: nat, rest: nat): (t: nat)
    ensures t <= rest && (rest > 0 ==> InCluster(at, t))
    ensures t < rest ==> (at + t) % 65536 == 0
  {
    Min(rest, CLUSTER_SIZE - at % 65536)
  }

  /** A run of bytes within one cluster. */
  predicate InCluster(off: nat, t: nat)
  {
    0 < t && off % 65536 + t <= CLUSTER_SIZE
  }

  /** How a request ends: the bytes done and the status. */
  datatype Completion = Completion(done: nat, status: u32)

  function ChunkFault(hostFails: bool, fits: bool): Option<u32>
  {
    if hostFails then Some(STATUS_HOST_IO) else if !fits then Some(STATUS_MEM_FAULT) else None
  }

  /** The chunks of a request, each with its length and whether the host cannot read it. */
  datatype Chunks = Nil | Cons(len: nat, host: bool, rest: Chunks)

  /** The chunks of `n` bytes at `at`: each ends where its cluster does. `host` holds the addresses at
      which the host cannot read its image. */
  predicate IsChunking(cs: Chunks, host: set<nat>, at: nat, n: nat)
  {
    match cs
    case Nil => n == 0
    case Cons(len, bad, rest) =>
      n > 0 && len == ChunkLen(at, n) && bad == (at in host) && IsChunking(rest, host, at + len, n - len)
  }

  function ChunksOf(host: set<nat>, at: nat, n: nat): (cs: Chunks)
    ensures IsChunking(cs, host, at, n)
    decreases n
  {
    if n == 0 then Nil else Cons(ChunkLen(at, n), at in host, ChunksOf(host, at + ChunkLen(at, n), n - ChunkLen(at, n)))
  }

  function After(c: nat, r: Completion): Completion
  {
    Completion(c + r.done, r.status)
  }

  /** A transfer between these chunks and the guest's buffer at `gpa`, up to the first fault. */
  function Transfer(cs: Chunks, gpa: nat, memLen: nat): (r: Completion)
    ensures r.done > 0 ==> gpa + r.done <= memLen
  {
    match cs
    case Nil => Completion(0, STATUS_OK)
    case Cons(len, bad, rest) =>
      match ChunkFault(bad, gpa + len <= memLen)
      case Some(s) => Completion(0, s)
      case None =>
        var r := Transfer(rest, gpa + len, memLen);
        Completion(len + r.done, r.status)
  }

  /** The chunks of a request at `at` start there and at every cluster. */
  predicate ChunkStart(at: nat, a: nat)
  {
    a == at || a % 65536 == 0
  }

  /** What is wrong with the chunk at the address `a` of a request that ends at `end`, the guest's buffer
      being `shift` away from the disk address. */
  function FaultAt(host: set<nat>, memLen: nat, shift: int, end: nat, a: nat): Option<u32>
    requires a < end
  {
    ChunkFault(a in host, a + ChunkLen(a, end - a) + shift <= memLen)
  }

  /** A request stops at its first faulting chunk, and at none if no chunk faults. */
  lemma {:induction false} StopsAtFirst(cs: Chunks, host: set<nat>, memLen: nat, at: nat, gpa: nat, n: nat, a: nat)
    requires IsChunking(cs, host, at, n) && at <= a < at + n && ChunkStart(at, a)
    ensures var r := Transfer(cs, gpa, memLen);
            var stop, fault := at + r.done, FaultAt(host, memLen, gpa - at, at + n, a);
            && (a < stop ==> fault.None?)
            && (a == stop ==> fault == Some(r.status))
            && (r.done < n ==> ChunkStart(at, stop))
            && (r.done == n ==> r.status == STATUS_OK)
  {
    var t := cs.len;
    if a < at + t { NoStartInside(at, n, a); }
    if ChunkFault(cs.host, gpa + t <= memLen).None? && t < n {
      StopsAtFirst(cs.rest, host, memLen, at + t, gpa + t, n - t, if a < at + t then at + t else a);
    }
  }

  lemma NoStartInside(at: nat, n: nat, a: nat)
    requires at <= a < at + ChunkLen(at, n) && ChunkStart(at, a)
    ensures a == at
  {
    assert a % 65536 == at % 65536 + (a - at);
  }

  // ---- what the clusters mean ------------------------------------------------------------

  lemma SameCluster(off: nat, t: nat, i: nat)
    requires InCluster(off, t) && off <= i < off + t
    ensures i / 65536 == off / 65536 && i % 65536 == off % 65536 + (i - off)
  {}

  lemma OutsideRun(off: nat, t: nat, i: nat)
    requires InCluster(off, t) && !(off <= i < off + t) && i / 65536 == off / 65536
    ensures !(off % 65536 <= i % 65536 < off % 65536 + t)
  {}

  function BaseRun(base: Image, off: nat, t: nat): (b: bytes)
    ensures |b| == t
  {
    seq<byte>(t, i requires 0 <= i < t => BaseByte(base, off + i))
  }

  /** What a chunk read returns is the flat disk's bytes. */
  lemma ReadsFlat(base: Image, overlay: Overlay, off: nat, t: nat)
    requires InCluster(off, t) && off + t <= Size(base)
    ensures var c, w := off / 65536, off % 65536;
            Flat(base, overlay)[off..off + t] == if c in overlay then overlay[c][w..w + t] else BaseRun(base, off, t)
  {
    FlatAt(base, overlay);
    var c, w := off / 65536, off % 65536;
    forall i | off <= i < off + t
      ensures ByteAt(base, overlay, i) == if c in overlay then overlay[c][w + (i - off)] else BaseByte(base, i)
    {
      SameCluster(off, t, i);
    }
  }

  /** Populating a cluster from the base is invisible. */
  lemma PopulateInvisible(base: Image, overlay: Overlay, c: u64)
    requires c !in overlay
    ensures Flat(base, overlay[c := BaseRun(base, c * 65536, CLUSTER_SIZE)]) == Flat(base, overlay)
  {
    var o := overlay[c := BaseRun(base, c * 65536, CLUSTER_SIZE)];
    forall i: nat ensures ByteAt(base, o, i) == ByteAt(base, overlay, i) {
      assert i == i / 65536 * 65536 + i % 65536;
    }
    FlatAt(base, overlay);
    FlatAt(base, o);
  }

  /** Writing within a cluster of the overlay is writing to the flat disk. */
  lemma WritesFlat(base: Image, overlay: Overlay, c: u64, x: Cluster, off: nat, src: bytes, from: nat, t: nat)
    requires InCluster(off, t) && off + t <= Size(base) && c == off / 65536 && c in overlay
    requires Copied(overlay[c], x, off % 65536, src, from, t)
    ensures Copied(Flat(base, overlay), Flat(base, overlay[c := x]), off, src, from, t)
  {
    var o := overlay[c := x];
    FlatAt(base, overlay);
    FlatAt(base, o);
    forall i | 0 <= i < Size(base)
      ensures ByteAt(base, o, i) == if off <= i < off + t then src[from + (i - off)] else ByteAt(base, overlay, i)
    {
      if off <= i < off + t {
        SameCluster(off, t, i);
      } else if i / 65536 == c {
        OutsideRun(off, t, i);
      }
    }
  }

  // ---- the flat device ---------------------------------------------------------------------

  datatype Request = Request(cmd: u32, sector: u64, bufGpa: u64, count: u32)

  /** A disk of plain bytes and the guest's memory. */
  datatype FlatState = FlatState(disk: bytes, mem: bytes)

  /** The byte range of a request: its offset and length. */
  function Range(size: nat, sector: u64, count: u32): (r: Result<(nat, nat), u32>)
    ensures r.Ok? ==> 0 < r.value.1 && r.value.0 + r.value.1 <= size
  {
    if count == 0 || (sector + count) * 512 > size then Err(STATUS_BAD_REQUEST)
    else Ok((sector * 512, count * 512))
  }

  /** One request, and how it ends. */
  ghost predicate FlatStep(st: FlatState, req: Request, host: set<nat>, st': FlatState, status: u32)
  {
    if req.cmd == CMD_FLUSH then st' == st && status == STATUS_OK
    else if req.cmd != CMD_READ && req.cmd != CMD_WRITE then st' == st && status == STATUS_BAD_REQUEST
    else match Range(|st.disk|, req.sector, req.count)
         case Err(e) => st' == st && status == e
         case Ok((off, n)) =>
           var t := Transfer(ChunksOf(host, off, n), req.bufGpa, |st.mem|);
           && status == t.status
           && if req.cmd == CMD_READ
              then st'.disk == st.disk && Copied(st.mem, st'.mem, req.bufGpa, st.disk, off, t.done)
              else st'.mem == st.mem && Copied(st.disk, st'.disk, off, st.mem, req.bufGpa, t.done)
  }

  // ---- the chunk loops -----------------------------------------------------------------------

  /** Whether the host fails at the chunk at `at`; `fails` holds the offsets at which its reads of the
      image fail this time. */
  predicate HostFails(overlay: Overlay, write: bool, fails: set<nat>, at: nat)
  {
    var cluster := at / 65536;
    cluster !in overlay && (if write then cluster * 65536 else at) in fails
  }

  function HostFaults(overlay: Overlay, write: bool, fails: set<nat>, off: nat, n: nat): set<nat>
  {
    set at | off <= at < off + n && HostFails(overlay, write, fails, at)
  }

  /** Cluster `k` holds some of the `c` bytes at `off`. */
  predicate Meets(k: nat, off: nat, c: nat)
  {
    c > 0 && k * 65536 < off + c && off < (k + 1) * 65536
  }

  /** Of the clusters of `c` bytes at `off`, `o` has those that `o0` lacks; otherwise they have the same. */
  ghost predicate Populated(o0: Overlay, o: Overlay, off: nat, c: nat)
  {
    forall k: u64 :: k in o <==> k in o0 || Meets(k, off, c)
  }

  /** After a write that ended as `r` does: its clusters are populated, and the one that the guest's
      buffer failed for. */
  ghost predicate PopulatedBy(o0: Overlay, o: Overlay, off: nat, r: Completion)
  {
    forall k: u64 ::
      k in o <==> k in o0 || Meets(k, off, r.done) || (r.status == STATUS_MEM_FAULT && k == (off + r.done) / 65536)
  }

  /** Stated by descent, so that division stays out of the loops; see `AlignedMeans`. */
  predicate Aligned(at: nat)
  {
    if at < CLUSTER_SIZE then at == 0 else Aligned(at - CLUSTER_SIZE)
  }

  lemma {:induction false} AlignedMeans(at: nat)
    ensures Aligned(at) <==> at % 65536 == 0
  {
    if at >= CLUSTER_SIZE { AlignedMeans(at - CLUSTER_SIZE); }
  }

  /** The next chunk's cluster has not been touched yet. */
  lemma NextUntouched(o0: Overlay, o: Overlay, off: nat, c: nat)
    requires Populated(o0, o, off, c) && (c == 0 || Aligned(off + c)) && (off + c) / 65536 <= U64_MAX
    ensures (off + c) / 65536 in o <==> (off + c) / 65536 in o0
  {
    var k := (off + c) / 65536;
    AlignedMeans(off + c);
    assert !Meets(k, off, c);
  }

  lemma PopulatedMore(o0: Overlay, o: Overlay, o': Overlay, off: nat, c: nat, t: nat)
    requires Populated(o0, o, off, c) && (c == 0 || Aligned(off + c)) && InCluster(off + c, t)
    requires (off + c) / 65536 <= U64_MAX
    requires o'.Keys == o.Keys + {(off + c) / 65536}
    ensures Populated(o0, o', off, c + t)
  {
    var k0 := (off + c) / 65536;
    AlignedMeans(off + c);
    forall k: u64 ensures Meets(k, off, c + t) <==> Meets(k, off, c) || k == k0 {
      assert k0 * 65536 <= off + c < (k0 + 1) * 65536;
    }
    forall k: u64 ensures k in o' <==> k in o || k == k0 {
      assert k in o'.Keys <==> k in o.Keys || k == k0;
    }
  }

  /** Guest memory: an access outside it fails and changes nothing. */
  method MemRead(mem: bytes, gpa: nat, len: nat) returns (r: Option<bytes>)
    ensures r == if gpa + len <= |mem| then Some(mem[gpa..gpa + len]) else None
  {
    if gpa + len > |mem| { return None; }
    return Some(mem[gpa..gpa + len]);
  }

  method MemWrite(mem: bytes, gpa: nat, x: bytes) returns (r: Option<bytes>)
    ensures r.Some? <==> gpa + |x| <= |mem|
    ensures r.Some? ==> Copied(mem, r.value, gpa, x, 0, |x|)
  {
    if gpa + |x| > |mem| { return None; }
    return Some(mem[..gpa] + x + mem[gpa + |x|..]);
  }

  /** One chunk of a read, from the overlay or else from the base. */
  method ReadChunk(base: Image, overlay: Overlay, mem0: bytes, at: nat, gpa: nat, take: nat, fails: set<nat>)
    returns (fault: Option<u32>, mem: bytes)
    requires InCluster(at, take) && at + take <= Size(base)
    ensures fault == ChunkFault(HostFails(overlay, false, fails, at), gpa + take <= |mem0|)
    ensures if fault.None? then Copied(mem0, mem, gpa, Flat(base, overlay), at, take) else mem == mem0
  {
    mem := mem0;
    ReadsFlat(base, overlay, at, take);
    var cluster, within := at / 65536, at % 65536;
    var chunk;
    if cluster in overlay {
      chunk := overlay[cluster][within..within + take];
    } else {
      if at in fails { return Some(STATUS_HOST_IO), mem; }
      chunk := BaseRun(base, at, take);
    }
    var written := MemWrite(mem, gpa, chunk);
    if written.None? { return Some(STATUS_MEM_FAULT), mem; }
    return None, written.value;
  }

  /** How far a chunk loop is: the disk address, the guest address, and the bytes left. */
  datatype Cursor = Cursor(at: nat, gpa: nat, remaining: nat)

  /** A loop over the chunks `cs0` of a request that started at `from` is at `cur`, with `cs` to go. */
  ghost predicate Underway(cs0: Chunks, from: Cursor, host: set<nat>, memLen: nat, cs: Chunks, cur: Cursor)
  {
    && from.at <= cur.at && cur.at + cur.remaining == from.at + from.remaining && cur.gpa - from.gpa == cur.at - from.at
    && IsChunking(cs, host, cur.at, cur.remaining)
    && Transfer(cs0, from.gpa, memLen) == After(cur.at - from.at, Transfer(cs, cur.gpa, memLen))
    && (cur.at == from.at || cur.remaining == 0 || Aligned(cur.at))
  }

  function Advance(cur: Cursor): (next: Cursor)
    ensures next.remaining <= cur.remaining && (cur.remaining > 0 ==> next.remaining < cur.remaining)
  {
    var t := ChunkLen(cur.at, cur.remaining);
    Cursor(cur.at + t, cur.gpa + t, cur.remaining - t)
  }

  /** One chunk further, or the end. */
  lemma Next(cs0: Chunks, from: Cursor, host: set<nat>, memLen: nat, cs: Chunks, cur: Cursor, fault: Option<u32>)
    requires Underway(cs0, from, host, memLen, cs, cur) && cur.remaining > 0
    requires fault == ChunkFault(cur.at in host, Advance(cur).gpa <= memLen)
    ensures fault.None? ==> cs.Cons? && Underway(cs0, from, host, memLen, cs.rest, Advance(cur))
    ensures fault.Some? ==> Transfer(cs0, from.gpa, memLen) == Completion(cur.at - from.at, fault.value)
  {
    AlignedMeans(Advance(cur).at);
  }

  /** A read of `from.remaining` bytes at `from`: what is fixed while it runs. */
  datatype Reader = Reader(base: Image, overlay: Overlay, mem0: bytes, from: Cursor, host: set<nat>, cs0: Chunks)

  ghost predicate Reading(j: Reader, cs: Chunks, cur: Cursor, mem: bytes)
  {
    && j.from.at + j.from.remaining <= Size(j.base)
    && Underway(j.cs0, j.from, j.host, |j.mem0|, cs, cur)
    && Copied(j.mem0, mem, j.from.gpa, Flat(j.base, j.overlay), j.from.at, cur.at - j.from.at)
  }

  ghost predicate ReadEnds(j: Reader, s: u32, mem: bytes)
  {
    var r := Transfer(j.cs0, j.from.gpa, |j.mem0|);
    s == r.status && Copied(j.mem0, mem, j.from.gpa, Flat(j.base, j.overlay), j.from.at, r.done)
  }

  lemma ReadOn(j: Reader, cs: Chunks, cur: Cursor, mem: bytes, next: Cursor, fault: Option<u32>, m: bytes)
    requires Reading(j, cs, cur, mem) && cur.remaining > 0
    requires next == Advance(cur) && fault == ChunkFault(cur.at in j.host, next.gpa <= |j.mem0|)
    requires if fault.None? then Copied(mem, m, cur.gpa, Flat(j.base, j.overlay), cur.at, next.at - cur.at)
             else m == mem
    ensures fault.None? ==> cs.Cons? && Reading(j, cs.rest, next, m)
    ensures fault.Some? ==> ReadEnds(j, fault.value, m)
  {
    Next(j.cs0, j.from, j.host, |j.mem0|, cs, cur, fault);
    if fault.None? {
      CopiedMore(j.mem0, mem, m, j.from.gpa, Flat(j.base, j.overlay), j.from.at, cur.at - j.from.at, next.at - cur.at);
    }
  }

  /** One round of `do_read`. */
  method ReadStep(base: Image, overlay: Overlay, cur: Cursor, mem: bytes, fails: set<nat>, ghost j: Reader,
                  ghost cs: Chunks)
    returns (fault: Option<u32>, next: Cursor, m: bytes)
    requires j.base == base && j.overlay == overlay && Reading(j, cs, cur, mem) && cur.remaining > 0
    requires j.host == HostFaults(overlay, false, fails, j.from.at, j.from.remaining)
    ensures fault.None? ==> cs.Cons? && Reading(j, cs.rest, next, m) && next.remaining < cur.remaining
    ensures fault.Some? ==> ReadEnds(j, fault.value, m)
  {
    next := Advance(cur);
    fault, m := ReadChunk(base, overlay, mem, cur.at, cur.gpa, next.at - cur.at, fails);
    ReadOn(j, cs, cur, mem, next, fault, m);
  }

  /** The chunk loop of `do_read`. */
  method ReadChunks(base: Image, overlay: Overlay, mem0: bytes, from: Cursor, fails: set<nat>, ghost j: Reader)
    returns (s: u32, mem: bytes)
    requires from.at + from.remaining <= Size(base)
    requires j == Reader(base, overlay, mem0, from, HostFaults(overlay, false, fails, from.at, from.remaining), j.cs0)
    requires IsChunking(j.cs0, j.host, from.at, from.remaining)
    ensures ReadEnds(j, s, mem)
  {
    mem := mem0;
    var cur := from;
    ghost var cs := j.cs0;
    while cur.remaining > 0
      invariant Reading(j, cs, cur, mem) == true  // proved as one fact
      decreases cur.remaining
    {
      var fault, next, m := ReadStep(base, overlay, cur, mem, fails, j, cs);
      if fault.Some? { return fault.value, m; }
      mem, cur, cs := m, next, cs.rest;
    }
    return STATUS_OK, mem;
  }

  /** Populate a cluster from the base on first touch. */
  method Populate(base: Image, overlay0: Overlay, cluster: u64, fails: set<nat>) returns (ok: bool, overlay: Overlay)
    ensures ok <==> cluster in overlay0 || cluster * 65536 !in fails
    ensures Flat(base, overlay) == Flat(base, overlay0)
    ensures overlay.Keys == overlay0.Keys + (if ok then {cluster} else {})
  {
    overlay := overlay0;
    if cluster in overlay { return true, overlay; }
    if cluster * 65536 in fails { return false, overlay; }
    PopulateInvisible(base, overlay, cluster);
    overlay := overlay[cluster := BaseRun(base, cluster * 65536, CLUSTER_SIZE)];
    return true, overlay;
  }

  /** Read guest memory into a populated cluster. */
  method CopyIn(base: Image, overlay0: Overlay, mem: bytes, at: nat, gpa: nat, take: nat)
    returns (ok: bool, overlay: Overlay)
    requires InCluster(at, take) && at + take <= Size(base) && at / 65536 in overlay0
    ensures ok <==> gpa + take <= |mem|
    ensures if ok then Copied(Flat(base, overlay0), Flat(base, overlay), at, mem, gpa, take) else overlay == overlay0
    ensures overlay.Keys == overlay0.Keys
  {
    overlay := overlay0;
    var cluster, within := at / 65536, at % 65536;
    var chunk := MemRead(mem, gpa, take);
    if chunk.None? { return false, overlay; }
    var was := overlay[cluster];
    var now := was[..within] + chunk.value + was[within + take..];
    WritesFlat(base, overlay, cluster, now, at, mem, gpa, take);
    overlay := overlay[cluster := now];
    return true, overlay;
  }

  /** One chunk of a write. A fault of the guest's buffer leaves its cluster populated. */
  method WriteChunk(base: Image, overlay0: Overlay, mem: bytes, at: nat, gpa: nat, take: nat, fails: set<nat>)
    returns (fault: Option<u32>, overlay: Overlay)
    requires InCluster(at, take) && at + take <= Size(base)
    ensures fault == ChunkFault(HostFails(overlay0, true, fails, at), gpa + take <= |mem|)
    ensures if fault.None? then Copied(Flat(base, overlay0), Flat(base, overlay), at, mem, gpa, take)
            else Flat(base, overlay) == Flat(base, overlay0)
    ensures overlay.Keys == overlay0.Keys + (if fault == Some(STATUS_HOST_IO) then {} else {at / 65536})
  {
    var ok;
    ok, overlay := Populate(base, overlay0, at / 65536, fails);
    if !ok { return Some(STATUS_HOST_IO), overlay; }
    ok, overlay := CopyIn(base, overlay, mem, at, gpa, take);
    return if ok then None else Some(STATUS_MEM_FAULT), overlay;
  }

  /** A write of `from.remaining` bytes at `from`: what is fixed while it runs. */
  datatype Writer = Writer(base: Image, overlay0: Overlay, mem: bytes, from: Cursor, host: set<nat>, cs0: Chunks)

  ghost predicate Writing(j: Writer, cs: Chunks, cur: Cursor, o: Overlay)
  {
    && j.from.at + j.from.remaining <= Size(j.base)
    && Underway(j.cs0, j.from, j.host, |j.mem|, cs, cur)
    && Wrote(j, o, cur.at - j.from.at)
  }

  /** The first `c` bytes of the request are on the disk, their clusters populated. */
  ghost predicate Wrote(j: Writer, o: Overlay, c: nat)
  {
    && Copied(Flat(j.base, j.overlay0), Flat(j.base, o), j.from.at, j.mem, j.from.gpa, c)
    && Populated(j.overlay0, o, j.from.at, c)
  }

  lemma WroteMore(j: Writer, o: Overlay, o': Overlay, c: nat, t: nat)
    requires Wrote(j, o, c) && (c == 0 || Aligned(j.from.at + c)) && InCluster(j.from.at + c, t)
    requires Copied(Flat(j.base, o), Flat(j.base, o'), j.from.at + c, j.mem, j.from.gpa + c, t)
    requires (j.from.at + c) / 65536 <= U64_MAX && o'.Keys == o.Keys + {(j.from.at + c) / 65536}
    ensures Wrote(j, o', c + t)
  {
    CopiedMore(Flat(j.base, j.overlay0), Flat(j.base, o), Flat(j.base, o'), j.from.at, j.mem, j.from.gpa, c, t);
    PopulatedMore(j.overlay0, o, o', j.from.at, c, t);
  }

  ghost predicate WriteEnds(j: Writer, s: u32, o: Overlay)
  {
    var r := Transfer(j.cs0, j.from.gpa, |j.mem|);
    && s == r.status && Copied(Flat(j.base, j.overlay0), Flat(j.base, o), j.from.at, j.mem, j.from.gpa, r.done)
    && PopulatedBy(j.overlay0, o, j.from.at, r)
  }

  lemma WriteWrote(j: Writer, cs: Chunks, cur: Cursor, o: Overlay, next: Cursor, o': Overlay)
    requires Writing(j, cs, cur, o) && cur.remaining > 0 && next == Advance(cur)
    requires Copied(Flat(j.base, o), Flat(j.base, o'), cur.at, j.mem, cur.gpa, next.at - cur.at)
    requires o'.Keys == o.Keys + {cur.at / 65536} && cur.at / 65536 <= U64_MAX
    ensures Wrote(j, o', next.at - j.from.at) == true
  {
    var c := cur.at - j.from.at;
    assert j.from.at + c == cur.at && j.from.gpa + c == cur.gpa;
    WroteMore(j, o, o', c, next.at - cur.at);
  }

  /** The chunk was written. */
  lemma WriteOn(j: Writer, cs: Chunks, cur: Cursor, o: Overlay, next: Cursor, o': Overlay)
    requires Writing(j, cs, cur, o) && cur.remaining > 0
    requires next == Advance(cur) && ChunkFault(cur.at in j.host, next.gpa <= |j.mem|).None?
    requires Copied(Flat(j.base, o), Flat(j.base, o'), cur.at, j.mem, cur.gpa, next.at - cur.at)
    requires o'.Keys == o.Keys + {cur.at / 65536} && cur.at / 65536 <= U64_MAX
    ensures cs.Cons? && Writing(j, cs.rest, next, o') == true  // proved as one fact
  {
    WriteWrote(j, cs, cur, o, next, o');
    Next(j.cs0, j.from, j.host, |j.mem|, cs, cur, None);
  }

  /** The chunk could not be written. */
  lemma WriteStops(j: Writer, cs: Chunks, cur: Cursor, o: Overlay, fault: u32, o': Overlay)
    requires Writing(j, cs, cur, o) && cur.remaining > 0
    requires ChunkFault(cur.at in j.host, Advance(cur).gpa <= |j.mem|) == Some(fault)
    requires Flat(j.base, o') == Flat(j.base, o)
    requires o'.Keys == o.Keys + (if fault == STATUS_HOST_IO then {} else {cur.at / 65536}) && cur.at / 65536 <= U64_MAX
    ensures WriteEnds(j, fault, o')
  {
    Next(j.cs0, j.from, j.host, |j.mem|, cs, cur, Some(fault));
    PopulatedLast(j.overlay0, o, o', j.from.at, cur.at - j.from.at, fault);
  }

  lemma PopulatedLast(o0: Overlay, o: Overlay, o': Overlay, off: nat, c: nat, s: u32)
    requires Populated(o0, o, off, c) && (off + c) / 65536 <= U64_MAX && (s == STATUS_HOST_IO || s == STATUS_MEM_FAULT)
    requires o'.Keys == o.Keys + (if s == STATUS_HOST_IO then {} else {(off + c) / 65536})
    ensures PopulatedBy(o0, o', off, Completion(c, s))
  {
    forall k: u64
      ensures k in o' <==> k in o0 || Meets(k, off, c) || (s == STATUS_MEM_FAULT && k == (off + c) / 65536)
    {
      assert k in o'.Keys <==> k in o.Keys || (s == STATUS_MEM_FAULT && k == (off + c) / 65536);
    }
  }

  /** One round of `do_write`. */
  method WriteStep(base: Image, overlay: Overlay, cur: Cursor, mem: bytes, fails: set<nat>, ghost j: Writer,
                   ghost cs: Chunks)
    returns (fault: Option<u32>, next: Cursor, o: Overlay)
    requires j.base == base && j.mem == mem && Writing(j, cs, cur, overlay) && cur.remaining > 0
    requires j.host == HostFaults(j.overlay0, true, fails, j.from.at, j.from.remaining)
    ensures fault.None? ==> cs.Cons? && Writing(j, cs.rest, next, o) && next.remaining < cur.remaining
    ensures fault.Some? ==> WriteEnds(j, fault.value, o)
  {
    next := Advance(cur);
    NextUntouched(j.overlay0, overlay, j.from.at, cur.at - j.from.at);
    fault, o := WriteChunk(base, overlay, mem, cur.at, cur.gpa, next.at - cur.at, fails);
    match fault
    case None => WriteOn(j, cs, cur, overlay, next, o);
    case Some(f) => WriteStops(j, cs, cur, overlay, f, o);
  }

  /** The chunk loop of `do_write`. */
  method WriteChunks(base: Image, overlay0: Overlay, mem: bytes, from: Cursor, fails: set<nat>, ghost j: Writer)
    returns (s: u32, overlay: Overlay)
    requires from.at + from.remaining <= Size(base)
    requires j == Writer(base, overlay0, mem, from, HostFaults(overlay0, true, fails, from.at, from.remaining), j.cs0)
    requires IsChunking(j.cs0, j.host, from.at, from.remaining)
    ensures WriteEnds(j, s, overlay)
  {
    overlay := overlay0;
    var cur := from;
    ghost var cs := j.cs0;
    while cur.remaining > 0
      invariant Writing(j, cs, cur, overlay) == true  // proved as one fact
      decreases cur.remaining
    {
      var fault, next, o := WriteStep(base, overlay, cur, mem, fails, j, cs);
      if fault.Some? { return fault.value, o; }
      overlay, cur, cs := o, next, cs.rest;
    }
    return STATUS_OK, overlay;
  }

  // ---- the device ------------------------------------------------------------------------------

  class GuestMem {
    var data: bytes

    constructor (data: bytes)
      ensures this.data == data
    {
      this.data := data;
    }
  }

  /** The chunks of a request at which the host fails, given which of its reads of the image fail. */
  function HostOf(base: Image, overlay: Overlay, req: Request, fails: set<nat>): (h: set<nat>)
    ensures fails == {} ==> h == {}
  {
    match Range(Size(base), req.sector, req.count)
    case Err(_) => {}
    case Ok((off, n)) => HostFaults(overlay, req.cmd == CMD_WRITE, fails, off, n)
  }

  /** The overlay after a write request: the clusters it wrote, and one that its buffer failed for. */
  ghost predicate Populates(base: Image, o0: Overlay, o: Overlay, req: Request, fails: set<nat>, memLen: nat)
  {
    match Range(Size(base), req.sector, req.count)
    case Err(_) => o == o0
    case Ok((off, n)) => PopulatedBy(o0, o, off, Transfer(ChunksOf(HostFaults(o0, true, fails, off, n), off, n),
                                                          req.bufGpa, memLen))
  }

  class PvBlk {
    const base: Image
    var overlay: Overlay
    var sector: u64
    var bufGpa: u64
    var count: u32
    var status: u32
    var hostIoErrors: nat

    constructor (base: Image)
      ensures this.base == base && overlay == map[] && status == STATUS_OK && hostIoErrors == 0
      ensures Disk() == base[..Size(base)]
    {
      this.base := base;
      overlay, sector, bufGpa, count, status, hostIoErrors := map[], 0, 0, 0, STATUS_OK, 0;
      FlatAt(base, map[]);
      new;
      assert Disk() == base[..Size(base)];
    }

    ghost function Disk(): bytes
      reads this
    {
      Flat(base, overlay)
    }

    function Latched(cmd: u32): Request
      reads this
    {
      Request(cmd, sector, bufGpa, count)
    }

    /** `request_range` */
    method RequestRange() returns (r: Result<(nat, nat), u32>)
      ensures r == Range(Size(base), sector, count)
    {
      if count == 0 { return Err(STATUS_BAD_REQUEST); }
      if sector + count > U64_MAX { return Err(STATUS_BAD_REQUEST); }
      if sector + count > |base| / 512 { return Err(STATUS_BAD_REQUEST); }
      return Ok((sector * 512, count * 512));
    }

    /** `do_read` */
    method DoRead(mem: GuestMem, fails: set<nat>) returns (s: u32)
      modifies mem
      ensures FlatStep(FlatState(Disk(), old(mem.data)), Latched(CMD_READ),
                       HostOf(base, overlay, Latched(CMD_READ), fails), FlatState(Disk(), mem.data), s)
    {
      var range := RequestRange();
      if range.Err? { return range.error; }
      var (off, n) := range.value;
      ghost var host := HostFaults(overlay, false, fails, off, n);
      var m;
      s, m := ReadChunks(base, overlay, mem.data, Cursor(off, bufGpa, n), fails,
                         Reader(base, overlay, mem.data, Cursor(off, bufGpa, n), host, ChunksOf(host, off, n)));
      mem.data := m;
    }

    /** `do_write` */
    method DoWrite(mem: GuestMem, fails: set<nat>) returns (s: u32)
      modifies this`overlay
      ensures FlatStep(FlatState(old(Disk()), mem.data), Latched(CMD_WRITE),
                       old(HostOf(base, overlay, Latched(CMD_WRITE), fails)), FlatState(Disk(), mem.data), s)
      ensures Populates(base, old(overlay), overlay, Latched(CMD_WRITE), fails, |mem.data|)
    {
      var range := RequestRange();
      if range.Err? { return range.error; }
      var (off, n) := range.value;
      ghost var host := HostFaults(overlay, true, fails, off, n);
      var o;
      s, o := WriteChunks(base, overlay, mem.data, Cursor(off, bufGpa, n), fails,
                          Writer(base, overlay, mem.data, Cursor(off, bufGpa, n), host, ChunksOf(host, off, n)));
      overlay := o;
    }

    /** `execute` */
    method Execute(cmd: u32, mem: GuestMem, fails: set<nat>)
      modifies this, mem
      ensures FlatStep(FlatState(old(Disk()), old(mem.data)), old(Latched(cmd)),
                       old(HostOf(base, overlay, Latched(cmd), fails)), FlatState(Disk(), mem.data), status)
      ensures Latched(cmd) == old(Latched(cmd))
      // Only writes populate, and only what they touch.
      ensures if cmd == CMD_WRITE then Populates(base, old(overlay), overlay, old(Latched(cmd)), fails, old(|mem.data|))
              else overlay == old(overlay)
      ensures hostIoErrors == old(hostIoErrors) + (if status == STATUS_HOST_IO then 1 else 0)
    {
      if cmd == CMD_READ {
        status := DoRead(mem, fails);
      } else if cmd == CMD_WRITE {
        status := DoWrite(mem, fails);
      } else {
        status := if cmd == CMD_FLUSH then STATUS_OK else STATUS_BAD_REQUEST;
      }
      if status == STATUS_HOST_IO { hostIoErrors := hostIoErrors + 1; }
    }
  }

  // ---- request sequences --------------------------------------------------------------------------

  /** A run of the flat device: one host oracle and one status per request. */
  ghost predicate FlatRun(st: FlatState, reqs: seq<Request>, hosts: seq<set<nat>>, st': FlatState, statuses: seq<u32>)
  {
    && |reqs| == |hosts| == |statuses|
    && if |reqs| == 0 then st' == st
       else
         exists mid ::
           && FlatRun(st, Front(reqs), Front(hosts), mid, Front(statuses))
           && FlatStep(mid, Last(reqs), Last(hosts), st', Last(statuses))
  }

  function Front<T>(s: seq<T>): seq<T>
    requires |s| > 0
  {
    s[..|s| - 1]
  }

  function Last<T>(s: seq<T>): T
    requires |s| > 0
  {
    s[|s| - 1]
  }

  /** A request leaves no choice. */
  lemma FlatStepUnique(st: FlatState, req: Request, host: set<nat>, a: FlatState, sa: u32, b: FlatState, sb: u32)
    requires FlatStep(st, req, host, a, sa) && FlatStep(st, req, host, b, sb)
    ensures a == b && sa == sb
  {
    var range := Range(|st.disk|, req.sector, req.count);
    if (req.cmd == CMD_READ || req.cmd == CMD_WRITE) && range.Ok? {
      var (off, n) := range.value;
      var t := Transfer(ChunksOf(host, off, n), req.bufGpa, |st.mem|);
      if req.cmd == CMD_READ {
        CopiedUnique(st.mem, a.mem, b.mem, req.bufGpa, st.disk, off, t.done);
      } else {
        CopiedUnique(st.disk, a.disk, b.disk, off, st.mem, req.bufGpa, t.done);
      }
    }
  }

  /** The flat device is deterministic over whole runs. */
  lemma {:induction false} FlatRunUnique(st: FlatState, reqs: seq<Request>, hosts: seq<set<nat>>,
                                         a: FlatState, sa: seq<u32>, b: FlatState, sb: seq<u32>)
    requires FlatRun(st, reqs, hosts, a, sa) && FlatRun(st, reqs, hosts, b, sb)
    ensures a == b && sa == sb
    decreases |reqs|
  {
    if |reqs| > 0 {
      var ma :| FlatRun(st, Front(reqs), Front(hosts), ma, Front(sa))
             && FlatStep(ma, Last(reqs), Last(hosts), a, Last(sa));
      var mb :| FlatRun(st, Front(reqs), Front(hosts), mb, Front(sb))
             && FlatStep(mb, Last(reqs), Last(hosts), b, Last(sb));
      FlatRunUnique(st, Front(reqs), Front(hosts), ma, Front(sa), mb, Front(sb));
      FlatStepUnique(ma, Last(reqs), Last(hosts), a, Last(sa), b, Last(sb));
      SameSequence(sa, sb);
    }
  }

  lemma SameSequence<T>(a: seq<T>, b: seq<T>)
    requires |a| > 0 && |b| > 0 && Front(a) == Front(b) && Last(a) == Last(b)
    ensures a == b
  {
    assert a == Front(a) + [Last(a)] && b == Front(b) + [Last(b)];
  }

  /** The guest latches a request and issues its command. */
  method Submit(dev: PvBlk, mem: GuestMem, req: Request, fails: set<nat>)
    modifies dev, mem
    ensures FlatStep(FlatState(old(dev.Disk()), old(mem.data)), req, old(HostOf(dev.base, dev.overlay, req, fails)),
                     FlatState(dev.Disk(), mem.data), dev.status) == true
    ensures req.cmd != CMD_WRITE ==> dev.overlay == old(dev.overlay)
  {
    dev.sector, dev.bufGpa, dev.count := req.sector, req.bufGpa, req.count;
    dev.Execute(req.cmd, mem, fails);
  }

  /** The host faults of a run, request by request: the chunks of the request that it would read from the image, at
      a place where its read fails. `overlays` are those before each request. */
  predicate Oracles(base: Image, overlays: seq<Overlay>, reqs: seq<Request>, fails: seq<set<nat>>, hosts: seq<set<nat>>)
  {
    && |overlays| == |fails| == |hosts| == |reqs|
    && (forall i :: 0 <= i < |reqs| ==> hosts[i] == HostOf(base, overlays[i], reqs[i], fails[i]))
    && (forall i :: 0 < i < |reqs| && reqs[i - 1].cmd != CMD_WRITE ==> overlays[i] == overlays[i - 1])
  }

  lemma OraclesMore(base: Image, overlays: seq<Overlay>, reqs: seq<Request>, fails: seq<set<nat>>, hosts: seq<set<nat>>,
                    o: Overlay, req: Request, f: set<nat>)
    requires Oracles(base, overlays, reqs, fails, hosts)
    requires |reqs| > 0 && reqs[|reqs| - 1].cmd != CMD_WRITE ==> o == overlays[|overlays| - 1]
    ensures Oracles(base, overlays + [o], reqs + [req], fails + [f], hosts + [HostOf(base, o, req, f)]) == true
  {}

  /** The requests have been served: the flat device ran from `st` to `now`, and the overlay went from `o0` to `o`. */
  ghost predicate Served(base: Image, st: FlatState, o0: Overlay, reqs: seq<Request>, fails: seq<set<nat>>,
                         statuses: seq<u32>, hosts: seq<set<nat>>, overlays: seq<Overlay>, now: FlatState, o: Overlay)
  {
    && FlatRun(st, reqs, hosts, now, statuses) && Oracles(base, overlays, reqs, fails, hosts)
    && (if |reqs| == 0 then o == o0
        else overlays[0] == o0 && (reqs[|reqs| - 1].cmd != CMD_WRITE ==> o == overlays[|reqs| - 1]))
  }

  lemma ServedMore(base: Image, st: FlatState, o0: Overlay, reqs: seq<Request>, fails: seq<set<nat>>,
                   statuses: seq<u32>, hosts: seq<set<nat>>, overlays: seq<Overlay>, mid: FlatState, o: Overlay,
                   req: Request, f: set<nat>, now: FlatState, o': Overlay, status: u32)
    requires Served(base, st, o0, reqs, fails, statuses, hosts, overlays, mid, o)
    requires FlatStep(mid, req, HostOf(base, o, req, f), now, status) && (req.cmd != CMD_WRITE ==> o' == o)
    ensures Served(base, st, o0, reqs + [req], fails + [f], statuses + [status], hosts + [HostOf(base, o, req, f)],
                   overlays + [o], now, o') == true
  {
    OraclesMore(base, overlays, reqs, fails, hosts, o, req, f);
    FlatRunMore(st, reqs, hosts, mid, statuses, req, HostOf(base, o, req, f), now, status);
  }

  lemma NoneServed(base: Image, st: FlatState, o: Overlay)
    ensures Served(base, st, o, [], [], [], [], [], st, o) == true
  {}

  /** Under any sequence of requests the device is the flat device. `fails` says, request by request, which reads of
      the image fail; where none does, `hosts` is empty and only the flat disk matters. */
  method RunRequests(dev: PvBlk, mem: GuestMem, reqs: seq<Request>, fails: seq<set<nat>>)
    returns (statuses: seq<u32>, ghost hosts: seq<set<nat>>, ghost overlays: seq<Overlay>)
    requires |fails| == |reqs|
    modifies dev, mem
    ensures Served(dev.base, FlatState(old(dev.Disk()), old(mem.data)), old(dev.overlay), reqs, fails, statuses, hosts,
                   overlays, FlatState(dev.Disk(), mem.data), dev.overlay) == true
  {
    statuses, hosts, overlays := [], [], [];
    ghost var st, o0 := FlatState(dev.Disk(), mem.data), dev.overlay;
    NoneServed(dev.base, st, o0);
    for i := 0 to |reqs|
      invariant Served(dev.base, st, o0, reqs[..i], fails[..i], statuses, hosts, overlays,
                       FlatState(dev.Disk(), mem.data), dev.overlay) == true
    {
      assert reqs[..i] + [reqs[i]] == reqs[..i + 1] && fails[..i] + [fails[i]] == fails[..i + 1];
      ghost var mid, o := FlatState(dev.Disk(), mem.data), dev.overlay;
      Submit(dev, mem, reqs[i], fails[i]);
      ServedMore(dev.base, st, o0, reqs[..i], fails[..i], statuses, hosts, overlays, mid, o,
                 reqs[i], fails[i], FlatState(dev.Disk(), mem.data), dev.overlay, dev.status);
      statuses := statuses + [dev.status];
      hosts, overlays := hosts + [HostOf(dev.base, o, reqs[i], fails[i])], overlays + [o];
    }
    assert reqs[..|reqs|] == reqs && fails[..|reqs|] == fails;
  }

  lemma FlatRunMore(st: FlatState, reqs: seq<Request>, hosts: seq<set<nat>>, mid: FlatState, statuses: seq<u32>,
                    req: Request, host: set<nat>, st': FlatState, status: u32)
    requires FlatRun(st, reqs, hosts, mid, statuses) && FlatStep(mid, req, host, st', status)
    ensures FlatRun(st, reqs + [req], hosts + [host], st', statuses + [status]) == true
  {
    assert Front(reqs + [req]) == reqs && Front(hosts + [host]) == hosts && Front(statuses + [status]) == statuses;
  }

  /** Two devices with the same flat contents, however differently populated, cannot be told apart by any
      sequence of requests that the host serves. */
  method RunBoth(a: PvBlk, ma: GuestMem, b: PvBlk, mb: GuestMem, reqs: seq<Request>)
    returns (sa: seq<u32>, sb: seq<u32>)
    requires a != b && ma != mb && a.Disk() == b.Disk() && ma.data == mb.data
    modifies a, ma, b, mb
    ensures sa == sb && ma.data == mb.data && a.Disk() == b.Disk()
  {
    var fails: seq<set<nat>> := seq(|reqs|, i => {});
    ghost var ha, hb, oa, ob;
    ghost var st := FlatState(a.Disk(), ma.data);
    sa, ha, oa := RunRequests(a, ma, reqs, fails);
    sb, hb, ob := RunRequests(b, mb, reqs, fails);
    assert ha == fails && hb == fails;
    FlatRunUnique(st, reqs, fails, FlatState(a.Disk(), ma.data), sa, FlatState(b.Disk(), mb.data), sb);
  }
}
