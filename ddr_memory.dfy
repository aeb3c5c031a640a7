/** The region allocator and its partitions (`ddr_memory.c`).

    One region owns a single zero-initialised byte buffer. Partitions are carved
    from it front to back, each a window `[offset, offset + size)` onto the same
    buffer with its own bump allocator and protection flags. A C pointer into the
    region is modelled as an offset into that buffer. */
module DdrMemory {
  import opened Common

  // Protection flags (`config.h`).
  const MemReadOnly: bv32 := 0x01
  const MemReadWrite: bv32 := 0x02
  const MemExecute: bv32 := 0x04
  const MemNoAccess: bv32 := 0x08

  /** Longest partition name kept: `name[32]` less the terminator. */
  const PartitionNameMax: nat := 31

  /** The protection test of `partition_alloc`: allocation is refused when the
      no-access bit is set or the read-write bit is missing. */
  predicate Accessible(protection: bv32) {
    protection & MemNoAccess == 0 && protection & MemReadWrite != 0
  }

  /** Which flag combinations `partition_alloc` accepts: any with the read-write
      bit and without the no-access bit, whatever the read-only and execute bits
      say; never a read-only, execute-only or no-access partition. */
  lemma AccessibleFlags(f: bv32)
    ensures Accessible(MemReadWrite) && Accessible(MemReadWrite | MemExecute)
    ensures !Accessible(MemReadOnly) && !Accessible(MemExecute) && !Accessible(MemReadOnly | MemExecute)
    ensures !Accessible(f | MemNoAccess)
    ensures f & MemNoAccess == 0 ==> Accessible(f | MemReadWrite)
    ensures Accessible(f) <==> Accessible(f & (MemReadWrite | MemNoAccess))
  {
    assert (f | MemNoAccess) & MemNoAccess == MemNoAccess;
    assert (f | MemReadWrite) & MemReadWrite == MemReadWrite;
    assert (f | MemReadWrite) & MemNoAccess == f & MemNoAccess;
    assert f & (MemReadWrite | MemNoAccess) & MemNoAccess == f & MemNoAccess;
    assert f & (MemReadWrite | MemNoAccess) & MemReadWrite == f & MemReadWrite;
  }

  /** The name `strncpy` leaves in a fixed buffer of `max` characters plus terminator. */
  function Truncate(name: string, max: nat): (r: string)
    ensures |r| <= max
    ensures r <= name
    ensures |name| <= max ==> r == name
    ensures |name| > max ==> |r| == max
  {
    if |name| <= max then name else name[..max]
  }

  // ---------------------------------------------------------------------
  // The byte buffer: what memset and memcpy leave behind

  /** `mem` after `n` bytes from offset `at` are set to `v`. */
  function Filled(mem: seq<bv8>, at: nat, n: nat, v: bv8): (r: seq<bv8>)
    requires at + n <= |mem|
    ensures |r| == |mem|
    ensures forall i :: 0 <= i < |mem| ==> r[i] == if at <= i < at + n then v else mem[i]
  {
    mem[..at] + seq(n, _ => v) + mem[at + n..]
  }

  /** `mem` after the bytes `src` are copied to offset `at`. */
  function Copied(mem: seq<bv8>, at: nat, src: seq<bv8>): (r: seq<bv8>)
    requires at + |src| <= |mem|
    ensures |r| == |mem|
    ensures forall i :: 0 <= i < |mem| ==> r[i] == if at <= i < at + |src| then src[i - at] else mem[i]
  {
    mem[..at] + src + mem[at + |src|..]
  }

  /** A fill is undone by nothing but a later fill of the same range: the later value wins. */
  lemma FilledTwice(mem: seq<bv8>, at: nat, n: nat, v: bv8, w: bv8)
    requires at + n <= |mem|
    ensures Filled(Filled(mem, at, n, v), at, n, w) == Filled(mem, at, n, w)
  {
    var a, b := Filled(Filled(mem, at, n, v), at, n, w), Filled(mem, at, n, w);
    assert |a| == |b|;
    forall i | 0 <= i < |a| ensures a[i] == b[i] { }
  }

  /** `memory_set`: bytes `[at, at + n)` of `a` become `v`, no other byte changes. */
  method MemorySet(a: array<bv8>, at: nat, v: bv8, n: nat)
    requires at + n <= a.Length
    modifies a
    ensures a[..] == Filled(old(a[..]), at, n, v)
  {
    var i := 0;
    while i < n
      invariant i <= n
      invariant forall k :: 0 <= k < a.Length ==> a[k] == if at <= k < at + i then v else old(a[k])
    {
      a[at + i] := v;
      i := i + 1;
    }
    assert a[..] == Filled(old(a[..]), at, n, v) by {
      forall k | 0 <= k < a.Length ensures a[..][k] == Filled(old(a[..]), at, n, v)[k] { }
    }
  }

  /** `memory_copy`: the bytes `src` (read before the copy) land at offset `at`
      of `a`, no other byte changes. */
  method MemoryCopy(a: array<bv8>, at: nat, src: seq<bv8>)
    requires at + |src| <= a.Length
    modifies a
    ensures a[..] == Copied(old(a[..]), at, src)
  {
    var i := 0;
    while i < |src|
      invariant i <= |src|
      invariant forall k :: 0 <= k < a.Length ==> a[k] == if at <= k < at + i then src[k - at] else old(a[k])
    {
      a[at + i] := src[i];
      i := i + 1;
    }
    assert a[..] == Copied(old(a[..]), at, src) by {
      forall k | 0 <= k < a.Length ensures a[..][k] == Copied(old(a[..]), at, src)[k] { }
    }
  }

  // ---------------------------------------------------------------------
  // The layout of partitions inside the region

  datatype Extent = Extent(offset: nat, size: nat)

  /** Extents laid end to end from offset 0, the last one ending at `end`. */
  ghost predicate Contiguous(xs: seq<Extent>, end: nat)
    decreases |xs|
  {
    if xs == [] then end == 0
    else
      var last := xs[|xs| - 1];
      last.offset + last.size == end && Contiguous(xs[..|xs| - 1], last.offset)
  }

  function SumSizes(xs: seq<Extent>): nat
    decreases |xs|
  {
    if xs == [] then 0 else SumSizes(xs[..|xs| - 1]) + xs[|xs| - 1].size
  }

  /** A contiguous layout ends exactly at the total of its sizes, and every extent lies below that end. */
  lemma {:induction false} ContiguousEnd(xs: seq<Extent>, end: nat)
    requires Contiguous(xs, end)
    ensures end == SumSizes(xs)
    ensures forall i :: 0 <= i < |xs| ==> xs[i].offset + xs[i].size <= end
    decreases |xs|
  {
    if xs != [] {
      var init, last := xs[..|xs| - 1], xs[|xs| - 1];
      ContiguousEnd(init, last.offset);
      forall i | 0 <= i < |xs| ensures xs[i].offset + xs[i].size <= end {
        if i < |init| { assert xs[i] == init[i]; }
      }
    }
  }

  /** Each extent of a contiguous layout starts where the previous one ends. */
  lemma {:induction false} ContiguousAdjacent(xs: seq<Extent>, end: nat, i: nat)
    requires Contiguous(xs, end)
    requires i + 1 < |xs|
    ensures xs[i].offset + xs[i].size == xs[i + 1].offset
    decreases |xs|
  {
    var init := xs[..|xs| - 1];
    if i + 1 < |init| {
      ContiguousAdjacent(init, xs[|xs| - 1].offset, i);
    } else {
      ContiguousEnd(init, xs[|xs| - 1].offset);
      assert init[i] == xs[i];
    }
  }

  /** Partitions of a contiguous layout never overlap. */
  lemma {:induction false} ContiguousDisjoint(xs: seq<Extent>, end: nat, i: nat, j: nat)
    requires Contiguous(xs, end)
    requires i < j < |xs|
    ensures xs[i].offset + xs[i].size <= xs[j].offset
    decreases |xs|
  {
    var init, last := xs[..|xs| - 1], xs[|xs| - 1];
    if j < |init| {
      ContiguousDisjoint(init, last.offset, i, j);
    } else {
      ContiguousEnd(init, last.offset);
      assert init[i] == xs[i];
    }
  }

  /** Appending the extent that starts at the current end keeps the layout contiguous. */
  lemma ContiguousAppend(xs: seq<Extent>, end: nat, size: nat)
    requires Contiguous(xs, end)
    ensures Contiguous(xs + [Extent(end, size)], end + size)
  {
    assert (xs + [Extent(end, size)])[..|xs|] == xs;
  }

  // ---------------------------------------------------------------------
  // memory_partition_t

  class Partition {
    /** The region's buffer this partition is a window onto. */
    const buf: array<bv8>
    /** `base_address`, as an offset into `buf`. */
    const offset: nat
    const size: nat
    var used: nat
    var protection: bv32
    var name: string

    ghost predicate Valid()
      reads this
    {
      used <= size && offset + size <= buf.Length && |name| <= PartitionNameMax
    }

    /** Whether `partition_alloc(this, n)` succeeds. */
    predicate CanAlloc(n: nat)
      reads this
    {
      n != 0 && n <= size - used && Accessible(protection)
    }

    constructor (buf: array<bv8>, offset: nat, size: nat, protection: bv32, name: string)
      requires offset + size <= buf.Length
      ensures Valid()
      ensures this.buf == buf && this.offset == offset && this.size == size
      ensures used == 0 && this.protection == protection && this.name == Truncate(name, PartitionNameMax)
    {
      this.buf, this.offset, this.size := buf, offset, size;
      used := 0;
      this.protection := protection;
      this.name := Truncate(name, PartitionNameMax);
    }

    /** `partition_alloc`: the bump allocator. Fails, changing nothing, on a zero
        size, on a size beyond the space left, or on a partition whose flags deny
        access; otherwise hands out the next `n` bytes, zeroed. */
    method Alloc(n: nat) returns (p: Option<nat>)
      requires Valid()
      modifies this`used, buf
      ensures Valid()
      ensures p.Some? <==> old(CanAlloc(n))
      ensures p.None? ==> used == old(used) && buf[..] == old(buf[..])
      ensures p.Some? ==> p.value == offset + old(used) && used == old(used) + n
      ensures p.Some? ==> offset <= p.value && p.value + n <= offset + size
      ensures p.Some? ==> buf[..] == Filled(old(buf[..]), p.value, n, 0)
    {
      if n == 0 || n > size - used {
        return None;
      }
      if protection & MemNoAccess != 0 || protection & MemReadWrite == 0 {
        return None;
      }
      var at := offset + used;
      used := used + n;
      MemorySet(buf, at, 0, n);
      p := Some(at);
    }

    /** The two `partition_alloc` calls with which the block store and the
        application table place an object: a header of `hdr` bytes first, then
        `n` bytes right after it. A refused header changes nothing; a refused
        second allocation leaves the header bytes consumed and zeroed. */
    method AllocAfterHeader(hdr: nat, n: nat) returns (p: Option<nat>)
      requires Valid()
      modifies this`used, buf
      ensures Valid()
      ensures p.Some? <==> old(CanAlloc(hdr)) && n != 0 && n <= size - (old(used) + hdr)
      ensures !old(CanAlloc(hdr)) ==> used == old(used) && buf[..] == old(buf[..])
      ensures old(CanAlloc(hdr)) && p.None? ==>
        used == old(used) + hdr && buf[..] == Filled(old(buf[..]), offset + old(used), hdr, 0)
      ensures p.Some? ==>
        && p.value == offset + old(used) + hdr
        && p.value + n <= offset + size
        && used == old(used) + hdr + n
        && buf[..] == Filled(Filled(old(buf[..]), p.value - hdr, hdr, 0), p.value, n, 0)
    {
      var header := Alloc(hdr);
      if header.None? {
        return None;
      }
      p := Alloc(n);
    }

    /** `partition_free`: no allocation is reclaimed; nothing changes. */
    method Free(ptr: nat)
      requires Valid()
      ensures Valid()
    {
    }

    /** `partition_clear`: zeroes the whole partition and rewinds its cursor. */
    method Clear()
      requires Valid()
      modifies this`used, buf
      ensures Valid() && used == 0
      ensures buf[..] == Filled(old(buf[..]), offset, size, 0)
    {
      MemorySet(buf, offset, 0, size);
      used := 0;
    }

    /** `memory_protect`: the flags are replaced wholesale. */
    method Protect(flags: bv32)
      requires Valid()
      modifies this`protection
      ensures Valid() && protection == flags
    {
      protection := flags;
    }
  }

  /** What an allocation from a possibly unbound partition may change: the
      partition's cursor and the bytes of its buffer. */
  function FrameOf(p: Partition?): set<object> {
    if p == null then {} else {p, p.buf}
  }

  /** The layout of a list of partitions, in creation order. */
  function Layout(ps: seq<Partition>): (r: seq<Extent>)
    ensures |r| == |ps|
    ensures forall i :: 0 <= i < |ps| ==> r[i] == Extent(ps[i].offset, ps[i].size)
  {
    if ps == [] then [] else Layout(ps[..|ps| - 1]) + [Extent(ps[|ps| - 1].offset, ps[|ps| - 1].size)]
  }

  // ---------------------------------------------------------------------
  // ddr_memory_t

  class Region {
    /** `base_address`: the backing bytes. */
    const buf: array<bv8>
    const totalSize: nat
    var usedSize: nat
    const protectionFlags: bv32
    const isInitialized: bool
    /** Every partition carved so far, in creation order. */
    ghost var partitions: seq<Partition>

    ghost predicate Valid()
      reads this
    {
      && buf.Length == totalSize
      && usedSize <= totalSize
      && (forall i :: 0 <= i < |partitions| ==> partitions[i].buf == buf)
      && Contiguous(Layout(partitions), usedSize)
    }

    /** `ddr_init`: a zero-filled buffer of `totalSize` bytes, nothing carved yet. */
    constructor (totalSize: nat)
      ensures Valid() && fresh(buf)
      ensures this.totalSize == totalSize && usedSize == 0 && partitions == []
      ensures protectionFlags == MemReadWrite && isInitialized
      ensures forall i :: 0 <= i < buf.Length ==> buf[i] == 0
    {
      buf := new bv8[totalSize];
      this.totalSize := totalSize;
      usedSize := 0;
      protectionFlags := MemReadWrite;
      isInitialized := true;
      partitions := [];
      new;
      MemorySet(buf, 0, 0, totalSize);
    }

    /** `create_partition`: carves the next `size` bytes. Fails, changing nothing,
        when fewer than `size` bytes remain. */
    method CreatePartition(size: nat, protection: bv32, name: string) returns (p: Partition?)
      requires Valid()
      modifies this`usedSize, this`partitions
      ensures Valid()
      ensures p == null <==> size > old(totalSize - usedSize)
      ensures p == null ==> usedSize == old(usedSize) && partitions == old(partitions)
      ensures p != null ==> fresh(p) && p.Valid() && p.buf == buf
      ensures p != null ==> p.offset == old(usedSize) && p.size == size && p.used == 0
      ensures p != null ==> p.protection == protection && p.name == Truncate(name, PartitionNameMax)
      ensures p != null ==> usedSize == old(usedSize) + size && partitions == old(partitions) + [p]
    {
      if size > totalSize - usedSize {
        return null;
      }
      p := new Partition(buf, usedSize, size, protection, name);
      ContiguousAppend(Layout(partitions), usedSize, size);
      assert Layout(partitions + [p]) == Layout(partitions) + [Extent(usedSize, size)];
      partitions := partitions + [p];
      usedSize := usedSize + size;
    }
  }

  /** What the region's invariant guarantees about all of its partitions: the
      first starts at offset 0, each lies below `used_size`, which stays inside
      the buffer, and their sizes add up to the bytes the region has handed out. */
  lemma RegionBounds(r: Region)
    requires r.Valid()
    ensures |r.partitions| > 0 ==> r.partitions[0].offset == 0
    ensures forall k :: 0 <= k < |r.partitions| ==> r.partitions[k].offset + r.partitions[k].size <= r.usedSize
    ensures r.usedSize <= r.buf.Length
    ensures r.usedSize == SumSizes(Layout(r.partitions))
  {
    var xs := Layout(r.partitions);
    ContiguousEnd(xs, r.usedSize);
    if xs != [] { ContiguousStart(xs, r.usedSize); }
  }

  /** What the region's invariant guarantees about two of its partitions: an
      earlier one ends before a later one starts, and consecutive ones abut. */
  lemma RegionLayout(r: Region, i: nat, j: nat)
    requires r.Valid()
    requires i < j < |r.partitions|
    ensures r.partitions[i].offset + r.partitions[i].size <= r.partitions[j].offset
    ensures j == i + 1 ==> r.partitions[i].offset + r.partitions[i].size == r.partitions[j].offset
  {
    var xs := Layout(r.partitions);
    ContiguousDisjoint(xs, r.usedSize, i, j);
    if j == i + 1 { ContiguousAdjacent(xs, r.usedSize, i); }
  }

  /** The first extent of a non-empty contiguous layout starts at offset 0. */
  lemma {:induction false} ContiguousStart(xs: seq<Extent>, end: nat)
    requires Contiguous(xs, end)
    requires xs != []
    ensures xs[0].offset == 0
    decreases |xs|
  {
    var init := xs[..|xs| - 1];
    if init != [] {
      ContiguousStart(init, xs[|xs| - 1].offset);
    }
  }

  /** The start-up layout: a 768 MiB region split into three 256 MiB partitions
      (gaming, read/write, user space); the region is then full. */
  method StandardLayout() returns (region: Region, gaming: Partition, rw: Partition, user: Partition)
    ensures region.Valid() && region.usedSize == region.totalSize == 3 * 0x1000_0000
    ensures region.partitions == [gaming, rw, user]
    ensures gaming.offset == 0 && rw.offset == 0x1000_0000 && user.offset == 0x2000_0000
    ensures gaming.protection == MemReadWrite | MemExecute && rw.protection == MemReadWrite
    ensures user.protection == MemReadWrite | MemExecute
    ensures gaming.Valid() && rw.Valid() && user.Valid()
    ensures gaming.used == rw.used == user.used == 0
  {
    region := new Region(3 * 0x1000_0000);
    var g := region.CreatePartition(0x1000_0000, MemReadWrite | MemExecute, "Gaming");
    var w := region.CreatePartition(0x1000_0000, MemReadWrite, "Read/Write");
    var u := region.CreatePartition(0x1000_0000, MemReadWrite | MemExecute, "User Space");
    gaming, rw, user := g, w, u;
    var extra := region.CreatePartition(1, MemReadWrite, "Extra");
    assert extra == null;
  }
}
