/** The read/write block store (`rw_partition.c`).

    The store is bound to one partition. A data block is a header allocated from
    the partition followed by its data bytes, allocated right after it; both come
    from the partition's bump allocator and are never given back. Writes and
    reads copy at most the block's size, and a write records the checksum of the
    bytes it copied. The module-level state of the C file (the bound partition,
    the metrics and the next block id) is the state of one `RwStore` object. */
module RwPartition {
  import opened Common
  import opened DdrMemory
  import opened RwChecksum

  /** `sizeof(data_block_t)` on LP64: id, data pointer, size, checksum and
      timestamp with their alignment padding. */
  const BlockHeaderSize: nat := 40

  /** The counters of `rw_metrics_t`, each a `size_t`. */
  datatype Metrics = Metrics(totalReads: nat, totalWrites: nat, bytesRead: nat, bytesWritten: nat) {
    predicate Valid() {
      IsU64(totalReads) && IsU64(totalWrites) && IsU64(bytesRead) && IsU64(bytesWritten)
    }
  }

  const ZeroMetrics := Metrics(0, 0, 0, 0)

  /** The id the `k`-th block created receives: ids count up from 1 in a `uint32_t`. */
  function BlockIdAt(k: nat): nat {
    (k + 1) % U32
  }

  /** Block ids start at 1 and strictly increase until the 32-bit counter wraps. */
  lemma BlockIdsIncrease(j: nat, k: nat)
    requires j < k < U32 - 1
    ensures BlockIdAt(0) == 1
    ensures BlockIdAt(j) == j + 1 && BlockIdAt(k) == k + 1
    ensures BlockIdAt(j) < BlockIdAt(k)
  {
  }

  /** `data_block_t`. The header's fields live in the header bytes in the C
      program; here they are an object, and `data` is the offset of the block's
      bytes in the region's buffer. */
  class DataBlock {
    const id: nat
    const buf: array<bv8>
    const data: nat
    const size: nat
    var checksum: bv32
    var timestamp: int

    predicate Valid() {
      data + size <= buf.Length && IsU64(size)
    }

    /** The block's bytes. */
    function Content(): (r: seq<bv8>)
      reads buf
      requires Valid()
      ensures |r| == size
    {
      buf[data..data + size]
    }

    constructor (id: nat, buf: array<bv8>, data: nat, size: nat, timestamp: int)
      requires data + size <= buf.Length && IsU64(size)
      ensures Valid()
      ensures this.id == id && this.buf == buf && this.data == data && this.size == size
      ensures checksum == 0 && this.timestamp == timestamp
    {
      this.id, this.buf, this.data, this.size := id, buf, data, size;
      checksum := 0;
      this.timestamp := timestamp;
    }
  }

  /** A block's content after `rw_write_data` copies from `src` with count `n`:
      the first `min(n, size)` bytes come from `src`, the rest are kept. */
  function Overwritten(content: seq<bv8>, src: seq<bv8>, n: nat): (r: seq<bv8>)
    requires Min(n, |content|) <= |src|
    ensures |r| == |content|
    ensures forall i :: 0 <= i < |r| ==> r[i] == if i < n then src[i] else content[i]
  {
    var k := Min(n, |content|);
    src[..k] + content[k..]
  }

  /** The bytes `rw_read_data` copies out of a block with count `n`. */
  function ReadOut(content: seq<bv8>, n: nat): (r: seq<bv8>)
    ensures |r| == Min(n, |content|)
    ensures r <= content
  {
    content[..Min(n, |content|)]
  }

  /** Reading back what was written: a write of `n <= size` bytes followed by a
      read of `n` bytes yields the written bytes, and their checksum is the one
      the write stored. */
  lemma RoundTrip(content: seq<bv8>, src: seq<bv8>, n: nat)
    requires n <= |content| && n <= |src|
    ensures ReadOut(Overwritten(content, src, n), n) == src[..n]
    ensures Checksum(ReadOut(Overwritten(content, src, n), n)) == Checksum(src[..n])
  {
    var r := ReadOut(Overwritten(content, src, n), n);
    assert |r| == n;
    forall i | 0 <= i < n ensures r[i] == src[i] { }
  }

  /** A write keeps the bytes beyond the written length: a shorter second write
      leaves the tail of the first one in place. */
  lemma LaterShorterWrite(content: seq<bv8>, s1: seq<bv8>, s2: seq<bv8>, n1: nat, n2: nat)
    requires n2 <= n1 <= |content| && n1 <= |s1| && n2 <= |s2|
    ensures Overwritten(Overwritten(content, s1, n1), s2, n2) == s2[..n2] + s1[n2..n1] + content[n1..]
  {
    var a, b := Overwritten(Overwritten(content, s1, n1), s2, n2), s2[..n2] + s1[n2..n1] + content[n1..];
    assert |a| == |b|;
    forall i | 0 <= i < |a| ensures a[i] == b[i] {
      if i < n2 {
      } else if i < n1 {
        assert b[i] == s1[n2..n1][i - n2];
      } else {
        assert b[i] == content[n1..][i - n1];
      }
    }
  }

  /** What `rw_create_data_block` does, decided on the state before the call. */
  datatype CreateOutcome =
    | Refused     // unbound store, zero size, or no room/permission for the header: nothing changes
    | HeaderOnly  // the header was allocated but the data was not: its bytes stay consumed
    | Created

  class RwStore {
    /** `rw_partition`: null until `rw_init` binds a partition. */
    var partition: Partition?
    var metrics: Metrics
    /** `next_block_id`. */
    var nextBlockId: nat
    /** How many blocks have been created. */
    ghost var created: nat

    ghost predicate Valid()
      reads this, partition
    {
      && metrics.Valid()
      && nextBlockId == BlockIdAt(created)
      && (partition != null ==> partition.Valid())
    }

    ghost function Outcome(size: nat): CreateOutcome
      reads this, partition
    {
      if partition == null || size == 0 || !partition.CanAlloc(BlockHeaderSize) then Refused
      else if size > partition.size - (partition.used + BlockHeaderSize) then HeaderOnly
      else Created
    }

    /** The program's initial state: no partition bound, metrics zero, the first id 1. */
    constructor ()
      ensures Valid() && partition == null && metrics == ZeroMetrics && nextBlockId == 1 && created == 0
    {
      partition := null;
      metrics := ZeroMetrics;
      nextBlockId := 1;
      created := 0;
    }

    /** `rw_init`: binds the partition and zeroes the metrics; a null partition changes nothing.
        The block id counter is not reset. */
    method Init(p: Partition?)
      requires Valid() && (p != null ==> p.Valid())
      modifies this`partition, this`metrics
      ensures Valid()
      ensures p == null ==> partition == old(partition) && metrics == old(metrics)
      ensures p != null ==> partition == p && metrics == ZeroMetrics
    {
      if p == null {
        return;
      }
      partition := p;
      metrics := ZeroMetrics;
    }

    /** `rw_create_data_block`: allocates a header and then `size` data bytes. */
    method CreateDataBlock(size: nat, now: int) returns (b: DataBlock?)
      requires Valid() && IsU64(size)
      modifies this`nextBlockId, this`created, FrameOf(partition)
      ensures Valid()
      ensures b != null <==> old(Outcome(size)) == Created
      ensures old(Outcome(size)) != Created ==> nextBlockId == old(nextBlockId) && created == old(created)
      ensures partition != null ==> partition.protection == old(partition.protection) && partition.name == old(partition.name)
      // refused: no byte and no counter changes
      ensures old(Outcome(size)) == Refused && partition != null ==>
        partition.used == old(partition.used) && partition.buf[..] == old(partition.buf[..])
      // header allocated, data refused: the header bytes stay consumed
      ensures old(Outcome(size)) == HeaderOnly ==>
        && partition.used == old(partition.used) + BlockHeaderSize
        && partition.buf[..] == Filled(old(partition.buf[..]), partition.offset + old(partition.used), BlockHeaderSize, 0)
      // both allocated: a fresh block with the next id, zeroed data and checksum 0
      ensures b != null ==>
        && fresh(b) && b.Valid() && b.buf == partition.buf
        && b.id == old(nextBlockId) && b.id == BlockIdAt(old(created))
        && nextBlockId == Add32(old(nextBlockId), 1) && created == old(created) + 1
        && b.size == size && b.checksum == 0 && b.timestamp == now
        && b.data == partition.offset + old(partition.used) + BlockHeaderSize
        && partition.used == old(partition.used) + BlockHeaderSize + size
        && partition.buf[..] == Filled(Filled(old(partition.buf[..]), b.data - BlockHeaderSize, BlockHeaderSize, 0), b.data, size, 0)
    {
      if partition == null || size == 0 {
        return null;
      }
      var data := partition.AllocAfterHeader(BlockHeaderSize, size);
      if data.None? {
        return null;
      }
      b := new DataBlock(nextBlockId, partition.buf, data.value, size, now);
      nextBlockId := Add32(nextBlockId, 1);
      created := created + 1;
    }

    /** `rw_write_data`: copies `min(n, size)` bytes of `src` into the block, stores
        the checksum of the copied bytes and counts the write. A zero count does nothing. */
    method WriteData(b: DataBlock, src: seq<bv8>, n: nat, now: int)
      requires Valid() && b.Valid() && Min(n, b.size) <= |src|
      modifies b, b.buf, this`metrics
      ensures Valid()
      ensures n == 0 ==> metrics == old(metrics) && b.buf[..] == old(b.buf[..])
      ensures n == 0 ==> b.checksum == old(b.checksum) && b.timestamp == old(b.timestamp)
      ensures n > 0 ==>
        var k := Min(n, b.size);
        && b.buf[..] == Copied(old(b.buf[..]), b.data, src[..k])
        && b.Content() == Overwritten(old(b.Content()), src, n)
        && b.checksum == Checksum(b.Content()[..k]) == Checksum(src[..k])
        && b.timestamp == now
        && metrics == old(metrics).(totalWrites := Add64(old(metrics.totalWrites), 1),
                                    bytesWritten := Add64(old(metrics.bytesWritten), k))
    {
      if n == 0 {
        return;
      }
      var k := if n > b.size then b.size else n;
      MemoryCopy(b.buf, b.data, src[..k]);
      assert b.Content() == Overwritten(old(b.Content()), src, n) by {
        forall i | 0 <= i < b.size ensures b.Content()[i] == Overwritten(old(b.Content()), src, n)[i] {
          assert b.Content()[i] == b.buf[b.data + i];
        }
      }
      assert b.buf[b.data..b.data + k] == src[..k];
      b.checksum := CalculateChecksum(b.buf, b.data, k);
      b.timestamp := now;
      metrics := metrics.(bytesWritten := Add64(metrics.bytesWritten, k));
      metrics := metrics.(totalWrites := Add64(metrics.totalWrites, 1));
    }

    /** `rw_read_data`: copies `min(n, size)` bytes of the block to the front of
        `out` and counts the read; the block is left as it is. A zero count does nothing. */
    method ReadData(b: DataBlock, out: array<bv8>, n: nat)
      requires Valid() && b.Valid() && Min(n, b.size) <= out.Length && out != b.buf
      modifies out, this`metrics
      ensures Valid()
      ensures n == 0 ==> metrics == old(metrics) && out[..] == old(out[..])
      ensures n > 0 ==>
        && out[..] == Copied(old(out[..]), 0, ReadOut(b.Content(), n))
        && metrics == old(metrics).(totalReads := Add64(old(metrics.totalReads), 1),
                                    bytesRead := Add64(old(metrics.bytesRead), Min(n, b.size)))
    {
      if n == 0 {
        return;
      }
      var k := if n > b.size then b.size else n;
      MemoryCopy(out, 0, b.buf[b.data..b.data + k]);
      metrics := metrics.(bytesRead := Add64(metrics.bytesRead, k));
      metrics := metrics.(totalReads := Add64(metrics.totalReads, 1));
    }

    /** `rw_delete_data_block`: a logical delete only; no byte is reclaimed and nothing changes. */
    method DeleteDataBlock(b: DataBlock)
      requires Valid()
      ensures Valid()
    {
    }

    /** `rw_defragment`: a placeholder that changes nothing. */
    method Defragment()
      requires Valid()
      ensures Valid()
    {
    }

    /** `rw_verify_integrity`: a placeholder that changes nothing. */
    method VerifyIntegrity()
      requires Valid()
      ensures Valid()
    {
    }
  }

  /** A write of `src` into a block large enough for it, then a read of as many
      bytes: the reader receives `src`, and the stored checksum is that of the
      block's first `|src|` bytes. */
  method WriteThenRead(store: RwStore, b: DataBlock, src: seq<bv8>, out: array<bv8>, now: int)
    requires store.Valid() && b.Valid() && 0 < |src| <= b.size && |src| <= out.Length && out != b.buf
    modifies b, b.buf, out, store`metrics
    ensures out[..|src|] == src
    ensures b.checksum == Checksum(b.Content()[..|src|]) == Checksum(src)
    ensures store.metrics.totalWrites == Add64(old(store.metrics.totalWrites), 1)
    ensures store.metrics.totalReads == Add64(old(store.metrics.totalReads), 1)
  {
    store.WriteData(b, src, |src|, now);
    store.ReadData(b, out, |src|);
    assert src[..|src|] == src;
    RoundTrip(old(b.Content()), src, |src|);
  }
}
