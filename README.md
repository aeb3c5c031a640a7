# DDR RAM partition system: a Dafny model of the allocator core

This project models the core of a single-threaded memory partitioning system
written in C. One flat byte buffer, the DDR region, is split into partitions.
Each partition has a bump allocator and protection flags. Two stateful layers
sit on top of the partitions:

- a read/write block store. Its data blocks are allocated from a partition and
  carry a rolling 32-bit checksum of the bytes last written.
- a user-space application table. It has twenty slots, and each application
  started gets a header and a memory region from a partition.

The model is imperative where the C code is:

- the region, each partition, the block store and the application table are
  Dafny classes whose methods update their fields in place;
- the shared buffer is one `array<bv8>`, and a C pointer into it is an offset
  into that array;
- `memset`/`memcpy` are loops (`MemorySet`, `MemoryCopy`), and so is the
  checksum (`CalculateChecksum`);
- each method is specified against pure functions: `Filled`, `Copied`,
  `Checksum`, `FirstFree`, `Find`, `Occupied` and `MemoryOf`.

The layout invariant of the region is a ghost list of partitions. Lemmas show
that the partitions sit end to end from offset 0 and never overlap, and that
their sizes add up to the bytes the region has handed out.

Modules and files:

- `common.dfy` (`Common`): `Option`, plus the wrap-around arithmetic of
  `uint32_t` and `size_t` counters.
- `ddr_memory.dfy` (`DdrMemory`): protection flags, `memset`/`memcpy`, the
  partition layout lemmas, and the classes `Partition` and `Region`.
- `checksum.dfy` (`RwChecksum`): the checksum as a fold, its loop, and its
  algebra.
- `rw_partition.dfy` (`RwPartition`): `DataBlock`, the `RwStore` class, and the
  write/read round trip.
- `userspace_app.dfy` (`UserspaceApp`): `UserApp`, the `UserSpace` class, and
  the slot-table accounting lemmas.

Facts about the code that shape the model:

- a new data block's checksum is set to 0 (`rw_partition.c:142`), not to the
  checksum of its zeroed bytes;
- `partition_alloc` tests the size before the protection flags
  (`ddr_memory.c:76-83`); the model's contract does not depend on the order;
- the code has no bounds-checked read or write of a partition's bytes and no
  per-block integrity check; every failure is a NULL return (`None`/`null`
  here) or a silent no-op, never an error code.

Some consequences of the code that the model states rather than hides:

- `userspace_start_app` checks `memory_req` against the free space but not
  `memory_req` plus its 104-byte header. A request that fits alone but not
  with the header, or a zero request, consumes the header bytes and then
  fails (`HeaderOnly`).
- `rw_create_data_block` behaves the same way when the data allocation fails
  after the 40-byte header succeeded.
- No delete or free reclaims memory.
- `userspace_init` resets the statistics but not the slot table, so the
  statistics agree with the table (`Accounted`) after it only if the table
  was empty.

## Model

| member | source | states |
|---|---|---|
| `DdrMemory.MemorySet` | ddr-ram-partition-system/src/ddr_memory.c:115-117 | bytes `[at, at+n)` become `v`; every other byte of the buffer is unchanged |
| `DdrMemory.MemoryCopy` | ddr-ram-partition-system/src/ddr_memory.c:111-113 | the destination range equals the source bytes; every other byte is unchanged |
| `DdrMemory.AccessibleFlags` | ddr-ram-partition-system/src/ddr_memory.c:81-82 | what the protection test `Accessible` of `partition_alloc` admits: read-write and read-write-execute partitions, never read-only, execute-only or no-access ones; any flags with the read-write bit and without the no-access bit; only those two bits matter |
| `DdrMemory.Truncate` | ddr-ram-partition-system/src/ddr_memory.c:64 | the kept name is a prefix of the input, at most `max` characters, and the whole input when it fits |
| `DdrMemory.FilledTwice` | ddr-ram-partition-system/src/userspace_app.c:57-98 | filling a range twice leaves only the second value (the zeroing by the allocator, then the type fill) |
| `DdrMemory.Region.constructor` | ddr-ram-partition-system/src/ddr_memory.c:18-38 | `ddr_init`: `total_size == n`, `used_size == 0`, flags `MEM_READ_WRITE`, initialized, every byte 0, no partitions |
| `DdrMemory.Region.CreatePartition` | ddr-ram-partition-system/src/ddr_memory.c:49-72 | fails with no change iff `size > total - used`. On success the fresh partition starts at the old `used_size`, has the requested size and flags, `used == 0`, and a name of at most 31 characters. `used_size` grows by `size` and the layout invariant is kept |
| `DdrMemory.Partition.constructor` | ddr-ram-partition-system/src/ddr_memory.c:57-64 | the fields of a freshly carved partition |
| `DdrMemory.Partition.Alloc` | ddr-ram-partition-system/src/ddr_memory.c:75-93 | succeeds iff `n != 0`, `n <= size - used`, no-access is clear and read-write is set, whatever the order of the checks. Failure changes nothing. Success returns the old cursor position, advances `used` by `n`, zero-fills exactly those bytes, stays inside the partition and keeps `used <= size` |
| `DdrMemory.Partition.AllocAfterHeader` | ddr-ram-partition-system/src/rw_partition.c:128-134 | the header-then-data allocation pair of `rw_create_data_block` and `userspace_start_app` (`userspace_app.c:52-61`). The second allocation succeeds iff the header does and `0 < n <= size - (used + header)`. A refused header changes nothing; a refused second allocation leaves the header bytes consumed and zeroed. On success the data follows the header, lies inside the partition, and both ranges are zeroed |
| `DdrMemory.Partition.Free` | ddr-ram-partition-system/src/ddr_memory.c:95-102 | reclaims nothing: the method may modify nothing |
| `DdrMemory.Partition.Clear` | ddr-ram-partition-system/src/ddr_memory.c:104-109 | all `size` bytes of the partition become 0, `used == 0`, no byte outside the partition changes |
| `DdrMemory.Partition.Protect` | ddr-ram-partition-system/src/ddr_memory.c:119-123 | the flags are replaced wholesale; nothing else may change |
| `DdrMemory.ContiguousEnd` | ddr-ram-partition-system/src/ddr_memory.c:60-66 | a contiguous layout ends at the sum of the partition sizes, and every partition lies below that end |
| `DdrMemory.ContiguousAdjacent` | ddr-ram-partition-system/src/ddr_memory.c:60-66 | each partition starts where the one created before it ends |
| `DdrMemory.ContiguousDisjoint` | ddr-ram-partition-system/src/ddr_memory.c:60-66 | partitions created earlier end before later ones start, so no two overlap |
| `DdrMemory.ContiguousStart` | ddr-ram-partition-system/src/ddr_memory.c:60 | the first partition starts at offset 0 |
| `DdrMemory.ContiguousAppend` | ddr-ram-partition-system/src/ddr_memory.c:60-66 | carving at the current end keeps the layout contiguous |
| `DdrMemory.RegionBounds` | ddr-ram-partition-system/src/ddr_memory.c:53-66 | for any region, with any number of partitions: the first partition starts at 0, every partition lies below `used_size <= total_size`, and `used_size` is the sum of their sizes |
| `DdrMemory.RegionLayout` | ddr-ram-partition-system/src/ddr_memory.c:60-66 | any two partitions of a region are disjoint, the earlier one ending before the later one starts, and consecutive ones abut |
| `DdrMemory.StandardLayout` | ddr-ram-partition-system/src/main.c:48-73 | three 256 MiB partitions fill a 768 MiB region at offsets 0, 256 MiB and 512 MiB with the start-up flags; a fourth 1-byte request fails |
| `RwChecksum.Rotl5IsRotation` | ddr-ram-partition-system/src/rw_partition.c:194 | `(c << 5) \| (c >> 27)` on 32 bits is a rotation left by 5 and can be undone |
| `RwChecksum.FoldSnoc` | ddr-ram-partition-system/src/rw_partition.c:193-196 | folding one more byte is one more rotate-and-XOR step on the result |
| `RwChecksum.Checksum` | ddr-ram-partition-system/src/rw_partition.c:187-199 | the checksum of no bytes is 0; otherwise the checksum of `s + [b]` is `rotl5(checksum(s)) ^ b`, where a single byte starts from `0x12345678` |
| `RwChecksum.FoldAppend` | ddr-ram-partition-system/src/rw_partition.c:193-196 | the checksum of a concatenation continues the fold of the front over the back |
| `RwChecksum.CalculateChecksum` | ddr-ram-partition-system/src/rw_partition.c:187-199 | the loop returns exactly `Checksum` of the `n` bytes: 0 for none, else the fold from `0x12345678` |
| `RwChecksum.ChecksumVectors` | ddr-ram-partition-system/src/rw_partition.c:187-199 | reference values: empty input 0, three zero bytes `0x2B3C091A` (the seed rotated by 15), `{0x12,0x34}` and `"hello"` |
| `RwPartition.BlockIdsIncrease` | ddr-ram-partition-system/src/rw_partition.c:140 | block ids start at 1 and strictly increase until the 32-bit counter wraps |
| `RwPartition.Overwritten` | ddr-ram-partition-system/src/rw_partition.c:153-154 | after a write the first `min(n, size)` block bytes come from the source, the rest are kept |
| `RwPartition.ReadOut` | ddr-ram-partition-system/src/rw_partition.c:169-170 | a read yields the first `min(n, size)` bytes of the block |
| `RwPartition.RoundTrip` | ddr-ram-partition-system/src/rw_partition.c:150-176 | writing `n <= size` bytes then reading `n` yields exactly the written bytes, and their checksum equals the checksum of the source |
| `RwPartition.LaterShorterWrite` | ddr-ram-partition-system/src/rw_partition.c:150-157 | a shorter second write keeps the tail of the first write and the rest of the block |
| `RwPartition.DataBlock.constructor` | ddr-ram-partition-system/src/rw_partition.c:140-143 | a new block has the given id, buffer, data offset, size and timestamp, and checksum 0 |
| `RwPartition.RwStore.constructor` | ddr-ram-partition-system/src/rw_partition.c:8-10 | no partition bound, metrics zero, next block id 1 |
| `RwPartition.RwStore.Init` | ddr-ram-partition-system/src/rw_partition.c:12-21 | binds the partition and zeroes all metrics; a null partition changes nothing; the id counter is kept |
| `RwPartition.RwStore.CreateDataBlock` | ddr-ram-partition-system/src/rw_partition.c:125-148 | no change for an unbound store, a zero size or a refused header. A refused data allocation leaves the 40 header bytes consumed and zeroed. On success: a fresh block with `id == old next_block_id`, the counter incremented (mod 2^32), `size` set, checksum 0, its data right after its header, both ranges zeroed |
| `RwPartition.RwStore.WriteData` | ddr-ram-partition-system/src/rw_partition.c:150-164 | for `n > 0`: copies `k = min(n, size)` bytes into the block's prefix and changes no other byte. The checksum becomes `Checksum` of those `k` bytes. `bytes_written += k`, `total_writes += 1`. For `n == 0` nothing changes |
| `RwPartition.RwStore.ReadData` | ddr-ram-partition-system/src/rw_partition.c:166-176 | for `n > 0`: copies `min(n, size)` block bytes to the front of the buffer. The rest of the buffer and the block are untouched. `bytes_read` grows by the count and `total_reads` by 1. For `n == 0` nothing changes |
| `RwPartition.RwStore.DeleteDataBlock` | ddr-ram-partition-system/src/rw_partition.c:178-185 | a logical delete: the method may modify nothing, so no byte is reclaimed |
| `RwPartition.RwStore.Defragment` | ddr-ram-partition-system/src/rw_partition.c:201-206 | a placeholder that may modify nothing |
| `RwPartition.RwStore.VerifyIntegrity` | ddr-ram-partition-system/src/rw_partition.c:208-213 | a placeholder that may modify nothing |
| `RwPartition.WriteThenRead` | ddr-ram-partition-system/src/rw_partition.c:35-41 | a client writing then reading the same length gets its bytes back, and the stored checksum is that of the block's first bytes |
| `UserspaceApp.UserApp.constructor` | ddr-ram-partition-system/src/userspace_app.c:63-70 | a new application is running with priority 5 and the given id, name, type, region and size |
| `UserspaceApp.FillByte` | ddr-ram-partition-system/src/userspace_app.c:86-98 | GUI, utility and service applications get a non-zero fill byte (`0xAA`, `0xBB`, `0xCC`); every other type gets 0 |
| `UserspaceApp.FirstFreeFrom` | ddr-ram-partition-system/src/userspace_app.c:33-39 | the result is an empty slot with every earlier slot occupied, or none when every slot is occupied |
| `UserspaceApp.FindFrom` | ddr-ram-partition-system/src/userspace_app.c:102-103 | the result holds the id with no earlier slot holding it, or none when no slot holds it |
| `UserspaceApp.OccupiedBound` | ddr-ram-partition-system/src/userspace_app.c:32-44 | at most 20 applications run, and the table is full exactly when no slot is free |
| `UserspaceApp.PutSlot` | ddr-ram-partition-system/src/userspace_app.c:72-77 | filling an empty slot adds one application and its memory to the table's totals |
| `UserspaceApp.ClearSlot` | ddr-ram-partition-system/src/userspace_app.c:107-116 | emptying a slot removes one application and its memory from the totals |
| `UserspaceApp.EmptyTable` | ddr-ram-partition-system/src/userspace_app.c:10-11 | an all-empty table has no application and no memory |
| `UserspaceApp.EmptyTableMemory` | ddr-ram-partition-system/src/userspace_app.c:14-20 | a table with no occupied slot holds no memory |
| `UserspaceApp.Stats.AddMemory` | ddr-ram-partition-system/src/userspace_app.c:156-159 | `total_memory_used` grows by the size (mod 2^64), the peak becomes the larger of itself and the total, and no other counter changes |
| `UserspaceApp.UserSpace.constructor` | ddr-ram-partition-system/src/userspace_app.c:9-12 | no partition, twenty empty slots, statistics zero, next id 1000; the statistics agree with the table |
| `UserspaceApp.UserSpace.FindFreeSlot` | ddr-ram-partition-system/src/userspace_app.c:32-39 | the scan returns the lowest empty slot, or none |
| `UserspaceApp.UserSpace.FindAppSlot` | ddr-ram-partition-system/src/userspace_app.c:102-103 | the scan returns the first slot holding the id, or none |
| `UserspaceApp.UserSpace.StartApp` | ddr-ram-partition-system/src/userspace_app.c:29-99 | no change when unbound, when all 20 slots are full, when `memory_req > size - used`, or when the header cannot be allocated. A refused region leaves the header consumed and nothing else changed. On success the lowest empty slot holds a fresh running application with `app_id == old next_app_id`, the given size, priority 5 and the truncated name. The partition grows by the header plus `memory_req`, the region is filled with the type's byte, and the counters are updated. The statistics keep agreeing with the table unless `size_t` wraps |
| `UserspaceApp.UserSpace.Launch` | ddr-ram-partition-system/src/userspace_app.c:63-98 | records the application in its slot with the next id and counts it: total and running apps +1, memory total and peak. Fills the region with `0xAA`/`0xBB`/`0xCC`/`0x00` by type |
| `UserspaceApp.UserSpace.StopApp` | ddr-ram-partition-system/src/userspace_app.c:101-122 | an unknown id changes nothing. Otherwise the first slot holding the id is emptied, its application is marked not running, `running_apps` drops by 1 and `total_memory_used` by its size. No other application object may change. The statistics keep agreeing with the table |
| `UserspaceApp.UserSpace.Alloc` | ddr-ram-partition-system/src/userspace_app.c:151-163 | fails with no change when unbound, for a zero size, or when the partition refuses. On success the partition allocation is made and the memory total and peak grow by `size` |
| `UserspaceApp.UserSpace.Free` | ddr-ram-partition-system/src/userspace_app.c:165-169 | reclaims nothing: the method may modify nothing |
| `UserspaceApp.UserSpace.Init` | ddr-ram-partition-system/src/userspace_app.c:14-27 | a null partition changes nothing, the id counter included. Otherwise it binds the partition. The statistics agree with the table afterwards if it was empty. When the table was empty and the partition is accessible and has room for both: "System Monitor" (system, 2 MiB) runs in slot 0 and "File Manager" (utility, 5 MiB) in slot 1, with ids `next_app_id` and the one after. Every other slot is empty, the cursor grows by two headers and 7 MiB, and the statistics are those two starts applied to zero |
| `UserspaceApp.UserSpace.StartDefaults` | ddr-ram-partition-system/src/userspace_app.c:25-26 | the two start calls on zeroed statistics keep the statistics in step with the table and, from an empty table with room, leave the two applications described for `Init` |
| `UserspaceApp.UserSpace.StartDefault` | ddr-ram-partition-system/src/userspace_app.c:29-99 | a start request that fits (a free slot, an accessible partition, room for header and region, a non-zero size) puts the application in the lowest empty slot with the next id and counts it; any other request leaves table, statistics and id counter as they were |

## Left out

- Console output: every `printf`, `print_memory_stats`, `print_partition_stats` and `userspace_list_apps`. It is output only and changes no state.
- `ddr_deinit` and every `malloc`/`free` of control structures. The region constructor and `CreatePartition` never fail for lack of host memory, so the NULL returns of `ddr_init` and `create_partition` when `malloc` fails are not modelled.
- NULL pointer arguments: a NULL region, partition, block, data, buffer or name. These are modelled only where the pointer is a binding that can legitimately be NULL: the partition of the block store and of the application table. Elsewhere the Dafny reference is non-null.
- Header contents: the C program stores the `data_block_t` and `user_app_t` headers inside the partition bytes it allocates for them. The model consumes and zeroes those bytes but keeps the header fields in Dafny objects. It therefore does not capture that `partition_clear` or a stray write would also overwrite a live header.
- `DdrMemory.Partition.constructor`: `strncpy` into a `malloc`ed 32-byte name leaves byte 31 uninitialised when the input has 31 or more characters. The model assumes a terminator there.
- `DdrMemory.MemoryCopy`: the source bytes are read before the copy, so overlapping ranges behave like `memmove`. In C, `memcpy` on overlapping ranges is undefined.
- `RwPartition.RwStore.ReadData`: the caller's buffer is required to be distinct from the region's buffer, and `UserspaceApp.UserSpace.Init` requires the slot table to be distinct from it. In C they are separate allocations.
- `DdrMemory.Truncate`: names are Dafny strings of characters and are cut to 31 (partitions) or 63 (applications) characters. `strncpy` at `ddr_memory.c:64` and `userspace_app.c:65` cuts to 31 or 63 bytes, so a name with multi-byte characters is cut at a different place in C.
- `UserspaceApp.UserSpace.Init`: the resulting table and statistics are stated exactly only when the table was empty and the partition has room for both default applications. Otherwise the contract states the binding and, for an empty table, that the statistics agree with the table.
- `time(NULL)` timestamps and start times are a parameter `now`.
- `rw_metrics_t`'s `read_latency`/`write_latency` are floating point values that the core never updates. `get_rw_metrics`/`get_userspace_stats` only return the address of the counters, which are fields here.
- `rw_perform_operations` and `rw_benchmark` are demonstration and timing code, and `rw_benchmark` does not compile as written. The integrity comparison of `rw_perform_operations` checksums the whole block, while a write stores the checksum of only the copied prefix. The two checksums cover different bytes and differ in general, so no lemma claims that check succeeds.
- `userspace_run_scheduler`, `userspace_handle_events`, `userspace_update_apps` and `userspace_garbage_collect` use function-static tick counters, `rand()` and printing. `app_switches` is therefore carried but never changed.
- The gaming partition, `main.c`'s demos and `get_system_status`. They consume the partition allocator only. `main.c`'s partition set-up is `StandardLayout`.
- The unused `mem_block_t` and `MAGIC_NUMBER`.
- `UserspaceApp.UserSpace.StartApp` and `UserspaceApp.UserSpace.Alloc` promise that the statistics agree with the table only while `total_memory_used + size` stays below 2^64. The counter wraps in C, and the model computes the wrap but does not claim agreement past it.
