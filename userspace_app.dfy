/** The user-space application table (`userspace_app.c`).

    Twenty slots, each empty or holding a running application. Starting an
    application takes the lowest empty slot, allocates its header and then its
    memory region from the user-space partition, gives it the next id (counting
    from 1000) and fills its region with a byte that depends on its type.
    Stopping one empties its slot; nothing is given back to the partition. The
    module-level state of the C file (the bound partition, the slot array, the
    statistics and the next id) is the state of one `UserSpace` object. */
module UserspaceApp {
  import opened Common
  import opened DdrMemory

  /** `MAX_USER_APPS`. */
  const MaxUserApps: nat := 20
  /** `sizeof(user_app_t)` on LP64: id, 64-byte name, type, region pointer, size,
      priority, running flag and start time with their alignment padding. */
  const AppHeaderSize: nat := 104
  const FirstAppId: nat := 1000
  const DefaultPriority: nat := 5
  /** Longest application name kept: `name[64]` less the terminator. */
  const AppNameMax: nat := 63
  /** The regions `userspace_init` asks for: 2 MiB for "System Monitor" and
      5 MiB for "File Manager". */
  const MonitorMemory: nat := 2 * 1024 * 1024
  const FileManagerMemory: nat := 5 * 1024 * 1024

  datatype AppType = Gui | Utility | Service | Background | System

  /** The byte an application's region is filled with when it starts. */
  function FillByte(t: AppType): (r: bv8)
    ensures r != 0 <==> t == Gui || t == Utility || t == Service
  {
    match t
    case Gui => 0xAA
    case Utility => 0xBB
    case Service => 0xCC
    case _ => 0x00
  }

  /** `user_app_t`. Every field but the running flag is set once, when the
      application starts. */
  class UserApp {
    const appId: nat
    const name: string
    const appType: AppType
    /** `memory_region`, as an offset into the region's buffer. */
    const memoryRegion: nat
    const memorySize: nat
    const priority: nat
    const startTime: int
    var isRunning: bool

    constructor (appId: nat, name: string, appType: AppType, memoryRegion: nat, memorySize: nat, startTime: int)
      ensures this.appId == appId && this.name == name && this.appType == appType
      ensures this.memoryRegion == memoryRegion && this.memorySize == memorySize
      ensures priority == DefaultPriority && this.startTime == startTime && isRunning
    {
      this.appId, this.name, this.appType := appId, name, appType;
      this.memoryRegion, this.memorySize := memoryRegion, memorySize;
      priority := DefaultPriority;
      this.startTime := startTime;
      isRunning := true;
    }
  }

  // ---------------------------------------------------------------------
  // The slot table as a value

  /** The lowest empty slot at or after `from`, if any. */
  function FirstFreeFrom(slots: seq<UserApp?>, from: nat): (r: Option<nat>)
    requires from <= |slots|
    ensures r.Some? ==> from <= r.value < |slots| && slots[r.value] == null
    ensures r.Some? ==> forall j :: from <= j < r.value ==> slots[j] != null
    ensures r.None? ==> forall j :: from <= j < |slots| ==> slots[j] != null
    decreases |slots| - from
  {
    if from == |slots| then None
    else if slots[from] == null then Some(from)
    else FirstFreeFrom(slots, from + 1)
  }

  /** The slot `userspace_start_app` picks: the lowest empty one. */
  function FirstFree(slots: seq<UserApp?>): Option<nat> {
    FirstFreeFrom(slots, 0)
  }

  /** The first slot holding the application with id `id`, at or after `from`. */
  function FindFrom(slots: seq<UserApp?>, id: nat, from: nat): (r: Option<nat>)
    requires from <= |slots|
    ensures r.Some? ==> from <= r.value < |slots| && slots[r.value] != null && slots[r.value].appId == id
    ensures r.Some? ==> forall j :: from <= j < r.value ==> slots[j] == null || slots[j].appId != id
    ensures r.None? ==> forall j :: from <= j < |slots| ==> slots[j] == null || slots[j].appId != id
    decreases |slots| - from
  {
    if from == |slots| then None
    else if slots[from] != null && slots[from].appId == id then Some(from)
    else FindFrom(slots, id, from + 1)
  }

  /** The slot `userspace_stop_app(id)` clears. */
  function Find(slots: seq<UserApp?>, id: nat): Option<nat> {
    FindFrom(slots, id, 0)
  }

  /** How many slots are occupied. */
  function Occupied(slots: seq<UserApp?>): nat
    decreases |slots|
  {
    if slots == [] then 0
    else Occupied(slots[..|slots| - 1]) + (if slots[|slots| - 1] == null then 0 else 1)
  }

  /** The memory the occupied slots' applications were started with. */
  function MemoryOf(slots: seq<UserApp?>): nat
    decreases |slots|
  {
    if slots == [] then 0
    else MemoryOf(slots[..|slots| - 1]) + (if slots[|slots| - 1] == null then 0 else slots[|slots| - 1].memorySize)
  }

  lemma {:induction false} OccupiedBound(slots: seq<UserApp?>)
    ensures Occupied(slots) <= |slots|
    ensures Occupied(slots) == |slots| <==> FirstFree(slots).None?
    decreases |slots|
  {
    if slots != [] {
      var init := slots[..|slots| - 1];
      OccupiedBound(init);
      assert forall j :: 0 <= j < |init| ==> init[j] == slots[j];
    }
  }

  /** Filling an empty slot adds one application and its memory to the totals. */
  lemma {:induction false} PutSlot(slots: seq<UserApp?>, i: nat, a: UserApp)
    requires i < |slots| && slots[i] == null
    ensures Occupied(slots[i := a]) == Occupied(slots) + 1
    ensures MemoryOf(slots[i := a]) == MemoryOf(slots) + a.memorySize
    decreases |slots|
  {
    var s := slots[i := a];
    var last := |slots| - 1;
    if i < last {
      assert s[..last] == slots[..last][i := a];
      PutSlot(slots[..last], i, a);
    } else {
      assert s[..last] == slots[..last];
    }
  }

  /** Emptying an occupied slot removes one application and its memory from the totals. */
  lemma {:induction false} ClearSlot(slots: seq<UserApp?>, i: nat)
    requires i < |slots| && slots[i] != null
    ensures Occupied(slots[i := null]) + 1 == Occupied(slots)
    ensures MemoryOf(slots[i := null]) + slots[i].memorySize == MemoryOf(slots)
    decreases |slots|
  {
    var s := slots[i := null];
    var last := |slots| - 1;
    if i < last {
      assert s[..last] == slots[..last][i := null];
      ClearSlot(slots[..last], i);
    } else {
      assert s[..last] == slots[..last];
    }
  }

  /** The counters of `userspace_stats_t`: application counts and the switch
      count are `uint32_t`, memory totals `size_t`. */
  datatype Stats = Stats(totalApps: nat, runningApps: nat, totalMemoryUsed: nat, peakMemoryUsed: nat, appSwitches: nat) {
    predicate Valid() {
      IsU32(totalApps) && IsU32(runningApps) && IsU64(totalMemoryUsed) && IsU64(peakMemoryUsed) && IsU32(appSwitches)
    }

    /** `total_memory_used += size`, then the peak catches up. */
    function AddMemory(size: nat): (r: Stats)
      requires Valid() && IsU64(size)
      ensures r.Valid()
      ensures r.totalMemoryUsed == Add64(totalMemoryUsed, size)
      ensures r.peakMemoryUsed == if r.totalMemoryUsed > peakMemoryUsed then r.totalMemoryUsed else peakMemoryUsed
      ensures r.peakMemoryUsed >= r.totalMemoryUsed && r.peakMemoryUsed >= peakMemoryUsed
      ensures r.totalApps == totalApps && r.runningApps == runningApps && r.appSwitches == appSwitches
    {
      var total := Add64(totalMemoryUsed, size);
      this.(totalMemoryUsed := total, peakMemoryUsed := if total > peakMemoryUsed then total else peakMemoryUsed)
    }
  }

  const ZeroStats := Stats(0, 0, 0, 0, 0)

  /** What `userspace_start_app` does, decided on the state before the call. */
  datatype StartOutcome =
    | Refused     // unbound, table full, too little space, or the header cannot be allocated: nothing changes
    | HeaderOnly  // the header was allocated but the region was not: its bytes stay consumed
    | Started

  class UserSpace {
    /** `userspace_partition`: null until `userspace_init` binds one. */
    var partition: Partition?
    /** `apps[MAX_USER_APPS]`. */
    const apps: array<UserApp?>
    var stats: Stats
    /** `next_app_id`. */
    var nextAppId: nat

    ghost predicate Valid()
      reads this, partition, apps
    {
      && apps.Length == MaxUserApps
      && (forall i :: 0 <= i < apps.Length && apps[i] != null ==> IsU64(apps[i].memorySize))
      && stats.Valid()
      && IsU32(nextAppId)
      && (partition != null ==> partition.Valid() && apps as object != partition.buf)
    }

    /** The statistics agree with the table: the running count is the number of
        occupied slots, the memory total covers their regions, and the peak is
        never below the total. */
    ghost predicate Accounted()
      reads this, apps
    {
      && stats.runningApps == Occupied(apps[..])
      && MemoryOf(apps[..]) <= stats.totalMemoryUsed <= stats.peakMemoryUsed
    }

    ghost function Outcome(memoryReq: nat): StartOutcome
      reads this, apps, partition
    {
      if partition == null || FirstFree(apps[..]).None? || memoryReq > partition.size - partition.used
        || !partition.CanAlloc(AppHeaderSize) then Refused
      else if memoryReq == 0 || memoryReq > partition.size - (partition.used + AppHeaderSize) then HeaderOnly
      else Started
    }

    /** The program's initial state: no partition, every slot empty, statistics zero, the first id 1000. */
    constructor ()
      ensures Valid() && Accounted() && fresh(apps)
      ensures partition == null && stats == ZeroStats && nextAppId == FirstAppId
      ensures forall i :: 0 <= i < apps.Length ==> apps[i] == null
    {
      partition := null;
      apps := new UserApp?[MaxUserApps](_ => null);
      stats := ZeroStats;
      nextAppId := FirstAppId;
      new;
      assert forall i :: 0 <= i < apps.Length ==> apps[..][i] == null;
      EmptyTable(apps[..]);
    }

    /** The scan of `userspace_start_app` for a free slot: the lowest empty one. */
    method FindFreeSlot() returns (slot: Option<nat>)
      ensures slot == FirstFree(apps[..])
    {
      var i := 0;
      while i < apps.Length
        invariant i <= apps.Length
        invariant forall j :: 0 <= j < i ==> apps[j] != null
      {
        if apps[i] == null {
          return Some(i);
        }
        i := i + 1;
      }
      return None;
    }

    /** The scan of `userspace_stop_app`: the first slot holding `id`. */
    method FindAppSlot(id: nat) returns (slot: Option<nat>)
      ensures slot == Find(apps[..], id)
    {
      var i := 0;
      while i < apps.Length
        invariant i <= apps.Length
        invariant forall j :: 0 <= j < i ==> apps[j] == null || apps[j].appId != id
      {
        if apps[i] != null && apps[i].appId == id {
          return Some(i);
        }
        i := i + 1;
      }
      return None;
    }

    /** `userspace_start_app`. */
    method StartApp(name: string, appType: AppType, memoryReq: nat, now: int)
      requires Valid() && IsU64(memoryReq)
      modifies this`stats, this`nextAppId, apps, FrameOf(partition)
      ensures Valid()
      ensures partition != null ==> partition.protection == old(partition.protection) && partition.name == old(partition.name)
      ensures old(Outcome(memoryReq)) != Started ==>
        apps[..] == old(apps[..]) && stats == old(stats) && nextAppId == old(nextAppId)
      // refused: no byte changes either
      ensures old(Outcome(memoryReq)) == Refused && partition != null ==>
        partition.used == old(partition.used) && partition.buf[..] == old(partition.buf[..])
      // header allocated, region refused: the header bytes stay consumed
      ensures old(Outcome(memoryReq)) == HeaderOnly ==>
        && partition.used == old(partition.used) + AppHeaderSize
        && partition.buf[..] == Filled(old(partition.buf[..]), partition.offset + old(partition.used), AppHeaderSize, 0)
      // started: the lowest empty slot holds a fresh running application with the next id
      ensures old(Outcome(memoryReq)) == Started ==>
        var slot := old(FirstFree(apps[..])).value;
        var a := apps[slot];
        && a != null && fresh(a) && apps[..] == old(apps[..])[slot := a]
        && a.appId == old(nextAppId) && nextAppId == Add32(old(nextAppId), 1)
        && a.name == Truncate(name, AppNameMax) && a.appType == appType
        && a.memorySize == memoryReq && a.priority == DefaultPriority && a.isRunning && a.startTime == now
        && a.memoryRegion == partition.offset + old(partition.used) + AppHeaderSize
        && partition.used == old(partition.used) + AppHeaderSize + memoryReq
        && partition.buf[..] == Filled(Filled(old(partition.buf[..]), a.memoryRegion - AppHeaderSize, AppHeaderSize, 0),
                                       a.memoryRegion, memoryReq, FillByte(appType))
        && stats == old(stats).(totalApps := Add32(old(stats.totalApps), 1),
                                runningApps := Add32(old(stats.runningApps), 1))
                              .AddMemory(memoryReq)
      ensures old(Accounted()) && old(stats.totalMemoryUsed) + memoryReq < U64 ==> Accounted()
    {
      if partition == null {
        return;
      }
      var slot := FindFreeSlot();
      if slot.None? {
        return;
      }
      if memoryReq > partition.size - partition.used {
        return;
      }
      var region := partition.AllocAfterHeader(AppHeaderSize, memoryReq);
      if region.None? {
        return;
      }
      var a := Launch(slot.value, name, appType, region.value, memoryReq, now);
      ghost var h := Filled(old(partition.buf[..]), region.value - AppHeaderSize, AppHeaderSize, 0);
      FilledTwice(h, region.value, memoryReq, 0, FillByte(appType));
    }

    /** The end of a successful `userspace_start_app`: the application is
        recorded in `slot` with the next id, counted, and its region is filled
        with its type's byte. */
    method Launch(slot: nat, name: string, appType: AppType, region: nat, memoryReq: nat, now: int)
      returns (a: UserApp)
      requires Valid() && partition != null && IsU64(memoryReq)
      requires slot < apps.Length && apps[slot] == null
      requires region + memoryReq <= partition.buf.Length
      modifies this`stats, this`nextAppId, apps, partition.buf
      ensures Valid()
      ensures fresh(a) && apps[..] == old(apps[..])[slot := a]
      ensures a.appId == old(nextAppId) && nextAppId == Add32(old(nextAppId), 1)
      ensures a.name == Truncate(name, AppNameMax) && a.appType == appType && a.memoryRegion == region
      ensures a.memorySize == memoryReq && a.priority == DefaultPriority && a.isRunning && a.startTime == now
      ensures partition.buf[..] == Filled(old(partition.buf[..]), region, memoryReq, FillByte(appType))
      ensures stats == old(stats).(totalApps := Add32(old(stats.totalApps), 1),
                                   runningApps := Add32(old(stats.runningApps), 1))
                                 .AddMemory(memoryReq)
      ensures old(Accounted()) && old(stats.totalMemoryUsed) + memoryReq < U64 ==> Accounted()
    {
      ghost var before := apps[..];
      a := new UserApp(nextAppId, Truncate(name, AppNameMax), appType, region, memoryReq, now);
      nextAppId := Add32(nextAppId, 1);
      apps[slot] := a;
      OccupiedBound(before);
      if stats.runningApps == Occupied(before) && MemoryOf(before) <= stats.totalMemoryUsed {
        PutSlot(before, slot, a);
      }
      stats := stats.(totalApps := Add32(stats.totalApps, 1), runningApps := Add32(stats.runningApps, 1));
      stats := stats.AddMemory(memoryReq);
      MemorySet(partition.buf, region, FillByte(appType), memoryReq);
    }

    /** `userspace_stop_app`: empties the first slot holding `id` and takes the
        application out of the counts; an unknown id changes nothing. The
        application's bytes stay consumed in the partition. Only the stopped
        application's running flag may change: every other application object
        is outside the frame. */
    method StopApp(id: nat)
      requires Valid()
      modifies apps, this`stats, if Find(apps[..], id).Some? then {apps[Find(apps[..], id).value]} else {}
      ensures Valid()
      ensures old(Find(apps[..], id)).None? ==> apps[..] == old(apps[..]) && stats == old(stats)
      ensures old(Find(apps[..], id)).Some? ==>
        var slot := old(Find(apps[..], id)).value;
        var a := old(apps[slot]);
        && apps[..] == old(apps[..])[slot := null]
        && !a.isRunning
        && stats == old(stats).(runningApps := Sub32(old(stats.runningApps), 1),
                                totalMemoryUsed := Sub64(old(stats.totalMemoryUsed), a.memorySize))
      ensures old(Accounted()) ==> Accounted()
    {
      var slot := FindAppSlot(id);
      if slot.None? {
        return;
      }
      var i := slot.value;
      var a := apps[i];
      ghost var before := apps[..];
      stats := stats.(runningApps := Sub32(stats.runningApps, 1),
                      totalMemoryUsed := Sub64(stats.totalMemoryUsed, a.memorySize));
      a.isRunning := false;
      apps[i] := null;
      ClearSlot(before, i);
    }

    /** `userspace_alloc`: raw memory for an application, counted in the memory
        statistics. Fails for a zero size, an unbound table or a refused allocation. */
    method Alloc(size: nat) returns (p: Option<nat>)
      requires Valid() && IsU64(size)
      modifies this`stats, FrameOf(partition)
      ensures Valid()
      ensures p.Some? <==> old(partition != null && size != 0 && partition.CanAlloc(size))
      ensures partition != null ==> partition.protection == old(partition.protection) && partition.name == old(partition.name)
      ensures p.None? ==> stats == old(stats)
      ensures p.None? && partition != null ==> partition.used == old(partition.used) && partition.buf[..] == old(partition.buf[..])
      ensures p.Some? ==>
        && p.value == partition.offset + old(partition.used)
        && partition.used == old(partition.used) + size
        && partition.buf[..] == Filled(old(partition.buf[..]), p.value, size, 0)
        && stats == old(stats).AddMemory(size)
      ensures old(Accounted()) && old(stats.totalMemoryUsed) + size < U64 ==> Accounted()
    {
      if partition == null || size == 0 {
        return None;
      }
      p := partition.Alloc(size);
      if p.Some? {
        stats := stats.AddMemory(size);
      }
    }

    /** `userspace_free`: nothing is reclaimed; nothing changes. */
    method Free(ptr: nat)
      requires Valid()
      ensures Valid()
    {
    }

    /** Whether `userspace_init(p)` starts both default applications in the
        first two slots: the table is empty and the partition admits both
        headers and both regions. */
    ghost predicate InitStartsBoth(p: Partition)
      reads this, apps, p
    {
      && Occupied(apps[..]) == 0
      && Accessible(p.protection)
      && p.used + 2 * AppHeaderSize + MonitorMemory + FileManagerMemory <= p.size
    }

    /** `userspace_init`: binds the partition, zeroes the statistics and starts
        the two default applications. A null partition changes nothing. The slot
        table and the id counter are not reset, so the statistics agree with the
        table afterwards only if the table was empty. */
    method Init(p: Partition?, now: int)
      requires Valid() && (p != null ==> p.Valid() && apps as object != p.buf)
      modifies this`partition, this`stats, this`nextAppId, apps, FrameOf(p)
      ensures Valid()
      ensures p == null ==>
        partition == old(partition) && stats == old(stats) && apps[..] == old(apps[..]) && nextAppId == old(nextAppId)
      ensures p != null ==> partition == p
      ensures p != null && old(Occupied(apps[..])) == 0 ==> Accounted()
      ensures p != null && old(InitStartsBoth(p)) ==> DefaultsRunning(old(nextAppId), old(p.used))
    {
      if p == null {
        return;
      }
      partition := p;
      stats := ZeroStats;
      if Occupied(apps[..]) == 0 {
        EmptyTableMemory(apps[..]);
      }
      StartDefaults(now);
    }

    /** The state after `userspace_init` started both default applications
        from an empty table, given the id counter and the partition's cursor
        before: "System Monitor" in slot 0 and "File Manager" in slot 1, both
        running, with consecutive ids, and counted in the statistics. */
    ghost predicate DefaultsRunning(id: nat, used: nat)
      reads this, apps, partition, if apps.Length >= 2 then {apps[0], apps[1]} else {}
    {
      && IsU32(id) && apps.Length >= 2 && partition != null
      && apps[0] != null && apps[0].name == "System Monitor" && apps[0].appType == System
      && apps[0].memorySize == MonitorMemory && apps[0].appId == id && apps[0].isRunning
      && apps[1] != null && apps[1].name == "File Manager" && apps[1].appType == Utility
      && apps[1].memorySize == FileManagerMemory && apps[1].appId == Add32(id, 1) && apps[1].isRunning
      && (forall i :: 2 <= i < apps.Length ==> apps[i] == null)
      && nextAppId == Add32(Add32(id, 1), 1)
      && partition.used == used + 2 * AppHeaderSize + MonitorMemory + FileManagerMemory
      && stats == Stats(2, 2, MonitorMemory + FileManagerMemory, MonitorMemory + FileManagerMemory, 0)
    }

    /** The two `userspace_start_app` calls of `userspace_init`, on zeroed statistics. */
    method StartDefaults(now: int)
      requires Valid() && partition != null && stats == ZeroStats
      modifies this`stats, this`nextAppId, apps, FrameOf(partition)
      ensures Valid() && partition == old(partition)
      ensures old(Accounted()) ==> Accounted()
      ensures old(InitStartsBoth(partition)) ==> DefaultsRunning(old(nextAppId), old(partition.used))
    {
      ghost var both := InitStartsBoth(partition);
      if both {
        EmptyTableMemory(apps[..]);
        assert FirstFree(apps[..]) == Some(0);
      }
      StartDefault("System Monitor", System, MonitorMemory, now);
      ghost var first := apps[0];
      if both {
        assert first != null && apps[1] == null;
        assert FirstFree(apps[..]) == Some(1);
      }
      StartDefault("File Manager", Utility, FileManagerMemory, now);
      if both {
        assert apps[0] == first;
      }
    }

    /** Whether a `userspace_start_app` request for `memoryReq` bytes starts an
        application: a slot is free, the partition is accessible, and it has room
        for the header and the region. */
    ghost predicate Fits(memoryReq: nat)
      reads this, apps, partition
    {
      && partition != null && FirstFree(apps[..]).Some?
      && Accessible(partition.protection)
      && 0 < memoryReq && partition.used + AppHeaderSize + memoryReq <= partition.size
    }

    /** One `userspace_start_app` call of `userspace_init`, summed up: a request
        that fits starts its application in the lowest empty slot. */
    method StartDefault(name: string, appType: AppType, memoryReq: nat, now: int)
      requires Valid() && partition != null && IsU64(memoryReq)
      modifies this`stats, this`nextAppId, apps, FrameOf(partition)
      ensures Valid() && partition == old(partition)
      ensures old(Accounted()) && old(stats.totalMemoryUsed) + memoryReq < U64 ==> Accounted()
      ensures !old(Fits(memoryReq)) ==> apps[..] == old(apps[..]) && stats == old(stats) && nextAppId == old(nextAppId)
      ensures old(Fits(memoryReq)) ==>
        var slot := old(FirstFree(apps[..])).value;
        && apps[slot] != null && apps[..] == old(apps[..])[slot := apps[slot]]
        && apps[slot].name == Truncate(name, AppNameMax) && apps[slot].appType == appType
        && apps[slot].memorySize == memoryReq && apps[slot].appId == old(nextAppId) && apps[slot].isRunning
        && nextAppId == Add32(old(nextAppId), 1)
        && partition.protection == old(partition.protection)
        && partition.used == old(partition.used) + AppHeaderSize + memoryReq
        && stats == old(stats).(totalApps := Add32(old(stats.totalApps), 1),
                                runningApps := Add32(old(stats.runningApps), 1))
                              .AddMemory(memoryReq)
    {
      StartApp(name, appType, memoryReq, now);
    }
  }

  /** An empty table holds no application and no memory. */
  lemma {:induction false} EmptyTable(slots: seq<UserApp?>)
    requires forall i :: 0 <= i < |slots| ==> slots[i] == null
    ensures Occupied(slots) == 0 && MemoryOf(slots) == 0
    decreases |slots|
  {
    if slots != [] {
      EmptyTable(slots[..|slots| - 1]);
    }
  }

  /** A table with no occupied slot has every slot empty and holds no memory. */
  lemma {:induction false} EmptyTableMemory(slots: seq<UserApp?>)
    requires Occupied(slots) == 0
    ensures forall i :: 0 <= i < |slots| ==> slots[i] == null
    ensures MemoryOf(slots) == 0
    decreases |slots|
  {
    if slots != [] {
      var init := slots[..|slots| - 1];
      EmptyTableMemory(init);
      assert forall j :: 0 <= j < |init| ==> init[j] == slots[j];
    }
  }
}
