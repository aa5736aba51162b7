/**
  The Firecracker manager of scripts/microvmd.sh: one process per request, one request
  at a time under a lock.

  The manager's records are `vms` (one directory per VM), `jails` (one jail directory per
  VM, with at most one hard link to a disk) and `staged` (unfinished disk copies). Around
  every step VMMs may die, guests may write their disks and host accounts may change; the
  step itself may fail or be interrupted, after which `CleanupStart` runs, or the manager
  may be killed, after which nothing runs. A VMM is identified by its pid and start time;
  pids recur, with later start times.
 */
module MicrovmManager {
  import opened Outcomes
  import opened Steps
  import opened Sums
  import Utf8

  type Bytes = Utf8.Bytes
  type Id = string
  type Path = string
  type Inode = nat
  /** What guests try to write at one time. */
  type Writes = map<Inode, Bytes>

  const UID_BASE := 60000
  const UID_LIMIT := 60999
  const RESERVE := 512
  const OVERHEAD := 128

  /** The cgroup /<parent>/firecracker/<id> that the jailer makes for a VM. */
  datatype Group = Group(parent: Path, id: Id)
  datatype Vmm = Vmm(pid: nat, start: nat, group: Group)
  /** A state file rewritten only to give an old VM an identity forgets its VMM. */
  datatype Status = Created | Running(vmm: Option<Vmm>) | Stopped
  datatype Identity = Identity(uid: nat, gid: nat)
  datatype State = State(status: Status, kernel: Path, rootfs: Path, vcpus: nat, memory: nat,
                         identity: Option<Identity>)

  /** A VM's directory: the state file and the private disk rootfs.ext4. */
  datatype Vm = Vm(state: Option<State>, overlay: Option<Inode>)

  datatype Request =
    | CreateVm(id: Id, kernel: Path, rootfs: Path, vcpus: nat, mib: nat)
    | StartVm(id: Id)
    | StopVm(id: Id)

  datatype Refusal =
    | Interrupted | UnknownVm | NoState | AlreadyExists | BadNumbers | NoImage
    | NoIdentity | NoCapacity | NoCpus | NoMemory | Unready | Occupied
    | VmmDied(vmm: Vmm)

  // ----- Admission -----

  function VmmOf(status: Status): Option<Vmm> {
    if status.Running? then status.vmm else None
  }

  /** The state file records a VMM, and one that was started in `group`. */
  predicate RunsIn(vm: Vm, group: Group) {
    vm.state.Some? && VmmOf(vm.state.value.status).Some? && VmmOf(vm.state.value.status).value.group == group
  }

  function RecordedVmm(vm: Vm): set<Vmm> {
    if VmmOf(StatusOf(vm)).Some? then {VmmOf(StatusOf(vm)).value} else {}
  }

  /** The recorded VMM is not an old one. */
  predicate StartedSince(vm: Vm, since: nat) {
    vm.state.Some? && VmmOf(vm.state.value.status).Some? && since <= VmmOf(vm.state.value.status).value.start
  }

  lemma StartedEarlier(vm: Vm, since: nat, earlier: nat)
    requires StartedSince(vm, since) && earlier <= since
    ensures StartedSince(vm, earlier)
  {
  }

  lemma RunsInRuns(vm: Vm, group: Group)
    requires RunsIn(vm, group)
    ensures StatusOf(vm).Running?
  {
  }

  /** `matches_firecracker` for the VMM in a state file that says running. */
  predicate Runs(vm: Vm, live: set<Vmm>) {
    vm.state.Some? && VmmOf(vm.state.value.status).Some? && VmmOf(vm.state.value.status).value in live
  }

  ghost function Counted(vms: map<Id, Vm>, live: set<Vmm>): (ids: set<Id>)
    ensures ids <= vms.Keys
  {
    set id | id in vms && Runs(vms[id], live)
  }

  ghost function VcpuCosts(vms: map<Id, Vm>): (costs: map<Id, nat>)
    ensures costs.Keys == vms.Keys
  {
    map id | id in vms :: if vms[id].state.Some? then vms[id].state.value.vcpus else 0
  }

  ghost function MemoryCosts(vms: map<Id, Vm>): (costs: map<Id, nat>)
    ensures costs.Keys == vms.Keys
  {
    map id | id in vms :: if vms[id].state.Some? then vms[id].state.value.memory + OVERHEAD else 0
  }

  ghost function UsedVcpus(vms: map<Id, Vm>, live: set<Vmm>): nat {
    Sum(Counted(vms, live), VcpuCosts(vms))
  }

  ghost function UsedMemory(vms: map<Id, Vm>, live: set<Vmm>): nat {
    Sum(Counted(vms, live), MemoryCosts(vms))
  }

  /** The VMs recorded as running whose VMM lives fit in the parent. */
  ghost predicate Admitted(vms: map<Id, Vm>, live: set<Vmm>, cpus: nat, memory: nat) {
    Counted(vms, live) != {} ==> UsedVcpus(vms, live) <= cpus && UsedMemory(vms, live) + RESERVE <= memory
  }

  /** One more VM would fit. */
  ghost predicate Room(vms: map<Id, Vm>, live: set<Vmm>, cpus: nat, memory: nat, vcpus: nat, mib: nat) {
    UsedVcpus(vms, live) + vcpus <= cpus && UsedMemory(vms, live) + mib + OVERHEAD + RESERVE <= memory
  }

  /** Of the VMs counted later, all were counted before, with the same state. */
  ghost predicate Fewer(vms: map<Id, Vm>, live: set<Vmm>, vms1: map<Id, Vm>, live1: set<Vmm>) {
    forall id :: id in Counted(vms1, live1) ==> id in Counted(vms, live) && vms1[id].state == vms[id].state
  }

  lemma UsedShrinks(vms: map<Id, Vm>, live: set<Vmm>, vms1: map<Id, Vm>, live1: set<Vmm>)
    requires Fewer(vms, live, vms1, live1)
    ensures UsedVcpus(vms1, live1) <= UsedVcpus(vms, live) && UsedMemory(vms1, live1) <= UsedMemory(vms, live)
  {
    var some, all := Counted(vms1, live1), Counted(vms, live);
    SumAgrees(some, VcpuCosts(vms1), VcpuCosts(vms));
    SumAgrees(some, MemoryCosts(vms1), MemoryCosts(vms));
    SumMonotone(some, all, VcpuCosts(vms));
    SumMonotone(some, all, MemoryCosts(vms));
  }

  lemma AdmittedShrinks(vms: map<Id, Vm>, live: set<Vmm>, vms1: map<Id, Vm>, live1: set<Vmm>, cpus: nat, memory: nat)
    requires Fewer(vms, live, vms1, live1) && Admitted(vms, live, cpus, memory)
    ensures Admitted(vms1, live1, cpus, memory)
  {
    UsedShrinks(vms, live, vms1, live1);
    if id :| id in Counted(vms1, live1) {
      assert id in Counted(vms, live);
    }
  }

  /** Recording a VM as running, with room for it when it was not counted, keeps everything within the parent. */
  lemma AdmitsOneMore(vms: map<Id, Vm>, live: set<Vmm>, id: Id, state: State, cpus: nat, memory: nat)
    requires id in vms && id !in Counted(vms, live)
    requires Room(vms, live, cpus, memory, state.vcpus, state.memory)
    ensures Admitted(vms[id := vms[id].(state := Some(state))], live, cpus, memory)
  {
    var vms1 := vms[id := vms[id].(state := Some(state))];
    var rest := Counted(vms1, live) - {id};
    forall other | other in rest ensures other in Counted(vms, live) && vms1[other].state == vms[other].state {
      assert other in Counted(vms1, live);
    }
    SumAgrees(rest, VcpuCosts(vms1), VcpuCosts(vms));
    SumAgrees(rest, MemoryCosts(vms1), MemoryCosts(vms));
    SumMonotone(rest, Counted(vms, live), VcpuCosts(vms));
    SumMonotone(rest, Counted(vms, live), MemoryCosts(vms));
    if id in Counted(vms1, live) {
      SumRemove(Counted(vms1, live), id, VcpuCosts(vms1));
      SumRemove(Counted(vms1, live), id, MemoryCosts(vms1));
    } else {
      assert rest == Counted(vms1, live);
    }
  }

  // ----- Identities -----

  function Uid(vm: Vm): Option<nat> {
    if vm.state.Some? && vm.state.value.identity.Some? then Some(vm.state.value.identity.value.uid) else None
  }

  predicate InRange(i: Identity) {
    i.uid == i.gid && UID_BASE <= i.uid <= UID_LIMIT
  }

  ghost predicate IdentitiesOk(vms: map<Id, Vm>) {
    && (forall id :: id in vms && Uid(vms[id]).Some? ==> InRange(vms[id].state.value.identity.value))
    && (forall a, b :: a in vms && b in vms && a != b && Uid(vms[a]).Some? ==> Uid(vms[a]) != Uid(vms[b]))
  }

  ghost predicate Taken(vms: map<Id, Vm>, accounts: set<nat>, uid: nat) {
    uid in accounts || exists id :: id in vms && Uid(vms[id]) == Some(uid)
  }

  ghost predicate LeastFree(vms: map<Id, Vm>, accounts: set<nat>, uid: nat) {
    && UID_BASE <= uid <= UID_LIMIT && !Taken(vms, accounts, uid)
    && forall u :: UID_BASE <= u < uid ==> Taken(vms, accounts, u)
  }

  // ----- Disks -----

  /** What an inode that began as `image` holds after the guests' writes. */
  ghost function Latest(image: Bytes, disk: Inode, writes: seq<Writes>): Bytes {
    if writes == [] then
      image
    else if disk in writes[|writes| - 1] then
      writes[|writes| - 1][disk]
    else
      Latest(image, disk, writes[..|writes| - 1])
  }

  /** Every private disk is its VM's alone, began as a complete copy, and holds what the guests last wrote to it. */
  ghost predicate DisksOk(vms: map<Id, Vm>, images: map<Path, Bytes>, contents: map<Inode, Bytes>,
                          born: map<Inode, nat>, past: seq<Writes>)
  {
    && (forall id :: id in vms && vms[id].overlay.Some? ==> DiskOk(vms[id], images, contents, born, past))
    && (forall a, b :: a in vms && b in vms && a != b && vms[a].overlay.Some? ==> vms[a].overlay != vms[b].overlay)
  }

  ghost predicate DiskOk(vm: Vm, images: map<Path, Bytes>, contents: map<Inode, Bytes>,
                         born: map<Inode, nat>, past: seq<Writes>)
    requires vm.overlay.Some?
  {
    var disk := vm.overlay.value;
    && disk in contents && disk in born && born[disk] <= |past|
    && vm.state.Some? && vm.state.value.rootfs in images
    && contents[disk] == Latest(images[vm.state.value.rootfs], disk, past[born[disk]..])
  }

  /** Unfinished copies are nobody's disk yet. */
  ghost predicate StagedOk(vms: map<Id, Vm>, staged: map<(Id, nat), Inode>, contents: map<Inode, Bytes>, next: Inode) {
    && (forall i :: i in contents ==> i < next)
    && (forall k :: k in staged ==> staged[k] in contents)
    && (forall k, id :: k in staged && id in vms ==> vms[id].overlay != Some(staged[k]))
    && (forall k, l :: k in staged && l in staged && k != l ==> staged[k] != staged[l])
  }

  /** A jail links to nothing but its own VM's disk. */
  ghost predicate JailsOk(vms: map<Id, Vm>, jails: map<Id, Option<Inode>>) {
    forall id :: id in jails && jails[id].Some? ==> id in vms && vms[id].overlay == jails[id]
  }

  /** VMMs and records are of the past, and a record names no VMM of another VM. */
  ghost predicate ClockOk(vms: map<Id, Vm>, live: set<Vmm>, now: nat) {
    && (forall p :: p in live ==> p.start < now)
    && (forall id :: id in vms && VmmOf(StatusOf(vms[id])).Some? ==>
          VmmOf(StatusOf(vms[id])).value.start < now && VmmOf(StatusOf(vms[id])).value.group.id == id)
  }

  // ----- What a run never changes -----

  /** VMs stay; a disk, an identity and what was asked for at creation stay with their VM. */
  ghost predicate Kept(before: map<Id, Vm>, after: map<Id, Vm>) {
    forall id :: id in before ==> id in after && VmKept(before[id], after[id])
  }

  predicate VmKept(v: Vm, w: Vm) {
    && (v.overlay.Some? ==> w.overlay == v.overlay)
    && (v.state.Some? ==>
          && w.state.Some? && (Uid(v).Some? ==> w.state.value.identity == v.state.value.identity)
          && w.state.value.kernel == v.state.value.kernel && w.state.value.rootfs == v.state.value.rootfs
          && w.state.value.vcpus == v.state.value.vcpus && w.state.value.memory == v.state.value.memory)
  }

  lemma LatestNext(image: Bytes, disk: Inode, past: seq<Writes>, from: nat, writes: Writes)
    requires from <= |past|
    ensures Latest(image, disk, (past + [writes])[from..])
         == if disk in writes then writes[disk] else Latest(image, disk, past[from..])
  {
    var after := (past + [writes])[from..];
    assert after[..|after| - 1] == past[from..];
  }

  /** What guests write reaches the VMs' disks and is what these hold next. */
  lemma DisksWritten(vms: map<Id, Vm>, images: map<Path, Bytes>, contents: map<Inode, Bytes>,
                     born: map<Inode, nat>, past: seq<Writes>, writes: Writes)
    requires DisksOk(vms, images, contents, born, past)
    ensures DisksOk(vms, images, contents + ToDisks(vms, contents, writes), born, past + [writes])
  {
    var after := contents + ToDisks(vms, contents, writes);
    forall id | id in vms && vms[id].overlay.Some? ensures DiskOk(vms[id], images, after, born, past + [writes]) {
      assert DiskOk(vms[id], images, contents, born, past);
      var disk := vms[id].overlay.value;
      LatestNext(images[vms[id].state.value.rootfs], disk, past, born[disk], writes);
    }
  }

  /** Guests write to the VMs' disks and to nothing else. */
  ghost predicate SameButDisks(vms: map<Id, Vm>, before: map<Inode, Bytes>, after: map<Inode, Bytes>) {
    && after.Keys == before.Keys
    && forall i :: i in before ==> after[i] == before[i] || exists id :: id in vms && vms[id].overlay == Some(i)
  }

  lemma NothingWritten(vms: map<Id, Vm>, contents: map<Inode, Bytes>)
    ensures SameButDisks(vms, contents, contents)
  {
  }

  function ToDisks(vms: map<Id, Vm>, contents: map<Inode, Bytes>, writes: Writes): Writes {
    map i | i in writes && i in contents && (exists id | id in vms :: vms[id].overlay == Some(i)) :: writes[i]
  }

  lemma StagedWritten(vms: map<Id, Vm>, staged: map<(Id, nat), Inode>, contents: map<Inode, Bytes>, next: Inode,
                      writes: Writes)
    requires StagedOk(vms, staged, contents, next)
    ensures var after := contents + ToDisks(vms, contents, writes);
            StagedOk(vms, staged, after, next) && SameButDisks(vms, contents, after)
  {
    assert (contents + ToDisks(vms, contents, writes)).Keys == contents.Keys;
  }

  /** Every VM's disk is still the one that it began as. */
  ghost predicate BornKept(vms: map<Id, Vm>, before: map<Inode, nat>, after: map<Inode, nat>) {
    forall id :: id in vms && vms[id].overlay.Some? && vms[id].overlay.value in before ==>
      vms[id].overlay.value in after && after[vms[id].overlay.value] == before[vms[id].overlay.value]
  }

  lemma BornSame(vms: map<Id, Vm>, born: map<Inode, nat>)
    ensures BornKept(vms, born, born)
  {
  }

  lemma BornKeptTwice(a: map<Id, Vm>, b: map<Id, Vm>, x: map<Inode, nat>, y: map<Inode, nat>, z: map<Inode, nat>)
    requires Kept(a, b) && BornKept(a, x, y) && BornKept(b, y, z)
    ensures BornKept(a, x, z)
  {
    forall id | id in a && a[id].overlay.Some? && a[id].overlay.value in x
      ensures a[id].overlay.value in z && z[a[id].overlay.value] == x[a[id].overlay.value]
    {
      assert VmKept(a[id], b[id]);
    }
  }

  /** Nothing but the entry at `k` came, went or changed. */
  predicate OnlyAt<K, V(==)>(before: map<K, V>, after: map<K, V>, k: K) {
    before - {k} == after - {k}
  }

  /** No VM came or went, and none changed its disk. */
  predicate SameOverlays(before: map<Id, Vm>, after: map<Id, Vm>) {
    after.Keys == before.Keys && forall a :: a in after ==> after[a].overlay == before[a].overlay
  }

  lemma OnlyAtSame<K, V>(m: map<K, V>, k: K)
    ensures OnlyAt(m, m, k)
  {
  }

  lemma OnlyAtRemoved<K, V>(m: map<K, V>, k: K)
    ensures OnlyAt(m, m - {k}, k)
  {
    assert (m - {k}) - {k} == m - {k};
  }

  lemma OnlyAtPut<K, V>(m: map<K, V>, k: K, v: V)
    ensures OnlyAt(m, m[k := v], k)
  {
  }

  lemma OnlyAtTwice<K, V>(a: map<K, V>, b: map<K, V>, c: map<K, V>, k: K)
    requires OnlyAt(a, b, k) && OnlyAt(b, c, k)
    ensures OnlyAt(a, c, k)
  {
  }

  /** Nothing but the entries at `keys` came, went or changed. */
  predicate OnlyAmong<K, V(==)>(before: map<K, V>, after: map<K, V>, keys: set<K>) {
    before - keys == after - keys
  }

  lemma OnlyAtAmong<K, V>(a: map<K, V>, b: map<K, V>, c: map<K, V>, k: K, keys: set<K>)
    requires OnlyAmong(a, b, keys) && OnlyAt(b, c, k) && k in keys
    ensures OnlyAmong(a, c, keys)
  {
    assert b - keys == (b - {k}) - keys && c - keys == (c - {k}) - keys;
  }

  lemma KeptTwice(a: map<Id, Vm>, b: map<Id, Vm>, c: map<Id, Vm>)
    requires Kept(a, b) && Kept(b, c)
    ensures Kept(a, c)
  {
    forall id | id in a ensures id in c && VmKept(a[id], c[id]) {
      assert VmKept(a[id], b[id]) && VmKept(b[id], c[id]);
    }
  }

  /** How a new state file may differ from the records around it. */
  ghost predicate Recordable(vms: map<Id, Vm>, id: Id, state: State, live: set<Vmm>, now: nat, cpus: nat, memory: nat) {
    && id in vms
    && VmKept(vms[id], vms[id].(state := Some(state)))
    && (vms[id].overlay.Some? ==> vms[id].state.Some?)
    && (state.identity.Some? ==>
          InRange(state.identity.value)
          && forall a :: a in vms && a != id ==> Uid(vms[a]) != Some(state.identity.value.uid))
    && (VmmOf(state.status).Some? ==>
          || state.status == StatusOf(vms[id])
          || (VmmOf(state.status).value.start < now && VmmOf(state.status).value.group.id == id
              && id !in Counted(vms, live)
              && Room(vms, live, cpus, memory, state.vcpus, state.memory)))
  }

  /** The record of the VM says stopped, and nothing else changed. */
  function AsStopped(vms: map<Id, Vm>, id: Id): map<Id, Vm>
    requires id in vms && vms[id].state.Some?
  {
    vms[id := vms[id].(state := Some(vms[id].state.value.(status := Stopped)))]
  }

  function StatusOf(vm: Vm): Status {
    if vm.state.Some? then vm.state.value.status else Created
  }

  lemma RecordableLater(vms: map<Id, Vm>, id: Id, state: State, live: set<Vmm>, now: nat, live1: set<Vmm>, now1: nat,
                        cpus: nat, memory: nat)
    requires Recordable(vms, id, state, live, now, cpus, memory) && live1 <= live && now <= now1
    ensures Recordable(vms, id, state, live1, now1, cpus, memory)
  {
    UsedShrinks(vms, live, vms, live1);
    hide InRange, UsedVcpus, UsedMemory;
  }

  /** A change that does not make a VM count keeps what is used. */
  lemma UsedAgrees(vms: map<Id, Vm>, live: set<Vmm>, vms1: map<Id, Vm>, id: Id)
    requires id in vms && vms1.Keys == vms.Keys && VmKept(vms[id], vms1[id])
    requires forall a :: a in vms && a != id ==> vms1[a] == vms[a]
    requires VmmOf(StatusOf(vms1[id])).Some? ==> StatusOf(vms1[id]) == StatusOf(vms[id])
    ensures UsedVcpus(vms1, live) <= UsedVcpus(vms, live) && UsedMemory(vms1, live) <= UsedMemory(vms, live)
    ensures Counted(vms1, live) <= Counted(vms, live)
  {
    var some, all := Counted(vms1, live), Counted(vms, live);
    SumAgrees(some, VcpuCosts(vms1), VcpuCosts(vms));
    SumAgrees(some, MemoryCosts(vms1), MemoryCosts(vms));
    SumMonotone(some, all, VcpuCosts(vms));
    SumMonotone(some, all, MemoryCosts(vms));
  }

  /** A running total over the VMs done so far lies between the sums at its end and at its start. */
  ghost predicate Bounded(vms: map<Id, Vm>, live: set<Vmm>, start: set<Vmm>, done: set<Id>, costs: map<Id, nat>,
                          total: nat)
    requires costs.Keys == vms.Keys
  {
    Sum(Counted(vms, live) * done, costs) <= total <= Sum(Counted(vms, start) * done, costs)
  }

  lemma BoundedNext(vms: map<Id, Vm>, before: set<Vmm>, live: set<Vmm>, start: set<Vmm>, done: set<Id>, id: Id,
                    costs: map<Id, nat>, total: nat)
    requires costs.Keys == vms.Keys && id in vms && id !in done && live <= before <= start
    requires Bounded(vms, before, start, done, costs, total)
    ensures Bounded(vms, live, start, done + {id}, costs, total + if Runs(vms[id], live) then costs[id] else 0)
  {
    var all, some, now := Counted(vms, start), Counted(vms, before), Counted(vms, live);
    SumMonotone(now * done, some * done, costs);
    if Runs(vms[id], live) {
      SumAdd(now * done, id, costs);
      SumAdd(all * done, id, costs);
      assert now * (done + {id}) == now * done + {id};
      assert all * (done + {id}) == all * done + {id};
    } else {
      assert now * (done + {id}) == now * done;
      SumMonotone(all * done, all * (done + {id}), costs);
    }
  }

  ghost predicate Tally(vms: map<Id, Vm>, live: set<Vmm>, start: set<Vmm>, done: set<Id>, vcpus: nat, mib: nat) {
    Bounded(vms, live, start, done, VcpuCosts(vms), vcpus) && Bounded(vms, live, start, done, MemoryCosts(vms), mib)
  }

  lemma TallyAtFirst(vms: map<Id, Vm>, live: set<Vmm>)
    ensures Tally(vms, live, live, {}, 0, 0)
  {
    assert Counted(vms, live) * {} == {};
  }

  lemma TallyNext(vms: map<Id, Vm>, before: set<Vmm>, live: set<Vmm>, start: set<Vmm>, done: set<Id>, id: Id,
                  vcpus: nat, mib: nat)
    requires id in vms && id !in done && live <= before <= start && Tally(vms, before, start, done, vcpus, mib)
    ensures if Runs(vms[id], live) then
              Tally(vms, live, start, done + {id}, vcpus + vms[id].state.value.vcpus,
                    mib + vms[id].state.value.memory + OVERHEAD)
            else
              Tally(vms, live, start, done + {id}, vcpus, mib)
  {
    hide Bounded;
    BoundedNext(vms, before, live, start, done, id, VcpuCosts(vms), vcpus);
    BoundedNext(vms, before, live, start, done, id, MemoryCosts(vms), mib);
  }

  lemma TallyOfAll(vms: map<Id, Vm>, live: set<Vmm>, start: set<Vmm>, done: set<Id>, vcpus: nat, mib: nat)
    requires done == vms.Keys && Tally(vms, live, start, done, vcpus, mib)
    ensures UsedVcpus(vms, live) <= vcpus <= UsedVcpus(vms, start)
    ensures UsedMemory(vms, live) <= mib <= UsedMemory(vms, start)
  {
    assert Counted(vms, live) * done == Counted(vms, live) && Counted(vms, start) * done == Counted(vms, start);
  }

  lemma RecordKeepsIdentities(vms: map<Id, Vm>, id: Id, state: State, live: set<Vmm>, now: nat, cpus: nat, memory: nat)
    requires IdentitiesOk(vms) && Recordable(vms, id, state, live, now, cpus, memory)
    ensures IdentitiesOk(vms[id := vms[id].(state := Some(state))])
  {
    hide Room, Counted;
  }

  lemma RecordKeepsDisks(vms: map<Id, Vm>, id: Id, state: State, images: map<Path, Bytes>, contents: map<Inode, Bytes>,
                         born: map<Inode, nat>, past: seq<Writes>)
    requires DisksOk(vms, images, contents, born, past) && id in vms && VmKept(vms[id], vms[id].(state := Some(state)))
    ensures DisksOk(vms[id := vms[id].(state := Some(state))], images, contents, born, past)
  {
    var vms1 := vms[id := vms[id].(state := Some(state))];
    forall a | a in vms1 && vms1[a].overlay.Some? ensures DiskOk(vms1[a], images, contents, born, past) {
      assert DiskOk(vms[a], images, contents, born, past);
    }
  }

  lemma RecordKeepsAdmission(vms: map<Id, Vm>, id: Id, state: State, live: set<Vmm>, now: nat, cpus: nat, memory: nat)
    requires Admitted(vms, live, cpus, memory) && Recordable(vms, id, state, live, now, cpus, memory)
    ensures Admitted(vms[id := vms[id].(state := Some(state))], live, cpus, memory)
  {
    hide Room, InRange;
    var vms1 := vms[id := vms[id].(state := Some(state))];
    if VmmOf(state.status).Some? && state.status != StatusOf(vms[id]) {
      AdmitsOneMore(vms, live, id, state, cpus, memory);
    } else {
      UsedAgrees(vms, live, vms1, id);
    }
  }

  lemma RecordKept(vms: map<Id, Vm>, id: Id, state: State, live: set<Vmm>, now: nat, cpus: nat, memory: nat)
    requires Recordable(vms, id, state, live, now, cpus, memory)
    ensures id in vms && Kept(vms, vms[id := vms[id].(state := Some(state))]) && Kept(vms, vms)
  {
    hide Room, InRange;
  }

  lemma RecordKeepsRest(vms: map<Id, Vm>, id: Id, state: State, live: set<Vmm>, now: nat, cpus: nat, memory: nat,
                        staged: map<(Id, nat), Inode>, contents: map<Inode, Bytes>, next: Inode,
                        jails: map<Id, Option<Inode>>)
    requires Recordable(vms, id, state, live, now, cpus, memory)
    requires StagedOk(vms, staged, contents, next) && JailsOk(vms, jails) && ClockOk(vms, live, now)
    ensures var vms1 := vms[id := vms[id].(state := Some(state))];
            StagedOk(vms1, staged, contents, next) && JailsOk(vms1, jails) && ClockOk(vms1, live, now)
  {
    hide Room, InRange, VmKept;
  }

  lemma FewerTwice(a: map<Id, Vm>, liveA: set<Vmm>, b: map<Id, Vm>, liveB: set<Vmm>, c: map<Id, Vm>, liveC: set<Vmm>)
    requires Fewer(a, liveA, b, liveB) && Fewer(b, liveB, c, liveC)
    ensures Fewer(a, liveA, c, liveC)
  {
  }

  /** A new VMM is in no record yet. */
  lemma NewVmmIsUnrecorded(vms: map<Id, Vm>, live: set<Vmm>, now: nat, p: Vmm)
    requires ClockOk(vms, live, now) && now <= p.start
    ensures Fewer(vms, live, vms, live + {p}) && ClockOk(vms, live + {p}, p.start + 1)
  {
  }

  /** Writing an unfinished copy touches no VM's disk. */
  lemma StagePart(vms: map<Id, Vm>, images: map<Path, Bytes>, contents: map<Inode, Bytes>, born: map<Inode, nat>,
                  past: seq<Writes>, staged: map<(Id, nat), Inode>, next: Inode, k: (Id, nat), disk: Inode, data: Bytes)
    requires DisksOk(vms, images, contents, born, past) && StagedOk(vms, staged, contents, next)
    requires if k in staged then disk == staged[k] else disk == next
    ensures DisksOk(vms, images, contents[disk := data], born, past)
    ensures StagedOk(vms, staged[k := disk], contents[disk := data], if disk < next then next else disk + 1)
  {
    forall id | id in vms && vms[id].overlay.Some? ensures DiskOk(vms[id], images, contents[disk := data], born, past) {
      assert DiskOk(vms[id], images, contents, born, past);
    }
  }

  /** A finished copy becomes a VM's disk by a rename. */
  lemma StageInstalled(vms: map<Id, Vm>, images: map<Path, Bytes>, contents: map<Inode, Bytes>, born: map<Inode, nat>,
                       past: seq<Writes>, staged: map<(Id, nat), Inode>, next: Inode, k: (Id, nat), id: Id)
    requires DisksOk(vms, images, contents, born, past) && StagedOk(vms, staged, contents, next)
    requires k in staged && id in vms && vms[id].overlay.None? && vms[id].state.Some?
    requires vms[id].state.value.rootfs in images && contents[staged[k]] == images[vms[id].state.value.rootfs]
    ensures var disk, vms1 := staged[k], vms[id := vms[id].(overlay := Some(staged[k]))];
            && DisksOk(vms1, images, contents, born[disk := |past|], past)
            && StagedOk(vms1, staged - {k}, contents, next) && BornKept(vms, born, born[disk := |past|])
  {
    var disk := staged[k];
    var vms1 := vms[id := vms[id].(overlay := Some(disk))];
    var born1 := born[disk := |past|];
    forall a | a in vms1 && vms1[a].overlay.Some? ensures DiskOk(vms1[a], images, contents, born1, past) {
      if a != id {
        assert DiskOk(vms[a], images, contents, born, past);
      }
    }
  }

  lemma InstalledKeepsRest(vms: map<Id, Vm>, live: set<Vmm>, now: nat, cpus: nat, memory: nat,
                           jails: map<Id, Option<Inode>>, id: Id, disk: Inode)
    requires id in vms && vms[id].overlay.None?
    requires Admitted(vms, live, cpus, memory) && IdentitiesOk(vms) && JailsOk(vms, jails) && ClockOk(vms, live, now)
    ensures var vms1 := vms[id := vms[id].(overlay := Some(disk))];
            && Admitted(vms1, live, cpus, memory) && IdentitiesOk(vms1)
            && JailsOk(vms1, jails) && ClockOk(vms1, live, now)
            && Kept(vms, vms1) && Fewer(vms, live, vms1, live)
  {
    var vms1 := vms[id := vms[id].(overlay := Some(disk))];
    AdmittedShrinks(vms, live, vms1, live, cpus, memory);
    hide Admitted, InRange;
  }

  lemma DirectoryAdded(vms: map<Id, Vm>, live: set<Vmm>, now: nat, cpus: nat, memory: nat,
                       jails: map<Id, Option<Inode>>, id: Id)
    requires id !in vms
    requires Admitted(vms, live, cpus, memory) && IdentitiesOk(vms) && JailsOk(vms, jails) && ClockOk(vms, live, now)
    ensures var vms1 := vms[id := Vm(None, None)];
            && Admitted(vms1, live, cpus, memory) && IdentitiesOk(vms1)
            && JailsOk(vms1, jails) && ClockOk(vms1, live, now)
            && Kept(vms, vms1)
  {
    var vms1 := vms[id := Vm(None, None)];
    AdmittedShrinks(vms, live, vms1, live, cpus, memory);
    hide Admitted, InRange;
  }

  lemma DirectoryKeepsDisks(vms: map<Id, Vm>, images: map<Path, Bytes>, contents: map<Inode, Bytes>,
                            born: map<Inode, nat>, past: seq<Writes>, staged: map<(Id, nat), Inode>, next: Inode,
                            id: Id)
    requires id !in vms && DisksOk(vms, images, contents, born, past) && StagedOk(vms, staged, contents, next)
    ensures var vms1 := vms[id := Vm(None, None)];
            DisksOk(vms1, images, contents, born, past) && StagedOk(vms1, staged, contents, next)
  {
    hide DiskOk;
  }

  lemma KeptFewer(vms: map<Id, Vm>, live: set<Vmm>, live1: set<Vmm>)
    requires live1 <= live
    ensures Kept(vms, vms) && Fewer(vms, live, vms, live1)
  {
  }

  /** Guests do not write an unfinished copy. */
  lemma StagedStays(vms: map<Id, Vm>, staged: map<(Id, nat), Inode>, before: map<Inode, Bytes>,
                    after: map<Inode, Bytes>, next: Inode, k: (Id, nat))
    requires StagedOk(vms, staged, after, next) && SameButDisks(vms, before, after) && k in staged
    ensures staged[k] in after && staged[k] in before && after[staged[k]] == before[staged[k]]
  {
  }

  lemma StagedLess(vms: map<Id, Vm>, staged: map<(Id, nat), Inode>, contents: map<Inode, Bytes>, next: Inode,
                   k: (Id, nat))
    requires StagedOk(vms, staged, contents, next)
    ensures StagedOk(vms, staged - {k}, contents, next) && (staged - {k}).Keys == staged.Keys - {k}
  {
  }

  lemma JailChanged(vms: map<Id, Vm>, jails: map<Id, Option<Inode>>, id: Id, link: Option<Inode>)
    requires JailsOk(vms, jails) && id in vms && (link.None? || link == vms[id].overlay)
    ensures JailsOk(vms, jails[id := link])
  {
  }

  lemma JailRemoved(vms: map<Id, Vm>, jails: map<Id, Option<Inode>>, id: Id)
    requires JailsOk(vms, jails)
    ensures JailsOk(vms, jails - {id}) && (jails - {id}).Keys == jails.Keys - {id}
  {
  }

  lemma RecordedFewer(vms: map<Id, Vm>, live: set<Vmm>, id: Id, state: State, vms1: map<Id, Vm>, live1: set<Vmm>)
    requires id in vms && live1 <= live
    requires vms1 == vms || vms1 == vms[id := vms[id].(state := Some(state))]
    requires VmmOf(state.status).None?
    ensures Fewer(vms, live, vms1, live1)
  {
  }

  /** A VM with room when it was admitted may be recorded as running. */
  lemma RunningRecordable(vms: map<Id, Vm>, live: set<Vmm>, vms1: map<Id, Vm>, live1: set<Vmm>, id: Id, state: State,
                          p: Vmm, now: nat, cpus: nat, memory: nat)
    requires id in vms && vms[id].state == Some(state) && id !in Counted(vms, live)
    requires Room(vms, live, cpus, memory, state.vcpus, state.memory) && Fewer(vms, live, vms1, live1)
    requires id in vms1 && vms1[id].state == vms[id].state && IdentitiesOk(vms1)
    requires p.start < now && p.group.id == id
    ensures Recordable(vms1, id, state.(status := Running(Some(p))), live1, now, cpus, memory)
  {
    UsedShrinks(vms, live, vms1, live1);
    hide UsedVcpus, UsedMemory, InRange, Counted;
    assert id !in Counted(vms1, live1);
    forall a | a in vms1 && a != id && state.identity.Some? ensures Uid(vms1[a]) != Some(state.identity.value.uid) {
      assert Uid(vms1[id]).Some?;
    }
  }

  lemma RoomLater(vms: map<Id, Vm>, live: set<Vmm>, vms1: map<Id, Vm>, live1: set<Vmm>, id: Id, cpus: nat, memory: nat,
                  vcpus: nat, mib: nat)
    requires Room(vms, live, cpus, memory, vcpus, mib) && id !in Counted(vms, live) && Fewer(vms, live, vms1, live1)
    ensures Room(vms1, live1, cpus, memory, vcpus, mib) && id !in Counted(vms1, live1)
  {
    UsedShrinks(vms, live, vms1, live1);
    hide UsedVcpus, UsedMemory, Counted;
  }

  lemma StoppedRecordable(vms: map<Id, Vm>, id: Id, live: set<Vmm>, now: nat, cpus: nat, memory: nat)
    requires IdentitiesOk(vms) && id in vms && vms[id].state.Some?
    ensures Recordable(vms, id, vms[id].state.value.(status := Stopped), live, now, cpus, memory)
  {
    hide Room, Counted;
    forall a | a in vms && a != id && Uid(vms[id]).Some? ensures Uid(vms[a]) != Uid(vms[id]) {
    }
  }

  lemma NewRecordable(vms: map<Id, Vm>, accounts: set<nat>, id: Id, state: State, live: set<Vmm>, now: nat,
                      cpus: nat, memory: nat)
    requires state.identity.Some? && state.identity.value.gid == state.identity.value.uid
    requires LeastFree(vms, accounts, state.identity.value.uid) && VmmOf(state.status).None?
    ensures Recordable(vms[id := Vm(None, None)], id, state, live, now, cpus, memory)
  {
    hide Room, Counted;
    var vms1 := vms[id := Vm(None, None)];
    forall a | a in vms1 && a != id ensures Uid(vms1[a]) != Some(state.identity.value.uid) {
      assert a in vms && vms1[a] == vms[a];
    }
  }

  /** At most one entry is new, and the process knows of it. */
  predicate OnlyNew<K>(before: set<K>, after: set<K>, k: K, known: bool) {
    after <= before + {k} && (known || after <= before)
  }

  lemma NothingNew<K>(before: set<K>, k: K, known: bool)
    ensures OnlyNew(before, before, k, known)
  {
  }

  lemma NoneElseNew<K, V>(before: map<K, V>, after: map<K, V>, k: K, known: bool)
    requires OnlyAt(before, after, k) && (known || k !in after)
    ensures OnlyNew(before.Keys, after.Keys, k, known)
  {
    forall a | a in after && a != k ensures a in before {
      assert a in after - {k};
    }
  }

  lemma AtMostOneNew<K>(before: set<K>, after: set<K>, k: K, known: bool)
    requires OnlyNew(before, after, k, known)
    ensures after <= before + {k}
  {
  }

  /** What a start depends on, besides the records. */
  datatype Host = Host(cpus: nat, memory: nat, kernels: set<Path>, disks: set<Path>, parent: Option<Path>,
                       reliable: bool)

  /** Why a start is refused: there is no reason but these, whatever the VMM and other programs do. */
  ghost predicate Justified(refusal: Refusal, vms: map<Id, Vm>, live: set<Vmm>, id: Id, host: Host) {
    var state := if id in vms then vms[id].state else None;
    match refusal
    case UnknownVm => id !in vms
    case NoState => id in vms && state.None?
    case BadNumbers => state.Some? && !(1 <= state.value.vcpus <= 16 && 128 <= state.value.memory <= 16384)
    case NoIdentity => state.Some? && Uid(vms[id]).None?
    case NoCpus => state.Some? && UsedVcpus(vms, live) + state.value.vcpus > host.cpus
    case NoMemory => state.Some? && UsedMemory(vms, live) + state.value.memory + OVERHEAD + RESERVE > host.memory
    case NoImage => state.Some? && !(state.value.kernel in host.kernels && state.value.rootfs in host.disks)
    case NoCapacity => !host.reliable || host.cpus < 1 || host.memory < 1
    case Unready => host.parent.None?
    case Interrupted => !host.reliable
    case VmmDied(p) => host.parent.Some? && p.group == Group(host.parent.value, id)
    case AlreadyExists | Occupied => false
  }

  /** Of the VMMs of other VMs, none is new, and none ends when VMMs do not end by themselves. */
  ghost predicate Spared(before: set<Vmm>, after: set<Vmm>, ids: set<Id>, sturdy: bool) {
    forall p: Vmm :: p.group.id !in ids ==> (p in after ==> p in before) && (sturdy && p in before ==> p in after)
  }

  lemma AllSpared(before: set<Vmm>, after: set<Vmm>, ids: set<Id>, sturdy: bool)
    requires after <= before && (sturdy ==> after == before)
    ensures Spared(before, after, ids, sturdy)
  {
  }

  /** Those that have ended were of one VM. */
  lemma TargetsSpared(before: set<Vmm>, after: set<Vmm>, targets: set<Vmm>, id: Id, sturdy: bool)
    requires after <= before && before - after <= targets && forall p :: p in targets ==> p.group.id == id
    ensures Spared(before, after, {id}, sturdy)
  {
    forall p | p in before && p !in after ensures p.group.id == id {
      assert p in before - after;
    }
  }

  lemma SparedTwice(a: set<Vmm>, b: set<Vmm>, c: set<Vmm>, ids: set<Id>, sturdy: bool)
    requires Spared(a, b, ids, sturdy) && Spared(b, c, ids, sturdy)
    ensures Spared(a, c, ids, sturdy)
  {
  }

  lemma SparedStill(a: set<Vmm>, b: set<Vmm>, c: set<Vmm>, ids: set<Id>, sturdy: bool)
    requires Spared(a, b, ids, sturdy) && c <= b && (sturdy ==> c == b)
    ensures Spared(a, c, ids, sturdy)
  {
  }

  lemma NewSpared(a: set<Vmm>, b: set<Vmm>, c: set<Vmm>, p: Vmm, id: Id, sturdy: bool)
    requires b <= a && (sturdy ==> b == a) && c == b + {p} && p.group.id == id
    ensures Spared(a, c, {id}, sturdy)
  {
  }

  lemma SparedMore(a: set<Vmm>, b: set<Vmm>, c: set<Vmm>, id: Id, ids: set<Id>, sturdy: bool)
    requires Spared(a, b, ids, sturdy) && Spared(b, c, {id}, sturdy) && id in ids
    ensures Spared(a, c, ids, sturdy)
  {
  }

  /** Nothing changed in the state but that it has an identity, and with it forgot its VMM. */
  predicate Identified(before: Option<State>, after: Option<State>) {
    || after == before
    || (&& before.Some? && before.value.identity.None? && after.Some? && after.value.identity.Some?
        && after.value == before.value.(identity := after.value.identity,
                                        status := if before.value.status.Running? then Running(None)
                                                  else before.value.status))
  }

  /** The numbers are in range and the files are there. */
  predicate Startable(state: State, kernels: set<Path>, disks: set<Path>) {
    1 <= state.vcpus <= 16 && 128 <= state.memory <= 16384 && state.kernel in kernels && state.rootfs in disks
  }

  lemma NotCounted(vms: map<Id, Vm>, live: set<Vmm>, live1: set<Vmm>, id: Id)
    requires id in vms && !Runs(vms[id], live) && live1 <= live
    ensures id !in Counted(vms, live1)
  {
  }

  class Manager {
    /** The parent's processors and memory, and the root file systems that VMs are made from. */
    const cpus: nat
    const memory: nat
    const images: map<Path, Bytes>
    const kernels: set<Path>
    /** No step of the manager fails or is killed; VMMs may still die. */
    var reliable: bool
    /** No VMM ends but by a signal. */
    var sturdy: bool

    var vms: map<Id, Vm>
    var jails: map<Id, Option<Inode>>
    /** Unfinished disk copies, by VM and by the pid of the manager that made them. */
    var staged: map<(Id, nat), Inode>
    var contents: map<Inode, Bytes>
    var next: Inode
    /** What guests try to write, turn by turn; only a VM's disk takes it. */
    const writes: seq<Writes>
    var written: nat
    var live: set<Vmm>
    var now: nat
    /** Host accounts and groups. */
    var accounts: set<nat>

    // What this process must undo when a start fails.
    var startedGroup: Option<Group>
    var startedJail: bool
    var startedOverlay: bool

    /** The turn at which each disk became a VM's. */
    ghost var born: map<Inode, nat>

    ghost predicate Valid()
      reads this
    {
      && Admitted(vms, live, cpus, memory) && IdentitiesOk(vms)
      && written <= |writes| && DisksOk(vms, images, contents, born, writes[..written])
      && StagedOk(vms, staged, contents, next)
      && JailsOk(vms, jails) && ClockOk(vms, live, now)
    }

    constructor (cpus: nat, memory: nat, images: map<Path, Bytes>, kernels: set<Path>, writes: seq<Writes>,
                 accounts: set<nat>, now: nat)
      ensures Valid() && vms == map[] && this.cpus == cpus && this.memory == memory && this.images == images
      ensures this.writes == writes && this.kernels == kernels
    {
      this.cpus, this.memory, this.images, this.kernels := cpus, memory, images, kernels;
      this.writes, this.written, this.reliable, this.sturdy := writes, 0, false, false;
      this.vms, this.jails, this.staged, this.contents, this.next := map[], map[], map[], map[], 0;
      this.live, this.now, this.accounts := {}, now, accounts;
      this.startedGroup, this.startedJail, this.startedOverlay := None, false, false;
      this.born := map[];
    }

    // ----- The environment -----

    method Pass()
      requires Valid()
      modifies this`live, this`accounts, this`now
      ensures Valid() && live <= old(live) && old(now) <= now && (sturdy ==> live == old(live))
    {
      hide Admitted, DisksOk, StagedOk, IdentitiesOk, JailsOk;
      var dead: set<Vmm> := *;
      dead := if sturdy then {} else dead;
      var ticks: nat :| 0 <= ticks;
      AdmittedShrinks(vms, live, vms, live - dead, cpus, memory);
      live := live - dead;
      accounts := *;
      now := now + ticks;
    }

    /** A signal may end those that it is sent to. */
    method Signal(targets: set<Vmm>)
      requires Valid()
      modifies this`live
      ensures Valid() && live <= old(live) && old(live) - live <= targets
    {
      hide Admitted, DisksOk, StagedOk, IdentitiesOk, JailsOk;
      var dead: set<Vmm> := *;
      dead := dead * targets;
      AdmittedShrinks(vms, live, vms, live - dead, cpus, memory);
      live := live - dead;
    }

    /** Everything in a cgroup gets a signal. */
    method SignalGroup(group: Group)
      requires Valid()
      modifies this`live
      ensures Valid() && live <= old(live) && Spared(old(live), live, {group.id}, sturdy)
    {
      hide Valid;
      var targets := set p | p in live && p.group == group;
      Signal(targets);
      TargetsSpared(old(live), live, targets, group.id, sturdy);
    }

    method GuestsWrite()
      requires Valid()
      modifies this`contents, this`written
      ensures Valid() && SameButDisks(vms, old(contents), contents)
    {
      hide Admitted, DisksOk, StagedOk, IdentitiesOk, JailsOk, ClockOk, SameButDisks, ToDisks;
      NothingWritten(vms, contents);
      var some: bool := *;
      if some && written < |writes| {
        StagedWritten(vms, staged, contents, next, writes[written]);
        DisksWritten(vms, images, contents, born, writes[..written], writes[written]);
        assert writes[..written + 1] == writes[..written] + [writes[written]];
        contents := contents + ToDisks(vms, contents, writes[written]);
        written := written + 1;
      }
    }

    /** VMMs die, guests write their disks, accounts change, time passes. */
    method Environment()
      requires Valid()
      modifies this`live, this`contents, this`written, this`accounts, this`now
      ensures Valid() && live <= old(live) && old(now) <= now
      ensures (sturdy ==> live == old(live)) && SameButDisks(vms, old(contents), contents)
    {
      hide Admitted, DisksOk, StagedOk, IdentitiesOk, JailsOk, ClockOk, SameButDisks;
      Pass();
      GuestsWrite();
    }

    method Step() returns (r: Outcome<(), Refusal>)
      requires Valid()
      modifies this`live, this`contents, this`written, this`accounts, this`now
      ensures Valid() && live <= old(live) && old(now) <= now
      ensures (sturdy ==> live == old(live)) && SameButDisks(vms, old(contents), contents)
      ensures r.Fault? ==> r.error == Interrupted
      ensures reliable ==> r.Done?
    {
      Environment();
      if reliable {
        return Done(());
      }
      if * {
        return Killed;
      }
      if * {
        return Fault(Interrupted);
      }
      return Done(());
    }

    // ----- Resources and identities -----

    /** `running_resources`: exact, except that a VMM that dies meanwhile may still be counted. */
    method RunningResources() returns (vcpus: nat, mib: nat)
      requires Valid()
      modifies this`live, this`contents, this`written, this`accounts, this`now
      ensures Valid() && live <= old(live) && old(now) <= now
      ensures UsedVcpus(vms, live) <= vcpus <= UsedVcpus(vms, old(live))
      ensures UsedMemory(vms, live) <= mib <= UsedMemory(vms, old(live))
      ensures sturdy ==> live == old(live)
    {
      hide Valid, SameButDisks, Tally, UsedVcpus, UsedMemory, VmmOf;
      vcpus, mib := 0, 0;
      TallyAtFirst(vms, live);
      var todo := vms.Keys;
      ghost var done: set<Id> := {};
      while todo != {}
        invariant Valid() && live <= old(live) && old(now) <= now && (sturdy ==> live == old(live))
        invariant todo !! done && todo + done == vms.Keys
        invariant Tally(vms, live, old(live), done, vcpus, mib)
        decreases |todo|
      {
        var id :| id in todo;
        todo := todo - {id};
        ghost var before := live;
        Environment();
        TallyNext(vms, before, live, old(live), done, id, vcpus, mib);
        done := done + {id};
        if Runs(vms[id], live) {
          vcpus := vcpus + vms[id].state.value.vcpus;
          mib := mib + vms[id].state.value.memory + OVERHEAD;
        }
      }
      TallyOfAll(vms, live, old(live), done, vcpus, mib);
    }

    /** `check_start_resources` */
    method CheckStartResources(vcpus: nat, mib: nat) returns (r: Outcome<(), Refusal>)
      requires Valid()
      modifies this`live, this`contents, this`written, this`accounts, this`now
      ensures Valid() && live <= old(live) && old(now) <= now
      ensures r.Done? ==> Room(vms, live, cpus, memory, vcpus, mib)
      ensures r.Fault? ==> r.error in {NoCapacity, NoCpus, NoMemory}
      ensures !r.Killed? && (r == Fault(NoCapacity) ==> !reliable || cpus < 1 || memory < 1)
      ensures r == Fault(NoCpus) ==> UsedVcpus(vms, old(live)) + vcpus > cpus
      ensures r == Fault(NoMemory) ==> UsedMemory(vms, old(live)) + mib + OVERHEAD + RESERVE > memory
      ensures sturdy ==> live == old(live)
    {
      hide IdentitiesOk, DisksOk, StagedOk, JailsOk, ClockOk, Admitted, UsedVcpus, UsedMemory;
      var known: bool := *;
      if (!known && !reliable) || cpus < 1 || memory < 1 {
        return Fault(NoCapacity);
      }
      var usedVcpus, usedMemory := RunningResources();
      if vcpus > cpus - usedVcpus {
        return Fault(NoCpus);
      }
      if mib + OVERHEAD > memory - RESERVE - usedMemory {
        return Fault(NoMemory);
      }
      return Done(());
    }

    /** `identity_in_use` */
    method IdentityInUse(uid: nat) returns (used: bool)
      ensures used <==> Taken(vms, accounts, uid)
    {
      if uid in accounts {
        return true;
      }
      var todo := vms.Keys;
      while todo != {}
        invariant todo <= vms.Keys
        invariant forall id :: id in vms && id !in todo ==> Uid(vms[id]) != Some(uid)
        decreases |todo|
      {
        var id :| id in todo;
        todo := todo - {id};
        if Uid(vms[id]) == Some(uid) {
          return true;
        }
      }
      return false;
    }

    /** `allocate_identity`: the least identity that is free, and none exactly when all are taken. */
    method AllocateIdentity() returns (uid: Option<nat>)
      ensures uid.Some? ==> UID_BASE <= uid.value <= UID_LIMIT && !Taken(vms, accounts, uid.value)
      ensures forall u :: UID_BASE <= u <= UID_LIMIT && (uid.None? || u < uid.value) ==> Taken(vms, accounts, u)
    {
      for candidate := UID_BASE to UID_LIMIT + 1
        invariant forall u :: UID_BASE <= u < candidate ==> Taken(vms, accounts, u)
      {
        var used := IdentityInUse(candidate);
        if !used {
          return Some(candidate);
        }
      }
      return None;
    }

    // ----- Records -----

    /** `write_state`: the state file is replaced whole or not at all. */
    method WriteState(id: Id, state: State) returns (r: Outcome<(), Refusal>)
      requires Valid() && Recordable(vms, id, state, live, now, cpus, memory)
      modifies this`vms, this`live, this`contents, this`written, this`accounts, this`now
      ensures Valid() && live <= old(live) && old(now) <= now && Kept(old(vms), vms)
      ensures vms == old(vms) || vms == old(vms)[id := old(vms)[id].(state := Some(state))]
      ensures r.Done? ==> vms == old(vms)[id := old(vms)[id].(state := Some(state))]
      ensures r.Fault? ==> r.error == Interrupted
      ensures sturdy ==> live == old(live)
      ensures reliable ==> r.Done?
    {
      hide Room, SameButDisks, VmKept, UsedVcpus, UsedMemory, Recordable, StagedOk;
      ghost var before := live;
      RecordKept(vms, id, state, live, now, cpus, memory);
      var _ :- Step();
      RecordableLater(vms, id, state, before, old(now), live, now, cpus, memory);
      RecordKeepsIdentities(vms, id, state, live, now, cpus, memory);
      RecordKeepsAdmission(vms, id, state, live, now, cpus, memory);
      RecordKeepsDisks(vms, id, state, images, contents, born, writes[..written]);
      RecordKeepsRest(vms, id, state, live, now, cpus, memory, staged, contents, next, jails);
      hide Admitted, DisksOk, IdentitiesOk, Counted, ClockOk, JailsOk;
      vms := vms[id := vms[id].(state := Some(state))];
      return Done(());
    }

    // ----- Starting -----

    /** `cp` creates the file or truncates the one there. */
    method Stage(k: (Id, nat), data: Bytes)
      requires Valid()
      modifies this`staged, this`contents, this`next
      ensures Valid() && k in staged && staged[k] in contents && contents[staged[k]] == data
      ensures staged.Keys == old(staged.Keys) + {k} && OnlyAt(old(staged), staged, k)
    {
      hide Admitted, IdentitiesOk, DisksOk, StagedOk, JailsOk, ClockOk;
      var disk := if k in staged then staged[k] else next;
      StagePart(vms, images, contents, born, writes[..written], staged, next, k, disk, data);
      staged := staged[k := disk];
      contents := contents[disk := data];
      next := if disk < next then next else disk + 1;
    }

    /** `cp` takes time, and only a finished copy is a complete one. */
    method CopyImage(k: (Id, nat), image: Bytes) returns (r: Outcome<(), Refusal>)
      requires Valid()
      modifies this`staged, this`contents, this`next, this`live, this`written, this`accounts, this`now
      ensures Valid() && live <= old(live) && old(now) <= now
      ensures r.Done? ==> k in staged && staged[k] in contents && contents[staged[k]] == image
      ensures staged.Keys <= old(staged.Keys) + {k} && OnlyAt(old(staged), staged, k)
      ensures sturdy ==> live == old(live)
      ensures r.Fault? ==> r.error == Interrupted
      ensures reliable ==> r.Done?
    {
      hide Valid, SameButDisks, OnlyAt;
      OnlyAtSame(staged, k);
      var _ :- Step();
      var part: Bytes := *;
      Stage(k, part);
      ghost var begun := staged;
      var _ :- Step();
      Stage(k, image);
      OnlyAtTwice(old(staged), begun, staged, k);
      r := Finish(k, image);
    }

    /** The last bytes of a copy reach the disk. */
    method Finish(k: (Id, nat), ghost image: Bytes) returns (r: Outcome<(), Refusal>)
      requires Valid() && k in staged && staged[k] in contents && contents[staged[k]] == image
      modifies this`contents, this`live, this`written, this`accounts, this`now
      ensures Valid() && live <= old(live) && old(now) <= now && (sturdy ==> live == old(live))
      ensures staged[k] in contents && contents[staged[k]] == image
      ensures r.Fault? ==> r.error == Interrupted
      ensures reliable ==> r.Done?
    {
      hide Admitted, IdentitiesOk, DisksOk, StagedOk, JailsOk, ClockOk, SameButDisks;
      r := Step();
      StagedStays(vms, staged, old(contents), contents, next, k);
    }

    /** The rename that makes a copy the VM's disk. */
    method Install(k: (Id, nat), id: Id)
      requires Valid() && k in staged && id in vms && vms[id].overlay.None? && vms[id].state.Some?
      requires vms[id].state.value.rootfs in images
      requires staged[k] in contents && contents[staged[k]] == images[vms[id].state.value.rootfs]
      modifies this`vms, this`staged, this`born
      ensures Valid() && Kept(old(vms), vms) && BornKept(old(vms), old(born), born)
      ensures Fewer(old(vms), live, vms, live)
      ensures vms == old(vms)[id := old(vms)[id].(overlay := Some(old(staged)[k]))] && staged == old(staged) - {k}
    {
      hide Admitted, IdentitiesOk, DisksOk, StagedOk, JailsOk, ClockOk, Kept, Fewer;
      StageInstalled(vms, images, contents, born, writes[..written], staged, next, k, id);
      InstalledKeepsRest(vms, live, now, cpus, memory, jails, id, staged[k]);
      ghost var disk := staged[k];
      born := born[disk := written];
      vms := vms[id := vms[id].(overlay := Some(staged[k]))];
      staged := staged - {k};
    }

    /** The private disk is copied beside its place and moved there when it is complete. */
    method MakeOverlay(id: Id, pid: nat) returns (r: Outcome<(), Refusal>)
      requires Valid() && id in vms && vms[id].state.Some? && vms[id].state.value.rootfs in images && !startedOverlay
      modifies this`vms, this`staged, this`contents, this`written, this`next, this`live, this`born, this`accounts,
               this`now, this`startedOverlay
      ensures Valid() && Kept(old(vms), vms) && Fewer(old(vms), old(live), vms, live) && old(now) <= now
      ensures BornKept(old(vms), old(born), born) && OnlyAt(old(vms), vms, id) && OnlyAt(old(staged), staged, (id, pid))
      ensures vms.Keys == old(vms.Keys) && forall a :: a in vms ==> vms[a].state == old(vms)[a].state
      ensures r.Done? ==> vms[id].overlay.Some? && !startedOverlay
      ensures live <= old(live) && (sturdy ==> live == old(live))
      ensures OnlyNew(old(staged.Keys), staged.Keys, (id, pid), startedOverlay)
      ensures r.Fault? ==> r.error == Interrupted
      ensures reliable ==> r.Done?
    {
      hide Admitted, IdentitiesOk, DisksOk, StagedOk, JailsOk, ClockOk, Kept, Fewer;
      KeptFewer(vms, live, live);
      if vms[id].overlay.Some? {
        return Done(());
      }
      startedOverlay := true;
      r := CopyImage((id, pid), images[vms[id].state.value.rootfs]);
      KeptFewer(vms, old(live), live);
      if !r.Done? {
        return;
      }
      Install((id, pid), id);
      FewerTwice(old(vms), old(live), old(vms), live, vms, live);
      startedOverlay := false;
    }

    method SetJail(id: Id, link: Option<Inode>)
      requires Valid() && id in vms && (link.None? || link == vms[id].overlay)
      modifies this`jails
      ensures Valid() && jails == old(jails)[id := link] && OnlyAt(old(jails), jails, id)
    {
      hide Admitted, IdentitiesOk, DisksOk, StagedOk, JailsOk, ClockOk, OnlyAt;
      JailChanged(vms, jails, id, link);
      OnlyAtPut(jails, id, link);
      jails := jails[id := link];
    }

    method RemoveJail(id: Id)
      requires Valid()
      modifies this`jails
      ensures Valid() && jails == old(jails) - {id}
      ensures jails.Keys == old(jails.Keys) - {id} && OnlyAt(old(jails), jails, id)
    {
      hide Admitted, IdentitiesOk, DisksOk, StagedOk, JailsOk, ClockOk, OnlyAt;
      JailRemoved(vms, jails, id);
      OnlyAtRemoved(jails, id);
      jails := jails - {id};
    }

    /** This process's unfinished copy goes, when it has one. */
    method DropCopy(k: (Id, nat))
      requires Valid()
      modifies this`staged
      ensures Valid() && OnlyAt(old(staged), staged, k)
      ensures staged.Keys == if startedOverlay then old(staged.Keys) - {k} else old(staged.Keys)
      ensures staged == if startedOverlay then old(staged) - {k} else old(staged)
    {
      hide Admitted, IdentitiesOk, DisksOk, StagedOk, JailsOk, ClockOk, OnlyAt;
      OnlyAtSame(staged, k);
      if startedOverlay {
        StagedLess(vms, staged, contents, next, k);
        OnlyAtRemoved(staged, k);
        staged := staged - {k};
      }
    }

    /** This process's jail goes, when it has one. */
    method DropJail(id: Id)
      requires Valid()
      modifies this`jails
      ensures Valid() && OnlyAt(old(jails), jails, id)
      ensures jails.Keys == if startedJail then old(jails.Keys) - {id} else old(jails.Keys)
      ensures jails == if startedJail then old(jails) - {id} else old(jails)
    {
      hide Admitted, IdentitiesOk, DisksOk, StagedOk, JailsOk, ClockOk, OnlyAt;
      OnlyAtSame(jails, id);
      if startedJail {
        RemoveJail(id);
      }
    }

    /** From here on this process must undo the jail. */
    method ClaimJail()
      requires Valid()
      modifies this`startedJail
      ensures Valid() && startedJail
    {
      hide Admitted, IdentitiesOk, DisksOk, StagedOk, JailsOk, ClockOk;
      startedJail := true;
    }

    /** An empty jail takes the place of the one there. */
    method MakeJail(id: Id) returns (r: Outcome<(), Refusal>)
      requires Valid() && id in vms
      modifies this`jails, this`live, this`contents, this`written, this`accounts, this`now, this`startedJail
      ensures Valid() && live <= old(live) && old(now) <= now && (sturdy ==> live == old(live))
      ensures r.Done? ==> startedJail
      ensures OnlyNew(old(jails.Keys), jails.Keys, id, startedJail) && OnlyAt(old(jails), jails, id)
      ensures r.Fault? ==> r.error == Interrupted
      ensures reliable ==> r.Done?
    {
      hide Valid, SameButDisks, OnlyAt, OnlyNew;
      OnlyAtSame(jails, id);
      NothingNew(jails.Keys, id, startedJail);
      var _ :- Step();
      RemoveJail(id);
      NoneElseNew(old(jails), jails, id, startedJail);
      var _ :- Step();
      ghost var removed := jails;
      SetJail(id, None);
      OnlyAtTwice(old(jails), removed, jails, id);
      ClaimJail();
      NoneElseNew(old(jails), jails, id, startedJail);
      return Done(());
    }

    /** The jail holds one more link to the VM's own disk. */
    method BuildJail(id: Id) returns (r: Outcome<(), Refusal>)
      requires Valid() && id in vms && vms[id].overlay.Some?
      modifies this`jails, this`live, this`contents, this`written, this`accounts, this`now, this`startedJail
      ensures Valid() && live <= old(live) && old(now) <= now
      ensures r.Done? ==> id in jails && jails[id] == vms[id].overlay
      ensures OnlyNew(old(jails.Keys), jails.Keys, id, startedJail) && OnlyAt(old(jails), jails, id)
      ensures sturdy ==> live == old(live)
      ensures r.Fault? ==> r.error == Interrupted
      ensures reliable ==> r.Done?
    {
      hide Valid, SameButDisks, OnlyAt, OnlyNew;
      var _ :- MakeJail(id);
      var _ :- Step();
      ghost var made := jails;
      SetJail(id, vms[id].overlay);
      OnlyAtTwice(old(jails), made, jails, id);
      NoneElseNew(old(jails), jails, id, startedJail);
      var _ :- Step();
      return Done(());
    }

    /** From here on this process must undo what runs in the cgroup. */
    method ClaimGroup(group: Group)
      requires Valid()
      modifies this`startedGroup
      ensures Valid() && startedGroup == Some(group)
    {
      hide Admitted, IdentitiesOk, DisksOk, StagedOk, JailsOk, ClockOk;
      startedGroup := Some(group);
    }

    method Appear(p: Vmm)
      requires Valid() && now <= p.start
      modifies this`live, this`now
      ensures Valid() && live == old(live) + {p} && p.start < now && Fewer(vms, old(live), vms, live)
    {
      hide Admitted, IdentitiesOk, DisksOk, StagedOk, JailsOk, ClockOk, Fewer;
      NewVmmIsUnrecorded(vms, live, now, p);
      AdmittedShrinks(vms, live, vms, live + {p}, cpus, memory);
      live := live + {p};
      now := p.start + 1;
    }

    /** The VMM starts as a child of the manager and is configured while it may die. */
    method Launch(group: Group) returns (r: Outcome<Vmm, Refusal>)
      requires Valid()
      modifies this`live, this`contents, this`written, this`accounts, this`now, this`startedGroup
      ensures Valid() && Fewer(vms, old(live), vms, live) && old(now) <= now
      ensures r.Done? ==> r.value.start < now && r.value.group == group
      ensures startedGroup == Some(group) && Spared(old(live), live, {group.id}, sturdy)
      ensures r.Done? ==> live <= old(live) + {r.value} && (sturdy ==> live == old(live) + {r.value})
      ensures r.Fault? && r.error != Interrupted ==>
        && r.error.VmmDied? && r.error.vmm.group == group
        && r.error.vmm !in live && old(now) <= r.error.vmm.start
      ensures reliable ==> !r.Killed? && r != Fault(Interrupted)
      ensures r.Done? ==> r.value in live && old(now) <= r.value.start
      ensures reliable && sturdy ==> r.Done?
    {
      hide Valid, Fewer, Spared, SameButDisks, Kept;
      r := Killed;
      ClaimGroup(group);
      var step := Step();
      KeptFewer(vms, old(live), live);
      AllSpared(old(live), live, {group.id}, sturdy);
      if !step.Done? {
        return step.PropagateFailure();
      }
      var pid: nat :| 0 <= pid;
      var p := Vmm(pid, now, group);
      ghost var before := live;
      Appear(p);
      FewerTwice(vms, old(live), vms, before, vms, live);
      NewSpared(old(live), before, live, p, group.id, sturdy);
      ghost var launched := live;
      step := Step();
      KeptFewer(vms, launched, live);
      FewerTwice(vms, old(live), vms, launched, vms, live);
      SparedStill(old(live), launched, live, {group.id}, sturdy);
      if !step.Done? {
        return step.PropagateFailure();
      }
      if p !in live {
        return Fault(VmmDied(p));
      }
      return Done(p);
    }

    /** Nothing is to be undone. */
    method ForgetAll()
      requires Valid()
      modifies this`startedGroup, this`startedJail, this`startedOverlay
      ensures Valid() && startedGroup == None && !startedJail && !startedOverlay
    {
      hide Admitted, IdentitiesOk, DisksOk, StagedOk, JailsOk, ClockOk;
      startedGroup, startedJail, startedOverlay := None, false, false;
    }

    /** `cleanup_start`: undoes what this process did; a VM's disk is not among it. */
    method CleanupStart(id: Id, pid: nat) returns (r: Outcome<(), Refusal>)
      requires Valid() && (startedGroup.Some? ==> startedGroup.value.id == id)
      modifies this`jails, this`staged, this`live, this`contents, this`written, this`accounts, this`now,
               this`startedGroup, this`startedJail, this`startedOverlay
      ensures Valid() && live <= old(live) && old(now) <= now && Spared(old(live), live, {id}, sturdy)
      ensures !r.Fault? && (reliable ==> r.Done?)
      ensures r.Done? ==> jails == if old(startedJail) then old(jails) - {id} else old(jails)
      ensures r.Done? ==> staged == if old(startedOverlay) then old(staged) - {(id, pid)} else old(staged)
      ensures OnlyAt(old(jails), jails, id) && OnlyAt(old(staged), staged, (id, pid))
    {
      hide *;
      OnlyAtSame(jails, id);
      OnlyAtSame(staged, (id, pid));
      AllSpared(live, live, {id}, sturdy);
      if startedGroup.Some? {
        SignalGroup(startedGroup.value);
      }
      ghost var signalled := live;
      var step := Step();
      SparedStill(old(live), signalled, live, {id}, sturdy);
      if step.Killed? {
        return Killed;
      }
      DropCopy((id, pid));
      ghost var dropped := live;
      step := Step();
      SparedStill(old(live), dropped, live, {id}, sturdy);
      if step.Killed? {
        return Killed;
      }
      DropJail(id);
      ForgetAll();
      return Done(());
    }

    /** A VM of the time before identities gets one. */
    method Identify(id: Id) returns (r: Outcome<State, Refusal>)
      requires Valid() && id in vms && vms[id].state.Some? && !Runs(vms[id], live)
      modifies this`vms, this`live, this`contents, this`written, this`accounts, this`now
      ensures Valid() && Kept(old(vms), vms) && Fewer(old(vms), old(live), vms, live) && old(now) <= now
      ensures r.Done? ==> id in vms && vms[id].state == Some(r.value) && r.value.identity.Some?
      ensures id in vms && !Runs(vms[id], live) && OnlyAt(old(vms), vms, id) && SameOverlays(old(vms), vms)
      ensures reliable ==> !r.Killed? && r != Fault(Interrupted)
      ensures live <= old(live) && (sturdy ==> live == old(live)) && Identified(old(vms)[id].state, vms[id].state)
      ensures r == Fault(NoIdentity) ==> forall u :: UID_BASE <= u <= UID_LIMIT ==> Taken(old(vms), old(accounts), u)
      ensures r.Done? && Uid(old(vms)[id]).None? ==>
        LeastFree(old(vms), old(accounts), r.value.identity.value.uid)
      ensures r.Fault? ==> r.error == Interrupted || (r.error == NoIdentity && Uid(old(vms)[id]).None?)
      ensures r.Done? ==>
        && r.value.vcpus == old(vms)[id].state.value.vcpus && r.value.memory == old(vms)[id].state.value.memory
        && r.value.kernel == old(vms)[id].state.value.kernel && r.value.rootfs == old(vms)[id].state.value.rootfs
    {
      hide Admitted, DisksOk, StagedOk, JailsOk, ClockOk, Counted, Room, SameButDisks;
      KeptFewer(vms, live, live);
      var state := vms[id].state.value;
      if state.identity.Some? && state.identity.value.uid == state.identity.value.gid {
        return Done(state);
      }
      var uid := AllocateIdentity();
      if uid.None? {
        return Fault(NoIdentity);
      }
      assert LeastFree(vms, accounts, uid.value);
      hide LeastFree, Taken;
      state := state.(identity := Some(Identity(uid.value, uid.value)),
                      status := if state.status.Running? then Running(None) else state.status);
      var wrote := WriteState(id, state);
      RecordedFewer(old(vms), old(live), id, state, vms, live);
      return if wrote.Done? then Done(state) else wrote.PropagateFailure();
    }

    /** The stored numbers and the identity that `start` goes by. */
    method Settings(id: Id, ghost parent: Option<Path>) returns (r: Outcome<State, Refusal>)
      requires Valid() && id in vms && vms[id].state.Some? && !Runs(vms[id], live)
      modifies this`vms, this`live, this`contents, this`written, this`accounts, this`now
      ensures Valid() && Kept(old(vms), vms) && old(now) <= now
      ensures OnlyAt(old(vms), vms, id) && SameOverlays(old(vms), vms)
      ensures live <= old(live) && (sturdy ==> live == old(live))
      ensures Fewer(old(vms), old(live), vms, live) && id in vms && !Runs(vms[id], live)
      ensures Identified(old(vms)[id].state, vms[id].state)
      ensures r.Done? ==>
        && vms[id].state == Some(r.value) && r.value.identity.Some?
        && var asked := old(vms)[id].state.value;
           && r.value.vcpus == asked.vcpus && r.value.memory == asked.memory
           && r.value.kernel == asked.kernel && r.value.rootfs == asked.rootfs
           && 1 <= r.value.vcpus <= 16 && 128 <= r.value.memory <= 16384
      ensures r.Fault? ==>
        && !r.error.VmmDied?
        && Justified(r.error, old(vms), old(live), id, Host(cpus, memory, kernels, images.Keys, parent, reliable))
      ensures reliable ==> !r.Killed?
    {
      hide Valid, SameButDisks, Kept, Fewer, OnlyAt, UsedVcpus, UsedMemory;
      OnlyAtSame(vms, id);
      KeptFewer(vms, live, live);
      var step := Step();
      KeptFewer(vms, old(live), live);
      if !step.Done? {
        return step.PropagateFailure();
      }
      var asked := vms[id].state.value;
      if !(1 <= asked.vcpus <= 16) || !(128 <= asked.memory <= 16384) {
        return Fault(BadNumbers);
      }
      ghost var asking := live;
      r := Identify(id);
      FewerTwice(old(vms), old(live), old(vms), asking, vms, live);
    }

    /** The checks of `start`, up to the one that there is room. */
    method Admit(id: Id, ghost parent: Option<Path>) returns (r: Outcome<State, Refusal>)
      requires Valid() && id in vms && vms[id].state.Some? && !Runs(vms[id], live)
      modifies this`vms, this`live, this`contents, this`written, this`accounts, this`now
      ensures Valid() && Kept(old(vms), vms) && old(now) <= now
      ensures OnlyAt(old(vms), vms, id) && SameOverlays(old(vms), vms)
      ensures live <= old(live) && (sturdy ==> live == old(live))
      ensures id in vms && Identified(old(vms)[id].state, vms[id].state)
      ensures r.Done? ==>
        && vms[id].state == Some(r.value) && r.value.rootfs in images && r.value.identity.Some?
        && Startable(old(vms)[id].state.value, kernels, images.Keys)
        && id !in Counted(vms, live) && Room(vms, live, cpus, memory, r.value.vcpus, r.value.memory)
      ensures r.Fault? ==>
        && !r.error.VmmDied?
        && Justified(r.error, old(vms), old(live), id, Host(cpus, memory, kernels, images.Keys, parent, reliable))
      ensures reliable ==> !r.Killed?
    {
      hide Valid, Room, SameButDisks, Kept, Fewer, Counted, UsedVcpus, UsedMemory, OnlyAt, Runs;
      var state :- Settings(id, parent);
      if state.kernel !in kernels || state.rootfs !in images {
        return Fault(NoImage);
      }
      UsedShrinks(old(vms), old(live), vms, live);
      ghost var identified := live;
      var _ :- CheckStartResources(state.vcpus, state.memory);
      NotCounted(vms, identified, live, id);
      return Done(state);
    }

    /** The disk and the jail of `start`. */
    method Prepare(id: Id, pid: nat) returns (r: Outcome<(), Refusal>)
      requires Valid() && id in vms && vms[id].state.Some? && vms[id].state.value.rootfs in images
      requires !startedOverlay && !startedJail
      modifies this`vms, this`jails, this`staged, this`contents, this`written, this`next, this`live, this`born,
               this`accounts, this`now, this`startedJail, this`startedOverlay
      ensures live <= old(live) && (sturdy ==> live == old(live))
      ensures Valid() && Kept(old(vms), vms) && Fewer(old(vms), old(live), vms, live) && old(now) <= now
      ensures BornKept(old(vms), old(born), born) && OnlyAt(old(vms), vms, id)
      ensures OnlyAt(old(jails), jails, id) && OnlyAt(old(staged), staged, (id, pid))
      ensures vms.Keys == old(vms.Keys) && forall a :: a in vms ==> vms[a].state == old(vms)[a].state
      ensures r.Done? ==> vms[id].overlay.Some? && id in jails && jails[id] == vms[id].overlay && !startedOverlay
      ensures OnlyNew(old(staged.Keys), staged.Keys, (id, pid), startedOverlay)
      ensures OnlyNew(old(jails.Keys), jails.Keys, id, startedJail)
      ensures r.Fault? ==> r.error == Interrupted
      ensures reliable ==> r.Done?
    {
      hide Valid, SameButDisks, Kept, Fewer, VmKept;
      var _ :- MakeOverlay(id, pid);
      ghost var made, earlier := vms, live;
      r := BuildJail(id);
      KeptFewer(vms, earlier, live);
      FewerTwice(old(vms), old(live), made, earlier, vms, live);
    }

    /** The VMM of `start`, and the record of it. */
    method Run(id: Id, parent: Path, state: State) returns (r: Outcome<(), Refusal>)
      requires Valid() && id in vms && vms[id].state == Some(state) && id !in Counted(vms, live)
      requires Room(vms, live, cpus, memory, state.vcpus, state.memory)
      modifies this`vms, this`live, this`contents, this`written, this`accounts, this`now, this`startedGroup
      ensures Valid() && Kept(old(vms), vms) && OnlyAt(old(vms), vms, id) && old(now) <= now
      ensures r.Done? ==> id in vms && vms[id].overlay == old(vms)[id].overlay && RunsIn(vms[id], Group(parent, id))
      ensures r.Done? ==> StartedSince(vms[id], old(now)) && (sturdy ==> Runs(vms[id], live))
      ensures r.Done? ==> vms[id].state.value.identity == state.identity && live <= old(live) + RecordedVmm(vms[id])
      ensures startedGroup == Some(Group(parent, id)) && Spared(old(live), live, {id}, sturdy)
      ensures reliable && sturdy ==> r.Done?
      ensures r.Fault? && r.error != Interrupted ==>
        && r.error.VmmDied? && r.error.vmm.group == Group(parent, id)
        && r.error.vmm !in live && old(now) <= r.error.vmm.start && vms == old(vms)
      ensures reliable ==> !r.Killed? && r != Fault(Interrupted)
    {
      hide Spared;
      hide Admitted, IdentitiesOk, DisksOk, StagedOk, JailsOk, ClockOk, Room, SameButDisks, Kept, Fewer, Recordable,
           Counted, VmKept;
      var launched := Launch(Group(parent, id));
      KeptFewer(vms, live, live);
      if !launched.Done? {
        return launched.PropagateFailure();
      }
      RunningRecordable(vms, old(live), vms, live, id, state, launched.value, now, cpus, memory);
      ghost var launchedAt := live;
      r := WriteState(id, state.(status := Running(Some(launched.value))));
      SparedStill(old(live), launchedAt, live, {id}, sturdy);
    }

    /** What was started is recorded, and after that no longer to be undone. */
    method Conclude() returns (r: Outcome<(), Refusal>)
      requires Valid()
      modifies this`live, this`contents, this`written, this`accounts, this`now, this`startedGroup, this`startedJail
      ensures Valid() && old(now) <= now && live <= old(live) && (sturdy ==> live == old(live))
      ensures startedGroup in {None, old(startedGroup)}
      ensures r.Fault? ==> r.error == Interrupted
      ensures reliable ==> r.Done?
    {
      hide Admitted, IdentitiesOk, DisksOk, StagedOk, JailsOk, ClockOk, SameButDisks;
      var _ :- Step();
      startedGroup, startedJail := None, false;
      r := Step();
    }

    /** The VMM runs, its record says so, and nothing is left to undo. */
    method Expose(id: Id, parent: Path, state: State) returns (r: Outcome<(), Refusal>)
      requires Valid() && id in vms && vms[id].state == Some(state) && id !in Counted(vms, live)
      requires Room(vms, live, cpus, memory, state.vcpus, state.memory)
      modifies this`vms, this`live, this`contents, this`written, this`accounts, this`now, this`startedGroup,
               this`startedJail
      ensures Valid() && Kept(old(vms), vms) && OnlyAt(old(vms), vms, id) && old(now) <= now
      ensures r.Done? ==> id in vms && vms[id].overlay == old(vms)[id].overlay && RunsIn(vms[id], Group(parent, id))
      ensures r.Done? ==> StartedSince(vms[id], old(now)) && (sturdy ==> Runs(vms[id], live))
      ensures r.Done? ==> vms[id].state.value.identity == state.identity && live <= old(live) + RecordedVmm(vms[id])
      ensures startedGroup in {None, Some(Group(parent, id))} && Spared(old(live), live, {id}, sturdy)
      ensures startedJail == old(startedJail) || (id in vms && StatusOf(vms[id]).Running?)
      ensures reliable && sturdy ==> r.Done?
      ensures r.Fault? && r.error != Interrupted ==>
        && r.error.VmmDied? && r.error.vmm.group == Group(parent, id)
        && r.error.vmm !in live && old(now) <= r.error.vmm.start && vms == old(vms)
      ensures reliable ==> !r.Killed? && r != Fault(Interrupted)
    {
      hide *;
      r := Run(id, parent, state);
      if !r.Done? {
        return;
      }
      ghost var ran := live;
      RunsInRuns(vms[id], Group(parent, id));
      r := Conclude();
      SparedStill(old(live), ran, live, {id}, sturdy);
    }

    /** The part of `start` that this process must undo when it fails. */
    method BringUp(id: Id, pid: nat, parent: Path, state: State) returns (r: Outcome<(), Refusal>)
      requires Valid() && !startedOverlay && !startedJail && startedGroup.None?
      requires id in vms && vms[id].state == Some(state) && state.rootfs in images && id !in Counted(vms, live)
      requires Room(vms, live, cpus, memory, state.vcpus, state.memory)
      modifies this
      ensures Valid() && Kept(old(vms), vms) && BornKept(old(vms), old(born), born)
      ensures OnlyAt(old(vms), vms, id) && OnlyAt(old(jails), jails, id) && OnlyAt(old(staged), staged, (id, pid))
      ensures r.Done? ==>
        && id in vms && RunsIn(vms[id], Group(parent, id))
        && id in jails && jails[id].Some? && jails[id] == vms[id].overlay
      ensures OnlyNew(old(staged.Keys), staged.Keys, (id, pid), startedOverlay)
      ensures OnlyNew(old(jails.Keys), jails.Keys, id, startedJail) ||
        (jails.Keys <= old(jails.Keys) + {id} && id in vms && StatusOf(vms[id]).Running?)
      ensures r.Fault? && r.error != Interrupted ==>
        && r.error.VmmDied? && r.error.vmm.group == Group(parent, id)
        && r.error.vmm !in live && old(now) <= r.error.vmm.start && id in vms && vms[id].state == Some(state)
      ensures startedGroup.Some? ==> startedGroup.value.id == id
      ensures Spared(old(live), live, {id}, sturdy)
      ensures r.Done? ==> vms[id].state.value.identity == state.identity && live <= old(live) + RecordedVmm(vms[id])
      ensures reliable ==> !r.Killed? && r != Fault(Interrupted)
      ensures reliable == old(reliable) && sturdy == old(sturdy) && old(now) <= now
      ensures r.Done? ==> StartedSince(vms[id], old(now)) && (sturdy ==> Runs(vms[id], live))
      ensures reliable && sturdy ==> r.Done?
    {
      hide *;
      r := Prepare(id, pid);
      AllSpared(old(live), live, {id}, sturdy);
      if !r.Done? {
        return;
      }
      ghost var preparedLive := live;
      ghost var prepared := vms;
      RoomLater(old(vms), old(live), vms, live, id, cpus, memory, state.vcpus, state.memory);
      ghost var ran := now;
      AtMostOneNew(old(jails.Keys), jails.Keys, id, startedJail);
      r := Expose(id, parent, state);
      KeptTwice(old(vms), prepared, vms);
      OnlyAtTwice(old(vms), prepared, vms, id);
      SparedTwice(old(live), preparedLive, live, {id}, sturdy);
      if r.Done? {
        StartedEarlier(vms[id], ran, old(now));
      }
    }

    /** `start` of a VM that does not run. */
    method BootStopped(id: Id, pid: nat, parent: Path) returns (r: Outcome<(), Refusal>)
      requires Valid() && !startedOverlay && !startedJail && startedGroup.None?
      requires id in vms && vms[id].state.Some? && !Runs(vms[id], live)
      modifies this
      ensures startedGroup.Some? ==> startedGroup.value.id == id
      ensures Valid() && Kept(old(vms), vms) && BornKept(old(vms), old(born), born)
      ensures OnlyAt(old(vms), vms, id) && OnlyAt(old(jails), jails, id) && OnlyAt(old(staged), staged, (id, pid))
      ensures r.Done? ==>
        && id in vms && RunsIn(vms[id], Group(parent, id)) && Uid(vms[id]).Some?
        && id in jails && jails[id].Some? && jails[id] == vms[id].overlay
        && StartedSince(vms[id], old(now)) && (sturdy ==> Runs(vms[id], live))
        && Startable(old(vms)[id].state.value, kernels, images.Keys) && live <= old(live) + RecordedVmm(vms[id])
      ensures OnlyNew(old(staged.Keys), staged.Keys, (id, pid), startedOverlay)
      ensures OnlyNew(old(jails.Keys), jails.Keys, id, startedJail) ||
        (jails.Keys <= old(jails.Keys) + {id} && id in vms && StatusOf(vms[id]).Running?)
      ensures r.Fault? ==>
        Justified(r.error, old(vms), old(live), id, Host(cpus, memory, kernels, images.Keys, Some(parent), reliable))
      ensures r.Fault? && r.error.VmmDied? ==> r.error.vmm !in live && old(now) <= r.error.vmm.start
      ensures reliable == old(reliable) && (reliable ==> !r.Killed?)
      ensures sturdy == old(sturdy) && (reliable && sturdy && r.Fault? ==> !r.error.VmmDied?)
      ensures r.Fault? && r.error != Interrupted && !r.error.VmmDied? ==>
        !startedJail && !startedOverlay && jails == old(jails) && staged == old(staged) && SameOverlays(old(vms), vms)
      ensures r.Fault? && r.error != Interrupted ==> id in vms && Identified(old(vms)[id].state, vms[id].state)
      ensures Spared(old(live), live, {id}, sturdy)
    {
      hide Valid, Room, SameButDisks, Kept, Fewer, Counted, VmKept, OnlyNew, StartedSince, BornKept, Spared, Startable,
           OnlyAt, SameOverlays, Identified;
      BornSame(vms, born);
      NothingNew(jails.Keys, id, startedJail);
      NothingNew(staged.Keys, (id, pid), startedOverlay);
      OnlyAtSame(jails, id);
      OnlyAtSame(staged, (id, pid));
      var admission := Admit(id, Some(parent));
      AllSpared(old(live), live, {id}, sturdy);
      var state :- admission;
      ghost var admitted, admittedAt, admittedLive := vms, now, live;
      r := BringUp(id, pid, parent, state);
      SparedTwice(old(live), admittedLive, live, {id}, sturdy);
      OnlyAtTwice(old(vms), admitted, vms, id);
      if r.Done? {
        StartedEarlier(vms[id], admittedAt, old(now));
      }
      BornKeptTwice(old(vms), admitted, old(born), old(born), born);
      KeptTwice(old(vms), admitted, vms);
    }

    /** The `start` branch. */
    method Boot(id: Id, pid: nat, parent: Option<Path>) returns (r: Outcome<(), Refusal>)
      requires Valid() && !startedOverlay && !startedJail && startedGroup.None?
      modifies this
      ensures startedGroup.Some? ==> startedGroup.value.id == id
      ensures Valid() && Kept(old(vms), vms) && BornKept(old(vms), old(born), born)
      ensures OnlyAt(old(vms), vms, id) && OnlyAt(old(jails), jails, id) && OnlyAt(old(staged), staged, (id, pid))
      ensures r.Done? ==> id in vms && StatusOf(vms[id]).Running?
      ensures r.Done? && !(id in old(vms) && Runs(old(vms)[id], old(live))) ==>
        && parent.Some? && RunsIn(vms[id], Group(parent.value, id))
        && id in jails && jails[id].Some? && jails[id] == vms[id].overlay
      ensures OnlyNew(old(staged.Keys), staged.Keys, (id, pid), startedOverlay)
      ensures OnlyNew(old(jails.Keys), jails.Keys, id, startedJail) ||
        (jails.Keys <= old(jails.Keys) + {id} && id in vms && StatusOf(vms[id]).Running?)
      ensures r.Fault? ==>
        Justified(r.error, old(vms), old(live), id, Host(cpus, memory, kernels, images.Keys, parent, reliable))
      ensures r.Fault? && r.error.VmmDied? ==> r.error.vmm !in live && old(now) <= r.error.vmm.start
      ensures reliable == old(reliable) && (reliable ==> !r.Killed?)
      ensures sturdy == old(sturdy) && (reliable && sturdy && r.Fault? ==> !r.error.VmmDied?)
      ensures id in old(vms) && Runs(old(vms)[id], old(live)) ==>
        && r == Done(()) && vms == old(vms) && jails == old(jails) && staged == old(staged)
        && live == old(live) && contents == old(contents)
      ensures r.Fault? && r.error != Interrupted && !r.error.VmmDied? ==>
        && !startedJail && !startedOverlay
        && jails == old(jails) && staged == old(staged)
        && forall a :: a in vms ==> a in old(vms) && vms[a].overlay == old(vms)[a].overlay
      ensures r.Done? && !(id in old(vms) && Runs(old(vms)[id], old(live))) ==>
        && StartedSince(vms[id], old(now)) && (sturdy ==> Runs(vms[id], live))
        && id in old(vms) && old(vms)[id].state.Some? && Uid(vms[id]).Some?
        && Startable(old(vms)[id].state.value, kernels, images.Keys) && live <= old(live) + RecordedVmm(vms[id])
      ensures r.Fault? && r.error != Interrupted && id in old(vms) ==>
        id in vms && Identified(old(vms)[id].state, vms[id].state)
      ensures Spared(old(live), live, {id}, sturdy)
    {
      hide Valid, SameButDisks, Kept, Counted, VmKept, OnlyNew, StartedSince, BornKept, Spared, Startable,
           OnlyAt, UsedVcpus, UsedMemory;
      BornSame(vms, born);
      AllSpared(live, live, {id}, sturdy);
      KeptFewer(vms, live, live);
      NothingNew(jails.Keys, id, startedJail);
      NothingNew(staged.Keys, (id, pid), startedOverlay);
      OnlyAtSame(vms, id);
      OnlyAtSame(jails, id);
      OnlyAtSame(staged, (id, pid));
      if id !in vms {
        return Fault(UnknownVm);
      }
      if vms[id].state.None? {
        return Fault(NoState);
      }
      if Runs(vms[id], live) {
        return Done(());
      }
      if parent.None? {
        return Fault(Unready);
      }
      r := BootStopped(id, pid, parent.value);
    }

    /** `start`, with its rollback. */
    method Start(id: Id, pid: nat, parent: Option<Path>) returns (r: Outcome<(), Refusal>)
      requires Valid()
      modifies this
      ensures Valid() && Kept(old(vms), vms) && BornKept(old(vms), old(born), born)
      ensures OnlyAt(old(vms), vms, id) && OnlyAt(old(jails), jails, id) && OnlyAt(old(staged), staged, (id, pid))
      ensures r.Done? ==> id in vms && StatusOf(vms[id]).Running?
      ensures r.Done? && !(id in old(vms) && Runs(old(vms)[id], old(live))) ==>
        && parent.Some? && RunsIn(vms[id], Group(parent.value, id))
        && id in jails && jails[id].Some? && jails[id] == vms[id].overlay
      ensures r.Fault? ==> staged.Keys <= old(staged.Keys)
      ensures r.Fault? ==> jails.Keys <= old(jails.Keys) || (id in vms && StatusOf(vms[id]).Running?)
      ensures r.Fault? ==>
        Justified(r.error, old(vms), old(live), id, Host(cpus, memory, kernels, images.Keys, parent, reliable))
      ensures r.Fault? && r.error.VmmDied? ==> r.error.vmm !in live && old(now) <= r.error.vmm.start
      ensures reliable == old(reliable) && (reliable ==> !r.Killed?)
      ensures sturdy == old(sturdy) && (reliable && sturdy && r.Fault? ==> !r.error.VmmDied?)
      ensures id in old(vms) && Runs(old(vms)[id], old(live)) ==>
        && r == Done(()) && vms == old(vms) && jails == old(jails) && staged == old(staged)
        && live == old(live) && contents == old(contents)
      ensures r.Fault? && r.error != Interrupted && !r.error.VmmDied? ==>
        && jails == old(jails) && staged == old(staged)
        && forall a :: a in vms ==> a in old(vms) && vms[a].overlay == old(vms)[a].overlay
      ensures r.Done? && !(id in old(vms) && Runs(old(vms)[id], old(live))) ==>
        && StartedSince(vms[id], old(now)) && (sturdy ==> Runs(vms[id], live))
        && id in old(vms) && old(vms)[id].state.Some? && Uid(vms[id]).Some?
        && Startable(old(vms)[id].state.value, kernels, images.Keys) && live <= old(live) + RecordedVmm(vms[id])
      ensures r.Fault? && r.error != Interrupted && id in old(vms) ==>
        id in vms && Identified(old(vms)[id].state, vms[id].state)
      ensures Spared(old(live), live, {id}, sturdy)
    {
      hide Valid, Kept, BornKept, Justified, Spared, Startable, Identified;
      ForgetAll();
      r := Boot(id, pid, parent);
      if r.Fault? {
        ghost var booted := live;
        var cleaned := CleanupStart(id, pid);
        SparedTwice(old(live), booted, live, {id}, sturdy);
        if cleaned.Killed? {
          r := Killed;
        }
      }
    }

    // ----- Creating and stopping -----

    method MakeDirectory(id: Id)
      requires Valid() && id !in vms
      modifies this`vms
      ensures Valid() && Kept(old(vms), vms) && vms == old(vms)[id := Vm(None, None)] && OnlyAt(old(vms), vms, id)
    {
      DirectoryAdded(vms, live, now, cpus, memory, jails, id);
      DirectoryKeepsDisks(vms, images, contents, born, writes[..written], staged, next, id);
      hide Admitted, IdentitiesOk, DisksOk, StagedOk, JailsOk, ClockOk, Kept;
      vms := vms[id := Vm(None, None)];
    }

    /** The directory of a new VM, and its state file. */
    method MakeVm(id: Id, state: State) returns (r: Outcome<(), Refusal>)
      requires Valid() && id !in vms && state.identity.Some? && state.identity.value.gid == state.identity.value.uid
      requires LeastFree(vms, accounts, state.identity.value.uid) && VmmOf(state.status).None?
      modifies this`vms, this`live, this`contents, this`written, this`accounts, this`now
      ensures Valid() && Kept(old(vms), vms) && OnlyAt(old(vms), vms, id)
      ensures r.Done? ==> vms == old(vms)[id := Vm(Some(state), None)]
      ensures r.Fault? ==> r.error == Interrupted
      ensures live <= old(live) && (sturdy ==> live == old(live))
      ensures reliable ==> r.Done?
    {
      hide Valid, Kept, Room, Counted, SameButDisks, LeastFree, Taken, Recordable, OnlyAt;
      KeptFewer(vms, live, live);
      OnlyAtSame(vms, id);
      var _ :- Step();
      MakeDirectory(id);
      NewRecordable(old(vms), old(accounts), id, state, live, now, cpus, memory);
      ghost var made := vms;
      OnlyAtPut(vms, id, vms[id].(state := Some(state)));
      r := WriteState(id, state);
      OnlyAtTwice(old(vms), made, vms, id);
      KeptTwice(old(vms), made, vms);
    }

    /** `create`: the least free identity goes to the new VM. */
    method Create(id: Id, kernel: Path, rootfs: Path, vcpus: nat, mib: nat) returns (r: Outcome<(), Refusal>)
      requires Valid()
      modifies this
      ensures Valid() && Kept(old(vms), vms)
      ensures r.Done? ==> id !in old(vms) && 1 <= vcpus <= 16 && 128 <= mib <= 16384 && rootfs in images
      ensures r.Done? ==>
        exists uid ::
          && LeastFree(old(vms), old(accounts), uid)
          && vms == old(vms)[id := Vm(Some(State(Created, kernel, rootfs, vcpus, mib, Some(Identity(uid, uid)))), None)]
      ensures r.Fault? ==> r.error in {BadNumbers, NoImage, NoIdentity, AlreadyExists, Interrupted}
      ensures born == old(born) && OnlyAt(old(vms), vms, id) && jails == old(jails) && staged == old(staged)
      ensures r == Fault(BadNumbers) <==> !(1 <= vcpus <= 16 && 128 <= mib <= 16384)
      ensures r == Fault(NoImage) <==>
        1 <= vcpus <= 16 && 128 <= mib <= 16384 && (kernel !in kernels || rootfs !in images)
      ensures reliable == old(reliable) && (reliable ==> !r.Killed? && r != Fault(Interrupted))
      ensures r == Fault(NoIdentity) <==>
        && Startable(State(Created, kernel, rootfs, vcpus, mib, None), kernels, images.Keys)
        && forall u :: UID_BASE <= u <= UID_LIMIT ==> Taken(old(vms), old(accounts), u)
      ensures r == Fault(AlreadyExists) ==> id in old(vms)
      ensures id in old(vms) || (r.Fault? && r.error != Interrupted) ==> vms == old(vms) && !r.Done?
      ensures sturdy == old(sturdy) && live <= old(live) && (sturdy ==> live == old(live))
    {
      hide Valid, Kept, OnlyAt;
      OnlyAtSame(vms, id);
      KeptFewer(vms, live, live);
      if !(1 <= vcpus <= 16) || !(128 <= mib <= 16384) {
        return Fault(BadNumbers);
      }
      if kernel !in kernels || rootfs !in images {
        return Fault(NoImage);
      }
      var uid := AllocateIdentity();
      if uid.None? {
        return Fault(NoIdentity);
      }
      assert LeastFree(vms, accounts, uid.value);
      if id in vms {
        return Fault(AlreadyExists);
      }
      hide LeastFree, Taken;
      r := MakeVm(id, State(Created, kernel, rootfs, vcpus, mib, Some(Identity(uid.value, uid.value))));
    }

    /** A record names a VMM of its own VM. */
    lemma RecordedIsOwn(id: Id)
      requires Valid() && id in vms
      ensures forall p :: p in RecordedVmm(vms[id]) ==> p.group.id == id
    {
    }

    /** `terminate_cgroup`: it succeeds only when nothing runs in the cgroup any more. */
    method TerminateGroup(group: Group) returns (r: Outcome<(), Refusal>)
      requires Valid()
      modifies this`live, this`contents, this`written, this`accounts, this`now
      ensures Valid() && live <= old(live) && old(now) <= now
      ensures r.Done? ==> forall p :: p in live ==> p.group != group
      ensures r.Fault? ==> r.error in {Interrupted, Occupied}
      ensures r == Fault(Occupied) ==> exists p :: p in live && p.group == group
      ensures Spared(old(live), live, {group.id}, sturdy)
      ensures reliable ==> !r.Killed? && r != Fault(Interrupted)
    {
      hide Valid, SameButDisks, Spared;
      SignalGroup(group);
      ghost var signalled := live;
      var step := Step();
      SparedStill(old(live), signalled, live, {group.id}, sturdy);
      var _ :- step;
      if exists p :: p in live && p.group == group {
        return Fault(Occupied);
      }
      return Done(());
    }

    /**
      `stop`, by a manager whose delegated cgroup is `parent`: the VMM is gone, the jail goes, and
      with it one link to the disk; the disk stays. A VMM started under another delegated cgroup
      is only sent signals.
     */
    method Stop(id: Id, parent: Option<Path>) returns (r: Outcome<(), Refusal>)
      requires Valid()
      modifies this
      ensures Valid() && Kept(old(vms), vms) && live <= old(live)
      ensures born == old(born) && OnlyAt(old(vms), vms, id) && OnlyAt(old(jails), jails, id) && staged == old(staged)
      ensures r.Done? ==> id in old(vms) && old(vms)[id].state.Some? && vms == AsStopped(old(vms), id)
      ensures vms == old(vms) || (id in old(vms) && old(vms)[id].state.Some? && vms == AsStopped(old(vms), id))
      ensures r.Done? ==>
        jails == if VmmOf(StatusOf(old(vms)[id])).Some? then old(jails) - {id} else old(jails)
      ensures r.Fault? && r.error != Interrupted ==> vms == old(vms) && jails == old(jails)
      ensures sturdy == old(sturdy) && Spared(old(live), live, {id}, sturdy)
      ensures r.Done? && parent.Some? && RunsIn(old(vms)[id], Group(parent.value, id)) ==>
        forall p :: p in live ==> p.group != Group(parent.value, id)
      ensures r == Fault(UnknownVm) <==> id !in old(vms)
      ensures r == Fault(NoState) <==> id in old(vms) && old(vms)[id].state.None?
      ensures r.Fault? ==> r.error in {UnknownVm, NoState, Interrupted, Occupied}
      ensures r == Fault(Occupied) ==>
        && parent.Some? && RunsIn(old(vms)[id], Group(parent.value, id))
        && exists p :: p in live && p.group == Group(parent.value, id)
      ensures reliable == old(reliable) && (reliable ==> !r.Killed? && r != Fault(Interrupted))
    {
      hide Admitted, IdentitiesOk, DisksOk, StagedOk, JailsOk, ClockOk, Kept, Room, Counted, SameButDisks;
      KeptFewer(vms, live, live);
      if id !in vms {
        return Fault(UnknownVm);
      }
      if vms[id].state.None? {
        return Fault(NoState);
      }
      // The signals to the recorded VMM, which may not end it.
      RecordedIsOwn(id);
      Signal(RecordedVmm(vms[id]));
      TargetsSpared(old(live), live, RecordedVmm(vms[id]), id, sturdy);
      ghost var signalled := live;
      var step := Step();
      SparedStill(old(live), signalled, live, {id}, sturdy);
      var _ :- step;
      if parent.Some? && RunsIn(vms[id], Group(parent.value, id)) {
        ghost var stepped := live;
        var ended := TerminateGroup(Group(parent.value, id));
        SparedTwice(old(live), stepped, live, {id}, sturdy);
        var _ :- ended;
      }
      ghost var terminated := live;
      if VmmOf(StatusOf(vms[id])).Some? {
        RemoveJail(id);
      }
      StoppedRecordable(vms, id, live, now, cpus, memory);
      r := WriteState(id, vms[id].state.value.(status := Stopped));
      SparedStill(old(live), terminated, live, {id}, sturdy);
    }

    // ----- Any run -----

    /** A new manager process, which the system may let through or not. */
    method NewProcess()
      requires Valid()
      modifies this`reliable
      ensures Valid()
    {
      hide Admitted, IdentitiesOk, DisksOk, StagedOk, JailsOk, ClockOk;
      reliable := *;
    }

    /**
      Any requests in any order, each by a new manager process that may fail or be killed
      anywhere: the records stay valid, no VM ever loses its disk or its identity, and the
      VMs that no request names keep their records and jails.
     */
    method Serve(requests: seq<Request>)
      requires Valid()
      modifies this
      ensures Valid() && Kept(old(vms), vms) && BornKept(old(vms), old(born), born)
      ensures OnlyAmong(old(vms), vms, Named(requests)) && OnlyAmong(old(jails), jails, Named(requests))
      ensures sturdy == old(sturdy) && Spared(old(live), live, Named(requests), sturdy)
    {
      hide Valid, Kept, BornKept, OnlyAt, OnlyAmong, Spared, Startable, Identified;
      AllSpared(live, live, Named(requests), sturdy);
      KeptFewer(vms, live, live);
      ServedNothing(vms, jails, born, Named(requests));
      for i := 0 to |requests|
        invariant Valid() && Kept(old(vms), vms) && BornKept(old(vms), old(born), born)
        invariant OnlyAmong(old(vms), vms, Named(requests)) && OnlyAmong(old(jails), jails, Named(requests))
        invariant sturdy == old(sturdy) && Spared(old(live), live, Named(requests), sturdy)
      {
        ghost var before, beforeJails, beforeBorn := vms, jails, born;
        ghost var beforeLive := live;
        Environment();
        SparedStill(old(live), beforeLive, live, Named(requests), sturdy);
        beforeLive := live;
        ServedNothing(vms, jails, born, Named(requests));
        var pid: nat :| 0 <= pid;
        NewProcess();
        var parent: Option<Path> := *;
        assert requests[i].id in Named(requests);
        match requests[i] {
          case CreateVm(id, kernel, rootfs, vcpus, mib) =>
            var _ := Create(id, kernel, rootfs, vcpus, mib);
            AllSpared(beforeLive, live, {id}, sturdy);
          case StartVm(id) => var _ := Start(id, pid, parent);
          case StopVm(id) => var _ := Stop(id, parent);
        }
        BornKeptTwice(old(vms), before, old(born), beforeBorn, born);
        KeptTwice(old(vms), before, vms);
        SparedMore(old(live), beforeLive, live, requests[i].id, Named(requests), sturdy);
        OnlyAtAmong(old(vms), before, vms, requests[i].id, Named(requests));
        OnlyAtAmong(old(jails), beforeJails, jails, requests[i].id, Named(requests));
      }
    }
  }

  ghost function Named(requests: seq<Request>): set<Id> {
    set r | r in requests :: r.id
  }

  lemma ServedNothing(vms: map<Id, Vm>, jails: map<Id, Option<Inode>>, born: map<Inode, nat>, ids: set<Id>)
    ensures BornKept(vms, born, born) && OnlyAmong(vms, vms, ids) && OnlyAmong(jails, jails, ids)
    ensures forall id :: id in ids ==> OnlyAt(vms, vms, id) && OnlyAt(jails, jails, id)
  {
  }

  /**
    From a manager without VMs, any requests, and any writes by guests: the recorded VMMs that
    live fit in the parent, identities are distinct, every disk is one VM's alone and holds the
    image that it began as with what guests wrote to it since, and every jail links to its own
    VM's disk.
   */
  method AnyRequests(cpus: nat, memory: nat, images: map<Path, Bytes>, kernels: set<Path>, writes: seq<Writes>,
                     accounts: set<nat>, requests: seq<Request>)
      returns (vms: map<Id, Vm>, live: set<Vmm>, jails: map<Id, Option<Inode>>, contents: map<Inode, Bytes>,
               written: nat, ghost born: map<Inode, nat>)
    ensures Admitted(vms, live, cpus, memory) && IdentitiesOk(vms) && JailsOk(vms, jails) && vms.Keys <= Named(requests)
    ensures written <= |writes| && DisksOk(vms, images, contents, born, writes[..written])
  {
    hide Admitted, IdentitiesOk, DisksOk, StagedOk, JailsOk, ClockOk, Kept;
    var manager := new Manager(cpus, memory, images, kernels, writes, accounts, 0);
    manager.Serve(requests);
    vms, live, jails, contents := manager.vms, manager.live, manager.jails, manager.contents;
    written, born := manager.written, manager.born;
    assert vms - Named(requests) == map[];
    forall id | id in vms ensures id in Named(requests) {
      assert id !in vms - Named(requests);
    }
  }
}
