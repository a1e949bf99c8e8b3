/**
 * The claim state machine of the GPU kubelet plugin: a checkpoint file kept in step with live MIG
 * devices, one durable effect at a time. A crash, a reboot or a restart may come between any two effects.
 */
module GpuClaims {
  import opened Text
  import opened MigNames
  import opened ResourceApi

  type Uid = string

  // ------------------------------------------------------------------ devices

  datatype GpuInfo = GpuInfo(uuid: string, minor: nat, pciBusID: string)

  datatype MigSpec = MigSpec(parent: GpuInfo, profile: string, profileID: nat, start: nat, size: nat) {
    function Tuple(): MigSpecTuple { MigSpecTuple(parent.minor, parent.pciBusID, profileID, start) }
  }

  /** How device names are made and read. The machine is stated over any scheme; the plugin's own is SHIPPED. */
  datatype Naming = Naming(canonicalName: MigSpec -> string, parse: string -> Option<MigSpecTuple>)

  const SHIPPED := Naming((m: MigSpec) => ToCanonicalName(m.Tuple(), m.profile), NewMigSpecTupleFromCanonicalName)

  datatype AllocatableDevice = FullGpu(gpu: GpuInfo) | MigDynamic(spec: MigSpec)

  /** What one plugin process knows for its whole life: its driver name and the devices it may prepare. */
  datatype Plugin = Plugin(driver: string, allocatable: map<string, AllocatableDevice>, naming: Naming)

  predicate IsMig(p: Plugin, device: string) { device in p.allocatable && p.allocatable[device].MigDynamic? }

  /**
   * What device enumeration guarantees: canonical keys that read back, one GPU per minor, one profile per profile ID.
   */
  ghost predicate WellFormed(p: Plugin)
  {
    && (forall d :: IsMig(p, d) ==>
          && p.naming.canonicalName(p.allocatable[d].spec) == d && p.allocatable[d].spec.size > 0
          && p.naming.parse(d).Some? && TupleMatches(p.allocatable[d].spec, p.naming.parse(d).value))
    && (forall d, d' :: IsMig(p, d) && IsMig(p, d') ==>
          var m, m' := p.allocatable[d].spec, p.allocatable[d'].spec;
          && (m.parent.minor == m'.parent.minor || m.parent.uuid == m'.parent.uuid ==> m.parent == m'.parent)
          && (m.parent == m'.parent && m.profileID == m'.profileID ==> m.profile == m'.profile && m.size == m'.size))
  }

  /** Two placements of one GPU that need a common memory slice: the hardware never holds both. */
  predicate Overlap(a: MigSpec, b: MigSpec)
  {
    a.parent.uuid == b.parent.uuid && a.start < b.start + b.size && b.start < a.start + a.size
  }

  predicate Covers(m: MigSpec, slice: nat) { m.start <= slice < m.start + m.size }

  lemma OverlapIsACommonSlice(a: MigSpec, b: MigSpec)
    requires a.size > 0 && b.size > 0
    ensures Overlap(a, b) <==> a.parent.uuid == b.parent.uuid && exists slice :: Covers(a, slice) && Covers(b, slice)
  {
    if Overlap(a, b) {
      var slice := if a.start < b.start then b.start else a.start;
      assert Covers(a, slice) && Covers(b, slice);
    }
  }

  predicate TupleMatches(m: MigSpec, t: MigSpecTuple)
  {
    m.parent.minor == t.parentMinor && m.profileID == t.profileID && m.start == t.placementStart
  }

  /** How a live device is addressed: parent and GPU instance ID. The hardware may use an address again. */
  datatype GiKey = GiKey(parentUUID: string, giId: nat)

  /** A live device; its UUID is never given to another one. */
  datatype LiveDevice = LiveDevice(spec: MigSpec, uuid: nat)

  datatype LiveTuple = LiveTuple(gi: GiKey, migUUID: nat)

  // --------------------------------------------------------------- checkpoint

  datatype PreparedDevice = PreparedGpu(device: string) | PreparedMig(device: string, concrete: LiveTuple)

  datatype ClaimState = PrepareStarted | PrepareCompleted

  datatype Entry = Entry(state: ClaimState, results: seq<AllocResult>, devices: seq<PreparedDevice>, name: string,
      namespace: string)

  type Checkpoint = map<Uid, Entry>

  function Started(results: seq<AllocResult>, name: string, namespace: string): Entry
  {
    Entry(PrepareStarted, results, [], name, namespace)
  }

  /** The completing write does not keep the name of the claim. */
  function Completed(results: seq<AllocResult>, devices: seq<PreparedDevice>): Entry
  {
    Entry(PrepareCompleted, results, devices, "", "")
  }

  predicate IsStarted(cp: Checkpoint, uid: Uid) { uid in cp && cp[uid].state.PrepareStarted? }

  predicate IsCompleted(cp: Checkpoint, uid: Uid) { uid in cp && cp[uid].state.PrepareCompleted? }

  predicate Names(results: seq<AllocResult>, device: string)
  {
    exists i :: 0 <= i < |results| && results[i].device == device
  }

  /** Device names of this driver's results, in order. */
  function OurDevices(p: Plugin, results: seq<AllocResult>): seq<string>
  {
    if results == [] then []
    else
      var last := results[|results| - 1];
      OurDevices(p, results[..|results| - 1]) + if last.driver == p.driver then [last.device] else []
  }

  /** The device is requested from this driver without admin access. */
  predicate Wants(p: Plugin, results: seq<AllocResult>, device: string)
  {
    RequestsNonAdmin(p.driver, results, device)
  }

  ghost predicate Disjoint(p: Plugin, a: seq<AllocResult>, b: seq<AllocResult>)
  {
    forall d :: !(Wants(p, a, d) && Wants(p, b, d))
  }

  /** Whatever carries the name of a dynamic MIG device is requested from this driver, without admin access. */
  predicate Plain(p: Plugin, results: seq<AllocResult>)
  {
    forall i :: 0 <= i < |results| && IsMig(p, results[i].device) ==>
      results[i].driver == p.driver && !results[i].adminAccess
  }

  ghost predicate NoOverlap(p: Plugin, cp: Checkpoint, uid: Uid, results: seq<AllocResult>)
  {
    forall u :: u != uid && IsCompleted(cp, u) ==> Disjoint(p, results, cp[u].results)
  }

  lemma OverlapIsSharing(p: Plugin, cp: Checkpoint, uid: Uid, results: seq<AllocResult>)
    ensures NoOverlap(p, cp, uid, results) <==>
            forall u :: u in cp && u != uid && cp[u].state.PrepareCompleted? ==>
              !ShareADevice(p.driver, results, cp[u].results)
  {
    forall u | u in cp
      ensures ShareADevice(p.driver, results, cp[u].results) <==> !Disjoint(p, results, cp[u].results)
    {
      SharersAreNotDisjoint(p, results, cp[u].results);
    }
  }

  lemma SharersAreNotDisjoint(p: Plugin, a: seq<AllocResult>, b: seq<AllocResult>)
    ensures ShareADevice(p.driver, a, b) <==> !Disjoint(p, a, b)
  {
    SharingIsWantingTheSame(p.driver, a, b);
    if d :| RequestsNonAdmin(p.driver, a, d) && RequestsNonAdmin(p.driver, b, d) {
      assert Wants(p, a, d) && Wants(p, b, d);
    }
  }

  /** The entry records a device at this address. */
  predicate HoldsKey(e: Entry, key: GiKey)
  {
    exists i :: 0 <= i < |e.devices| && e.devices[i].PreparedMig? && e.devices[i].concrete.gi == key
  }

  ghost predicate KeyUnheld(cp: Checkpoint, key: GiKey)
  {
    forall u :: u in cp ==> !HoldsKey(cp[u], key)
  }

  ghost predicate UsedByCompleted(cp: Checkpoint, device: string)
  {
    exists u :: IsCompleted(cp, u) && Names(cp[u].results, device)
  }

  // -------------------------------------------------------------------- state

  /** The call to Prepare that holds the lock, and the devices it has created. */
  datatype Attempt = Attempt(uid: Uid, made: set<PreparedDevice>)

  /**
   * `stored` is the boot ID in the checkpoint file (None: no file yet); `attempt` is the memory of the
   * running Prepare, gone with the next effect of any other call. `wrote`, the boot in which each entry
   * was written, `torn`, the completed claims whose own teardown has begun, and `boots`, the boot IDs
   * used so far, are bookkeeping that no step of the plugin reads.
   */
  datatype State = State(
    cp: Checkpoint, stored: Option<string>, live: map<GiKey, LiveDevice>, nextUuid: nat,
    boot: string, up: bool, attempt: Option<Attempt>, boots: set<string>, torn: set<Uid>, wrote: map<Uid, string>)

  datatype Effect =
    | Crash
    | Reboot(boot: string)
    | Startup
    | TeardownDelete(key: GiKey)
    | WriteStarted(uid: Uid, results: seq<AllocResult>, name: string, namespace: string)
    | CreateMig(uid: Uid, device: string, spec: MigSpec, key: GiKey)
    | WriteCompleted(uid: Uid, results: seq<AllocResult>, devices: seq<PreparedDevice>)
    | DeleteRecorded(uid: Uid, key: GiKey)
    | RollbackDelete(uid: Uid, device: string, key: GiKey)
    | RemoveEntry(uid: Uid)

  function AfterStarted(s: State, uid: Uid, results: seq<AllocResult>, name: string, namespace: string): State
  {
    s.(cp := s.cp[uid := Started(results, name, namespace)], wrote := s.wrote[uid := s.boot],
      attempt := Some(Attempt(uid, {})))
  }

  function AfterCreate(s: State, uid: Uid, device: string, spec: MigSpec, key: GiKey): State
  {
    var made := if s.attempt.Some? then s.attempt.value.made else {};
    s.(live := s.live[key := LiveDevice(spec, s.nextUuid)], nextUuid := s.nextUuid + 1,
       attempt := Some(Attempt(uid, made + {PreparedMig(device, LiveTuple(key, s.nextUuid))})))
  }

  function AfterCompleted(s: State, uid: Uid, results: seq<AllocResult>, devices: seq<PreparedDevice>): State
  {
    s.(cp := s.cp[uid := Completed(results, devices)], wrote := s.wrote[uid := s.boot], attempt := None)
  }

  function AfterDelete(s: State, key: GiKey): State { s.(live := s.live - {key}, attempt := None) }

  function AfterDeleteRecorded(s: State, uid: Uid, key: GiKey): State { AfterDelete(s, key).(torn := s.torn + {uid}) }

  function AfterRemove(s: State, uid: Uid): State
  {
    s.(cp := s.cp - {uid}, torn := s.torn - {uid}, wrote := s.wrote - {uid}, attempt := None)
  }

  function AfterStartup(s: State): State
  {
    if s.stored == Some("") then s.(up := true, attempt := None, stored := Some(s.boot))
    else if s.stored == Some(s.boot) then s.(up := true, attempt := None)
    else s.(up := true, attempt := None, stored := Some(s.boot), cp := map[], torn := {}, wrote := map[])
  }

  function Apply(s: State, e: Effect): State
  {
    match e
    case Crash => s.(up := false, attempt := None)
    case Reboot(b) => s.(up := false, attempt := None, boot := b, boots := s.boots + {b}, live := map[])
    case Startup => AfterStartup(s)
    case TeardownDelete(key) => AfterDelete(s, key)
    case WriteStarted(uid, results, name, namespace) => AfterStarted(s, uid, results, name, namespace)
    case CreateMig(uid, device, spec, key) => AfterCreate(s, uid, device, spec, key)
    case WriteCompleted(uid, results, devices) => AfterCompleted(s, uid, results, devices)
    case DeleteRecorded(uid, key) => AfterDeleteRecorded(s, uid, key)
    case RollbackDelete(_, _, key) => AfterDelete(s, key)
    case RemoveEntry(uid) => AfterRemove(s, uid)
  }

  /**
   * The device list of a completing write: one prepared device per result of ours, each MIG device made by this
   * attempt.
   */
  ghost predicate Prepared(p: Plugin, made: set<PreparedDevice>, results: seq<AllocResult>,
                           devices: seq<PreparedDevice>)
  {
    && multiset(DeviceNames(devices)) == multiset(OurDevices(p, results))
    && (forall i :: 0 <= i < |devices| ==>
          (devices[i].PreparedMig? <==> IsMig(p, devices[i].device))
            && (devices[i].PreparedMig? ==> devices[i] in made))
    && (forall i, j :: 0 <= i < j < |devices| && devices[i].PreparedMig? ==> devices[i] != devices[j])
  }

  /**
   * What a caller gets: each device as often as results of the claim ask this driver for it, full GPUs as such, and for
   * each MIG device the live one at its address, made as published.
   */
  ghost predicate Delivered(p: Plugin, live: map<GiKey, LiveDevice>, results: seq<AllocResult>,
                            devices: seq<PreparedDevice>)
  {
    && (forall d :: multiset(DeviceNames(devices))[d] == |Asking(p.driver, results, d)|)
    && forall i :: 0 <= i < |devices| ==> IsDelivered(p, live, devices[i])
  }

  predicate IsDelivered(p: Plugin, live: map<GiKey, LiveDevice>, d: PreparedDevice)
  {
    && d.device in p.allocatable
    && match p.allocatable[d.device]
       case FullGpu(_) => d == PreparedGpu(d.device)
       case MigDynamic(spec) => d.PreparedMig? && d.concrete.gi in live && d.concrete.gi.parentUUID == spec.parent.uuid
                                && live[d.concrete.gi] == LiveDevice(spec, d.concrete.migUUID)
  }

  function DeviceNames(devices: seq<PreparedDevice>): (names: seq<string>)
    ensures |names| == |devices| && forall i :: 0 <= i < |names| ==> names[i] == devices[i].device
  {
    seq(|devices|, i requires 0 <= i < |devices| => devices[i].device)
  }

  /** The very device that was prepared is still live. */
  predicate LiveAs(p: Plugin, s: State, d: PreparedDevice)
    requires d.PreparedMig?
  {
    && d.concrete.gi in s.live
    && s.live[d.concrete.gi].uuid == d.concrete.migUUID && LiveName(p, s, d.concrete.gi) == d.device
  }

  function LiveName(p: Plugin, s: State, key: GiKey): string
    requires key in s.live
  {
    p.naming.canonicalName(s.live[key].spec)
  }

  /**
   * Nothing is left of a partial preparation, as far as rollback looks: no live device fits, or a completed claim
   * names it.
   */
  ghost predicate RolledBack(p: Plugin, s: State, results: seq<AllocResult>)
  {
    forall d :: Names(results, d) && p.naming.parse(d).Some? && !UsedByCompleted(s.cp, d) ==>
      forall k :: k in s.live ==> !TupleMatches(s.live[k].spec, p.naming.parse(d).value)
  }

  /** The overlap check has passed, and what an earlier attempt left behind was rolled back. */
  ghost predicate CanStart(p: Plugin, s: State, uid: Uid, results: seq<AllocResult>)
  {
    && s.up && !IsCompleted(s.cp, uid) && NoOverlap(p, s.cp, uid, results)
    && (uid in s.cp ==> RolledBack(p, s, s.cp[uid].results))
  }

  predicate Attempting(s: State, uid: Uid)
  {
    s.up && s.attempt.Some? && s.attempt.value.uid == uid && IsStarted(s.cp, uid)
  }

  /** The placement is one of this GPU's and no live device is in its way; the address is any free one. */
  ghost predicate CanCreate(p: Plugin, s: State, uid: Uid, device: string, spec: MigSpec, key: GiKey)
  {
    && Attempting(s, uid) && device in OurDevices(p, s.cp[uid].results)
    && device in p.allocatable && p.allocatable[device] == MigDynamic(spec)
    && key.parentUUID == spec.parent.uuid && key !in s.live
    && forall k :: k in s.live ==> !Overlap(s.live[k].spec, spec)
  }

  ghost predicate CanComplete(p: Plugin, s: State, uid: Uid, results: seq<AllocResult>, devices: seq<PreparedDevice>)
  {
    Attempting(s, uid) && results == s.cp[uid].results && Prepared(p, s.attempt.value.made, results, devices)
  }

  predicate CanDeleteRecorded(s: State, uid: Uid, key: GiKey)
  {
    s.up && IsCompleted(s.cp, uid) && HoldsKey(s.cp[uid], key) && key in s.live
  }

  ghost predicate CanTeardown(p: Plugin, s: State, key: GiKey)
  {
    s.up && key in s.live && !UsedByCompleted(s.cp, LiveName(p, s, key))
  }

  ghost predicate CanRollback(p: Plugin, s: State, uid: Uid, device: string, key: GiKey)
  {
    && s.up && IsStarted(s.cp, uid) && Names(s.cp[uid].results, device) && !UsedByCompleted(s.cp, device)
    && p.naming.parse(device).Some? && key in s.live && TupleMatches(s.live[key].spec, p.naming.parse(device).value)
  }

  ghost predicate CanRemove(p: Plugin, s: State, uid: Uid)
  {
    && s.up && uid in s.cp
    && if s.cp[uid].state.PrepareStarted? then RolledBack(p, s, s.cp[uid].results)
       else forall key :: HoldsKey(s.cp[uid], key) ==> key !in s.live
  }

  /** When the code and the hardware let an effect happen. */
  ghost predicate Enabled(p: Plugin, s: State, e: Effect)
  {
    match e
    case Crash => true
    case Reboot(b) => b != "" && b !in s.boots
    case Startup => !s.up
    case TeardownDelete(key) => CanTeardown(p, s, key)
    case WriteStarted(uid, results, _, _) => CanStart(p, s, uid, results)
    case CreateMig(uid, device, spec, key) => CanCreate(p, s, uid, device, spec, key)
    case WriteCompleted(uid, results, devices) => CanComplete(p, s, uid, results, devices)
    case DeleteRecorded(uid, key) => CanDeleteRecorded(s, uid, key)
    case RollbackDelete(uid, device, key) => CanRollback(p, s, uid, device, key)
    case RemoveEntry(uid) => CanRemove(p, s, uid)
  }

  /**
   * What the code relies on without checking: the hardware does not hand out a GPU instance ID that a
   * checkpoint entry still holds, rollback is only ever aimed at a name this plugin published, and entries
   * in a file without a boot ID do not survive a reboot.
   */
  ghost predicate Assumed(p: Plugin, s: State, e: Effect)
  {
    match e
    case CreateMig(_, _, _, key) => KeyUnheld(s.cp, key)
    case RollbackDelete(_, device, _) => IsMig(p, device)
    case Reboot(_) => s.stored == Some("") ==> s.cp == map[]
    case _ => true
  }

  function Exec(s: State, es: seq<Effect>): State
    decreases |es|
  {
    if es == [] then s else Exec(Apply(s, es[0]), es[1..])
  }

  /** A run of effects each of which the code and the hardware let happen. */
  ghost predicate Runs(p: Plugin, s: State, es: seq<Effect>)
    decreases |es|
  {
    es == [] || (Enabled(p, s, es[0]) && Runs(p, Apply(s, es[0]), es[1..]))
  }

  /** A run all of whose steps also meet the assumptions. */
  ghost predicate SafeRuns(p: Plugin, s: State, es: seq<Effect>)
    decreases |es|
  {
    es == [] || (Enabled(p, s, es[0]) && Assumed(p, s, es[0]) && SafeRuns(p, Apply(s, es[0]), es[1..]))
  }

  /** A node on which the plugin was never started and no MIG device exists. */
  predicate Fresh(s: State)
  {
    && s.cp == map[] && s.stored == None && s.live == map[] && !s.up && s.attempt == None
    && s.boot != "" && s.boots == {s.boot} && s.torn == {} && s.wrote == map[]
  }

  // ---------------------------------------------------------------- invariant

  ghost predicate LiveInv(p: Plugin, s: State)
  {
    && (forall k :: k in s.live ==> LiveDeviceInv(p, s, k))
    && (forall k, k' :: k in s.live && k' in s.live && k != k' ==> !Overlap(s.live[k].spec, s.live[k'].spec))
  }

  ghost predicate LiveDeviceInv(p: Plugin, s: State, k: GiKey)
    requires k in s.live
  {
    && IsMig(p, LiveName(p, s, k)) && p.allocatable[LiveName(p, s, k)].spec == s.live[k].spec
    && k.parentUUID == s.live[k].spec.parent.uuid && s.live[k].uuid < s.nextUuid
  }

  /**
   * The file and the history of its entries belong together: a boot ID in the file is the boot its entries are from.
   */
  ghost predicate Booked(s: State)
  {
    && s.boot != "" && s.boot in s.boots && s.wrote.Keys == s.cp.Keys
    && (forall u :: u in s.wrote ==> s.wrote[u] in s.boots)
    && (s.stored.None? ==> s.cp == map[])
    && (s.stored.Some? && s.stored.value != "" ==>
          s.stored.value in s.boots && forall u :: u in s.wrote ==> s.wrote[u] == s.stored.value)
    && (s.up ==> s.stored == Some(s.boot))
  }

  /** Every entry was written during the current boot. */
  ghost predicate OfThisBoot(s: State)
  {
    forall u :: u in s.cp ==> u in s.wrote && s.wrote[u] == s.boot
  }

  ghost predicate BootInv(s: State)
  {
    Booked(s) && s.torn <= s.cp.Keys && (s.stored == Some("") ==> OfThisBoot(s))
  }

  /** The next startup keeps the entries. */
  predicate Current(s: State) { s.stored == Some(s.boot) || s.stored == Some("") }

  ghost predicate EntryInv(p: Plugin, s: State, u: Uid)
    requires u in s.cp
  {
    && (s.cp[u].state.PrepareStarted? ==> s.cp[u].devices == [] && u !in s.torn)
    && (forall i :: 0 <= i < |s.cp[u].devices| && s.cp[u].devices[i].PreparedMig? ==>
      DeviceInv(p, s, u, s.cp[u].devices[i]))
    && (s.cp[u].state.PrepareCompleted? ==>
          forall d :: d in OurDevices(p, s.cp[u].results) && IsMig(p, d) ==> RecordsName(s.cp[u], d))
  }

  /**
   * A recorded device is one the claim asked for; at its address there is no other; and it is live until its own
   * teardown.
   */
  ghost predicate DeviceInv(p: Plugin, s: State, u: Uid, d: PreparedDevice)
    requires u in s.cp && d.PreparedMig?
  {
    && IsMig(p, d.device) && Names(s.cp[u].results, d.device) && d.concrete.migUUID < s.nextUuid
    && (d.concrete.gi in s.live ==> LiveAs(p, s, d))
    && (u !in s.torn ==> d.concrete.gi in s.live)
  }

  /** Every MIG device of the list is live, as it was prepared. */
  ghost predicate AllLive(p: Plugin, s: State, devices: seq<PreparedDevice>)
  {
    forall i :: 0 <= i < |devices| && devices[i].PreparedMig? ==> LiveAs(p, s, devices[i])
  }

  /** A teardown that has begun is one of a completed claim, and has taken something. */
  ghost predicate TornInv(s: State)
  {
    forall u :: u in s.torn ==> IsCompleted(s.cp, u) && HoldsAbsent(s.cp[u], s.live)
  }

  predicate HoldsAbsent(e: Entry, live: map<GiKey, LiveDevice>)
  {
    exists i :: 0 <= i < |e.devices| && e.devices[i].PreparedMig? && e.devices[i].concrete.gi !in live
  }

  predicate RecordsName(e: Entry, device: string)
  {
    exists i :: 0 <= i < |e.devices| && e.devices[i].PreparedMig? && e.devices[i].device == device
  }

  ghost predicate ClaimsInv(p: Plugin, s: State)
  {
    (forall u :: u in s.cp ==> EntryInv(p, s, u)) && KeysExclusive(s.cp) && ResultsExclusive(p, s.cp)
  }

  /** No address is held by two entries. */
  ghost predicate KeysExclusive(cp: Checkpoint)
  {
    forall u, u', key :: u in cp && u' in cp && u != u' && HoldsKey(cp[u], key) ==> !HoldsKey(cp[u'], key)
  }

  /** No two completed claims share a device requested without admin access. */
  ghost predicate ResultsExclusive(p: Plugin, cp: Checkpoint)
  {
    forall u, u' :: u != u' && IsCompleted(cp, u) && IsCompleted(cp, u') ==> Disjoint(p, cp[u].results, cp[u'].results)
  }

  /**
   * What the running Prepare may rely on: its overlap check still stands and what it created is live, recorded
   * nowhere and distinct.
   */
  ghost predicate AttemptInv(p: Plugin, s: State)
  {
    s.attempt.Some? ==>
      && s.up && IsStarted(s.cp, s.attempt.value.uid)
      && NoOverlap(p, s.cp, s.attempt.value.uid, s.cp[s.attempt.value.uid].results)
      && (forall d :: d in s.attempt.value.made ==> MadeInv(p, s, d))
      && (forall d, d' :: d in s.attempt.value.made && d' in s.attempt.value.made && d != d' ==>
            d.PreparedMig? && d'.PreparedMig? ==> d.concrete.gi != d'.concrete.gi)
  }

  ghost predicate MadeInv(p: Plugin, s: State, d: PreparedDevice)
  {
    d.PreparedMig? && IsMig(p, d.device) && LiveAs(p, s, d) && KeyUnheld(s.cp, d.concrete.gi)
  }

  /** While the stored boot ID is an old one the entries mean nothing; the next startup drops them. */
  ghost predicate Inv(p: Plugin, s: State)
  {
    LiveInv(p, s) && BootInv(s) && AttemptInv(p, s) && (Current(s) ==> ClaimsInv(p, s))
  }

  lemma LiveNamesAreUnique(p: Plugin, s: State, k: GiKey, k': GiKey)
    requires WellFormed(p) && LiveInv(p, s) && k in s.live && k' in s.live
    requires LiveName(p, s, k) == LiveName(p, s, k')
    ensures k == k'
  {
  }

  /** A published name that parses to a live device's tuple is that device's name. */
  lemma ParsedNameIsTheLiveName(p: Plugin, s: State, device: string, k: GiKey)
    requires WellFormed(p) && LiveInv(p, s) && k in s.live && IsMig(p, device)
    requires TupleMatches(s.live[k].spec, p.naming.parse(device).value)
    ensures LiveName(p, s, k) == device
  {
  }

  lemma {:induction false} OurDevicesAreNamed(p: Plugin, results: seq<AllocResult>, d: string)
    requires d in OurDevices(p, results)
    ensures Names(results, d)
  {
    var last := results[|results| - 1];
    if last.driver != p.driver || last.device != d {
      OurDevicesAreNamed(p, results[..|results| - 1], d);
    }
  }
}
