/**
 * DeviceState of the compute-domain kubelet plugin: the same claim machine over IMEX channels and daemons.
 * Any method may give up right after a write to the checkpoint, which is also what dying there looks like.
 */
module Imex {
  import opened Text
  import opened ResourceApi
  import opened ConfigResolution

  type Uid = string

  datatype ImexDevice = Channel(device: string, id: nat) | Daemon(device: string)

  datatype Entry = Entry(completed: bool, results: seq<AllocResult>, configs: seq<AllocConfig>,
      devices: seq<ImexDevice>, name: string, namespace: string)

  type Checkpoint = map<Uid, Entry>

  function StartedEntry(claim: Claim): Entry
  {
    Entry(false, claim.results, claim.configs, [], claim.name, claim.namespace)
  }

  datatype Info = ChannelInfo(id: nat) | DaemonInfo

  predicate HoldsChannel(devices: seq<ImexDevice>, id: nat)
  {
    exists i :: 0 <= i < |devices| && devices[i].Channel? && devices[i].id == id
  }

  /** Another completed claim holds the channel. */
  ghost predicate HeldByOther(cp: Checkpoint, uid: Uid, id: nat)
  {
    exists u :: u in cp && u != uid && cp[u].completed && HoldsChannel(cp[u].devices, id)
  }

  /** Another completed claim shares a device with this one. */
  predicate Overlaps(driver: string, cp: Checkpoint, claim: Claim)
  {
    exists u :: u in cp && u != claim.uid && cp[u].completed && ShareADevice(driver, claim.results, cp[u].results)
  }

  /** At most one completed claim holds channel 0, with or without admin access. */
  ghost predicate OneHolder(cp: Checkpoint)
  {
    forall u, v :: u in cp && v in cp && cp[u].completed && cp[v].completed ==>
      HoldsChannel(cp[u].devices, 0) && HoldsChannel(cp[v].devices, 0) ==> u == v
  }

  /** No two completed claims share a device requested without admin access. */
  ghost predicate NoSharedDevice(driver: string, cp: Checkpoint)
  {
    forall u, v :: u in cp && v in cp && u != v && cp[u].completed && cp[v].completed ==>
      !ShareADevice(driver, cp[u].results, cp[v].results)
  }

  predicate ChannelRequested(driver: string, allocatable: map<string, Info>, results: seq<AllocResult>)
  {
    exists i :: 0 <= i < |results| && results[i].driver == driver && results[i].device in allocatable
      && allocatable[results[i].device].ChannelInfo?
  }

  function Kinds(allocatable: map<string, Info>): map<string, DeviceKind>
  {
    map d | d in allocatable :: if allocatable[d].ChannelInfo? then ChannelDevice else DaemonDevice
  }

  function Names(devices: seq<ImexDevice>): (names: seq<string>)
    ensures |names| == |devices| && forall i :: 0 <= i < |devices| ==> names[i] == devices[i].device
  {
    seq(|devices|, i requires 0 <= i < |devices| => devices[i].device)
  }

  /** Every prepared device is the published one of its name. */
  predicate AreFor(allocatable: map<string, Info>, devices: seq<ImexDevice>)
  {
    forall i :: 0 <= i < |devices| ==> devices[i].device in allocatable && IsFor(allocatable, devices[i])
  }

  predicate IsFor(allocatable: map<string, Info>, d: ImexDevice)
    requires d.device in allocatable
  {
    match d case Channel(device, id) => allocatable[device] == ChannelInfo(id)
            case Daemon(device) => allocatable[device] == DaemonInfo
  }

  /** What a caller gets: each device as often as results of the claim ask this driver for it, as it is published. */
  ghost predicate Delivered(driver: string, allocatable: map<string, Info>, results: seq<AllocResult>,
                            devices: seq<ImexDevice>)
  {
    AreFor(allocatable, devices) && forall d :: multiset(Names(devices))[d] == |Asking(driver, results, d)|
  }

  ghost predicate NoneRefused(x: Ctx, results: seq<AllocResult>)
  {
    forall i :: 0 <= i < |results| ==> !Refused(x, results[i])
  }

  /** The devices prepared for the groups whose configs are `won`. */
  ghost predicate Walked(allocatable: map<string, Info>, x: Ctx, results: seq<AllocResult>, won: set<ConfigRef>,
                         devices: seq<ImexDevice>)
  {
    multiset(Names(devices)) == ServedDevices(x, results, won) && AreFor(allocatable, devices)
  }

  lemma NamesAppend(a: seq<ImexDevice>, b: seq<ImexDevice>)
    ensures Names(a + b) == Names(a) + Names(b) && multiset(Names(a + b)) == multiset(Names(a)) + multiset(Names(b))
  {
    assert Names(a + b) == Names(a) + Names(b);
  }

  lemma WalkedOn(allocatable: map<string, Info>, x: Ctx, results: seq<AllocResult>, groups: Groups,
                 todo: set<ConfigRef>, c: ConfigRef,
                 devices: seq<ImexDevice>, group: seq<ImexDevice>)
    requires GroupedByWinner(x, results, groups) && todo <= groups.Keys && c in todo
    requires Walked(allocatable, x, results, groups.Keys - todo, devices) && Names(group) == DevicesOf(groups[c])
    requires AreFor(allocatable, group)
    ensures Walked(allocatable, x, results, groups.Keys - (todo - {c}), devices + group)
  {
    NextGroup(x, results, groups, todo, c);
    NamesAppend(devices, group);
  }

  /** What is served is published. */
  lemma ServedIsPublished(allocatable: map<string, Info>, x: Ctx, results: seq<AllocResult>, groups: Groups,
                          c: ConfigRef, n: nat)
    requires x.kinds == Kinds(allocatable) && GroupedByWinner(x, results, groups) && NoneRefused(x, results)
    requires c in groups && n < |groups[c]|
    ensures groups[c][n].device in allocatable
  {
    var r := groups[c][n];
    ServedAreOurs(x, results, {c}, r);
    var i :| 0 <= i < |results| && results[i] == r;
    assert !Refused(x, results[i]);
  }

  class DeviceState {
    const driver: string
    const allocatable: map<string, Info>
    var cp: Checkpoint
    var stored: Option<string>
    var boot: string
    var up: bool
    /** The boot in which each entry was last written. */
    ghost var wrote: map<Uid, string>

    /**
     * A node with whatever checkpoint file it has (None: no file); `past` says in which boot each entry was written.
     */
    constructor (driver: string, allocatable: map<string, Info>, boot: string,
                 cp: Checkpoint, stored: Option<string>, ghost past: map<Uid, string>)
      requires boot != "" && OneHolder(cp) && NoSharedDevice(driver, cp) && past.Keys == cp.Keys
      requires stored.None? ==> cp == map[]
      ensures Valid() && !up && this.driver == driver && this.allocatable == allocatable
      ensures this.cp == cp && this.stored == stored && this.boot == boot && wrote == past
    {
      this.driver, this.allocatable, this.boot := driver, allocatable, boot;
      this.cp, this.stored, up, wrote := cp, stored, false, past;
    }

    ghost predicate Valid()
      reads this
    {
      && OneHolder(cp) && NoSharedDevice(driver, cp)
      && boot != "" && (up ==> stored == Some(boot)) && (stored.None? ==> cp == map[])
      && wrote.Keys == cp.Keys
    }

    /** A boot ID in the file is the boot that all its entries are from. */
    ghost predicate Dated()
      reads this
      requires Valid()
    {
      stored.Some? && stored.value != "" ==> forall u :: u in cp ==> wrote[u] == stored.value
    }

    method Crash()
      requires Valid()
      modifies `up
      ensures Valid() && !up && (old(Dated()) ==> Dated())
    {
      up := false;
    }

    method Reboot(boot: string)
      requires Valid() && boot != ""
      modifies `up, `boot
      ensures Valid() && !up && this.boot == boot && (old(Dated()) ==> Dated())
    {
      up, this.boot := false, boot;
    }

    /**
     * Startup keeps the entries exactly when the file was written in this boot or has no boot ID. Only in the second
     * case may an entry of an earlier boot be among them.
     */
    method Start() returns (ok: bool)
      requires Valid() && !up
      modifies `up, `cp, `stored, `wrote
      ensures Valid() && up == ok && (ok ==> stored == Some(boot))
      ensures ok ==> cp == if old(stored) == Some(boot) || old(stored) == Some("") then old(cp) else map[]
      ensures ok ==> forall u :: u in cp ==> wrote[u] == old(wrote[u])
      ensures ok && old(Dated()) && old(stored) != Some("") ==> Dated()
      ensures !ok ==> cp == old(cp) && stored == old(stored) && wrote == old(wrote)
    {
      if * { return false; }
      if stored != Some("") && stored != Some(boot) {
        cp, wrote := map[], map[];
      }
      stored, up := Some(boot), true;
      ok := true;
    }

    // ------------------------------------------------------------------- checks

    method RequestedNonAdminDevices(results: seq<AllocResult>) returns (requested: set<string>)
      ensures forall d :: d in requested <==>
          exists i :: 0 <= i < |results| && results[i].driver == driver && !results[i].adminAccess
                        && results[i].device == d
    {
      requested := {};
      for n := 0 to |results|
        invariant forall d :: d in requested <==>
            exists i :: 0 <= i < n && results[i].driver == driver && !results[i].adminAccess && results[i].device == d
      {
        if results[n].driver != driver { continue; }
        if results[n].adminAccess { continue; }
        requested := requested + {results[n].device};
      }
    }

    method ValidateNoOverlappingPreparedDevices(claim: Claim) returns (ok: bool)
      ensures ok <==> forall u :: u in cp && u != claim.uid && cp[u].completed ==>
          !ShareADevice(driver, claim.results, cp[u].results)
    {
      var requested := RequestedNonAdminDevices(claim.results);
      assert forall d :: d in requested <==> RequestsNonAdmin(driver, claim.results, d);
      if requested == {} {
        forall u | u in cp ensures !ShareADevice(driver, claim.results, cp[u].results) {
          SharingIsWantingTheSame(driver, claim.results, cp[u].results);
        }
        return true;
      }
      var todo := cp.Keys;
      while todo != {}
        invariant todo <= cp.Keys
        invariant forall u :: u in cp && u !in todo && u != claim.uid && cp[u].completed ==>
                    !ShareADevice(driver, claim.results, cp[u].results)
        decreases |todo|
      {
        var uid :| uid in todo;
        todo := todo - {uid};
        if uid == claim.uid || !cp[uid].completed { continue; }
        var prepared := RequestedNonAdminDevices(cp[uid].results);
        assert forall d :: d in prepared <==> RequestsNonAdmin(driver, cp[uid].results, d);
        SharingIsWantingTheSame(driver, claim.results, cp[uid].results);
        if requested * prepared != {} {
          var d :| d in requested * prepared;
          assert RequestsNonAdmin(driver, claim.results, d) && RequestsNonAdmin(driver, cp[uid].results, d);
          return false;
        }
        assert forall d :: !(d in requested && d in prepared) by {
          forall d ensures !(d in requested && d in prepared) { assert d !in requested * prepared; }
        }
      }
      ok := true;
    }

    /** The checkpoint is the source of truth: it fails exactly when some completed claim has the channel. */
    method AssertImexChannelNotAllocated(id: nat) returns (ok: bool)
      ensures ok <==> forall u :: u in cp && cp[u].completed ==> !HoldsChannel(cp[u].devices, id)
    {
      var todo := cp.Keys;
      while todo != {}
        invariant todo <= cp.Keys
        invariant forall u :: u in cp && u !in todo && cp[u].completed ==> !HoldsChannel(cp[u].devices, id)
        decreases |todo|
      {
        var uid :| uid in todo;
        todo := todo - {uid};
        if !cp[uid].completed { continue; }
        for n := 0 to |cp[uid].devices|
          invariant forall i :: 0 <= i < n ==> !(cp[uid].devices[i].Channel? && cp[uid].devices[i].id == id)
        {
          if cp[uid].devices[n].Channel? && cp[uid].devices[n].id == id { return false; }
        }
      }
      ok := true;
    }

    // ------------------------------------------------------------------ prepare

    /** Asks for channel 0, whatever channel the result names; then labels and namespaces, which may fail. */
    method ApplyComputeDomainChannelConfig(results: seq<AllocResult>) returns (ok: bool)
      ensures ok ==> |results| == 1 && forall u :: u in cp && cp[u].completed ==> !HoldsChannel(cp[u].devices, 0)
    {
      if |results| != 1 { return false; }
      var free := AssertImexChannelNotAllocated(0);
      if !free { return false; }
      ok := *;
    }

    method ApplyComputeDomainDaemonConfig(results: seq<AllocResult>) returns (ok: bool)
      ensures ok ==> results != [] && forall i, j :: 0 <= i < j < |results| ==> results[i].device == results[j].device
    {
      var devices: set<string> := {};
      for n := 0 to |results|
        invariant forall d :: d in devices <==> exists i :: 0 <= i < n && results[i].device == d
        invariant n > 0 ==> devices != {}
      {
        devices := devices + {results[n].device};
      }
      forall i, j | 0 <= i < j < |results| && results[i].device != results[j].device ensures |devices| >= 2 {
        TwoElements(devices, results[i].device, results[j].device);
      }
      if |devices| != 1 { return false; }
      ok := *;
    }

    /** Some completed claim holds channel 0, so no channel can be given out now. */
    ghost predicate ChannelTaken()
      reads this
    {
      exists u :: u in cp && cp[u].completed && HoldsChannel(cp[u].devices, 0)
    }

    /** Every config that won something is applied to its group; a type this plugin does not know is an error. */
    method ApplyConfigs(x: Ctx, groups: Groups) returns (ok: bool)
      ensures ok ==> forall c :: c in groups && c.ConfigRef? && c.index < |x.configs| ==>
                  (x.configs[c.index].kind.ChannelConfig? && !ChannelTaken()) || x.configs[c.index].kind.DaemonConfig?
    {
      var todo := groups.Keys;
      while todo != {}
        invariant todo <= groups.Keys
        invariant forall c :: c in groups && c !in todo && c.ConfigRef? && c.index < |x.configs| ==>
                    (x.configs[c.index].kind.ChannelConfig? && !ChannelTaken()) || x.configs[c.index].kind.DaemonConfig?
        decreases |todo|
      {
        var c :| c in todo;
        todo := todo - {c};
        if c.ConfigRef? && c.index < |x.configs| {
          var applied: bool;
          match x.configs[c.index].kind {
            case ChannelConfig => applied := ApplyComputeDomainChannelConfig(groups[c]);
            case DaemonConfig => applied := ApplyComputeDomainDaemonConfig(groups[c]);
            case _ => applied := false;
          }
          if !applied { return false; }
        }
      }
      ok := true;
    }

    /** The prepared devices of the groups, in any order of the groups. */
    method PreparedDevices(x: Ctx, results: seq<AllocResult>, groups: Groups) returns (devices: seq<ImexDevice>)
      requires x.plugin == ComputeDomainPlugin && x.kinds == Kinds(allocatable) && GroupedByWinner(x, results, groups)
      requires NoneRefused(x, results)
      ensures Walked(allocatable, x, results, groups.Keys, devices)
    {
      devices := [];
      var todo := groups.Keys;
      ServedByNone(x, results);
      assert groups.Keys - todo == {};
      while todo != {}
        invariant todo <= groups.Keys && Walked(allocatable, x, results, groups.Keys - todo, devices)
        decreases |todo|
      {
        var c :| c in todo;
        var group := PreparedGroup(x, results, groups, c);
        WalkedOn(allocatable, x, results, groups, todo, c, devices, group);
        devices := devices + group;
        todo := todo - {c};
      }
      assert groups.Keys - todo == groups.Keys;
    }

    method PreparedGroup(x: Ctx, results: seq<AllocResult>, groups: Groups, c: ConfigRef)
      returns (devices: seq<ImexDevice>)
      requires x.plugin == ComputeDomainPlugin && x.kinds == Kinds(allocatable) && GroupedByWinner(x, results, groups)
      requires c in groups
      requires NoneRefused(x, results)
      ensures Names(devices) == DevicesOf(groups[c]) && AreFor(allocatable, devices)
    {
      devices := [];
      for n := 0 to |groups[c]|
        invariant |devices| == n && AreFor(allocatable, devices)
        invariant forall i :: 0 <= i < n ==> devices[i].device == groups[c][i].device
      {
        var r := groups[c][n];
        ServedIsPublished(allocatable, x, results, groups, c, n);
        var d := PreparedOne(r.device);
        devices := devices + [d];
      }
    }

    method PreparedOne(device: string) returns (d: ImexDevice)
      requires device in allocatable
      ensures d.device == device && (d.Channel? <==> allocatable[device].ChannelInfo?)
      ensures d.Channel? ==> d.id == allocatable[device].id
    {
      match allocatable[device]
      case ChannelInfo(id) => d := Channel(device, id);
      case DaemonInfo => d := Daemon(device);
    }

    /**
     * prepareDevices. Success means one device per result of ours, and that no completed claim holds channel 0 if any
     * result asks for a channel: config resolution has given every channel result a channel config, which checks.
     */
    method PrepareDevices(claim: Claim) returns (r: Result<seq<ImexDevice>>)
      ensures r.Ok? ==> Delivered(driver, allocatable, claim.results, r.value)
      ensures r.Ok? && ChannelRequested(driver, allocatable, claim.results) ==> !ChannelTaken()
    {
      var configs, _ := GetOpaqueDeviceConfigs(driver, claim.configs);
      if configs.Err? { return Err(configs.message); }
      var x := Ctx(ComputeDomainPlugin, driver, Kinds(allocatable), Defaults(ComputeDomainPlugin, false)
        + configs.value);
      var groups := GetConfigResultsMap(x, claim.results);
      if groups.Err? { return Err(groups.message); }
      var applied := ApplyConfigs(x, groups.value);
      if !applied { return Err("error applying config"); }
      EveryResultIsServed(x, false, configs.value, claim.results, groups.value);
      if ChannelRequested(driver, allocatable, claim.results) {
        ChannelResultIsChecked(x, configs.value, claim.results, groups.value);
      }
      var devices := PreparedDevices(x, claim.results, groups.value);
      forall d ensures multiset(Names(devices))[d] == |Asking(driver, claim.results, d)| {
        OfDriverCounts(driver, claim.results, d);
      }
      r := Ok(devices);
    }

    /** Some result of the claim is in the group of a config of type channel, or of one this plugin does not know. */
    lemma ChannelResultIsChecked(x: Ctx, ranked: seq<OpaqueDeviceConfig>, results: seq<AllocResult>, groups: Groups)
      requires x.plugin == ComputeDomainPlugin && x.driver == driver && x.kinds == Kinds(allocatable)
      requires x.configs == Defaults(ComputeDomainPlugin, false) + ranked && GroupedByWinner(x, results, groups)
      requires forall i :: 0 <= i < |results| ==> !Refused(x, results[i])
      requires ChannelRequested(driver, allocatable, results)
      ensures exists c :: c in groups && c.ConfigRef? && c.index < |x.configs| && !x.configs[c.index].kind.DaemonConfig?
    {
      var i :| 0 <= i < |results| && results[i].driver == driver && results[i].device in allocatable
        && allocatable[results[i].device].ChannelInfo?;
      assert !Refused(x, results[i]);
      DefaultsCoverAll(x, false, ranked, results[i]);
      WonGroupsExist(x, results, i);
      var c := WinnerOf(x, results[i]);
      assert c in groups && !x.configs[c.index].kind.DaemonConfig?;
    }

    /** Prepare, under the lock. Whether the checkpoint can be read is a parameter. */
    method Prepare(claim: Claim, readable: bool) returns (r: Result<seq<ImexDevice>>)
      requires Valid() && up
      modifies `cp, `wrote
      ensures Valid() && (old(Dated()) ==> Dated())
      ensures !readable ==> r.Err? && cp == old(cp)
      ensures forall u :: u != claim.uid ==> (u in cp <==> u in old(cp)) && (u in cp ==> cp[u] == old(cp)[u])
      ensures readable && claim.uid in old(cp) && old(cp)[claim.uid].completed ==>
                r == Ok(old(cp)[claim.uid].devices) && cp == old(cp)
      ensures !(claim.uid in old(cp) && old(cp)[claim.uid].completed) ==>
                && (Overlaps(driver, old(cp), claim) ==> r.Err? && cp == old(cp))
                && (ChannelRequested(driver, allocatable, claim.results) && HeldByOther(old(cp), claim.uid, 0) ==>
                  r.Err?)
                && (r.Ok? ==> cp == old(cp)[claim.uid := Entry(true, claim.results, claim.configs, r.value, "", "")]
                              && Delivered(driver, allocatable, claim.results, r.value))
                && (r.Err? && cp != old(cp) ==>
                      cp == old(cp)[claim.uid := StartedEntry(claim)])
      ensures !(claim.uid in old(cp) && old(cp)[claim.uid].completed) && r.Ok? ==>
                forall i :: 0 <= i < |r.value| ==>
                  && r.value[i].device in allocatable
                  && (r.value[i].Channel? <==> allocatable[r.value[i].device].ChannelInfo?)
                  && (r.value[i].Channel? ==> allocatable[r.value[i].device].id == r.value[i].id)
    {
      if !readable { return Err("unable to get checkpoint"); }
      if claim.uid in cp && cp[claim.uid].completed { return Ok(cp[claim.uid].devices); }
      var free := ValidateNoOverlappingPreparedDevices(claim);
      if !free { return Err("requested device is already allocated to different claim"); }
      r := PrepareAfresh(claim);
    }

    /** The two writes to the checkpoint, and the devices in between. */
    method PrepareAfresh(claim: Claim) returns (r: Result<seq<ImexDevice>>)
      requires Valid() && up && !Overlaps(driver, cp, claim) && !(claim.uid in cp && cp[claim.uid].completed)
      modifies `cp, `wrote
      ensures Valid() && (old(Dated()) ==> Dated())
      ensures ChannelRequested(driver, allocatable, claim.results) && HeldByOther(old(cp), claim.uid, 0) ==> r.Err?
      ensures r.Ok? ==> cp == old(cp)[claim.uid := Entry(true, claim.results, claim.configs, r.value, "", "")]
      ensures r.Ok? ==> Delivered(driver, allocatable, claim.results, r.value)
      ensures r.Err? && cp != old(cp) ==> cp == old(cp)[claim.uid := StartedEntry(claim)]
    {
      var started := WriteStartedEntry(claim);
      if !started { return Err("unable to update checkpoint"); }
      var devices := PrepareDevices(claim);
      if devices.Err? { return Err(devices.message); }
      if * { return Err("unable to create CDI spec file"); }
      var completed := WriteCompletedEntry(claim, devices.value);
      if !completed { return Err("unable to update checkpoint"); }
      LastWriteWins(old(cp), claim.uid, StartedEntry(claim), cp[claim.uid]);
      r := devices;
    }

    /** The first write; a failure leaves the file as it was. */
    method WriteStartedEntry(claim: Claim) returns (ok: bool)
      requires Valid() && up && !Overlaps(driver, cp, claim) && !(claim.uid in cp && cp[claim.uid].completed)
      modifies `cp, `wrote
      ensures Valid() && (old(Dated()) ==> Dated()) && !Overlaps(driver, cp, claim)
      ensures cp == if ok then old(cp)[claim.uid := StartedEntry(claim)] else old(cp)
      ensures ok ==>
          cp[claim.uid] == Entry(false, claim.results, claim.configs, [], claim.name, claim.namespace)
      ensures HeldByOther(old(cp), claim.uid, 0) ==> HeldByOther(cp, claim.uid, 0)
    {
      if * { return false; }
      StartingKeepsClaims(driver, cp, claim);
      cp, wrote := cp[claim.uid := StartedEntry(claim)], wrote[claim.uid := boot];
      ok := true;
    }

    method WriteCompletedEntry(claim: Claim, devices: seq<ImexDevice>) returns (ok: bool)
      requires Valid() && up && !Overlaps(driver, cp, claim) && claim.uid in cp
      requires Delivered(driver, allocatable, claim.results, devices)
      requires ChannelRequested(driver, allocatable, claim.results) ==> !ChannelTaken()
      modifies `cp
      ensures Valid() && (old(Dated()) ==> Dated())
      ensures cp == if ok
          then old(cp)[claim.uid := Entry(true, claim.results, claim.configs, devices, "", "")] else old(cp)
    {
      if * { return false; }
      HoldsExactlyWhatIsRequested(driver, allocatable, claim.results, devices, 0);
      CompletingKeepsClaims(driver, cp, claim, devices);
      cp := cp[claim.uid := Entry(true, claim.results, claim.configs, devices, "", "")];
      ok := true;
    }

    // ---------------------------------------------------------------- unprepare

    /**
     * Labels and daemon settings of every config the allocation resolves to; unknown fields and unknown types are
     * passed over here, for the checkpoint may come from a newer driver.
     */
    method UnprepareDevices(results: seq<AllocResult>, allocConfigs: seq<AllocConfig>) returns (ok: bool)
      ensures Unusable(driver, Leniently(allocConfigs)) ==> !ok
    {
      var configs, _ := GetOpaqueDeviceConfigs(driver, Leniently(allocConfigs));
      if configs.Err? { return false; }
      var x := Ctx(ComputeDomainPlugin, driver, Kinds(allocatable), Defaults(ComputeDomainPlugin, false)
        + configs.value);
      var groups := GetConfigResultsMap(x, results);
      if groups.Err? { return false; }
      ok := *;
    }

    method Unprepare(uid: Uid, readable: bool) returns (ok: bool)
      requires Valid() && up
      modifies `cp, `wrote
      ensures Valid() && (old(Dated()) ==> Dated())
      ensures cp == if ok then old(cp) - {uid} else old(cp)
      ensures !readable ==> !ok
      ensures uid !in old(cp) ==> (ok <==> readable)
      ensures uid in old(cp) && Unusable(driver, Leniently(old(cp)[uid].configs)) ==> !ok
    {
      if !readable {
        return false;
      }
      if uid !in cp {
        assert cp - {uid} == cp;
        return true;
      }
      ok := UnprepareDevices(cp[uid].results, cp[uid].configs);
      if !ok { return false; }
      if * { return false; }
      cp, wrote := cp - {uid}, wrote - {uid};
    }
  }

  lemma TwoElements(devices: set<string>, d: string, e: string)
    requires d in devices && e in devices && d != e
    ensures |devices| >= 2
  {
    assert e in devices - {d};
    assert |devices| == |devices - {d}| + 1;
  }

  /** The result asks this driver for a device published as the channel. */
  predicate AsksForChannel(driver: string, allocatable: map<string, Info>, r: AllocResult, id: nat)
  {
    r.driver == driver && r.device in allocatable && allocatable[r.device] == ChannelInfo(id)
  }

  /** A claim gets a channel if and only if one of its results asks this driver for a device published as it. */
  lemma HoldsExactlyWhatIsRequested(driver: string, allocatable: map<string, Info>, results: seq<AllocResult>,
                                    devices: seq<ImexDevice>, id: nat)
    requires Delivered(driver, allocatable, results, devices)
    ensures HoldsChannel(devices, id) <==> exists r :: r in results && AsksForChannel(driver, allocatable, r, id)
    ensures HoldsChannel(devices, id) ==> ChannelRequested(driver, allocatable, results)
  {
    if i :| 0 <= i < |devices| && devices[i].Channel? && devices[i].id == id {
      assert Names(devices)[i] in multiset(Names(devices));
      assert Asking(driver, results, devices[i].device) != {};
      var k :| k in Asking(driver, results, devices[i].device);
      assert AsksForChannel(driver, allocatable, results[k], id);
    }
    if r :| r in results && AsksForChannel(driver, allocatable, r, id) {
      var k :| 0 <= k < |results| && results[k] == r;
      assert k in Asking(driver, results, r.device);
      assert r.device in multiset(Names(devices));
      var i :| 0 <= i < |devices| && Names(devices)[i] == r.device;
      assert IsFor(allocatable, devices[i]);
    }
  }

  lemma LastWriteWins(cp: Checkpoint, uid: Uid, first: Entry, last: Entry)
    ensures cp[uid := first][uid := last] == cp[uid := last]
  {
  }

  lemma StartingKeepsClaims(driver: string, cp: Checkpoint, claim: Claim)
    requires OneHolder(cp) && NoSharedDevice(driver, cp) && !Overlaps(driver, cp, claim)
    requires !(claim.uid in cp && cp[claim.uid].completed)
    ensures var cp' := cp[claim.uid := StartedEntry(claim)];
            OneHolder(cp') && NoSharedDevice(driver, cp') && !Overlaps(driver, cp', claim)
              && (HeldByOther(cp, claim.uid, 0) ==> HeldByOther(cp', claim.uid, 0))
  {
    var cp' := cp[claim.uid := StartedEntry(claim)];
    if u :| u in cp && u != claim.uid && cp[u].completed && HoldsChannel(cp[u].devices, 0) {
      assert u in cp' && cp'[u] == cp[u];
    }
  }

  /** The check and the completing write see the same checkpoint, so neither promise is broken by it. */
  lemma CompletingKeepsClaims(driver: string, cp: Checkpoint, claim: Claim, devices: seq<ImexDevice>)
    requires OneHolder(cp) && NoSharedDevice(driver, cp) && !Overlaps(driver, cp, claim)
    requires HoldsChannel(devices, 0) ==> forall u :: u in cp && cp[u].completed ==> !HoldsChannel(cp[u].devices, 0)
    ensures OneHolder(cp[claim.uid := Entry(true, claim.results, claim.configs, devices, "", "")])
    ensures NoSharedDevice(driver, cp[claim.uid := Entry(true, claim.results, claim.configs, devices, "", "")])
  {
  }
}
