/**
 * DeviceState of the GPU kubelet plugin: the methods that drive checkpoint and hardware, each proved to
 * make only effects of the claim state machine. `log` holds every effect in the order it became durable,
 * so each of its prefixes is a state in which the process may have died.
 */
module GpuDeviceState {
  import opened Text
  import opened MigNames
  import opened ResourceApi
  import opened GpuClaims
  import opened GpuSafety
  import opened DeviceLib
  import opened ConfigResolution

  /**
   * The lookup that rollback uses never finds a parent. So it is for the shipped names: a tuple read from a name
   * has an empty bus ID, and no GPU goes by one (ShippedRollbackIsBlind).
   */
  ghost predicate Blind(p: Plugin, lib: Lib)
  {
    forall d :: p.naming.parse(d).Some? ==> lib.ParentUUID(p.naming.parse(d).value) !in lib.uuids
  }

  /** The alternative, should the lookup be repaired: for published names it finds the right parent. */
  ghost predicate Sound(p: Plugin, lib: Lib)
  {
    forall d :: IsMig(p, d) && p.naming.parse(d).Some? && lib.ParentUUID(p.naming.parse(d).value) in lib.uuids ==>
      lib.ParentUUID(p.naming.parse(d).value) == p.allocatable[d].spec.parent.uuid
  }

  /** Every name that reads as a MIG device is one this plugin published. */
  ghost predicate Canonical(p: Plugin, results: seq<AllocResult>)
  {
    forall d :: Names(results, d) && p.naming.parse(d).Some? ==> IsMig(p, d)
  }

  lemma ShippedRollbackIsBlind(p: Plugin, lib: Lib)
    requires p.naming == SHIPPED && "" !in lib.gpuUUIDByPCIBusID && "" !in lib.uuids
    ensures Blind(p, lib)
  {
  }

  /** A state of a node from which every run within the assumptions keeps the invariant. */
  ghost predicate Begins(p: Plugin, s: State)
  {
    && WellFormed(p) && TornInv(s)
    && forall es {:trigger Inv(p, Exec(s, es))} :: SafeRuns(p, s, es) ==> Inv(p, Exec(s, es))
  }

  lemma InvBegins(p: Plugin, s: State)
    requires WellFormed(p) && Inv(p, s) && TornInv(s)
    ensures Begins(p, s)
  {
    forall es | SafeRuns(p, s, es) ensures Inv(p, Exec(s, es)) {
      RunKeepsInv(p, s, es);
    }
  }

  lemma BegunKeepsInv(p: Plugin, s: State, es: seq<Effect>)
    requires Begins(p, s) && SafeRuns(p, s, es)
    ensures Inv(p, Exec(s, es))
  {
  }

  class DeviceState {
    const p: Plugin
    const lib: Lib
    var cp: Checkpoint
    var stored: Option<string>
    var boot: string
    var up: bool
    ghost const start: State
    ghost var world: State
    ghost var log: seq<Effect>

    /** A node on which nothing has run yet. */
    constructor (p: Plugin, lib: Lib, boot: string)
      requires WellFormed(p) && lib.live == map[] && boot != "" && lib.answers
      requires Blind(p, lib) || Sound(p, lib)
      ensures Valid() && this.p == p && this.lib == lib && this.boot == boot && log == [] && !up && cp == map[]
      ensures Fresh(start)
    {
      this.p, this.lib := p, lib;
      cp, stored, this.boot, up := map[], None, boot, false;
      var s0 := State(map[], None, map[], lib.nextUuid, boot, false, None, {boot}, {}, map[]);
      start, world, log := s0, s0, [];
      InvBegins(p, s0);
    }

    /** A node on which an earlier plugin has left its checkpoint, with a boot ID or without, and its devices. */
    constructor Inherit(p: Plugin, lib: Lib, boot: string, cp: Checkpoint, stored: Option<string>, ghost past: State)
      requires WellFormed(p) && Inv(p, past) && TornInv(past) && !past.up && lib.answers
      requires past.cp == cp && past.stored == stored && past.boot == boot
      requires past.live == lib.live && past.nextUuid == lib.nextUuid
      requires Blind(p, lib) || (Sound(p, lib) && forall u :: u in cp ==> Canonical(p, cp[u].results))
      ensures Valid() && this.p == p && this.lib == lib && start == past && log == [] && !up
      ensures this.cp == cp && this.stored == stored && this.boot == boot
    {
      this.p, this.lib := p, lib;
      this.cp, this.stored, this.boot, up := cp, stored, boot, false;
      start, world, log := past, past, [];
      InvBegins(p, past);
    }

    ghost predicate Valid()
      reads this, lib
    {
      && Begins(p, start) && SafeRuns(p, start, log) && world == Exec(start, log) && lib.answers
      && world.cp == cp && world.stored == stored && world.boot == boot && world.up == up
      && world.live == lib.live && world.nextUuid == lib.nextUuid
      && (Blind(p, lib) || (Sound(p, lib) && forall u :: u in cp ==> Canonical(p, cp[u].results)))
    }

    /**
     * The recorded devices of a completed claim are live, as they were prepared, exactly until its own teardown
     * begins.
     */
    lemma RecordedAreLive(uid: Uid)
      requires Valid() && up && IsCompleted(cp, uid)
      ensures uid !in world.torn <==> AllLive(p, world, cp[uid].devices)
    {
      BegunKeepsInv(p, start, log);
      RunKeepsTornInv(p, start, log);
      LiveExactlyUnlessTorn(p, world, uid);
    }

    /** Records an effect of the code in the log. */
    ghost method Note(e: Effect)
      requires Begins(p, start) && SafeRuns(p, start, log) && world == Exec(start, log)
      requires Enabled(p, world, e) && Assumed(p, world, e)
      modifies `world, `log
      ensures log == old(log) + [e] && world == Apply(old(world), e)
      ensures SafeRuns(p, start, log) && world == Exec(start, log) && Inv(p, world)
    {
      RunsExtend(p, start, log, e);
      log := log + [e];
      world := Apply(world, e);
      BegunKeepsInv(p, start, log);
    }

    ghost method NoteCreated(uid: Uid, device: string, spec: MigSpec, d: LiveTuple)
      requires Begins(p, start) && SafeRuns(p, start, log) && world == Exec(start, log)
      requires CanCreate(p, world, uid, device, spec, d.gi) && KeyUnheld(world.cp, d.gi) && d.migUUID == world.nextUuid
      modifies `world, `log
      ensures log == old(log) + [CreateMig(uid, device, spec, d.gi)]
      ensures world == AfterCreate(old(world), uid, device, spec, d.gi)
      ensures SafeRuns(p, start, log) && world == Exec(start, log)
      ensures PreparedMig(device, d) !in old(world).attempt.value.made
    {
      BegunKeepsInv(p, start, log);
      NewDeviceIsNew(p, world, PreparedMig(device, d));
      Note(CreateMig(uid, device, spec, d.gi));
    }

    // ------------------------------------------------------ durable primitives

    /** updateCheckpoint storing a started entry; a failure leaves the file as it was. */
    method WriteStartedEntry(claim: Claim) returns (ok: bool)
      requires Valid() && CanStart(p, world, claim.uid, claim.results) && (Blind(p, lib) || Canonical(p, claim.results))
      modifies `cp, `world, `log
      ensures Valid() && log == old(log) + if ok
          then [WriteStarted(claim.uid, claim.results, claim.name, claim.namespace)] else []
      ensures cp == if ok
          then old(cp)[claim.uid := Entry(PrepareStarted, claim.results, [], claim.name, claim.namespace)] else old(cp)
      ensures if ok then world == AfterStarted(old(world), claim.uid, claim.results, claim.name, claim.namespace)
              else world == old(world)
    {
      if * { return false; }
      cp := cp[claim.uid := Started(claim.results, claim.name, claim.namespace)];
      Note(WriteStarted(claim.uid, claim.results, claim.name, claim.namespace));
      ok := true;
    }

    method WriteCompletedEntry(uid: Uid, results: seq<AllocResult>, devices: seq<PreparedDevice>) returns (ok: bool)
      requires Valid() && CanComplete(p, world, uid, results, devices)
      modifies `cp, `world, `log
      ensures Valid() && log == old(log) + if ok then [WriteCompleted(uid, results, devices)] else []
      ensures cp == if ok then old(cp)[uid := Entry(PrepareCompleted, results, devices, "", "")] else old(cp)
      ensures if ok then world == AfterCompleted(old(world), uid, results, devices) else world == old(world)
    {
      if * { return false; }
      cp := cp[uid := Completed(results, devices)];
      Note(WriteCompleted(uid, results, devices));
      ok := true;
    }

    method DeleteClaimFromCheckpoint(uid: Uid) returns (ok: bool)
      requires Valid() && CanRemove(p, world, uid)
      modifies `cp, `world, `log
      ensures Valid() && log == old(log) + if ok then [RemoveEntry(uid)] else []
      ensures cp == if ok then old(cp) - {uid} else old(cp)
      ensures if ok then world == AfterRemove(old(world), uid) else world == old(world)
    {
      if * { return false; }
      cp := cp - {uid};
      Note(RemoveEntry(uid));
      ok := true;
    }

    // ------------------------------------------------------------- process life

    method Crash()
      requires Valid()
      modifies `up, `world, `log
      ensures Valid() && !up && log == old(log) + [GpuClaims.Crash]
    {
      up := false;
      Note(GpuClaims.Crash);
    }

    /** A reboot: the kernel hands out a boot ID never seen before, and no MIG device survives. */
    method Reboot(boot: string)
      requires Valid() && boot != "" && boot !in world.boots && (stored == Some("") ==> cp == map[])
      modifies `up, `boot, `world, `log, lib`live
      ensures Valid() && !up && lib.live == map[] && log == old(log) + [GpuClaims.Reboot(boot)]
    {
      up := false;
      this.boot := boot;
      lib.live := map[];
      Note(GpuClaims.Reboot(boot));
    }

    /** NewDeviceState: keep the checkpoint of this boot, adopt one without a boot ID, replace any other. */
    method Start() returns (ok: bool)
      requires Valid() && !up
      modifies `up, `cp, `stored, `world, `log
      ensures Valid() && up == ok && log == old(log) + if ok then [Startup] else []
      ensures ok ==> stored == Some(boot)
      ensures ok ==> cp == if old(stored) == Some(boot) || old(stored) == Some("") then old(cp) else map[]
      ensures !ok ==> cp == old(cp) && stored == old(stored) && world == old(world)
    {
      if * { return false; }
      BegunKeepsInv(p, start, log);
      if stored != Some("") && stored != Some(boot) {
        cp := map[];
      }
      stored := Some(boot);
      up := true;
      Note(Startup);
      ok := true;
    }

    // ----------------------------------------------------------- overlap check

    method RequestedNonAdminDevices(results: seq<AllocResult>) returns (requested: set<string>)
      ensures forall d :: d in requested <==>
          exists i :: 0 <= i < |results| && results[i].driver == p.driver && !results[i].adminAccess
                        && results[i].device == d
    {
      requested := {};
      for n := 0 to |results|
        invariant forall d :: d in requested <==>
            exists i :: 0 <= i < n && results[i].driver == p.driver && !results[i].adminAccess && results[i].device == d
      {
        if results[n].driver != p.driver { continue; }
        if results[n].adminAccess { continue; }
        requested := requested + {results[n].device};
      }
    }

    method ValidateNoOverlappingPreparedDevices(claim: Claim) returns (ok: bool)
      ensures ok <==> forall u :: u in cp && u != claim.uid && cp[u].state.PrepareCompleted? ==>
          !ShareADevice(p.driver, claim.results, cp[u].results)
    {
      OverlapIsSharing(p, cp, claim.uid, claim.results);
      var requested := RequestedNonAdminDevices(claim.results);
      assert forall d :: d in requested <==> Wants(p, claim.results, d);
      if requested == {} { return true; }
      var todo := cp.Keys;
      while todo != {}
        invariant todo <= cp.Keys
        invariant forall u :: u in cp && u !in todo && u != claim.uid && IsCompleted(cp, u) ==>
            Disjoint(p, claim.results, cp[u].results)
        decreases |todo|
      {
        var uid :| uid in todo;
        todo := todo - {uid};
        if uid == claim.uid { continue; }
        if !cp[uid].state.PrepareCompleted? { continue; }
        var prepared := RequestedNonAdminDevices(cp[uid].results);
        assert forall d :: d in prepared <==> Wants(p, cp[uid].results, d);
        if requested * prepared != {} {
          var d :| d in requested * prepared;
          assert Wants(p, claim.results, d) && Wants(p, cp[uid].results, d);
          return false;
        }
        assert forall d :: !(d in requested && d in prepared) by {
          forall d ensures !(d in requested && d in prepared) { assert d !in requested * prepared; }
        }
      }
      ok := true;
    }

    // ---------------------------------------------------------------- rollback

    /** Whether some completed claim's allocation names the device. */
    method IsNamedByCompleted(device: string) returns (b: bool)
      ensures b <==>
          exists u, i :: u in cp && cp[u].state.PrepareCompleted? && 0 <= i < |cp[u].results|
                           && cp[u].results[i].device == device
    {
      var todo := cp.Keys;
      while todo != {}
        invariant todo <= cp.Keys
        invariant forall u :: IsCompleted(cp, u) && u !in todo ==> !Names(cp[u].results, device)
        decreases |todo|
      {
        var uid :| uid in todo;
        todo := todo - {uid};
        if cp[uid].state.PrepareCompleted? {
          for n := 0 to |cp[uid].results|
            invariant forall i :: 0 <= i < n ==> cp[uid].results[i].device != device
          {
            if cp[uid].results[n].device == device { return true; }
          }
        }
      }
      return false;
    }

    /** Some device of the partial claim reads as a MIG device and no completed claim names it. */
    ghost predicate HasOrphan(results: seq<AllocResult>)
      reads this
    {
      exists d :: Names(results, d) && p.naming.parse(d).Some? && !UsedByCompleted(cp, d)
    }

    method DeleteMigDevIfExistsAndNotUsedByCompletedClaim(uid: Uid, ms: MigSpecTuple, device: string) returns (ok: bool)
      requires Valid() && up && IsStarted(cp, uid) && Names(cp[uid].results, device)
      requires p.naming.parse(device) == Some(ms)
      modifies lib`live, `world, `log
      ensures Valid() && old(log) <= log
      ensures forall k :: k in lib.live ==> k in old(lib.live) && lib.live[k] == old(lib.live)[k]
      ensures ok ==> Gone(p, world, device)
      ensures Blind(p, lib) ==>
          (ok <==> UsedByCompleted(cp, device)) && world == old(world) && lib.live == old(lib.live)
    {
      var used := IsNamedByCompleted(device);
      if used { return true; }
      var found := lib.FindMigDevBySpec(ms);
      if found.Err? { return false; }
      BegunKeepsInv(p, start, log);
      if found.value.None? {
        MissIsMiss(p, lib, world, device, ms);
        return true;
      }
      var key := found.value.value;
      HitIsUnique(p, lib, world, device, ms, key);
      ok := lib.DeleteMigDevice(key);
      if key !in lib.live {
        Note(RollbackDelete(uid, device, key));
      }
    }

    /**
     * Rollback of a partial preparation. With the shipped lookup it deletes nothing, and succeeds exactly when no
     * device of the claim both reads as a MIG device and is named by no completed claim.
     */
    method UnpreparePartiallyPreparedClaim(uid: Uid) returns (ok: bool)
      requires Valid() && up && IsStarted(cp, uid)
      modifies lib`live, `world, `log
      ensures Valid() && old(log) <= log
      ensures forall k :: k in lib.live ==> k in old(lib.live) && lib.live[k] == old(lib.live)[k]
      ensures ok ==> RolledBack(p, world, cp[uid].results)
      ensures Blind(p, lib) ==>
          (ok <==> !HasOrphan(cp[uid].results)) && world == old(world) && lib.live == old(lib.live)
    {
      var results := cp[uid].results;
      for n := 0 to |results|
        invariant Valid() && old(log) <= log
        invariant forall k :: k in lib.live ==> k in old(lib.live) && lib.live[k] == old(lib.live)[k]
        invariant Blind(p, lib) ==> world == old(world) && lib.live == old(lib.live)
        invariant Blind(p, lib) ==> forall i :: 0 <= i < n && p.naming.parse(results[i].device).Some? ==>
            UsedByCompleted(cp, results[i].device)
        invariant forall i :: 0 <= i < n ==> Gone(p, world, results[i].device)
      {
        var device := results[n].device;
        var ms := p.naming.parse(device);
        if ms.None? { continue; }
        assert Names(results, device);
        ghost var before := world;
        var deleted := DeleteMigDevIfExistsAndNotUsedByCompletedClaim(uid, ms.value, device);
        if !deleted { return false; }
        forall i | 0 <= i < n ensures Gone(p, world, results[i].device) {
          GoneStaysGone(p, before, world, results[i].device);
        }
      }
      ok := true;
    }

    // ----------------------------------------------------------------- prepare

    /** Addresses that some checkpoint entry holds. */
    function HeldKeys(): (held: set<GiKey>)
      reads this
      ensures forall key :: key !in held ==> KeyUnheld(cp, key)
    {
      set u, i | u in cp && 0 <= i < |cp[u].devices| && cp[u].devices[i].PreparedMig? :: cp[u].devices[i].concrete.gi
    }

    /** One allocation result: a full GPU needs nothing, a MIG device is created now. */
    method PrepareOne(uid: Uid, device: string) returns (r: Result<PreparedDevice>)
      requires Valid() && Attempting(world, uid) && device in p.allocatable && device in OurDevices(p, cp[uid].results)
      modifies `world, `log, lib
      ensures Valid() && old(log) <= log && Attempting(world, uid)
      ensures forall k :: k in old(lib.live) ==> k in lib.live && lib.live[k] == old(lib.live)[k]
      ensures old(world).attempt.value.made <= world.attempt.value.made
      ensures r.Ok? ==>
        && r.value.device == device && (r.value.PreparedMig? <==> IsMig(p, device))
        && (r.value.PreparedMig? ==> r.value in world.attempt.value.made && r.value !in old(world).attempt.value.made)
    {
      match p.allocatable[device]
      case FullGpu(_) => return Ok(PreparedGpu(device));
      case MigDynamic(spec) =>
        ghost var made;
        var migdev;
        migdev, made := lib.CreateMigDevice(spec, HeldKeys());
        if made.Some? {
          NoteCreated(uid, device, spec, made.value);
        }
        if migdev.Err? { return Err("error creating MIG device"); }
        return Ok(PreparedMig(device, migdev.value));
    }

    /** The results of one config, in order. */
    method PrepareGroup(uid: Uid, group: seq<AllocResult>) returns (r: Result<seq<PreparedDevice>>)
      requires Valid() && Attempting(world, uid) && forall i :: 0 <= i < |group| ==>
          group[i].device in OurDevices(p, cp[uid].results)
      modifies `world, `log, lib
      ensures Valid() && old(log) <= log && Attempting(world, uid)
      ensures forall k :: k in old(lib.live) ==> k in lib.live && lib.live[k] == old(lib.live)[k]
      ensures r.Ok? ==> DeviceNames(r.value) == DevicesOf(group)
      ensures r.Ok? ==> AddedTo(p, old(world).attempt.value.made, world.attempt.value.made, r.value)
    {
      var devices: seq<PreparedDevice> := [];
      for n := 0 to |group|
        invariant Valid() && old(log) <= log && Attempting(world, uid)
        invariant forall k :: k in old(lib.live) ==> k in lib.live && lib.live[k] == old(lib.live)[k]
        invariant DeviceNames(devices) == DevicesOf(group[..n])
        invariant AddedTo(p, old(world).attempt.value.made, world.attempt.value.made, devices)
      {
        var device := group[n].device;
        if device !in p.allocatable { return Err("allocatable not found for device"); }
        ghost var made := world.attempt.value.made;
        var prepared := PrepareOne(uid, device);
        if prepared.Err? { return Err(prepared.message); }
        AddedOneMore(p, old(world).attempt.value.made, made, world.attempt.value.made, devices, prepared.value);
        assert group[..n + 1] == group[..n] + [group[n]];
        DevicesOfAppend(group[..n], group[n]);
        devices := devices + [prepared.value];
      }
      assert group[..|group|] == group;
      r := Ok(devices);
    }

    /**
     * prepareDevices: resolve the configs, apply each to its group, then walk through the groups in any order.
     * Success means that a completing write is due; an error may leave devices behind, accounted for by the started
     * entry.
     */
    method PrepareDevices(claim: Claim) returns (r: Result<seq<PreparedDevice>>)
      requires Valid() && Attempting(world, claim.uid) && world.attempt.value.made == {}
      requires cp[claim.uid].results == claim.results
      modifies `world, `log, lib
      ensures Valid() && old(log) <= log
      ensures forall k :: k in old(lib.live) ==> k in lib.live && lib.live[k] == old(lib.live)[k]
      ensures r.Ok? ==> CanComplete(p, world, claim.uid, claim.results, r.value) && AllPublished(p, r.value)
      ensures Misconfigured(p, claim) ==> r.Err?
    {
      var configs; ghost var origin;
      configs, origin := GetOpaqueDeviceConfigs(p.driver, claim.configs);
      if configs.Err? { return Err(configs.message); }
      var x := Ctx(GpuPlugin, p.driver, Kinds(p), Defaults(GpuPlugin, false) + configs.value);
      var groups := GetConfigResultsMap(x, claim.results);
      if Misconfigured(p, claim) {
        MisconfiguredIsRefused(p, x, claim, Defaults(GpuPlugin, false), configs.value, origin);
      }
      if groups.Err? { return Err(groups.message); }
      var applied := ApplyConfigs(x, groups.value.Keys);
      if !applied { return Err("error applying config"); }

      EveryResultIsServed(x, false, configs.value, claim.results, groups.value);
      OursAreOfDriver(p, claim.results);
      r := PrepareGroups(claim.uid, x, groups.value);
    }

    /** The groups, in any order. */
    method PrepareGroups(uid: Uid, x: Ctx, groups: ConfigResolution.Groups) returns (r: Result<seq<PreparedDevice>>)
      requires Valid() && Attempting(world, uid) && x.driver == p.driver && GroupedByWinner(x, cp[uid].results, groups)
      modifies `world, `log, lib
      ensures Valid() && old(log) <= log && Attempting(world, uid)
      ensures forall k :: k in old(lib.live) ==> k in lib.live && lib.live[k] == old(lib.live)[k]
      ensures r.Ok? ==> Walked(p, world.attempt.value.made, r.value, ServedDevices(x, cp[uid].results, groups.Keys))
    {
      var devices: seq<PreparedDevice> := [];
      var todo := groups.Keys;
      ghost var results := cp[uid].results;
      ServedByNone(x, results);
      assert groups.Keys - todo == {};
      while todo != {}
        invariant todo <= groups.Keys
        invariant Valid() && old(log) <= log && Attempting(world, uid)
        invariant forall k :: k in old(lib.live) ==> k in lib.live && lib.live[k] == old(lib.live)[k]
        invariant Walked(p, world.attempt.value.made, devices, ServedDevices(x, results, groups.Keys - todo))
        decreases |todo|
      {
        var c :| c in todo;
        ghost var made := world.attempt.value.made;
        GroupIsOurs(p, x, results, groups, c);
        var prepared := PrepareGroup(uid, groups[c]);
        if prepared.Err? { return Err(prepared.message); }
        WalkedOn(p, x, results, groups, todo, c, made, world.attempt.value.made, devices, prepared.value);
        devices := devices + prepared.value;
        todo := todo - {c};
      }
      assert groups.Keys - todo == groups.Keys;
      r := Ok(devices);
    }

    /** Every config that won a result must be of a type this plugin applies; applying it may fail. */
    method ApplyConfigs(x: Ctx, used: set<ConfigRef>) returns (ok: bool)
    {
      var todo := used;
      while todo != {}
        decreases |todo|
      {
        var c :| c in todo;
        todo := todo - {c};
        if c.ConfigRef? && c.index < |x.configs| {
          match x.configs[c.index].kind
          case GpuConfig =>
          case MigDeviceConfig =>
          case VfioDeviceConfig =>
          case _ => return false;
        }
        if * { return false; }
      }
      ok := true;
    }

    /**
     * Prepare, under the lock. A completed claim is left alone; a device of another completed claim is refused before
     * anything is written; what an earlier attempt left is rolled back, which the shipped lookup cannot do. Whether the
     * checkpoint can be read is a parameter.
     */
    method Prepare(claim: Claim, readable: bool) returns (r: Result<seq<PreparedDevice>>)
      requires Valid() && up && (Blind(p, lib) || Canonical(p, claim.results))
      modifies `cp, `world, `log, lib
      ensures Valid() && up && old(log) <= log && stored == old(stored)
      ensures r.Ok? ==> IsCompleted(cp, claim.uid) && r.value == cp[claim.uid].devices
      ensures r.Ok? ==> (AllLive(p, world, r.value) <==> claim.uid !in world.torn)
      ensures !readable ==> r.Err? && world == old(world)
      ensures IsCompleted(old(cp), claim.uid) ==> (r.Ok? <==> readable) && world == old(world) && cp == old(cp)
      ensures r.Ok? && !IsCompleted(old(cp), claim.uid) ==>
          && cp == old(cp)[claim.uid := Entry(PrepareCompleted, claim.results, r.value, "", "")]
          && claim.uid !in world.torn && Delivered(p, lib.live, claim.results, r.value) && !Misconfigured(p, claim)
      ensures !IsCompleted(old(cp), claim.uid) ==>
          forall u :: u in old(cp) && u != claim.uid && old(cp)[u].state.PrepareCompleted? ==>
            ShareADevice(p.driver, claim.results, old(cp)[u].results) ==> r.Err? && world == old(world)
      ensures r.Err? && cp != old(cp) ==>
          cp == old(cp)[claim.uid := Entry(PrepareStarted, claim.results, [], claim.name, claim.namespace)]
      ensures Blind(p, lib) ==> forall k :: k in old(lib.live) ==> k in lib.live && lib.live[k] == old(lib.live)[k]
      ensures Blind(p, lib) && IsStarted(old(cp), claim.uid) && old(HasOrphan(cp[claim.uid].results)) ==>
          r.Err? && world == old(world)
    {
      if !readable { return Err("unable to get checkpoint"); }
      if claim.uid in cp && cp[claim.uid].state.PrepareCompleted? {
        RecordedAreLive(claim.uid);
        return Ok(cp[claim.uid].devices);
      }
      var free := ValidateNoOverlappingPreparedDevices(claim);
      if !free { return Err("requested device is already allocated to different claim"); }
      OverlapIsSharing(p, cp, claim.uid, claim.results);
      r := PrepareUncontested(claim);
    }

    /** Rolls back what an earlier attempt left, then prepares. */
    method PrepareUncontested(claim: Claim) returns (r: Result<seq<PreparedDevice>>)
      requires Valid() && up && (Blind(p, lib) || Canonical(p, claim.results))
      requires !IsCompleted(cp, claim.uid) && NoOverlap(p, cp, claim.uid, claim.results)
      modifies `cp, `world, `log, lib
      ensures Valid() && up && old(log) <= log && stored == old(stored)
      ensures r.Ok? ==>
          && cp == old(cp)[claim.uid := Entry(PrepareCompleted, claim.results, r.value, "", "")]
          && claim.uid !in world.torn && Delivered(p, lib.live, claim.results, r.value) && !Misconfigured(p, claim)
          && AllLive(p, world, r.value)
      ensures r.Err? && cp != old(cp) ==>
          cp == old(cp)[claim.uid := Entry(PrepareStarted, claim.results, [], claim.name, claim.namespace)]
      ensures Blind(p, lib) ==> forall k :: k in old(lib.live) ==> k in lib.live && lib.live[k] == old(lib.live)[k]
      ensures Blind(p, lib) && IsStarted(old(cp), claim.uid) && old(HasOrphan(cp[claim.uid].results)) ==>
          r.Err? && world == old(world)
    {
      if claim.uid in cp && cp[claim.uid].state.PrepareStarted? {
        var undone := UnpreparePartiallyPreparedClaim(claim.uid);
        if !undone { return Err("unprepare failed for partially prepared claim"); }
        assert !(Blind(p, lib) && HasOrphan(cp[claim.uid].results));
      }
      assert cp == old(cp) && CanStart(p, world, claim.uid, claim.results);
      r := PrepareAfresh(claim);
      if r.Ok? { RecordedAreLive(claim.uid); }
    }

    lemma ShowDelivery(claim: Claim, devices: seq<PreparedDevice>, made: set<PreparedDevice>)
      requires Valid() && up && claim.uid in cp && claim.uid !in world.torn && AllPublished(p, devices)
      requires cp[claim.uid] == Entry(PrepareCompleted, claim.results, devices, "", "")
      requires Prepared(p, made, claim.results, devices)
      ensures Delivered(p, lib.live, claim.results, devices)
    {
      BegunKeepsInv(p, start, log);
      RecordedAreLive(claim.uid);
      LiveIsDelivered(p, world, claim.results, made, devices);
    }

    /** The two checkpoint writes, and between them the devices and the CDI spec. */
    method PrepareAfresh(claim: Claim) returns (r: Result<seq<PreparedDevice>>)
      requires Valid() && CanStart(p, world, claim.uid, claim.results) && (Blind(p, lib) || Canonical(p, claim.results))
      modifies `cp, `world, `log, lib
      ensures Valid() && up && old(log) <= log
      ensures r.Ok? ==>
          && cp == old(cp)[claim.uid := Entry(PrepareCompleted, claim.results, r.value, "", "")]
          && claim.uid !in world.torn
      ensures r.Ok? ==> Delivered(p, lib.live, claim.results, r.value)
      ensures Misconfigured(p, claim) ==> r.Err?
      ensures r.Err? && cp != old(cp) ==>
          cp == old(cp)[claim.uid := Entry(PrepareStarted, claim.results, [], claim.name, claim.namespace)]
      ensures forall k :: k in old(lib.live) ==> k in lib.live && lib.live[k] == old(lib.live)[k]
    {
      var started := WriteStartedEntry(claim);
      if !started { return Err("unable to update checkpoint"); }
      var devices := PrepareDevices(claim);
      if devices.Err? { return Err(devices.message); }
      if * { return Err("unable to create CDI spec file"); }
      RunKeepsTornInv(p, start, log);
      ghost var made := world.attempt.value.made;
      var completed := WriteCompletedEntry(claim.uid, claim.results, devices.value);
      if !completed { return Err("unable to update checkpoint"); }
      r := devices;
      ShowDelivery(claim, r.value, made);
    }

    // --------------------------------------------------------------- unprepare

    /** One recorded MIG device; an error leaves open whether it is gone. */
    method DeleteRecordedDevice(uid: Uid, key: GiKey) returns (ok: bool)
      requires Valid() && up && IsCompleted(cp, uid) && HoldsKey(cp[uid], key)
      modifies `world, `log, lib`live
      ensures Valid() && old(log) <= log
      ensures lib.live == old(lib.live) || lib.live == old(lib.live) - {key}
      ensures ok ==> key !in lib.live
    {
      ok := lib.DeleteMigDevice(key);
      if lib.live != old(lib.live) {
        Note(DeleteRecorded(uid, key));
      }
    }

    /** Tears down the devices a completed claim recorded, stopping at the first error. */
    method UnprepareDevices(uid: Uid) returns (ok: bool)
      requires Valid() && up && IsCompleted(cp, uid)
      modifies `world, `log, lib`live
      ensures Valid() && old(log) <= log
      ensures forall k :: k in lib.live ==> k in old(lib.live) && lib.live[k] == old(lib.live)[k]
      ensures forall k :: k in old(lib.live) && !HoldsKey(cp[uid], k) ==> k in lib.live
      ensures ok ==> forall k :: HoldsKey(cp[uid], k) ==> k !in lib.live
    {
      var devices := cp[uid].devices;
      for n := 0 to |devices|
        invariant Valid() && old(log) <= log
        invariant forall k :: k in lib.live ==> k in old(lib.live) && lib.live[k] == old(lib.live)[k]
        invariant forall k :: k in old(lib.live) && !HoldsKey(cp[uid], k) ==> k in lib.live
        invariant forall i :: 0 <= i < n && devices[i].PreparedMig? ==> devices[i].concrete.gi !in lib.live
      {
        if devices[n].PreparedMig? {
          var key := devices[n].concrete.gi;
          assert HoldsKey(cp[uid], key);
          var deleted := DeleteRecordedDevice(uid, key);
          if !deleted { return false; }
        }
        if * { return false; }
      }
      ok := true;
    }

    /**
     * Unprepare, under the lock: an unknown claim is done, a completed one loses exactly its own devices, a started
     * one is rolled back; then its entry goes. Only devices of this claim's entry are ever touched.
     */
    method Unprepare(uid: Uid, readable: bool) returns (ok: bool)
      requires Valid() && up
      modifies `cp, `world, `log, lib`live
      ensures Valid() && up && old(log) <= log && stored == old(stored)
      ensures cp == if ok then old(cp) - {uid} else old(cp)
      ensures !readable ==> !ok && world == old(world)
      ensures uid !in old(cp) ==> (ok <==> readable) && world == old(world)
      ensures forall k :: k in lib.live ==> k in old(lib.live) && lib.live[k] == old(lib.live)[k]
      ensures IsCompleted(old(cp), uid) ==> forall k :: k in old(lib.live) && !HoldsKey(old(cp)[uid], k) ==>
          k in lib.live
      ensures IsCompleted(old(cp), uid) && ok ==>
          forall i :: 0 <= i < |old(cp)[uid].devices| && old(cp)[uid].devices[i].PreparedMig? ==>
            old(cp)[uid].devices[i].concrete.gi !in lib.live
      ensures Blind(p, lib) && IsStarted(old(cp), uid) ==> lib.live == old(lib.live)
      ensures Blind(p, lib) && IsStarted(old(cp), uid) && old(HasOrphan(cp[uid].results)) ==> !ok && world == old(world)
    {
      if !readable { return false; }
      if uid !in cp {
        assert cp - {uid} == cp;
        return true;
      }
      match cp[uid].state {
        case PrepareStarted =>
          var undone := UnpreparePartiallyPreparedClaim(uid);
          if !undone { return false; }
        case PrepareCompleted =>
          var undone := UnprepareDevices(uid);
          if !undone { return false; }
      }
      ok := DeleteClaimFromCheckpoint(uid);
    }

    // ---------------------------------------------------------------- teardown

    /** The names in the allocations of completed claims. */
    method ExpectedDeviceNames() returns (expected: set<string>)
      ensures forall d :: d in expected <==>
          exists u, i :: u in cp && cp[u].state.PrepareCompleted? && 0 <= i < |cp[u].results|
                           && cp[u].results[i].device == d
    {
      expected := {};
      var todo := cp.Keys;
      while todo != {}
        invariant todo <= cp.Keys
        invariant forall d :: d in expected <==> exists u :: u !in todo && IsCompleted(cp, u) && Names(cp[u].results, d)
        decreases |todo|
      {
        var uid :| uid in todo;
        ghost var before := expected;
        if cp[uid].state.PrepareCompleted? {
          for n := 0 to |cp[uid].results|
            invariant forall d :: d in expected <==>
                d in before || exists i :: 0 <= i < n && cp[uid].results[i].device == d
          {
            expected := expected + {cp[uid].results[n].device};
          }
        }
        todo := todo - {uid};
        forall d ensures d in expected <==> exists u :: u !in todo && IsCompleted(cp, u) && Names(cp[u].results, d) {
          assert d in expected <==> d in before || (IsCompleted(cp, uid) && Names(cp[uid].results, d));
        }
      }
    }

    /**
     * Startup teardown: live devices whose name no completed claim carries go, the others stay; it may give up
     * half-way.
     */
    method DestroyUnknownMIGDevices() returns (ok: bool)
      requires Valid() && up
      modifies `world, `log, lib`live
      ensures Valid() && up && old(log) <= log
      ensures forall k :: k in lib.live ==> k in old(lib.live) && lib.live[k] == old(lib.live)[k]
      ensures forall k :: k in old(lib.live) && UsedByCompleted(cp, old(LiveName(p, world, k))) ==> k in lib.live
      ensures ok ==> forall k :: k in world.live ==> UsedByCompleted(cp, LiveName(p, world, k))
    {
      var expected := ExpectedDeviceNames();
      ghost var before := world;
      ghost var deleted;
      ok, deleted := lib.ObliterateStaleMIGDevices(p.naming, expected);
      NoteTeardown(before, deleted);
      assert world.live == lib.live;
    }

    /** The deletions of a teardown, one after another. */
    ghost method NoteTeardown(before: State, deleted: seq<GiKey>)
      requires Begins(p, start) && SafeRuns(p, start, log) && world == Exec(start, log) && world == before && world.up
      requires forall i :: 0 <= i < |deleted| ==>
          deleted[i] in before.live && !UsedByCompleted(before.cp, LiveName(p, before, deleted[i]))
      requires forall i, j :: 0 <= i < j < |deleted| ==> deleted[i] != deleted[j]
      modifies `world, `log
      ensures SafeRuns(p, start, log) && world == Exec(start, log) && old(log) <= log
      ensures world == before.(live := world.live, attempt := world.attempt)
      ensures forall k :: k in world.live <==> k in before.live && k !in deleted
      ensures forall k :: k in world.live ==> world.live[k] == before.live[k]
    {
      for n := 0 to |deleted|
        invariant SafeRuns(p, start, log) && world == Exec(start, log) && old(log) <= log
        invariant world == before.(live := world.live, attempt := world.attempt)
        invariant forall k :: k in world.live <==> k in before.live && k !in deleted[..n]
        invariant forall k :: k in world.live ==> world.live[k] == before.live[k]
      {
        assert deleted[n] !in deleted[..n];
        Note(TeardownDelete(deleted[n]));
        assert deleted[..n + 1] == deleted[..n] + [deleted[n]];
      }
      assert deleted[..|deleted|] == deleted;
    }
  }

  function Kinds(p: Plugin): map<string, DeviceKind>
  {
    map d | d in p.allocatable :: if p.allocatable[d].MigDynamic? then DeviceKind.MigDevice else GpuDevice
  }

  /** Some result's request has one config, and that is of a type not meant for the device. */
  ghost predicate Misconfigured(p: Plugin, claim: Claim)
  {
    exists i, k :: IsMisconfigured(p, claim, i, k)
  }

  ghost predicate IsMisconfigured(p: Plugin, claim: Claim, i: nat, k: nat)
  {
    && i < |claim.results| && claim.results[i].driver == p.driver && claim.results[i].device in p.allocatable
    && OnlyVoice(p.driver, claim.configs, claim.results[i].request, k)
    && match p.allocatable[claim.results[i].device]
       case FullGpu(_) => claim.configs[k].params.value.decoded.value in {MigDeviceConfig, VfioDeviceConfig}
       case MigDynamic(_) => claim.configs[k].params.value.decoded.value in {GpuConfig, VfioDeviceConfig}
  }

  lemma MisconfiguredIsRefused(p: Plugin, x: Ctx, claim: Claim, defaults: seq<OpaqueDeviceConfig>,
                               ranked: seq<OpaqueDeviceConfig>, origin: seq<nat>)
    requires x.plugin == GpuPlugin && x.driver == p.driver && x.kinds == Kinds(p) && x.configs == defaults + ranked
    requires RankedFrom(x.driver, claim.configs, ranked, origin) && Misconfigured(p, claim)
    ensures exists i :: 0 <= i < |claim.results| && Refused(x, claim.results[i])
  {
    var i: nat, k: nat :| IsMisconfigured(p, claim, i, k);
    OnlyVoiceDecides(x, claim.configs, defaults, ranked, origin, claim.results[i], k);
  }

  predicate AllPublished(p: Plugin, devices: seq<PreparedDevice>)
  {
    forall i :: 0 <= i < |devices| ==> devices[i].device in p.allocatable
  }

  lemma LiveIsDelivered(p: Plugin, s: State, results: seq<AllocResult>, made: set<PreparedDevice>,
                        devices: seq<PreparedDevice>)
    requires LiveInv(p, s) && AllLive(p, s, devices) && AllPublished(p, devices) && Prepared(p, made, results, devices)
    ensures Delivered(p, s.live, results, devices)
  {
    forall d ensures multiset(DeviceNames(devices))[d] == |Asking(p.driver, results, d)| {
      OursAreOfDriver(p, results);
      OfDriverCounts(p.driver, results, d);
    }
    forall i | 0 <= i < |devices| ensures IsDelivered(p, s.live, devices[i]) {
      LiveIsAsPublished(p, s, devices, i);
    }
  }

  /** Each prepared MIG device is one the attempt made, used once. */
  ghost predicate MadeFor(p: Plugin, made: set<PreparedDevice>, devices: seq<PreparedDevice>)
  {
    && (forall i :: 0 <= i < |devices| ==>
          && devices[i].device in p.allocatable && (devices[i].PreparedMig? <==> IsMig(p, devices[i].device))
          && (devices[i].PreparedMig? ==> devices[i] in made))
    && (forall i, j :: 0 <= i < j < |devices| && devices[i].PreparedMig? ==> devices[i] != devices[j])
  }

  /** The same, all of them new since `before`. */
  ghost predicate AddedTo(p: Plugin, before: set<PreparedDevice>, made: set<PreparedDevice>,
                          devices: seq<PreparedDevice>)
  {
    before <= made && MadeFor(p, made, devices) && forall i :: 0 <= i < |devices| && devices[i].PreparedMig? ==>
      devices[i] !in before
  }

  lemma AddedOneMore(p: Plugin, before: set<PreparedDevice>, made: set<PreparedDevice>, made': set<PreparedDevice>,
                     devices: seq<PreparedDevice>, d: PreparedDevice)
    requires AddedTo(p, before, made, devices) && made <= made'
    requires d.device in p.allocatable && (d.PreparedMig? <==> IsMig(p, d.device))
    requires d.PreparedMig? ==> d in made' && d !in made
    ensures AddedTo(p, before, made', devices + [d]) && DeviceNames(devices + [d]) == DeviceNames(devices) + [d.device]
  {
  }

  /** The groups walked so far ask for these devices, and each has been prepared. */
  ghost predicate Walked(p: Plugin, made: set<PreparedDevice>, devices: seq<PreparedDevice>, asked: multiset<string>)
  {
    MadeFor(p, made, devices) && multiset(DeviceNames(devices)) == asked
  }

  lemma MadeForBoth(p: Plugin, before: set<PreparedDevice>, made: set<PreparedDevice>, a: seq<PreparedDevice>,
                    b: seq<PreparedDevice>)
    requires MadeFor(p, before, a) && AddedTo(p, before, made, b)
    ensures MadeFor(p, made, a + b) && DeviceNames(a + b) == DeviceNames(a) + DeviceNames(b)
  {
  }

  lemma WalkedOn(p: Plugin, x: Ctx, results: seq<AllocResult>, groups: ConfigResolution.Groups, todo: set<ConfigRef>,
                 c: ConfigRef,
                 before: set<PreparedDevice>, made: set<PreparedDevice>, a: seq<PreparedDevice>, b: seq<PreparedDevice>)
    requires GroupedByWinner(x, results, groups) && todo <= groups.Keys && c in todo
    requires Walked(p, before, a, ServedDevices(x, results, groups.Keys - todo))
    requires AddedTo(p, before, made, b) && DeviceNames(b) == DevicesOf(groups[c])
    ensures Walked(p, made, a + b, ServedDevices(x, results, groups.Keys - (todo - {c})))
  {
    MadeForBoth(p, before, made, a, b);
    NextGroup(x, results, groups, todo, c);
  }

  lemma GroupIsOurs(p: Plugin, x: Ctx, results: seq<AllocResult>, groups: ConfigResolution.Groups, c: ConfigRef)
    requires x.driver == p.driver && GroupedByWinner(x, results, groups) && c in groups
    ensures forall i :: 0 <= i < |groups[c]| ==> groups[c][i].device in OurDevices(p, results)
  {
    forall i | 0 <= i < |groups[c]| ensures groups[c][i].device in OurDevices(p, results) {
      ServedAreOurs(x, results, {c}, groups[c][i]);
      ResultIsOurDevice(p, results, groups[c][i]);
    }
  }

  /** The hardware's next UUID is in none of the devices made so far. */
  lemma NewDeviceIsNew(p: Plugin, s: State, d: PreparedDevice)
    requires Inv(p, s) && s.attempt.Some? && d.PreparedMig? && d.concrete.migUUID == s.nextUuid
    ensures d !in s.attempt.value.made
  {
  }

  lemma {:induction false} OursAreOfDriver(p: Plugin, results: seq<AllocResult>)
    ensures DevicesOf(OfDriver(p.driver, results)) == OurDevices(p, results)
  {
    if results != [] {
      OursAreOfDriver(p, results[..|results| - 1]);
      DevicesOfAppend(OfDriver(p.driver, results[..|results| - 1]), results[|results| - 1]);
    }
  }

  lemma {:induction false} ResultIsOurDevice(p: Plugin, results: seq<AllocResult>, r: AllocResult)
    requires r in results && r.driver == p.driver
    ensures r.device in OurDevices(p, results)
  {
    if r in results[..|results| - 1] { ResultIsOurDevice(p, results[..|results| - 1], r); }
  }

  /** Nothing live answers to the name, or a completed claim uses it. */
  ghost predicate Gone(p: Plugin, s: State, device: string)
  {
    p.naming.parse(device).Some? && !UsedByCompleted(s.cp, device) ==>
      forall k :: k in s.live ==> !TupleMatches(s.live[k].spec, p.naming.parse(device).value)
  }

  lemma GoneStaysGone(p: Plugin, s: State, s': State, device: string)
    requires Gone(p, s, device) && s'.cp == s.cp && forall k :: k in s'.live ==> k in s.live && s'.live[k] == s.live[k]
    ensures Gone(p, s', device)
  {
  }

  /** A lookup that finds nothing on the right parent means nothing is there. */
  lemma MissIsMiss(p: Plugin, lib: Lib, s: State, device: string, ms: MigSpecTuple)
    requires WellFormed(p) && LiveInv(p, s) && Sound(p, lib) && IsMig(p, device) && p.naming.parse(device) == Some(ms)
    requires lib.ParentUUID(ms) in lib.uuids
    requires forall k :: k in s.live && k.parentUUID == lib.ParentUUID(ms) ==>
               s.live[k].spec.profileID != ms.profileID || s.live[k].spec.start != ms.placementStart
    ensures forall k :: k in s.live ==> !TupleMatches(s.live[k].spec, ms)
  {
  }

  /** A lookup on the right parent finds the one device the name means. */
  lemma HitIsUnique(p: Plugin, lib: Lib, s: State, device: string, ms: MigSpecTuple, key: GiKey)
    requires WellFormed(p) && LiveInv(p, s) && Sound(p, lib) && IsMig(p, device) && p.naming.parse(device) == Some(ms)
    requires lib.ParentUUID(ms) in lib.uuids && key in s.live && key.parentUUID == lib.ParentUUID(ms)
    requires s.live[key].spec.profileID == ms.profileID && s.live[key].spec.start == ms.placementStart
    ensures TupleMatches(s.live[key].spec, ms)
    ensures forall k :: k in s.live && k != key ==> !TupleMatches(s.live[k].spec, ms)
  {
  }
}
