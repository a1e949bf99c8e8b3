/**
 * The device library over abstract hardware. `live` is the state of the hardware itself; every call may
 * fail, and an error does not mean that nothing happened.
 */
module DeviceLib {
  import opened Text
  import opened MigNames
  import opened GpuClaims

  /** The deletions that led from one state of the hardware to the other: only of unexpected names, each once. */
  ghost predicate Swept(naming: Naming, expected: set<string>, before: map<GiKey, LiveDevice>,
                        now: map<GiKey, LiveDevice>,
                        deleted: seq<GiKey>)
  {
    && (forall k :: k in now <==> k in before && k !in deleted)
    && (forall k :: k in now ==> now[k] == before[k])
    && (forall i :: 0 <= i < |deleted| ==>
          deleted[i] in before && naming.canonicalName(before[deleted[i]].spec) !in expected)
    && (forall i, j :: 0 <= i < j < |deleted| ==> deleted[i] != deleted[j])
  }

  lemma SweptOneMore(naming: Naming, expected: set<string>, before: map<GiKey, LiveDevice>, now: map<GiKey, LiveDevice>,
                     deleted: seq<GiKey>, k: GiKey)
    requires Swept(naming, expected, before, now, deleted) && k in now && naming.canonicalName(now[k].spec) !in expected
    ensures Swept(naming, expected, before, now - {k}, deleted + [k])
  {
  }

  class Lib {
    var live: map<GiKey, LiveDevice>
    var nextUuid: nat
    const gpuUUIDByPCIBusID: map<string, string>
    const uuids: set<string>
    /**
     * Whether NVML answers when a walk asks for the devices of a GPU; the walk ignores it if not, and skips what it
     * cannot see.
     */
    const answers: bool

    constructor (table: map<string, string>, uuids: set<string>, answers: bool)
      ensures live == map[] && nextUuid == 0 && gpuUUIDByPCIBusID == table && this.uuids == uuids
      ensures this.answers == answers
    {
      live, nextUuid := map[], 0;
      gpuUUIDByPCIBusID := table;
      this.uuids, this.answers := uuids, answers;
    }

    /** UUID of the parent a lookup by spec tuple goes to; a bus ID that is not in the table gives the empty UUID. */
    function ParentUUID(ms: MigSpecTuple): string
    {
      if ms.parentPCIBusID in gpuUUIDByPCIBusID then gpuUUIDByPCIBusID[ms.parentPCIBusID] else ""
    }

    /**
     * Whether the placement is free is the hardware's check; so is the choice of the address, which avoids those in
     * `held`. `made` is the device if there is a new one: an error after the last step leaves it behind.
     */
    method CreateMigDevice(spec: MigSpec, held: set<GiKey>)
      returns (r: Result<LiveTuple>, ghost made: Option<LiveTuple>)
      modifies this
      ensures made.None? ==> r.Err? && live == old(live) && nextUuid == old(nextUuid)
      ensures made.Some? ==>
        && made.value.gi.parentUUID == spec.parent.uuid && made.value.gi !in old(live) && made.value.gi !in held
        && made.value.migUUID == old(nextUuid) && nextUuid == old(nextUuid) + 1
        && live == old(live)[made.value.gi := LiveDevice(spec, old(nextUuid))]
        && forall k :: k in old(live) ==> !Overlap(old(live)[k].spec, spec)
      ensures r.Ok? ==> made == Some(r.value)
    {
      made := None;
      if * { return Err("error getting GPU device handle"), None; }
      if * { return Err("error enabling MIG mode"), None; }
      var occupied := IsOccupied(spec);
      if occupied { return Err("error creating GPU instance"), None; }
      if * { return Err("error creating GPU instance"), None; }
      var id := FreeId(spec.parent.uuid, live.Keys + held);
      var tuple := LiveTuple(GiKey(spec.parent.uuid, id), nextUuid);
      live := live[tuple.gi := LiveDevice(spec, nextUuid)];
      nextUuid := nextUuid + 1;
      made := Some(tuple);
      if * { return Err("error getting UUID from the new instance"), made; }
      r := Ok(tuple);
    }

    method IsOccupied(spec: MigSpec) returns (b: bool)
      ensures b <==> exists k :: k in live && Overlap(live[k].spec, spec)
    {
      var todo := live.Keys;
      while todo != {}
        invariant todo <= live.Keys
        invariant forall k :: k in live && k !in todo ==> !Overlap(live[k].spec, spec)
        decreases |todo|
      {
        var k :| k in todo;
        if Overlap(live[k].spec, spec) { return true; }
        todo := todo - {k};
      }
      return false;
    }

    method FreeId(parent: string, used: set<GiKey>) returns (id: nat)
      ensures GiKey(parent, id) !in used
    {
      id := 0;
      var todo := used;
      while todo != {}
        invariant todo <= used
        invariant forall k :: k in used && k !in todo ==> k.giId < id
        decreases |todo|
      {
        var k :| k in todo;
        if k.giId >= id { id := k.giId + 1; }
        todo := todo - {k};
      }
    }

    /**
     * Looks for a live device of the given profile and placement on the parent the tuple's bus ID leads to.
     * Without a known parent it is an error, whatever is live. Finding nothing means something only if NVML answers.
     */
    method FindMigDevBySpec(ms: MigSpecTuple) returns (r: Result<Option<GiKey>>)
      ensures ParentUUID(ms) !in uuids ==> r.Err?
      ensures ms.parentPCIBusID !in gpuUUIDByPCIBusID && "" !in uuids ==> r.Err?
      ensures ms.parentPCIBusID in gpuUUIDByPCIBusID && r.Ok? && r.value.Some? ==>
          r.value.value.parentUUID == gpuUUIDByPCIBusID[ms.parentPCIBusID]
      ensures r.Ok? && r.value.Some? ==>
        && r.value.value in live && r.value.value.parentUUID == ParentUUID(ms)
        && live[r.value.value].spec.profileID == ms.profileID && live[r.value.value].spec.start == ms.placementStart
      ensures r.Ok? && r.value.None? && answers ==>
        forall k :: k in live && k.parentUUID == ParentUUID(ms) ==>
          live[k].spec.profileID != ms.profileID || live[k].spec.start != ms.placementStart
    {
      var parent := ParentUUID(ms);
      if parent !in uuids { return Err("could not get device handle"); }
      var todo := live.Keys;
      while todo != {}
        invariant todo <= live.Keys
        invariant answers ==> forall k :: k in live && k !in todo && k.parentUUID == parent ==>
                    live[k].spec.profileID != ms.profileID || live[k].spec.start != ms.placementStart
        decreases |todo|
      {
        var k :| k in todo;
        todo := todo - {k};
        if k.parentUUID == parent {
          if !answers {
            if * { continue; }
          }
          if * { return Err("failed to get GI info"); }
          if live[k].spec.profileID == ms.profileID && live[k].spec.start == ms.placementStart {
            return Ok(Some(k));
          }
        }
      }
      return Ok(None);
    }

    /**
     * Destroys whatever is at the address; nothing there counts as success, and a late error may come after the
     * device is gone.
     */
    method DeleteMigDevice(key: GiKey) returns (ok: bool)
      modifies `live
      ensures live == old(live) || live == old(live) - {key}
      ensures ok ==> live == old(live) - {key}
    {
      if * { return false; }
      if key !in live {
        assert live - {key} == live;
        ok := *;
        return;
      }
      if * { return false; }
      live := live - {key};
      ok := *;
    }

    /** Startup teardown: deletes every live device whose name is not expected, until something fails. */
    method ObliterateStaleMIGDevices(naming: Naming, expected: set<string>)
      returns (ok: bool, ghost deleted: seq<GiKey>)
      modifies `live
      ensures Swept(naming, expected, old(live), live, deleted)
      ensures ok ==> forall k :: k in live ==> naming.canonicalName(live[k].spec) in expected
    {
      deleted := [];
      var todo := live.Keys;
      while todo != {}
        invariant todo <= live.Keys
        invariant Swept(naming, expected, old(live), live, deleted)
        invariant forall k :: k in live && k !in todo ==> naming.canonicalName(live[k].spec) in expected
        decreases |todo|
      {
        if * { return false, deleted; }
        var k :| k in todo;
        todo := todo - {k};
        if naming.canonicalName(live[k].spec) !in expected {
          SweptOneMore(naming, expected, old(live), live, deleted, k);
          var done := DeleteMigDevice(k);
          if k !in live {
            deleted := deleted + [k];
          }
          if !done { return false, deleted; }
        }
      }
      ok := true;
    }
  }
}
