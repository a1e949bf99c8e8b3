/** What every run of the claim state machine keeps, and what it does not. */
module GpuSafety {
  import opened Text
  import opened ResourceApi
  import opened GpuClaims

  // ------------------------------------------------- the invariant, effect by effect

  /** An entry is untouched by a change that leaves its own devices alone. */
  lemma EntryFrame(p: Plugin, s: State, s': State, u: Uid)
    requires u in s.cp && u in s'.cp && s'.cp[u] == s.cp[u] && EntryInv(p, s, u)
    requires (u in s'.torn <==> u in s.torn) && s.nextUuid <= s'.nextUuid
    requires forall key :: HoldsKey(s.cp[u], key) ==>
               (key in s'.live <==> key in s.live) && (key in s.live ==> s'.live[key] == s.live[key])
    ensures EntryInv(p, s', u)
  {
  }

  lemma LiveFrame(p: Plugin, s: State, s': State)
    requires LiveInv(p, s) && s'.nextUuid == s.nextUuid
    requires forall k :: k in s'.live ==> k in s.live && s'.live[k] == s.live[k]
    ensures LiveInv(p, s')
  {
  }

  lemma CanonicalOf(p: Plugin, device: string, spec: MigSpec)
    requires WellFormed(p) && device in p.allocatable && p.allocatable[device] == MigDynamic(spec)
    ensures IsMig(p, device) && p.naming.canonicalName(spec) == device
  {
  }

  lemma CreateKeepsAttempt(p: Plugin, s: State, uid: Uid, device: string, spec: MigSpec, key: GiKey)
    requires p.naming.canonicalName(spec) == device && Inv(p, s)
    requires CanCreate(p, s, uid, device, spec, key) && KeyUnheld(s.cp, key)
    ensures AttemptInv(p, AfterCreate(s, uid, device, spec, key))
  {
  }

  lemma CreateKeepsLive(p: Plugin, s: State, uid: Uid, device: string, spec: MigSpec, key: GiKey)
    requires p.naming.canonicalName(spec) == device && LiveInv(p, s) && CanCreate(p, s, uid, device, spec, key)
    ensures LiveInv(p, AfterCreate(s, uid, device, spec, key))
  {
  }

  lemma CreateKeepsClaims(p: Plugin, s: State, uid: Uid, device: string, spec: MigSpec, key: GiKey)
    requires ClaimsInv(p, s) && CanCreate(p, s, uid, device, spec, key) && KeyUnheld(s.cp, key)
    ensures ClaimsInv(p, AfterCreate(s, uid, device, spec, key))
  {
    var s' := AfterCreate(s, uid, device, spec, key);
    forall u | u in s'.cp ensures EntryInv(p, s', u) {
      EntryFrame(p, s, s', u);
    }
  }

  lemma CreateKeepsInv(p: Plugin, s: State, uid: Uid, device: string, spec: MigSpec, key: GiKey)
    requires WellFormed(p) && Inv(p, s)
    requires CanCreate(p, s, uid, device, spec, key) && KeyUnheld(s.cp, key)
    ensures Inv(p, AfterCreate(s, uid, device, spec, key))
  {
    CanonicalOf(p, device, spec);
    CreateKeepsAttempt(p, s, uid, device, spec, key);
    CreateKeepsLive(p, s, uid, device, spec, key);
    CreateKeepsClaims(p, s, uid, device, spec, key);
  }

  /** Destroying a device that no entry records. */
  lemma DeleteUnheldKeepsInv(p: Plugin, s: State, key: GiKey)
    requires Inv(p, s) && s.up && KeyUnheld(s.cp, key)
    ensures Inv(p, AfterDelete(s, key))
  {
    var s' := AfterDelete(s, key);
    LiveFrame(p, s, s');
    forall u | u in s'.cp ensures EntryInv(p, s', u) {
      EntryFrame(p, s, s', u);
    }
  }

  lemma DeleteRecordedKeepsInv(p: Plugin, s: State, uid: Uid, key: GiKey)
    requires Inv(p, s) && CanDeleteRecorded(s, uid, key)
    ensures Inv(p, AfterDeleteRecorded(s, uid, key))
  {
    var s' := AfterDeleteRecorded(s, uid, key);
    LiveFrame(p, s, s');
    OwnTeardownKeepsEntry(p, s, uid, key);
    forall u | u in s'.cp ensures EntryInv(p, s', u) {
      if u != uid { EntryFrame(p, s, s', u); }
    }
  }

  lemma OwnTeardownKeepsEntry(p: Plugin, s: State, uid: Uid, key: GiKey)
    requires IsCompleted(s.cp, uid) && EntryInv(p, s, uid)
    ensures EntryInv(p, AfterDeleteRecorded(s, uid, key), uid)
  {
    var s' := AfterDeleteRecorded(s, uid, key);
    var devices := s.cp[uid].devices;
    forall i | 0 <= i < |devices| && devices[i].PreparedMig? ensures DeviceInv(p, s', uid, devices[i]) {
      assert DeviceInv(p, s, uid, devices[i]);
    }
  }

  /** A live device whose name no completed claim carries is recorded by no entry. */
  lemma UnnamedIsUnrecorded(p: Plugin, s: State, key: GiKey)
    requires Inv(p, s) && s.up && key in s.live && !UsedByCompleted(s.cp, LiveName(p, s, key))
    ensures KeyUnheld(s.cp, key)
  {
  }

  lemma WriteStartedKeepsClaims(p: Plugin, s: State, uid: Uid, results: seq<AllocResult>, name: string,
                                namespace: string)
    requires Inv(p, s) && CanStart(p, s, uid, results)
    ensures ClaimsInv(p, AfterStarted(s, uid, results, name, namespace))
  {
    var s' := AfterStarted(s, uid, results, name, namespace);
    assert uid !in s.torn by { assert uid in s.cp ==> EntryInv(p, s, uid); }
    assert forall key :: !HoldsKey(s'.cp[uid], key);
    forall u | u in s'.cp ensures EntryInv(p, s', u) {
      if u != uid {
        assert EntryInv(p, s, u);
        EntryFrame(p, s, s', u);
      }
    }
  }

  lemma WriteStartedKeepsInv(p: Plugin, s: State, uid: Uid, results: seq<AllocResult>, name: string, namespace: string)
    requires Inv(p, s) && CanStart(p, s, uid, results)
    ensures Inv(p, AfterStarted(s, uid, results, name, namespace))
  {
    var s' := AfterStarted(s, uid, results, name, namespace);
    WriteStartedKeepsClaims(p, s, uid, results, name, namespace);
    LiveFrame(p, s, s');
    assert NoOverlap(p, s'.cp, uid, results);
  }

  /** What is prepared was asked for. */
  lemma PreparedIsNamed(p: Plugin, results: seq<AllocResult>, devices: seq<PreparedDevice>, i: nat)
    requires multiset(DeviceNames(devices)) == multiset(OurDevices(p, results)) && i < |devices|
    ensures Names(results, devices[i].device)
  {
    var names := DeviceNames(devices);
    assert names[i] in multiset(names);
    assert names[i] in OurDevices(p, results);
    OurDevicesAreNamed(p, results, names[i]);
  }

  /** What was asked for is prepared. */
  lemma AskedIsRecorded(p: Plugin, made: set<PreparedDevice>, results: seq<AllocResult>,
                        devices: seq<PreparedDevice>, d: string)
    requires Prepared(p, made, results, devices) && d in OurDevices(p, results) && IsMig(p, d)
    ensures RecordsName(Completed(results, devices), d)
  {
    var names := DeviceNames(devices);
    assert d in multiset(names);
    var i :| 0 <= i < |names| && names[i] == d;
    assert devices[i].PreparedMig?;
    assert Completed(results, devices).devices[i].device == d;
  }

  lemma PreparedEntryIsSound(p: Plugin, s: State, uid: Uid, results: seq<AllocResult>, devices: seq<PreparedDevice>)
    requires Inv(p, s) && CanComplete(p, s, uid, results, devices)
    ensures EntryInv(p, AfterCompleted(s, uid, results, devices), uid)
  {
    var s' := AfterCompleted(s, uid, results, devices);
    assert EntryInv(p, s, uid);
    forall i | 0 <= i < |devices| && devices[i].PreparedMig? ensures DeviceInv(p, s', uid, devices[i]) {
      assert MadeInv(p, s, devices[i]);
      assert LiveDeviceInv(p, s, devices[i].concrete.gi);
      PreparedIsNamed(p, results, devices, i);
    }
    forall d | d in OurDevices(p, results) && IsMig(p, d) ensures RecordsName(s'.cp[uid], d) {
      AskedIsRecorded(p, s.attempt.value.made, results, devices, d);
    }
  }

  lemma PreparedKeysAreUnheld(p: Plugin, s: State, uid: Uid, results: seq<AllocResult>, devices: seq<PreparedDevice>,
                              key: GiKey)
    requires Inv(p, s) && CanComplete(p, s, uid, results, devices) && HoldsKey(Completed(results, devices), key)
    ensures KeyUnheld(s.cp, key)
  {
  }

  lemma WriteCompletedKeepsExclusive(p: Plugin, s: State, uid: Uid, results: seq<AllocResult>,
                                     devices: seq<PreparedDevice>)
    requires Inv(p, s) && CanComplete(p, s, uid, results, devices)
    ensures KeysExclusive(AfterCompleted(s, uid, results, devices).cp)
    ensures ResultsExclusive(p, AfterCompleted(s, uid, results, devices).cp)
  {
    var cp := AfterCompleted(s, uid, results, devices).cp;
    forall u, u', key | u in cp && u' in cp && u != u' && HoldsKey(cp[u], key) ensures !HoldsKey(cp[u'], key) {
      if u == uid {
        PreparedKeysAreUnheld(p, s, uid, results, devices, key);
      } else if u' == uid && HoldsKey(cp[u'], key) {
        PreparedKeysAreUnheld(p, s, uid, results, devices, key);
      }
    }
  }

  lemma WriteCompletedKeepsClaims(p: Plugin, s: State, uid: Uid, results: seq<AllocResult>,
                                  devices: seq<PreparedDevice>)
    requires Inv(p, s) && CanComplete(p, s, uid, results, devices)
    ensures ClaimsInv(p, AfterCompleted(s, uid, results, devices))
  {
    var s' := AfterCompleted(s, uid, results, devices);
    PreparedEntryIsSound(p, s, uid, results, devices);
    WriteCompletedKeepsExclusive(p, s, uid, results, devices);
    forall u | u in s'.cp ensures EntryInv(p, s', u) {
      if u != uid { EntryFrame(p, s, s', u); }
    }
  }

  lemma WriteCompletedKeepsBoot(s: State, uid: Uid, results: seq<AllocResult>, devices: seq<PreparedDevice>)
    requires BootInv(s) && s.up && uid in s.cp
    ensures BootInv(AfterCompleted(s, uid, results, devices))
  {
  }

  lemma WriteCompletedKeepsInv(p: Plugin, s: State, uid: Uid, results: seq<AllocResult>, devices: seq<PreparedDevice>)
    requires Inv(p, s) && CanComplete(p, s, uid, results, devices)
    ensures Inv(p, AfterCompleted(s, uid, results, devices))
  {
    var s' := AfterCompleted(s, uid, results, devices);
    WriteCompletedKeepsClaims(p, s, uid, results, devices);
    WriteCompletedKeepsBoot(s, uid, results, devices);
    LiveFrame(p, s, s');
  }

  lemma RemoveKeepsExclusive(p: Plugin, cp: Checkpoint, uid: Uid)
    requires KeysExclusive(cp) && ResultsExclusive(p, cp)
    ensures KeysExclusive(cp - {uid}) && ResultsExclusive(p, cp - {uid})
  {
  }

  lemma RemoveKeepsInv(p: Plugin, s: State, uid: Uid)
    requires Inv(p, s) && CanRemove(p, s, uid)
    ensures Inv(p, AfterRemove(s, uid))
  {
    var s' := AfterRemove(s, uid);
    LiveFrame(p, s, s');
    RemoveKeepsExclusive(p, s.cp, uid);
    forall u | u in s'.cp ensures EntryInv(p, s', u) {
      EntryFrame(p, s, s', u);
    }
  }

  lemma ClaimsFrame(p: Plugin, s: State, s': State)
    requires ClaimsInv(p, s) && s'.cp == s.cp && s'.torn == s.torn && s'.live == s.live && s'.nextUuid == s.nextUuid
    ensures ClaimsInv(p, s')
  {
    forall u | u in s'.cp ensures EntryInv(p, s', u) {
      EntryFrame(p, s, s', u);
    }
  }

  lemma CrashKeepsInv(p: Plugin, s: State)
    requires Inv(p, s)
    ensures Inv(p, Apply(s, Crash))
  {
    var s' := Apply(s, Crash);
    LiveFrame(p, s, s');
    if Current(s') { ClaimsFrame(p, s, s'); }
  }

  lemma RebootKeepsInv(p: Plugin, s: State, boot: string)
    requires Inv(p, s) && boot != "" && boot !in s.boots && (s.stored == Some("") ==> s.cp == map[])
    ensures Inv(p, Apply(s, Reboot(boot)))
  {
    LiveFrame(p, s, Apply(s, Reboot(boot)));
  }

  lemma StartupKeepsBoot(s: State)
    requires BootInv(s) && !s.up
    ensures BootInv(AfterStartup(s))
  {
  }

  lemma StartupKeepsClaims(p: Plugin, s: State)
    requires Current(s) ==> ClaimsInv(p, s)
    ensures ClaimsInv(p, AfterStartup(s))
  {
    if Current(s) {
      ClaimsFrame(p, s, AfterStartup(s));
    } else {
      assert AfterStartup(s).cp == map[];
    }
  }

  lemma StartupKeepsInv(p: Plugin, s: State)
    requires Inv(p, s) && !s.up
    ensures Inv(p, AfterStartup(s))
  {
    LiveFrame(p, s, AfterStartup(s));
    StartupKeepsBoot(s);
    StartupKeepsClaims(p, s);
  }

  /** Every effect of the code, under the assumptions, keeps the invariant. */
  lemma StepKeepsInv(p: Plugin, s: State, e: Effect)
    requires WellFormed(p) && Inv(p, s) && Enabled(p, s, e) && Assumed(p, s, e)
    ensures Inv(p, Apply(s, e))
  {
    match e
    case Crash => CrashKeepsInv(p, s);
    case Reboot(b) => RebootKeepsInv(p, s, b);
    case Startup => StartupKeepsInv(p, s);
    case TeardownDelete(key) =>
      UnnamedIsUnrecorded(p, s, key);
      DeleteUnheldKeepsInv(p, s, key);
    case WriteStarted(uid, results, name, namespace) => WriteStartedKeepsInv(p, s, uid, results, name, namespace);
    case CreateMig(uid, device, spec, key) => CreateKeepsInv(p, s, uid, device, spec, key);
    case WriteCompleted(uid, results, devices) => WriteCompletedKeepsInv(p, s, uid, results, devices);
    case DeleteRecorded(uid, key) => DeleteRecordedKeepsInv(p, s, uid, key);
    case RollbackDelete(uid, device, key) =>
      ParsedNameIsTheLiveName(p, s, device, key);
      UnnamedIsUnrecorded(p, s, key);
      DeleteUnheldKeepsInv(p, s, key);
    case RemoveEntry(uid) => RemoveKeepsInv(p, s, uid);
  }

  // ------------------------------------------------------------ over whole runs

  lemma {:induction false} RunKeepsInv(p: Plugin, s: State, es: seq<Effect>)
    requires WellFormed(p) && Inv(p, s) && SafeRuns(p, s, es)
    ensures Inv(p, Exec(s, es))
    decreases |es|
  {
    if es != [] {
      StepKeepsInv(p, s, es[0]);
      RunKeepsInv(p, Apply(s, es[0]), es[1..]);
    }
  }

  lemma {:induction false} RunsExtend(p: Plugin, s: State, es: seq<Effect>, e: Effect)
    requires SafeRuns(p, s, es) && Enabled(p, Exec(s, es), e) && Assumed(p, Exec(s, es), e)
    ensures SafeRuns(p, s, es + [e]) && Exec(s, es + [e]) == Apply(Exec(s, es), e)
    decreases |es|
  {
    if es == [] {
      assert Exec(Apply(s, e), []) == Apply(s, e);
    } else {
      RunsExtend(p, Apply(s, es[0]), es[1..], e);
      assert (es + [e])[1..] == es[1..] + [e];
    }
  }

  lemma AbsentStaysAbsent(e: Entry, live: map<GiKey, LiveDevice>, live': map<GiKey, LiveDevice>)
    requires HoldsAbsent(e, live) && forall k :: k in live' ==> k in live || !HoldsKey(e, k)
    ensures HoldsAbsent(e, live')
  {
    var i :| 0 <= i < |e.devices| && e.devices[i].PreparedMig? && e.devices[i].concrete.gi !in live;
    assert HoldsKey(e, e.devices[i].concrete.gi);
  }

  lemma TornFrame(s: State, s': State)
    requires TornInv(s) && s'.torn <= s.torn && forall u :: u in s'.torn ==> u in s'.cp && s'.cp[u] == s.cp[u]
    requires forall k :: k in s'.live ==> k in s.live || KeyUnheld(s.cp, k)
    ensures TornInv(s')
  {
    forall u | u in s'.torn ensures HoldsAbsent(s'.cp[u], s'.live) {
      AbsentStaysAbsent(s.cp[u], s.live, s'.live);
    }
  }

  lemma OwnTeardownKeepsTornInv(s: State, uid: Uid, key: GiKey)
    requires TornInv(s) && CanDeleteRecorded(s, uid, key)
    ensures TornInv(AfterDeleteRecorded(s, uid, key))
  {
    TornFrame(s, AfterDelete(s, key));
    OwnTeardownTakes(s, uid, key);
  }

  lemma StepKeepsTornInv(p: Plugin, s: State, e: Effect)
    requires TornInv(s) && Enabled(p, s, e) && Assumed(p, s, e)
    ensures TornInv(Apply(s, e))
  {
    match e
    case DeleteRecorded(uid, key) => OwnTeardownKeepsTornInv(s, uid, key);
    case _ => TornFrame(s, Apply(s, e));
  }

  lemma OwnTeardownTakes(s: State, uid: Uid, key: GiKey)
    requires CanDeleteRecorded(s, uid, key)
    ensures HoldsAbsent(s.cp[uid], AfterDelete(s, key).live)
  {
    var e := s.cp[uid];
    var i :| 0 <= i < |e.devices| && e.devices[i].PreparedMig? && e.devices[i].concrete.gi == key;
    assert e.devices[i].concrete.gi !in AfterDelete(s, key).live;
  }

  lemma {:induction false} RunKeepsTornInv(p: Plugin, s: State, es: seq<Effect>)
    requires TornInv(s) && SafeRuns(p, s, es)
    ensures TornInv(Exec(s, es))
    decreases |es|
  {
    if es != [] {
      StepKeepsTornInv(p, s, es[0]);
      RunKeepsTornInv(p, Apply(s, es[0]), es[1..]);
    }
  }

  /** What is live under a published name is the device published under it. */
  lemma LiveIsAsPublished(p: Plugin, s: State, devices: seq<PreparedDevice>, i: nat)
    requires LiveInv(p, s) && AllLive(p, s, devices) && i < |devices| && devices[i].device in p.allocatable
    requires devices[i].PreparedMig? <==> IsMig(p, devices[i].device)
    ensures IsDelivered(p, s.live, devices[i])
  {
    if devices[i].PreparedMig? {
      assert LiveAs(p, s, devices[i]) && LiveDeviceInv(p, s, devices[i].concrete.gi);
    }
  }

  lemma LiveExactlyUnlessTorn(p: Plugin, s: State, u: Uid)
    requires Inv(p, s) && TornInv(s) && s.stored == Some(s.boot) && IsCompleted(s.cp, u)
    ensures u !in s.torn <==> AllLive(p, s, s.cp[u].devices)
  {
    assert EntryInv(p, s, u);
    var devices := s.cp[u].devices;
    if u !in s.torn {
      forall i | 0 <= i < |devices| && devices[i].PreparedMig? ensures LiveAs(p, s, devices[i]) {
        assert DeviceInv(p, s, u, devices[i]);
      }
    }
  }

  /**
   * Safety: whatever happened before, a completed claim has every MIG device it recorded live, with the UUID and under
   * the name recorded, if and only if its own teardown has not begun.
   */
  lemma CompletedDevicesAreLive(p: Plugin, s: State, es: seq<Effect>, u: Uid)
    requires WellFormed(p) && Fresh(s) && SafeRuns(p, s, es)
    requires var s' := Exec(s, es); s'.stored == Some(s'.boot) && IsCompleted(s'.cp, u)
    ensures var s' := Exec(s, es);
            u !in s'.torn <==> forall i :: 0 <= i < |s'.cp[u].devices| && s'.cp[u].devices[i].PreparedMig? ==>
              var d := s'.cp[u].devices[i];
              && d.concrete.gi in s'.live && s'.live[d.concrete.gi].uuid == d.concrete.migUUID
              && p.naming.canonicalName(s'.live[d.concrete.gi].spec) == d.device
  {
    RunKeepsInv(p, s, es);
    RunKeepsTornInv(p, s, es);
    LiveExactlyUnlessTorn(p, Exec(s, es), u);
    var s' := Exec(s, es);
    forall i | 0 <= i < |s'.cp[u].devices| && s'.cp[u].devices[i].PreparedMig?
      ensures LiveAs(p, s', s'.cp[u].devices[i]) <==>
              var d := s'.cp[u].devices[i];
              && d.concrete.gi in s'.live && s'.live[d.concrete.gi].uuid == d.concrete.migUUID
              && p.naming.canonicalName(s'.live[d.concrete.gi].spec) == d.device
    {
    }
  }

  lemma DeletionSparesRecorded(p: Plugin, s: State, key: GiKey, u: Uid, d: PreparedDevice)
    requires u in s.cp && d.PreparedMig? && HoldsKey(s.cp[u], d.concrete.gi) && LiveAs(p, s, d)
    requires key in s.live && KeyUnheld(s.cp, key)
    ensures LiveAs(p, AfterDelete(s, key), d)
  {
  }

  lemma OtherEffectsSpareAll(p: Plugin, s: State, e: Effect, d: PreparedDevice)
    requires Enabled(p, s, e) && d.PreparedMig? && LiveAs(p, s, d)
    requires !e.Reboot? && !e.TeardownDelete? && !e.RollbackDelete? && !e.DeleteRecorded?
    ensures LiveAs(p, Apply(s, e), d)
  {
  }

  lemma OtherTeardownSparesRecorded(p: Plugin, s: State, uid: Uid, key: GiKey, u: Uid, d: PreparedDevice)
    requires KeysExclusive(s.cp) && CanDeleteRecorded(s, uid, key) && uid != u
    requires u in s.cp && d.PreparedMig? && HoldsKey(s.cp[u], d.concrete.gi) && LiveAs(p, s, d)
    ensures LiveAs(p, AfterDeleteRecorded(s, uid, key), d)
  {
  }

  /** No effect but a claim's own teardown, or a reboot, destroys a live device that the completed claim recorded. */
  lemma OnlyItsOwnTeardownDestroys(p: Plugin, s: State, e: Effect, u: Uid, i: nat)
    requires WellFormed(p) && Inv(p, s) && s.up && Enabled(p, s, e) && Assumed(p, s, e)
    requires IsCompleted(s.cp, u) && i < |s.cp[u].devices| && s.cp[u].devices[i].PreparedMig?
    requires s.cp[u].devices[i].concrete.gi in s.live
    ensures LiveAs(p, Apply(s, e), s.cp[u].devices[i]) || e.Reboot? || (e.DeleteRecorded? && e.uid == u)
  {
    var d := s.cp[u].devices[i];
    RecordedIsLive(p, s, u, i);
    match e
    case TeardownDelete(key) =>
      UnnamedIsUnrecorded(p, s, key);
      DeletionSparesRecorded(p, s, key, u, d);
    case RollbackDelete(uid, device, key) =>
      ParsedNameIsTheLiveName(p, s, device, key);
      UnnamedIsUnrecorded(p, s, key);
      DeletionSparesRecorded(p, s, key, u, d);
    case DeleteRecorded(uid, key) =>
      if uid != u { OtherTeardownSparesRecorded(p, s, uid, key, u, d); }
    case Reboot(_) =>
    case _ => OtherEffectsSpareAll(p, s, e, d);
  }

  lemma RecordedIsLive(p: Plugin, s: State, u: Uid, i: nat)
    requires ClaimsInv(p, s) && u in s.cp && i < |s.cp[u].devices| && s.cp[u].devices[i].PreparedMig?
    requires s.cp[u].devices[i].concrete.gi in s.live
    ensures LiveAs(p, s, s.cp[u].devices[i]) && HoldsKey(s.cp[u], s.cp[u].devices[i].concrete.gi)
  {
    assert EntryInv(p, s, u);
    assert DeviceInv(p, s, u, s.cp[u].devices[i]);
  }

  // ------------------------------------ what holds without any assumption at all

  /** The overlap check of the running Prepare still stands. */
  ghost predicate SharingInv(p: Plugin, s: State)
  {
    && ResultsExclusive(p, s.cp)
    && (s.attempt.Some? ==>
          && IsStarted(s.cp, s.attempt.value.uid)
          && NoOverlap(p, s.cp, s.attempt.value.uid, s.cp[s.attempt.value.uid].results))
  }

  lemma StepKeepsSharingInv(p: Plugin, s: State, e: Effect)
    requires SharingInv(p, s) && Enabled(p, s, e)
    ensures SharingInv(p, Apply(s, e))
  {
  }

  lemma {:induction false} RunKeepsSharingInv(p: Plugin, s: State, es: seq<Effect>)
    requires SharingInv(p, s) && Runs(p, s, es)
    ensures SharingInv(p, Exec(s, es))
    decreases |es|
  {
    if es != [] {
      StepKeepsSharingInv(p, s, es[0]);
      RunKeepsSharingInv(p, Apply(s, es[0]), es[1..]);
    }
  }

  /**
   * Two completed claims never share a device of this driver taken without admin access, whatever the names, the
   * hardware's addresses and the reboots: starting from any file of which this is true.
   */
  lemma CompletedClaimsShareNoDevice(p: Plugin, s: State, es: seq<Effect>, u: Uid, u': Uid)
    requires s.attempt.None? && ResultsExclusive(p, s.cp) && Runs(p, s, es)
    requires u != u' && IsCompleted(Exec(s, es).cp, u) && IsCompleted(Exec(s, es).cp, u')
    ensures !ShareADevice(p.driver, Exec(s, es).cp[u].results, Exec(s, es).cp[u'].results)
  {
    RunKeepsSharingInv(p, s, es);
    SharersAreNotDisjoint(p, Exec(s, es).cp[u].results, Exec(s, es).cp[u'].results);
  }

  /** A boot ID in the file, or nothing for it to vouch for. */
  ghost predicate Stamped(s: State) { Booked(s) && (s.stored == Some("") ==> s.cp == map[]) }

  lemma StepKeepsStamped(p: Plugin, s: State, e: Effect)
    requires Stamped(s) && Enabled(p, s, e)
    ensures Stamped(Apply(s, e))
  {
  }

  lemma {:induction false} RunKeepsStamped(p: Plugin, s: State, es: seq<Effect>)
    requires Stamped(s) && Runs(p, s, es)
    ensures Stamped(Exec(s, es))
    decreases |es|
  {
    if es != [] {
      StepKeepsStamped(p, s, es[0]);
      RunKeepsStamped(p, Apply(s, es[0]), es[1..]);
    }
  }

  /** From a file with a boot ID: once the plugin is up, every entry was written during the current boot. */
  lemma EntriesAreOfThisBoot(p: Plugin, s: State, es: seq<Effect>)
    requires Stamped(s) && Runs(p, s, es) && Exec(s, es).up
    ensures OfThisBoot(Exec(s, es))
  {
    RunKeepsStamped(p, s, es);
  }

  /** Admin access or not, two completed claims never both hold one live MIG device. */
  lemma NoMigDeviceHasTwoHolders(p: Plugin, s: State, es: seq<Effect>, u: Uid, u': Uid, device: string)
    requires WellFormed(p) && Fresh(s) && SafeRuns(p, s, es)
    requires var s' := Exec(s, es);
             && s'.up && u != u' && IsCompleted(s'.cp, u) && IsCompleted(s'.cp, u')
             && RecordsName(s'.cp[u], device) && RecordsName(s'.cp[u'], device)
    ensures u in Exec(s, es).torn || u' in Exec(s, es).torn
  {
    RunKeepsInv(p, s, es);
    var s' := Exec(s, es);
    assert EntryInv(p, s', u) && EntryInv(p, s', u');
    var i :| 0 <= i < |s'.cp[u].devices| && s'.cp[u].devices[i].PreparedMig? && s'.cp[u].devices[i].device == device;
    var j :| 0 <= j < |s'.cp[u'].devices| && s'.cp[u'].devices[j].PreparedMig? && s'.cp[u'].devices[j].device == device;
    var d, d' := s'.cp[u].devices[i], s'.cp[u'].devices[j];
    assert DeviceInv(p, s', u, d) && DeviceInv(p, s', u', d');
    assert HoldsKey(s'.cp[u], d.concrete.gi) && HoldsKey(s'.cp[u'], d'.concrete.gi);
    if u !in s'.torn && u' !in s'.torn {
      LiveNamesAreUnique(p, s', d.concrete.gi, d'.concrete.gi);
    }
  }
}
