/**
 * Write-ahead accounting: when every live MIG device is named by a checkpoint entry, and the runs on which it is not.
 */
module GpuAccounting {
  import opened ResourceApi
  import opened GpuClaims
  import opened GpuSafety

  /** Every live device carries a name that the allocation of some checkpoint entry contains. */
  ghost predicate Accounted(p: Plugin, s: State)
  {
    forall k :: k in s.live ==> exists u :: u in s.cp && Names(s.cp[u].results, LiveName(p, s, k))
  }

  /** The condition a caller can check: dynamic MIG devices are requested from this driver and without admin access. */
  ghost predicate PlainClaims(p: Plugin, es: seq<Effect>)
  {
    forall i :: 0 <= i < |es| && es[i].WriteStarted? ==> Plain(p, es[i].results)
  }

  ghost predicate RecordsLive(s: State, u: Uid, k: GiKey)
    requires k in s.live
  {
    IsCompleted(s.cp, u) && exists i :: 0 <= i < |s.cp[u].devices| && RecordedAt(s, s.cp[u].devices[i], k)
  }

  predicate RecordedAt(s: State, d: PreparedDevice, k: GiKey)
    requires k in s.live
  {
    d.PreparedMig? && d.concrete == LiveTuple(k, s.live[k].uuid)
  }

  ghost predicate Covered(p: Plugin, s: State, k: GiKey)
    requires k in s.live
  {
    exists u :: RecordsLive(s, u, k) || (IsStarted(s.cp, u) && Names(s.cp[u].results, LiveName(p, s, k)))
  }

  ghost predicate CoveredByOther(p: Plugin, s: State, uid: Uid, k: GiKey)
    requires k in s.live
  {
    exists u :: u != uid && (RecordsLive(s, u, k) || (IsStarted(s.cp, u) && Names(s.cp[u].results, LiveName(p, s, k))))
  }

  /** A completed claim that names a live device is the one that recorded it. */
  ghost predicate NamedIsRecorded(p: Plugin, s: State, k: GiKey)
    requires k in s.live
  {
    forall u :: IsCompleted(s.cp, u) && Names(s.cp[u].results, LiveName(p, s, k)) ==> RecordsLive(s, u, k)
  }

  ghost predicate PlainInv(p: Plugin, s: State)
  {
    && Inv(p, s)
    && (forall u :: u in s.cp ==> Plain(p, s.cp[u].results))
    && (Current(s) ==> forall k :: k in s.live ==> Covered(p, s, k) && NamedIsRecorded(p, s, k))
    && (!Current(s) ==> s.live == map[])
  }

  lemma CoveredIsAccounted(p: Plugin, s: State)
    requires PlainInv(p, s)
    ensures Accounted(p, s)
  {
  }

  lemma {:induction false} PlainNamesAreOurs(p: Plugin, results: seq<AllocResult>, d: string)
    requires Plain(p, results) && Names(results, d) && IsMig(p, d)
    ensures d in OurDevices(p, results) && Wants(p, results, d)
  {
    var i :| 0 <= i < |results| && results[i].device == d;
    if i < |results| - 1 {
      assert results[..|results| - 1][i].device == d;
      PlainNamesAreOurs(p, results[..|results| - 1], d);
    }
  }

  /** For a plain claim, no other completed claim names one of its devices. */
  lemma PlainExcludesOthers(p: Plugin, s: State, uid: Uid, results: seq<AllocResult>, d: string, u: Uid)
    requires Plain(p, results) && Names(results, d) && IsMig(p, d) && NoOverlap(p, s.cp, uid, results)
    requires u != uid && IsCompleted(s.cp, u) && Plain(p, s.cp[u].results)
    ensures !Names(s.cp[u].results, d)
  {
    PlainNamesAreOurs(p, results, d);
    if Names(s.cp[u].results, d) {
      PlainNamesAreOurs(p, s.cp[u].results, d);
    }
  }

  lemma PlainDelete(p: Plugin, s: State, s': State)
    requires PlainInv(p, s) && Inv(p, s') && s'.cp == s.cp && s'.stored == s.stored && s'.boot == s.boot
    requires forall k :: k in s'.live ==> k in s.live && s'.live[k] == s.live[k]
    ensures PlainInv(p, s')
  {
    forall k | Current(s) && k in s'.live ensures Covered(p, s', k) && NamedIsRecorded(p, s', k) {
      SurvivorStaysCovered(p, s, s', k);
    }
  }

  lemma SurvivorStaysCovered(p: Plugin, s: State, s': State, k: GiKey)
    requires k in s.live && k in s'.live && s'.live[k] == s.live[k] && s'.cp == s.cp && Covered(p, s, k)
    requires NamedIsRecorded(p, s, k)
    ensures Covered(p, s', k) && NamedIsRecorded(p, s', k)
  {
  }

  lemma PlainCreate(p: Plugin, s: State, uid: Uid, device: string, spec: MigSpec, key: GiKey)
    requires WellFormed(p) && PlainInv(p, s) && Inv(p, AfterCreate(s, uid, device, spec, key))
    requires CanCreate(p, s, uid, device, spec, key)
    ensures PlainInv(p, AfterCreate(s, uid, device, spec, key))
  {
    var s' := AfterCreate(s, uid, device, spec, key);
    assert IsMig(p, device);
    OurDevicesAreNamed(p, s.cp[uid].results, device);
    forall k | k in s'.live ensures Covered(p, s', k) && NamedIsRecorded(p, s', k) {
      if k == key {
        forall u | IsCompleted(s'.cp, u) ensures !Names(s'.cp[u].results, device) {
          PlainExcludesOthers(p, s, uid, s.cp[uid].results, device, u);
        }
      } else {
        assert Covered(p, s, k) && NamedIsRecorded(p, s, k);
        forall u ensures RecordsLive(s', u, k) <==> RecordsLive(s, u, k) {
          forall d ensures RecordedAt(s', d, k) <==> RecordedAt(s, d, k) {}
        }
      }
    }
  }

  lemma CoverFrame(p: Plugin, s: State, s': State, u: Uid, k: GiKey)
    requires k in s.live && s'.live == s.live && u in s.cp && u in s'.cp && s'.cp[u] == s.cp[u]
    ensures RecordsLive(s, u, k) <==> RecordsLive(s', u, k)
  {
  }

  /** What a change of one entry must provide for a live device to stay covered. */
  lemma ChangeOneEntry(p: Plugin, s: State, s': State, uid: Uid, k: GiKey)
    requires k in s.live && s'.live == s.live && s'.cp - {uid} == s.cp - {uid} && NamedIsRecorded(p, s, k)
    requires CoveredByOther(p, s, uid, k) || RecordsLive(s', uid, k)
    requires IsCompleted(s'.cp, uid) && Names(s'.cp[uid].results, LiveName(p, s, k)) ==> RecordsLive(s', uid, k)
    ensures Covered(p, s', k) && NamedIsRecorded(p, s', k)
  {
    forall u | u != uid ensures u in s.cp <==> u in s'.cp ensures u in s.cp ==> s.cp[u] == s'.cp[u] {
      assert u in s.cp <==> u in s.cp - {uid};
      assert u in s'.cp <==> u in s'.cp - {uid};
      if u in s.cp { assert (s.cp - {uid})[u] == (s'.cp - {uid})[u]; }
    }
    if CoveredByOther(p, s, uid, k) {
      var u :| u != uid && (RecordsLive(s, u, k) || (IsStarted(s.cp, u) && Names(s.cp[u].results, LiveName(p, s, k))));
      CoverFrame(p, s, s', u, k);
    }
    forall v | IsCompleted(s'.cp, v) && Names(s'.cp[v].results, LiveName(p, s', k)) ensures RecordsLive(s', v, k) {
      if v != uid { CoverFrame(p, s, s', v, k); }
    }
  }

  lemma RestartedEntryCoversNothing(p: Plugin, s: State, uid: Uid, k: GiKey)
    requires WellFormed(p) && PlainInv(p, s) && s.up && !IsCompleted(s.cp, uid) && k in s.live
    requires uid in s.cp ==> RolledBack(p, s, s.cp[uid].results)
    ensures CoveredByOther(p, s, uid, k)
  {
  }

  lemma PlainWriteStarted(p: Plugin, s: State, uid: Uid, results: seq<AllocResult>, name: string, namespace: string)
    requires WellFormed(p) && PlainInv(p, s) && CanStart(p, s, uid, results) && Plain(p, results)
    requires Inv(p, AfterStarted(s, uid, results, name, namespace))
    ensures PlainInv(p, AfterStarted(s, uid, results, name, namespace))
  {
    var s' := AfterStarted(s, uid, results, name, namespace);
    assert s'.cp - {uid} == s.cp - {uid};
    forall k | k in s'.live ensures Covered(p, s', k) && NamedIsRecorded(p, s', k) {
      assert NamedIsRecorded(p, s, k);
      RestartedEntryCoversNothing(p, s, uid, k);
      ChangeOneEntry(p, s, s', uid, k);
    }
  }

  lemma PlainWriteCompleted(p: Plugin, s: State, uid: Uid, results: seq<AllocResult>, devices: seq<PreparedDevice>)
    requires WellFormed(p) && PlainInv(p, s) && CanComplete(p, s, uid, results, devices)
    requires Inv(p, AfterCompleted(s, uid, results, devices))
    ensures PlainInv(p, AfterCompleted(s, uid, results, devices))
  {
    forall k | k in s.live
      ensures Covered(p, AfterCompleted(s, uid, results, devices), k)
      ensures NamedIsRecorded(p, AfterCompleted(s, uid, results, devices), k)
    {
      CompletionKeepsCover(p, s, uid, results, devices, k);
    }
  }

  lemma CompletionKeepsCover(p: Plugin, s: State, uid: Uid, results: seq<AllocResult>, devices: seq<PreparedDevice>,
                             k: GiKey)
    requires WellFormed(p) && PlainInv(p, s) && CanComplete(p, s, uid, results, devices) && k in s.live
    ensures Covered(p, AfterCompleted(s, uid, results, devices), k)
    ensures NamedIsRecorded(p, AfterCompleted(s, uid, results, devices), k)
  {
    var s' := AfterCompleted(s, uid, results, devices);
    assert s'.cp - {uid} == s.cp - {uid};
    if Names(results, LiveName(p, s, k)) {
      CompletionRecordsItsOwn(p, s, uid, results, devices, k);
    } else {
      UnnamedIsCoveredByOther(p, s, uid, k);
    }
    ChangeOneEntry(p, s, s', uid, k);
  }

  /** What a started claim does not name, another entry covers. */
  lemma UnnamedIsCoveredByOther(p: Plugin, s: State, uid: Uid, k: GiKey)
    requires IsStarted(s.cp, uid) && k in s.live && !Names(s.cp[uid].results, LiveName(p, s, k)) && Covered(p, s, k)
    ensures CoveredByOther(p, s, uid, k)
  {
  }

  /** A live device that a completing claim names is the one the claim has just created. */
  lemma CompletionRecordsItsOwn(p: Plugin, s: State, uid: Uid, results: seq<AllocResult>, devices: seq<PreparedDevice>,
                                k: GiKey)
    requires WellFormed(p) && PlainInv(p, s) && CanComplete(p, s, uid, results, devices)
    requires k in s.live && Names(results, LiveName(p, s, k))
    ensures RecordsLive(AfterCompleted(s, uid, results, devices), uid, k)
  {
    var s' := AfterCompleted(s, uid, results, devices);
    var d := LiveName(p, s, k);
    assert LiveDeviceInv(p, s, k);
    PlainNamesAreOurs(p, results, d);
    var names := DeviceNames(devices);
    assert d in multiset(names);
    var i :| 0 <= i < |names| && names[i] == d;
    assert MadeInv(p, s, devices[i]);
    LiveNamesAreUnique(p, s, k, devices[i].concrete.gi);
    assert RecordedAt(s', s'.cp[uid].devices[i], k);
  }

  lemma GoneEntryCoversNothing(p: Plugin, s: State, uid: Uid, k: GiKey)
    requires WellFormed(p) && PlainInv(p, s) && CanRemove(p, s, uid) && k in s.live
    ensures CoveredByOther(p, s, uid, k)
  {
  }

  lemma PlainRemove(p: Plugin, s: State, uid: Uid)
    requires WellFormed(p) && PlainInv(p, s) && CanRemove(p, s, uid) && Inv(p, AfterRemove(s, uid))
    ensures PlainInv(p, AfterRemove(s, uid))
  {
    var s' := AfterRemove(s, uid);
    assert s'.cp - {uid} == s.cp - {uid};
    forall k | k in s'.live ensures Covered(p, s', k) && NamedIsRecorded(p, s', k) {
      assert NamedIsRecorded(p, s, k);
      GoneEntryCoversNothing(p, s, uid, k);
      ChangeOneEntry(p, s, s', uid, k);
    }
  }

  lemma PlainStartup(p: Plugin, s: State)
    requires PlainInv(p, s) && Current(s) && Inv(p, AfterStartup(s))
    ensures PlainInv(p, AfterStartup(s))
  {
    var s' := AfterStartup(s);
    forall k | k in s'.live ensures Covered(p, s', k) && NamedIsRecorded(p, s', k) {
      SurvivorStaysCovered(p, s, s', k);
    }
  }

  lemma PlainReboot(p: Plugin, s: State, boot: string)
    requires PlainInv(p, s) && Inv(p, Apply(s, Reboot(boot)))
    ensures PlainInv(p, Apply(s, Reboot(boot)))
  {
  }

  lemma StepKeepsPlainInv(p: Plugin, s: State, e: Effect)
    requires WellFormed(p) && PlainInv(p, s) && Enabled(p, s, e) && Assumed(p, s, e)
    requires e.WriteStarted? ==> Plain(p, e.results)
    ensures PlainInv(p, Apply(s, e))
  {
    StepKeepsInv(p, s, e);
    match e
    case WriteStarted(uid, results, name, namespace) => PlainWriteStarted(p, s, uid, results, name, namespace);
    case CreateMig(uid, device, spec, key) => PlainCreate(p, s, uid, device, spec, key);
    case WriteCompleted(uid, results, devices) => PlainWriteCompleted(p, s, uid, results, devices);
    case RemoveEntry(uid) => PlainRemove(p, s, uid);
    case Startup =>
      if Current(s) { PlainStartup(p, s); }
    case Reboot(boot) => PlainReboot(p, s, boot);
    case _ => PlainDelete(p, s, Apply(s, e));
  }

  lemma {:induction false} RunKeepsPlainInv(p: Plugin, s: State, es: seq<Effect>)
    requires WellFormed(p) && PlainInv(p, s) && SafeRuns(p, s, es) && PlainClaims(p, es)
    ensures PlainInv(p, Exec(s, es))
    decreases |es|
  {
    if es != [] {
      StepKeepsPlainInv(p, s, es[0]);
      RunKeepsPlainInv(p, Apply(s, es[0]), es[1..]);
    }
  }

  /** With plain claims, write-ahead accounting holds at every point of every run, crash points included. */
  lemma PlainClaimsAreAccounted(p: Plugin, s: State, es: seq<Effect>)
    requires WellFormed(p) && Fresh(s) && SafeRuns(p, s, es) && PlainClaims(p, es)
    ensures var s' := Exec(s, es);
            forall k :: k in s'.live ==>
              exists u, i :: u in s'.cp && 0 <= i < |s'.cp[u].results|
                             && s'.cp[u].results[i].device == p.naming.canonicalName(s'.live[k].spec)
  {
    RunKeepsPlainInv(p, s, es);
    CoveredIsAccounted(p, Exec(s, es));
    var s' := Exec(s, es);
    forall k | k in s'.live
      ensures exists u, i :: u in s'.cp && 0 <= i < |s'.cp[u].results|
                             && s'.cp[u].results[i].device == p.naming.canonicalName(s'.live[k].spec)
    {
      var u :| u in s'.cp && Names(s'.cp[u].results, LiveName(p, s', k));
      var i :| 0 <= i < |s'.cp[u].results| && s'.cp[u].results[i].device == LiveName(p, s', k);
    }
  }

  /** After a successful startup teardown the live devices are exactly those that completed claims recorded. */
  lemma TeardownLeavesExactlyTheRecorded(p: Plugin, s: State, es: seq<Effect>, k: GiKey)
    requires WellFormed(p) && Fresh(s) && SafeRuns(p, s, es) && PlainClaims(p, es)
    requires var s' := Exec(s, es); s'.up && forall key :: key in s'.live ==>
        UsedByCompleted(s'.cp, LiveName(p, s', key))
    ensures var s' := Exec(s, es);
            && (k in s'.live ==> exists u :: RecordsLive(s', u, k))
            && ((exists u :: IsCompleted(s'.cp, u) && u !in s'.torn && HoldsKey(s'.cp[u], k)) ==> k in s'.live)
  {
    RunKeepsPlainInv(p, s, es);
    var s' := Exec(s, es);
    if k in s'.live {
      assert NamedIsRecorded(p, s', k);
      assert UsedByCompleted(s'.cp, LiveName(p, s', k));
      var u :| IsCompleted(s'.cp, u) && Names(s'.cp[u].results, LiveName(p, s', k));
      assert RecordsLive(s', u, k);
    }
    if u :| IsCompleted(s'.cp, u) && u !in s'.torn && HoldsKey(s'.cp[u], k) {
      assert EntryInv(p, s', u);
      var i :| 0 <= i < |s'.cp[u].devices| && s'.cp[u].devices[i].PreparedMig? && s'.cp[u].devices[i].concrete.gi == k;
      assert DeviceInv(p, s', u, s'.cp[u].devices[i]);
    }
  }
}
