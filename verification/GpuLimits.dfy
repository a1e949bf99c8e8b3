/** Where the promises of the claim state machine end: concrete families of runs that break them. */
module GpuLimits {
  import opened Text
  import opened MigNames
  import opened ResourceApi
  import opened GpuClaims
  import opened GpuSafety
  import opened GpuAccounting

  /** Every claim whose preparation the run starts is one of these. */
  ghost predicate Uses(es: seq<Effect>, claims: set<seq<AllocResult>>)
  {
    forall i :: 0 <= i < |es| && es[i].WriteStarted? ==> es[i].results in claims
  }

  /** A run within the assumptions, on which only these claims are prepared, leads from one state to the other. */
  ghost predicate Reaches(p: Plugin, claims: set<seq<AllocResult>>, s: State, s': State)
  {
    exists es :: SafeRuns(p, s, es) && Uses(es, claims) && Exec(s, es) == s'
  }

  lemma ReachesItself(p: Plugin, claims: set<seq<AllocResult>>, s: State)
    ensures Reaches(p, claims, s, s)
  {
    assert SafeRuns(p, s, []) && Uses([], claims) && Exec(s, []) == s;
  }

  lemma ReachesNext(p: Plugin, claims: set<seq<AllocResult>>, s: State, m: State, e: Effect)
    requires Reaches(p, claims, s, m) && Enabled(p, m, e) && Assumed(p, m, e)
    requires e.WriteStarted? ==> e.results in claims
    ensures Reaches(p, claims, s, Apply(m, e))
  {
    var es :| SafeRuns(p, s, es) && Uses(es, claims) && Exec(s, es) == m;
    RunsExtend(p, s, es, e);
    assert Uses(es + [e], claims);
  }

  lemma ReachesIsTransitive(p: Plugin, claims: set<seq<AllocResult>>, s: State, m: State, s': State)
    requires Reaches(p, claims, s, m) && Reaches(p, claims, m, s')
    ensures Reaches(p, claims, s, s')
  {
    var es :| SafeRuns(p, s, es) && Uses(es, claims) && Exec(s, es) == m;
    var fs :| SafeRuns(p, m, fs) && Uses(fs, claims) && Exec(m, fs) == s';
    RunsConcat(p, s, es, fs);
    assert Uses(es + fs, claims);
  }

  lemma {:induction false} RunsConcat(p: Plugin, s: State, es: seq<Effect>, fs: seq<Effect>)
    requires SafeRuns(p, s, es) && SafeRuns(p, Exec(s, es), fs)
    ensures SafeRuns(p, s, es + fs) && Exec(s, es + fs) == Exec(Exec(s, es), fs)
    decreases |es|
  {
    if es == [] {
      assert es + fs == fs;
    } else {
      RunsConcat(p, Apply(s, es[0]), es[1..], fs);
      assert (es + fs)[1..] == es[1..] + fs;
    }
  }

  lemma OurDevicesOfOne(p: Plugin, r: AllocResult)
    ensures OurDevices(p, [r]) == if r.driver == p.driver then [r.device] else []
  {
  }

  /** An idle node: the plugin is up, nothing is prepared and no MIG device exists. */
  predicate Idle(s: State) { s.up && s.cp == map[] && s.live == map[] }

  /** The result asks this driver for a dynamic MIG device. */
  predicate AsksForMig(p: Plugin, r: AllocResult, spec: MigSpec)
  {
    r.driver == p.driver && r.device in p.allocatable && p.allocatable[r.device] == MigDynamic(spec)
  }

  // ------------------------------------------------ one claim, prepared and torn down

  lemma ClaimCreates(p: Plugin, claims: set<seq<AllocResult>>, s: State, a: Uid, r: AllocResult, spec: MigSpec,
                     key: GiKey)
    requires Idle(s) && AsksForMig(p, r, spec) && key.parentUUID == spec.parent.uuid && [r] in claims
    ensures exists s' :: Reaches(p, claims, s, s') && s'.up && s'.live == map[key := LiveDevice(spec, s.nextUuid)]
                         && s'.cp == map[a := Started([r], "a", "ns")]
                         && s'.attempt == Some(Attempt(a, {PreparedMig(r.device, LiveTuple(key, s.nextUuid))}))
  {
    var e1, e2 := WriteStarted(a, [r], "a", "ns"), CreateMig(a, r.device, spec, key);
    OurDevicesOfOne(p, r);
    ReachesItself(p, claims, s);
    ReachesNext(p, claims, s, s, e1);
    var s1 := Apply(s, e1);
    assert !HoldsKey(s1.cp[a], key);
    ReachesNext(p, claims, s, s1, e2);
    var s2 := Apply(s1, e2);
    assert s2.cp == map[a := Started([r], "a", "ns")];
    assert s2.live == map[key := LiveDevice(spec, s.nextUuid)];
    assert s2.attempt.value.made == {PreparedMig(r.device, LiveTuple(key, s.nextUuid))};
    assert Reaches(p, claims, s, s2) && s2.up;
  }

  lemma PreparedFromOne(p: Plugin, r: AllocResult, d: PreparedDevice)
    requires r.driver == p.driver && IsMig(p, r.device) && d.PreparedMig? && d.device == r.device
    ensures Prepared(p, {d}, [r], [d])
  {
  }

  lemma ClaimCompletes(p: Plugin, claims: set<seq<AllocResult>>, s: State, m: State, a: Uid, r: AllocResult,
                       d: PreparedDevice)
    requires Reaches(p, claims, s, m) && m.up && m.cp == map[a := Started([r], "a", "ns")]
    requires m.attempt == Some(Attempt(a, {d}))
    requires Prepared(p, {d}, [r], [d])
    ensures exists s' :: Reaches(p, claims, s, s') && s'.up && s'.live == m.live
                         && s'.cp == map[a := Completed([r], [d])]
  {
    var s' := AfterCompleted(m, a, [r], [d]);
    assert CanComplete(p, m, a, [r], [d]);
    ReachesNext(p, claims, s, m, WriteCompleted(a, [r], [d]));
    assert s'.cp == map[a := Completed([r], [d])];
    assert Reaches(p, claims, s, s');
  }

  /** A claim is prepared, and its teardown is cut short after the device is gone: the entry still holds the address. */
  lemma TeardownCutShort(p: Plugin, claims: set<seq<AllocResult>>, s: State, a: Uid, r: AllocResult, spec: MigSpec,
                         key: GiKey)
    requires Idle(s) && AsksForMig(p, r, spec) && key.parentUUID == spec.parent.uuid && [r] in claims
    ensures exists s' :: Reaches(p, claims, s, s') && s'.up && s'.live == map[]
                         && s'.cp == map[a := Completed([r], [PreparedMig(r.device, LiveTuple(key, s.nextUuid))])]
  {
    var d := PreparedMig(r.device, LiveTuple(key, s.nextUuid));
    ClaimCreates(p, claims, s, a, r, spec, key);
    var m :| Reaches(p, claims, s, m) && m.up && m.live == map[key := LiveDevice(spec, s.nextUuid)]
             && m.cp == map[a := Started([r], "a", "ns")] && m.attempt == Some(Attempt(a, {d}));
    PreparedFromOne(p, r, d);
    ClaimCompletes(p, claims, s, m, a, r, d);
    var s3 :| Reaches(p, claims, s, s3) && s3.up && s3.live == m.live && s3.cp == map[a := Completed([r], [d])];
    assert s3.cp[a].devices[0] == d;
    ReachesNext(p, claims, s, s3, DeleteRecorded(a, key));
    assert AfterDeleteRecorded(s3, a, key).live == map[];
  }

  // ------------------------------------------------------- a GPU instance ID used again

  /**
   * Claim b is about to create a device at an address that a's entry holds; it completes, and a's own teardown
   * destroys the device.
   */
  ghost predicate TeardownHitsAnother(p: Plugin, s: State, a: Uid, b: Uid, device: string, spec: MigSpec, key: GiKey)
  {
    && CanCreate(p, s, b, device, spec, key) && a != b && IsCompleted(s.cp, a)
    && var d := PreparedMig(device, LiveTuple(key, s.nextUuid));
       var s1 := AfterCreate(s, b, device, spec, key);
       && CanComplete(p, s1, b, s.cp[b].results, [d])
       && var s2 := AfterCompleted(s1, b, s.cp[b].results, [d]);
          && CanDeleteRecorded(s2, a, key)
          && var s3 := AfterDeleteRecorded(s2, a, key);
             IsCompleted(s3.cp, b) && s3.cp[b].devices == [d] && LiveAs(p, s2, d) && !LiveAs(p, s3, d)
  }

  lemma ReuseHits(p: Plugin, s: State, a: Uid, b: Uid, device: string, spec: MigSpec, key: GiKey)
    requires WellFormed(p) && CanCreate(p, s, b, device, spec, key) && s.attempt.value.made == {}
    requires OurDevices(p, s.cp[b].results) == [device]
    requires IsCompleted(s.cp, a) && HoldsKey(s.cp[a], key)
    ensures TeardownHitsAnother(p, s, a, b, device, spec, key)
  {
    var d := PreparedMig(device, LiveTuple(key, s.nextUuid));
    var s1 := AfterCreate(s, b, device, spec, key);
    var s2 := AfterCompleted(s1, b, s.cp[b].results, [d]);
    CanonicalOf(p, device, spec);
    CreatedCompletes(p, s, b, device, spec, key);
    assert s2.cp[a] == s.cp[a] && s2.cp[b] == Completed(s.cp[b].results, [d]);
    assert key !in AfterDeleteRecorded(s2, a, key).live;
  }

  lemma CreatedCompletes(p: Plugin, s: State, b: Uid, device: string, spec: MigSpec, key: GiKey)
    requires CanCreate(p, s, b, device, spec, key) && s.attempt.value.made == {}
    requires OurDevices(p, s.cp[b].results) == [device]
    ensures CanComplete(p, AfterCreate(s, b, device, spec, key), b, s.cp[b].results,
                        [PreparedMig(device, LiveTuple(key, s.nextUuid))])
  {
    var d := PreparedMig(device, LiveTuple(key, s.nextUuid));
    assert DeviceNames([d]) == [device];
    assert AfterCreate(s, b, device, spec, key).attempt == Some(Attempt(b, {} + {d}));
  }

  /**
   * The assumption on GPU instance IDs is needed: for any two devices of one GPU, an idle node comes, within all the
   * assumptions, to a point where handing out a held ID is all it takes for a claim's own teardown to destroy
   * another claim's device.
   */
  lemma ReusedAddressDestroysAnother(p: Plugin, s: State, a: Uid, r: AllocResult, m: MigSpec,
                                     b: Uid, q: AllocResult, n: MigSpec, key: GiKey)
    requires WellFormed(p) && Idle(s) && a != b && AsksForMig(p, r, m) && AsksForMig(p, q, n)
    requires r.device != q.device && m.parent == n.parent && key.parentUUID == n.parent.uuid
    ensures exists s' :: Reaches(p, {[r], [q]}, s, s') && TeardownHitsAnother(p, s', a, b, q.device, n, key)
  {
    var claims := {[r], [q]};
    TeardownCutShort(p, claims, s, a, r, m, key);
    var d := PreparedMig(r.device, LiveTuple(key, s.nextUuid));
    var s1 :| Reaches(p, claims, s, s1) && s1.up && s1.live == map[] && s1.cp == map[a := Completed([r], [d])];
    DifferentDevicesAreDisjoint(p, r, q);
    ReachesNext(p, claims, s, s1, WriteStarted(b, [q], "b", "ns"));
    var s' := AfterStarted(s1, b, [q], "b", "ns");
    OurDevicesOfOne(p, q);
    assert s'.cp[a] == Completed([r], [d]) && s'.cp[a].devices[0] == d;
    ReuseHits(p, s', a, b, q.device, n, key);
  }

  lemma DifferentDevicesAreDisjoint(p: Plugin, r: AllocResult, q: AllocResult)
    requires r.device != q.device
    ensures Disjoint(p, [q], [r])
  {
  }

  // ------------------------------------------------------------- claims that are not plain

  /**
   * A completed claim that names a device it does not hold shields another claim's leftover, which then loses its
   * last name.
   */
  lemma ShieldedLeftoverIsLost(p: Plugin, claims: set<seq<AllocResult>>, s: State, a: Uid, b: Uid, q: AllocResult,
                               spec: MigSpec, key: GiKey)
    requires s.up && s.live == map[] && a != b && s.cp.Keys == {a} && IsCompleted(s.cp, a)
    requires Names(s.cp[a].results, q.device) && (forall d :: !Wants(p, s.cp[a].results, d)) && !HoldsKey(s.cp[a], key)
    requires AsksForMig(p, q, spec) && key.parentUUID == spec.parent.uuid && [q] in claims
    ensures exists s' :: Reaches(p, claims, s, s') && s'.cp == map[] && key in s'.live && !Accounted(p, s')
  {
    ReachesItself(p, claims, s);
    var e1, e2 := WriteStarted(b, [q], "b", "ns"), CreateMig(b, q.device, spec, key);
    var s1 := Apply(s, e1);
    ReachesNext(p, claims, s, s, e1);
    OurDevicesOfOne(p, q);
    var s2 := Apply(s1, e2);
    ReachesNext(p, claims, s, s1, e2);
    assert IsCompleted(s2.cp, a) && s2.cp[a] == s.cp[a];
    var s3 := AfterRemove(s2, b);
    assert RolledBack(p, s2, [q]) by {
      assert forall d :: Names([q], d) ==> d == q.device;
      assert UsedByCompleted(s2.cp, q.device);
    }
    ReachesNext(p, claims, s, s2, RemoveEntry(b));
    assert s3.cp == s.cp;
    var s4 := AfterRemove(s3, a);
    ReachesNext(p, claims, s, s3, RemoveEntry(a));
    assert s4.cp == map[];
    assert key in s4.live;
  }

  /** A claim on another driver's device needs nothing prepared to be completed. */
  lemma ForeignClaimCompletes(p: Plugin, claims: set<seq<AllocResult>>, s: State, a: Uid, r: AllocResult)
    requires Idle(s) && r.driver != p.driver && [r] in claims
    ensures exists s' :: Reaches(p, claims, s, s') && s'.up && s'.live == map[] && s'.cp == map[a := Completed([r], [])]
  {
    OurDevicesOfOne(p, r);
    assert DeviceNames([]) == [];
    ReachesItself(p, claims, s);
    var e1, e2 := WriteStarted(a, [r], "a", "ns"), WriteCompleted(a, [r], []);
    ReachesNext(p, claims, s, s, e1);
    ReachesNext(p, claims, s, Apply(s, e1), e2);
    assert Apply(Apply(s, e1), e2).cp == map[a := Completed([r], [])];
  }

  /** The same request, made to this driver and without admin access. */
  function Ordinary(p: Plugin, r: AllocResult): AllocResult { r.(driver := p.driver, adminAccess := false) }

  /** The one entry is of a completed claim for this result, no device is live, and no address but this one is held. */
  ghost predicate Shields(s: State, a: Uid, r: AllocResult, key: GiKey)
  {
    && s.up && s.live == map[] && s.cp.Keys == {a} && IsCompleted(s.cp, a)
    && s.cp[a].results == [r] && forall k :: HoldsKey(s.cp[a], k) ==> k == key
  }

  /**
   * A result that is not plain shields: on an idle node it leads to a completed claim that names a device it does not
   * hold.
   */
  lemma NonPlainClaimShields(p: Plugin, claims: set<seq<AllocResult>>, s: State, a: Uid, r: AllocResult, spec: MigSpec,
                             key: GiKey)
    requires Idle(s) && !Plain(p, [r]) && AsksForMig(p, Ordinary(p, r), spec) && key.parentUUID == spec.parent.uuid
    requires [r] in claims
    ensures exists s' :: Reaches(p, claims, s, s') && Shields(s', a, r, key)
  {
    var d := PreparedMig(r.device, LiveTuple(key, s.nextUuid));
    if r.driver == p.driver {
      TeardownCutShort(p, claims, s, a, r, spec, key);
      var s' :| Reaches(p, claims, s, s') && s'.up && s'.live == map[] && s'.cp == map[a := Completed([r], [d])];
      assert Shields(s', a, r, key);
    } else {
      ForeignClaimCompletes(p, claims, s, a, r);
      var s' :| Reaches(p, claims, s, s') && s'.up && s'.live == map[] && s'.cp == map[a := Completed([r], [])];
      assert Shields(s', a, r, key);
    }
  }

  /**
   * Accounting fails for every result that is not plain: on an idle node, a claim for it and an ordinary claim for
   * the same device have a run within the assumptions that ends with the device live and no checkpoint entry at all.
   */
  lemma NonPlainResultCanLeak(p: Plugin, s: State, r: AllocResult)
    requires Idle(s) && !Plain(p, [r])
    ensures exists s' :: Reaches(p, {[r], [Ordinary(p, r)]}, s, s') && s'.cp == map[] && s'.live != map[]
                         && !Accounted(p, s')
  {
    var a, b, q := "a", "b", Ordinary(p, r);
    var claims := {[r], [q]};
    assert IsMig(p, [r][0].device);
    var spec := p.allocatable[r.device].spec;
    var key, key' := GiKey(spec.parent.uuid, 1), GiKey(spec.parent.uuid, 2);
    NonPlainClaimShields(p, claims, s, a, r, spec, key);
    var m :| Reaches(p, claims, s, m) && Shields(m, a, r, key);
    assert Names(m.cp[a].results, q.device) by { assert m.cp[a].results[0] == r; }
    assert !HoldsKey(m.cp[a], key');
    ShieldedLeftoverIsLost(p, claims, m, a, b, q, spec, key');
    var s' :| Reaches(p, claims, m, s') && s'.cp == map[] && key' in s'.live && !Accounted(p, s');
    ReachesIsTransitive(p, claims, s, m, s');
  }

  /**
   * The exact condition: on a fresh node, every run that prepares nothing but claims for this result, and ordinary
   * claims for its device, accounts for all live devices if and only if the result is plain.
   */
  lemma AccountedExactlyForPlainResults(p: Plugin, s: State, r: AllocResult)
    requires WellFormed(p) && Fresh(s)
    ensures Plain(p, [r]) <==>
            forall es :: SafeRuns(p, s, es) && Uses(es, {[r], [Ordinary(p, r)]}) ==> Accounted(p, Exec(s, es))
  {
    var claims := {[r], [Ordinary(p, r)]};
    if Plain(p, [r]) {
      forall es | SafeRuns(p, s, es) && Uses(es, claims) ensures Accounted(p, Exec(s, es)) {
        assert Plain(p, [Ordinary(p, r)]);
        PlainClaimsAreAccounted(p, s, es);
      }
    } else {
      var s0 := Apply(s, Startup);
      ReachesItself(p, claims, s);
      ReachesNext(p, claims, s, s, Startup);
      NonPlainResultCanLeak(p, s0, r);
      var s' :| Reaches(p, claims, s0, s') && !Accounted(p, s');
      ReachesIsTransitive(p, claims, s, s0, s');
    }
  }

  // ----------------------------------------------------------- files without a boot ID

  lemma UnstampedFileKeepsOldEntries(p: Plugin, s: State, b: string)
    requires Booked(s) && s.stored == Some("") && s.cp != map[] && b != "" && b !in s.boots
    ensures var es := [Reboot(b), Startup]; Runs(p, s, es) && Exec(s, es).up && !OfThisBoot(Exec(s, es))
  {
    var s1 := Apply(s, Reboot(b));
    var s2 := Apply(s1, Startup);
    assert Runs(p, s1, [Startup]) by { assert Runs(p, s2, []); }
    assert Exec(s1, [Startup]) == s2 by { assert Exec(s2, []) == s2; }
    assert [Reboot(b), Startup][1..] == [Startup];
    assert s.cp.Keys != {};
    var u :| u in s.cp.Keys;
    assert u in s2.cp && s2.wrote[u] in s.boots;
  }

  /**
   * Startup can be trusted to leave only entries of the current boot exactly when the file it finds has a boot ID or
   * no entry.
   */
  lemma StartupTrustsOnlyStampedFiles(p: Plugin, s: State, b: string)
    requires Booked(s) && b != "" && b !in s.boots
    ensures (s.stored != Some("") || s.cp == map[]) <==>
            forall es :: Runs(p, s, es) && Exec(s, es).up ==> OfThisBoot(Exec(s, es))
  {
    if s.stored != Some("") || s.cp == map[] {
      forall es | Runs(p, s, es) && Exec(s, es).up ensures OfThisBoot(Exec(s, es)) {
        EntriesAreOfThisBoot(p, s, es);
      }
    } else {
      UnstampedFileKeepsOldEntries(p, s, b);
    }
  }

  // ----------------------------------------------------- the plugin's own naming

  /**
   * Device enumeration with the shipped names gives a well-formed plugin: this is where the encoding must be
   * injective and must read back.
   */
  lemma ShippedNamingIsWellFormed(p: Plugin)
    requires p.naming == SHIPPED
    requires forall d :: IsMig(p, d) ==>
               var m := p.allocatable[d].spec;
               && d == ToCanonicalName(m.Tuple(), m.profile) && m.size > 0 && HasAlnum(m.profile)
               && m.parent.minor <= MAX_INT && m.profileID <= MAX_INT && m.start <= MAX_INT
    requires forall d, d' :: IsMig(p, d) && IsMig(p, d') ==>
               var m, m' := p.allocatable[d].spec, p.allocatable[d'].spec;
               && (m.parent.minor == m'.parent.minor || m.parent.uuid == m'.parent.uuid ==> m.parent == m'.parent)
               && (m.parent == m'.parent && m.profileID == m'.profileID ==>
                 m.profile == m'.profile && m.size == m'.size)
    ensures WellFormed(p)
  {
    forall d | IsMig(p, d)
      ensures var m := p.allocatable[d].spec;
              && p.naming.canonicalName(m) == d && m.size > 0 && p.naming.parse(d).Some?
                && TupleMatches(m, p.naming.parse(d).value)
    {
      var m := p.allocatable[d].spec;
      ParseUndoesPrint(m.Tuple(), m.profile);
    }
  }
}
