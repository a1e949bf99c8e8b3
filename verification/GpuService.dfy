/** The GPU plugin as its callers see it. */
module GpuService {
  import opened Text
  import opened ResourceApi
  import opened GpuClaims
  import opened GpuDeviceState
  import opened Calls

  /** What completed entries record. */
  function Recorded(cp: Checkpoint): Grants
  {
    map u | u in cp && cp[u].state.PrepareCompleted? :: cp[u].results
  }

  lemma StartsExclusive(ds: DeviceState)
    requires ds.Valid() && ds.up
    ensures Exclusive(ds.p.driver, Recorded(ds.cp)) && ds.stored == Some(ds.boot)
  {
    BegunKeepsInv(ds.p, ds.start, ds.log);
    var granted := Recorded(ds.cp);
    forall u, v | u in granted && v in granted && u != v
      ensures !ShareADevice(ds.p.driver, granted[u], granted[v])
    {
      SharersAreNotDisjoint(ds.p, granted[u], granted[v]);
    }
  }

  method ServePrepare(ds: DeviceState, claim: Claim, readable: bool) returns (ok: bool)
    requires ds.Valid() && ds.up && (Blind(ds.p, ds.lib) || Canonical(ds.p, claim.results))
    requires Exclusive(ds.p.driver, Recorded(ds.cp))
    modifies ds`cp, ds`world, ds`log, ds.lib
    ensures ds.Valid() && ds.stored == old(ds.stored)
    ensures Exclusive(ds.p.driver, Recorded(ds.cp))
    ensures Recorded(ds.cp) == AfterCall(Recorded(old(ds.cp)), PrepareClaim(claim, readable), ok)
  {
    ghost var before := ds.cp;
    var r := ds.Prepare(claim, readable);
    ok := r.Ok?;
    if ok && !IsCompleted(before, claim.uid) {
      assert Recorded(ds.cp) == Recorded(before)[claim.uid := claim.results];
      OneMoreIsExclusive(ds.p.driver, Recorded(before), claim.uid, claim.results);
    } else {
      assert Recorded(ds.cp) == Recorded(before);
    }
  }

  /** One call; while the plugin is down only a restart does anything. */
  method ServeOne(ds: DeviceState, call: Call) returns (ok: bool)
    requires ds.Valid() && ds.stored == Some(ds.boot)
    requires call.PrepareClaim? ==> Blind(ds.p, ds.lib) || Canonical(ds.p, call.claim.results)
    requires Exclusive(ds.p.driver, Recorded(ds.cp))
    modifies ds, ds.lib
    ensures ds.Valid() && ds.stored == Some(ds.boot)
    ensures Exclusive(ds.p.driver, Recorded(ds.cp))
    ensures Recorded(ds.cp) == AfterCall(Recorded(old(ds.cp)), call, ok)
  {
    match call {
      case PrepareClaim(claim, readable) =>
        if !ds.up { return false; }
        ok := ServePrepare(ds, claim, readable);
      case UnprepareClaim(uid, readable) =>
        if !ds.up { return false; }
        ok := ds.Unprepare(uid, readable);
        assert ok ==> Recorded(ds.cp) == Recorded(old(ds.cp)) - {uid};
      case Teardown =>
        if !ds.up { return false; }
        ok := ds.DestroyUnknownMIGDevices();
      case Die =>
        ds.Crash();
        ok := true;
      case Restart =>
        if ds.up { return false; }
        ok := ds.Start();
    }
  }

  /**
   * Two claims that ask this driver for one device, neither with admin access, are never both prepared: while the first
   * has not been unprepared, every Prepare of the second fails, however often the plugin dies and restarts.
   */
  method Serve(ds: DeviceState, calls: seq<Call>) returns (done: seq<bool>)
    requires ds.Valid() && ds.up
    requires forall i :: 0 <= i < |calls| && calls[i].PrepareClaim? ==>
               Blind(ds.p, ds.lib) || Canonical(ds.p, calls[i].claim.results)
    modifies ds, ds.lib
    ensures |done| == |calls|
    ensures var granted := Granted(Recorded(old(ds.cp)), calls, done);
            && granted == Recorded(ds.cp)
            && forall u, v :: u in granted && v in granted && u != v ==>
              forall r, r' :: r in granted[u] && r' in granted[v] && r.driver == r'.driver == ds.p.driver
                                && !r.adminAccess && !r'.adminAccess ==>
                r.device != r'.device
  {
    done := [];
    ghost var first := Recorded(ds.cp);
    StartsExclusive(ds);
    for n := 0 to |calls|
      invariant |done| == n && ds.Valid() && ds.stored == Some(ds.boot)
      invariant Granted(first, calls[..n], done) == Recorded(ds.cp) && Exclusive(ds.p.driver, Recorded(ds.cp))
    {
      var ok := ServeOne(ds, calls[n]);
      OneMoreCall(first, calls, done, n, ok);
      done := done + [ok];
    }
    assert calls[..|calls|] == calls;
    ExclusiveMeans(ds.p.driver, Recorded(ds.cp));
  }
}
