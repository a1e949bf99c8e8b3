/** The compute-domain plugin as its callers see it. */
module ImexService {
  import opened Text
  import opened ResourceApi
  import opened Imex
  import opened Calls

  /** What completed entries record. */
  function Recorded(cp: Checkpoint): Grants
  {
    map u | u in cp && cp[u].completed :: cp[u].results
  }

  /** The devices of completed entries are those their results ask for. */
  ghost predicate Described(driver: string, allocatable: map<string, Info>, cp: Checkpoint)
  {
    forall u :: u in cp && cp[u].completed ==> Delivered(driver, allocatable, cp[u].results, cp[u].devices)
  }

  lemma WriteKeepsDescribed(driver: string, allocatable: map<string, Info>, cp: Checkpoint, uid: Uid, e: Entry)
    requires Described(driver, allocatable, cp) && !(uid in cp && cp[uid].completed)
    requires e.completed ==> Delivered(driver, allocatable, e.results, e.devices)
    ensures Described(driver, allocatable, cp[uid := e])
    ensures Recorded(cp[uid := e]) == if e.completed then Recorded(cp)[uid := e.results] else Recorded(cp)
  {
    assert Recorded(cp[uid := e]) == if e.completed then Recorded(cp)[uid := e.results] else Recorded(cp);
  }

  lemma RemovalKeepsDescribed(driver: string, allocatable: map<string, Info>, cp: Checkpoint, uid: Uid)
    requires Described(driver, allocatable, cp)
    ensures Described(driver, allocatable, cp - {uid}) && Recorded(cp - {uid}) == Recorded(cp) - {uid}
  {
    assert Recorded(cp - {uid}) == Recorded(cp) - {uid};
  }

  method ServePrepare(ds: DeviceState, claim: Claim, readable: bool) returns (ok: bool)
    requires ds.Valid() && ds.up && Described(ds.driver, ds.allocatable, ds.cp)
    modifies ds`cp, ds`wrote
    ensures ds.Valid() && Described(ds.driver, ds.allocatable, ds.cp)
    ensures Recorded(ds.cp) == AfterCall(Recorded(old(ds.cp)), PrepareClaim(claim, readable), ok)
  {
    ghost var before := ds.cp;
    var r := ds.Prepare(claim, readable);
    ok := r.Ok?;
    if ds.cp != before {
      assert ds.cp == before[claim.uid := ds.cp[claim.uid]];
      WriteKeepsDescribed(ds.driver, ds.allocatable, before, claim.uid, ds.cp[claim.uid]);
    }
  }

  method ServeOne(ds: DeviceState, call: Call) returns (ok: bool)
    requires ds.Valid() && ds.stored == Some(ds.boot) && Described(ds.driver, ds.allocatable, ds.cp)
    modifies ds
    ensures ds.Valid() && ds.stored == Some(ds.boot) && Described(ds.driver, ds.allocatable, ds.cp)
    ensures Recorded(ds.cp) == AfterCall(Recorded(old(ds.cp)), call, ok)
  {
    match call {
      case PrepareClaim(claim, readable) =>
        if !ds.up { return false; }
        ok := ServePrepare(ds, claim, readable);
      case UnprepareClaim(uid, readable) =>
        if !ds.up { return false; }
        ok := ds.Unprepare(uid, readable);
        RemovalKeepsDescribed(ds.driver, ds.allocatable, old(ds.cp), uid);
      case Teardown =>
        ok := false;
      case Die =>
        ds.Crash();
        ok := true;
      case Restart =>
        if ds.up { return false; }
        ok := ds.Start();
    }
  }

  /**
   * Among the claims that are prepared and not unprepared, at most one asks this driver for a device published as
   * channel 0, with or without admin access, and no two ask for one device without.
   */
  method Serve(ds: DeviceState, calls: seq<Call>) returns (done: seq<bool>)
    requires ds.Valid() && ds.up && Described(ds.driver, ds.allocatable, ds.cp)
    modifies ds
    ensures |done| == |calls|
    ensures var granted := Granted(Recorded(old(ds.cp)), calls, done);
            && granted == Recorded(ds.cp)
            && (forall u, v :: u in granted && v in granted && u != v ==>
                forall r, r' :: r in granted[u] && r' in granted[v] && r.driver == r'.driver == ds.driver
                                  && !r.adminAccess && !r'.adminAccess ==>
                  r.device != r'.device)
            && (forall u, v :: u in granted && v in granted && u != v ==>
                forall r, r' :: r in granted[u] && r' in granted[v] && r.driver == r'.driver == ds.driver
                                  && r.device in ds.allocatable && r'.device in ds.allocatable ==>
                  !(ds.allocatable[r.device] == ds.allocatable[r'.device] == ChannelInfo(0)))
  {
    done := [];
    ghost var first := Recorded(ds.cp);
    for n := 0 to |calls|
      invariant |done| == n && ds.Valid() && ds.stored == Some(ds.boot)
      invariant Described(ds.driver, ds.allocatable, ds.cp) && Granted(first, calls[..n], done) == Recorded(ds.cp)
    {
      var ok := ServeOne(ds, calls[n]);
      OneMoreCall(first, calls, done, n, ok);
      done := done + [ok];
    }
    assert calls[..|calls|] == calls;
    ExclusiveMeans(ds.driver, Recorded(ds.cp));
    OneAsksForChannelZero(ds.driver, ds.allocatable, ds.cp);
  }

  lemma OneAsksForChannelZero(driver: string, allocatable: map<string, Info>, cp: Checkpoint)
    requires OneHolder(cp) && Described(driver, allocatable, cp)
    ensures var granted := Recorded(cp);
            forall u, v :: u in granted && v in granted && u != v ==>
              forall r, r' :: r in granted[u] && r' in granted[v] && r.driver == r'.driver == driver
                                && r.device in allocatable && r'.device in allocatable ==>
                !(allocatable[r.device] == allocatable[r'.device] == ChannelInfo(0))
  {
    var granted := Recorded(cp);
    forall u, v, r: AllocResult, r': AllocResult | u in granted && v in granted && u != v
      && r in granted[u] && r' in granted[v]
      && r.driver == r'.driver == driver && r.device in allocatable && r'.device in allocatable
      ensures !(allocatable[r.device] == allocatable[r'.device] == ChannelInfo(0))
    {
      HoldsExactlyWhatIsRequested(driver, allocatable, cp[u].results, cp[u].devices, 0);
      HoldsExactlyWhatIsRequested(driver, allocatable, cp[v].results, cp[v].devices, 0);
      if allocatable[r.device] == allocatable[r'.device] == ChannelInfo(0) {
        assert AsksForChannel(driver, allocatable, r, 0) && AsksForChannel(driver, allocatable, r', 0);
      }
    }
  }
}
