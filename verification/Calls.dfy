/**
 * Calls to a kubelet plugin, one after another, crashes and restarts among them, and what they leave granted. Both
 * plugins promise something about the claims as they were given to the calls.
 */
module Calls {
  import opened ResourceApi

  datatype Call =
    | PrepareClaim(claim: Claim, readable: bool)
    | UnprepareClaim(uid: string, readable: bool)
    | Teardown
    | Die
    | Restart

  type Grants = map<string, seq<AllocResult>>

  /** The claims that have been prepared and not unprepared since, with the allocation they were prepared with. */
  function Granted(first: Grants, calls: seq<Call>, done: seq<bool>): Grants
    requires |done| == |calls|
    decreases |calls|
  {
    if calls == [] then first
    else
      var n := |calls| - 1;
      AfterCall(Granted(first, calls[..n], done[..n]), calls[n], done[n])
  }

  function AfterCall(before: Grants, call: Call, ok: bool): Grants
  {
    match call
    case PrepareClaim(claim, _) =>
      if ok && claim.uid !in before then before[claim.uid := claim.results] else before
    case UnprepareClaim(uid, _) => if ok then before - {uid} else before
    case _ => before
  }

  lemma OneMoreCall(first: Grants, calls: seq<Call>, done: seq<bool>, n: nat, ok: bool)
    requires n < |calls| && |done| == n
    ensures Granted(first, calls[..n + 1], done + [ok]) == AfterCall(Granted(first, calls[..n], done), calls[n], ok)
  {
    assert calls[..n + 1][..n] == calls[..n] && (done + [ok])[..n] == done;
  }

  /** Two claims that are granted share no device of the driver. */
  ghost predicate Exclusive(driver: string, granted: Grants)
  {
    forall u, v :: u in granted && v in granted && u != v ==> !ShareADevice(driver, granted[u], granted[v])
  }

  lemma ExclusiveMeans(driver: string, granted: Grants)
    requires Exclusive(driver, granted)
    ensures forall u, v :: u in granted && v in granted && u != v ==>
              forall r, r' :: r in granted[u] && r' in granted[v] && r.driver == r'.driver == driver
                                && !r.adminAccess && !r'.adminAccess ==>
                r.device != r'.device
  {
    forall u, v, r, r' | u in granted && v in granted && u != v && r in granted[u] && r' in granted[v]
      && r.driver == r'.driver == driver && !r.adminAccess && !r'.adminAccess
      ensures r.device != r'.device
    {
      assert !ShareADevice(driver, granted[u], granted[v]);
      var i :| 0 <= i < |granted[u]| && granted[u][i] == r;
      var j :| 0 <= j < |granted[v]| && granted[v][j] == r';
    }
  }

  lemma OneMoreIsExclusive(driver: string, granted: Grants, uid: string, results: seq<AllocResult>)
    requires Exclusive(driver, granted)
    requires forall u :: u in granted && u != uid ==> !ShareADevice(driver, results, granted[u])
    ensures Exclusive(driver, granted[uid := results])
  {
    forall u | u in granted
      ensures ShareADevice(driver, results, granted[u]) <==> ShareADevice(driver, granted[u], results)
    {
      SharingIsMutual(driver, results, granted[u]);
    }
  }

  lemma SharingIsMutual(driver: string, a: seq<AllocResult>, b: seq<AllocResult>)
    ensures ShareADevice(driver, a, b) <==> ShareADevice(driver, b, a)
  {
  }
}
