/**
 * The programs that rewrite the member list: the daemon's two managers (clique object and ComputeDomain
 * status) and the controller. Every method may run between any two of any other; what each is proved
 * to do to the object is one write of the membership protocol, or nothing.
 */
module DaemonManagers {
  import opened Text
  import opened Membership

  /** The API server's one object. `log` is every version it ever had. */
  class ApiObject {
    const cfg: Config
    var log: Log

    constructor (cfg: Config)
      ensures Valid() && this.cfg == cfg && log == []
    {
      this.cfg, log := cfg, [];
    }

    ghost predicate Valid()
      reads this
    {
      History(cfg, log)
    }

    method Create() returns (r: Result<nat>)
      requires Valid()
      modifies this
      ensures Valid() && (log == old(log) || log == old(log) + [Some([])])
      ensures r.Ok? ==> log == old(log) + [Some([])] && r.value == |old(log)|
    {
      if Current(log).Some? { return Err("already exists"); }
      if * { return Err("error reaching the API server"); }
      HistoryGrows(cfg, log, Some([]));
      log := log + [Some([])];
      if * { return Err("error reading the answer"); }
      r := Ok(|log| - 1);
    }

    /** The owner of the object goes, and the object with it. */
    method Delete()
      requires Valid()
      modifies this
      ensures Valid() && old(log) <= log
    {
      if Current(log).Some? {
        HistoryGrows(cfg, log, None);
        log := log + [None];
      }
    }

    /** Compare and swap on the resource version. An error does not mean that nothing was written. */
    method Update(rv: nat, next: Members, ghost w: Write) returns (r: Result<nat>)
      requires Valid() && rv < |log| && log[rv].Some? && InScope(cfg, w) && Edits(cfg.max, log[rv].value, w, next)
      modifies this
      ensures Valid() && (log == old(log) || (rv == |old(log)| - 1 && log == old(log) + [Some(next)]))
      ensures r.Ok? ==> log == old(log) + [Some(next)] && r.value == |old(log)|
    {
      if rv != |log| - 1 { return Err("the object has been modified"); }
      if * { return Err("error reaching the API server"); }
      WriteGrows(cfg, log, log[rv].value, w, next);
      log := log + [Some(next)];
      if * { return Err("error reading the answer"); }
      r := Ok(|log| - 1);
    }
  }

  /** A version as some client has it in its cache. */
  datatype Versioned = Versioned(rv: nat, members: Members)

  ghost predicate IsVersion(log: Log, c: Option<Versioned>)
  {
    c.Some? ==> c.value.rv < |log| && log[c.value.rv] == Some(c.value.members)
  }

  /** Where the first entry of the node stands, or -1. */
  function PositionOf(ms: Members, node: string): (k: int)
    ensures -1 <= k < |ms|
    ensures k == -1 <==> !Named(ms, node)
    ensures k != -1 ==> ms[k].node == node && forall j :: 0 <= j < k ==> ms[j].node != node
  {
    if ms == [] then -1
    else
      var k := PositionOf(ms[..|ms| - 1], node);
      if k != -1 then k else if ms[|ms| - 1].node == node then |ms| - 1 else -1
  }

  class DaemonManager {
    const api: ApiObject
    const nodeName: string
    const podIP: string
    const cliqueID: string
    /** What the cache holds: any version, however old. */
    var cached: Option<Versioned>
    var previous: Members
    /** Lists handed to the IMEX daemon controller, latest last. */
    var pushed: seq<Members>

    constructor (api: ApiObject, nodeName: string, podIP: string, cliqueID: string)
      requires api.Valid() && cliqueID != "" && (api.cfg.scope.Some? ==> api.cfg.scope.value == cliqueID)
      ensures Valid() && this.api == api && this.nodeName == nodeName && this.podIP == podIP
      ensures this.cliqueID == cliqueID
      ensures cached.None? && pushed == [] && previous == []
    {
      this.api, this.nodeName, this.podIP, this.cliqueID := api, nodeName, podIP, cliqueID;
      cached, previous, pushed := None, [], [];
    }

    ghost predicate Valid()
      reads this, api
    {
      && api.Valid() && IsVersion(api.log, cached)
      && cliqueID != "" && (api.cfg.scope.Some? ==> api.cfg.scope.value == cliqueID)
    }

    /** Whatever other clients write, this manager's view stays a version of the object. */
    twostate lemma SurvivesOthers()
      requires old(Valid()) && unchanged(this) && api.Valid() && old(api.log) <= api.log
      ensures Valid()
    {
    }

    /** The informer delivers some version, not necessarily the latest. */
    method Refresh(rv: nat)
      requires Valid() && rv < |api.log|
      modifies `cached
      ensures Valid() && (cached.Some? <==> api.log[rv].Some?)
    {
      cached := if api.log[rv].Some? then Some(Versioned(rv, api.log[rv].value)) else None;
    }

    method EnsureCliqueExists() returns (ok: bool)
      requires Valid()
      modifies `cached, api
      ensures Valid() && (api.log == old(api.log) || api.log == old(api.log) + [Some([])])
      ensures old(cached).Some? ==> ok && api.log == old(api.log)
      ensures ok ==> cached.Some?
    {
      if cached.Some? { return true; }
      var created := api.Create();
      if created.Err? { return false; }
      cached := Some(Versioned(created.value, []));
      ok := true;
    }

    // ------------------------------------------------------------------ indices

    /** The members whose index counts: all of a clique object, those of the own clique in a shared list. */
    method Considered(ms: Members) returns (considered: Members)
      ensures considered == if api.cfg.scope.Some? then ms else Filter(ms, OfClique(cliqueID))
      ensures api.cfg.scope.None? ==> IsPart(considered, ms, (m: Member) => m.clique == cliqueID)
    {
      FilterIsPart(ms, OfClique(cliqueID), (m: Member) => m.clique == cliqueID);
      if api.cfg.scope.Some? { return ms; }
      considered := [];
      for n := 0 to |ms|
        invariant considered == Filter(ms[..n], OfClique(cliqueID))
      {
        assert ms[..n + 1][..n] == ms[..n];
        if ms[n].clique == cliqueID {
          considered := considered + [ms[n]];
        }
      }
      assert ms[..|ms|] == ms;
    }

    method UsedIndices(ms: Members) returns (used: set<int>)
      requires api.cfg.scope.Some? ==> AllOf(cliqueID, ms)
      ensures forall i :: i in used <==> Uses(ms, cliqueID, i)
      ensures forall i :: i in used <==> exists m :: m in ms && m.clique == cliqueID && m.index == i
    {
      var considered := Considered(ms);
      used := {};
      for n := 0 to |considered|
        invariant used == Indices(considered[..n], cliqueID)
      {
        assert considered[..n + 1][..n] == considered[..n] && considered[n] in considered;
        used := used + {considered[n].index};
      }
      assert considered[..|considered|] == considered;
      ConsideredUsesTheSame(ms, considered, cliqueID);
      UsesByMember(ms, cliqueID);
    }

    /** The least index that the other members leave free, as a caller sees it; Full means that there is none. */
    lemma LeastFreeMeans(ms: Members, clique: string, index: int)
      ensures var taken := set m | m in ms && m.clique == clique :: m.index;
              && (LeastFree(ms, clique, index) <==>
                    0 <= index && index !in taken && forall i :: 0 <= i < index ==> i in taken)
              && (Full(api.cfg.max, ms, clique) <==> forall i :: 0 <= i < api.cfg.max ==> i in taken)
    {
      UsesByMember(ms, clique);
      var taken := set m | m in ms && m.clique == clique :: m.index;
      assert forall i :: i in taken <==> Uses(ms, clique, i);
    }

    /** The least index no member of the clique has; an error exactly when the clique is full. */
    method GetNextAvailableIndex(ms: Members) returns (r: Result<nat>)
      requires api.cfg.scope.Some? ==> AllOf(cliqueID, ms)
      ensures r.Ok? ==> LeastFree(ms, cliqueID, r.value) && r.value < api.cfg.max
      ensures r.Err? <==> Full(api.cfg.max, ms, cliqueID)
    {
      var used := UsedIndices(ms);
      var next := 0;
      while next in used
        invariant 0 <= next && Range(next) <= used
        decreases |used| - next
      {
        SubsetSize(Range(next + 1), used);
        next := next + 1;
      }
      assert forall i :: 0 <= i < next ==> i in Range(next);
      if next < 0 || next >= api.cfg.max { return Err("no available indices within maxNodesPerIMEXDomain"); }
      r := Ok(next);
    }

    lemma UsesByMember(ms: Members, clique: string)
      ensures forall i :: Uses(ms, clique, i) <==> exists m :: m in ms && m.clique == clique && m.index == i
    {
      forall i | exists m :: m in ms && m.clique == clique && m.index == i ensures Uses(ms, clique, i) {
        var m :| m in ms && m.clique == clique && m.index == i;
        var k :| 0 <= k < |ms| && ms[k] == m;
      }
      forall i | Uses(ms, clique, i) ensures exists m :: m in ms && m.clique == clique && m.index == i {
        var k :| 0 <= k < |ms| && ms[k].clique == clique && ms[k].index == i;
        assert ms[k] in ms;
      }
    }

    // ------------------------------------------------------------- own entry

    method FindOwn(ms: Members) returns (k: int)
      ensures k == PositionOf(ms, nodeName)
    {
      for n := 0 to |ms|
        invariant forall j :: 0 <= j < n ==> ms[j].node != nodeName
      {
        if ms[n].node == nodeName { return n; }
      }
      k := -1;
    }

    /** The list with this daemon's entry inserted, or with its address replaced. */
    ghost predicate Synced(ms: Members, next: Members)
    {
      var k := PositionOf(ms, nodeName);
      if k != -1 then next == ms[k := ms[k].(ip := podIP)]
      else
        exists i :: LeastFree(ms, cliqueID, i) && i < api.cfg.max
          && next == ms + [Member(nodeName, podIP, cliqueID, i, false)]
    }

    /** Nothing to do: the first entry of this node has this pod's address. */
    predicate UpToDate(ms: Members)
    {
      var k := PositionOf(ms, nodeName);
      k != -1 && ms[k].ip == podIP
    }

    /**
     * Inserts this daemon with the least free index or corrects its address. It writes only onto the version it read,
     * changes no other entry, and without an index to take it writes nothing.
     */
    method SyncDaemonInfo() returns (r: Result<Members>)
      requires Valid() && cached.Some?
      modifies `cached, api
      ensures Valid() && (api.log == old(api.log) || (old(cached).value.rv == |old(api.log)| - 1
                && exists next :: Synced(old(cached).value.members, next) && api.log == old(api.log) + [Some(next)]))
      ensures UpToDate(old(cached).value.members) ==> r == Ok(old(cached).value.members) && api.log == old(api.log)
      ensures r.Ok? && !UpToDate(old(cached).value.members) ==>
                Synced(old(cached).value.members, r.value) && api.log == old(api.log) + [Some(r.value)]
                && cached == Some(Versioned(|old(api.log)|, r.value))
      ensures !Named(old(cached).value.members, nodeName) && Full(api.cfg.max, old(cached).value.members, cliqueID) ==>
                r.Err? && api.log == old(api.log)
    {
      var rv, ms := cached.value.rv, cached.value.members;
      EveryVersionIsConsistent(api.cfg, api.log, rv);
      var k := FindOwn(ms);
      if k != -1 && ms[k].ip == podIP { return Ok(ms); }
      var next: Members;
      ghost var w: Write;
      if k == -1 {
        var index := GetNextAvailableIndex(ms);
        if index.Err? { return Err(index.message); }
        var m := Member(nodeName, podIP, cliqueID, index.value, false);
        next, w := ms + [m], Join(m);
      } else {
        next, w := ms[k := ms[k].(ip := podIP)], Touch(k, podIP, ms[k].ready);
      }
      assert Synced(ms, next);
      var updated := api.Update(rv, next, w);
      if updated.Err? { return Err(updated.message); }
      cached := Some(Versioned(updated.value, next));
      r := Ok(next);
    }

    method UpdateDaemonStatus(ready: bool) returns (ok: bool)
      requires Valid()
      modifies `cached, api
      ensures Valid()
      ensures old(cached).None? || !Named(old(cached).value.members, nodeName) ==> !ok && api.log == old(api.log)
      ensures api.log == old(api.log) || (old(cached).Some? && old(cached).value.rv == |old(api.log)| - 1
                && Named(old(cached).value.members, nodeName)
                && var ms, k := old(cached).value.members, PositionOf(old(cached).value.members, nodeName);
                ms[k].ready != ready && api.log == old(api.log) + [Some(ms[k := ms[k].(ready := ready)])])
      ensures ok ==>
          cached.Some? && Named(cached.value.members, nodeName)
            && cached.value.members[PositionOf(cached.value.members, nodeName)].ready == ready
    {
      if cached.None? { return false; }
      var rv, ms := cached.value.rv, cached.value.members;
      var k := FindOwn(ms);
      if k == -1 { return false; }
      if ms[k].ready == ready { return true; }
      var next := ms[k := ms[k].(ready := ready)];
      var updated := api.Update(rv, next, Touch(k, ms[k].ip, ready));
      if updated.Err? { return false; }
      cached := Some(Versioned(updated.value, next));
      assert next[k].node == nodeName;
      assert PositionOf(next, nodeName) == k;
      ok := true;
    }

    /**
     * Leaves: every entry with this pod's address goes, and nothing else. Only the shared list is spared a write that
     * removes nothing.
     */
    method RemoveDaemonInfo() returns (ok: bool)
      requires Valid()
      modifies `cached, api
      ensures Valid()
      ensures old(cached).None? ==> ok && api.log == old(api.log)
      ensures api.log == old(api.log) || (old(cached).Some? && old(cached).value.rv == |old(api.log)| - 1
                && exists next :: IsPart(next, old(cached).value.members, (m: Member) => m.ip != podIP)
                     && api.log == old(api.log) + [Some(next)])
      ensures ok && old(cached).Some? ==> cached.Some? && forall m :: m in cached.value.members <==>
          m in old(cached).value.members && m.ip != podIP
    {
      if cached.None? { return true; }
      var rv, ms := cached.value.rv, cached.value.members;
      var next: Members := [];
      for n := 0 to |ms|
        invariant next == Filter(ms[..n], NotAt(podIP))
      {
        assert ms[..n + 1][..n] == ms[..n];
        if ms[n].ip != podIP {
          next := next + [ms[n]];
        }
      }
      assert ms[..|ms|] == ms;
      FilterOfSameSize(ms, NotAt(podIP));
      FilterIsPart(ms, NotAt(podIP), (m: Member) => m.ip != podIP);
      if api.cfg.scope.None? && |next| == |ms| { return true; }
      var updated := api.Update(rv, next, Drop(NotAt(podIP)));
      if updated.Err? { return false; }
      cached := Some(Versioned(updated.value, next));
      ok := true;
    }

    // ------------------------------------------------------------------ pushes

    method IPSet(ms: Members) returns (ips: set<string>)
      ensures forall ip :: ip in ips <==> exists k :: 0 <= k < |ms| && Counts(ms[k]) && ms[k].ip == ip
    {
      ips := {};
      for n := 0 to |ms|
        invariant forall ip :: ip in ips <==> exists k :: 0 <= k < n && Counts(ms[k]) && ms[k].ip == ip
      {
        if Counts(ms[n]) {
          ips := ips + {ms[n].ip};
        }
      }
    }

    predicate Counts(m: Member) { api.cfg.scope.Some? || m.clique == cliqueID }

    /** Pushes a list exactly when its IP set is not the one pushed last. */
    method MaybePushDaemonsUpdate(ms: Members)
      requires api.cfg.scope.Some? ==> AllOf(cliqueID, ms) && AllOf(cliqueID, previous)
      modifies `previous, `pushed
      ensures if SameIPs(ms, old(previous), cliqueID) then pushed == old(pushed) && previous == old(previous)
              else pushed == old(pushed) + [ms] && previous == ms
      ensures var ips := set m | m in ms && m.clique == cliqueID :: m.ip;
              var before := set m | m in old(previous) && m.clique == cliqueID :: m.ip;
              pushed == if ips == before then old(pushed) else old(pushed) + [ms]
    {
      var newIPs := IPSet(ms);
      var previousIPs := IPSet(previous);
      IPSetsAgree(ms, newIPs);
      IPSetsAgree(previous, previousIPs);
      if forall ip :: ip in newIPs <==> ip in previousIPs { assert newIPs == previousIPs; }
      assert newIPs == set m | m in ms && m.clique == cliqueID :: m.ip;
      assert previousIPs == set m | m in previous && m.clique == cliqueID :: m.ip;
      if newIPs != previousIPs {
        previous := ms;
        pushed := pushed + [ms];
      }
    }

    lemma IPSetsAgree(ms: Members, ips: set<string>)
      requires api.cfg.scope.Some? ==> AllOf(cliqueID, ms)
      requires forall ip :: ip in ips <==> exists k :: 0 <= k < |ms| && Counts(ms[k]) && ms[k].ip == ip
      ensures forall ip :: ip in ips <==> HasIP(ms, cliqueID, ip)
    {
    }
  }

  // ----------------------------------------------------- any number of daemons

  /** What a daemon may be made to do next: by its informer, its readiness probe, or its end. */
  datatype Call = Deliver(rv: nat) | Ensure | Sync | Report(ready: bool) | Leave

  /** One daemon moves. Whatever it writes, every daemon's view is still a version of the object. */
  method Move(api: ApiObject, daemons: seq<DaemonManager>, mover: DaemonManager, call: Call)
    requires mover in daemons && forall d :: d in daemons ==> d.api == api && d.Valid()
    modifies mover`cached, api
    ensures (forall d :: d in daemons ==> d.Valid()) && old(api.log) <= api.log
  {
    match call {
      case Deliver(rv) => if rv < |api.log| { mover.Refresh(rv); }
      case Ensure => var _ := mover.EnsureCliqueExists();
      case Sync => if mover.cached.Some? { var _ := mover.SyncDaemonInfo(); }
      case Report(ready) => var _ := mover.UpdateDaemonStatus(ready);
      case Leave => var _ := mover.RemoveDaemonInfo();
    }
    forall d | d in daemons && d != mover ensures d.Valid() { d.SurvivesOthers(); }
  }

  /** Any number of daemons, any order of their calls: the object only ever grows by versions that are consistent. */
  method RunDaemons(api: ApiObject, daemons: seq<DaemonManager>, calls: seq<(DaemonManager, Call)>)
    requires api.Valid() && forall d :: d in daemons ==> d.api == api && d.Valid()
    requires forall n :: 0 <= n < |calls| ==> calls[n].0 in daemons
    modifies api, daemons
    ensures (forall d :: d in daemons ==> d.Valid()) && old(api.log) <= api.log
    ensures forall v :: 0 <= v < |api.log| && api.log[v].Some? ==> Consistent(api.cfg.max, api.log[v].value)
  {
    for n := 0 to |calls|
      invariant api.Valid() && (forall d :: d in daemons ==> d.Valid()) && old(api.log) <= api.log
    {
      Move(api, daemons, calls[n].0, calls[n].1);
    }
    forall v | 0 <= v < |api.log| && api.log[v].Some? ensures Consistent(api.cfg.max, api.log[v].value) {
      EveryVersionIsConsistent(api.cfg, api.log, v);
    }
  }

  lemma LastOfSameSize(ms: Members, rest: Members, last: Member, kept: Members, keeps: bool)
    requires ms == rest + [last] && |kept| <= |rest| && (|kept| == |rest| ==> kept == rest)
    ensures |kept + if keeps then [last] else []| == |ms| ==> kept + (if keeps then [last] else []) == ms
  {
  }

  lemma {:induction false} FilterOfSameSize(ms: Members, keep: Keep)
    ensures |Filter(ms, keep)| == |ms| ==> Filter(ms, keep) == ms
  {
    if ms != [] {
      var rest, last := ms[..|ms| - 1], ms[|ms| - 1];
      FilterOfSameSize(rest, keep);
      LastOfSameSize(ms, rest, last, Filter(rest, keep), Keeps(keep, last));
    }
  }

  lemma ConsideredUsesTheSame(ms: Members, considered: Members, clique: string)
    requires considered == Filter(ms, OfClique(clique)) || considered == ms
    ensures forall i :: i in Indices(considered, clique) <==> Uses(ms, clique, i)
  {
  }

  // ------------------------------------------------------------------ controller

  datatype Pod = Pod(nodeName: string, podIP: string, ready: bool)

  ghost predicate HasAddress(pods: seq<Pod>, ip: string)
  {
    exists p :: p in pods && p.podIP != "" && p.podIP == ip
  }

  ghost predicate RunsAPod(pods: seq<Pod>, node: string)
  {
    exists p :: p in pods && p.nodeName != "" && p.nodeName == node
  }

  /** One entry per pod that is placed and has an address, outside any clique and without an index. */
  function NodesFromPods(pods: seq<Pod>): Members
  {
    if pods == [] then []
    else
      var p := pods[|pods| - 1];
      NodesFromPods(pods[..|pods| - 1]) + NodeOf(p)
  }

  function NodeOf(p: Pod): Members
  {
    if p.nodeName == "" || p.podIP == "" then [] else [Member(p.nodeName, p.podIP, "", -1, p.ready)]
  }

  /** The entry is one that a pod gives rise to. */
  predicate IsPlaced(m: Member) { m.node != "" && m.ip != "" && m.clique == "" && m.index == -1 }

  /** As often as there are such pods. */
  lemma NodesFromPodsCounts(pods: seq<Pod>, m: Member)
    ensures multiset(NodesFromPods(pods))[m]
         == if m.node != "" && m.ip != "" && m.clique == "" && m.index == -1
            then multiset(pods)[Pod(m.node, m.ip, m.ready)] else 0
  {
    PodsCount(pods, m, Pod(m.node, m.ip, m.ready), IsPlaced(m));
  }

  lemma {:induction false} PodsCount(pods: seq<Pod>, m: Member, p: Pod, placed: bool)
    requires p == Pod(m.node, m.ip, m.ready) && (placed <==> IsPlaced(m))
    ensures multiset(NodesFromPods(pods))[m] == if placed then multiset(pods)[p] else 0
  {
    if pods != [] {
      var rest, last := pods[..|pods| - 1], pods[|pods| - 1];
      PodsCount(rest, m, p, placed);
      OnePodCounts(last, m, p, placed);
      CountsAddUp(NodesFromPods(rest), NodeOf(last), m);
      CountsAddUp(rest, [last], p);
      assert rest + [last] == pods;
    }
  }

  lemma CountsAddUp<T>(a: seq<T>, b: seq<T>, x: T)
    ensures multiset(a + b)[x] == multiset(a)[x] + multiset(b)[x]
  {
  }

  lemma OnePodCounts(last: Pod, m: Member, p: Pod, placed: bool)
    requires p == Pod(m.node, m.ip, m.ready) && (placed <==> IsPlaced(m))
    ensures multiset(NodeOf(last))[m] == if placed then multiset([last])[p] else 0
  {
  }

  lemma NodesFromPodsAre(pods: seq<Pod>)
    ensures forall m :: m in NodesFromPods(pods) <==>
              m.node != "" && m.ip != "" && m.clique == "" && m.index == -1 && Pod(m.node, m.ip, m.ready) in pods
  {
    forall m ensures m in NodesFromPods(pods) <==>
        m.node != "" && m.ip != "" && m.clique == "" && m.index == -1 && Pod(m.node, m.ip, m.ready) in pods {
      NodesFromPodsCounts(pods, m);
      assert m in NodesFromPods(pods) <==> multiset(NodesFromPods(pods))[m] > 0;
      assert Pod(m.node, m.ip, m.ready) in pods <==> multiset(pods)[Pod(m.node, m.ip, m.ready)] > 0;
    }
  }

  class ClusterController {
    const api: ApiObject

    constructor (api: ApiObject)
      ensures this.api == api
    {
      this.api := api;
    }

    method RunningNodes(pods: seq<Pod>) returns (runningNodes: set<string>)
      ensures forall node :: node in runningNodes <==> RunsAPod(pods, node)
    {
      runningNodes := {};
      for n := 0 to |pods|
        invariant forall node :: node in runningNodes <==> RunsAPod(pods[..n], node)
      {
        assert pods[..n + 1] == pods[..n] + [pods[n]];
        if pods[n].nodeName != "" {
          runningNodes := runningNodes + {pods[n].nodeName};
        }
      }
      assert pods[..|pods|] == pods;
    }

    /**
     * Removes the members of a clique object whose node runs no daemon pod, and only those, and writes if there is one.
     * `failed` is whether an error was logged.
     */
    method CleanupClique(rv: nat, ms: Members, pods: seq<Pod>) returns (ghost failed: bool)
      requires api.Valid() && IsVersion(api.log, Some(Versioned(rv, ms)))
      modifies api
      ensures api.Valid()
      ensures api.log == old(api.log) || (rv == |old(api.log)| - 1
                && exists next :: api.log == old(api.log) + [Some(next)] && IsPart(next, ms, (m: Member) =>
                     exists p :: p in pods && p.nodeName != "" && p.nodeName == m.node))
      ensures !failed ==> (api.log != old(api.log) <==>
                exists m :: m in ms && forall p :: p in pods && p.nodeName != "" ==> p.nodeName != m.node)
    {
      var runningNodes := RunningNodes(pods);
      FilterIsPart(ms, On(runningNodes), (m: Member) =>
        exists p :: p in pods && p.nodeName != "" && p.nodeName == m.node);
      var updated: Members, removed: Members := [], [];
      for n := 0 to |ms|
        invariant updated == Filter(ms[..n], On(runningNodes))
        invariant forall m :: m in removed <==> m in ms[..n] && m.node !in runningNodes
      {
        assert ms[..n + 1][..n] == ms[..n];
        if ms[n].node in runningNodes {
          updated := updated + [ms[n]];
        } else {
          removed := removed + [ms[n]];
        }
      }
      assert ms[..|ms|] == ms;
      if |removed| == 0 { return false; }
      assert removed[0] in removed;
      var written := api.Update(rv, updated, Drop(On(runningNodes)));
      failed := written.Err?;
    }

    method BuildNodesFromPods(pods: seq<Pod>) returns (nodes: Members)
      ensures nodes == NodesFromPods(pods)
      ensures forall m :: m in nodes <==>
          m.node != "" && m.ip != "" && m.clique == "" && m.index == -1 && Pod(m.node, m.ip, m.ready) in pods
    {
      NodesFromPodsAre(pods);
      nodes := [];
      for n := 0 to |pods|
        invariant nodes == NodesFromPods(pods[..n])
      {
        assert pods[..n + 1][..n] == pods[..n];
        if pods[n].nodeName == "" || pods[n].podIP == "" { continue; }
        nodes := nodes + [Member(pods[n].nodeName, pods[n].podIP, "", -1, pods[n].ready)];
      }
      assert pods[..|pods|] == pods;
    }

    /** Fabric members whose address some fabric pod has. */
    method GetNonStaleFabricNodes(nodes: Members, fabricPods: seq<Pod>)
      returns (kept: Members, fabricPodIPs: set<string>)
      ensures kept == Filter(nodes, FabricAt(fabricPodIPs))
      ensures IsPart(kept, nodes, (m: Member) =>
                m.clique != "" && exists p :: p in fabricPods && p.podIP != "" && p.podIP == m.ip)
    {
      fabricPodIPs := {};
      for n := 0 to |fabricPods|
        invariant forall ip :: ip in fabricPodIPs <==> HasAddress(fabricPods[..n], ip)
      {
        assert fabricPods[..n + 1] == fabricPods[..n] + [fabricPods[n]];
        if fabricPods[n].podIP != "" {
          fabricPodIPs := fabricPodIPs + {fabricPods[n].podIP};
        }
      }
      assert fabricPods[..|fabricPods|] == fabricPods;
      FilterIsPart(nodes, FabricAt(fabricPodIPs), (m: Member) =>
        m.clique != "" && exists p :: p in fabricPods && p.podIP != "" && p.podIP == m.ip);
      kept := [];
      for n := 0 to |nodes|
        invariant kept == Filter(nodes[..n], FabricAt(fabricPodIPs))
      {
        assert nodes[..n + 1][..n] == nodes[..n];
        if nodes[n].clique == "" { continue; }
        if nodes[n].ip in fabricPodIPs {
          kept := kept + [nodes[n]];
        }
      }
      assert nodes[..|nodes|] == nodes;
    }

    method ByName(nodes: Members) returns (m: map<string, Member>)
      ensures m == LastByName(nodes)
    {
      m := map[];
      for n := 0 to |nodes|
        invariant m == LastByName(nodes[..n])
      {
        assert nodes[..n + 1][..n] == nodes[..n];
        m := m[nodes[n].node := nodes[n]];
      }
      assert nodes[..|nodes|] == nodes;
    }

    /**
     * Rebuilds the shared list, unless that would change nothing: fabric members that still have a pod, then the pods
     * outside any fabric.
     */
    method SyncCD(rv: nat, nodes: Members, fabricPods: seq<Pod>, nonFabricPods: seq<Pod>)
      returns (ghost failed: bool)
      requires api.Valid() && IsVersion(api.log, Some(Versioned(rv, nodes))) && api.cfg.scope.None?
      modifies api
      ensures api.Valid()
      ensures exists kept :: IsPart(kept, nodes, (m: Member) =>
                m.clique != "" && exists p :: p in fabricPods && p.podIP != "" && p.podIP == m.ip)
                && (api.log == old(api.log) || (rv == |old(api.log)| - 1
                      && api.log == old(api.log) + [Some(kept + NodesFromPods(nonFabricPods))]))
                && (!failed ==> (api.log != old(api.log) <==>
                      LastByName(nodes) != LastByName(kept + NodesFromPods(nonFabricPods))))
    {
      var fabricNodes, ips := GetNonStaleFabricNodes(nodes, fabricPods);
      var nonFabricNodes := BuildNodesFromPods(nonFabricPods);
      var newNodes := fabricNodes + nonFabricNodes;
      var a := ByName(nodes);
      var b := ByName(newNodes);
      if a == b { return false; }
      var written := api.Update(rv, newNodes, Resync(ips, nonFabricNodes));
      failed := written.Err?;
    }
  }

  function LastByName(nodes: Members): map<string, Member>
  {
    if nodes == [] then map[]
    else LastByName(nodes[..|nodes| - 1])[nodes[|nodes| - 1].node := nodes[|nodes| - 1]]
  }

  /** What two lists are compared by: the last member of each name. */
  lemma {:induction false} LastByNameIsLast(nodes: Members, name: string)
    ensures name in LastByName(nodes) <==> exists k :: 0 <= k < |nodes| && nodes[k].node == name
    ensures name in LastByName(nodes) ==>
              exists k :: 0 <= k < |nodes| && nodes[k].node == name && LastByName(nodes)[name] == nodes[k]
                            && forall j :: k < j < |nodes| ==> nodes[j].node != name
  {
    if nodes != [] {
      var rest, n := nodes[..|nodes| - 1], |nodes| - 1;
      LastByNameIsLast(rest, name);
      if nodes[n].node != name && name in LastByName(rest) {
        var k :| 0 <= k < |rest| && rest[k].node == name && LastByName(rest)[name] == rest[k]
                  && forall j :: k < j < |rest| ==> rest[j].node != name;
        assert forall j :: k < j < n ==> nodes[j] == rest[j];
        assert nodes[k] == rest[k];
      } else {
        assert nodes[n].node == name || name !in LastByName(nodes);
      }
    }
  }
}
