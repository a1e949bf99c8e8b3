/**
 * The member list of an IMEX domain: one API object that many daemons and the controller read and
 * rewrite under optimistic concurrency. A history lists every version the object ever had; a version
 * exists only if some writer made it from the version right before it, however old the other reads were.
 */
module Membership {
  import opened Text

  datatype Member = Member(node: string, ip: string, clique: string, index: int, ready: bool)

  type Members = seq<Member>

  /** Which members a removal leaves in place. */
  datatype Keep = NotAt(ip: string) | On(nodes: set<string>) | FabricAt(ips: set<string>) | OfClique(clique: string)

  predicate Keeps(keep: Keep, m: Member)
  {
    match keep
    case NotAt(ip) => m.ip != ip
    case On(nodes) => m.node in nodes
    case FabricAt(ips) => m.clique != "" && m.ip in ips
    case OfClique(c) => m.clique == c
  }

  function Filter(ms: Members, keep: Keep): (kept: Members)
    ensures |kept| <= |ms|
    ensures forall m {:trigger m in kept} :: m in kept <==> m in ms && Keeps(keep, m)
  {
    if ms == [] then []
    else
      var last := ms[|ms| - 1];
      Filter(ms[..|ms| - 1], keep) + if Keeps(keep, last) then [last] else []
  }

  /** The members with the property, each as often as it was listed. */
  ghost predicate IsPart(kept: Members, ms: Members, p: Member -> bool)
  {
    forall m {:trigger multiset(kept)[m]} :: multiset(kept)[m] == if p(m) then multiset(ms)[m] else 0
  }

  lemma {:induction false} FilterCounts(ms: Members, keep: Keep, m: Member)
    ensures multiset(Filter(ms, keep))[m] == if Keeps(keep, m) then multiset(ms)[m] else 0
  {
    if ms != [] {
      var rest, last := ms[..|ms| - 1], ms[|ms| - 1];
      FilterCounts(rest, keep, m);
      assert ms == rest + [last];
    }
  }

  lemma FilterIsPart(ms: Members, keep: Keep, p: Member -> bool)
    requires forall m :: Keeps(keep, m) <==> p(m)
    ensures IsPart(Filter(ms, keep), ms, p)
  {
    forall m ensures multiset(Filter(ms, keep))[m] == if p(m) then multiset(ms)[m] else 0 {
      FilterCounts(ms, keep, m);
    }
  }

  /** And in their order. */
  lemma {:induction false} FilterIsInOrder(a: Members, b: Members, keep: Keep)
    ensures Filter(a + b, keep) == Filter(a, keep) + Filter(b, keep)
    decreases |b|
  {
    if b == [] {
      assert a + b == a;
    } else {
      FilterIsInOrder(a, b[..|b| - 1], keep);
      assert (a + b)[..|a + b| - 1] == a + b[..|b| - 1];
    }
  }

  predicate Named(ms: Members, node: string)
  {
    exists k :: 0 <= k < |ms| && ms[k].node == node
  }

  predicate Uses(ms: Members, clique: string, index: int)
  {
    exists k :: 0 <= k < |ms| && ms[k].clique == clique && ms[k].index == index
  }

  ghost predicate LeastFree(ms: Members, clique: string, index: int)
  {
    0 <= index && !Uses(ms, clique, index) && forall i :: 0 <= i < index ==> Uses(ms, clique, i)
  }

  /** No index below max is free in the clique. */
  ghost predicate Full(max: nat, ms: Members, clique: string)
  {
    forall i :: 0 <= i < max ==> Uses(ms, clique, i)
  }

  // ----------------------------------------------------------------- the writes

  datatype Write =
    | Join(m: Member)
    | Touch(k: nat, ip: string, ready: bool)
    | Drop(keep: Keep)
    | Resync(ips: set<string>, plain: Members)

  /** What one writer may make of the list it read. */
  ghost predicate Edits(max: nat, ms: Members, w: Write, next: Members)
  {
    match w
    case Join(m) =>
      && next == ms + [m] && !m.ready && !Named(ms, m.node) && LeastFree(ms, m.clique, m.index)
        && (m.clique != "" ==> m.index < max)
    case Touch(k, ip, ready) => k < |ms| && next == ms[k := ms[k].(ip := ip, ready := ready)]
    case Drop(keep) => next == Filter(ms, keep)
    case Resync(ips, plain) => next == Filter(ms, FabricAt(ips)) + plain && forall m :: m in plain ==> m.clique == ""
  }

  /**
   * `scope` is None for the node list in a ComputeDomain's status, which all cliques share, and Some(c) for the
   * ComputeDomainClique object of clique c, which only daemons of that clique join and which is never rebuilt.
   */
  datatype Config = Config(max: nat, scope: Option<string>)

  predicate InScope(cfg: Config, w: Write)
  {
    cfg.scope.Some? ==> !w.Resync? && (w.Join? ==> w.m.clique == cfg.scope.value)
  }

  ghost predicate Follows(cfg: Config, before: Option<Members>, after: Option<Members>)
  {
    match (before, after)
    case (None, Some(ms)) => ms == []
    case (None, None) => false
    case (Some(_), None) => true
    case (Some(ms), Some(next)) => exists w :: InScope(cfg, w) && Edits(cfg.max, ms, w, next)
  }

  /** Every version of the object in order; None stands for its deletion. A resource version is a position. */
  type Log = seq<Option<Members>>

  function Current(log: Log): Option<Members> { if log == [] then None else log[|log| - 1] }

  ghost predicate History(cfg: Config, log: Log)
    decreases |log|
  {
    log == [] || (History(cfg, log[..|log| - 1]) && Follows(cfg, Current(log[..|log| - 1]), log[|log| - 1]))
  }

  lemma VersionFollows(cfg: Config, log: Log, v: nat)
    requires History(cfg, log) && v < |log|
    ensures Follows(cfg, if v == 0 then None else log[v - 1], log[v])
  {
  }

  lemma HistoryGrows(cfg: Config, log: Log, next: Option<Members>)
    requires History(cfg, log) && Follows(cfg, Current(log), next)
    ensures History(cfg, log + [next])
  {
  }

  lemma WriteGrows(cfg: Config, log: Log, ms: Members, w: Write, next: Members)
    requires History(cfg, log) && Current(log) == Some(ms) && InScope(cfg, w) && Edits(cfg.max, ms, w, next)
    ensures History(cfg, log + [Some(next)])
  {
  }

  // ------------------------------------------------------------------ invariant

  /** Fabric members have distinct nodes; within a clique they have distinct indices, all below max. */
  ghost predicate Consistent(max: nat, ms: Members)
  {
    && (forall k :: 0 <= k < |ms| && ms[k].clique != "" ==> 0 <= ms[k].index < max)
    && (forall j, k :: 0 <= j < k < |ms| && ms[j].clique != "" && ms[k].clique != "" ==>
          ms[j].node != ms[k].node && (ms[j].clique == ms[k].clique ==> ms[j].index != ms[k].index))
  }

  ghost predicate AllOf(clique: string, ms: Members)
  {
    forall m :: m in ms ==> m.clique == clique
  }

  lemma ConsistentAppend(max: nat, ms: Members, last: Member)
    requires Consistent(max, ms) && (last.clique != "" ==> 0 <= last.index < max)
    requires forall m :: m in ms && m.clique != "" && last.clique != "" ==>
        m.node != last.node && (m.clique == last.clique ==> m.index != last.index)
    ensures Consistent(max, ms + [last])
  {
  }

  lemma {:induction false} FilterKeepsConsistent(max: nat, ms: Members, keep: Keep)
    requires Consistent(max, ms)
    ensures Consistent(max, Filter(ms, keep))
  {
    if ms != [] {
      var rest, last := ms[..|ms| - 1], ms[|ms| - 1];
      FilterKeepsConsistent(max, rest, keep);
      if Keeps(keep, last) {
        ConsistentAppend(max, Filter(rest, keep), last);
      }
    }
  }

  lemma EditKeepsConsistent(cfg: Config, ms: Members, w: Write, next: Members)
    requires Consistent(cfg.max, ms) && InScope(cfg, w) && Edits(cfg.max, ms, w, next)
    ensures Consistent(cfg.max, next)
    ensures cfg.scope.Some? && AllOf(cfg.scope.value, ms) ==> AllOf(cfg.scope.value, next)
  {
    match w
    case Drop(keep) => FilterKeepsConsistent(cfg.max, ms, keep);
    case Resync(ips, plain) => FilterKeepsConsistent(cfg.max, ms, FabricAt(ips));
    case Join(m) =>
      assert forall k :: 0 <= k < |ms| && ms[k].clique == m.clique ==> ms[k].index != m.index;
    case Touch(k, ip, ready) =>
      assert forall m :: m in next ==> m.clique == ms[k].clique || m in ms;
      assert ms[k] in ms;
  }

  /** Every version of every history is consistent; in a clique object all members are of its clique. */
  lemma {:induction false} EveryVersionIsConsistent(cfg: Config, log: Log, v: nat)
    requires History(cfg, log) && v < |log| && log[v].Some?
    ensures Consistent(cfg.max, log[v].value)
    ensures cfg.scope.Some? ==> AllOf(cfg.scope.value, log[v].value)
    decreases |log|
  {
    var rest := log[..|log| - 1];
    if v < |rest| {
      EveryVersionIsConsistent(cfg, rest, v);
    } else if v > 0 && log[v - 1].Some? {
      EveryVersionIsConsistent(cfg, rest, v - 1);
      var w :| InScope(cfg, w) && Edits(cfg.max, log[v - 1].value, w, log[v].value);
      EditKeepsConsistent(cfg, log[v - 1].value, w, log[v].value);
    }
  }

  // ------------------------------------------------------------- how many fit

  function Range(n: nat): (r: set<int>)
    ensures |r| == n && forall i :: i in r <==> 0 <= i < n
  {
    if n == 0 then {} else Range(n - 1) + {n - 1}
  }

  lemma SubsetSize(a: set<int>, b: set<int>)
    requires a <= b
    ensures |a| <= |b| && (|a| == |b| ==> a == b)
  {
    assert b == a + (b - a);
  }

  function Indices(ms: Members, clique: string): set<int>
  {
    if ms == [] then {}
    else
      var last := ms[|ms| - 1];
      Indices(ms[..|ms| - 1], clique) + if last.clique == clique then {last.index} else {}
  }

  lemma {:induction false} IndicesAreUsed(ms: Members, clique: string, i: int)
    ensures i in Indices(ms, clique) <==> Uses(ms, clique, i)
  {
    if ms != [] {
      var rest, last := ms[..|ms| - 1], ms[|ms| - 1];
      IndicesAreUsed(rest, clique, i);
      if Uses(rest, clique, i) {
        var k :| 0 <= k < |rest| && rest[k].clique == clique && rest[k].index == i;
        assert ms[k] == rest[k];
      }
      if last.clique == clique && i == last.index { assert ms[|ms| - 1] == last; }
    }
  }

  /** As many indices as members, when no two members share one. */
  lemma {:induction false} IndicesCount(max: nat, ms: Members, clique: string)
    requires Consistent(max, ms) && clique != ""
    ensures |Indices(ms, clique)| == |Filter(ms, OfClique(clique))|
    ensures Indices(ms, clique) <= Range(max)
  {
    if ms != [] {
      IndicesCount(max, ms[..|ms| - 1], clique);
      IndicesAreUsed(ms[..|ms| - 1], clique, ms[|ms| - 1].index);
    }
  }

  /** No more than max members of a clique, in any version of any history. */
  lemma CliqueFits(cfg: Config, log: Log, v: nat, clique: string)
    requires History(cfg, log) && v < |log| && log[v].Some? && clique != ""
    ensures |Filter(log[v].value, OfClique(clique))| <= cfg.max
  {
    var ms := log[v].value;
    EveryVersionIsConsistent(cfg, log, v);
    IndicesCount(cfg.max, ms, clique);
    SubsetSize(Indices(ms, clique), Range(cfg.max));
  }

  /** And a daemon finds no index exactly when max members of its clique are present. */
  lemma RefusedExactlyWhenFull(cfg: Config, log: Log, v: nat, clique: string)
    requires History(cfg, log) && v < |log| && log[v].Some? && clique != ""
    ensures Full(cfg.max, log[v].value, clique) <==> |Filter(log[v].value, OfClique(clique))| == cfg.max
  {
    var ms := log[v].value;
    EveryVersionIsConsistent(cfg, log, v);
    IndicesCount(cfg.max, ms, clique);
    SubsetSize(Indices(ms, clique), Range(cfg.max));
    forall i ensures i in Indices(ms, clique) <==> Uses(ms, clique, i) { IndicesAreUsed(ms, clique, i); }
    if Full(cfg.max, ms, clique) {
      SubsetSize(Range(cfg.max), Indices(ms, clique));
    }
  }

  // -------------------------------------------------------------- stable indices

  /** The fabric member of a node. */
  predicate IsAt(ms: Members, node: string, m: Member)
  {
    m in ms && m.node == node && m.clique != ""
  }

  lemma FabricMemberIsUnique(max: nat, ms: Members, node: string, a: Member, b: Member)
    requires Consistent(max, ms) && IsAt(ms, node, a) && IsAt(ms, node, b)
    ensures a == b
  {
  }

  /** A write that leaves the node listed leaves its clique and index alone. */
  lemma EditKeepsIndex(cfg: Config, ms: Members, w: Write, next: Members, node: string, a: Member, b: Member)
    requires Consistent(cfg.max, ms) && InScope(cfg, w) && Edits(cfg.max, ms, w, next) && IsAt(ms, node, a)
    requires IsAt(next, node, b)
    ensures a.index == b.index && a.clique == b.clique
  {
  }

  ghost predicate ListedThroughout(log: Log, v: nat, w: nat, node: string)
    requires v <= w < |log|
  {
    forall u :: v <= u <= w ==> ListedAt(log, u, node)
  }

  ghost predicate ListedAt(log: Log, u: nat, node: string)
    requires u < |log|
  {
    log[u].Some? && exists m :: IsAt(log[u].value, node, m)
  }

  /** A node keeps its clique and index for as long as it is listed without a break. */
  lemma {:induction false} IndexIsStable(cfg: Config, log: Log, v: nat, w: nat, node: string, a: Member, b: Member)
    requires History(cfg, log) && v <= w < |log| && ListedThroughout(log, v, w, node)
    requires log[v].Some? && IsAt(log[v].value, node, a) && log[w].Some? && IsAt(log[w].value, node, b)
    ensures a.index == b.index && a.clique == b.clique
    decreases w
  {
    EveryVersionIsConsistent(cfg, log, v);
    if v == w {
      FabricMemberIsUnique(cfg.max, log[v].value, node, a, b);
    } else {
      assert ListedAt(log, w - 1, node);
      var m :| IsAt(log[w - 1].value, node, m);
      IndexIsStable(cfg, log, v, w - 1, node, a, m);
      EveryVersionIsConsistent(cfg, log, w - 1);
      VersionFollows(cfg, log, w);
      var edit :| InScope(cfg, edit) && Edits(cfg.max, log[w - 1].value, edit, log[w].value);
      EditKeepsIndex(cfg, log[w - 1].value, edit, log[w].value, node, m, b);
    }
  }

  // ------------------------------------------------ what comparing IP sets misses

  ghost predicate HasIP(ms: Members, clique: string, ip: string)
  {
    exists m :: m in ms && m.clique == clique && m.ip == ip
  }

  ghost predicate SameIPs(a: Members, b: Members, clique: string)
  {
    forall ip :: HasIP(a, clique, ip) <==> HasIP(b, clique, ip)
  }

  ghost predicate DistinctIPs(ms: Members, clique: string)
  {
    forall a, b :: a in ms && b in ms && a.clique == clique && b.clique == clique && a.ip == b.ip ==> a == b
  }

  /** The address means the same index in both versions. */
  ghost predicate SameIndices(a: Members, b: Members, clique: string)
  {
    forall m, n :: m in a && n in b && m.clique == clique && n.clique == clique && m.ip == n.ip ==> m.index == n.index
  }

  /**
   * Members whose address is the same in two versions, and who were listed in between, kept their index. So an update
   * that is not pushed because the IP sets are equal has nothing to say, as long as nobody left or moved.
   */
  lemma StayingMembersKeepTheMapping(cfg: Config, log: Log, v: nat, w: nat, clique: string)
    requires History(cfg, log) && v <= w < |log| && log[v].Some? && log[w].Some? && clique != ""
    requires DistinctIPs(log[w].value, clique)
    requires forall m :: m in log[v].value && m.clique == clique ==>
               ListedThroughout(log, v, w, m.node) && exists n :: IsAt(log[w].value, m.node, n) && n.ip == m.ip
    ensures SameIndices(log[v].value, log[w].value, clique)
  {
    forall m, n | m in log[v].value && n in log[w].value && m.clique == clique && n.clique == clique && m.ip == n.ip
      ensures m.index == n.index
    {
      var n' :| IsAt(log[w].value, m.node, n') && n'.ip == m.ip;
      IndexIsStable(cfg, log, v, w, m.node, m, n');
    }
  }

  /** Two versions with the same addresses, at least one of which has another index in the later version. */
  ghost predicate HiddenChange(cfg: Config, log: Log, v: nat, w: nat, clique: string)
  {
    && History(cfg, log) && v < w < |log| && log[v].Some? && log[w].Some?
    && SameIPs(log[v].value, log[w].value, clique) && DistinctIPs(log[w].value, clique)
    && !SameIndices(log[v].value, log[w].value, clique)
  }

  /** Two members take each other's address, one after the other. */
  function Swapped(ms: Members, i: nat, j: nat): Members
    requires i < |ms| && j < |ms|
  {
    ms[i := ms[i].(ip := ms[j].ip)][j := ms[j].(ip := ms[i].ip)]
  }

  /** The member of `ms` whose address the k-th member has after the swap. */
  function Partner(i: nat, j: nat, k: nat): nat { if k == i then j else if k == j then i else k }

  lemma SwapExchanges(ms: Members, i: nat, j: nat, k: nat)
    requires i < |ms| && j < |ms| && i != j && k < |ms|
    ensures var m := Swapped(ms, i, j)[k];
            m.node == ms[k].node && m.clique == ms[k].clique && m.index == ms[k].index
              && m.ip == ms[Partner(i, j, k)].ip
  {
  }

  lemma SwapKeepsIPs(ms: Members, i: nat, j: nat, clique: string)
    requires i < |ms| && j < |ms| && i != j && ms[i].clique == ms[j].clique == clique
    ensures SameIPs(ms, Swapped(ms, i, j), clique)
  {
    var next := Swapped(ms, i, j);
    forall ip | HasIP(ms, clique, ip) ensures HasIP(next, clique, ip) {
      var m :| m in ms && m.clique == clique && m.ip == ip;
      var k :| 0 <= k < |ms| && ms[k] == m;
      SwapExchanges(ms, i, j, Partner(i, j, k));
      assert next[Partner(i, j, k)] in next;
    }
    forall ip | HasIP(next, clique, ip) ensures HasIP(ms, clique, ip) {
      var m :| m in next && m.clique == clique && m.ip == ip;
      var k :| 0 <= k < |next| && next[k] == m;
      SwapExchanges(ms, i, j, k);
      assert ms[Partner(i, j, k)] in ms;
    }
  }

  lemma SwapKeepsDistinctIPs(max: nat, ms: Members, i: nat, j: nat, clique: string)
    requires Consistent(max, ms) && clique != "" && DistinctIPs(ms, clique)
    requires i < |ms| && j < |ms| && i != j && ms[i].clique == ms[j].clique == clique
    ensures DistinctIPs(Swapped(ms, i, j), clique)
  {
    var next := Swapped(ms, i, j);
    forall a, b | a in next && b in next && a.clique == clique && b.clique == clique && a.ip == b.ip ensures a == b {
      var k :| 0 <= k < |next| && next[k] == a;
      var l :| 0 <= l < |next| && next[l] == b;
      SwapExchanges(ms, i, j, k);
      SwapExchanges(ms, i, j, l);
      assert ms[Partner(i, j, k)] in ms && ms[Partner(i, j, l)] in ms;
      assert ms[Partner(i, j, k)] == ms[Partner(i, j, l)];
    }
  }

  /** The history can go on so that its last version compares equal to the current one and means something else. */
  ghost predicate Hides(cfg: Config, log: Log, more: Log, clique: string)
  {
    log != [] && log <= more && HiddenChange(cfg, more, |log| - 1, |more| - 1, clique)
  }

  lemma SwapHidesAChange(cfg: Config, log: Log, ms: Members, i: nat, j: nat, clique: string) returns (more: Log)
    requires History(cfg, log) && log != [] && Current(log) == Some(ms) && clique != "" && DistinctIPs(ms, clique)
    requires i < |ms| && j < |ms| && ms[i].clique == ms[j].clique == clique && ms[i].ip != ms[j].ip
    ensures Hides(cfg, log, more, clique)
  {
    var m1, m2 := ms[i := ms[i].(ip := ms[j].ip)], Swapped(ms, i, j);
    EveryVersionIsConsistent(cfg, log, |log| - 1);
    WriteGrows(cfg, log, ms, Touch(i, ms[j].ip, ms[i].ready), m1);
    WriteGrows(cfg, log + [Some(m1)], m1, Touch(j, ms[i].ip, ms[j].ready), m2);
    SwapKeepsIPs(ms, i, j, clique);
    SwapKeepsDistinctIPs(cfg.max, ms, i, j, clique);
    assert ms[i] in ms && m2[j] in m2 && m2[j].ip == ms[i].ip;
    assert ms[i].index != ms[j].index;
    more := log + [Some(m1)] + [Some(m2)];
  }

  lemma {:induction false} NobodyStays(ms: Members)
    ensures Filter(ms, On({})) == []
  {
    if ms != [] { NobodyStays(ms[..|ms| - 1]); }
  }

  /** A member all on its own is gone, and whoever has its address now has another index. */
  lemma LoneAddressMoved(cfg: Config, log: Log, more: Log, ms: Members, k: nat, b: Member, clique: string)
    requires History(cfg, more) && log != [] && log <= more && |log| < |more| && Current(log) == Some(ms)
    requires k < |ms| && ms[k].clique == clique && forall m :: m in ms && m.clique == clique ==> m == ms[k]
    requires Current(more) == Some([b]) && b.clique == clique && b.ip == ms[k].ip && b.index != ms[k].index
    ensures Hides(cfg, log, more, clique)
  {
    assert ms[k] in ms && [b][0] in [b];
    assert log[|log| - 1] == more[|log| - 1];
    forall ip ensures HasIP(ms, clique, ip) <==> HasIP([b], clique, ip) {}
  }

  /** Its node rejoins and gets the lowest index. */
  lemma LoneHighHidesAChange(cfg: Config, log: Log, ms: Members, k: nat, clique: string) returns (more: Log)
    requires History(cfg, log) && log != [] && Current(log) == Some(ms) && clique != "" && cfg.max > 0
    requires cfg.scope.Some? ==> cfg.scope.value == clique
    requires k < |ms| && ms[k].clique == clique && forall m :: m in ms && m.clique == clique ==> m == ms[k]
    requires ms[k].index != 0
    ensures Hides(cfg, log, more, clique)
  {
    var b := Member(ms[k].node, ms[k].ip, clique, 0, false);
    NobodyStays(ms);
    WriteGrows(cfg, log, ms, Drop(On({})), []);
    WriteGrows(cfg, log + [Some([])], [], Join(b), [] + [b]);
    assert [] + [b] == [b];
    more := log + [Some([])] + [Some([b])];
    LoneAddressMoved(cfg, log, more, ms, k, b, clique);
  }

  lemma FirstLeaves(a: Member, b: Member)
    requires a.node != b.node
    ensures Filter([a, b], On({b.node})) == [b]
  {
    assert [a, b][..1] == [a] && [a][..0] == [];
    assert Filter([a], On({b.node})) == Filter([], On({b.node}));
  }

  lemma TwoJoin(cfg: Config, log: Log, a: Member, b: Member)
    requires History(cfg, log) && Current(log) == Some([]) && cfg.max > 1
    requires a.clique == b.clique && (cfg.scope.Some? ==> cfg.scope.value == a.clique)
    requires a.node != b.node && a.index == 0 && b.index == 1 && !a.ready && !b.ready
    ensures History(cfg, log + [Some([a])] + [Some([a, b])])
  {
    assert [] + [a] == [a] && [a] + [b] == [a, b];
    WriteGrows(cfg, log, [], Join(a), [a]);
    assert LeastFree([a], a.clique, 1) by { assert [a][0].index == 0; }
    WriteGrows(cfg, log + [Some([a])], [a], Join(b), [a, b]);
  }

  /** Somebody else takes its index first, and leaves again. */
  lemma LoneLowHidesAChange(cfg: Config, log: Log, ms: Members, k: nat, clique: string) returns (more: Log)
    requires History(cfg, log) && log != [] && Current(log) == Some(ms) && clique != "" && cfg.max > 1
    requires cfg.scope.Some? ==> cfg.scope.value == clique
    requires k < |ms| && ms[k].clique == clique && forall m :: m in ms && m.clique == clique ==> m == ms[k]
    requires ms[k].index == 0
    ensures Hides(cfg, log, more, clique)
  {
    var a, b := Member("a", "", clique, 0, false), Member("b", ms[k].ip, clique, 1, false);
    var joined := log + [Some([])] + [Some([a])] + [Some([a, b])];
    NobodyStays(ms);
    WriteGrows(cfg, log, ms, Drop(On({})), []);
    TwoJoin(cfg, log + [Some([])], a, b);
    FirstLeaves(a, b);
    WriteGrows(cfg, joined, [a, b], Drop(On({b.node})), [b]);
    more := joined + [Some([b])];
    LoneAddressMoved(cfg, log, more, ms, k, b, clique);
  }

  /** What a hidden change takes: a member to mean, and two indices to mean it by. */
  lemma HidingNeedsAMember(cfg: Config, log: Log, more: Log, ms: Members, clique: string)
    requires Hides(cfg, log, more, clique) && Current(log) == Some(ms) && clique != ""
    ensures cfg.max >= 2 && exists m :: m in ms && m.clique == clique
  {
    EveryVersionIsConsistent(cfg, more, |log| - 1);
    EveryVersionIsConsistent(cfg, more, |more| - 1);
    assert more[|log| - 1] == log[|log| - 1];
  }

  /**
   * Without that condition the push can be missed although the mapping is a different one. Exactly when, can be read
   * off the current version: it can be followed by one that compares equal and means something else if and only if
   * the clique has a member now and may have two.
   */
  lemma EqualIPSetsCanHideAChange(cfg: Config, log: Log, ms: Members, clique: string)
    requires History(cfg, log) && log != [] && Current(log) == Some(ms) && clique != "" && DistinctIPs(ms, clique)
    ensures (exists more :: Hides(cfg, log, more, clique)) <==>
        cfg.max >= 2 && exists m :: m in ms && m.clique == clique
  {
    if more :| Hides(cfg, log, more, clique) {
      HidingNeedsAMember(cfg, log, more, ms, clique);
    }
    if cfg.max >= 2 && exists m :: m in ms && m.clique == clique {
      var m :| m in ms && m.clique == clique;
      var k :| 0 <= k < |ms| && ms[k] == m;
      var more := AMemberCanHideAChange(cfg, log, ms, k, clique);
    }
  }

  lemma AMemberCanHideAChange(cfg: Config, log: Log, ms: Members, k: nat, clique: string) returns (more: Log)
    requires History(cfg, log) && log != [] && Current(log) == Some(ms) && clique != "" && DistinctIPs(ms, clique)
    requires cfg.max >= 2 && k < |ms| && ms[k].clique == clique
    ensures Hides(cfg, log, more, clique)
  {
    EveryVersionIsConsistent(cfg, log, |log| - 1);
    if n :| n in ms && n.clique == clique && n != ms[k] {
      var j :| 0 <= j < |ms| && ms[j] == n;
      more := SwapHidesAChange(cfg, log, ms, k, j, clique);
    } else {
      assert ms[k] in ms;
      if ms[k].index != 0 {
        more := LoneHighHidesAChange(cfg, log, ms, k, clique);
      } else {
        more := LoneLowHidesAChange(cfg, log, ms, k, clique);
      }
    }
  }
}
