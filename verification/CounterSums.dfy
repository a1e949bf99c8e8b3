/**
 * Counters of one GPU and what it means that the scheduler's sums fit. A share is what one device takes:
 * a capacity per dimension, and one unit of each memory slice of its placement.
 */
module CounterSums {
  import opened Text

  type Counters = map<string, nat>

  function MemsliceCounterName(i: nat): string { "memory-slice-" + Decimal(i) }

  lemma SliceNamesAreInjective(i: nat, j: nat)
    requires MemsliceCounterName(i) == MemsliceCounterName(j)
    ensures i == j
  {
    assert MemsliceCounterName(i)[13..] == Decimal(i) && MemsliceCounterName(j)[13..] == Decimal(j);
    ValueOfDecimal(i);
    ValueOfDecimal(j);
  }

  datatype Share = Share(caps: Counters, start: nat, size: nat)

  predicate Covers(s: Share, i: int) { s.start <= i < s.start + s.size }

  /** No capacity dimension has the name of a memory slice. */
  ghost predicate Plain(caps: Counters)
  {
    forall i: nat :: MemsliceCounterName(i) !in caps
  }

  function AddSlices(caps: Counters, start: nat, size: nat): Counters
    decreases size
  {
    if size == 0 then caps else AddSlices(caps, start, size - 1)[MemsliceCounterName(start + size - 1) := 1]
  }

  lemma {:induction false} SliceAdded(caps: Counters, start: nat, size: nat, i: nat)
    requires Plain(caps)
    ensures MemsliceCounterName(i) in AddSlices(caps, start, size) <==> start <= i < start + size
    ensures start <= i < start + size ==> AddSlices(caps, start, size)[MemsliceCounterName(i)] == 1
    decreases size
  {
    if size > 0 {
      SliceAdded(caps, start, size - 1, i);
      if MemsliceCounterName(i) == MemsliceCounterName(start + size - 1) {
        SliceNamesAreInjective(i, start + size - 1);
      }
    }
  }

  lemma {:induction false} OthersStay(caps: Counters, start: nat, size: nat, name: string)
    requires forall i: nat :: name != MemsliceCounterName(i)
    ensures name in AddSlices(caps, start, size) <==> name in caps
    ensures name in caps ==> AddSlices(caps, start, size)[name] == caps[name]
    decreases size
  {
    if size > 0 { OthersStay(caps, start, size - 1, name); }
  }

  function CountersOf(s: Share): Counters { AddSlices(s.caps, s.start, s.size) }

  /** addCountersForMemSlices: fills the map in place and returns it. */
  method AddCountersForMemSlices(caps: Counters, start: nat, size: nat) returns (counters: Counters)
    ensures counters == AddSlices(caps, start, size)
    ensures forall i: nat :: start <= i < start + size ==>
              "memory-slice-" + Decimal(i) in counters && counters["memory-slice-" + Decimal(i)] == 1
  {
    counters := caps;
    for i := start to start + size
      invariant counters == AddSlices(caps, start, i - start)
      invariant forall j: nat :: start <= j < i ==>
                  "memory-slice-" + Decimal(j) in counters && counters["memory-slice-" + Decimal(j)] == 1
    {
      counters := counters[MemsliceCounterName(i) := 1];
    }
  }

  lemma CountersOfShare(s: Share, i: nat)
    requires Plain(s.caps)
    ensures MemsliceCounterName(i) in CountersOf(s) <==> Covers(s, i)
    ensures Covers(s, i) ==> CountersOf(s)[MemsliceCounterName(i)] == 1
  {
    SliceAdded(s.caps, s.start, s.size, i);
  }

  lemma CapsOfShare(s: Share, name: string)
    requires forall i: nat :: name != MemsliceCounterName(i)
    ensures name in CountersOf(s) <==> name in s.caps
    ensures name in s.caps ==> CountersOf(s)[name] == s.caps[name]
  {
    OthersStay(s.caps, s.start, s.size, name);
  }

  // ---------------------------------------------------------------- the sums

  function Taken(c: Counters, name: string): nat { if name in c then c[name] else 0 }

  function Total(shares: seq<Share>, name: string): nat
  {
    if shares == [] then 0 else Total(shares[..|shares| - 1], name) + Taken(CountersOf(shares[|shares| - 1]), name)
  }

  /** What the scheduler checks: of every counter somebody takes there is one, and the sum is within it. */
  ghost predicate Fits(published: Counters, shares: seq<Share>)
  {
    forall k, name :: 0 <= k < |shares| && name in CountersOf(shares[k]) ==>
      name in published && Total(shares, name) <= published[name]
  }

  /** The sums fit in one dimension other than the memory slices. */
  ghost predicate CapFits(published: Counters, shares: seq<Share>, name: string)
  {
    (exists k :: 0 <= k < |shares| && name in shares[k].caps) ==>
      name in published && CapTotal(shares, name) <= published[name]
  }

  function CapTotal(shares: seq<Share>, name: string): nat
  {
    if shares == [] then 0 else CapTotal(shares[..|shares| - 1], name) + Taken(shares[|shares| - 1].caps, name)
  }

  lemma CapTotalOfOne(s: Share, name: string)
    ensures CapTotal([s], name) == Taken(s.caps, name)
  {
  }

  ghost predicate AllPlain(shares: seq<Share>) { forall k :: 0 <= k < |shares| ==> Plain(shares[k].caps) }

  /** Placements lie within the GPU's n slices. */
  ghost predicate Inside(shares: seq<Share>, n: nat)
  {
    forall k :: 0 <= k < |shares| && shares[k].size > 0 ==> shares[k].start + shares[k].size <= n
  }

  /** No memory slice is taken twice. */
  ghost predicate PairwiseDisjoint(shares: seq<Share>)
  {
    forall j, k, i: nat :: 0 <= j < k < |shares| ==> !(Covers(shares[j], i) && Covers(shares[k], i))
  }

  lemma {:induction false} TotalIsAtLeast(shares: seq<Share>, name: string, k: nat)
    requires k < |shares|
    ensures Total(shares, name) >= Taken(CountersOf(shares[k]), name)
  {
    if k < |shares| - 1 { TotalIsAtLeast(shares[..|shares| - 1], name, k); }
  }

  lemma {:induction false} TwoTakersCount(shares: seq<Share>, name: string, j: nat, k: nat)
    requires j < k < |shares|
    ensures Total(shares, name) >= Taken(CountersOf(shares[j]), name) + Taken(CountersOf(shares[k]), name)
  {
    var rest := shares[..|shares| - 1];
    if k < |rest| { TwoTakersCount(rest, name, j, k); } else { TotalIsAtLeast(rest, name, j); }
  }

  lemma {:induction false} NoTaker(shares: seq<Share>, i: nat)
    requires AllPlain(shares) && forall k :: 0 <= k < |shares| ==> !Covers(shares[k], i)
    ensures Total(shares, MemsliceCounterName(i)) == 0
  {
    if shares != [] {
      NoTaker(shares[..|shares| - 1], i);
      CountersOfShare(shares[|shares| - 1], i);
    }
  }

  lemma {:induction false} OneTaker(shares: seq<Share>, i: nat)
    requires AllPlain(shares) && PairwiseDisjoint(shares)
    ensures Total(shares, MemsliceCounterName(i)) <= 1
  {
    if shares != [] {
      var rest, last := shares[..|shares| - 1], shares[|shares| - 1];
      CountersOfShare(last, i);
      if Covers(last, i) {
        forall k | 0 <= k < |rest| ensures !Covers(rest[k], i) {
          assert shares[k] == rest[k];
        }
        NoTaker(rest, i);
      } else {
        OneTaker(rest, i);
      }
    }
  }

  lemma {:induction false} TotalIsCapTotal(shares: seq<Share>, name: string)
    requires forall i: nat :: name != MemsliceCounterName(i)
    ensures Total(shares, name) == CapTotal(shares, name)
  {
    if shares != [] {
      TotalIsCapTotal(shares[..|shares| - 1], name);
      CapsOfShare(shares[|shares| - 1], name);
    }
  }

  // ------------------------------------------------------------ main results

  lemma FittingSharesAreDisjoint(caps: Counters, n: nat, shares: seq<Share>)
    requires Plain(caps) && AllPlain(shares) && Fits(AddSlices(caps, 0, n), shares)
    ensures Inside(shares, n) && PairwiseDisjoint(shares)
  {
    var gpu := Share(caps, 0, n);
    forall k, i: nat | 0 <= k < |shares| && Covers(shares[k], i) ensures i < n {
      CountersOfShare(shares[k], i);
      CountersOfShare(gpu, i);
      assert MemsliceCounterName(i) in CountersOf(shares[k]);
    }
    forall k | 0 <= k < |shares| && shares[k].size > 0 ensures shares[k].start + shares[k].size <= n {
      assert Covers(shares[k], shares[k].start + shares[k].size - 1);
    }
    forall j, k, i: nat | 0 <= j < k < |shares| ensures !(Covers(shares[j], i) && Covers(shares[k], i)) {
      CountersOfShare(shares[j], i);
      CountersOfShare(shares[k], i);
      CountersOfShare(gpu, i);
      TwoTakersCount(shares, MemsliceCounterName(i), j, k);
    }
  }

  lemma DisjointSharesFit(caps: Counters, n: nat, shares: seq<Share>, k: nat, name: string)
    requires Plain(caps) && AllPlain(shares) && Inside(shares, n) && PairwiseDisjoint(shares)
    requires forall d :: CapFits(caps, shares, d)
    requires k < |shares| && name in CountersOf(shares[k])
    ensures name in AddSlices(caps, 0, n) && Total(shares, name) <= AddSlices(caps, 0, n)[name]
  {
    var gpu := Share(caps, 0, n);
    if i: nat :| name == MemsliceCounterName(i) {
      CountersOfShare(shares[k], i);
      CountersOfShare(gpu, i);
      OneTaker(shares, i);
    } else {
      CapsOfShare(shares[k], name);
      CapsOfShare(gpu, name);
      TotalIsCapTotal(shares, name);
      assert CapFits(caps, shares, name);
    }
  }

  /**
   * The scheduler's sums fit the GPU's counter set exactly when the placements lie on the GPU, no two of them overlap,
   * and the sums fit in every other dimension.
   */
  lemma SumsFitExactlyWhenPlacementsDo(caps: Counters, n: nat, shares: seq<Share>)
    requires Plain(caps) && AllPlain(shares)
    ensures Fits(AddSlices(caps, 0, n), shares) <==>
            Inside(shares, n) && PairwiseDisjoint(shares) && forall d :: CapFits(caps, shares, d)
  {
    var published := AddSlices(caps, 0, n);
    if Fits(published, shares) {
      FittingSharesAreDisjoint(caps, n, shares);
      forall d ensures CapFits(caps, shares, d) {
        if k :| 0 <= k < |shares| && d in shares[k].caps {
          assert forall i: nat :: d != MemsliceCounterName(i);
          CapsOfShare(shares[k], d);
          CapsOfShare(Share(caps, 0, n), d);
          TotalIsCapTotal(shares, d);
        }
      }
    }
    if Inside(shares, n) && PairwiseDisjoint(shares) && forall d :: CapFits(caps, shares, d) {
      forall k, name | 0 <= k < |shares| && name in CountersOf(shares[k])
        ensures name in published && Total(shares, name) <= published[name]
      {
        DisjointSharesFit(caps, n, shares, k, name);
      }
    }
  }

  function TotalSize(shares: seq<Share>): nat
  {
    if shares == [] then 0 else TotalSize(shares[..|shares| - 1]) + shares[|shares| - 1].size
  }

  function Slices(start: nat, size: nat): (r: set<int>)
    ensures |r| == size && forall i :: i in r <==> start <= i < start + size
    decreases size
  {
    if size == 0 then {} else Slices(start, size - 1) + {start + size - 1}
  }

  function AllSlices(shares: seq<Share>): (r: set<int>)
  {
    if shares == [] then {}
      else AllSlices(shares[..|shares| - 1]) + Slices(shares[|shares| - 1].start, shares[|shares| - 1].size)
  }

  lemma {:induction false} CountSlices(shares: seq<Share>, n: nat)
    requires PairwiseDisjoint(shares) && Inside(shares, n)
    ensures |AllSlices(shares)| == TotalSize(shares) && AllSlices(shares) <= Slices(0, n)
    ensures forall i :: i in AllSlices(shares) ==> exists k :: 0 <= k < |shares| && Covers(shares[k], i)
  {
    if shares != [] {
      var rest, last := shares[..|shares| - 1], shares[|shares| - 1];
      CountSlices(rest, n);
      forall i | i in AllSlices(rest) && i in Slices(last.start, last.size) ensures false {
        var k :| 0 <= k < |rest| && Covers(rest[k], i);
        assert Covers(shares[k], i) && Covers(shares[|shares| - 1], i);
      }
      forall i | i in AllSlices(shares) ensures exists k :: 0 <= k < |shares| && Covers(shares[k], i) {
        if i in AllSlices(rest) {
          var k :| 0 <= k < |rest| && Covers(rest[k], i);
          assert Covers(shares[k], i);
        } else {
          assert Covers(shares[|shares| - 1], i);
        }
      }
    }
  }

  /** Devices whose sums fit never take more memory slices than there are. */
  lemma FittingSizesAddUp(caps: Counters, n: nat, shares: seq<Share>)
    requires Plain(caps) && AllPlain(shares) && Fits(AddSlices(caps, 0, n), shares)
    ensures TotalSize(shares) <= n
  {
    FittingSharesAreDisjoint(caps, n, shares);
    CountSlices(shares, n);
    assert Slices(0, n) == AllSlices(shares) + (Slices(0, n) - AllSlices(shares));
  }

  /** The full GPU takes everything: where it fits, every other device is empty. */
  lemma FullGpuExcludesTheRest(caps: Counters, n: nat, shares: seq<Share>, j: nat, k: nat)
    requires Plain(caps) && AllPlain(shares) && Fits(AddSlices(caps, 0, n), shares)
    requires j < |shares| && k < |shares| && j != k && shares[j] == Share(caps, 0, n)
    ensures shares[k].size == 0
  {
    FittingSharesAreDisjoint(caps, n, shares);
    if shares[k].size > 0 {
      assert Covers(shares[j], shares[k].start) && Covers(shares[k], shares[k].start);
      assert false;
    }
  }
}
