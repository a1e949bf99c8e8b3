/**
 * The keyed work queue: of the items for one key the latest is meant to win. Delays and the order in which
 * waiting items come up are arbitrary; items may be added while another one runs.
 */
module WorkQueue {
  import opened Text

  /** Items are numbered in the order they were added. */
  type Item = nat

  datatype Fate = Waiting | Running | Succeeded | Dropped

  /** Keys of all items ever added (None: added without one) and what has become of them; `active` is activeOps. */
  datatype Queue = Queue(keys: seq<Option<string>>, fate: seq<Fate>, active: map<string, Item>, running: Option<Item>)

  const EMPTY := Queue([], [], map[], None)

  datatype Op = Enqueue(key: Option<string>) | Get(item: Item) | Finish(ok: bool)

  predicate WellFormed(q: Queue)
  {
    && |q.keys| == |q.fate|
    && (q.running.Some? ==> q.running.value < |q.fate| && q.fate[q.running.value].Running?)
    && (forall n :: 0 <= n < |q.fate| && q.fate[n].Running? ==> q.running == Some(n))
  }

  predicate Enabled(q: Queue, op: Op)
  {
    match op
    case Enqueue(_) => true
    case Get(n) => n < |q.fate| && q.fate[n].Waiting? && q.running.None?
    case Finish(_) => q.running.Some?
  }

  function AfterEnqueue(q: Queue, key: Option<string>): Queue
  {
    Queue(q.keys + [key], q.fate + [Waiting], if key.Some?
      then q.active[key.value := |q.keys|] else q.active, q.running)
  }

  function AfterGet(q: Queue, n: Item): Queue
    requires n < |q.fate|
  {
    q.(fate := q.fate[n := Running], running := Some(n))
  }

  /** The key activeOps is looked up with; an item without a key has the empty one. */
  function LookupKey(q: Queue, n: Item): string
    requires n < |q.keys|
  {
    if q.keys[n].Some? then q.keys[n].value else ""
  }

  predicate Superseded(q: Queue, n: Item)
    requires n < |q.keys|
  {
    LookupKey(q, n) in q.active && q.active[LookupKey(q, n)] != n
  }

  function AfterFinish(q: Queue, ok: bool): Queue
    requires WellFormed(q) && q.running.Some?
  {
    var n, key := q.running.value, LookupKey(q, q.running.value);
    if ok then
      q.(running := None, fate := q.fate[n := Succeeded], active := if key in q.active
        && q.active[key] == n then q.active - {key} else q.active)
    else
      q.(running := None, fate := q.fate[n := if Superseded(q, n) then Dropped else Waiting])
  }

  function Apply(q: Queue, op: Op): Queue
    requires WellFormed(q) && Enabled(q, op)
  {
    match op
    case Enqueue(key) => AfterEnqueue(q, key)
    case Get(n) => AfterGet(q, n)
    case Finish(ok) => AfterFinish(q, ok)
  }

  predicate Runs(q: Queue, ops: seq<Op>)
    decreases |ops|
  {
    WellFormed(q) && (ops == [] || (Enabled(q, ops[0]) && Runs(Apply(q, ops[0]), ops[1..])))
  }

  function Exec(q: Queue, ops: seq<Op>): Queue
    requires Runs(q, ops)
    decreases |ops|
  {
    if ops == [] then q else Exec(Apply(q, ops[0]), ops[1..])
  }

  // ---------------------------------------------------------------- invariant

  predicate Keyed(q: Queue, n: Item) { n < |q.keys| && q.keys[n].Some? }

  /** No later item has its key. */
  predicate IsNewest(q: Queue, n: Item)
    requires n < |q.keys|
  {
    forall m :: n < m < |q.keys| ==> q.keys[m] != q.keys[n]
  }

  predicate Unfinished(q: Queue, n: Item) { n < |q.fate| && (q.fate[n].Waiting? || q.fate[n].Running?) }

  predicate ActiveInv(q: Queue, key: string)
    requires key in q.active
  {
    var n := q.active[key];
    n < |q.keys| && q.keys[n] == Some(key) && IsNewest(q, n) && Unfinished(q, n)
  }

  predicate NewestInv(q: Queue, n: Item)
    requires n < |q.keys| == |q.fate|
  {
    q.keys[n].Some? && IsNewest(q, n) ==>
      if q.keys[n].value in q.active then q.active[q.keys[n].value] == n else q.fate[n].Succeeded?
  }

  ghost predicate Inv(q: Queue)
  {
    && WellFormed(q)
    && (forall key :: key in q.active ==> ActiveInv(q, key))
    && (forall n :: 0 <= n < |q.keys| ==> NewestInv(q, n))
  }

  lemma EnqueueKeepsInv(q: Queue, key: Option<string>)
    requires Inv(q)
    ensures Inv(AfterEnqueue(q, key))
  {
    var q' := AfterEnqueue(q, key);
    forall k | k in q'.active ensures ActiveInv(q', k) {
      if key != Some(k) { assert ActiveInv(q, k); }
    }
    forall n | 0 <= n < |q'.keys| ensures NewestInv(q', n) {
      if n < |q.keys| {
        assert NewestInv(q, n);
        if IsNewest(q', n) {
          assert q'.keys[|q.keys|] != q'.keys[n];
          assert IsNewest(q, n) by {
            forall m | n < m < |q.keys| ensures q.keys[m] != q.keys[n] { assert q'.keys[m] != q'.keys[n]; }
          }
        }
      }
    }
  }

  /** Steps that add nothing keep who is newest. */
  lemma SameKeysSameNewest(q: Queue, q': Queue, n: Item)
    requires q.keys == q'.keys && n < |q.keys|
    ensures IsNewest(q, n) <==> IsNewest(q', n)
  {
  }

  lemma GetKeepsInv(q: Queue, n: Item)
    requires Inv(q) && Enabled(q, Get(n))
    ensures Inv(AfterGet(q, n))
  {
    var q' := AfterGet(q, n);
    forall k | k in q'.active ensures ActiveInv(q', k) {
      assert ActiveInv(q, k);
      SameKeysSameNewest(q, q', q.active[k]);
    }
    forall m | 0 <= m < |q'.keys| ensures NewestInv(q', m) {
      assert NewestInv(q, m);
      SameKeysSameNewest(q, q', m);
    }
  }

  lemma FinishKeepsInv(q: Queue, ok: bool)
    requires Inv(q) && q.running.Some?
    ensures Inv(AfterFinish(q, ok))
  {
    var q' := AfterFinish(q, ok);
    forall k | k in q'.active ensures ActiveInv(q', k) {
      assert ActiveInv(q, k);
      SameKeysSameNewest(q, q', q.active[k]);
    }
    forall m | 0 <= m < |q'.keys| ensures NewestInv(q', m) {
      assert NewestInv(q, m);
      SameKeysSameNewest(q, q', m);
    }
  }

  lemma StepKeepsInv(q: Queue, op: Op)
    requires Inv(q) && Enabled(q, op)
    ensures Inv(Apply(q, op))
  {
    match op
    case Enqueue(key) => EnqueueKeepsInv(q, key);
    case Get(n) => GetKeepsInv(q, n);
    case Finish(ok) => FinishKeepsInv(q, ok);
  }

  lemma {:induction false} RunKeepsInv(q: Queue, ops: seq<Op>)
    requires Inv(q) && Runs(q, ops)
    ensures Inv(Exec(q, ops))
    decreases |ops|
  {
    if ops != [] {
      StepKeepsInv(q, ops[0]);
      RunKeepsInv(Apply(q, ops[0]), ops[1..]);
    }
  }

  lemma {:induction false} RunsAppend(q: Queue, ops: seq<Op>, op: Op)
    requires Runs(q, ops) && Enabled(Exec(q, ops), op) && WellFormed(Exec(q, ops))
    requires WellFormed(Apply(Exec(q, ops), op))
    ensures Runs(q, ops + [op]) && Exec(q, ops + [op]) == Apply(Exec(q, ops), op)
    decreases |ops|
  {
    if ops == [] {
      assert ops + [op] == [op] && [op][1..] == [];
    } else {
      RunsAppend(Apply(q, ops[0]), ops[1..], op);
      assert (ops + [op])[1..] == ops[1..] + [op];
    }
  }

  // ------------------------------------------------------------- main results

  /** The newest item added for a key is never lost: it waits, runs, or has succeeded. */
  lemma NewestIsNeverLost(ops: seq<Op>, n: Item)
    requires Runs(EMPTY, ops) && Keyed(Exec(EMPTY, ops), n) && IsNewest(Exec(EMPTY, ops), n)
    ensures var q := Exec(EMPTY, ops); n < |q.fate| && !q.fate[n].Dropped?
  {
    RunKeepsInv(EMPTY, ops);
    var q := Exec(EMPTY, ops);
    assert NewestInv(q, n);
    if q.keys[n].value in q.active { assert ActiveInv(q, q.keys[n].value); }
  }

  /**
   * A keyed item that fails is dropped exactly when a newer one for its key is still to be done; otherwise it is
   * tried again.
   */
  lemma DroppedExactlyForANewerOne(ops: seq<Op>, n: Item)
    requires Runs(EMPTY, ops) && Exec(EMPTY, ops).running == Some(n) && Keyed(Exec(EMPTY, ops), n)
    ensures var q := Exec(EMPTY, ops);
            var key := q.keys[n].value;
            && WellFormed(q)
            && AfterFinish(q, false).fate[n] == (if key in q.active && q.active[key] > n then Dropped else Waiting)
            && (key in q.active ==>
              q.active[key] < |q.keys| && q.keys[q.active[key]] == Some(key) && Unfinished(q, q.active[key]))
  {
    RunKeepsInv(EMPTY, ops);
    var q := Exec(EMPTY, ops);
    var key := q.keys[n].value;
    if key in q.active { assert ActiveInv(q, key); }
  }

  /** An item without a key that fails is tried again, unless an item with the empty key is still to be done. */
  lemma UnkeyedIsRetried(ops: seq<Op>, n: Item)
    requires Runs(EMPTY, ops) && Exec(EMPTY, ops).running == Some(n) && n < |Exec(EMPTY, ops).keys|
    requires Exec(EMPTY, ops).keys[n].None?
    ensures var q := Exec(EMPTY, ops);
            && WellFormed(q) && n < |AfterFinish(q, false).fate|
            && AfterFinish(q, false).fate[n] == (if "" in q.active then Dropped else Waiting)
            && ("" in q.active ==>
                  q.active[""] < |q.keys| && q.keys[q.active[""]] == Some("") && Unfinished(q, q.active[""]))
  {
    RunKeepsInv(EMPTY, ops);
    var q := Exec(EMPTY, ops);
    if "" in q.active { assert ActiveInv(q, ""); }
  }

  /** So where nobody uses the empty key, an item without a key is never dropped: it waits, runs or has succeeded. */
  lemma {:induction false} UnkeyedIsNeverLost(q: Queue, ops: seq<Op>, n: Item)
    requires Runs(q, ops) && Enqueue(Some("")) !in ops && "" !in q.active
    requires n < |q.keys| ==> q.keys[n].None? && !q.fate[n].Dropped?
    requires n < |Exec(q, ops).keys| && Exec(q, ops).keys[n].None?
    ensures n < |Exec(q, ops).fate| && !Exec(q, ops).fate[n].Dropped?
    decreases |ops|
  {
    if ops != [] {
      var q' := Apply(q, ops[0]);
      assert ops == [ops[0]] + ops[1..];
      if n < |q'.keys| { KeysStay(q', ops[1..], n); }
      UnkeyedIsNeverLost(q', ops[1..], n);
    }
  }

  lemma {:induction false} KeysStay(q: Queue, ops: seq<Op>, n: Item)
    requires Runs(q, ops) && n < |q.keys|
    ensures n < |Exec(q, ops).keys| && Exec(q, ops).keys[n] == q.keys[n]
    decreases |ops|
  {
    if ops != [] { KeysStay(Apply(q, ops[0]), ops[1..], n); }
  }

  /** An item of the key that still waits is its newest, and one that runs was when it was taken. */
  ghost predicate OnlyNewestWaits(q: Queue, key: string)
  {
    && (forall n :: 0 <= n < |q.fate| && n < |q.keys| && q.fate[n].Waiting? && q.keys[n] == Some(key) ==>
      IsNewest(q, n))
    && (q.running.Some? && q.running.value < |q.keys| && q.keys[q.running.value] == Some(key) ==> key in q.active)
  }

  /** No item of the key waits. */
  predicate NoneWaits(q: Queue, key: string)
  {
    forall n :: 0 <= n < |q.fate| && n < |q.keys| && q.fate[n].Waiting? ==> q.keys[n] != Some(key)
  }

  /** Throughout the run no item is added for this key while another one of the key waits. */
  predicate NeverAddsBehindWaiting(q: Queue, ops: seq<Op>, key: string)
    requires Runs(q, ops)
    decreases |ops|
  {
    ops == [] ||
    ((ops[0] == Enqueue(Some(key)) ==> NoneWaits(q, key)) && NeverAddsBehindWaiting(Apply(q, ops[0]), ops[1..], key))
  }

  lemma StepKeepsOnlyNewestWaits(q: Queue, op: Op, key: string)
    requires Inv(q) && OnlyNewestWaits(q, key) && Enabled(q, op) && (op == Enqueue(Some(key)) ==> NoneWaits(q, key))
    ensures OnlyNewestWaits(Apply(q, op), key)
  {
    var q' := Apply(q, op);
    forall n | 0 <= n < |q'.fate| && n < |q'.keys| && q'.fate[n].Waiting? && q'.keys[n] == Some(key)
      ensures IsNewest(q', n) {
      if n < |q.keys| {
        if op.Finish? && q.running == Some(n) {
          assert ActiveInv(q, key);
        } else {
          assert q.fate[n].Waiting?;
          assert IsNewest(q, n);
        }
      }
    }
    if op.Get? && q.keys[op.item] == Some(key) { assert NewestInv(q, op.item); }
  }

  lemma {:induction false} RunKeepsOnlyNewestWaits(q: Queue, ops: seq<Op>, key: string)
    requires Inv(q) && OnlyNewestWaits(q, key) && Runs(q, ops) && NeverAddsBehindWaiting(q, ops, key)
    ensures Inv(Exec(q, ops)) && OnlyNewestWaits(Exec(q, ops), key)
    decreases |ops|
  {
    if ops != [] {
      StepKeepsInv(q, ops[0]);
      StepKeepsOnlyNewestWaits(q, ops[0], key);
      RunKeepsOnlyNewestWaits(Apply(q, ops[0]), ops[1..], key);
    }
  }

  /**
   * The latest wins for every key for which nobody adds behind a waiting item, whatever happens to other keys:
   * what is taken is the newest of its key.
   */
  lemma LatestWinsUnlessAddedBehind(ops: seq<Op>, n: Item)
    requires Runs(EMPTY, ops) && Enabled(Exec(EMPTY, ops), Get(n)) && Keyed(Exec(EMPTY, ops), n)
    requires NeverAddsBehindWaiting(EMPTY, ops, Exec(EMPTY, ops).keys[n].value)
    ensures IsNewest(Exec(EMPTY, ops), n)
  {
    RunKeepsOnlyNewestWaits(EMPTY, ops, Exec(EMPTY, ops).keys[n].value);
  }

  /**
   * And as soon as somebody does, it may not: the newer item can succeed first, and the older one then runs after
   * all.
   */
  lemma OlderItemCanRunAfterNewer(ops: seq<Op>, n: Item)
    requires Runs(EMPTY, ops) && Enabled(Exec(EMPTY, ops), Get(n)) && Keyed(Exec(EMPTY, ops), n)
    ensures var key := Exec(EMPTY, ops).keys[n];
            var newer := |Exec(EMPTY, ops).keys|;
            var more := ops + [Enqueue(key)] + [Get(newer)] + [Finish(true)] + [Get(n)];
            && Runs(EMPTY, more)
            && var q := Exec(EMPTY, more);
            newer < |q.fate| == |q.keys| && q.fate[newer].Succeeded? && q.keys[newer] == q.keys[n]
              && q.running == Some(n) && n < newer
  {
    RunKeepsInv(EMPTY, ops);
    var q := Exec(EMPTY, ops);
    var key, newer := q.keys[n], |q.keys|;
    var q1 := AfterEnqueue(q, key);
    EnqueueKeepsInv(q, key);
    RunsAppend(EMPTY, ops, Enqueue(key));
    GetKeepsInv(q1, newer);
    RunsAppend(EMPTY, ops + [Enqueue(key)], Get(newer));
    var q2 := AfterGet(q1, newer);
    FinishKeepsInv(q2, true);
    RunsAppend(EMPTY, ops + [Enqueue(key)] + [Get(newer)], Finish(true));
    var q3 := AfterFinish(q2, true);
    GetKeepsInv(q3, n);
    RunsAppend(EMPTY, ops + [Enqueue(key)] + [Get(newer)] + [Finish(true)], Get(n));
  }

  // --------------------------------------------------------- a batch of claims

  /** One item per claim of the request, keyed by its UID. */
  function EnqueueAll(uids: seq<string>): (ops: seq<Op>)
    ensures |ops| == |uids| && forall i :: 0 <= i < |uids| ==> ops[i] == Enqueue(Some(uids[i]))
  {
    seq(|uids|, i requires 0 <= i < |uids| => Enqueue(Some(uids[i])))
  }

  /** Nothing more is added. */
  predicate Processing(ops: seq<Op>) { forall i :: 0 <= i < |ops| ==> !ops[i].Enqueue? }

  function Successes(fate: seq<Fate>): nat
  {
    if fate == [] then 0 else Successes(fate[..|fate| - 1]) + if fate[|fate| - 1].Succeeded? then 1 else 0
  }

  /**
   * The wait group: raised once per claim, lowered by each callback that is done. A callback that is done succeeds,
   * and is never called again.
   */
  function WaitGroup(q: Queue): int { |q.fate| - Successes(q.fate) }

  /** The claim has a result. */
  predicate HasResult(q: Queue, uid: string)
  {
    exists n :: 0 <= n < |q.fate| && n < |q.keys| && q.keys[n] == Some(uid) && q.fate[n].Succeeded?
  }

  lemma {:induction false} AllSucceeded(fate: seq<Fate>)
    ensures Successes(fate) <= |fate|
    ensures Successes(fate) == |fate| <==> forall n :: 0 <= n < |fate| ==> fate[n].Succeeded?
  {
    if fate != [] { AllSucceeded(fate[..|fate| - 1]); }
  }

  /** The items of the batch: one per claim, in order, no more and no fewer. */
  ghost predicate Batch(q: Queue, uids: seq<string>)
  {
    Inv(q) && |q.keys| == |uids| && forall n :: 0 <= n < |uids| ==> q.keys[n] == Some(uids[n])
  }

  /** After a batch was added every item waits, and a key is taken by its last item. */
  ghost predicate JustAdded(q: Queue, uids: seq<string>)
  {
    && Inv(q) && q.running.None? && |q.keys| == |q.fate| == |uids|
    && forall n :: 0 <= n < |uids| ==>
         q.keys[n] == Some(uids[n]) && q.fate[n].Waiting? && uids[n] in q.active && q.active[uids[n]] >= n
  }

  lemma AddedThenOne(q: Queue, rest: seq<string>, last: string)
    requires JustAdded(q, rest)
    ensures JustAdded(AfterEnqueue(q, Some(last)), rest + [last])
  {
    EnqueueKeepsInv(q, Some(last));
  }

  lemma EnqueueAllAppend(rest: seq<string>, last: string)
    ensures EnqueueAll(rest + [last]) == EnqueueAll(rest) + [Enqueue(Some(last))]
  {
  }

  lemma EnqueueOneMore(rest: seq<string>, last: string)
    requires Runs(EMPTY, EnqueueAll(rest)) && JustAdded(Exec(EMPTY, EnqueueAll(rest)), rest)
    ensures var ops := EnqueueAll(rest + [last]); Runs(EMPTY, ops) && JustAdded(Exec(EMPTY, ops), rest + [last])
  {
    AddedThenOne(Exec(EMPTY, EnqueueAll(rest)), rest, last);
    RunsAppend(EMPTY, EnqueueAll(rest), Enqueue(Some(last)));
    EnqueueAllAppend(rest, last);
  }

  lemma NothingAdded()
    ensures Runs(EMPTY, []) && JustAdded(Exec(EMPTY, []), [])
  {
  }

  lemma {:induction false} EnqueueAllAdds(uids: seq<string>)
    ensures Runs(EMPTY, EnqueueAll(uids)) && JustAdded(Exec(EMPTY, EnqueueAll(uids)), uids)
    decreases |uids|
  {
    if uids == [] {
      NothingAdded();
      assert EnqueueAll(uids) == [];
    } else {
      var rest, last := uids[..|uids| - 1], uids[|uids| - 1];
      EnqueueAllAdds(rest);
      EnqueueOneMore(rest, last);
      assert rest + [last] == uids;
    }
  }

  lemma {:induction false} ProcessingKeepsBatch(q: Queue, uids: seq<string>, ops: seq<Op>)
    requires Batch(q, uids) && Runs(q, ops) && Processing(ops)
    ensures Batch(Exec(q, ops), uids)
    decreases |ops|
  {
    if ops != [] {
      StepKeepsInv(q, ops[0]);
      ProcessingKeepsBatch(Apply(q, ops[0]), uids, ops[1..]);
    }
  }

  ghost predicate Distinct(uids: seq<string>) { forall i, j :: 0 <= i < j < |uids| ==> uids[i] != uids[j] }

  lemma EnqueueAllMakesBatch(uids: seq<string>)
    ensures Runs(EMPTY, EnqueueAll(uids)) && Batch(Exec(EMPTY, EnqueueAll(uids)), uids)
  {
    EnqueueAllAdds(uids);
  }

  lemma NoneIsDropped(q: Queue, uids: seq<string>, n: Item)
    requires Batch(q, uids) && Distinct(uids) && n < |uids|
    ensures n < |q.fate| && !q.fate[n].Dropped?
  {
    assert IsNewest(q, n) && NewestInv(q, n);
    if q.keys[n].value in q.active { assert ActiveInv(q, q.keys[n].value); }
  }

  lemma ResultIsOwn(q: Queue, uids: seq<string>, i: nat)
    requires Batch(q, uids) && Distinct(uids) && i < |uids|
    ensures HasResult(q, uids[i]) <==> q.fate[i].Succeeded?
  {
    if q.fate[i].Succeeded? { assert q.keys[i] == Some(uids[i]) && q.fate[i].Succeeded?; }
  }

  lemma BatchOutcome(q: Queue, uids: seq<string>)
    requires Batch(q, uids) && Distinct(uids)
    ensures forall n :: 0 <= n < |q.fate| ==> !q.fate[n].Dropped?
    ensures WaitGroup(q) >= 0 && (WaitGroup(q) == 0 <==> forall i :: 0 <= i < |uids| ==> HasResult(q, uids[i]))
  {
    AllSucceeded(q.fate);
    forall n | 0 <= n < |q.fate| ensures !q.fate[n].Dropped? { NoneIsDropped(q, uids, n); }
    forall i | 0 <= i < |uids| ensures HasResult(q, uids[i]) <==> q.fate[i].Succeeded? { ResultIsOwn(q, uids, i); }
  }

  /** With distinct UIDs no claim is dropped, and the wait group is at zero exactly when every claim has a result. */
  lemma WaitGroupIsZeroExactlyWhenAllHaveResults(uids: seq<string>, ops: seq<Op>)
    requires Distinct(uids) && Runs(EMPTY, EnqueueAll(uids)) && Runs(Exec(EMPTY, EnqueueAll(uids)), ops)
    requires Processing(ops)
    ensures var q := Exec(Exec(EMPTY, EnqueueAll(uids)), ops);
            && (forall n :: 0 <= n < |q.fate| ==> !q.fate[n].Dropped?)
            && WaitGroup(q) >= 0 && (WaitGroup(q) == 0 <==> forall i :: 0 <= i < |uids| ==> HasResult(q, uids[i]))
  {
    EnqueueAllMakesBatch(uids);
    ProcessingKeepsBatch(Exec(EMPTY, EnqueueAll(uids)), uids, ops);
    BatchOutcome(Exec(Exec(EMPTY, EnqueueAll(uids)), ops), uids);
  }

  /** A callback that was done is never called again, and a dropped item never comes back. */
  lemma {:induction false} FinishedIsFinal(q: Queue, ops: seq<Op>, n: Item)
    requires Runs(q, ops) && n < |q.fate| && (q.fate[n].Succeeded? || q.fate[n].Dropped?)
    ensures n < |Exec(q, ops).fate| && Exec(q, ops).fate[n] == q.fate[n]
    decreases |ops|
  {
    if ops != [] { FinishedIsFinal(Apply(q, ops[0]), ops[1..], n); }
  }

  lemma DroppedItemHoldsTheWaitGroup(q: Queue, ops: seq<Op>, n: Item)
    requires Runs(q, ops) && n < |q.fate| && q.fate[n].Dropped?
    ensures WaitGroup(Exec(q, ops)) > 0
  {
    FinishedIsFinal(q, ops, n);
    AllSucceeded(Exec(q, ops).fate);
  }

  /**
   * With a repeated UID the wait group can stay up for good: let the first of the two items fail once; it is dropped,
   * and nothing that happens later brings the wait group to zero.
   */
  lemma RepeatedUidHoldsTheWaitGroup(uids: seq<string>, i: nat, j: nat, later: seq<Op>)
    requires i < j < |uids| && uids[i] == uids[j]
    ensures Runs(EMPTY, EnqueueAll(uids)) && Runs(Exec(EMPTY, EnqueueAll(uids)), [Get(i)] + [Finish(false)])
    ensures var q := Exec(Exec(EMPTY, EnqueueAll(uids)), [Get(i)] + [Finish(false)]);
            Runs(q, later) ==> WaitGroup(Exec(q, later)) > 0
  {
    EnqueueAllAdds(uids);
    var q := Exec(EMPTY, EnqueueAll(uids));
    GetKeepsInv(q, i);
    assert q.active[uids[j]] >= j;
    var q1 := AfterGet(q, i);
    assert Runs(q, []);
    RunsAppend(q, [], Get(i));
    assert [] + [Get(i)] == [Get(i)];
    FinishKeepsInv(q1, false);
    RunsAppend(q, [Get(i)], Finish(false));
    var q2 := AfterFinish(q1, false);
    if Runs(q2, later) { DroppedItemHoldsTheWaitGroup(q2, later, i); }
  }

  // ------------------------------------------------------------------ the queue

  class KeyedQueue {
    var activeOps: map<string, Item>
    var waiting: set<Item>
    var inFlight: Option<Item>
    var keys: seq<Option<string>>
    ghost var world: Queue

    constructor ()
      ensures Valid() && world == EMPTY
    {
      activeOps, waiting, inFlight, keys, world := map[], {}, None, [], EMPTY;
    }

    ghost predicate Valid()
      reads this
    {
      && Inv(world) && world.active == activeOps && world.keys == keys && world.running == inFlight
      && forall n: Item :: n in waiting <==> n < |world.fate| && world.fate[n].Waiting?
    }

    method EnqueueRaw()
      requires Valid()
      modifies this
      ensures Valid() && world == AfterEnqueue(old(world), None)
      ensures keys == old(keys) + [None] && waiting == old(waiting) + {|old(keys)|} && activeOps == old(activeOps)
    {
      EnqueueKeepsInv(world, None);
      waiting := waiting + {|keys|};
      keys := keys + [None];
      world := AfterEnqueue(world, None);
    }

    /** The new item takes over the key; an older one that waits stays in the queue. */
    method EnqueueWithKey(key: string)
      requires Valid()
      modifies this
      ensures Valid() && world == AfterEnqueue(old(world), Some(key))
      ensures keys == old(keys) + [Some(key)] && waiting == old(waiting) + {|old(keys)|}
      ensures activeOps == old(activeOps)[key := |old(keys)|]
    {
      EnqueueKeepsInv(world, Some(key));
      activeOps := activeOps[key := |keys|];
      waiting := waiting + {|keys|};
      keys := keys + [Some(key)];
      world := AfterEnqueue(world, Some(key));
    }

    /** The queue hands out some waiting item. */
    method Get(item: Item)
      requires Valid() && item in waiting && inFlight.None?
      modifies this
      ensures Valid() && world == AfterGet(old(world), item) && inFlight == Some(item)
      ensures waiting == old(waiting) - {item} && activeOps == old(activeOps) && keys == old(keys)
    {
      GetKeepsInv(world, item);
      waiting := waiting - {item};
      inFlight := Some(item);
      world := AfterGet(world, item);
    }

    /** The rest of processNextWorkItem, once the callback is back. */
    method Reconciled(failed: bool)
      requires Valid() && inFlight.Some?
      modifies this
      ensures Valid() && world == AfterFinish(old(world), !failed) && inFlight.None? && keys == old(keys)
      ensures var item := old(inFlight).value;
              var key := if keys[item].Some? then keys[item].value else "";
              var current := key in old(activeOps) && old(activeOps)[key] == item;
              && waiting == old(waiting) + (if failed && (current || key !in old(activeOps)) then {item} else {})
              && activeOps == (if !failed && current then old(activeOps) - {key} else old(activeOps))
    {
      var item := inFlight.value;
      var key := if keys[item].Some? then keys[item].value else "";
      FinishKeepsInv(world, !failed);
      if failed {
        if !(key in activeOps && activeOps[key] != item) {
          waiting := waiting + {item};
        }
      } else if key in activeOps && activeOps[key] == item {
        activeOps := activeOps - {key};
      }
      inFlight := None;
      world := AfterFinish(world, !failed);
    }
  }
}
