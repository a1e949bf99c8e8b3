/**
 * The manager of the IMEX daemon's child process: the update loop, the watchdog and one reaper per child,
 * interleaved step by step. The lock protects start and stop; the handle is also read and cleared without it.
 */
module ProcessManager {
  import opened Text

  type Child = nat

  datatype Thread = UpdateLoop | Watchdog

  /** What the wait() system call told: `ok` unless it failed in itself. */
  datatype ExitStatus = ExitStatus(child: Child, ok: bool)

  /** Where a thread stands in the code of the manager. */
  datatype Pc =
    | Idle
    | WantStop(restart: bool)    // about to lock in stop
    | StopWaiting(restart: bool) // SIGTERM sent, lock held, blocked on the channel
    | StopClearing(restart: bool)
    | WantStart                  // about to lock in start
    | Starting                   // lock held, no handle
    | LostWaiting                // lost() was true: about to read the channel, without the lock
    | LostClearing
    | Restarting                 // about to read the handle in Restart

  datatype Reaper = Spawned | Waiting(child: Child) | Sending(status: ExitStatus) | Finished

  /**
   * `alive` are the children whose process runs, `waited` those whose wait() has returned, `consumed` whose status was
   * read from the channel; `broken` says that a reaper found no handle or waited for a child a second time.
   */
  datatype State = State(
    handle: Option<Child>, holder: Option<Thread>, slot: Option<ExitStatus>, loop: Pc, dog: Pc,
    next: Child, alive: set<Child>, waited: set<Child>, consumed: seq<Child>, reapers: map<Child, Reaper>, broken: bool)

  const INIT := State(None, None, None, Idle, Idle, 0, {}, {}, [], map[], false)

  function PcOf(s: State, t: Thread): Pc { if t.UpdateLoop? then s.loop else s.dog }

  function Go(s: State, t: Thread, pc: Pc): State { if t.UpdateLoop? then s.(loop := pc) else s.(dog := pc) }

  datatype Step =
    | EnsureStarted(t: Thread)
    | Restart(t: Thread)
    | Stop(t: Thread)
    | LockForStop(t: Thread, delivered: bool)
    | LockForStart(t: Thread)
    | Spawn(t: Thread, ok: bool)
    | Lost
    | Receive(t: Thread)
    | Clear(t: Thread)
    | ReaperReads(c: Child)
    | ReaperReturns(c: Child, ok: bool)
    | ReaperSends(c: Child)
    | Exits(c: Child)

  /** Reading the handle without the lock and going on from there. */
  function Branch(s: State, t: Thread): State
  {
    Go(s, t, if s.handle.Some? then WantStop(true) else WantStart)
  }

  /** A signal reaches the process unless its wait() has returned. */
  predicate CanSignal(s: State) { s.handle.Some? && s.handle.value !in s.waited }

  /** Channel and lock permitting, when a thread can make the step. */
  predicate Enabled(s: State, e: Step)
  {
    match e
    case EnsureStarted(t) => PcOf(s, t).Idle?
    case Restart(t) => PcOf(s, t).Idle? || PcOf(s, t).Restarting?
    case Stop(t) => PcOf(s, t).Idle?
    case LockForStop(t, _) => PcOf(s, t).WantStop? && s.holder.None?
    case LockForStart(t) => PcOf(s, t).WantStart? && s.holder.None?
    case Spawn(t, _) => PcOf(s, t).Starting?
    case Lost => s.dog.Idle? && s.holder.None? && s.handle.Some? && s.slot.Some?
    case Receive(t) => (PcOf(s, t).StopWaiting? || PcOf(s, t).LostWaiting?) && s.slot.Some?
    case Clear(t) => PcOf(s, t).StopClearing? || PcOf(s, t).LostClearing?
    case ReaperReads(c) => c in s.reapers && s.reapers[c].Spawned?
    case ReaperReturns(c, _) => c in s.reapers && s.reapers[c].Waiting? && s.reapers[c].child !in s.alive
    case ReaperSends(c) => c in s.reapers && s.reapers[c].Sending? && s.slot.None?
    case Exits(c) => c in s.alive
  }

  function AfterLockForStop(s: State, t: Thread, delivered: bool): State
  {
    if CanSignal(s) && delivered && PcOf(s, t).WantStop?
      then Go(s, t, StopWaiting(PcOf(s, t).restart)).(holder := Some(t))
    else Go(s, t, Idle)
  }

  function AfterSpawn(s: State, t: Thread, ok: bool): State
  {
    var s' := Go(s, t, Idle).(holder := None);
    if !ok then s'
    else s'.(handle := Some(s.next), next := s.next + 1, alive := s.alive + {s.next},
      reapers := s.reapers[s.next := Spawned])
  }

  /** wait() takes the status; if the system call failed in itself, it gives up and the handle stays. */
  function AfterReceive(s: State, t: Thread): State
    requires s.slot.Some?
  {
    var s' := s.(slot := None, consumed := s.consumed + [s.slot.value.child]);
    var pc := PcOf(s, t);
    if !s.slot.value.ok then Go(s', t, Idle).(holder := if pc.StopWaiting? then None else s.holder)
    else Go(s', t, if pc.StopWaiting? then StopClearing(pc.restart) else LostClearing)
  }

  function AfterClear(s: State, t: Thread): State
  {
    var pc := PcOf(s, t);
    if pc.StopClearing? then Go(s, t, if pc.restart then WantStart else Idle).(handle := None, holder := None)
    else Go(s, t, Restarting).(handle := None)
  }

  function AfterReaperReads(s: State, c: Child): State
  {
    if s.handle.None? then s.(broken := true) else s.(reapers := s.reapers[c := Waiting(s.handle.value)])
  }

  function AfterReaperReturns(s: State, c: Child, ok: bool): State
    requires c in s.reapers && s.reapers[c].Waiting?
  {
    var d := s.reapers[c].child;
    if d in s.waited then s.(broken := true)
    else s.(waited := s.waited + {d}, reapers := s.reapers[c := Sending(ExitStatus(d, ok))])
  }

  function Apply(s: State, e: Step): State
    requires Enabled(s, e)
  {
    match e
    case EnsureStarted(t) => if s.handle.Some? then s else Go(s, t, WantStart)
    case Restart(t) => Branch(s, t)
    case Stop(t) => Go(s, t, WantStop(false))
    case LockForStop(t, delivered) => AfterLockForStop(s, t, delivered)
    case LockForStart(t) => if s.handle.Some? then Go(s, t, Idle) else Go(s, t, Starting).(holder := Some(t))
    case Spawn(t, ok) => AfterSpawn(s, t, ok)
    case Lost => s.(dog := LostWaiting)
    case Receive(t) => AfterReceive(s, t)
    case Clear(t) => AfterClear(s, t)
    case ReaperReads(c) => AfterReaperReads(s, c)
    case ReaperReturns(c, ok) => AfterReaperReturns(s, c, ok)
    case ReaperSends(c) => s.(slot := Some(s.reapers[c].status), reapers := s.reapers[c := Finished])
    case Exits(c) => s.(alive := s.alive - {c})
  }

  predicate Runs(s: State, es: seq<Step>)
    decreases |es|
  {
    es == [] || (Enabled(s, es[0]) && Runs(Apply(s, es[0]), es[1..]))
  }

  function Exec(s: State, es: seq<Step>): State
    requires Runs(s, es)
    decreases |es|
  {
    if es == [] then s else Exec(Apply(s, es[0]), es[1..])
  }

  // ---------------------------------------------------------------- invariant

  predicate Consumed(s: State, c: Child) { exists i :: 0 <= i < |s.consumed| && s.consumed[i] == c }

  /** How far the child of the handle has come: running or about to be reported, reported, or consumed. */
  ghost predicate ReaperInv(s: State, c: Child)
    requires c in s.reapers
  {
    match s.reapers[c]
    case Spawned => s.handle == Some(c) && c !in s.waited && !Consumed(s, c) && s.slot.None?
    case Waiting(d) => d == c && s.handle == Some(c) && c !in s.waited && !Consumed(s, c) && s.slot.None?
    case Sending(x) => x.child == c && s.handle == Some(c) && c in s.waited && !Consumed(s, c) && s.slot.None?
    case Finished =>
      && c in s.waited
      && if s.slot.Some? && s.slot.value.child == c then s.handle == Some(c) && !Consumed(s, c) else Consumed(s, c)
  }

  /** The thread holds the lock exactly where stop and start hold it. */
  predicate LockInv(s: State, t: Thread)
  {
    s.holder == Some(t) <==> PcOf(s, t).StopWaiting? || PcOf(s, t).StopClearing? || PcOf(s, t).Starting?
  }

  /**
   * The thread has a claim on the child of the handle: to take its status, or, having taken it, to clear the handle.
   */
  predicate Takes(pc: Pc) { pc.StopWaiting? || pc.LostWaiting? }

  predicate Clears(pc: Pc) { pc.StopClearing? || pc.LostClearing? }

  predicate ThreadInv(s: State, t: Thread)
  {
    var pc := PcOf(s, t);
    && LockInv(s, t)
    && (Takes(pc) ==> s.handle.Some? && !Consumed(s, s.handle.value))
    && (pc.LostWaiting? ==> s.slot.Some?)
    && (Clears(pc) ==> s.handle.Some? && Consumed(s, s.handle.value))
    && (pc.Starting? ==> s.handle.None?)
  }

  ghost predicate ChildrenInv(s: State)
  {
    && !s.broken
    && (forall c: Child :: c in s.reapers <==> c < s.next)
    && (forall c: Child :: c in s.reapers ==> ReaperInv(s, c))
    && (forall c: Child :: c in s.alive ==> c < s.next && c !in s.waited)
    && (forall c: Child :: c in s.waited ==> c < s.next)
    && (s.handle.Some? ==> s.handle.value < s.next)
    && (s.slot.Some? ==> s.handle == Some(s.slot.value.child) && s.reapers[s.handle.value].Finished?)
  }

  predicate ConsumedInv(s: State)
  {
    && (forall i, j :: 0 <= i < j < |s.consumed| ==> s.consumed[i] != s.consumed[j])
    && (forall i :: 0 <= i < |s.consumed| ==> s.consumed[i] < s.next && s.consumed[i] in s.waited)
  }

  predicate ThreadsInv(s: State)
  {
    && ThreadInv(s, UpdateLoop) && ThreadInv(s, Watchdog) && !s.loop.LostWaiting? && !s.loop.LostClearing?
    && !(Takes(s.loop) && Takes(s.dog)) && !(Clears(s.loop) && Clears(s.dog))
  }

  ghost predicate Inv(s: State) { ChildrenInv(s) && ConsumedInv(s) && ThreadsInv(s) }

  /** Steps that only move a thread or the lock. */
  predicate SameChildren(s: State, s': State)
  {
    s' == s.(loop := s'.loop, dog := s'.dog, holder := s'.holder)
  }

  lemma SameChildrenKeepInv(s: State, s': State)
    requires Inv(s) && SameChildren(s, s')
    ensures ChildrenInv(s') && ConsumedInv(s')
  {
  }

  lemma ClearKeepsChildren(s: State, t: Thread)
    requires Inv(s) && Enabled(s, Clear(t))
    ensures ChildrenInv(AfterClear(s, t)) && ConsumedInv(AfterClear(s, t))
  {
    var s' := AfterClear(s, t);
    assert s'.consumed == s.consumed && s'.reapers == s.reapers && s'.slot == s.slot;
    assert ReaperInv(s, s.handle.value);
    forall c: Child | c in s'.reapers ensures ReaperInv(s', c) {
      assert ReaperInv(s, c);
      assert Consumed(s', c) <==> Consumed(s, c);
    }
  }

  /** The lock hands the child to at most one thread: once its status is out, no signal gets through. */
  lemma LockForStopKeepsThreads(s: State, t: Thread, delivered: bool)
    requires Inv(s) && Enabled(s, LockForStop(t, delivered))
    ensures ThreadsInv(AfterLockForStop(s, t, delivered))
  {
    var s' := AfterLockForStop(s, t, delivered);
    assert s'.consumed == s.consumed;
    if s.handle.Some? {
      assert ReaperInv(s, s.handle.value);
      assert Consumed(s', s.handle.value) <==> Consumed(s, s.handle.value);
    }
  }

  lemma LostKeepsThreads(s: State)
    requires Inv(s) && Enabled(s, Lost)
    ensures ThreadsInv(Apply(s, Lost))
  {
    assert ReaperInv(s, s.handle.value);
    assert Consumed(Apply(s, Lost), s.handle.value) <==> Consumed(s, s.handle.value);
  }

  lemma ClearKeepsThreads(s: State, t: Thread)
    requires Inv(s) && Enabled(s, Clear(t))
    ensures ThreadsInv(AfterClear(s, t))
  {
  }

  lemma ReadingKeepsThreads(s: State, e: Step)
    requires Inv(s) && Enabled(s, e) && (e.EnsureStarted? || e.Restart? || e.Stop? || e.LockForStart?)
    ensures ThreadsInv(Apply(s, e))
  {
  }

  lemma SpawnKeepsInv(s: State, t: Thread, ok: bool)
    requires Inv(s) && Enabled(s, Spawn(t, ok))
    ensures Inv(Apply(s, Spawn(t, ok)))
  {
  }

  lemma ReceiveConsumes(s: State, t: Thread, c: Child)
    requires Enabled(s, Receive(t))
    ensures Consumed(AfterReceive(s, t), c) <==> Consumed(s, c) || c == s.slot.value.child
  {
    var s' := AfterReceive(s, t);
    if Consumed(s, c) {
      var i :| 0 <= i < |s.consumed| && s.consumed[i] == c;
      assert s'.consumed[i] == c;
    }
    if c == s.slot.value.child { assert s'.consumed[|s.consumed|] == c; }
  }

  lemma ReceiveKeepsChildren(s: State, t: Thread)
    requires Inv(s) && Enabled(s, Receive(t))
    ensures ChildrenInv(AfterReceive(s, t))
  {
    var s' := AfterReceive(s, t);
    assert s' == s.(slot := None, consumed := s'.consumed, loop := s'.loop, dog := s'.dog, holder := s'.holder);
    forall c: Child | c in s'.reapers ensures ReaperInv(s', c) {
      assert ReaperInv(s, c);
      ReceiveConsumes(s, t, c);
    }
  }

  lemma ReceiveKeepsConsumed(s: State, t: Thread)
    requires Inv(s) && Enabled(s, Receive(t))
    ensures ConsumedInv(AfterReceive(s, t))
  {
    var d := s.slot.value.child;
    assert ReaperInv(s, d);
    forall i | 0 <= i < |s.consumed| ensures s.consumed[i] != d {
      assert s.consumed[i] == d ==> Consumed(s, d);
    }
  }

  lemma ReceiveKeepsThreads(s: State, t: Thread)
    requires Inv(s) && Enabled(s, Receive(t))
    ensures ThreadsInv(AfterReceive(s, t))
  {
    assert ReaperInv(s, s.slot.value.child);
    ReceiveConsumes(s, t, s.slot.value.child);
  }

  lemma ReaperKeepsInv(s: State, e: Step)
    requires Inv(s) && Enabled(s, e) && (e.ReaperReads? || e.ReaperReturns? || e.ReaperSends? || e.Exits?)
    ensures Inv(Apply(s, e))
  {
    var s' := Apply(s, e);
    assert s'.consumed == s.consumed;
    if !e.Exits? { assert ReaperInv(s, e.c); }
    forall c: Child | c in s'.reapers ensures ReaperInv(s', c) {
      assert ReaperInv(s, c);
      assert Consumed(s', c) <==> Consumed(s, c);
    }
  }

  lemma ThreadStepKeepsInv(s: State, e: Step)
    requires Inv(s) && Enabled(s, e)
    requires (e.EnsureStarted? || e.Restart? || e.Stop? || e.LockForStart? || e.LockForStop? || e.Lost?)
    ensures Inv(Apply(s, e))
  {
    SameChildrenKeepInv(s, Apply(s, e));
    match e
    case LockForStop(t, delivered) => LockForStopKeepsThreads(s, t, delivered);
    case Lost => LostKeepsThreads(s);
    case _ => ReadingKeepsThreads(s, e);
  }

  lemma StepKeepsInv(s: State, e: Step)
    requires Inv(s) && Enabled(s, e)
    ensures Inv(Apply(s, e))
  {
    match e
    case Spawn(t, ok) => SpawnKeepsInv(s, t, ok);
    case Receive(t) =>
      ReceiveKeepsChildren(s, t);
      ReceiveKeepsConsumed(s, t);
      ReceiveKeepsThreads(s, t);
    case Clear(t) =>
      ClearKeepsChildren(s, t);
      ClearKeepsThreads(s, t);
    case ReaperReads(_) => ReaperKeepsInv(s, e);
    case ReaperReturns(_, _) => ReaperKeepsInv(s, e);
    case ReaperSends(_) => ReaperKeepsInv(s, e);
    case Exits(_) => ReaperKeepsInv(s, e);
    case _ => ThreadStepKeepsInv(s, e);
  }

  lemma {:induction false} RunKeepsInv(s: State, es: seq<Step>)
    requires Inv(s) && Runs(s, es)
    ensures Inv(Exec(s, es))
    decreases |es|
  {
    if es != [] {
      StepKeepsInv(s, es[0]);
      RunKeepsInv(Apply(s, es[0]), es[1..]);
    }
  }

  // ------------------------------------------------------------- main results

  /** In every interleaving at most one child is alive, and it is the one of the handle. */
  lemma AtMostOneChildIsAlive(es: seq<Step>, c: Child, d: Child)
    requires Runs(INIT, es)
    ensures var s := Exec(INIT, es);
            (c in s.alive ==> s.handle == Some(c)) && (c in s.alive && d in s.alive ==> c == d)
  {
    RunKeepsInv(INIT, es);
    var s := Exec(INIT, es);
    if c in s.alive { assert ReaperInv(s, c); }
    if d in s.alive { assert ReaperInv(s, d); }
  }

  /** From its start until its status is read the handle names the child, and each reaper waits for its own child. */
  lemma HandleNamesTheChild(es: seq<Step>, c: Child)
    requires Runs(INIT, es)
    ensures var s := Exec(INIT, es);
            && !s.broken
            && (c < s.next && !Consumed(s, c) ==> s.handle == Some(c))
            && (c in s.reapers && s.reapers[c].Waiting? ==> s.reapers[c].child == c)
  {
    RunKeepsInv(INIT, es);
    var s := Exec(INIT, es);
    if c < s.next { assert ReaperInv(s, c); }
  }

  /** No exit is consumed twice, and none before the process is gone and waited for. */
  lemma ExitsAreConsumedOnce(es: seq<Step>)
    requires Runs(INIT, es)
    ensures var s := Exec(INIT, es);
            && (forall i, j :: 0 <= i < j < |s.consumed| ==> s.consumed[i] != s.consumed[j])
            && forall i :: 0 <= i < |s.consumed| ==> s.consumed[i] in s.waited && s.consumed[i] !in s.alive
  {
    RunKeepsInv(INIT, es);
  }

  /** Neither a reaper's send nor the watchdog's unlocked read ever blocks. */
  lemma ChannelNeverBlocksThem(es: seq<Step>, c: Child)
    requires Runs(INIT, es)
    ensures var s := Exec(INIT, es);
            (c in s.reapers && s.reapers[c].Sending? ==> Enabled(s, ReaperSends(c)))
              && (s.dog.LostWaiting? ==> Enabled(s, Receive(Watchdog)))
  {
    RunKeepsInv(INIT, es);
    var s := Exec(INIT, es);
    if c in s.reapers { assert ReaperInv(s, c); }
  }

  /** A signal that gets through reaches the one unconsumed child; once its status is out, signalling fails. */
  lemma SignalsReachTheChildOrNobody(es: seq<Step>)
    requires Runs(INIT, es)
    ensures var s := Exec(INIT, es);
            (CanSignal(s) ==> !Consumed(s, s.handle.value)) && (s.slot.Some? ==> !CanSignal(s))
  {
    RunKeepsInv(INIT, es);
    var s := Exec(INIT, es);
    if s.handle.Some? { assert ReaperInv(s, s.handle.value); }
  }

  // --------------------------------------------------------- the watchdog's restart

  /** The run starts a child and does not clear the handle after that. */
  ghost predicate LeavesAChild(es: seq<Step>)
  {
    exists i :: 0 <= i < |es| && StartsAChild(es[i]) && NeverClears(es[i + 1..])
  }

  predicate StartsAChild(e: Step) { e.Spawn? && e.ok }

  predicate NeverClears(es: seq<Step>) { forall i :: 0 <= i < |es| ==> !es[i].Clear? }

  lemma LeavesAChildFromRest(e: Step, es: seq<Step>)
    ensures LeavesAChild([e] + es) <==> LeavesAChild(es) || (StartsAChild(e) && NeverClears(es))
  {
    var all := [e] + es;
    assert all[1..] == es;
    forall i | 0 <= i < |es| ensures all[i + 1] == es[i] && all[i + 2..] == es[i + 1..] {}
    if LeavesAChild(all) {
      var i :| 0 <= i < |all| && StartsAChild(all[i]) && NeverClears(all[i + 1..]);
      if i > 0 { assert StartsAChild(es[i - 1]) && NeverClears(es[i..]); }
    }
    if j :| 0 <= j < |es| && StartsAChild(es[j]) && NeverClears(es[j + 1..]) {
      assert StartsAChild(all[j + 1]) && NeverClears(all[j + 2..]);
    }
    if StartsAChild(e) && NeverClears(es) { assert StartsAChild(all[0]) && NeverClears(all[1..]); }
  }

  /** Only a start and a clearing touch the handle. */
  lemma {:induction false} HandleIsSetExactlyByStarts(s: State, es: seq<Step>)
    requires Runs(s, es)
    ensures Exec(s, es).handle.Some? <==> LeavesAChild(es) || (s.handle.Some? && NeverClears(es))
    decreases |es|
  {
    if es != [] {
      HandleIsSetExactlyByStarts(Apply(s, es[0]), es[1..]);
      assert [es[0]] + es[1..] == es;
      LeavesAChildFromRest(es[0], es[1..]);
      assert NeverClears(es) <==> !es[0].Clear? && NeverClears(es[1..]) by {
        forall i | 0 < i < |es| ensures es[i] == es[1..][i - 1] {}
      }
    }
  }

  /**
   * The watchdog clears the handle without the lock and takes the lock only to start again. Its start is refused, which
   * it treats as fatal, if and only if a child was started in this window and its handle has not been cleared again.
   */
  lemma WatchdogIsRefusedExactlyAfterAStart(s: State, window: seq<Step>)
    requires s.handle.None? && Runs(s, window) && Enabled(Exec(s, window), LockForStart(Watchdog))
    ensures Apply(Exec(s, window), LockForStart(Watchdog)).dog == if LeavesAChild(window) then Idle else Starting
  {
    HandleIsSetExactlyByStarts(s, window);
  }

  ghost predicate Leads(s: State, s': State)
  {
    exists es :: Runs(s, es) && Exec(s, es) == s'
  }

  ghost predicate Reachable(s: State) { Leads(INIT, s) }

  lemma {:induction false} RunsExtend(s: State, es: seq<Step>, e: Step)
    requires Runs(s, es) && Enabled(Exec(s, es), e)
    ensures Runs(s, es + [e]) && Exec(s, es + [e]) == Apply(Exec(s, es), e)
    decreases |es|
  {
    if es == [] {
      assert Runs(Apply(s, e), []);
    } else {
      RunsExtend(Apply(s, es[0]), es[1..], e);
      assert (es + [e])[1..] == es[1..] + [e];
    }
  }

  lemma LeadsOn(from: State, s: State, e: Step, s': State)
    requires Leads(from, s) && Enabled(s, e) && Apply(s, e) == s'
    ensures Leads(from, s')
  {
    var es :| Runs(from, es) && Exec(from, es) == s;
    RunsExtend(from, es, e);
  }

  lemma NextIsReachable(s: State, e: Step)
    requires Reachable(s) && Enabled(s, e)
    ensures Reachable(Apply(s, e))
  {
    LeadsOn(INIT, s, e, Apply(s, e));
  }

  // ------------------------------------------------------------ stop and restart

  /** The thread makes no further call: it only carries on with the one it is in. */
  predicate NoCallOf(t: Thread, es: seq<Step>)
  {
    forall i :: 0 <= i < |es| ==>
      es[i] != EnsureStarted(t) && es[i] != Restart(t) && es[i] != Stop(t) && (t.Watchdog? ==> !es[i].Lost?)
  }

  predicate Stopping(pc: Pc, restart: bool)
  {
    pc == WantStop(restart) || pc == StopWaiting(restart) || pc == StopClearing(restart)
  }

  /** A plain stop, however it goes and whatever the others do, never starts a child. */
  lemma {:induction false} PlainStopStartsNothing(s: State, t: Thread, es: seq<Step>)
    requires (Stopping(PcOf(s, t), false) || PcOf(s, t).Idle?) && Runs(s, es) && NoCallOf(t, es)
    ensures forall i, ok :: 0 <= i < |es| ==> es[i] != Spawn(t, ok)
    ensures Stopping(PcOf(Exec(s, es), t), false) || PcOf(Exec(s, es), t).Idle?
    decreases |es|
  {
    if es != [] {
      RestMakesNoCall(t, es);
      PlainStopStartsNothing(Apply(s, es[0]), t, es[1..]);
      forall i | 0 < i < |es| ensures es[i] == es[1..][i - 1] {}
    }
  }

  lemma RestMakesNoCall(t: Thread, es: seq<Step>)
    requires es != [] && NoCallOf(t, es)
    ensures NoCallOf(t, es[1..])
  {
    forall i | 0 <= i < |es| - 1 ensures es[1..][i] == es[i + 1] {}
  }

  lemma {:induction false} WantStartStays(s: State, t: Thread, es: seq<Step>)
    requires PcOf(s, t).WantStart? && Runs(s, es) && NoCallOf(t, es) && LockForStart(t) !in es
    ensures PcOf(Exec(s, es), t).WantStart?
    decreases |es|
  {
    if es != [] {
      RestMakesNoCall(t, es);
      WantStartStays(Apply(s, es[0]), t, es[1..]);
    }
  }

  /**
   * The stop of a restart goes on to start: once it has cleared the handle, the thread is about to start until it takes
   * the lock for it, and does nothing else.
   */
  lemma {:induction false} RestartGoesOnToStart(s: State, t: Thread, es: seq<Step>)
    requires Stopping(PcOf(s, t), true) && Runs(s, es) && NoCallOf(t, es) && LockForStart(t) !in es
    ensures Clear(t) in es ==> PcOf(Exec(s, es), t).WantStart?
    decreases |es|
  {
    if es != [] {
      var s', rest := Apply(s, es[0]), es[1..];
      RestMakesNoCall(t, es);
      assert es == [es[0]] + rest;
      if Stopping(PcOf(s', t), true) {
        RestartGoesOnToStart(s', t, rest);
      } else if PcOf(s', t).WantStart? {
        WantStartStays(s', t, rest);
      } else {
        IdleClearsNothing(s', t, rest);
      }
    }
  }

  lemma {:induction false} IdleClearsNothing(s: State, t: Thread, es: seq<Step>)
    requires PcOf(s, t).Idle? && Runs(s, es) && NoCallOf(t, es)
    ensures Clear(t) !in es
    decreases |es|
  {
    if es != [] {
      RestMakesNoCall(t, es);
      IdleClearsNothing(Apply(s, es[0]), t, es[1..]);
      assert es == [es[0]] + es[1..];
    }
  }

  /** Child c runs and nothing is going on. */
  predicate RunsQuietly(s: State, c: Child)
  {
    && s.handle == Some(c) && s.holder.None? && s.slot.None? && s.loop.Idle? && s.dog.Idle?
    && c in s.alive && c !in s.waited && c in s.reapers && s.reapers[c] == Waiting(c)
  }

  /** A stop that goes well: the child ends, its status is taken, the handle is cleared. */
  function Stopped(s: State, c: Child): State
  {
    s.(alive := s.alive - {c}, waited := s.waited + {c}, reapers := s.reapers[c := Finished],
      consumed := s.consumed + [c], handle := None)
  }

  /** SIGTERM, and the child's end on its way to the channel. */
  lemma ChildCanEnd(s: State, t: Thread, c: Child, restart: bool)
    requires RunsQuietly(s, c)
    ensures Leads(Go(s, t, WantStop(restart)),
                  Go(s, t, StopWaiting(restart)).(holder := Some(t), alive := s.alive - {c}, waited := s.waited + {c},
                    reapers := s.reapers[c := Sending(ExitStatus(c, true))]))
  {
    var s0 := Go(s, t, WantStop(restart));
    assert Runs(s0, []) && Exec(s0, []) == s0;
    var s1 := Go(s, t, StopWaiting(restart)).(holder := Some(t));
    LeadsOn(s0, s0, LockForStop(t, true), s1);
    var s2 := s1.(alive := s.alive - {c});
    LeadsOn(s0, s1, Exits(c), s2);
    var s3 := s2.(waited := s.waited + {c}, reapers := s.reapers[c := Sending(ExitStatus(c, true))]);
    LeadsOn(s0, s2, ReaperReturns(c, true), s3);
  }

  lemma StoppingCanEndTheChild(s: State, t: Thread, c: Child, restart: bool)
    requires RunsQuietly(s, c)
    ensures Leads(Go(s, t, WantStop(restart)), Go(Stopped(s, c), t, if restart then WantStart else Idle))
  {
    ChildCanEnd(s, t, c, restart);
    var s0 := Go(s, t, WantStop(restart));
    var s3 := Go(s, t, StopWaiting(restart)).(holder := Some(t), alive := s.alive - {c}, waited := s.waited + {c},
      reapers := s.reapers[c := Sending(ExitStatus(c, true))]);
    var s4 := s3.(slot := Some(ExitStatus(c, true)), reapers := s.reapers[c := Finished]);
    LeadsOn(s0, s3, ReaperSends(c), s4);
    var s5 := Go(s4, t, StopClearing(restart)).(slot := None, consumed := s.consumed + [c]);
    LeadsOn(s0, s4, Receive(t), s5);
    LeadsOn(s0, s5, Clear(t), Go(Stopped(s, c), t, if restart then WantStart else Idle));
  }

  /** Stop can end the child, leaving none; Restart can end it and start another. */
  lemma StopEndsAndRestartReplaces(s: State, t: Thread, c: Child)
    requires RunsQuietly(s, c)
    ensures Enabled(s, Stop(t)) && Leads(Apply(s, Stop(t)), Stopped(s, c))
    ensures Enabled(s, Restart(t))
    ensures Leads(Apply(s, Restart(t)),
                  Stopped(s, c).(handle := Some(s.next), next := s.next + 1, alive := s.alive - {c} + {s.next},
                    reapers := s.reapers[c := Finished][s.next := Spawned]))
  {
    StoppingCanEndTheChild(s, t, c, false);
    StoppingCanEndTheChild(s, t, c, true);
    var from, s1 := Go(s, t, WantStop(true)), Go(Stopped(s, c), t, WantStart);
    var s2 := Go(s1, t, Starting).(holder := Some(t));
    LeadsOn(from, s1, LockForStart(t), s2);
    LeadsOn(from, s2, Spawn(t, true), AfterSpawn(s2, t, true));
  }

  /** The first child, started by the update loop. */
  lemma FirstChildRuns()
    ensures Reachable(State(Some(0), None, None, Idle, Idle, 1, {0}, {}, [], map[0 := Waiting(0)], false))
  {
    assert Runs(INIT, []) && Exec(INIT, []) == INIT;
    NextIsReachable(INIT, EnsureStarted(UpdateLoop));
    NextIsReachable(INIT.(loop := WantStart), LockForStart(UpdateLoop));
    NextIsReachable(INIT.(loop := Starting, holder := Some(UpdateLoop)), Spawn(UpdateLoop, true));
    var s := State(Some(0), None, None, Idle, Idle, 1, {0}, {}, [], map[0 := Spawned], false);
    assert Apply(INIT.(loop := Starting, holder := Some(UpdateLoop)), Spawn(UpdateLoop, true)) == s;
    NextIsReachable(s, ReaperReads(0));
    assert Apply(s, ReaperReads(0)) == s.(reapers := map[0 := Waiting(0)]);
  }

  /** It dies, its status is on the channel. */
  lemma FirstChildIsLost()
    ensures Reachable(State(Some(0), None, Some(ExitStatus(0, true)), Idle, Idle, 1, {}, {0}, [], map[0 := Finished],
        false))
  {
    FirstChildRuns();
    var s := State(Some(0), None, None, Idle, Idle, 1, {0}, {}, [], map[0 := Waiting(0)], false);
    NextIsReachable(s, Exits(0));
    var s1 := s.(alive := {});
    assert Apply(s, Exits(0)) == s1;
    NextIsReachable(s1, ReaperReturns(0, true));
    var s2 := s1.(waited := {0}, reapers := map[0 := Sending(ExitStatus(0, true))]);
    assert Apply(s1, ReaperReturns(0, true)) == s2;
    NextIsReachable(s2, ReaperSends(0));
    assert Apply(s2, ReaperSends(0)) == s2.(slot := Some(ExitStatus(0, true)), reapers := map[0 := Finished]);
  }

  /** The watchdog notices, takes the status and clears the handle. */
  lemma WatchdogReachesRestart()
    ensures Reachable(State(None, None, None, Idle, Restarting, 1, {}, {0}, [0], map[0 := Finished], false))
  {
    FirstChildIsLost();
    var s := State(Some(0), None, Some(ExitStatus(0, true)), Idle, Idle, 1, {}, {0}, [], map[0 := Finished], false);
    NextIsReachable(s, Lost);
    NextIsReachable(s.(dog := LostWaiting), Receive(Watchdog));
    var s1 := s.(slot := None, dog := LostClearing, consumed := [0]);
    assert Apply(s.(dog := LostWaiting), Receive(Watchdog)) == s1;
    NextIsReachable(s1, Clear(Watchdog));
  }

  /**
   * And it can happen: from the start there is a run on which the update loop starts a child first, and the watchdog
   * is refused while that child runs.
   */
  lemma WatchdogCanLoseTheRace()
    ensures exists s :: Reachable(s) && Enabled(s, LockForStart(Watchdog)) && s.handle == Some(1) && 1 in s.alive
                        && Apply(s, LockForStart(Watchdog)) == s.(dog := Idle)
  {
    WatchdogReachesRestart();
    var s := State(None, None, None, Idle, Restarting, 1, {}, {0}, [0], map[0 := Finished], false);
    NextIsReachable(s, Restart(Watchdog));
    var s1 := s.(dog := WantStart);
    NextIsReachable(s1, EnsureStarted(UpdateLoop));
    NextIsReachable(s1.(loop := WantStart), LockForStart(UpdateLoop));
    NextIsReachable(s1.(loop := Starting, holder := Some(UpdateLoop)), Spawn(UpdateLoop, true));
    var s2 := Apply(s1.(loop := Starting, holder := Some(UpdateLoop)), Spawn(UpdateLoop, true));
    assert Reachable(s2) && s2.handle == Some(1) && 1 in s2.alive;
  }
}
