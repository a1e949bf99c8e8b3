/**
 * Clean-up of entries whose preparation was never finished. The cleaner reads the checkpoint without the
 * lock and asks the API server about each candidate; anything may happen between those steps.
 */
module StaleCleanup {
  import opened Text

  type Uid = string

  datatype ObjectName = ObjectName(namespace: string, name: string)

  datatype Entry = Started(ref: ObjectName) | Completed

  datatype Answer = NotFound | Present(uid: Uid) | Failed

  /**
   * `claims` are the objects in the API server, by name; `born` is the name under which each UID was ever created.
   * `candidates` is what is left of the cleaner's snapshot, `doomed` the claim it is about to unprepare.
   */
  datatype World = World(claims: map<ObjectName, Uid>, born: map<Uid, ObjectName>, checkpoint: map<Uid, Entry>,
                         candidates: map<Uid, ObjectName>, doomed: Option<Uid>)

  const EMPTY := World(map[], map[], map[], map[], None)

  datatype Step =
    | CreateClaim(ref: ObjectName, uid: Uid)
    | DeleteClaim(ref: ObjectName)
    | PrepareStarts(uid: Uid)
    | PrepareCompletes(uid: Uid)
    | KubeletUnprepares(uid: Uid)
    | Snapshot
    | LookUp(uid: Uid, reached: bool)
    | SelfUnprepare(ok: bool)

  /** UIDs are never used twice, and a claim is prepared only if it existed. */
  predicate Enabled(w: World, e: Step)
  {
    match e
    case CreateClaim(ref, uid) => ref !in w.claims && uid !in w.born && ref.name != ""
    case DeleteClaim(ref) => ref in w.claims
    case PrepareStarts(uid) => uid in w.born
    case PrepareCompletes(uid) => uid in w.checkpoint && w.checkpoint[uid].Started?
    case KubeletUnprepares(uid) => true
    case Snapshot => w.doomed.None?
    case LookUp(uid, _) => uid in w.candidates && w.doomed.None?
    case SelfUnprepare(_) => w.doomed.Some?
  }

  /** Get by name, as things are at that moment. */
  function Get(w: World, ref: ObjectName, reached: bool): Answer
  {
    if !reached then Failed else if ref in w.claims then Present(w.claims[ref]) else NotFound
  }

  /** The claim of the checkpoint entry is stale: its name is known and leads to nothing, or to another claim. */
  predicate IsStale(uid: Uid, ref: ObjectName, answer: Answer)
  {
    ref.name != "" && (answer.NotFound? || (answer.Present? && answer.uid != uid))
  }

  /** The unfinished entries, by UID. */
  function Unfinished(checkpoint: map<Uid, Entry>): map<Uid, ObjectName>
  {
    map u | u in checkpoint && checkpoint[u].Started? :: checkpoint[u].ref
  }

  function Apply(w: World, e: Step): World
    requires Enabled(w, e)
  {
    match e
    case CreateClaim(ref, uid) => w.(claims := w.claims[ref := uid], born := w.born[uid := ref])
    case DeleteClaim(ref) => w.(claims := w.claims - {ref})
    case PrepareStarts(uid) =>
      if uid in w.checkpoint && w.checkpoint[uid].Completed? then w
        else w.(checkpoint := w.checkpoint[uid := Started(w.born[uid])])
    case PrepareCompletes(uid) => w.(checkpoint := w.checkpoint[uid := Completed])
    case KubeletUnprepares(uid) => w.(checkpoint := w.checkpoint - {uid})
    case Snapshot => w.(candidates := Unfinished(w.checkpoint))
    case LookUp(uid, reached) =>
      w.(candidates := w.candidates - {uid},
         doomed := if IsStale(uid, w.candidates[uid], Get(w, w.candidates[uid], reached)) then Some(uid) else None)
    case SelfUnprepare(ok) => w.(doomed := None, checkpoint := if ok
      then w.checkpoint - {w.doomed.value} else w.checkpoint)
  }

  predicate Runs(w: World, es: seq<Step>)
    decreases |es|
  {
    es == [] || (Enabled(w, es[0]) && Runs(Apply(w, es[0]), es[1..]))
  }

  function Exec(w: World, es: seq<Step>): World
    requires Runs(w, es)
    decreases |es|
  {
    if es == [] then w else Exec(Apply(w, es[0]), es[1..])
  }

  /** Some object in the API server has the UID. */
  predicate Exists(w: World, uid: Uid)
  {
    uid in w.born && w.born[uid] in w.claims && w.claims[w.born[uid]] == uid
  }

  ghost predicate Inv(w: World)
  {
    && (forall ref :: ref in w.claims ==> w.claims[ref] in w.born && w.born[w.claims[ref]] == ref)
    && (forall u :: u in w.checkpoint && w.checkpoint[u].Started? ==> u in w.born && w.born[u] == w.checkpoint[u].ref)
    && (forall u :: u in w.candidates ==> u in w.born && w.born[u] == w.candidates[u])
    && (w.doomed.Some? ==> w.doomed.value in w.born && !Exists(w, w.doomed.value))
  }

  lemma StepKeepsInv(w: World, e: Step)
    requires Inv(w) && Enabled(w, e)
    ensures Inv(Apply(w, e))
  {
  }

  lemma {:induction false} RunKeepsInv(w: World, es: seq<Step>)
    requires Inv(w) && Runs(w, es)
    ensures Inv(Exec(w, es))
    decreases |es|
  {
    if es != [] {
      StepKeepsInv(w, es[0]);
      RunKeepsInv(Apply(w, es[0]), es[1..]);
    }
  }

  /** A claim that is gone stays gone. */
  lemma {:induction false} GoneStaysGone(w: World, es: seq<Step>, uid: Uid)
    requires Inv(w) && Runs(w, es) && uid in w.born && !Exists(w, uid)
    ensures !Exists(Exec(w, es), uid)
    decreases |es|
  {
    if es != [] {
      StepKeepsInv(w, es[0]);
      GoneStaysGone(Apply(w, es[0]), es[1..], uid);
    }
  }

  /**
   * Whatever happened since the snapshot was taken and since the API server answered: the only entry that the cleaner
   * removes is that of a claim whose UID no longer exists, and from then on never will.
   */
  lemma CleanupRemovesOnlyGoneClaims(es: seq<Step>, later: seq<Step>, uid: Uid)
    requires Runs(EMPTY, es) && Exec(EMPTY, es).doomed.Some?
    requires Runs(Apply(Exec(EMPTY, es), SelfUnprepare(true)), later)
    ensures var w := Exec(EMPTY, es);
            var after := Apply(w, SelfUnprepare(true));
            (uid in w.checkpoint && uid !in after.checkpoint ==> !Exists(w, uid) && !Exists(Exec(after, later), uid))
            && (uid in after.checkpoint <==> uid in w.checkpoint && uid != w.doomed.value)
            && (uid in after.checkpoint ==> after.checkpoint[uid] == w.checkpoint[uid])
  {
    RunKeepsInv(EMPTY, es);
    var w := Exec(EMPTY, es);
    StepKeepsInv(w, SelfUnprepare(true));
    var after := Apply(w, SelfUnprepare(true));
    if uid == w.doomed.value { GoneStaysGone(after, later, uid); }
  }

  /**
   * An unfinished entry of a claim that is gone is found out by the next sweep that reaches the API server, and a
   * successful unpreparation then removes it; the entry of a claim that exists stays.
   */
  lemma GoneClaimsAreFound(es: seq<Step>, uid: Uid)
    requires Runs(EMPTY, es) && Enabled(Exec(EMPTY, es), Snapshot)
    requires uid in Exec(EMPTY, es).checkpoint && Exec(EMPTY, es).checkpoint[uid].Started?
    requires Exec(EMPTY, es).checkpoint[uid].ref.name != ""
    ensures var w := Apply(Exec(EMPTY, es), Snapshot);
            Enabled(w, LookUp(uid, true)) && (Apply(w, LookUp(uid, true)).doomed == Some(uid) <==> !Exists(w, uid))
              && (!Exists(w, uid) ==>
                    uid !in Apply(Apply(w, LookUp(uid, true)), SelfUnprepare(true)).checkpoint)
              && (Exists(w, uid) ==> Apply(w, LookUp(uid, true)) == w.(candidates := w.candidates - {uid}))
  {
    RunKeepsInv(EMPTY, es);
  }

  // ------------------------------------------------------------------ the cleaner

  /** The snapshot's candidates. */
  method FilterUnfinished(checkpoint: map<Uid, Entry>) returns (filtered: map<Uid, ObjectName>)
    ensures filtered == Unfinished(checkpoint)
    ensures forall u :: u in filtered <==> u in checkpoint && checkpoint[u].Started?
    ensures forall u :: u in filtered ==> filtered[u] == checkpoint[u].ref
  {
    filtered := map[];
    var todo := checkpoint.Keys;
    while todo != {}
      invariant todo <= checkpoint.Keys
      invariant filtered == map u | u in checkpoint && u !in todo && checkpoint[u].Started? :: checkpoint[u].ref
      decreases |todo|
    {
      var u :| u in todo;
      todo := todo - {u};
      if checkpoint[u].Started? {
        filtered := filtered[u := checkpoint[u].ref];
      }
    }
  }

  /** unprepareIfStale, up to the call. */
  method DecideStale(uid: Uid, ref: ObjectName, answer: Answer) returns (stale: bool)
    ensures stale <==> IsStale(uid, ref, answer)
    ensures stale <==> ref.name != "" && (answer == NotFound || (answer.Present? && answer != Present(uid)))
  {
    if ref.name == "" { return false; }
    if answer.NotFound? { return true; }
    if answer.Failed? { return false; }
    stale := answer.uid != uid;
  }
}
