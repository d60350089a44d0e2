/** The ingestion worker as functions on values: one pass against an arbitrary block source under arbitrary faults. */
module Worker {
  import opened Primitives
  import opened Types
  import opened Roots
  import opened Reducer
  import opened Tables
  import opened Validators

  /** The worker's own state next to the database it shares. */
  datatype World = World(worker: ChainState, db: Db)

  /** Every answer a block source can give during one pass; `None` is a failed call. No answer is assumed truthful. */
  datatype Node = Node(
    ready: Option<bool>, best: Option<u64>, hashAt: u64 -> Option<Hash32>, blockAt: u64 -> Option<BlockView>,
    initHeight: Option<Option<u64>>)

  /** What befalls the n-th rollback, the commit at each height, and the reload after a failed commit. */
  datatype Plan = Plan(rollback: nat -> Fault, commit: u64 -> Fault, reloads: bool)

  datatype PassError =
    | SourceFailed | NotReady | TipHashMissing | NoRollbackJournal | HeightOverflow
    | StoreFailed(store: StoreError) | ReductionFailed(reducer: ReducerError)

  datatype Outcome = Outcome(world: World, result: Guard<PassError>)

  ghost predicate Deliverable(node: Node) {
    forall h: u64 :: node.blockAt(h).Some? ==> BlockFits(node.blockAt(h).value)
  }

  /** Every state the database could hand back is one the reducer can run on. */
  ghost predicate SafeDb(db: Db) {
    (db.row.Some? ==> Bounded(db.row.value.state)) &&
    (forall h :: h in db.blocks ==> Bounded(db.blocks[h].inverse.before))
  }

  ghost predicate Safe(w: World) { Bounded(w.worker) && SafeDb(w.db) }

  lemma {:induction false} InsertEventsFrame(db: Db, events: seq<Event>)
    ensures var r := InsertEvents(db, events); r.Ok? ==> r.value.row == db.row && r.value.blocks == db.blocks
    decreases |events|
  {
    if |events| > 0 { InsertEventsFrame(db, events[..|events| - 1]); }
  }

  lemma {:induction false} InsertObjectsFrame(db: Db, objs: seq<ObjectState>)
    ensures var r := InsertObjects(db, objs); r.Ok? ==> r.value.row == db.row && r.value.blocks == db.blocks
    decreases |objs|
  {
    if |objs| > 0 { InsertObjectsFrame(db, objs[..|objs| - 1]); }
  }

  /** A rollback that finds a tip removes exactly its journal row, so a loop of rollbacks ends. */
  lemma RollbackShrinks(db: Db)
    requires SafeDb(db)
    ensures var r := Rollback(db);
            r.Ok? && r.value.Undone? ==>
              SafeDb(r.value.db) && Bounded(r.value.state) && |r.value.db.blocks| < |db.blocks| && r.value.db.row.Some?
  {
    hide Bounded, DisconnectBlock, ObjectsInOrder;
    var r := Rollback(db);
    if r.Ok? && r.value.Undone? {
      var tip := db.row.value.state.tipHeight.value;
      InsertObjectsFrame(DeleteBlock(db, tip).(objects := map[]), ObjectsInOrder(r.value.state.objects));
      assert DisconnectBlock(db.row.value.state, db.blocks[tip].inverse) == Ok(db.blocks[tip].inverse.before) by {
        RestoresBefore(db.row.value.state, db.blocks[tip].inverse);
      }
      assert (db.blocks - {tip}).Keys == db.blocks.Keys - {tip};
      assert |db.blocks| == |db.blocks.Keys| && |db.blocks - {tip}| == |(db.blocks - {tip}).Keys|;
    }
  }

  lemma RestoresBefore(st: ChainState, delta: BlockDelta)
    ensures DisconnectBlock(st, delta).Ok? ==> DisconnectBlock(st, delta) == Ok(delta.before)
  {
  }

  lemma CommitIsSafe(db: Db, post: ChainState, delta: BlockDelta)
    requires SafeDb(db) && Bounded(post) && Bounded(delta.before)
    ensures Commit(db, post, delta).Ok? ==> SafeDb(Commit(db, post, delta).value) && db.row.Some?
  {
    hide Bounded, InsertEvents, ObjectsInOrder;
    var r := Commit(db, post, delta);
    if r.Ok? {
      var inserted := InsertBlock(db, delta).value;
      InsertEventsFrame(inserted, delta.events);
      InsertObjectsFrame(InsertEvents(inserted, delta.events).value.(objects := map[]), ObjectsInOrder(post.objects));
    }
  }

  // ---------- the pass ----------

  /** Roll back until the worker's tip is the node's block at its height. */
  function Reconcile(node: Node, plan: Plan, best: u64, w: World, n: nat): (r: Outcome)
    requires Safe(w)
    ensures Safe(r.world)
    decreases |w.db.blocks|
  {
    if w.worker.tipHeight.None? then Outcome(w, Pass)
    else
      var tip := w.worker.tipHeight.value;
      if tip <= best && node.hashAt(tip).None? then Outcome(w, Fail(SourceFailed))
      else if w.worker.tipHash.None? then Outcome(w, Fail(TipHashMissing))
      else if tip <= best && node.hashAt(tip) == w.worker.tipHash then Outcome(w, Pass)
      else
        RollbackShrinks(w.db);
        match Rollback(w.db)
        case Err(error) => Outcome(w, Fail(StoreFailed(error)))
        case Ok(NothingToUndo) => Outcome(w, Fail(NoRollbackJournal))
        case Ok(Undone(less, st)) =>
          if plan.rollback(n) != Healthy
          then Outcome(w.(db := Settled(w.db, Ok(less), plan.rollback(n))), Fail(StoreFailed(CommitFailed)))
          else if st.protocolStatus.AwaitingInit? then Outcome(World(st, less), Pass)
          else Reconcile(node, plan, best, World(st, less), n + 1)
  }

  /** What the worker holds after a commit was reported failed: the reloaded row, or the state before the block. */
  function Resumed(before: ChainState, db: Db, reloads: bool): ChainState {
    if reloads && db.row.Some? then db.row.value.state else before
  }

  /** Reduce and commit the blocks from `height` to `best`. */
  function CatchUp(c: Crypto, node: Node, plan: Plan, best: u64, w: World, height: nat): (r: Outcome)
    requires Safe(w) && Deliverable(node)
    ensures Safe(r.world)
    decreases best + 1 - height
  {
    if height > best then Outcome(w, Pass)
    else if node.blockAt(height).None? then Outcome(w, Fail(SourceFailed))
    else
      match ApplyBlock(c, w.worker, node.blockAt(height).value)
      case Err(error) => Outcome(w, Fail(ReductionFailed(error)))
      case Ok(Applied(post, delta)) =>
        assert delta.before == w.worker;
        CommitIsSafe(w.db, post, delta);
        var attempt := Commit(w.db, post, delta);
        var db := Settled(w.db, attempt, plan.commit(height));
        match Reported(attempt, plan.commit(height))
        case Fail(error) => Outcome(World(Resumed(delta.before, db, plan.reloads), db), Fail(StoreFailed(error)))
        case Pass => CatchUp(c, node, plan, best, World(post, db), height + 1)
  }

  function RunOnce(c: Crypto, node: Node, plan: Plan, w: World): (r: Outcome)
    requires Safe(w) && Deliverable(node)
    ensures Safe(r.world)
  {
    if node.ready.None? then Outcome(w, Fail(SourceFailed))
    else if !node.ready.value then Outcome(w, Fail(NotReady))
    else if node.best.None? then Outcome(w, Fail(SourceFailed))
    else
      var best := node.best.value;
      var reconciled := Reconcile(node, plan, best, w, 0);
      if reconciled.result.Fail? then reconciled
      else FromHere(c, node, plan, best, reconciled.world)
  }

  /** The catch-up half of a pass. */
  function FromHere(c: Crypto, node: Node, plan: Plan, best: u64, w: World): (r: Outcome)
    requires Safe(w) && Deliverable(node)
    ensures Safe(r.world)
  {
    if w.worker.tipHeight.Some? then
      var first := CheckedAdd(w.worker.tipHeight.value, 1);
      if first.None? then Outcome(w, Fail(HeightOverflow)) else CatchUp(c, node, plan, best, w, first.value)
    else if node.initHeight.None? then Outcome(w, Fail(SourceFailed))
    else if node.initHeight.value.None? then Outcome(w, Pass)
    else CatchUp(c, node, plan, best, w, node.initHeight.value.value)
  }
}
