/** The transactional store as an object: each method works on a private copy of the tables, statement by statement,
    and publishes the copy only when the transaction commits. */
module Database {
  import opened Primitives
  import opened Types
  import opened Roots
  import opened Reducer
  import opened Tables
  import opened LiveState

  class Store {
    var row: Option<StateRow>
    var blocks: map<u64, BlockRow>
    var events: map<EventKey, Event>
    var objects: map<Hash32, ObjectRow>
    var reorgs: seq<ReorgRow>

    function Value(): Db
      reads this
    {
      Db(row, blocks, events, objects, reorgs)
    }

    constructor ()
      ensures Value() == EMPTY_DB
    {
      row, blocks, events, objects, reorgs := None, map[], map[], map[], [];
    }

    method Publish(db: Db)
      modifies this
      ensures Value() == db
    {
      row, blocks, events, objects, reorgs := db.row, db.blocks, db.events, db.objects, db.reorgs;
    }

    /** Commit a prepared transaction through a possible fault. */
    method Finish(db: Db, fault: Fault) returns (r: Guard<StoreError>)
      modifies this
      ensures Value() == Settled(old(Value()), Ok(db), fault) && r == Reported(Ok(db), fault)
    {
      if fault == Lost { return Fail(CommitFailed); }
      Publish(db);
      r := if fault == Unacknowledged then Fail(CommitFailed) else Pass;
    }

    /** One block, atomically: either every table moves to the committed value or none changes. */
    method ApplyBlock(post: ChainState, delta: BlockDelta, fault: Fault) returns (r: Guard<StoreError>)
      modifies this
      ensures Value() == Settled(old(Value()), Commit(old(Value()), post, delta), fault)
      ensures r == Reported(Commit(old(Value()), post, delta), fault)
    {
      if post.tipHeight != Some(delta.height) { return Fail(PostHeightMismatch); }
      if post.tipHash != Some(delta.blockHash) { return Fail(PostHashMismatch); }
      if row.None? { return Fail(NoState); }
      if row.value.state != delta.before { return Fail(StateChanged); }
      var withBlock := InsertBlock(Value(), delta);
      if withBlock.Err? { return Fail(withBlock.error); }
      var withEvents := InsertEventRows(withBlock.value, delta.events);
      if withEvents.Err? { return Fail(withEvents.error); }
      var synced := RebuildObjects(withEvents.value, post);
      if synced.Err? { return Fail(synced.error); }
      r := Finish(SaveState(synced.value, post), fault);
    }

    /** Undo exactly the current tip and record the disconnection. */
    method RollbackTip(fault: Fault) returns (r: Result<Option<ChainState>, StoreError>)
      modifies this
      ensures match Tables.Rollback(old(Value()))
              case Err(error) => r == Result<Option<ChainState>, StoreError>.Err(error) && Value() == old(Value())
              case Ok(NothingToUndo) => r == Result<Option<ChainState>, StoreError>.Ok(None) && Value() == old(Value())
              case Ok(Undone(db, st)) =>
                Value() == Settled(old(Value()), Ok(db), fault) &&
                r == if fault == Healthy then Ok(Some(st)) else Err(CommitFailed)
    {
      if row.None? { return Err(NoState); }
      var state := row.value.state;
      if state.tipHeight.None? { return Ok(None); }
      var tip := state.tipHeight.value;
      if tip > I64_MAX { return Err(HeightTooLarge); }
      if tip !in blocks { return Err(NoJournal); }
      var delta := blocks[tip].inverse;
      var live := new LiveChain(state);
      var disconnected := live.DisconnectBlock(delta);
      if disconnected.Fail? { return Err(JournalMismatch); }
      var restored := live.Value();
      var synced := RebuildObjects(DeleteBlock(Value(), tip), restored);
      if synced.Err? { return Err(synced.error); }
      var saved := SaveState(synced.value, restored);
      if restored.tipHeight.Some? && restored.tipHeight.value > I64_MAX { return Err(HeightTooLarge); }
      var entry := ReorgRow(tip, delta.blockHash, restored.tipHeight, restored.tipHash);
      var outcome := Finish(saved.(reorgs := saved.reorgs + [entry]), fault);
      r := if outcome.Pass? then Ok(Some(restored)) else Err(CommitFailed);
    }

    method LoadState() returns (r: Result<ChainState, StoreError>)
      ensures r == if row.None? then Err(NoState) else Ok(row.value.state)
    {
      r := if row.None? then Err(NoState) else Ok(row.value.state);
    }

    /** Bind or load inside one transaction; its commit can fail like any other, also when it only loads. */
    method Open(c: Crypto, binding: Binding, fault: Fault) returns (r: Result<ChainState, StoreError>)
      modifies this
      ensures match BindOrLoad(c, old(Value()), binding)
              case Err(error) => r == Result<ChainState, StoreError>.Err(error) && Value() == old(Value())
              case Ok(db) =>
                Value() == Settled(old(Value()), Ok(db), fault) && db.row.Some? && db.row.value.binding == binding &&
                r == if fault == Healthy then Ok(db.row.value.state) else Err(CommitFailed)
    {
      var state: ChainState;
      var working := Value();
      if row.Some? {
        if row.value.binding != binding { return Err(OtherDeployment); }
        state := row.value.state;
      } else {
        state := NewState(c, binding);
        working := working.(row := Some(StateRow(binding, state)));
      }
      var outcome := Finish(working, fault);
      r := if outcome.Pass? then Ok(state) else Err(CommitFailed);
    }
  }

  method InsertEventRows(db: Db, events: seq<Event>) returns (r: Result<Db, StoreError>)
    ensures r == InsertEvents(db, events)
  {
    var working, i := db, 0;
    while i < |events|
      invariant i <= |events| && InsertEvents(db, events[..i]) == Ok(working)
    {
      assert events[..i + 1][..i] == events[..i];
      var next := InsertEvent(working, events[i]);
      if next.Err? {
        InsertEventsStops(db, events, i + 1, next.error);
        return next;
      }
      working, i := next.value, i + 1;
    }
    assert events[..i] == events;
    r := Ok(working);
  }

  lemma {:induction false} InsertEventsStops(db: Db, events: seq<Event>, count: nat, error: StoreError)
    requires count <= |events| && InsertEvents(db, events[..count]) == Err(error)
    ensures InsertEvents(db, events) == Err(error)
    decreases |events|
  {
    if count == |events| {
      assert events[..count] == events;
    } else {
      var init := events[..|events| - 1];
      assert init[..count] == events[..count];
      InsertEventsStops(db, init, count, error);
    }
  }

  /** Clear the projection, then reinsert the state's objects. */
  method RebuildObjects(db: Db, st: ChainState) returns (r: Result<Db, StoreError>)
    ensures r == SyncObjects(db, st)
  {
    r := InsertObjectRows(db.(objects := map[]), ObjectsInOrder(st.objects));
  }

  method InsertObjectRows(db: Db, objs: seq<ObjectState>) returns (r: Result<Db, StoreError>)
    ensures r == InsertObjects(db, objs)
  {
    var working, i := db, 0;
    while i < |objs|
      invariant i <= |objs| && InsertObjects(db, objs[..i]) == Ok(working)
    {
      assert objs[..i + 1][..i] == objs[..i];
      var next := InsertObject(working, objs[i]);
      if next.Err? {
        InsertObjectsStops(db, objs, i + 1, next.error);
        return next;
      }
      working, i := next.value, i + 1;
    }
    assert objs[..i] == objs;
    r := Ok(working);
  }

  lemma {:induction false} InsertObjectsStops(db: Db, objs: seq<ObjectState>, count: nat, error: StoreError)
    requires count <= |objs| && InsertObjects(db, objs[..count]) == Err(error)
    ensures InsertObjects(db, objs) == Err(error)
    decreases |objs|
  {
    if count == |objs| {
      assert objs[..count] == objs;
    } else {
      var init := objs[..|objs| - 1];
      assert init[..count] == objs[..count];
      InsertObjectsStops(db, init, count, error);
    }
  }
}
