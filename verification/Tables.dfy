/** The canonical database as a value: its tables, their constraints, and the two transactions that change them. */
module Tables {
  import opened Primitives
  import opened Types
  import opened Sorting
  import opened Roots
  import opened Reducer

  datatype StateRow = StateRow(binding: Binding, state: ChainState)

  datatype BlockRow = BlockRow(
    blockHash: Hash32, previousHash: Hash32, eventRoot: Hash32, objectStateRoot: Hash32, chainedRoot: Hash32,
    counters: Counters, inverse: BlockDelta)

  /** `PRIMARY KEY (height, tx_index, event_index, sub_index)`. */
  datatype EventKey = EventKey(height: u64, txIndex: u32, eventIndex: u32, subIndex: u32)

  datatype ObjectRow = ObjectRow(
    currentTxid: Hash32, currentVout: u32, status: u8, createHeight: u64, stateSeq: u32, payload: ObjectState)

  datatype ReorgRow = ReorgRow(
    disconnectedHeight: u64, disconnectedHash: Hash32, restoredHeight: Option<u64>, restoredHash: Option<Hash32>)

  datatype Db = Db(
    row: Option<StateRow>, blocks: map<u64, BlockRow>, events: map<EventKey, Event>, objects: map<Hash32, ObjectRow>,
    reorgs: seq<ReorgRow>)

  const EMPTY_DB: Db := Db(None, map[], map[], map[], [])

  datatype StoreError =
    | PostHeightMismatch | PostHashMismatch | NoState | StateChanged | HeightTooLarge | DuplicateHeight | DuplicateHash
    | UnknownHeight | DuplicateEvent | DuplicateObject | NoJournal | JournalMismatch | OtherDeployment | CommitFailed

  /** What can happen to a transaction whose statements all succeeded: it commits; it is lost; or it commits and the
      acknowledgement is lost. */
  datatype Fault = Healthy | Lost | Unacknowledged

  function KeyOf(e: Event): EventKey { EventKey(e.height, e.txIndex, e.eventIndex, e.subIndex) }

  function BlockRowOf(delta: BlockDelta): BlockRow {
    BlockRow(delta.blockHash, delta.previousHash, delta.roots.eventRoot, delta.roots.objectStateRoot,
             delta.roots.chainedRoot, delta.roots.counters, delta)
  }

  function ObjectRowOf(o: ObjectState): ObjectRow {
    ObjectRow(o.currentOutpoint.txid, o.currentOutpoint.vout, o.status.Code(), o.createHeight, o.stateSeq, o)
  }

  // ---------- statements ----------

  predicate HashTaken(blocks: map<u64, BlockRow>, hash: Hash32) {
    exists h :: h in blocks && blocks[h].blockHash == hash
  }

  function InsertBlock(db: Db, delta: BlockDelta): Result<Db, StoreError> {
    if delta.height > I64_MAX then Err(HeightTooLarge)
    else if delta.height in db.blocks then Err(DuplicateHeight)
    else if HashTaken(db.blocks, delta.blockHash) then Err(DuplicateHash)
    else Ok(db.(blocks := db.blocks[delta.height := BlockRowOf(delta)]))
  }

  function InsertEvent(db: Db, e: Event): Result<Db, StoreError> {
    if e.height > I64_MAX then Err(HeightTooLarge)
    else if e.height !in db.blocks then Err(UnknownHeight)
    else if KeyOf(e) in db.events then Err(DuplicateEvent)
    else Ok(db.(events := db.events[KeyOf(e) := e]))
  }

  function InsertEvents(db: Db, events: seq<Event>): Result<Db, StoreError> {
    if |events| == 0 then Ok(db)
    else
      var last := |events| - 1;
      var rest :- InsertEvents(db, events[..last]);
      InsertEvent(rest, events[last])
  }

  function InsertObject(db: Db, o: ObjectState): Result<Db, StoreError> {
    if o.createHeight > I64_MAX then Err(HeightTooLarge)
    else if o.objectKey in db.objects then Err(DuplicateObject)
    else Ok(db.(objects := db.objects[o.objectKey := ObjectRowOf(o)]))
  }

  function InsertObjects(db: Db, objs: seq<ObjectState>): Result<Db, StoreError> {
    if |objs| == 0 then Ok(db)
    else
      var last := |objs| - 1;
      var rest :- InsertObjects(db, objs[..last]);
      InsertObject(rest, objs[last])
  }

  /** Empty the projection and reinsert every object in key order. */
  function SyncObjects(db: Db, st: ChainState): Result<Db, StoreError> {
    InsertObjects(db.(objects := map[]), ObjectsInOrder(st.objects))
  }

  function SaveState(db: Db, st: ChainState): Db {
    if db.row.Some? then db.(row := Some(db.row.value.(state := st))) else db
  }

  /** `DELETE FROM canonical_blocks` with its cascade to the events. */
  function DeleteBlock(db: Db, height: u64): Db {
    db.(blocks := db.blocks - {height}, events := map k | k in db.events && k.height != height :: db.events[k])
  }

  // ---------- transactions ----------

  function Commit(db: Db, post: ChainState, delta: BlockDelta): Result<Db, StoreError> {
    if post.tipHeight != Some(delta.height) then Err(PostHeightMismatch)
    else if post.tipHash != Some(delta.blockHash) then Err(PostHashMismatch)
    else if db.row.None? then Err(NoState)
    else if db.row.value.state != delta.before then Err(StateChanged)
    else
      var withBlock :- InsertBlock(db, delta);
      var withEvents :- InsertEvents(withBlock, delta.events);
      var synced :- SyncObjects(withEvents, post);
      Ok(SaveState(synced, post))
  }

  /** A rollback either finds no tip, or ends in the database without it and the state restored from its journal. */
  datatype Undone = NothingToUndo | Undone(db: Db, state: ChainState)

  function Rollback(db: Db): Result<Undone, StoreError> {
    if db.row.None? then Err(NoState)
    else if db.row.value.state.tipHeight.None? then Ok(NothingToUndo)
    else
      var tip := db.row.value.state.tipHeight.value;
      if tip > I64_MAX then Err(HeightTooLarge)
      else if tip !in db.blocks then Err(NoJournal)
      else
        var delta := db.blocks[tip].inverse;
        match DisconnectBlock(db.row.value.state, delta)
        case Err(_) => Err(JournalMismatch)
        case Ok(st) =>
          var synced :- SyncObjects(DeleteBlock(db, tip), st);
          if st.tipHeight.Some? && st.tipHeight.value > I64_MAX then Err(HeightTooLarge)
          else
            var saved := SaveState(synced, st);
            Ok(Undone(saved.(reorgs := saved.reorgs + [ReorgRow(tip, delta.blockHash, st.tipHeight, st.tipHash)]), st))
  }

  /** Bind an empty database, or load the state of a database bound to the same deployment. */
  function BindOrLoad(c: Crypto, db: Db, binding: Binding): Result<Db, StoreError> {
    if db.row.None? then Ok(db.(row := Some(StateRow(binding, NewState(c, binding)))))
    else if db.row.value.binding != binding then Err(OtherDeployment)
    else Ok(db)
  }

  // ---------- what a fault leaves behind ----------

  function Settled(db: Db, attempt: Result<Db, StoreError>, fault: Fault): Db {
    if attempt.Ok? && fault != Lost then attempt.value else db
  }

  function Reported(attempt: Result<Db, StoreError>, fault: Fault): Guard<StoreError> {
    if attempt.Err? then Fail(attempt.error) else if fault == Healthy then Pass else Fail(CommitFailed)
  }

  // ---------- queries ----------

  /** The rows `carrier` selects: exact outpoint and status 0. */
  ghost function CarrierRows(db: Db, txid: Hash32, vout: u32): set<Hash32> {
    set k | k in db.objects && db.objects[k].currentTxid == txid && db.objects[k].currentVout == vout &&
    db.objects[k].status == 0
  }
}
