/** Every history of the store: submissions by clients holding any state at all, tip rollbacks, restarts, and lost or
    unacknowledged transactions, in any order. */
module Histories {
  import opened Primitives
  import opened Types
  import opened Roots
  import opened Reducer
  import opened Heights
  import opened Ledger
  import opened FaithfulRuns
  import opened RunTheorems
  import opened Tables
  import ChainBinding
  import opened PathIndependence

  /** `Submit` reduces a block from whatever state its client holds, current or stale, and tries to commit the result.
      `Stray` is the same from a state outside the reducer's reach, handing over anything built on that state. */
  datatype Action =
    | Submit(before: ChainState, block: BlockView, fault: Fault)
    | Stray(post: ChainState, delta: BlockDelta, fault: Fault)
    | Undo(fault: Fault)
    | Open(binding: Binding, fault: Fault)

  ghost predicate Sensible(a: Action) {
    (a.Submit? ==> Bounded(a.before) && BlockFits(a.block)) && (a.Stray? ==> !Bounded(a.delta.before))
  }

  ghost predicate AllSensible(actions: seq<Action>) { forall i :: 0 <= i < |actions| ==> Sensible(actions[i]) }

  /** The transaction an action runs, and what it would leave. */
  function Attempt(c: Crypto, db: Db, a: Action): Option<Db>
    requires a.Submit? ==> Bounded(a.before) && BlockFits(a.block)
  {
    match a
    case Submit(before, block, _) =>
      (match ApplyBlock(c, before, block)
       case Ok(Applied(post, delta)) => var r := Commit(db, post, delta); if r.Ok? then Some(r.value) else None
       case Err(_) => None)
    case Stray(post, delta, _) => var r := Commit(db, post, delta); if r.Ok? then Some(r.value) else None
    case Undo(_) => (match Rollback(db) case Ok(Undone(less, _)) => Some(less) case _ => None)
    case Open(binding, _) => var r := BindOrLoad(c, db, binding); if r.Ok? then Some(r.value) else None
  }

  /** The action's transaction reached the disk. */
  predicate Took(c: Crypto, db: Db, a: Action)
    requires a.Submit? ==> Bounded(a.before) && BlockFits(a.block)
  {
    Attempt(c, db, a).Some? && a.fault != Lost
  }

  function After(c: Crypto, db: Db, a: Action): Db
    requires a.Submit? ==> Bounded(a.before) && BlockFits(a.block)
  {
    if Took(c, db, a) then Attempt(c, db, a).value else db
  }

  function Bound(c: Crypto, binding: Binding): Db {
    EMPTY_DB.(row := Some(StateRow(binding, NewState(c, binding))))
  }

  ghost function RunDb(c: Crypto, binding: Binding, actions: seq<Action>): Db
    requires AllSensible(actions)
  {
    if |actions| == 0 then Bound(c, binding)
    else After(c, RunDb(c, binding, actions[..|actions| - 1]), actions[|actions| - 1])
  }

  /** The branch a history leaves: committed blocks are pushed, committed rollbacks pop. */
  ghost function Survivors(c: Crypto, binding: Binding, actions: seq<Action>): seq<BlockView>
    requires AllSensible(actions)
  {
    if |actions| == 0 then []
    else
      var init, a := actions[..|actions| - 1], actions[|actions| - 1];
      var kept := Survivors(c, binding, init);
      if !Took(c, RunDb(c, binding, init), a) then kept
      else match a
        case Submit(_, block, _) => kept + [block]
        case Stray(_, _, _) => kept
        case Undo(_) => if |kept| == 0 then kept else kept[..|kept| - 1]
        case Open(_, _) => kept
  }

  lemma BoundMirrors(c: Crypto, binding: Binding)
    ensures Mirrors(c, binding, [], Bound(c, binding))
  {
  }

  lemma StepMirrors(c: Crypto, binding: Binding, kept: seq<BlockView>, db: Db, a: Action)
    requires Mirrors(c, binding, kept, db) && Sensible(a)
    ensures var after := After(c, db, a);
            if !Took(c, db, a) then after == db
            else match a
              case Submit(_, block, _) => Mirrors(c, binding, kept + [block], after) && after.reorgs == db.reorgs
              case Stray(_, _, _) => false
              case Undo(_) =>
                |kept| > 0 && Mirrors(c, binding, kept[..|kept| - 1], after) && |after.reorgs| == |db.reorgs| + 1
              case Open(_, _) => after == db
  {
    hide ApplyBlock, Rollback, Mirrors, Replay, Bounded, InsertBlock, InsertEvents, SyncObjects, SaveState;
    match a
    case Submit(before, block, _) =>
      if ApplyBlock(c, before, block).Ok? { CommitExact(c, binding, kept, db, before, block); }
    case Undo(_) => RollbackExact(c, binding, kept, db);
    case Stray(_, _, _) => MirrorsBound(c, binding, kept, db);
    case Open(_, _) => MirrorsBound(c, binding, kept, db);
  }

  lemma MirrorsBound(c: Crypto, binding: Binding, kept: seq<BlockView>, db: Db)
    requires Mirrors(c, binding, kept, db)
    ensures db.row.Some? && db.row.value.binding == binding && Bounded(db.row.value.state)
  {
    hide Replay, Journal;
  }

  /** Path independence: whatever the history, the tables are those of a clean replay of the surviving branch. */
  lemma {:induction false} PathIndependent(c: Crypto, binding: Binding, actions: seq<Action>)
    requires AllSensible(actions)
    ensures Mirrors(c, binding, Survivors(c, binding, actions), RunDb(c, binding, actions))
    decreases |actions|
  {
    hide Mirrors, After, Took, Bound;
    if |actions| == 0 {
      BoundMirrors(c, binding);
    } else {
      var init, a := actions[..|actions| - 1], actions[|actions| - 1];
      PathIndependent(c, binding, init);
      assert Sensible(a);
      StepMirrors(c, binding, Survivors(c, binding, init), RunDb(c, binding, init), a);
    }
  }

  /** Two histories with the same surviving branch hold the same rows in every canonical table. */
  lemma SameBranchSameTables(c: Crypto, binding: Binding, x: seq<Action>, y: seq<Action>)
    requires AllSensible(x) && AllSensible(y) && Survivors(c, binding, x) == Survivors(c, binding, y)
    ensures RunDb(c, binding, x).(reorgs := []) == RunDb(c, binding, y).(reorgs := [])
  {
    hide Replay, Journal, Survivors, RunDb;
    PathIndependent(c, binding, x);
    PathIndependent(c, binding, y);
  }

  /** Every journal row belongs to its own prefix: the state it restores is the clean replay up to its parent, its
      events are the ones its block emits there, and its roots and counters are those of the clean replay up to itself.
      */
  lemma JournalRowsAreClean(c: Crypto, binding: Binding, actions: seq<Action>, i: nat)
    requires AllSensible(actions) && i < |Survivors(c, binding, actions)|
    ensures var kept, db := Survivors(c, binding, actions), RunDb(c, binding, actions);
            && Fitted(kept) && Replay(c, binding, kept[..i]).Some? && Replay(c, binding, kept[..i + 1]).Some?
            && kept[i].height in db.blocks
            && var row, clean := db.blocks[kept[i].height], Replay(c, binding, kept[..i + 1]).value;
               && row.blockHash == kept[i].hash && row.previousHash == kept[i].previousHash
               && row.inverse.before == Replay(c, binding, kept[..i]).value
               && ApplyBlock(c, row.inverse.before, kept[i]) == Ok(Applied(clean, row.inverse))
               && row.eventRoot == EventRoot(c, binding.Namespace(c), row.inverse.events)
               && row.objectStateRoot == ObjectStateRoot(c, binding.Namespace(c), ObjectsInOrder(clean.objects))
               && row.chainedRoot == clean.chainedRoot && row.counters == CountersOf(clean.objects)
               && clean.tipHash == Some(row.blockHash)
  {
    hide ApplyBlock, Replay, Journal, Survivors, RunDb, BlockRows, EventRows, ObjectRows, CountersOf, EventRoot,
         ObjectStateRoot, ObjectsInOrder;
    var kept, db := Survivors(c, binding, actions), RunDb(c, binding, actions);
    PathIndependent(c, binding, actions);
    RowOfBlock(c, binding, kept, db, i);
    JournalAt(c, binding, kept, i);
    var before := Replay(c, binding, kept[..i]).value;
    BranchTips(c, binding, kept[..i]);
    AppliedTip(c, before, kept[i]);
    ChainBinding.RootsOf(c, before, kept[i]);
  }

  /** A rollback never finds a missing or mismatched journal entry. */
  lemma RollbackNeverFails(c: Crypto, binding: Binding, actions: seq<Action>)
    requires AllSensible(actions)
    ensures var r := Rollback(RunDb(c, binding, actions));
            r.Ok? && (r.value.NothingToUndo? <==> Survivors(c, binding, actions) == [])
  {
    hide Mirrors, Rollback, Survivors, RunDb, Replay;
    PathIndependent(c, binding, actions);
    RollbackExact(c, binding, Survivors(c, binding, actions), RunDb(c, binding, actions));
  }

  // ---------- every committed block is on the branch or in the reorganization journal ----------

  datatype Tip = Tip(height: u64, hash: Hash32)

  ghost function BlockTips(blocks: seq<BlockView>): multiset<Tip> {
    if |blocks| == 0 then multiset{}
    else BlockTips(blocks[..|blocks| - 1]) + multiset{Tip(blocks[|blocks| - 1].height, blocks[|blocks| - 1].hash)}
  }

  ghost function DisconnectedTips(rows: seq<ReorgRow>): multiset<Tip> {
    if |rows| == 0 then multiset{}
    else DisconnectedTips(rows[..|rows| - 1]) +
         multiset{Tip(rows[|rows| - 1].disconnectedHeight, rows[|rows| - 1].disconnectedHash)}
  }

  /** The blocks whose commits reached the disk, in order. */
  ghost function Committed(c: Crypto, binding: Binding, actions: seq<Action>): seq<BlockView>
    requires AllSensible(actions)
  {
    if |actions| == 0 then []
    else
      var init, a := actions[..|actions| - 1], actions[|actions| - 1];
      Committed(c, binding, init) + (if a.Submit? && Took(c, RunDb(c, binding, init), a) then [a.block] else [])
  }

  lemma {:induction false} EveryBlockAccountedFor(c: Crypto, binding: Binding, actions: seq<Action>)
    requires AllSensible(actions)
    ensures BlockTips(Committed(c, binding, actions)) ==
            BlockTips(Survivors(c, binding, actions)) + DisconnectedTips(RunDb(c, binding, actions).reorgs)
    decreases |actions|
  {
    hide Mirrors, After, Took, Attempt;
    if |actions| > 0 {
      var init, a := actions[..|actions| - 1], actions[|actions| - 1];
      EveryBlockAccountedFor(c, binding, init);
      PathIndependent(c, binding, init);
      assert Sensible(a);
      var kept, db := Survivors(c, binding, init), RunDb(c, binding, init);
      StepMirrors(c, binding, kept, db, a);
      assert Committed(c, binding, init) + [] == Committed(c, binding, init);
      if Took(c, db, a) {
        match a
        case Submit(_, block, _) =>
          TipsPush(kept, block);
          TipsPush(Committed(c, binding, init), block);
        case Undo(_) => UndoMoves(c, binding, kept, db, a);
        case Stray(_, _, _) =>
        case Open(_, _) =>
      }
    }
  }

  lemma TipsPush(blocks: seq<BlockView>, block: BlockView)
    ensures BlockTips(blocks + [block]) == BlockTips(blocks) + multiset{Tip(block.height, block.hash)}
  {
    assert (blocks + [block])[..|blocks|] == blocks;
  }

  lemma UndoMoves(c: Crypto, binding: Binding, kept: seq<BlockView>, db: Db, a: Action)
    requires Mirrors(c, binding, kept, db) && a.Undo? && Took(c, db, a)
    ensures |kept| > 0 && BlockTips(kept) + DisconnectedTips(db.reorgs) ==
            BlockTips(kept[..|kept| - 1]) + DisconnectedTips(After(c, db, a).reorgs)
  {
    hide Mirrors, Rollback, Replay, ApplyBlock, Commit;
    RollbackExact(c, binding, kept, db);
    var rows := After(c, db, a).reorgs;
    assert rows[..|rows| - 1] == db.reorgs;
  }

  // ---------- the projections and the carrier query ----------

  /** The object projection holds exactly the current objects, with every column read off the stored object. */
  lemma ProjectionIsCurrent(c: Crypto, binding: Binding, kept: seq<BlockView>, db: Db, k: Hash32)
    requires Mirrors(c, binding, kept, db)
    ensures k in db.objects <==> k in Replay(c, binding, kept).value.objects
    ensures k in db.objects ==>
              var row, o := db.objects[k], Replay(c, binding, kept).value.objects[k];
              && row.payload == o && row.createHeight == o.createHeight && row.stateSeq == o.stateSeq
              && OutPointRef(row.currentTxid, row.currentVout) == o.currentOutpoint
              && (row.status == 0 <==> o.status == Active)
  {
    hide Replay, Journal, BlockRows, EventRows;
  }

  /** On a faithful branch the SQL carrier query and the in-memory index give the same answer for every outpoint. */
  lemma CarrierQueryAgrees(c: Crypto, binding: Binding, kept: seq<BlockView>, db: Db, o: OutPointRef)
    requires Mirrors(c, binding, kept, db) && GoodRun(c, binding, kept)
    ensures var st, found := Replay(c, binding, kept).value, CarrierRows(db, o.txid, o.vout);
            && found == (if o in st.active then {st.active[o]} else {})
            && (forall k :: k in found ==> Lookup(st, o) == Some(db.objects[k].payload))
            && (Lookup(st, o).Some? <==> found != {})
  {
    hide Replay, Journal, GoodRun, BlockRows, EventRows;
    IndexAgreement(c, binding, kept);
    var st, found := Replay(c, binding, kept).value, CarrierRows(db, o.txid, o.vout);
    forall k: Hash32 ensures k in found <==> o in st.active && st.active[o] == k {
      if k in found { assert st.objects[k].status == Active && st.objects[k].currentOutpoint == o; }
    }
  }
}
