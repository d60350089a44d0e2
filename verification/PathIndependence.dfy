/** Path independence of the store: after any history of commits, faults, rollbacks and restarts the tables are those of
    a clean replay of the surviving branch. */
module PathIndependence {
  import opened Primitives
  import opened Types
  import opened Sorting
  import opened Roots
  import opened Reducer
  import opened EventLog
  import opened LocalInvariant
  import opened Heights
  import opened Tables

  ghost predicate Fitted(branch: seq<BlockView>) {
    forall i :: 0 <= i < |branch| ==> BlockFits(branch[i])
  }

  // ---------- the tables of a branch, written down directly ----------

  /** The table obtained by inserting a list of records under their keys. */
  function Rows<T, K, V>(xs: seq<T>, key: T -> K, row: T -> V): map<K, V> {
    if |xs| == 0 then map[]
    else Rows(xs[..|xs| - 1], key, row)[key(xs[|xs| - 1]) := row(xs[|xs| - 1])]
  }

  function HeightOf(delta: BlockDelta): u64 { delta.height }

  function Itself(e: Event): Event { e }

  function ObjectKeyOf(o: ObjectState): Hash32 { o.objectKey }

  function BlockRows(journal: seq<BlockDelta>): map<u64, BlockRow> { Rows(journal, HeightOf, BlockRowOf) }

  function EventMap(events: seq<Event>): map<EventKey, Event> { Rows(events, KeyOf, Itself) }

  function EventRows(journal: seq<BlockDelta>): map<EventKey, Event> {
    if |journal| == 0 then map[]
    else EventRows(journal[..|journal| - 1]) + EventMap(journal[|journal| - 1].events)
  }

  function ObjectRows(objects: map<Hash32, ObjectState>): map<Hash32, ObjectRow> {
    map k | k in objects :: ObjectRowOf(objects[k])
  }

  /** Heights convert to bigint and no two blocks share a hash. */
  ghost predicate Storable(branch: seq<BlockView>) {
    (forall i :: 0 <= i < |branch| ==> branch[i].height <= I64_MAX) &&
    (forall i, j :: 0 <= i < j < |branch| ==> branch[i].hash != branch[j].hash)
  }

  /** A branch that some history can leave in the store. */
  ghost predicate GoodBranch(c: Crypto, binding: Binding, branch: seq<BlockView>) {
    Fitted(branch) && Storable(branch) && Replay(c, binding, branch).Some?
  }

  /** Everything the database holds, the reorganization log apart, is a function of the branch. */
  ghost predicate Mirrors(c: Crypto, binding: Binding, branch: seq<BlockView>, db: Db) {
    && GoodBranch(c, binding, branch)
    && db.row == Some(StateRow(binding, Replay(c, binding, branch).value))
    && db.blocks == BlockRows(Journal(c, binding, branch))
    && db.events == EventRows(Journal(c, binding, branch))
    && db.objects == ObjectRows(Replay(c, binding, branch).value.objects)
  }

  // ---------- the journal of a branch ----------

  /** Every journal entry is the delta its block produced on the clean replay of its own prefix. */
  lemma {:induction false} JournalAt(c: Crypto, binding: Binding, branch: seq<BlockView>, i: nat)
    requires Fitted(branch) && Replay(c, binding, branch).Some? && i < |branch|
    ensures Replay(c, binding, branch[..i]).Some? && Replay(c, binding, branch[..i + 1]).Some?
    ensures var before, delta := Replay(c, binding, branch[..i]).value, Journal(c, binding, branch)[i];
            && ApplyBlock(c, before, branch[i]).Ok?
            && delta == ApplyBlock(c, before, branch[i]).value.delta
            && Replay(c, binding, branch[..i + 1]).value == ApplyBlock(c, before, branch[i]).value.state
    decreases |branch|
  {
    hide ApplyBlock;
    var last := |branch| - 1;
    if i == last {
      assert branch[..i + 1] == branch;
    } else {
      var init := branch[..last];
      JournalAt(c, binding, init, i);
      assert init[..i] == branch[..i] && init[..i + 1] == branch[..i + 1];
    }
  }

  lemma JournalHeader(c: Crypto, binding: Binding, branch: seq<BlockView>, i: nat)
    requires Fitted(branch) && Replay(c, binding, branch).Some? && i < |branch|
    ensures Replay(c, binding, branch[..i]).Some?
    ensures var delta := Journal(c, binding, branch)[i];
            && delta.height == branch[i].height && delta.blockHash == branch[i].hash
            && delta.before == Replay(c, binding, branch[..i]).value && Stamped(delta.events, branch[i].height)
  {
    hide ApplyBlock;
    JournalAt(c, binding, branch, i);
    var before := Replay(c, binding, branch[..i]).value;
    BranchTips(c, binding, branch[..i]);
    AppliedTip(c, before, branch[i]);
    BlockStamped(c, before, branch[i]);
  }

  /** No two records of the list share a key. */
  ghost predicate Unique<T, K>(xs: seq<T>, key: T -> K) {
    forall i, j :: 0 <= i < j < |xs| ==> key(xs[i]) != key(xs[j])
  }

  lemma {:induction false} RowsAre<T, K, V>(xs: seq<T>, key: T -> K, row: T -> V)
    ensures forall x :: x in xs ==> key(x) in Rows(xs, key, row)
    ensures forall k :: k in Rows(xs, key, row) ==>
            exists x :: x in xs && key(x) == k && Rows(xs, key, row)[k] == row(x)
    decreases |xs|
  {
    if |xs| > 0 {
      var init, last := xs[..|xs| - 1], xs[|xs| - 1];
      RowsAre(init, key, row);
      assert xs == init + [last];
      forall k | k in Rows(xs, key, row)
        ensures exists x :: x in xs && key(x) == k && Rows(xs, key, row)[k] == row(x)
      {
        if k == key(last) {
          assert last in xs;
        } else {
          var x :| x in init && key(x) == k && Rows(init, key, row)[k] == row(x);
          assert x in xs;
        }
      }
    }
  }

  lemma RowAt<T, K, V>(xs: seq<T>, key: T -> K, row: T -> V, i: nat)
    requires Unique(xs, key) && i < |xs|
    ensures key(xs[i]) in Rows(xs, key, row) && Rows(xs, key, row)[key(xs[i])] == row(xs[i])
  {
    RowsAre(xs, key, row);
    assert xs[i] in xs;
    var x :| x in xs && key(x) == key(xs[i]) && Rows(xs, key, row)[key(xs[i])] == row(x);
    var j :| 0 <= j < |xs| && xs[j] == x;
  }

  lemma {:induction false} EventRowHeights(journal: seq<BlockDelta>)
    requires forall i :: 0 <= i < |journal| ==> Stamped(journal[i].events, journal[i].height)
    ensures forall k :: k in EventRows(journal) ==> exists i :: 0 <= i < |journal| && journal[i].height == k.height
    decreases |journal|
  {
    if |journal| > 0 {
      var last := |journal| - 1;
      EventRowHeights(journal[..last]);
      RowsAre(journal[last].events, KeyOf, Itself);
      forall k | k in EventRows(journal) ensures exists i :: 0 <= i < |journal| && journal[i].height == k.height {
        if k in EventMap(journal[last].events) {
          assert journal[last].height == k.height;
        } else {
          var i :| 0 <= i < last && journal[..last][i].height == k.height;
          assert journal[i].height == k.height;
        }
      }
    }
  }

  /** What the tables of a branch contain, by height. */
  lemma RowsByHeight(c: Crypto, binding: Binding, branch: seq<BlockView>)
    requires Fitted(branch) && Replay(c, binding, branch).Some?
    ensures var journal := Journal(c, binding, branch);
            && (forall h :: h in BlockRows(journal) ==>
                  exists i ::
                    0 <= i < |branch| && branch[i].height == h && BlockRows(journal)[h] == BlockRowOf(journal[i]))
            && (forall i :: 0 <= i < |branch| ==>
                  branch[i].height in BlockRows(journal) &&
                  BlockRows(journal)[branch[i].height] == BlockRowOf(journal[i]))
            && (forall k :: k in EventRows(journal) ==> exists i :: 0 <= i < |branch| && branch[i].height == k.height)
            && (forall i :: 0 <= i < |branch| ==>
                journal[i].height == branch[i].height && journal[i].blockHash == branch[i].hash)
  {
    hide Replay, Journal, EventRows, BlockFits, BlockRowOf, Rows;
    var journal := Journal(c, binding, branch);
    BranchTips(c, binding, branch);
    forall i | 0 <= i < |branch|
      ensures journal[i].height == branch[i].height && journal[i].blockHash == branch[i].hash
      ensures Stamped(journal[i].events, journal[i].height)
    {
      JournalHeader(c, binding, branch, i);
    }
    assert Unique(journal, HeightOf);
    forall i | 0 <= i < |branch|
      ensures branch[i].height in BlockRows(journal) && BlockRows(journal)[branch[i].height] == BlockRowOf(journal[i])
    {
      RowAt(journal, HeightOf, BlockRowOf, i);
    }
    RowsAre(journal, HeightOf, BlockRowOf);
    EventRowHeights(journal);
  }

  // ---------- the statements succeed ----------

  lemma PutAfterMerge<K, V>(a: map<K, V>, b: map<K, V>, k: K, v: V)
    ensures (a + b)[k := v] == a + b[k := v]
  {
  }

  lemma {:induction false} InsertEventsExact(db: Db, events: seq<Event>, height: u64)
    requires Stamped(events, height) && height <= I64_MAX && height in db.blocks && Unique(events, KeyOf)
    requires forall k :: k in db.events ==> k.height != height
    ensures InsertEvents(db, events) == Ok(db.(events := db.events + EventMap(events)))
    decreases |events|
  {
    if |events| == 0 {
      assert db.events + map[] == db.events;
    } else {
      var init, last := events[..|events| - 1], events[|events| - 1];
      InsertEventsExact(db, init, height);
      RowsAre(init, KeyOf, Itself);
      assert KeyOf(last) !in EventMap(init);
      assert EventMap(events) == EventMap(init)[KeyOf(last) := last];
      PutAfterMerge(db.events, EventMap(init), KeyOf(last), last);
    }
  }

  lemma {:induction false} InsertObjectsExact(db: Db, objs: seq<ObjectState>)
    requires db.objects == map[] && Unique(objs, ObjectKeyOf)
    requires forall i :: 0 <= i < |objs| ==> objs[i].createHeight <= I64_MAX
    ensures InsertObjects(db, objs) == Ok(db.(objects := Rows(objs, ObjectKeyOf, ObjectRowOf)))
    decreases |objs|
  {
    if |objs| > 0 {
      var init, last := objs[..|objs| - 1], objs[|objs| - 1];
      InsertObjectsExact(db, init);
      RowsAre(init, ObjectKeyOf, ObjectRowOf);
      assert last.objectKey !in Rows(init, ObjectKeyOf, ObjectRowOf);
    }
  }

  lemma OrderedRows(objects: map<Hash32, ObjectState>, objs: seq<ObjectState>, keys: seq<Hash32>)
    requires |objs| == |keys| && forall k :: k in keys <==> k in objects
    requires forall i :: 0 <= i < |objs| ==> keys[i] in objects && objs[i] == objects[keys[i]]
    requires forall k :: k in objects ==> objects[k].objectKey == k
    ensures Rows(objs, ObjectKeyOf, ObjectRowOf) == ObjectRows(objects)
  {
    hide ObjectRowOf, Rows;
    var rows := Rows(objs, ObjectKeyOf, ObjectRowOf);
    RowsAre(objs, ObjectKeyOf, ObjectRowOf);
    forall k: Hash32 | k in objects ensures k in rows {
      var i :| 0 <= i < |keys| && keys[i] == k;
      assert objs[i] in objs && ObjectKeyOf(objs[i]) == k;
    }
    forall k: Hash32 | k in rows ensures k in objects && rows[k] == ObjectRowOf(objects[k]) {
      var o :| o in objs && ObjectKeyOf(o) == k && rows[k] == ObjectRowOf(o);
      var i :| 0 <= i < |objs| && objs[i] == o;
      assert keys[i] == k;
    }
  }

  lemma SyncExact(db: Db, st: ChainState)
    requires Bounded(st) && BornBy(st.objects, I64_MAX)
    ensures SyncObjects(db, st) == Ok(db.(objects := ObjectRows(st.objects)))
  {
    hide InsertObjects, ObjectRowOf, ObjectsInOrder, Rows, ObjectRows, KeysInOrder, Ascending;
    var objs, keys := ObjectsInOrder(st.objects), KeysInOrder(st.objects.Keys);
    AscendingIsUnique(objs, keys);
    InsertObjectsExact(db.(objects := map[]), objs);
    OrderedRows(st.objects, objs, keys);
  }

  lemma AscendingIsUnique(objs: seq<ObjectState>, keys: seq<Hash32>)
    requires |objs| == |keys| && Ascending(keys) && forall i :: 0 <= i < |objs| ==> objs[i].objectKey == keys[i]
    ensures Unique(objs, ObjectKeyOf)
  {
    forall i, j | 0 <= i < j < |objs| ensures ObjectKeyOf(objs[i]) != ObjectKeyOf(objs[j]) {
      assert LexLess(keys[i], keys[j]);
      LexIrreflexive(keys[i]);
    }
  }

  // ---------- the two transactions ----------

  lemma {:induction false} JournalExtends(c: Crypto, binding: Binding, branch: seq<BlockView>, block: BlockView)
    requires Fitted(branch) && BlockFits(block) && Replay(c, binding, branch).Some?
    requires ApplyBlock(c, Replay(c, binding, branch).value, block).Ok?
    ensures Fitted(branch + [block])
    ensures Replay(c, binding, branch + [block]) ==
            Some(ApplyBlock(c, Replay(c, binding, branch).value, block).value.state)
    ensures Journal(c, binding, branch + [block]) ==
            Journal(c, binding, branch) + [ApplyBlock(c, Replay(c, binding, branch).value, block).value.delta]
  {
    hide ApplyBlock;
    assert (branch + [block])[..|branch|] == branch;
  }

  /** The block's hash is on the branch already. */
  ghost predicate OnBranch(branch: seq<BlockView>, hash: Hash32) {
    exists i :: 0 <= i < |branch| && branch[i].hash == hash
  }

  lemma BelowTip(branch: seq<BlockView>, block: BlockView)
    requires Linked(branch) && (|branch| > 0 ==> block.height == branch[|branch| - 1].height + 1)
    ensures forall i :: 0 <= i < |branch| ==> branch[i].height < block.height
  {
  }

  /** A new tip lies above every block of the branch, so only the hash or the bigint conversion can stop its row. */
  lemma InsertBlockExact(c: Crypto, binding: Binding, branch: seq<BlockView>, db: Db, block: BlockView, a: Applied)
    requires Mirrors(c, binding, branch, db) && BlockFits(block)
    requires ApplyBlock(c, Replay(c, binding, branch).value, block) == Ok(a)
    ensures InsertBlock(db, a.delta).Ok? <==> block.height <= I64_MAX && !OnBranch(branch, block.hash)
    ensures forall k :: k in db.events ==> k.height != block.height
  {
    hide ApplyBlock, Replay, Journal, BlockRows, EventRows, EventMap, ObjectRows, BlockRowOf, HashTaken, BlockFits,
         BornBy, Linked, Stamped;
    var before, journal := Replay(c, binding, branch).value, Journal(c, binding, branch);
    BranchTips(c, binding, branch);
    RowsByHeight(c, binding, branch);
    AppliedTip(c, before, block);
    BelowTip(branch, block);
    TakenIffOnBranch(branch, journal, db.blocks, block.hash);
  }

  lemma InsertedEvents(c: Crypto, binding: Binding, branch: seq<BlockView>, db: Db, block: BlockView, a: Applied)
    requires Fitted(branch) && Replay(c, binding, branch).Some? && BlockFits(block)
    requires ApplyBlock(c, Replay(c, binding, branch).value, block) == Ok(a)
    requires block.height <= I64_MAX && block.height in db.blocks && forall k :: k in db.events ==>
             k.height != block.height
    ensures InsertEvents(db, a.delta.events) == Ok(db.(events := db.events + EventMap(a.delta.events)))
  {
    hide ApplyBlock, Replay, InsertEvents, EventMap, BlockFits;
    var before := Replay(c, binding, branch).value;
    BranchTips(c, binding, branch);
    AppliedTip(c, before, block);
    BlockStamped(c, before, block);
    BlockEventsOrdered(c, before, block);
    InsertEventsExact(db, a.delta.events, block.height);
  }

  lemma SyncedObjects(c: Crypto, binding: Binding, branch: seq<BlockView>, db: Db, block: BlockView, a: Applied)
    requires Fitted(branch) && Replay(c, binding, branch).Some? && BlockFits(block) && block.height <= I64_MAX
    requires ApplyBlock(c, Replay(c, binding, branch).value, block) == Ok(a)
    ensures SyncObjects(db, a.state) == Ok(db.(objects := ObjectRows(a.state.objects)))
  {
    hide ApplyBlock, Replay, SyncObjects, ObjectRows, BlockFits;
    var before := Replay(c, binding, branch).value;
    BranchTips(c, binding, branch);
    AppliedTip(c, before, block);
    BlockStamped(c, before, block);
    SyncExact(db, a.state);
  }

  lemma TakenIffOnBranch(branch: seq<BlockView>, journal: seq<BlockDelta>, blocks: map<u64, BlockRow>, hash: Hash32)
    requires |journal| == |branch|
    requires forall i :: 0 <= i < |branch| ==> journal[i].blockHash == branch[i].hash
    requires forall h :: h in blocks ==>
             exists i :: 0 <= i < |branch| && branch[i].height == h && blocks[h] == BlockRowOf(journal[i])
    requires forall i :: 0 <= i < |branch| ==>
             branch[i].height in blocks && blocks[branch[i].height] == BlockRowOf(journal[i])
    ensures HashTaken(blocks, hash) <==> OnBranch(branch, hash)
  {
    if i :| 0 <= i < |branch| && branch[i].hash == hash {
      assert blocks[branch[i].height].blockHash == hash;
    }
  }

  /** Exactly when a commit succeeds: the guard saw the state the block was reduced from, the height fits a bigint and
      the hash is new. Event and object keys never clash. A success extends the mirrored branch by the block. */
  lemma CommitExact(c: Crypto, binding: Binding, branch: seq<BlockView>, db: Db, before: ChainState, block: BlockView)
    requires Mirrors(c, binding, branch, db) && Bounded(before) && BlockFits(block) && ApplyBlock(c, before, block).Ok?
    ensures var a := ApplyBlock(c, before, block).value;
            var r := Commit(db, a.state, a.delta);
            && (r.Ok? <==>
                before == Replay(c, binding, branch).value && block.height <= I64_MAX && !OnBranch(branch, block.hash))
            && (before != Replay(c, binding, branch).value ==> r == Err(StateChanged))
            && (r.Ok? ==> Mirrors(c, binding, branch + [block], r.value) && r.value.reorgs == db.reorgs)
  {
    hide ApplyBlock, Replay, Journal, InsertEvents, SyncObjects, EventMap, ObjectRows, BlockRows, EventRows, BlockRowOf,
         HashTaken, OnBranch;
    var a := ApplyBlock(c, before, block).value;
    AppliedTip(c, before, block);
    if before == Replay(c, binding, branch).value {
      InsertBlockExact(c, binding, branch, db, block, a);
      var inserted := InsertBlock(db, a.delta);
      if inserted.Ok? {
        InsertedEvents(c, binding, branch, inserted.value, block, a);
        var logged := inserted.value.(events := db.events + EventMap(a.delta.events));
        SyncedObjects(c, binding, branch, logged, block, a);
        CommittedMirrors(c, binding, branch, db, block, a);
      }
    }
  }

  lemma CommittedMirrors(c: Crypto, binding: Binding, branch: seq<BlockView>, db: Db, block: BlockView, a: Applied)
    requires Mirrors(c, binding, branch, db) && BlockFits(block) && block.height <= I64_MAX &&
             !OnBranch(branch, block.hash)
    requires ApplyBlock(c, Replay(c, binding, branch).value, block) == Ok(a)
    ensures Mirrors(c, binding, branch + [block],
                    Db(Some(StateRow(binding, a.state)), db.blocks[a.delta.height := BlockRowOf(a.delta)],
                       db.events + EventMap(a.delta.events), ObjectRows(a.state.objects), db.reorgs))
  {
    hide ApplyBlock, Replay, Journal, EventMap, ObjectRows, BlockRowOf;
    JournalExtends(c, binding, branch, block);
    var longer, journal := branch + [block], Journal(c, binding, branch);
    assert (journal + [a.delta])[..|journal|] == journal;
    forall i, j | 0 <= i < j < |longer| ensures longer[i].hash != longer[j].hash {
      if j == |branch| { assert branch[i].hash != block.hash; }
    }
  }

  lemma RowOfBlock(c: Crypto, binding: Binding, branch: seq<BlockView>, db: Db, i: nat)
    requires Mirrors(c, binding, branch, db) && i < |branch|
    ensures branch[i].height in db.blocks && db.blocks[branch[i].height] == BlockRowOf(Journal(c, binding, branch)[i])
  {
    hide Replay, Journal, BlockRows, BlockRowOf;
    RowsByHeight(c, binding, branch);
  }

  /** A rollback always finds its journal entry, which always matches the tip, and it leaves exactly the tables of the
      branch without its last block. */
  lemma RollbackExact(c: Crypto, binding: Binding, branch: seq<BlockView>, db: Db)
    requires Mirrors(c, binding, branch, db)
    ensures |branch| == 0 ==> Rollback(db) == Ok(NothingToUndo)
    ensures |branch| > 0 ==>
              var init, tip, r := branch[..|branch| - 1], branch[|branch| - 1], Rollback(db);
              && r.Ok? && r.value.Undone? && Mirrors(c, binding, init, r.value.db)
              && r.value.state == Replay(c, binding, init).value
              && r.value.db.reorgs == db.reorgs + [ReorgRow(tip.height, tip.hash, r.value.state.tipHeight,
                                                            r.value.state.tipHash)]
  {
    hide Replay, Journal, SyncObjects, DeleteBlock, ObjectRows, EventRows, BlockRows, BlockFits, Linked, Stamped;
    BranchTips(c, binding, branch);
    if |branch| > 0 {
      var last := |branch| - 1;
      var init, tip := branch[..last], branch[last];
      RowOfBlock(c, binding, branch, db, last);
      JournalHeader(c, binding, branch, last);
      BranchTips(c, binding, init);
      DeletedMirrors(c, binding, branch, db);
      SyncExact(DeleteBlock(db, tip.height), Replay(c, binding, init).value);
    }
  }

  lemma DeletedMirrors(c: Crypto, binding: Binding, branch: seq<BlockView>, db: Db)
    requires Mirrors(c, binding, branch, db) && |branch| > 0
    ensures var init, less := branch[..|branch| - 1], DeleteBlock(db, branch[|branch| - 1].height);
            && GoodBranch(c, binding, init)
            && less.blocks == BlockRows(Journal(c, binding, init)) &&
               less.events == EventRows(Journal(c, binding, init))
            && less.row == db.row && less.reorgs == db.reorgs
  {
    hide ApplyBlock, Rows, EventMap, EventRows, ObjectRows, BlockRows, Replay, Journal, BlockFits, BornBy;
    var last := |branch| - 1;
    var init, tip := branch[..last], branch[last];
    JournalSplit(c, binding, branch);
    var before, delta := Journal(c, binding, init), Journal(c, binding, branch)[last];
    BranchTips(c, binding, branch);
    RowsByHeight(c, binding, init);
    JournalHeader(c, binding, branch, last);
    WithoutLastBlock(before, delta, tip.height);
  }

  lemma JournalSplit(c: Crypto, binding: Binding, branch: seq<BlockView>)
    requires Fitted(branch) && Replay(c, binding, branch).Some? && |branch| > 0
    ensures var init := branch[..|branch| - 1];
            Replay(c, binding, init).Some? &&
            Journal(c, binding, branch) == Journal(c, binding, init) + [Journal(c, binding, branch)[|branch| - 1]]
  {
    hide ApplyBlock;
  }

  lemma WithoutLastBlock(before: seq<BlockDelta>, last: BlockDelta, height: u64)
    requires last.height == height && Stamped(last.events, height)
    requires height !in BlockRows(before) && forall k :: k in EventRows(before) ==> k.height != height
    ensures BlockRows(before + [last]) - {height} == BlockRows(before)
    ensures var events := EventRows(before + [last]);
            (map k | k in events && k.height != height :: events[k]) == EventRows(before)
  {
    assert (before + [last])[..|before|] == before;
    RowsAre(last.events, KeyOf, Itself);
    assert forall k :: k in EventMap(last.events) ==> k.height == height;
  }
}
