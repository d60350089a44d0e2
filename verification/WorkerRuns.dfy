/** What every sequence of passes and restarts keeps: the store mirrors a branch, and the worker's state is the replay
    of that branch, of its parent, or of an extension of it. */
module WorkerRuns {
  import opened Primitives
  import opened Types
  import opened Reducer
  import opened Heights
  import opened Tables
  import opened PathIndependence
  import opened Histories
  import opened Worker

  /** The worker's branch is the store's, one block short of it, or ahead of it. */
  ghost predicate Related(mine: seq<BlockView>, kept: seq<BlockView>) {
    || (|mine| <= |kept| <= |mine| + 1 && mine == kept[..|mine|])
    || (|kept| < |mine| && kept == mine[..|kept|])
  }

  ghost predicate WorldInv(c: Crypto, binding: Binding, mine: seq<BlockView>, kept: seq<BlockView>, w: World) {
    && Mirrors(c, binding, kept, w.db)
    && GoodBranch(c, binding, mine) && Replay(c, binding, mine).value == w.worker
    && Related(mine, kept)
  }

  /** The worker holds what the store holds. */
  ghost predicate Synced(w: World) { w.db.row.Some? && w.worker == w.db.row.value.state }

  lemma MirrorsSafe(c: Crypto, binding: Binding, kept: seq<BlockView>, db: Db)
    requires Mirrors(c, binding, kept, db)
    ensures GoodBranch(c, binding, kept) && SafeDb(db) &&
            db.row == Some(StateRow(binding, Replay(c, binding, kept).value))
  {
    hide Replay, Journal, BlockRows, EventRows, ObjectRows, Bounded, BlockFits;
    RowsByHeight(c, binding, kept);
    forall h | h in db.blocks ensures Bounded(db.blocks[h].inverse.before) {
      var i :| 0 <= i < |kept| && kept[i].height == h && db.blocks[h] == BlockRowOf(Journal(c, binding, kept)[i]);
      JournalHeader(c, binding, kept, i);
    }
  }

  lemma InvIsSafe(c: Crypto, binding: Binding, mine: seq<BlockView>, kept: seq<BlockView>, w: World)
    requires WorldInv(c, binding, mine, kept, w)
    ensures Safe(w) && w.db.row.Some?
  {
    hide Replay, Mirrors, SafeDb, Bounded;
    MirrorsSafe(c, binding, kept, w.db);
  }

  /** The tip fields of a replayed state: both absent exactly on the empty branch. */
  lemma TipFields(c: Crypto, binding: Binding, branch: seq<BlockView>)
    requires GoodBranch(c, binding, branch)
    ensures var st := Replay(c, binding, branch).value;
            && (st.tipHeight.Some? <==> |branch| > 0) && (st.tipHash.Some? <==> |branch| > 0)
            && (|branch| > 0 ==>
                  st.tipHeight == Some(branch[|branch| - 1].height) && st.tipHash == Some(branch[|branch| - 1].hash))
            && (|branch| == 0 ==> st == NewState(c, binding))
  {
    hide Replay;
    BranchTips(c, binding, branch);
  }

  // ---------- what reconciliation keeps ----------

  lemma {:induction false} ReconcileKeeps(
    c: Crypto, binding: Binding, node: Node, plan: Plan, best: u64, w: World, n: nat, mine: seq<BlockView>,
    kept: seq<BlockView>)
    returns (mine': seq<BlockView>, kept': seq<BlockView>)
    requires WorldInv(c, binding, mine, kept, w) && Safe(w)
    ensures var r := Reconcile(node, plan, best, w, n);
            && WorldInv(c, binding, mine', kept', r.world)
            && r.result != Fail(TipHashMissing)
            && (r.result.Fail? && r.result.error.StoreFailed? ==> r.result.error.store == CommitFailed)
            && (Synced(w) && (forall m :: plan.rollback(m) != Unacknowledged) ==> Synced(r.world))
    decreases |kept|
  {
    hide Replay, Mirrors, Rollback, Bounded, SafeDb, GoodBranch;
    InvIsSafe(c, binding, mine, kept, w);
    TipFields(c, binding, mine);
    MirrorsSafe(c, binding, kept, w.db);
    RollbackExact(c, binding, kept, w.db);
    RollbackShrinks(w.db);
    mine', kept' := mine, kept;
    var rolled := Rollback(w.db);
    if |mine| > 0 && |kept| > 0 && rolled.Ok? && rolled.value.Undone? && !Stops(node, best, w) {
      var init := kept[..|kept| - 1];
      MirrorsSafe(c, binding, init, rolled.value.db);
      if plan.rollback(n) == Healthy {
        var next := World(rolled.value.state, rolled.value.db);
        if next.worker.protocolStatus.AwaitingInit? {
          mine', kept' := init, init;
        } else {
          mine', kept' := ReconcileKeeps(c, binding, node, plan, best, next, n + 1, init, init);
        }
      } else if plan.rollback(n) == Unacknowledged {
        kept' := init;
      }
    }
  }

  /** The loop returns before trying a rollback. */
  predicate Stops(node: Node, best: u64, w: World) {
    w.worker.tipHeight.None? || w.worker.tipHash.None? ||
    (w.worker.tipHeight.value <= best &&
     (node.hashAt(w.worker.tipHeight.value).None? || node.hashAt(w.worker.tipHeight.value) == w.worker.tipHash))
  }

  // ---------- what catching up keeps ----------

  /** No acknowledgement is lost, or the reload after a lost one works. */
  ghost predicate Acknowledged(plan: Plan) {
    (forall m :: plan.rollback(m) != Unacknowledged) && (plan.reloads || forall h :: plan.commit(h) != Unacknowledged)
  }

  lemma {:induction false} CatchUpKeeps(
    c: Crypto, binding: Binding, node: Node, plan: Plan, best: u64, w: World, height: nat, mine: seq<BlockView>,
    kept: seq<BlockView>)
    returns (mine': seq<BlockView>, kept': seq<BlockView>)
    requires WorldInv(c, binding, mine, kept, w) && Safe(w) && Deliverable(node)
    ensures var r := CatchUp(c, node, plan, best, w, height);
            && WorldInv(c, binding, mine', kept', r.world)
            && r.result != Fail(TipHashMissing)
            && (Synced(w) && Acknowledged(plan) ==> Synced(r.world))
            && (r.result.Fail? && r.result.error.StoreFailed? && plan.reloads ==> Synced(r.world))
    decreases best + 1 - height
  {
    hide Replay, Mirrors, Commit, Bounded, SafeDb, Storable, ApplyBlock, OnBranch, BlockFits;
    mine', kept' := mine, kept;
    MirrorsSafe(c, binding, kept, w.db);
    if height <= best && node.blockAt(height).Some? {
      var block := node.blockAt(height).value;
      var reduced := ApplyBlock(c, w.worker, block);
      if reduced.Ok? {
        var post, delta := reduced.value.state, reduced.value.delta;
        AppliedTip(c, w.worker, block);
        CommitIsSafe(w.db, post, delta);
        CommitExact(c, binding, kept, w.db, w.worker, block);
        var attempt := Commit(w.db, post, delta);
        var db := Settled(w.db, attempt, plan.commit(height));
        if attempt.Err? || plan.commit(height) == Lost {
          if plan.reloads { mine' := kept; }
        } else {
          kept' := kept + [block];
          MirrorsSafe(c, binding, kept', db);
          JournalExtends(c, binding, kept, block);
          if plan.commit(height) == Healthy {
            mine', kept' := CatchUpKeeps(c, binding, node, plan, best, World(post, db), height + 1, kept', kept');
          } else {
            mine' := if plan.reloads then kept' else kept;
          }
        }
      }
    }
  }

  // ---------- passes, restarts, whole lives ----------

  lemma RunOnceKeeps(
    c: Crypto, binding: Binding, node: Node, plan: Plan, w: World, mine: seq<BlockView>, kept: seq<BlockView>)
    returns (mine': seq<BlockView>, kept': seq<BlockView>)
    requires WorldInv(c, binding, mine, kept, w) && Safe(w) && Deliverable(node)
    ensures var r := RunOnce(c, node, plan, w);
            && WorldInv(c, binding, mine', kept', r.world)
            && r.result != Fail(TipHashMissing)
            && (Synced(w) && Acknowledged(plan) ==> Synced(r.world))
  {
    hide WorldInv, Reconcile, CatchUp, Safe;
    mine', kept' := mine, kept;
    if node.ready == Some(true) && node.best.Some? {
      var best := node.best.value;
      StoreIsBound(c, binding, mine, kept, w);
      mine', kept' := ReconcileKeeps(c, binding, node, plan, best, w, 0, mine, kept);
      var reconciled := Reconcile(node, plan, best, w, 0);
      var here := reconciled.world;
      StoreIsBound(c, binding, mine', kept', here);
      if reconciled.result.Pass? {
        if here.worker.tipHeight.Some? {
          if here.worker.tipHeight.value < U64_MAX {
            mine', kept' := CatchUpKeeps(c, binding, node, plan, best, here, here.worker.tipHeight.value + 1, mine',
                                         kept');
          }
        } else if node.initHeight.Some? && node.initHeight.value.Some? {
          mine', kept' := CatchUpKeeps(c, binding, node, plan, best, here, node.initHeight.value.value, mine', kept');
        }
      }
    }
  }

  lemma StoreIsBound(c: Crypto, binding: Binding, mine: seq<BlockView>, kept: seq<BlockView>, w: World)
    requires WorldInv(c, binding, mine, kept, w)
    ensures w.db.row.Some? && w.db.row.value.binding == binding
  {
    hide Replay, Journal;
  }

  /** One thing in the life of a deployment: a pass of the worker, or a restart that loads the stored row. */
  datatype Stage = Passed(node: Node, plan: Plan) | Restarted

  ghost predicate Livable(life: seq<Stage>) {
    forall i :: 0 <= i < |life| ==> life[i].Passed? ==> Deliverable(life[i].node)
  }

  ghost function Live(c: Crypto, binding: Binding, life: seq<Stage>): (w: World)
    requires Livable(life)
    ensures Safe(w)
  {
    if |life| == 0 then World(NewState(c, binding), Bound(c, binding))
    else
      var w, stage := Live(c, binding, life[..|life| - 1]), life[|life| - 1];
      if stage.Passed? then RunOnce(c, stage.node, stage.plan, w).world
      else
        var loaded := BindOrLoad(c, w.db, binding);
        if loaded.Ok? && loaded.value.row.Some? then World(loaded.value.row.value.state, loaded.value) else w
  }

  /** Over every life, whatever the sources answered and whichever faults struck: the store mirrors one branch, the
      worker is never further off than `Related` allows, and as long as no acknowledgement was lost for good they agree.
      */
  lemma {:induction false} LifeKeeps(c: Crypto, binding: Binding, life: seq<Stage>)
    returns (mine: seq<BlockView>, kept: seq<BlockView>)
    requires Livable(life)
    ensures WorldInv(c, binding, mine, kept, Live(c, binding, life))
    ensures (forall i :: 0 <= i < |life| ==> life[i].Passed? ==> Acknowledged(life[i].plan)) ==>
            Synced(Live(c, binding, life))
    decreases |life|
  {
    hide WorldInv, RunOnce, Acknowledged, Safe;
    if |life| == 0 {
      mine, kept := [], [];
      FreshWorld(c, binding);
    } else {
      var init, stage := life[..|life| - 1], life[|life| - 1];
      mine, kept := LifeKeeps(c, binding, init);
      var w := Live(c, binding, init);
      StoreIsBound(c, binding, mine, kept, w);
      if stage.Passed? {
        assert Deliverable(life[|life| - 1].node);
        mine, kept := RunOnceKeeps(c, binding, stage.node, stage.plan, w, mine, kept);
      } else {
        Reload(c, binding, mine, kept, w);
        mine := kept;
      }
    }
  }

  lemma FreshWorld(c: Crypto, binding: Binding)
    ensures WorldInv(c, binding, [], [], World(NewState(c, binding), Bound(c, binding)))
  {
    BoundMirrors(c, binding);
  }

  lemma Reload(c: Crypto, binding: Binding, mine: seq<BlockView>, kept: seq<BlockView>, w: World)
    requires WorldInv(c, binding, mine, kept, w)
    ensures w.db.row.Some? && WorldInv(c, binding, kept, kept, World(w.db.row.value.state, w.db))
  {
    hide Replay, Journal, BlockRows, EventRows, ObjectRows;
  }
}
