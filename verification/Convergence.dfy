/** Convergence of one failure-free pass against a fixed linked chain, with its exact condition. */
module Convergence {
  import opened Primitives
  import opened Types
  import opened Validators
  import opened Reducer
  import opened EventLog
  import opened Heights
  import opened Tables
  import opened PathIndependence
  import opened Worker
  import opened WorkerRuns

  // ---------- the node's chain ----------

  predicate HasInit(binding: Binding, block: BlockView) { FindInit(block.transactions, binding.initTxid).Some? }

  function FirstInit(binding: Binding, chain: seq<BlockView>): (r: Option<nat>)
    ensures r.Some? ==> r.value < |chain| && HasInit(binding, chain[r.value])
    ensures r.None? ==> forall i :: 0 <= i < |chain| ==> !HasInit(binding, chain[i])
  {
    if |chain| == 0 then None
    else
      var last := |chain| - 1;
      var rest := FirstInit(binding, chain[..last]);
      if rest.Some? then rest else if HasInit(binding, chain[last]) then Some(last) else None
  }

  /** A linked chain of deliverable blocks from height 0 in which the configured INIT confirms at most once. */
  ghost predicate ChainOk(binding: Binding, chain: seq<BlockView>) {
    && 0 < |chain| <= I64_MAX + 1
    && (forall i :: 0 <= i < |chain| ==>
          chain[i].height == i && BlockFits(chain[i]) && |chain[i].transactions| <= U32_MAX)
    && (forall i :: 0 < i < |chain| ==> chain[i].previousHash == chain[i - 1].hash)
    && (forall i, j ::
          0 <= i < |chain| && 0 <= j < |chain| && HasInit(binding, chain[i]) && HasInit(binding, chain[j]) ==> i == j)
  }

  /** Block hashes identify blocks across the two lists. */
  ghost predicate Identified(a: seq<BlockView>, b: seq<BlockView>) {
    forall i, j :: 0 <= i < |a| && 0 <= j < |b| && a[i].hash == b[j].hash ==> a[i] == b[j]
  }

  ghost predicate Serves(node: Node, binding: Binding, chain: seq<BlockView>)
    requires ChainOk(binding, chain)
  {
    && node.ready == Some(true) && node.best == Some(|chain| - 1)
    && (forall h: u64 :: h < |chain| ==> node.hashAt(h) == Some(chain[h].hash) && node.blockAt(h) == Some(chain[h]))
    && node.initHeight == Some(FirstInit(binding, chain))
  }

  ghost predicate FaultFree(plan: Plan) {
    (forall m :: plan.rollback(m) == Healthy) && (forall h :: plan.commit(h) == Healthy) && plan.reloads
  }

  /** What a clean indexer would have applied: the chain from the INIT block on, or nothing. */
  ghost function CleanBranch(binding: Binding, chain: seq<BlockView>): seq<BlockView> {
    var init := FirstInit(binding, chain);
    if init.Some? then chain[init.value..] else []
  }

  /** The tip is the chain's block at its height. */
  ghost predicate TipOnChain(chain: seq<BlockView>, st: ChainState) {
    st.tipHeight.Some? && st.tipHeight.value < |chain| && st.tipHash == Some(chain[st.tipHeight.value].hash)
  }

  ghost predicate OnChain(binding: Binding, chain: seq<BlockView>, branch: seq<BlockView>, height: nat) {
    var init := FirstInit(binding, chain);
    init.Some? && init.value <= height <= |chain| && branch == chain[init.value..height]
  }

  lemma ApplySucceeds(c: Crypto, st: ChainState, block: BlockView)
    requires Bounded(st) && BlockFits(block) && |block.transactions| <= U32_MAX
    requires st.protocolStatus.AwaitingInit? ==> FindInit(block.transactions, st.binding.initTxid).Some?
    requires ValidateLinkage(st, block).Pass?
    ensures ApplyBlock(c, st, block).Ok?
  {
    hide ProcessPrefix, ValidateConfiguredInit;
  }

  /** Every block of the chain applies on top of the clean replay below it. */
  lemma NextApplies(c: Crypto, binding: Binding, chain: seq<BlockView>, branch: seq<BlockView>, height: nat)
    requires ChainOk(binding, chain) && OnChain(binding, chain, branch, height) && height < |chain|
    requires Fitted(branch) && Replay(c, binding, branch).Some?
    ensures ApplyBlock(c, Replay(c, binding, branch).value, chain[height]).Ok?
    ensures branch + [chain[height]] == chain[FirstInit(binding, chain).value..height + 1]
  {
    hide Replay, ApplyBlock, BlockFits;
    BranchTips(c, binding, branch);
    AwaitingIffEmpty(c, binding, branch);
    ApplySucceeds(c, Replay(c, binding, branch).value, chain[height]);
  }

  lemma ChainHashesDiffer(binding: Binding, chain: seq<BlockView>, branch: seq<BlockView>, height: nat)
    requires ChainOk(binding, chain) && Identified(chain, chain) && OnChain(binding, chain, branch, height) &&
             height < |chain|
    ensures !OnBranch(branch, chain[height].hash)
  {
    hide HasInit, BlockFits, FirstInit;
    forall i | 0 <= i < |branch| ensures branch[i].hash != chain[height].hash {
      assert branch[i] == chain[FirstInit(binding, chain).value + i];
    }
  }

  /** A branch whose tip is on the chain is the chain's own segment from the INIT block to that tip. */
  lemma Aligned(c: Crypto, binding: Binding, chain: seq<BlockView>, branch: seq<BlockView>)
    requires ChainOk(binding, chain) && GoodBranch(c, binding, branch) && |branch| > 0 && Identified(branch, chain)
    requires TipOnChain(chain, Replay(c, binding, branch).value)
    ensures OnChain(binding, chain, branch, branch[|branch| - 1].height + 1)
  {
    hide Replay, BlockFits, FirstInit, HasInit;
    BranchTips(c, binding, branch);
    var start := branch[0].height;
    Backwards(binding, chain, branch, 0);
    FirstHasInit(c, binding, branch);
    assert chain[start] == branch[0];
    assert FirstInit(binding, chain) == Some(start);
  }

  lemma {:induction false} Backwards(binding: Binding, chain: seq<BlockView>, branch: seq<BlockView>, from: nat)
    requires ChainOk(binding, chain) && Linked(branch) && Identified(branch, chain) && from < |branch|
    requires var tip := branch[|branch| - 1]; tip.height < |chain| && tip.hash == chain[tip.height].hash
    ensures branch[from..] == chain[branch[from].height..branch[|branch| - 1].height + 1]
    ensures branch[from].height <= branch[|branch| - 1].height
    decreases |branch| - from
  {
    hide HasInit, BlockFits;
    var last := |branch| - 1;
    var tip := branch[last];
    assert tip.height - branch[from].height == last - from || from == last;
    if from == last {
      assert branch[last] == chain[tip.height];
    } else {
      Backwards(binding, chain, branch, from + 1);
      var h := branch[from + 1].height;
      assert branch[from + 1..][0] == branch[from + 1];
      assert chain[h] == branch[from + 1];
      assert branch[from].hash == chain[h - 1].hash;
      assert branch[from] == chain[h - 1];
    }
  }

  /** The first applied block contains the configured INIT. */
  lemma FirstHasInit(c: Crypto, binding: Binding, branch: seq<BlockView>)
    requires GoodBranch(c, binding, branch) && |branch| > 0
    ensures HasInit(binding, branch[0])
  {
    hide ProcessPrefix, ValidateConfiguredInit, Seal;
    JournalAt(c, binding, branch, 0);
    assert branch[..0] == [];
  }

  // ---------- the pass ----------

  /** Worker and store both stand at the given branch. */
  ghost predicate At(c: Crypto, binding: Binding, branch: seq<BlockView>, w: World) {
    WorldInv(c, binding, branch, branch, w)
  }

  lemma MirroredAt(c: Crypto, binding: Binding, branch: seq<BlockView>, w: World)
    requires Mirrors(c, binding, branch, w.db) && w.worker == Replay(c, binding, branch).value
    ensures At(c, binding, branch, w)
  {
    hide Replay, Journal, BlockRows, EventRows, ObjectRows;
  }

  lemma AtFacts(c: Crypto, binding: Binding, branch: seq<BlockView>, w: World)
    requires At(c, binding, branch, w)
    ensures GoodBranch(c, binding, branch) && Mirrors(c, binding, branch, w.db) &&
            w.worker == Replay(c, binding, branch).value
    ensures Safe(w) && w.db.row == Some(StateRow(binding, w.worker))
  {
    hide Replay, Journal, BlockRows, EventRows, ObjectRows, SafeDb, Bounded;
    MirrorsSafe(c, binding, branch, w.db);
  }

  lemma {:induction false} CatchUpConverges(
    c: Crypto, binding: Binding, chain: seq<BlockView>, node: Node, plan: Plan, branch: seq<BlockView>, w: World,
    height: nat)
    requires ChainOk(binding, chain) && Identified(chain, chain) && Serves(node, binding, chain) && Deliverable(node)
    requires FaultFree(plan) && At(c, binding, branch, w) && OnChain(binding, chain, branch, height) && Safe(w)
    ensures var r := CatchUp(c, node, plan, |chain| - 1, w, height);
            r.result.Pass? && At(c, binding, CleanBranch(binding, chain), r.world)
    decreases |chain| - height
  {
    hide Replay, Mirrors, Commit, ApplyBlock, At, FirstInit, Safe, GoodBranch, BlockFits, OnBranch, Bounded, Identified;
    AtFacts(c, binding, branch, w);
    if height < |chain| {
      GoodFacts(c, binding, branch);
      NextApplies(c, binding, chain, branch, height);
      ChainHashesDiffer(binding, chain, branch, height);
      CommitExact(c, binding, branch, w.db, w.worker, chain[height]);
      var a := ApplyBlock(c, w.worker, chain[height]).value;
      var next := World(a.state, Commit(w.db, a.state, a.delta).value);
      JournalExtends(c, binding, branch, chain[height]);
      MirroredAt(c, binding, branch + [chain[height]], next);
      AtFacts(c, binding, branch + [chain[height]], next);
      CatchUpConverges(c, binding, chain, node, plan, branch + [chain[height]], next, height + 1);
      assert CatchUp(c, node, plan, |chain| - 1, w, height) == CatchUp(c, node, plan, |chain| - 1, next, height + 1);
    } else {
      assert branch == CleanBranch(binding, chain);
    }
  }

  lemma GoodFacts(c: Crypto, binding: Binding, branch: seq<BlockView>)
    requires GoodBranch(c, binding, branch)
    ensures Fitted(branch) && Storable(branch) && Replay(c, binding, branch).Some?
  {
  }

  /** Reconciling a synced worker pops exactly the blocks that are not on the chain. */
  lemma {:induction false} ReconcileConverges(
    c: Crypto, binding: Binding, chain: seq<BlockView>, node: Node, plan: Plan, kept: seq<BlockView>, w: World, n: nat)
    returns (common: seq<BlockView>)
    requires ChainOk(binding, chain) && Serves(node, binding, chain) && FaultFree(plan) && At(c, binding, kept, w) &&
             Safe(w)
    ensures |common| <= |kept| && common == kept[..|common|]
    ensures var r := Reconcile(node, plan, |chain| - 1, w, n);
            r.result.Pass? && At(c, binding, common, r.world) && (|common| > 0 ==> TipOnChain(chain, r.world.worker))
    decreases |kept|
  {
    hide Replay, Mirrors, Rollback, At, Safe, GoodBranch, ChainOk, FirstInit;
    AtFacts(c, binding, kept, w);
    TipFields(c, binding, kept);
    common := kept;
    if |kept| > 0 && !TipOnChain(chain, w.worker) {
      var init := kept[..|kept| - 1];
      var next := Undo(c, binding, chain, node, plan, kept, w, n);
      if next.worker.protocolStatus.AwaitingInit? {
        common := init;
        EmptyIfAwaiting(c, binding, init, next);
      } else {
        common := ReconcileConverges(c, binding, chain, node, plan, init, next, n + 1);
      }
    }
  }

  /** One turn of the loop: a healthy rollback puts worker and store at the branch without its last block, wherever the
      worker was before. */
  lemma Undo(
    c: Crypto, binding: Binding, chain: seq<BlockView>, node: Node, plan: Plan, kept: seq<BlockView>, w: World, n: nat)
    returns (next: World)
    requires ChainOk(binding, chain) && Serves(node, binding, chain) && FaultFree(plan) && Safe(w)
    requires Mirrors(c, binding, kept, w.db) && |kept| > 0
    requires w.worker.tipHeight.Some? && w.worker.tipHash.Some? && !TipOnChain(chain, w.worker)
    ensures Safe(next) && At(c, binding, kept[..|kept| - 1], next)
    ensures Reconcile(node, plan, |chain| - 1, w, n) ==
            if next.worker.protocolStatus.AwaitingInit? then Outcome(next, Pass)
              else Reconcile(node, plan, |chain| - 1, next, n + 1)
  {
    hide Replay, Mirrors, Rollback, At, Bounded, SafeDb, GoodBranch, ChainOk, FirstInit;
    RollbackExact(c, binding, kept, w.db);
    var rolled := Rollback(w.db).value;
    next := World(rolled.state, rolled.db);
    MirroredAt(c, binding, kept[..|kept| - 1], next);
    AtFacts(c, binding, kept[..|kept| - 1], next);
  }

  lemma EmptyIfAwaiting(c: Crypto, binding: Binding, branch: seq<BlockView>, w: World)
    requires At(c, binding, branch, w) && w.worker.protocolStatus.AwaitingInit?
    ensures |branch| == 0
  {
    hide Replay, Mirrors, BlockFits;
    AwaitingIffEmpty(c, binding, branch);
  }

  /** The catch-up half ends at the clean branch from any point on it, or from nothing. */
  lemma FromHereConverges(
    c: Crypto, binding: Binding, chain: seq<BlockView>, node: Node, plan: Plan, common: seq<BlockView>, w: World)
    requires ChainOk(binding, chain) && Identified(chain, chain) && Identified(common, chain)
    requires Serves(node, binding, chain) && Deliverable(node) && FaultFree(plan) && At(c, binding, common, w) &&
             Safe(w)
    requires |common| > 0 ==> TipOnChain(chain, w.worker)
    ensures var r := FromHere(c, node, plan, |chain| - 1, w);
            r.result.Pass? && At(c, binding, CleanBranch(binding, chain), r.world)
  {
    hide Replay, Mirrors, At, Safe, GoodBranch, FirstInit, CatchUp, BlockFits, Identified;
    AtFacts(c, binding, common, w);
    TipFields(c, binding, common);
    if |common| > 0 {
      Aligned(c, binding, chain, common);
      CatchUpConverges(c, binding, chain, node, plan, common, w, common[|common| - 1].height + 1);
    } else if FirstInit(binding, chain).Some? {
      assert chain[FirstInit(binding, chain).value..FirstInit(binding, chain).value] == [];
      CatchUpConverges(c, binding, chain, node, plan, common, w, FirstInit(binding, chain).value);
    }
  }

  // ---------- the theorem ----------

  /** The pass returns success and leaves worker and store at the clean replay of the node's chain. */
  ghost predicate Converged(c: Crypto, binding: Binding, chain: seq<BlockView>, r: Outcome) {
    r.result.Pass? && At(c, binding, CleanBranch(binding, chain), r.world)
  }

  /** The worker agrees with the store, or has a tip off the chain while the store has a tip to roll back. */
  ghost predicate Recovers(chain: seq<BlockView>, w: World) {
    || Synced(w)
    || (w.worker.tipHeight.Some? && !TipOnChain(chain, w.worker) && w.db.row.Some? &&
        w.db.row.value.state.tipHeight.Some?)
  }

  lemma PrefixIdentified(a: seq<BlockView>, b: seq<BlockView>, count: nat)
    requires Identified(a, b) && count <= |a|
    ensures Identified(a[..count], b)
  {
  }

  lemma ConvergesFromSync(
    c: Crypto, binding: Binding, chain: seq<BlockView>, node: Node, plan: Plan, kept: seq<BlockView>, w: World, n: nat)
    requires ChainOk(binding, chain) && Identified(chain, chain) && Identified(kept, chain)
    requires Serves(node, binding, chain) && Deliverable(node) && FaultFree(plan) && At(c, binding, kept, w) && Safe(w)
    ensures var reconciled := Reconcile(node, plan, |chain| - 1, w, n);
            reconciled.result.Pass? && Converged(c, binding, chain,
                                                 FromHere(c, node, plan, |chain| - 1, reconciled.world))
  {
    hide At, Safe, FirstInit, Reconcile, FromHere, Identified, ChainOk, CleanBranch, Deliverable, FaultFree;
    var common := ReconcileConverges(c, binding, chain, node, plan, kept, w, n);
    PrefixIdentified(kept, chain, |common|);
    FromHereConverges(c, binding, chain, node, plan, common, Reconcile(node, plan, |chain| - 1, w, n).world);
  }

  lemma ConvergesIf(
    c: Crypto, binding: Binding, chain: seq<BlockView>, node: Node, plan: Plan, mine: seq<BlockView>,
    kept: seq<BlockView>, w: World)
    requires ChainOk(binding, chain) && Identified(chain, chain) && Identified(kept, chain)
    requires Serves(node, binding, chain) && Deliverable(node) && FaultFree(plan)
    requires WorldInv(c, binding, mine, kept, w) && Safe(w) && Recovers(chain, w)
    ensures Converged(c, binding, chain, RunOnce(c, node, plan, w))
  {
    hide At, Safe, FirstInit, Reconcile, FromHere, Identified, ChainOk, CleanBranch, Deliverable, FaultFree, Replay,
         Mirrors, GoodBranch, Related, Converged, TipOnChain;
    MirrorsSafe(c, binding, kept, w.db);
    TipFields(c, binding, mine);
    TipFields(c, binding, kept);
    if Synced(w) {
      MirroredAt(c, binding, kept, w);
      ConvergesFromSync(c, binding, chain, node, plan, kept, w, 0);
    } else {
      var next := Undo(c, binding, chain, node, plan, kept, w, 0);
      var init := kept[..|kept| - 1];
      PrefixIdentified(kept, chain, |init|);
      if next.worker.protocolStatus.AwaitingInit? {
        EmptyIfAwaiting(c, binding, init, next);
        FromHereConverges(c, binding, chain, node, plan, init, next);
        assert Converged(c, binding, chain, FromHere(c, node, plan, |chain| - 1, next)) by {
          ConvergedMeans(c, binding, chain, FromHere(c, node, plan, |chain| - 1, next));
        }
      } else {
        ConvergesFromSync(c, binding, chain, node, plan, init, next, 1);
      }
    }
  }

  lemma ConvergedMeans(c: Crypto, binding: Binding, chain: seq<BlockView>, r: Outcome)
    ensures Converged(c, binding, chain, r) <==> r.result.Pass? && At(c, binding, CleanBranch(binding, chain), r.world)
    ensures Converged(c, binding, chain, r) ==> Synced(r.world)
  {
    hide Replay, Journal, Mirrors;
    if Converged(c, binding, chain, r) { AtFacts(c, binding, CleanBranch(binding, chain), r.world); }
  }

  /** A worker that disagrees with the store cannot commit: the compare-and-swap guard stops it. */
  lemma UnsyncedCatchUp(
    c: Crypto, binding: Binding, node: Node, plan: Plan, best: u64, kept: seq<BlockView>, w: World, height: nat)
    requires Mirrors(c, binding, kept, w.db) && Safe(w) && Deliverable(node) && !Synced(w)
    ensures var r := CatchUp(c, node, plan, best, w, height);
            && r.world.db == w.db
            && (r.result.Pass? ==> r.world == w)
            && (r.result.Fail? ==> r.world.worker == w.worker || Synced(r.world))
            && (r.result == Fail(StoreFailed(StateChanged)) && plan.reloads ==> Synced(r.world))
  {
    hide Replay, Mirrors, Commit, Bounded, SafeDb, ApplyBlock, BlockFits, OnBranch;
    MirrorsSafe(c, binding, kept, w.db);
    if height <= best && node.blockAt(height).Some? {
      var block := node.blockAt(height).value;
      var reduced := ApplyBlock(c, w.worker, block);
      if reduced.Ok? {
        AppliedTip(c, w.worker, block);
        CommitExact(c, binding, kept, w.db, w.worker, block);
      }
    }
  }

  lemma DivergesOtherwise(
    c: Crypto, binding: Binding, chain: seq<BlockView>, node: Node, plan: Plan, mine: seq<BlockView>,
    kept: seq<BlockView>, w: World)
    requires ChainOk(binding, chain) && Serves(node, binding, chain) && Deliverable(node)
    requires WorldInv(c, binding, mine, kept, w) && Safe(w) && !Recovers(chain, w)
    ensures !Converged(c, binding, chain, RunOnce(c, node, plan, w))
  {
    hide At, Safe, FirstInit, CatchUp, ChainOk, CleanBranch, Deliverable, Replay, Mirrors, GoodBranch, Related,
         Converged, Rollback;
    MirrorsSafe(c, binding, kept, w.db);
    TipFields(c, binding, mine);
    TipFields(c, binding, kept);
    RollbackExact(c, binding, kept, w.db);
    var best: u64 := |chain| - 1;
    var reconciled := Reconcile(node, plan, best, w, 0);
    var r := RunOnce(c, node, plan, w);
    ConvergedMeans(c, binding, chain, r);
    if reconciled.result.Pass? {
      assert reconciled.world == w;
      if w.worker.tipHeight.Some? {
        UnsyncedCatchUp(c, binding, node, plan, best, kept, w, w.worker.tipHeight.value + 1);
      } else if node.initHeight.value.Some? {
        UnsyncedCatchUp(c, binding, node, plan, best, kept, w, node.initHeight.value.value);
      }
    }
  }

  /** From any reachable worker and store, a failure-free pass against a fixed chain succeeds with worker and store at
      the clean replay from the INIT height to the best height, or at the fresh state if INIT is absent, exactly when
      the worker agrees with the store or the reorganization loop can roll back. */
  lemma PassConverges(
    c: Crypto, binding: Binding, chain: seq<BlockView>, node: Node, plan: Plan, mine: seq<BlockView>,
    kept: seq<BlockView>, w: World)
    requires ChainOk(binding, chain) && Identified(chain, chain) && Identified(kept, chain)
    requires Serves(node, binding, chain) && Deliverable(node) && FaultFree(plan)
    requires WorldInv(c, binding, mine, kept, w) && Safe(w)
    ensures Converged(c, binding, chain, RunOnce(c, node, plan, w)) <==> Recovers(chain, w)
  {
    hide WorldInv, ChainOk, Serves, Deliverable, FaultFree, Identified, Converged, Recovers, RunOnce, Safe;
    if Recovers(chain, w) {
      ConvergesIf(c, binding, chain, node, plan, mine, kept, w);
    } else {
      DivergesOtherwise(c, binding, chain, node, plan, mine, kept, w);
    }
  }

  /** The same at the end of any life: whatever happened before, one failure-free pass converges exactly then. */
  lemma LifeThenPass(c: Crypto, binding: Binding, life: seq<Stage>, chain: seq<BlockView>, node: Node, plan: Plan)
    returns (mine: seq<BlockView>, kept: seq<BlockView>)
    requires Livable(life) && ChainOk(binding, chain) && Identified(chain, chain)
    requires Serves(node, binding, chain) && Deliverable(node) && FaultFree(plan)
    ensures WorldInv(c, binding, mine, kept, Live(c, binding, life))
    ensures Identified(kept, chain) ==>
              (Converged(c, binding, chain, RunOnce(c, node, plan, Live(c, binding, life))) <==>
               Recovers(chain, Live(c, binding, life)))
  {
    hide WorldInv, ChainOk, Serves, Deliverable, FaultFree, Identified, Converged, Recovers, RunOnce, Safe, Live;
    mine, kept := LifeKeeps(c, binding, life);
    if Identified(kept, chain) {
      PassConverges(c, binding, chain, node, plan, mine, kept, Live(c, binding, life));
    }
  }
}
