/** Repeated passes against one chain: which reachable worlds a failure-free retry repairs, which no pass ever changes,
    and the fault histories that lead to the latter. */
module Recovery {
  import opened Primitives
  import opened Types
  import opened Validators
  import opened Reducer
  import opened EventLog
  import opened Heights
  import opened Tables
  import opened PathIndependence
  import opened Worker
  import opened WorkerRuns
  import opened Convergence

  /** Worker and store disagree and no pass can notice or act on it: the worker wants to roll back a store that has
      nothing left, or it already stands at the node's best block, or it waits for an INIT the node does not have. */
  ghost predicate Stuck(binding: Binding, chain: seq<BlockView>, w: World) {
    !Synced(w) &&
    (|| (w.worker.tipHeight.Some? && !TipOnChain(chain, w.worker) && w.db.row.Some? &&
         w.db.row.value.state.tipHeight.None?)
     || (TipOnChain(chain, w.worker) && w.worker.tipHeight.value == |chain| - 1)
     || (w.worker.tipHeight.None? && FirstInit(binding, chain).None?))
  }

  /** What a pass against the chain reports in a stuck world. */
  function StuckReport(chain: seq<BlockView>, st: ChainState): Guard<PassError> {
    if st.tipHeight.None? then Pass
    else if st.tipHeight.value < |chain| && st.tipHash == Some(chain[st.tipHeight.value].hash) then Pass
    else Fail(NoRollbackJournal)
  }

  /** No pass changes a stuck world, whatever faults strike it; where the worker's tip is on the chain or absent the
      pass even reports success. */
  lemma StuckIsUnchanged(
    c: Crypto, binding: Binding, chain: seq<BlockView>, node: Node, plan: Plan, mine: seq<BlockView>,
    kept: seq<BlockView>, w: World)
    requires ChainOk(binding, chain) && Serves(node, binding, chain) && Deliverable(node)
    requires WorldInv(c, binding, mine, kept, w) && Safe(w) && Stuck(binding, chain, w)
    ensures RunOnce(c, node, plan, w) == Outcome(w, StuckReport(chain, w.worker))
    ensures !Converged(c, binding, chain, RunOnce(c, node, plan, w))
  {
    hide Replay, Mirrors, Rollback, At, Bounded, SafeDb, GoodBranch, BlockFits, HasInit, FirstInit, CatchUp,
         CleanBranch, Related, Converged;
    MirrorsSafe(c, binding, kept, w.db);
    TipFields(c, binding, mine);
    TipFields(c, binding, kept);
    RollbackExact(c, binding, kept, w.db);
    if w.worker.tipHeight.Some? && TipOnChain(chain, w.worker) { PastBest(c, node, plan, |chain| - 1, w, |chain|); }
    ConvergedMeans(c, binding, chain, RunOnce(c, node, plan, w));
  }

  lemma PastBest(c: Crypto, node: Node, plan: Plan, best: u64, w: World, height: nat)
    requires Safe(w) && Deliverable(node) && height > best
    ensures CatchUp(c, node, plan, best, w, height) == Outcome(w, Pass)
  {
  }

  // ---------- one failing pass resynchronises ----------

  /** The chain's next block applies to any running state whose tip is its parent. */
  lemma ParentedApplies(c: Crypto, binding: Binding, chain: seq<BlockView>, mine: seq<BlockView>)
    requires ChainOk(binding, chain) && GoodBranch(c, binding, mine)
    requires TipOnChain(chain, Replay(c, binding, mine).value)
    requires Replay(c, binding, mine).value.tipHeight.value < |chain| - 1
    ensures var st := Replay(c, binding, mine).value; ApplyBlock(c, st, chain[st.tipHeight.value + 1]).Ok?
  {
    hide Replay, ApplyBlock, BlockFits, FirstInit;
    TipFields(c, binding, mine);
    AwaitingIffEmpty(c, binding, mine);
    var st := Replay(c, binding, mine).value;
    ApplySucceeds(c, st, chain[st.tipHeight.value + 1]);
  }

  lemma FreshApplies(c: Crypto, binding: Binding, chain: seq<BlockView>)
    requires ChainOk(binding, chain) && FirstInit(binding, chain).Some?
    ensures Bounded(NewState(c, binding)) &&
            ApplyBlock(c, NewState(c, binding), chain[FirstInit(binding, chain).value]).Ok?
  {
    hide ApplyBlock, FirstInit, BlockFits;
    ApplySucceeds(c, NewState(c, binding), chain[FirstInit(binding, chain).value]);
  }

  /** A disagreeing worker with a block to apply is stopped by the compare-and-swap guard and reloads the stored row. */
  lemma GuardResyncs(
    c: Crypto, binding: Binding, node: Node, plan: Plan, best: u64, kept: seq<BlockView>, w: World, height: nat)
    requires Mirrors(c, binding, kept, w.db) && Safe(w) && Deliverable(node) && !Synced(w) && plan.reloads
    requires height <= best && node.blockAt(height).Some? && ApplyBlock(c, w.worker, node.blockAt(height).value).Ok?
    ensures var r := CatchUp(c, node, plan, best, w, height);
            r.result == Fail(StoreFailed(StateChanged)) && r.world == World(w.db.row.value.state, w.db) &&
            Synced(r.world)
  {
    hide Replay, Mirrors, Commit, Bounded, SafeDb, ApplyBlock, BlockFits, OnBranch;
    MirrorsSafe(c, binding, kept, w.db);
    CommitExact(c, binding, kept, w.db, w.worker, node.blockAt(height).value);
  }

  /** A world that is neither convergent nor stuck is resynchronised by its next failure-free pass. */
  lemma ResyncsOtherwise(
    c: Crypto, binding: Binding, chain: seq<BlockView>, node: Node, plan: Plan, mine: seq<BlockView>,
    kept: seq<BlockView>, w: World)
    requires ChainOk(binding, chain) && Serves(node, binding, chain) && Deliverable(node) && FaultFree(plan)
    requires WorldInv(c, binding, mine, kept, w) && Safe(w) && !Recovers(chain, w) && !Stuck(binding, chain, w)
    ensures var r := RunOnce(c, node, plan, w);
            r.result == Fail(StoreFailed(StateChanged)) && At(c, binding, kept, r.world)
  {
    hide Replay, Mirrors, Rollback, At, Bounded, SafeDb, GoodBranch, ChainOk, FirstInit, CatchUp, CleanBranch, Related,
         ApplyBlock;
    MirrorsSafe(c, binding, kept, w.db);
    TipFields(c, binding, mine);
    TipFields(c, binding, kept);
    var resynced := World(w.db.row.value.state, w.db);
    MirroredAt(c, binding, kept, resynced);
    if w.worker.tipHeight.Some? {
      ParentedApplies(c, binding, chain, mine);
      GuardResyncs(c, binding, node, plan, |chain| - 1, kept, w, w.worker.tipHeight.value + 1);
    } else {
      FreshApplies(c, binding, chain);
      GuardResyncs(c, binding, node, plan, |chain| - 1, kept, w, FirstInit(binding, chain).value);
    }
  }

  // ---------- any number of passes ----------

  /** The outcome of the last of several passes. */
  function RunPasses(c: Crypto, node: Node, plans: seq<Plan>, w: World): (r: Outcome)
    requires Safe(w) && Deliverable(node) && |plans| > 0
    ensures Safe(r.world)
  {
    if |plans| == 1 then RunOnce(c, node, plans[0], w)
    else RunOnce(c, node, plans[|plans| - 1], RunPasses(c, node, plans[..|plans| - 1], w).world)
  }

  /** A stuck world stays as it is through every number of passes, under every fault plan. */
  lemma {:induction false} StuckForever(
    c: Crypto, binding: Binding, chain: seq<BlockView>, node: Node, plans: seq<Plan>, mine: seq<BlockView>,
    kept: seq<BlockView>, w: World)
    requires ChainOk(binding, chain) && Serves(node, binding, chain) && Deliverable(node) && |plans| > 0
    requires WorldInv(c, binding, mine, kept, w) && Safe(w) && Stuck(binding, chain, w)
    ensures var r := RunPasses(c, node, plans, w);
            r == Outcome(w, StuckReport(chain, w.worker)) && !Converged(c, binding, chain, r)
    decreases |plans|
  {
    hide WorldInv, ChainOk, Serves, Deliverable, Converged, RunOnce, Safe, Stuck;
    StuckIsUnchanged(c, binding, chain, node, plans[|plans| - 1], mine, kept, w);
    if |plans| > 1 { StuckForever(c, binding, chain, node, plans[..|plans| - 1], mine, kept, w); }
  }

  lemma SuffixIdentified(binding: Binding, chain: seq<BlockView>)
    requires Identified(chain, chain)
    ensures Identified(CleanBranch(binding, chain), chain)
  {
  }

  lemma AtRecovers(c: Crypto, binding: Binding, chain: seq<BlockView>, branch: seq<BlockView>, w: World)
    requires At(c, binding, branch, w)
    ensures WorldInv(c, binding, branch, branch, w) && Recovers(chain, w)
  {
    hide WorldInv;
    AtFacts(c, binding, branch, w);
  }

  /** From agreement every failure-free pass converges, and so does every later one. */
  lemma {:induction false} StaysConverged(
    c: Crypto, binding: Binding, chain: seq<BlockView>, node: Node, plans: seq<Plan>, branch: seq<BlockView>, w: World)
    requires ChainOk(binding, chain) && Identified(chain, chain) && Identified(branch, chain)
    requires Serves(node, binding, chain) && Deliverable(node) && |plans| > 0
    requires forall i :: 0 <= i < |plans| ==> FaultFree(plans[i])
    requires At(c, binding, branch, w) && Safe(w)
    ensures Converged(c, binding, chain, RunPasses(c, node, plans, w))
    decreases |plans|
  {
    hide At, WorldInv, ChainOk, Serves, Deliverable, FaultFree, Identified, Converged, RunOnce, Safe, Recovers,
         CleanBranch;
    var last := plans[|plans| - 1];
    assert FaultFree(last);
    if |plans| == 1 {
      AtRecovers(c, binding, chain, branch, w);
      ConvergesIf(c, binding, chain, node, last, branch, branch, w);
    } else {
      StaysConverged(c, binding, chain, node, plans[..|plans| - 1], branch, w);
      var before := RunPasses(c, node, plans[..|plans| - 1], w);
      ConvergedMeans(c, binding, chain, before);
      SuffixIdentified(binding, chain);
      var clean := CleanBranch(binding, chain);
      AtRecovers(c, binding, chain, clean, before.world);
      ConvergesIf(c, binding, chain, node, last, clean, clean, before.world);
    }
  }

  /** Passes after the first are passes from where the first ended. */
  lemma {:induction false} FirstPass(c: Crypto, node: Node, plans: seq<Plan>, w: World)
    requires Safe(w) && Deliverable(node) && |plans| > 1
    ensures RunPasses(c, node, plans, w) == RunPasses(c, node, plans[1..], RunOnce(c, node, plans[0], w).world)
    decreases |plans|
  {
    hide Safe, Deliverable, RunOnce;
    var init := plans[..|plans| - 1];
    if |plans| > 2 {
      FirstPass(c, node, init, w);
      assert init[1..] == plans[1..][..|plans| - 2];
    }
  }

  /** Repair, exactly: from any reachable worker and store, two or more failure-free passes against a fixed chain end
      converged if and only if the world was not stuck. */
  lemma RetryConverges(
    c: Crypto, binding: Binding, chain: seq<BlockView>, node: Node, plans: seq<Plan>, mine: seq<BlockView>,
    kept: seq<BlockView>, w: World)
    requires ChainOk(binding, chain) && Identified(chain, chain) && Identified(kept, chain)
    requires Serves(node, binding, chain) && Deliverable(node) && |plans| > 1
    requires forall i :: 0 <= i < |plans| ==> FaultFree(plans[i])
    requires WorldInv(c, binding, mine, kept, w) && Safe(w)
    ensures Converged(c, binding, chain, RunPasses(c, node, plans, w)) <==> !Stuck(binding, chain, w)
  {
    hide At, WorldInv, ChainOk, Serves, Deliverable, FaultFree, Identified, Converged, RunOnce, Safe, Recovers, Stuck,
         CleanBranch;
    if Stuck(binding, chain, w) {
      StuckForever(c, binding, chain, node, plans, mine, kept, w);
    } else {
      assert FaultFree(plans[0]);
      FirstPass(c, node, plans, w);
      var first := RunOnce(c, node, plans[0], w);
      if Recovers(chain, w) {
        ConvergesIf(c, binding, chain, node, plans[0], mine, kept, w);
        ConvergedMeans(c, binding, chain, first);
        SuffixIdentified(binding, chain);
        StaysConverged(c, binding, chain, node, plans[1..], CleanBranch(binding, chain), first.world);
      } else {
        ResyncsOtherwise(c, binding, chain, node, plans[0], mine, kept, w);
        StaysConverged(c, binding, chain, node, plans[1..], kept, first.world);
      }
    }
  }

  /** The same at the end of any life. */
  lemma LifeThenRetry(
    c: Crypto, binding: Binding, life: seq<Stage>, chain: seq<BlockView>, node: Node, plans: seq<Plan>)
    returns (mine: seq<BlockView>, kept: seq<BlockView>)
    requires Livable(life) && ChainOk(binding, chain) && Identified(chain, chain)
    requires Serves(node, binding, chain) && Deliverable(node) && |plans| > 1
    requires forall i :: 0 <= i < |plans| ==> FaultFree(plans[i])
    ensures WorldInv(c, binding, mine, kept, Live(c, binding, life))
    ensures Identified(kept, chain) ==>
              (Converged(c, binding, chain, RunPasses(c, node, plans, Live(c, binding, life))) <==>
               !Stuck(binding, chain, Live(c, binding, life)))
  {
    hide WorldInv, ChainOk, Serves, Deliverable, FaultFree, Identified, Converged, RunPasses, Safe, Live, Stuck;
    mine, kept := LifeKeeps(c, binding, life);
    if Identified(kept, chain) {
      RetryConverges(c, binding, chain, node, plans, mine, kept, Live(c, binding, life));
    }
  }

  /** A restart always helps: it reloads the stored row, so one failure-free pass after it converges from any world. */
  lemma RestartRecovers(
    c: Crypto, binding: Binding, chain: seq<BlockView>, node: Node, plan: Plan, mine: seq<BlockView>,
    kept: seq<BlockView>, w: World)
    requires ChainOk(binding, chain) && Identified(chain, chain) && Identified(kept, chain)
    requires Serves(node, binding, chain) && Deliverable(node) && FaultFree(plan)
    requires WorldInv(c, binding, mine, kept, w) && Safe(w)
    ensures w.db.row.Some? && BindOrLoad(c, w.db, binding) == Ok(w.db)
    ensures var restarted := World(w.db.row.value.state, w.db);
            Safe(restarted) && Converged(c, binding, chain, RunOnce(c, node, plan, restarted))
  {
    hide WorldInv, ChainOk, Serves, Deliverable, FaultFree, Identified, Converged, RunOnce;
    StoreIsBound(c, binding, mine, kept, w);
    Reload(c, binding, mine, kept, w);
    var restarted := World(w.db.row.value.state, w.db);
    InvIsSafe(c, binding, kept, kept, restarted);
    ConvergesIf(c, binding, chain, node, plan, kept, kept, restarted);
  }

  // ---------- how a world gets stuck ----------

  /** An unacknowledged rollback pops the store and leaves the worker where it was. */
  lemma LostRollback(
    c: Crypto, binding: Binding, chain: seq<BlockView>, node: Node, plan: Plan, mine: seq<BlockView>,
    kept: seq<BlockView>, w: World)
    requires ChainOk(binding, chain) && Serves(node, binding, chain) && Deliverable(node)
    requires WorldInv(c, binding, mine, kept, w) && Safe(w) && |mine| > 0 && |kept| > 0 && !TipOnChain(chain, w.worker)
    requires plan.rollback(0) == Unacknowledged
    ensures var after := RunOnce(c, node, plan, w).world;
            after.worker == w.worker && Mirrors(c, binding, kept[..|kept| - 1], after.db)
  {
    hide Replay, Mirrors, Rollback, At, Bounded, SafeDb, GoodBranch, ChainOk, FirstInit;
    MirrorsSafe(c, binding, kept, w.db);
    TipFields(c, binding, mine);
    RollbackExact(c, binding, kept, w.db);
  }

  /** When the popped block was the store's only one, the worker is stranded: every pass fails and changes nothing. */
  lemma LostRollbackStrands(
    c: Crypto, binding: Binding, chain: seq<BlockView>, node: Node, plan: Plan, mine: seq<BlockView>,
    kept: seq<BlockView>, w: World)
    requires ChainOk(binding, chain) && Serves(node, binding, chain) && Deliverable(node)
    requires WorldInv(c, binding, mine, kept, w) && Safe(w) && |mine| > 0 && |kept| == 1 && !TipOnChain(chain, w.worker)
    requires plan.rollback(0) == Unacknowledged
    ensures var after := RunOnce(c, node, plan, w).world;
            Stuck(binding, chain, after) && StuckReport(chain, after.worker) == Fail(NoRollbackJournal)
  {
    hide Replay, Mirrors, RunOnce, Bounded, SafeDb, ChainOk, FirstInit;
    LostRollback(c, binding, chain, node, plan, mine, kept, w);
    TipFields(c, binding, mine);
    assert kept[..0] == [];
    MirrorsSafe(c, binding, [], RunOnce(c, node, plan, w).world.db);
    TipFields(c, binding, []);
  }

  /** When the node then flips back to the worker's tip as its best block, every pass reports success while the store
      lacks that block. */
  lemma FlipBackHides(
    c: Crypto, binding: Binding, chain: seq<BlockView>, node: Node, plan: Plan, kept: seq<BlockView>, w: World,
    back: seq<BlockView>)
    requires ChainOk(binding, chain) && Serves(node, binding, chain) && Deliverable(node)
    requires At(c, binding, kept, w) && Safe(w) && |kept| > 0 && !TipOnChain(chain, w.worker)
    requires plan.rollback(0) == Unacknowledged
    requires TipOnChain(back, w.worker) && w.worker.tipHeight.value == |back| - 1
    ensures var after := RunOnce(c, node, plan, w).world;
            && Stuck(binding, back, after) && StuckReport(back, after.worker) == Pass
            && Mirrors(c, binding, kept[..|kept| - 1], after.db)
  {
    hide Replay, Mirrors, RunOnce, Bounded, SafeDb, ChainOk, FirstInit;
    LostRollback(c, binding, chain, node, plan, kept, kept, w);
    AtFacts(c, binding, kept, w);
    var init := kept[..|kept| - 1];
    MirrorsSafe(c, binding, init, RunOnce(c, node, plan, w).world.db);
    ShorterIsOther(c, binding, kept);
  }

  lemma ShorterIsOther(c: Crypto, binding: Binding, kept: seq<BlockView>)
    requires GoodBranch(c, binding, kept) && |kept| > 0 && GoodBranch(c, binding, kept[..|kept| - 1])
    ensures Replay(c, binding, kept) != Replay(c, binding, kept[..|kept| - 1])
  {
    hide Replay;
    TipFields(c, binding, kept);
    TipFields(c, binding, kept[..|kept| - 1]);
    BranchTips(c, binding, kept);
  }

  /** An unacknowledged commit of the INIT block with a failed reload leaves a fresh worker over a store that has it. If
      the node then loses INIT, every pass reports success while the store keeps the abandoned block. */
  lemma LostInitHides(
    c: Crypto, binding: Binding, chain: seq<BlockView>, node: Node, plan: Plan, w: World, other: seq<BlockView>)
    requires ChainOk(binding, chain) && Serves(node, binding, chain) && Deliverable(node)
    requires At(c, binding, [], w) && Safe(w) && FirstInit(binding, chain).Some?
    requires plan.commit(FirstInit(binding, chain).value) == Unacknowledged && !plan.reloads
    requires FirstInit(binding, other).None?
    ensures var after := RunOnce(c, node, plan, w).world;
            && Stuck(binding, other, after) && StuckReport(other, after.worker) == Pass
            && Mirrors(c, binding, [chain[FirstInit(binding, chain).value]], after.db)
  {
    hide Replay, Mirrors, Commit, ApplyBlock, At, Bounded, SafeDb, GoodBranch, ChainOk, FirstInit, OnBranch;
    AtFacts(c, binding, [], w);
    TipFields(c, binding, []);
    FreshApplies(c, binding, chain);
    FitsAt(binding, chain, FirstInit(binding, chain).value);
    var block := chain[FirstInit(binding, chain).value];
    CommitExact(c, binding, [], w.db, w.worker, block);
    NothingOnBranch(block.hash);
    AppliedTip(c, w.worker, block);
    assert [] + [block] == [block];
    MirrorsSafe(c, binding, [block], RunOnce(c, node, plan, w).world.db);
    TipFields(c, binding, [block]);
  }

  lemma FitsAt(binding: Binding, chain: seq<BlockView>, i: nat)
    requires ChainOk(binding, chain) && i < |chain|
    ensures BlockFits(chain[i]) && chain[i].height == i && i <= I64_MAX
  {
  }

  lemma NothingOnBranch(hash: Hash32)
    ensures !OnBranch([], hash)
  {
  }
}
