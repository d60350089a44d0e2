/** The ingestion coordinator as an object that overwrites its state step by step. */
module Ingestion {
  import opened Primitives
  import opened Types
  import opened Validators
  import opened Reducer
  import opened Tables
  import opened LiveState
  import opened Database
  import opened Worker

  class Coordinator {
    const state: LiveChain
    const store: Store

    constructor (state: LiveChain, store: Store)
      ensures this.state == state && this.store == store
    {
      this.state, this.store := state, store;
    }

    function Value(): World
      reads state, store
    {
      World(state.Value(), store.Value())
    }

    /** The rollback loop. It terminates because every rollback that continues it removes a journal row. */
    method ReconcileReorg(node: Node, plan: Plan, best: u64) returns (r: Guard<PassError>)
      requires Safe(Value())
      modifies state, store
      ensures Safe(Value()) && Outcome(Value(), r) == Reconcile(node, plan, best, old(Value()), 0)
    {
      var n := 0;
      while true
        invariant Safe(Value())
        invariant Reconcile(node, plan, best, Value(), n) == Reconcile(node, plan, best, old(Value()), 0)
        decreases |store.blocks|
      {
        if state.tipHeight.None? { return Pass; }
        var tip := state.tipHeight.value;
        var matches := false;
        if tip <= best {
          if node.hashAt(tip).None? { return Fail(SourceFailed); }
          if state.tipHash.None? { return Fail(TipHashMissing); }
          matches := node.hashAt(tip).value == state.tipHash.value;
        }
        if matches { return Pass; }
        if state.tipHash.None? { return Fail(TipHashMissing); }
        RollbackShrinks(store.Value());
        var undone := store.RollbackTip(plan.rollback(n));
        if undone.Err? { return Fail(StoreFailed(undone.error)); }
        if undone.value.None? { return Fail(NoRollbackJournal); }
        state.Assign(undone.value.value);
        if state.protocolStatus.AwaitingInit? { return Pass; }
        n := n + 1;
      }
    }

    /** One reorganization and catch-up pass. */
    method RunOnce(c: Crypto, node: Node, plan: Plan) returns (r: Guard<PassError>)
      requires Safe(Value()) && Deliverable(node)
      modifies state, store
      ensures Safe(Value()) && Outcome(Value(), r) == Worker.RunOnce(c, node, plan, old(Value()))
    {
      if node.ready.None? { return Fail(SourceFailed); }
      if !node.ready.value { return Fail(NotReady); }
      if node.best.None? { return Fail(SourceFailed); }
      var best := node.best.value;
      var reconciled := ReconcileReorg(node, plan, best);
      if reconciled.Fail? { return reconciled; }
      var first: u64;
      if state.tipHeight.Some? {
        var next := CheckedAdd(state.tipHeight.value, 1);
        if next.None? { return Fail(HeightOverflow); }
        first := next.value;
      } else {
        if node.initHeight.None? { return Fail(SourceFailed); }
        if node.initHeight.value.None? { return Pass; }
        first := node.initHeight.value.value;
      }
      r := CatchUp(c, node, plan, best, first);
    }

    /** The height loop. A failed commit replaces the state by the reloaded row, or by the state before the block. */
    method CatchUp(c: Crypto, node: Node, plan: Plan, best: u64, first: u64) returns (r: Guard<PassError>)
      requires Safe(Value()) && Deliverable(node)
      modifies state, store
      ensures Safe(Value()) && Outcome(Value(), r) == Worker.CatchUp(c, node, plan, best, old(Value()), first)
    {
      hide Reducer.ApplyBlock, Commit;
      var height: nat := first;
      while height <= best
        invariant Safe(Value())
        invariant Worker.CatchUp(c, node, plan, best, Value(), height) ==
          Worker.CatchUp(c, node, plan, best, old(Value()), first)
        decreases best + 1 - height
      {
        ghost var before := Value();
        var block := node.blockAt(height);
        if block.None? { return Fail(SourceFailed); }
        var reduced := state.ApplyBlock(c, block.value);
        if reduced.Err? { return Fail(ReductionFailed(reduced.error)); }
        var delta := reduced.value;
        CommitIsSafe(store.Value(), state.Value(), delta);
        var committed := store.ApplyBlock(state.Value(), delta, plan.commit(height));
        if committed.Fail? {
          var loaded := store.LoadState();
          state.Assign(if plan.reloads && loaded.Ok? then loaded.value else delta.before);
          return Fail(StoreFailed(committed.error));
        }
        height := height + 1;
      }
      r := Pass;
    }
  }
}
