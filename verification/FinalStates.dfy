/** What the chained root says about the whole final state, the lifecycle included. */
module FinalStates {
  import opened Primitives
  import opened Types
  import opened Marker
  import opened Validators
  import opened Roots
  import opened Reducer
  import opened EventLog
  import opened LocalInvariant
  import opened Heights
  import opened Commitments
  import opened ChainBinding
  import opened PathIndependence

  /** The same stage of the lifecycle, up to the two phase heights of a running protocol. */
  ghost predicate SameLifecycle(s: ProtocolStatus, t: ProtocolStatus) {
    match s
    case AwaitingInit => t == s
    case FailedInit(_, _) => t == s
    case Running(initHeight, _, _) => t.Running? && t.initHeight == initHeight
  }

  /** Equal but for the phase heights, and equal outright exactly when the opening heights are. */
  ghost predicate SameButPhase(s: ChainState, t: ChainState) {
    && t == s.(protocolStatus := t.protocolStatus)
    && SameLifecycle(s.protocolStatus, t.protocolStatus)
    && (s == t <==> (s.protocolStatus.Running? ==> s.protocolStatus.hOpen == t.protocolStatus.hOpen))
  }

  /** The outputs of the configured INIT in a block. */
  function InitOutputs(binding: Binding, block: BlockView): seq<OutputView> {
    var found := FindInit(block.transactions, binding.initTxid);
    if found.Some? then block.transactions[found.value].outputs else []
  }

  // ---------- the INIT block ----------

  /** Some event of the list is a valid operation. */
  ghost predicate HasValid(events: seq<Event>) {
    exists i :: 0 <= i < |events| && events[i].validityClass == ValidOperation
  }

  /** A block that processes the configured INIT logs it as a valid operation. */
  lemma {:induction false} PrefixLogsInit(c: Crypto, st: ChainState, block: BlockView, found: nat, count: nat)
    requires Bounded(st) && BlockFits(block) && found < count <= |block.transactions| <= U32_MAX
    requires block.transactions[found].txid == st.binding.initTxid
    ensures HasValid(ProcessPrefix(c, st, block, true, count).events)
    decreases count
  {
    hide ProcessTransaction;
    var events := ProcessPrefix(c, st, block, true, count).events;
    var before := ProcessPrefix(c, st, block, true, count - 1);
    if found == count - 1 {
      assert events[|events| - 1].validityClass == ValidOperation;
    } else {
      PrefixLogsInit(c, st, block, found, count - 1);
      var i :| 0 <= i < |before.events| && before.events[i].validityClass == ValidOperation;
      assert events[i] == before.events[i];
    }
  }

  /** The phase heights of an accepted INIT are read from its outputs. */
  lemma PhaseFromOutputs(c: Crypto, binding: Binding, height: u64, other: u64, tx: TxView, ty: TxView)
    requires tx.txid == ty.txid && tx.outputs == ty.outputs
    requires ValidateConfiguredInit(c, binding, height, tx).Ok? && ValidateConfiguredInit(c, binding, other, ty).Ok?
    ensures ValidateConfiguredInit(c, binding, height, tx) == ValidateConfiguredInit(c, binding, other, ty)
  {
    assert Candidates(tx, binding) == Candidates(ty, binding);
  }

  /** What the first block of a run shows of its lifecycle: a failed INIT is its only event and carries the reason, an
      accepted one is logged as valid and takes its phase from the INIT outputs. */
  ghost predicate Started(c: Crypto, binding: Binding, block: BlockView, a: Applied) {
    match a.state.protocolStatus
    case AwaitingInit => false
    case FailedInit(reason, initHeight) =>
      initHeight == block.height && |a.delta.events| == 1 && !HasValid(a.delta.events) &&
      a.delta.events[0].reason == reason
    case Running(initHeight, hOpen, hClose) =>
      && initHeight == block.height && HasValid(a.delta.events)
      && var found := FindInit(block.transactions, binding.initTxid);
         && found.Some?
         && ValidateConfiguredInit(c, binding, block.height, block.transactions[found.value]) ==
            Ok(InitParams(hOpen, hClose))
  }

  lemma FirstBlockStarts(c: Crypto, st: ChainState, block: BlockView)
    requires Bounded(st) && BlockFits(block) && ApplyBlock(c, st, block).Ok? && st.protocolStatus.AwaitingInit?
    ensures Started(c, st.binding, block, ApplyBlock(c, st, block).value)
  {
    hide ValidateConfiguredInit, ProcessPrefix, EventRoot, ObjectStateRoot, ObjectsInOrder, BlockRoot, CountersOf;
    var found := FindInit(block.transactions, st.binding.initTxid).value;
    var init := ValidateConfiguredInit(c, st.binding, block.height, block.transactions[found]);
    if init.Ok? {
      var running := st.(protocolStatus := Running(block.height, init.value.hOpen, init.value.hClose));
      PrefixLogsInit(c, running, block, found, |block.transactions|);
    }
  }

  lemma SameStart(c: Crypto, binding: Binding, x: BlockView, y: BlockView, a: Applied, b: Applied)
    requires Started(c, binding, x, a) && Started(c, binding, y, b) && SameBlock(a, b) && x.height == y.height
    ensures SameLifecycle(a.state.protocolStatus, b.state.protocolStatus)
    ensures InitOutputs(binding, x) == InitOutputs(binding, y) ==> a.state.protocolStatus == b.state.protocolStatus
  {
    hide ValidateConfiguredInit, HasValid;
    if a.state.protocolStatus.Running? && InitOutputs(binding, x) == InitOutputs(binding, y) {
      var tx := x.transactions[FindInit(x.transactions, binding.initTxid).value];
      var ty := y.transactions[FindInit(y.transactions, binding.initTxid).value];
      PhaseFromOutputs(c, binding, x.height, y.height, tx, ty);
    }
  }

  // ---------- whole runs ----------

  /** The lifecycle is fixed by the first block. */
  lemma {:induction false} LifecycleIsFixed(c: Crypto, p: Binding, xs: seq<BlockView>)
    requires Fitted(xs) && Replay(c, p, xs).Some? && |xs| > 0
    ensures Replay(c, p, xs[..1]).Some?
    ensures Replay(c, p, xs).value.protocolStatus == Replay(c, p, xs[..1]).value.protocolStatus
    decreases |xs|
  {
    hide ApplyBlock;
    if |xs| == 1 {
      assert xs[..1] == xs;
    } else {
      var init := xs[..|xs| - 1];
      assert init[..1] == xs[..1];
      LifecycleIsFixed(c, p, init);
      AwaitingIffEmpty(c, p, init);
      BlockInterpreted(c, Replay(c, p, init).value, xs[|xs| - 1]);
    }
  }

  lemma {:induction false} SameFirstBlock(c: Crypto, p: Binding, xs: seq<BlockView>, q: Binding, ys: seq<BlockView>)
    requires Fitted(xs) && Fitted(ys) && Replay(c, p, xs).Some? && Replay(c, q, ys).Some?
    requires SameHistory(c, p, xs, q, ys) && |xs| > 0
    ensures Replay(c, p, xs[..1]).Some? && Replay(c, q, ys[..1]).Some? && SameHistory(c, p, xs[..1], q, ys[..1])
    decreases |xs|
  {
    hide ApplyBlock, SameBlock;
    if |xs| == 1 {
      assert xs[..1] == xs && ys[..1] == ys;
    } else {
      var xi, yi := xs[..|xs| - 1], ys[..|ys| - 1];
      assert xi[..1] == xs[..1] && yi[..1] == ys[..1];
      SameFirstBlock(c, p, xi, q, yi);
    }
  }

  lemma SameHistoryLifecycle(c: Crypto, p: Binding, xs: seq<BlockView>, q: Binding, ys: seq<BlockView>)
    requires Fitted(xs) && Fitted(ys) && Replay(c, p, xs).Some? && Replay(c, q, ys).Some?
    requires SameHistory(c, p, xs, q, ys) && |xs| > 0
    ensures SameLifecycle(Replay(c, p, xs).value.protocolStatus, Replay(c, q, ys).value.protocolStatus)
    ensures InitOutputs(p, xs[0]) == InitOutputs(q, ys[0]) ==>
              Replay(c, p, xs).value.protocolStatus == Replay(c, q, ys).value.protocolStatus
  {
    hide ApplyBlock, SameLifecycle, Started;
    LifecycleIsFixed(c, p, xs);
    LifecycleIsFixed(c, q, ys);
    SameFirstBlock(c, p, xs, q, ys);
    assert xs[..1][..0] == [] && ys[..1][..0] == [];
    var empty := NewState(c, p);
    assert Replay(c, p, []) == Some(empty);
    var a, b := ApplyBlock(c, empty, xs[0]).value, ApplyBlock(c, empty, ys[0]).value;
    FirstBlockStarts(c, empty, xs[0]);
    FirstBlockStarts(c, empty, ys[0]);
    AppliedTip(c, empty, xs[0]);
    AppliedTip(c, empty, ys[0]);
    SameStart(c, p, xs[0], ys[0], a, b);
  }

  lemma SameTip(c: Crypto, p: Binding, xs: seq<BlockView>, q: Binding, ys: seq<BlockView>)
    requires Fitted(xs) && Fitted(ys) && Replay(c, p, xs).Some? && Replay(c, q, ys).Some?
    requires SameHistory(c, p, xs, q, ys) && |xs| > 0
    ensures var s, t := Replay(c, p, xs).value, Replay(c, q, ys).value;
            s.tipHeight == t.tipHeight && s.tipHash == t.tipHash && s.chainedRoot == t.chainedRoot
  {
    hide ApplyBlock;
    var xi, yi := xs[..|xs| - 1], ys[..|ys| - 1];
    AppliedTip(c, Replay(c, p, xi).value, xs[|xs| - 1]);
    AppliedTip(c, Replay(c, q, yi).value, ys[|ys| - 1]);
  }

  lemma WindowFollowsOpening(c: Crypto, p: Binding, xs: seq<BlockView>)
    requires Fitted(xs) && Replay(c, p, xs).Some?
    ensures var s := Replay(c, p, xs).value;
            s.binding == p && (s.protocolStatus.Running? ==>
                               s.protocolStatus.hClose == s.protocolStatus.hOpen + FOUNDING_WINDOW)
  {
    hide Replay;
    RunKeepsLocal(c, p, xs);
  }

  /** Equal chained roots, under any bindings, make the two final states equal in every field but the phase heights,
      which no commitment carries: the states are equal exactly when the opening heights are, and always once the INIT
      transactions have the same outputs. */
  lemma ChainedRootBindsState(
    c: Crypto, p: Binding, xs: seq<BlockView>, q: Binding, ys: seq<BlockView>, all: set<Bytes>)
    requires Fitted(xs) && Fitted(ys) && Replay(c, p, xs).Some? && Replay(c, q, ys).Some?
    requires Replay(c, p, xs).value.chainedRoot == Replay(c, q, ys).value.chainedRoot
    requires RunHashed(c, p, xs) <= all && RunHashed(c, q, ys) <= all && NoCollision(c, all)
    ensures var s, t := Replay(c, p, xs).value, Replay(c, q, ys).value;
            SameButPhase(s, t) && |xs| == |ys| &&
            (|xs| > 0 && InitOutputs(p, xs[0]) == InitOutputs(q, ys[0]) ==> s == t)
  {
    hide Replay, RunHashed, NoCollision, BlockFits, InitOutputs;
    ChainedRootBinding(c, p, xs, q, ys, all);
    SameHistorySameMaps(c, p, xs, q, ys);
    WindowFollowsOpening(c, p, xs);
    WindowFollowsOpening(c, q, ys);
    BranchTips(c, p, xs);
    BranchTips(c, q, ys);
    if |xs| > 0 {
      SameHistoryLifecycle(c, p, xs, q, ys);
      SameTip(c, p, xs, q, ys);
    }
  }
}
