/** The states inside a block of a faithful run, where transactions are classified: the index is sound there, the
    predecessor rejections never end an object, and every transaction is safe, those of the INIT block included. */
module InsideBlocks {
  import opened Primitives
  import opened Types
  import opened Marker
  import opened Validators
  import opened Sorting
  import opened Reducer
  import opened EventLog
  import opened LocalInvariant
  import opened Ledger
  import opened Transitions
  import opened Lineage
  import opened FaithfulRuns
  import opened Conservation
  import opened RunTheorems

  /** The state before transaction `t` of a block that leaves the protocol in lifecycle `status`. */
  function StateInside(c: Crypto, before: ChainState, status: ProtocolStatus, block: BlockView, t: nat): (r: ChainState)
    requires Bounded(before) && BlockFits(block) && t <= |block.transactions| <= U32_MAX
    ensures Bounded(r)
  {
    ProcessPrefix(c, before.(protocolStatus := status), block, before.protocolStatus.AwaitingInit?, t).state
  }

  /** The configured INIT only emits its event. */
  predicate IsInit(before: ChainState, tx: TxView) {
    before.protocolStatus.AwaitingInit? && tx.txid == before.binding.initTxid
  }

  lemma LastBlockFits(c: Crypto, binding: Binding, blocks: seq<BlockView>)
    requires GoodRun(c, binding, blocks) && |blocks| > 0
    ensures var init, block := blocks[..|blocks| - 1], blocks[|blocks| - 1];
            && BlockFits(block) && |block.transactions| <= U32_MAX && block.height <= I64_MAX
            && FaithfulBlock(RunUtxo(init), block) && RunUtxo(blocks) == UtxoAfterBlock(RunUtxo(init), block)
            && GoodRun(c, binding, init) && ReduceBlock(c, Replay(c, binding, init).value, block).Ok?
            && var after, sealed := ReduceBlock(c, Replay(c, binding, init).value, block).value.state,
               Replay(c, binding, blocks).value;
               after.protocolStatus == sealed.protocolStatus && after.objects == sealed.objects &&
               after.active == sealed.active
  {
    hide ReduceBlock, FaithfulBlock;
    GoodPrefix(c, binding, blocks);
  }

  /** A block that leaves the protocol running ran its loop from the state before, with that lifecycle. */
  lemma LoopRan(c: Crypto, st: ChainState, l: Utxo, before: u64, log: seq<Event>, block: BlockView)
    requires RunInv(c, st, l, log, before) && Bounded(st) && BlockFits(block) && |block.transactions| <= U32_MAX
    requires ReduceBlock(c, st, block).Ok? && ReduceBlock(c, st, block).value.state.protocolStatus.Running?
    requires st.protocolStatus.AwaitingInit? ==> log == []
    ensures var status := ReduceBlock(c, st, block).value.state.protocolStatus;
            && RunInv(c, st.(protocolStatus := status), l, log, before)
            && (st.protocolStatus.AwaitingInit? ==> block.height < status.hOpen)
            && ReduceBlock(c, st, block).value.state == StateInside(c, st, status, block, |block.transactions|)
  {
    hide ProcessPrefix, ValidateConfiguredInit, RunInv;
    if st.protocolStatus.AwaitingInit? {
      var found, init := AwaitedReduce(c, st, block);
      AwaitedIsEmpty(c, st, l, log, before);
      if init.Ok? {
        StatusSet(c, st, l, before, Running(block.height, init.value.hOpen, init.value.hClose));
      }
    } else {
      assert st.(protocolStatus := st.protocolStatus) == st;
    }
  }

  lemma AwaitedIsEmpty(c: Crypto, st: ChainState, l: Utxo, log: seq<Event>, before: u64)
    requires RunInv(c, st, l, log, before) && st.protocolStatus.AwaitingInit?
    ensures st.objects == map[] && st.active == map[]
  {
    NotRunningIsEmpty(c, st);
  }

  /** The run invariant holds before every transaction of every block that leaves the protocol running, and the last of
      these states holds the maps the block commits to. */
  lemma InvariantInside(c: Crypto, binding: Binding, blocks: seq<BlockView>, t: nat)
    returns (l: Utxo, log: seq<Event>, mid: ChainState)
    requires GoodRun(c, binding, blocks) && |blocks| > 0 && t <= |blocks[|blocks| - 1].transactions|
    requires Replay(c, binding, blocks).value.protocolStatus.Running?
    ensures var init, block := blocks[..|blocks| - 1], blocks[|blocks| - 1];
            && GoodRun(c, binding, init) && BlockFits(block) && |block.transactions| <= U32_MAX &&
               block.height <= I64_MAX
            && var before, status := Replay(c, binding, init).value, Replay(c, binding, blocks).value.protocolStatus;
               && before.binding == binding
               && mid == StateInside(c, before, status, block, t) && mid.binding == binding &&
                  mid.protocolStatus == status
               && RunInv(c, mid, l, log, block.height)
               && (before.protocolStatus.AwaitingInit? ==> block.height < status.hOpen)
               && (t < |block.transactions| ==>
                     FaithfulTx(l, block.transactions[t]) && Fits(block.transactions[t]) &&
                     NoKeyClash(c, binding.Namespace(c), l.txids + {block.transactions[t].txid}))
               && var end := StateInside(c, before, status, block, |block.transactions|);
                  end.objects == Replay(c, binding, blocks).value.objects &&
                  end.active == Replay(c, binding, blocks).value.active
  {
    hide Replay, ReduceBlock, ProcessPrefix, UtxoAfter, RunInv, FaithfulTx, NoKeyClash;
    var init, block := blocks[..|blocks| - 1], blocks[|blocks| - 1];
    LastBlockFits(c, binding, blocks);
    RunHoldsInvariant(c, binding, init);
    LinkedHeights(c, binding, blocks);
    AwaitingIffEmpty(c, binding, init);
    BranchBinding(c, binding, init);
    var before, l0, n := Replay(c, binding, init).value, RunUtxo(init), binding.Namespace(c);
    var status := Replay(c, binding, blocks).value.protocolStatus;
    LoopRan(c, before, l0, TipOf(init), Log(c, binding, init), block);
    var start, txids := before.(protocolStatus := status), UtxoAfterBlock(l0, block).txids;
    var awaited := before.protocolStatus.AwaitingInit?;
    var r: Step;
    l, r := PrefixKeepsRun(c, n, txids, start, l0, TipOf(init), Log(c, binding, init), block, awaited, t);
    log, mid := Log(c, binding, init) + r.events, r.state;
    if t < |block.transactions| { TxReady(c, n, txids, l0, block, t + 1, l); }
  }

  lemma BranchBinding(c: Crypto, binding: Binding, blocks: seq<BlockView>)
    requires GoodRun(c, binding, blocks)
    ensures Replay(c, binding, blocks).value.binding == binding
  {
    hide Replay;
    RunKeepsLocal(c, binding, blocks);
  }

  // ---------- the index ----------

  /** A validator that is handed a carrier sitting at its object's current outpoint never reports an inactive
      predecessor. */
  lemma PredecessorIsActive(
    c: Crypto, st: ChainState, height: u64, tx: TxView, candidate: MarkerCandidate, spend: Spend)
    requires candidate.WellDetected() && spend.index < |tx.inputs|
    requires tx.inputs[spend.index].prevout == spend.obj.currentOutpoint
    ensures ValidateMarked(c, st, height, tx, candidate, Some(spend)) != Err(PredecessorNotActive)
  {
    hide AllReplaceable, AllSigned, AllConfirmed, HasOtherOpReturn, P2wpkhScript, CheckedPair, ValidateCreate,
         ValidateMark, ValidateRotate, ValidateClose;
    var parsed := candidate.Parse();
    if parsed.Ok? {
      match parsed.value.opcode
      case Some(CreateOp) => CreatePredecessor(c, st.protocolStatus, height, tx, parsed.value);
      case Some(MarkOp) => MarkPredecessor(c, height, tx, parsed.value, spend);
      case Some(RotateOp) => RotatePredecessor(c, height, tx, parsed.value, spend);
      case Some(CloseOp) => ClosePredecessor(c, height, tx, parsed.value, spend);
      case _ =>
    }
  }

  lemma CreatePredecessor(c: Crypto, status: ProtocolStatus, height: u64, tx: TxView, marker: ParsedMarker)
    requires marker.WellParsed() && marker.opcode == Some(CreateOp)
    ensures ValidateCreate(c, status, height, tx, marker) != Err(PredecessorNotActive)
  {
  }

  lemma MarkPredecessor(c: Crypto, height: u64, tx: TxView, marker: ParsedMarker, spend: Spend)
    requires marker.WellParsed() && marker.opcode == Some(MarkOp) && spend.index < |tx.inputs|
    requires tx.inputs[spend.index].prevout == spend.obj.currentOutpoint
    ensures ValidateMark(c, height, tx, marker, Some(spend)) != Err(PredecessorNotActive)
  {
  }

  lemma RotatePredecessor(c: Crypto, height: u64, tx: TxView, marker: ParsedMarker, spend: Spend)
    requires marker.WellParsed() && marker.opcode == Some(RotateOp) && spend.index < |tx.inputs|
    requires tx.inputs[spend.index].prevout == spend.obj.currentOutpoint
    ensures ValidateRotate(c, height, tx, marker, Some(spend)) != Err(PredecessorNotActive)
  {
  }

  lemma ClosePredecessor(c: Crypto, height: u64, tx: TxView, marker: ParsedMarker, spend: Spend)
    requires marker.WellParsed() && marker.opcode == Some(CloseOp) && spend.index < |tx.inputs|
    requires tx.inputs[spend.index].prevout == spend.obj.currentOutpoint
    ensures ValidateClose(c, height, tx, marker, Some(spend)) != Err(PredecessorNotActive)
  {
  }

  /** Every spend the index reports is a spend of its object's current outpoint. */
  ghost predicate SpendsCurrent(st: ChainState, tx: TxView) {
    forall s :: s in CarrierSpends(st, tx.inputs) ==>
      s.index < |tx.inputs| && tx.inputs[s.index].prevout == s.obj.currentOutpoint
  }

  lemma ExitIsNotPredecessor(c: Crypto, st: ChainState, height: u64, tx: TxView)
    requires SpendsCurrent(st, tx)
    ensures var v := Classify(c, st, height, tx); v.Exit? ==> v.reason != PredecessorNotActive
  {
    hide ValidateMarked, RefundAccepted, CarrierSpends;
    var candidates, carriers := Candidates(tx, st.binding), CarrierSpends(st, tx.inputs);
    if |candidates| == 1 && |carriers| == 1 {
      assert carriers[0] in carriers;
      PredecessorIsActive(c, st, height, tx, candidates[0], carriers[0]);
    }
  }

  /** An event that reports an inactive predecessor comes from a transaction that spends no carrier. */
  lemma PredecessorEvents(c: Crypto, st: ChainState, block: BlockView, tx: TxView, txIndex: u32)
    requires Bounded(st) && Fits(tx) && SpendsCurrent(st, tx)
    ensures forall e ::
              e in ProcessTransaction(c, st, block, tx, txIndex).events && e.reason == PredecessorNotActive ==>
                CarrierSpends(st, tx.inputs) == [] && e.validityClass == InvalidNoState
  {
    hide Classify, RefundAccepted, CarrierSpends, SortBy, ExitAll, SpendsCurrent, Justified;
    var v := Classify(c, st, block.height, tx);
    ClassifyFacts(c, st, block.height, tx);
    AcceptedIsApplicable(c, st, block.height, tx, v);
    ExitIsNotPredecessor(c, st, block.height, tx);
    if v.Exit? {
      ExitAllNumbered(st, block, tx, txIndex, v.eventIndex, v.reason, v.namespace,
                      SortBy(SpendLess, CarrierSpends(st, tx.inputs)));
    }
  }

  /** Before every transaction of every block of a faithful run, the INIT block included: the index is sound, whatever
      it reports is spent at its current outpoint, and so the "not the current outpoint" rejections are unreachable: an
      inactive predecessor is reported only when no carrier is spent. */
  lemma IndexInsideBlocks(c: Crypto, binding: Binding, blocks: seq<BlockView>, t: nat)
    requires GoodRun(c, binding, blocks) && |blocks| > 0 && t < |blocks[|blocks| - 1].transactions|
    requires Replay(c, binding, blocks).value.protocolStatus.Running?
    ensures GoodRun(c, binding, blocks[..|blocks| - 1]) && |blocks[|blocks| - 1].transactions| <= U32_MAX
    ensures var before, block := Replay(c, binding, blocks[..|blocks| - 1]).value, blocks[|blocks| - 1];
            var mid := StateInside(c, before, Replay(c, binding, blocks).value.protocolStatus, block, t);
            var tx := block.transactions[t];
            && IndexSound(mid) && SpendsCurrent(mid, tx)
            && forall e :: e in ProcessTransaction(c, mid, block, tx, t).events && e.reason == PredecessorNotActive ==>
                 CarrierSpends(mid, tx.inputs) == [] && e.validityClass == InvalidNoState
  {
    hide Replay, RunInv, ProcessTransaction, StateInside, CarrierSpends, FaithfulTx, NoKeyClash, FaithfulRun;
    var block := blocks[|blocks| - 1];
    var l, log, mid := InvariantInside(c, binding, blocks, t);
    RunInvIndex(c, mid, l, log, block.height);
    PredecessorEvents(c, mid, block, block.transactions[t], t);
  }

  // ---------- every transaction ----------

  lemma InitIsQuiet(c: Crypto, st: ChainState, l: Utxo, log: seq<Event>, height: u64, tx: TxView)
    requires RunInv(c, st, l, log, height) && st.protocolStatus.Running? && height < st.protocolStatus.hOpen
    ensures SafeStep(c, st, st, tx, height, None) && st.active == map[]
  {
    InitBlockIsEmpty(c, st, l, log, height);
    assert forall o :: o !in st.active;
    QuietTransition(c, st, tx, height);
  }

  /** In a faithful run, every transaction of every block: each active object whose outpoint it spends is advanced once
      to its output 1 or ended with its txid, every other object is unchanged, none of its inputs stays indexed, and
      whatever it is accepted as pays a positive fee out of exactly its inputs. */
  lemma EveryTransactionIsSafe(c: Crypto, binding: Binding, blocks: seq<BlockView>, t: nat)
    requires GoodRun(c, binding, blocks) && |blocks| > 0 && t < |blocks[|blocks| - 1].transactions|
    requires Replay(c, binding, blocks).value.protocolStatus.Running?
    ensures GoodRun(c, binding, blocks[..|blocks| - 1]) && |blocks[|blocks| - 1].transactions| <= U32_MAX
    ensures var before, block := Replay(c, binding, blocks[..|blocks| - 1]).value, blocks[|blocks| - 1];
            var status, tx := Replay(c, binding, blocks).value.protocolStatus, block.transactions[t];
            var mid, next := StateInside(c, before, status, block, t), StateInside(c, before, status, block, t + 1);
            var v := Classify(c, mid, block.height, tx);
            && SafeStep(c, mid, next, tx, block.height, if IsInit(before, tx) then None else MoverOf(c, mid, tx, v))
            && (forall o :: SpentBy(tx, o) ==> o !in next.active)
            && (!IsInit(before, tx) && v.Accept? ==> Balanced(tx, v.op))
            && (!IsInit(before, tx) && v.Refund? ==> Fee(tx) > 0)
  {
    hide Replay, ProcessPrefix, Classify, SafeStep, Balanced, LocalInv, LedgerInv, Linear, HeightsMatch, FaithfulTx,
         NoKeyClash, MoverOf, InterpretAll, FaithfulRun;
    var block := blocks[|blocks| - 1];
    var tx := block.transactions[t];
    var l, log, mid := InvariantInside(c, binding, blocks, t);
    var before, status := Replay(c, binding, blocks[..|blocks| - 1]).value,
      Replay(c, binding, blocks).value.protocolStatus;
    PrefixSnoc(c, before.(protocolStatus := status), block, before.protocolStatus.AwaitingInit?, t + 1);
    if IsInit(before, tx) {
      InitIsQuiet(c, mid, l, log, block.height, tx);
    } else {
      NoSpentCarrierStaysActive(c, mid, l, block.height, block, tx, t);
      ValueIsConserved(c, mid, l, block.height, block.height, tx);
    }
  }
}
