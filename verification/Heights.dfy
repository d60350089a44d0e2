/** Heights over every run: events carry their block's height, objects are never younger than the tip, and tips are
    consecutive. These are what keep the store's bigint conversions and keys from failing. */
module Heights {
  import opened Primitives
  import opened Types
  import opened Validators
  import opened Sorting
  import opened Roots
  import opened Reducer
  import opened LocalInvariant
  import opened EventLog

  ghost predicate BornBy(objects: map<Hash32, ObjectState>, height: nat) {
    forall k :: k in objects ==> objects[k].createHeight <= height
  }

  ghost predicate Stamped(events: seq<Event>, height: u64) {
    forall i :: 0 <= i < |events| ==> events[i].height == height
  }

  lemma {:induction false} ExitAllStamped(
    st: ChainState, block: BlockView, tx: TxView, txIndex: u32, eventIndex: u32, reason: Reason, namespace: Hash32,
    carriers: seq<Spend>)
    requires |carriers| <= U32_MAX && BornBy(st.objects, block.height)
    ensures var r := ExitAll(st, block, tx, txIndex, eventIndex, reason, namespace, carriers);
            Stamped(r.events, block.height) && BornBy(r.state.objects, block.height)
    decreases |carriers|
  {
    if |carriers| > 0 {
      ExitAllStamped(st, block, tx, txIndex, eventIndex, reason, namespace, carriers[..|carriers| - 1]);
    }
  }

  lemma OperationStamped(
    c: Crypto, st: ChainState, block: BlockView, tx: TxView, txIndex: u32, eventIndex: u32, op: Operation)
    requires Applicable(st, op) && BornBy(st.objects, block.height)
    requires !op.Create? ==> op.obj.createHeight <= block.height
    ensures var r := ApplyOperation(c, st, block, tx, txIndex, eventIndex, op);
            Stamped(r.events, block.height) && BornBy(r.state.objects, block.height)
  {
  }

  lemma ProcessStamped(c: Crypto, st: ChainState, block: BlockView, tx: TxView, txIndex: u32)
    requires Bounded(st) && Fits(tx) && BornBy(st.objects, block.height)
    ensures var r := ProcessTransaction(c, st, block, tx, txIndex);
            Stamped(r.events, block.height) && BornBy(r.state.objects, block.height)
  {
    hide Classify, ApplyOperation, RefundAccepted, SortBy;
    var v := Classify(c, st, block.height, tx);
    ClassifyFacts(c, st, block.height, tx);
    AcceptedIsApplicable(c, st, block.height, tx, v);
    var carriers := CarrierSpends(st, tx.inputs);
    if |carriers| > 0 { assert carriers[0] in carriers; }
    match v
    case Exit(eventIndex, reason, namespace) =>
      ExitAllStamped(st, block, tx, txIndex, eventIndex, reason, namespace, SortBy(SpendLess, carriers));
    case Accept(eventIndex, op) => OperationStamped(c, st, block, tx, txIndex, eventIndex, op);
    case _ =>
  }

  lemma {:induction false} PrefixStamped(c: Crypto, st: ChainState, block: BlockView, initBlock: bool, count: nat)
    requires Bounded(st) && BlockFits(block) && count <= |block.transactions| <= U32_MAX
    requires BornBy(st.objects, block.height)
    ensures var r := ProcessPrefix(c, st, block, initBlock, count);
            Stamped(r.events, block.height) && BornBy(r.state.objects, block.height)
    decreases count
  {
    hide ProcessTransaction;
    if count > 0 {
      PrefixStamped(c, st, block, initBlock, count - 1);
      var before := ProcessPrefix(c, st, block, initBlock, count - 1);
      var tx := block.transactions[count - 1];
      if !(initBlock && tx.txid == st.binding.initTxid) {
        ProcessStamped(c, before.state, block, tx, count - 1);
      }
    }
  }

  lemma BlockStamped(c: Crypto, st: ChainState, block: BlockView)
    requires Bounded(st) && BlockFits(block) && BornBy(st.objects, block.height) && ApplyBlock(c, st, block).Ok?
    ensures var r := ApplyBlock(c, st, block).value;
            Stamped(r.delta.events, block.height) && BornBy(r.state.objects, block.height)
  {
    hide ValidateConfiguredInit, ProcessPrefix, EventRoot, ObjectStateRoot, ObjectsInOrder, BlockRoot, CountersOf;
    match st.protocolStatus {
      case AwaitingInit =>
        var found := FindInit(block.transactions, st.binding.initTxid).value;
        var init := ValidateConfiguredInit(c, st.binding, block.height, block.transactions[found]);
        if init.Ok? {
          var running := st.(protocolStatus := Running(block.height, init.value.hOpen, init.value.hClose));
          PrefixStamped(c, running, block, true, |block.transactions|);
        }
      case Running(_, _, _) => PrefixStamped(c, st, block, false, |block.transactions|);
      case FailedInit(_, _) =>
    }
  }

  lemma AppliedTip(c: Crypto, st: ChainState, block: BlockView)
    requires Bounded(st) && BlockFits(block) && ApplyBlock(c, st, block).Ok?
    ensures var a := ApplyBlock(c, st, block).value;
            && a.state.tipHeight == Some(block.height) && a.state.tipHash == Some(block.hash)
            && a.delta.before == st && a.delta.height == block.height && a.delta.blockHash == block.hash
            && a.delta.previousHash == block.previousHash
            && a.delta.roots.chainedRoot == a.state.chainedRoot && a.delta.roots.height == block.height
            && a.delta.roots.blockHash == block.hash && a.delta.roots.counters == CountersOf(a.state.objects)
    ensures st.tipHeight.Some? ==> block.height == st.tipHeight.value + 1 && st.tipHash == Some(block.previousHash)
  {
    hide ReduceBlock, EventRoot, ObjectStateRoot, BlockRoot, ObjectsInOrder;
  }

  /** When a block applies and what it reports otherwise: it must extend the tip by one height and name it as parent,
      its transactions must be numberable in 32 bits, and while INIT is awaited it must contain the configured INIT. */
  lemma ApplyOutcome(c: Crypto, st: ChainState, block: BlockView)
    requires Bounded(st) && BlockFits(block)
    ensures var follows := st.tipHeight.None? ||
                           (block.height == st.tipHeight.value + 1 && st.tipHash == Some(block.previousHash));
            var starts := !st.protocolStatus.AwaitingInit? ||
                          exists tx :: tx in block.transactions && tx.txid == st.binding.initTxid;
            match ApplyBlock(c, st, block)
            case Ok(a) => follows && |block.transactions| <= 0xFFFF_FFFF && starts
            case Err(NonconsecutiveHeight(expected, actual)) =>
              && st.tipHeight.Some? && actual == block.height != st.tipHeight.value + 1
              && expected == (if st.tipHeight.value == U64_MAX then U64_MAX else st.tipHeight.value + 1)
            case Err(ParentMismatch) =>
              st.tipHeight.Some? && block.height == st.tipHeight.value + 1 && st.tipHash != Some(block.previousHash)
            case Err(TransactionIndexOverflow) => follows && |block.transactions| > 0xFFFF_FFFF
            case Err(ConfiguredInitAbsent) => follows && |block.transactions| <= 0xFFFF_FFFF && !starts
            case Err(DisconnectMismatch) => false
  {
    hide ProcessPrefix, ValidateConfiguredInit, Seal, FailedInitEvent;
    if st.protocolStatus.AwaitingInit? {
      var found := FindInit(block.transactions, st.binding.initTxid);
      if found.Some? { assert block.transactions[found.value] in block.transactions; }
    }
  }

  ghost predicate Linked(blocks: seq<BlockView>) {
    (forall i, j :: 0 <= i < j < |blocks| ==> blocks[j].height - blocks[i].height == j - i) &&
    (forall i :: 0 < i < |blocks| ==> blocks[i].previousHash == blocks[i - 1].hash)
  }

  lemma TipExtends(init: seq<BlockView>, block: BlockView)
    requires Linked(init)
    requires |init| > 0 ==> block.height == init[|init| - 1].height + 1 && block.previousHash == init[|init| - 1].hash
    ensures Linked(init + [block])
  {
  }

  /** The tip of a replayed branch is its last block, whose parent is the block before it, one height lower. */
  lemma {:induction false} BranchTips(c: Crypto, binding: Binding, blocks: seq<BlockView>)
    requires forall i :: 0 <= i < |blocks| ==> BlockFits(blocks[i])
    requires Replay(c, binding, blocks).Some?
    ensures Linked(blocks)
    ensures var st := Replay(c, binding, blocks).value;
            && st.binding == binding
            && (|blocks| == 0 ==> st == NewState(c, binding))
            && (|blocks| > 0 ==>
                  st.tipHeight == Some(blocks[|blocks| - 1].height) && st.tipHash == Some(blocks[|blocks| - 1].hash))
            && BornBy(st.objects, if |blocks| == 0 then 0 else blocks[|blocks| - 1].height)
    decreases |blocks|
  {
    hide ApplyBlock;
    if |blocks| > 0 {
      var init, block := blocks[..|blocks| - 1], blocks[|blocks| - 1];
      BranchTips(c, binding, init);
      RunKeepsLocal(c, binding, blocks);
      AppliedTip(c, Replay(c, binding, init).value, block);
      BlockStamped(c, Replay(c, binding, init).value, block);
      TipExtends(init, block);
      assert blocks == init + [block];
    }
  }
}
