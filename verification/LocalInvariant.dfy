/** Invariants of every run, whatever the blocks contain. */
module LocalInvariant {
  import opened Primitives
  import opened Types
  import opened Validators
  import opened Sorting
  import opened Reducer

  /** Identity, phase and lifecycle coherence of one stored object. */
  ghost predicate ObjectOk(c: Crypto, binding: Binding, status: ProtocolStatus, o: ObjectState) {
    && o.genesis.vout == 1 && o.objectKey == ObjectKey(c, binding.Namespace(c), o.genesis.txid)
    && status.Running? && status.hOpen <= o.createHeight
    && (o.founding <==> o.createHeight < status.hClose)
    && (o.status == Active ==> o.currentOutpoint.vout == 1 && o.terminalTxid == ZERO_HASH)
    && (o.status != Active ==> o.currentOutpoint == ZERO_OUTPOINT)
    && o.chapterCount <= o.stateSeq
  }

  ghost predicate ObjectsOk(c: Crypto, binding: Binding, status: ProtocolStatus, objects: map<Hash32, ObjectState>) {
    forall k :: k in objects ==> objects[k].objectKey == k && ObjectOk(c, binding, status, objects[k])
  }

  ghost predicate CarrierKeysOk(active: map<OutPointRef, Hash32>) {
    forall o :: o in active ==> o.vout == 1
  }

  ghost predicate PhaseOk(status: ProtocolStatus) {
    status.Running? ==> status.hOpen >= status.initHeight + INIT_LEAD && status.hClose == status.hOpen + FOUNDING_WINDOW
  }

  ghost predicate LocalInv(c: Crypto, st: ChainState) {
    && ObjectsOk(c, st.binding, st.protocolStatus, st.objects)
    && CarrierKeysOk(st.active)
    && PhaseOk(st.protocolStatus)
    && (!st.protocolStatus.Running? ==> st.active == map[])
  }

  /** An accepted INIT has the required lead and the exact founding window. */
  lemma InitParamsOk(c: Crypto, binding: Binding, height: u64, tx: TxView)
    ensures var r := ValidateConfiguredInit(c, binding, height, tx);
            r.Ok? ==> r.value.hOpen >= height + INIT_LEAD && r.value.hClose == r.value.hOpen + FOUNDING_WINDOW
  {
  }

  lemma TerminateKeepsLocal(c: Crypto, st: ChainState, obj: ObjectState, status: ObjectStatus, txid: Hash32)
    requires LocalInv(c, st) && status != Active
    ensures LocalInv(c, TerminateObject(st, obj, status, txid))
  {
  }

  lemma {:induction false} ExitAllKeepsLocal(
    c: Crypto, st: ChainState, block: BlockView, tx: TxView, txIndex: u32, eventIndex: u32, reason: Reason,
    namespace: Hash32, carriers: seq<Spend>)
    requires |carriers| <= U32_MAX && LocalInv(c, st)
    ensures LocalInv(c, ExitAll(st, block, tx, txIndex, eventIndex, reason, namespace, carriers).state)
    decreases |carriers|
  {
    if |carriers| > 0 {
      var last := |carriers| - 1;
      ExitAllKeepsLocal(c, st, block, tx, txIndex, eventIndex, reason, namespace, carriers[..last]);
      var rest := ExitAll(st, block, tx, txIndex, eventIndex, reason, namespace, carriers[..last]);
      TerminateKeepsLocal(c, rest.state, carriers[last].obj, ExitedNoncanonical, tx.txid);
    }
  }

  /** The object an operation carries is the stored one and is active. */
  ghost predicate Operand(st: ChainState, op: Operation) {
    op.Create? || (op.obj.objectKey in st.objects && st.objects[op.obj.objectKey] == op.obj &&
                   op.obj.status == Active &&
                   op.sequence == op.obj.stateSeq + 1)
  }

  lemma OperandOk(c: Crypto, st: ChainState, height: u64, tx: TxView, eventIndex: u32, op: Operation)
    requires LocalInv(c, st) && VerdictFacts(c, st, height, tx, Accept(eventIndex, op))
    ensures Operand(st, op)
  {
    var carriers := CarrierSpends(st, tx.inputs);
    if |carriers| > 0 { assert carriers[0] in carriers; }
  }

  lemma OperationKeepsLocal(
    c: Crypto, st: ChainState, block: BlockView, tx: TxView, txIndex: u32, eventIndex: u32, op: Operation)
    requires LocalInv(c, st) && Applicable(st, op) && Operand(st, op)
    requires op.Create? ==> block.height >= st.protocolStatus.hOpen
    ensures LocalInv(c, ApplyOperation(c, st, block, tx, txIndex, eventIndex, op).state)
  {
  }

  lemma ProcessKeepsLocal(c: Crypto, st: ChainState, block: BlockView, tx: TxView, txIndex: u32)
    requires LocalInv(c, st) && Bounded(st) && Fits(tx)
    ensures LocalInv(c, ProcessTransaction(c, st, block, tx, txIndex).state)
  {
    var v := Classify(c, st, block.height, tx);
    ClassifyFacts(c, st, block.height, tx);
    AcceptedIsApplicable(c, st, block.height, tx, v);
    match v
    case Exit(eventIndex, reason, namespace) =>
      ExitAllKeepsLocal(c, st, block, tx, txIndex, eventIndex, reason, namespace,
                        SortBy(SpendLess, CarrierSpends(st, tx.inputs)));
    case Refund(obj) => TerminateKeepsLocal(c, st, obj, Refunded, tx.txid);
    case Accept(eventIndex, op) =>
      OperandOk(c, st, block.height, tx, eventIndex, op);
      OperationKeepsLocal(c, st, block, tx, txIndex, eventIndex, op);
    case _ =>
  }

  lemma {:induction false} PrefixKeepsLocal(c: Crypto, st: ChainState, block: BlockView, initBlock: bool, count: nat)
    requires LocalInv(c, st) && Bounded(st) && BlockFits(block) && count <= |block.transactions| <= U32_MAX
    ensures LocalInv(c, ProcessPrefix(c, st, block, initBlock, count).state)
    decreases count
  {
    if count > 0 {
      PrefixKeepsLocal(c, st, block, initBlock, count - 1);
      var before := ProcessPrefix(c, st, block, initBlock, count - 1);
      var tx := block.transactions[count - 1];
      if !(initBlock && tx.txid == st.binding.initTxid) {
        ProcessKeepsLocal(c, before.state, block, tx, count - 1);
      }
    }
  }

  lemma ReduceKeepsLocal(c: Crypto, st: ChainState, block: BlockView)
    requires LocalInv(c, st) && Bounded(st) && BlockFits(block) && |block.transactions| <= U32_MAX
    requires ReduceBlock(c, st, block).Ok?
    ensures var s := ReduceBlock(c, st, block).value.state; LocalInv(c, s) && s.binding == st.binding
  {
    match st.protocolStatus {
      case AwaitingInit =>
        var found := FindInit(block.transactions, st.binding.initTxid).value;
        var tx := block.transactions[found];
        InitParamsOk(c, st.binding, block.height, tx);
        var init := ValidateConfiguredInit(c, st.binding, block.height, tx);
        assert forall k :: k !in st.objects;
        if init.Ok? {
          var running := st.(protocolStatus := Running(block.height, init.value.hOpen, init.value.hClose));
          PrefixKeepsLocal(c, running, block, true, |block.transactions|);
        }
      case Running(_, _, _) => PrefixKeepsLocal(c, st, block, false, |block.transactions|);
      case FailedInit(_, _) =>
    }
  }

  lemma ApplyKeepsLocal(c: Crypto, st: ChainState, block: BlockView)
    requires LocalInv(c, st) && Bounded(st) && BlockFits(block) && ApplyBlock(c, st, block).Ok?
    ensures var s := ApplyBlock(c, st, block).value.state; LocalInv(c, s) && s.binding == st.binding
  {
    ReduceKeepsLocal(c, st, block);
  }

  /** Every state of every run is coherent: phases, founding flags, identities, lifecycle and counters. */
  lemma {:induction false} RunKeepsLocal(c: Crypto, binding: Binding, blocks: seq<BlockView>)
    requires forall i :: 0 <= i < |blocks| ==> BlockFits(blocks[i])
    requires Replay(c, binding, blocks).Some?
    ensures var s := Replay(c, binding, blocks).value; LocalInv(c, s) && s.binding == binding
    decreases |blocks|
  {
    if |blocks| > 0 {
      var init := blocks[..|blocks| - 1];
      RunKeepsLocal(c, binding, init);
      ApplyKeepsLocal(c, Replay(c, binding, init).value, blocks[|blocks| - 1]);
    }
  }
}
