/** Block dispatch, transaction classification and state reduction, as functions on state values. */
module Reducer {
  import opened Primitives
  import opened Types
  import opened Marker
  import opened Validators
  import opened Sorting
  import opened Roots

  datatype BlockDelta = BlockDelta(
    before: ChainState, blockHash: Hash32, previousHash: Hash32, height: u64, events: seq<Event>, roots: HeightRoots)

  datatype ReducerError =
    | ConfiguredInitAbsent
    | NonconsecutiveHeight(expected: u64, actual: u64)
    | ParentMismatch
    | DisconnectMismatch
    | TransactionIndexOverflow

  /** What one transaction means, before any state changes. */
  datatype Verdict =
    | Silent
    | Reject(eventIndex: u32, attempted: EventType, reason: Reason, namespace: Hash32)
    | Exit(eventIndex: u32, reason: Reason, namespace: Hash32)
    | Refund(obj: ObjectState)
    | Accept(eventIndex: u32, op: Operation)

  datatype Step = Step(state: ChainState, events: seq<Event>)

  /** Every object is stored under its own key, and its MARK counter cannot overflow before its sequence does. */
  ghost predicate Bounded(st: ChainState) {
    forall k :: k in st.objects ==> st.objects[k].objectKey == k && st.objects[k].chapterCount <= st.objects[k].stateSeq
  }

  /** Transactions change only the two maps. */
  ghost predicate SameHeader(a: ChainState, b: ChainState) {
    a.binding == b.binding && a.protocolStatus == b.protocolStatus && a.tipHeight == b.tipHeight &&
    a.tipHash == b.tipHash && a.chainedRoot == b.chainedRoot
  }

  /** Input and output positions of a transaction fit the 32-bit event encoding. */
  predicate Fits(tx: TxView) { |tx.inputs| <= U32_MAX && |tx.outputs| <= U32_MAX }

  // ---------- reading the transaction ----------

  function Lookup(st: ChainState, prevout: OutPointRef): Option<ObjectState> {
    if prevout in st.active && st.active[prevout] in st.objects then Some(st.objects[st.active[prevout]]) else None
  }

  function CarrierSpends(st: ChainState, inputs: seq<InputView>): (r: seq<Spend>)
    ensures |r| <= |inputs|
    ensures forall s :: s in r ==> s.index < |inputs| && Lookup(st, inputs[s.index].prevout) == Some(s.obj)
  {
    if |inputs| == 0 then []
    else
      var index := |inputs| - 1;
      var rest := CarrierSpends(st, inputs[..index]);
      var found := Lookup(st, inputs[index].prevout);
      if found.Some? then rest + [Spend(index, found.value)] else rest
  }

  function MinVout(candidates: seq<MarkerCandidate>): u32 {
    if |candidates| == 0 then U32_MAX
    else
      var rest := MinVout(candidates[1..]);
      if candidates[0].vout < rest then candidates[0].vout else rest
  }

  function AttemptedEventType(candidate: MarkerCandidate): EventType {
    if |candidate.payload| > 4 && candidate.payload[4] == VERSION && candidate.OpcodeByte().Some? &&
       OpcodeFromByte(candidate.OpcodeByte().value).Some?
    then EventTypeOf(OpcodeFromByte(candidate.OpcodeByte().value).value) else InvalidEvent
  }

  function PopulationNamespace(candidate: MarkerCandidate): Hash32 {
    if !candidate.payloadComplete || |candidate.payload| < 40 then ZERO_HASH
    else
      var opcode := OpcodeFromByte(candidate.payload[6]);
      if opcode.None? || candidate.payload[4] != VERSION || opcode.value == InitOp ||
         |candidate.payload| != opcode.value.PayloadLen()
      then ZERO_HASH else candidate.payload[8..40]
  }

  function FirstSpend(carriers: seq<Spend>): Option<Spend> {
    if |carriers| == 0 then None else Some(carriers[0])
  }

  /** Parse and validate the single candidate of a transaction. */
  function ValidateMarked(
    c: Crypto, st: ChainState, height: u64, tx: TxView, candidate: MarkerCandidate, carrier: Option<Spend>)
    : Result<Operation, Reason>
    requires candidate.WellDetected()
  {
    var marker :- candidate.Parse();
    ValidateSingle(c, st, height, tx, marker, carrier)
  }

  function Classify(c: Crypto, st: ChainState, height: u64, tx: TxView): Verdict {
    var candidates := Candidates(tx, st.binding);
    var carriers := CarrierSpends(st, tx.inputs);
    if |candidates| > 1 then
      if |carriers| == 0 then Reject(MinVout(candidates), InvalidEvent, MultipleMarkers, ZERO_HASH)
      else Exit(MinVout(candidates), MultipleMarkers, ZERO_HASH)
    else if |carriers| > 1 then
      if |candidates| == 0 then Exit(U32_MAX, MultipleCarriers, st.binding.Namespace(c))
      else Exit(candidates[0].vout, MultipleCarriers, PopulationNamespace(candidates[0]))
    else if |candidates| == 0 then
      if |carriers| == 0 then Silent
      else if |tx.inputs| == 1 && |tx.outputs| == 2 then
        if RefundAccepted(c, height, tx, carriers[0].obj) then Refund(carriers[0].obj)
        else Exit(U32_MAX, BadRefundShapeOrMaturity, st.binding.Namespace(c))
      else Exit(U32_MAX, UnmarkedCarrierSpend, st.binding.Namespace(c))
    else
      var candidate := candidates[0];
      match ValidateMarked(c, st, height, tx, candidate, FirstSpend(carriers))
      case Ok(op) => Accept(candidate.vout, op)
      case Err(reason) =>
        if |carriers| == 0 then Reject(candidate.vout, AttemptedEventType(candidate), reason,
                                       PopulationNamespace(candidate))
        else Exit(candidate.vout, reason, PopulationNamespace(candidate))
  }

  // ---------- events ----------

  function ValidEvent(
    c: Crypto, st: ChainState, block: BlockView, tx: TxView, txIndex: u32, eventIndex: u32, eventType: EventType,
    objectKey: Hash32, stateSeq: u32, predecessor: OutPointRef, successor: OutPointRef, keys: KeyPair,
    commitment: Hash32): Event
  {
    Event(st.binding.Namespace(c), block.hash, block.height, txIndex, eventIndex, 0, eventType, ValidOperation, Valid,
          tx.txid, tx.wtxid, objectKey, stateSeq, predecessor, successor, keys.key0, keys.key1, commitment)
  }

  function BareInvalidEvent(
    block: BlockView, tx: TxView, txIndex: u32, eventIndex: u32, eventType: EventType, reason: Reason,
    namespace: Hash32): Event
  {
    Event(namespace, block.hash, block.height, txIndex, eventIndex, 0, eventType, InvalidNoState, reason,
          tx.txid, tx.wtxid, ZERO_HASH, U32_MAX, ZERO_OUTPOINT, ZERO_OUTPOINT, ZERO_KEY, ZERO_KEY, ZERO_HASH)
  }

  function ExitedEvent(
    block: BlockView, tx: TxView, txIndex: u32, eventIndex: u32, subIndex: u32, reason: Reason, namespace: Hash32,
    obj: ObjectState): Event
  {
    Event(namespace, block.hash, block.height, txIndex, eventIndex, subIndex, ExitEvent, TerminalNoncanonical, reason,
          tx.txid, tx.wtxid, obj.objectKey, obj.stateSeq, obj.currentOutpoint, ZERO_OUTPOINT,
          obj.keys.key0, obj.keys.key1, ZERO_HASH)
  }

  function ValidInitEvent(c: Crypto, st: ChainState, block: BlockView, tx: TxView, txIndex: u32): Event {
    var candidates := Candidates(tx, st.binding);
    var eventIndex := if |candidates| == 0 then U32_MAX else candidates[0].vout;
    Event(st.binding.Namespace(c), block.hash, block.height, txIndex, eventIndex, 0, InitEvent, ValidOperation, Valid,
          tx.txid, tx.wtxid, ZERO_HASH, U32_MAX, ZERO_OUTPOINT, ZERO_OUTPOINT, ZERO_KEY, ZERO_KEY, st.binding.specHash)
  }

  function FailedInitEvent(c: Crypto, binding: Binding, block: BlockView, tx: TxView, txIndex: u32,
                           reason: Reason): Event {
    var candidates := Candidates(tx, binding);
    var eventIndex := if |candidates| == 1 then candidates[0].vout else MinVout(candidates);
    var eventType := if |candidates| == 1 then AttemptedEventType(candidates[0]) else InvalidEvent;
    BareInvalidEvent(block, tx, txIndex, eventIndex, eventType, reason, binding.Namespace(c))
  }

  // ---------- state changes ----------

  function Terminated(obj: ObjectState, status: ObjectStatus, txid: Hash32): ObjectState {
    obj.(status := status, currentOutpoint := ZERO_OUTPOINT, terminalTxid := txid)
  }

  function TerminateObject(st: ChainState, obj: ObjectState, status: ObjectStatus, txid: Hash32): ChainState {
    st.(active := st.active - {obj.currentOutpoint},
        objects := if obj.objectKey in st.objects
                   then st.objects[obj.objectKey := Terminated(st.objects[obj.objectKey], status, txid)]
                   else st.objects)
  }

  predicate SpendLess(a: Spend, b: Spend) { LexLess(a.obj.objectKey, b.obj.objectKey) }

  /** Exit every listed carrier in order, numbering the events. */
  function ExitAll(
    st: ChainState, block: BlockView, tx: TxView, txIndex: u32, eventIndex: u32, reason: Reason, namespace: Hash32,
    carriers: seq<Spend>): (r: Step)
    requires |carriers| <= U32_MAX
    ensures |r.events| == |carriers|
  {
    if |carriers| == 0 then Step(st, [])
    else
      var last := |carriers| - 1;
      var rest := ExitAll(st, block, tx, txIndex, eventIndex, reason, namespace, carriers[..last]);
      var obj := carriers[last].obj;
      Step(TerminateObject(rest.state, obj, ExitedNoncanonical, tx.txid),
           rest.events + [ExitedEvent(block, tx, txIndex, eventIndex, last, reason, namespace, obj)])
  }

  function Successor(tx: TxView): OutPointRef { OutPointRef(tx.txid, 1) }

  function CreatedObject(c: Crypto, st: ChainState, block: BlockView, tx: TxView, keys: KeyPair): ObjectState
    requires st.protocolStatus.Running?
  {
    ObjectState(ObjectKey(c, st.binding.Namespace(c), tx.txid), Successor(tx),
                st.protocolStatus.hOpen <= block.height < st.protocolStatus.hClose, Active, block.height, 0,
                Successor(tx), keys, ZERO_HASH, 0)
  }

  /** Move an object to its successor carrier. */
  function AdvanceTo(st: ChainState, predecessor: OutPointRef, obj: ObjectState): ChainState {
    st.(active := (st.active - {predecessor})[obj.currentOutpoint := obj.objectKey],
        objects := st.objects[obj.objectKey := obj])
  }

  predicate Applicable(st: ChainState, op: Operation) {
    (op.Create? ==> st.protocolStatus.Running?) && (op.Mark? ==> op.obj.chapterCount < U32_MAX)
  }

  function ApplyOperation(
    c: Crypto, st: ChainState, block: BlockView, tx: TxView, txIndex: u32, eventIndex: u32, op: Operation)
    : Step
    requires Applicable(st, op)
  {
    match op
    case Create(keys) =>
      var obj := CreatedObject(c, st, block, tx, keys);
      Step(st.(active := st.active[obj.currentOutpoint := obj.objectKey], objects := st.objects[obj.objectKey := obj]),
           [ValidEvent(c, st, block, tx, txIndex, eventIndex, CreateEvent, obj.objectKey, 0, ZERO_OUTPOINT,
                       Successor(tx), keys, ZERO_HASH)])
    case Mark(obj, sequence, commitment) =>
      var next := obj.(currentOutpoint := Successor(tx), stateSeq := sequence, chapterCount := obj.chapterCount + 1);
      Step(AdvanceTo(st, obj.currentOutpoint, next),
           [ValidEvent(c, st, block, tx, txIndex, eventIndex, MarkEvent, obj.objectKey, sequence, obj.currentOutpoint,
                       Successor(tx), obj.keys, commitment)])
    case Rotate(obj, sequence, keys) =>
      var next := obj.(currentOutpoint := Successor(tx), stateSeq := sequence, keys := keys);
      Step(AdvanceTo(st, obj.currentOutpoint, next),
           [ValidEvent(c, st, block, tx, txIndex, eventIndex, RotateEvent, obj.objectKey, sequence, obj.currentOutpoint,
                       Successor(tx), keys, ZERO_HASH)])
    case Close(obj, sequence, commitment) =>
      var ended := TerminateObject(st, obj, Closed, tx.txid);
      Step(if obj.objectKey in ended.objects
           then ended.(objects := ended.objects[obj.objectKey := ended.objects[obj.objectKey].(stateSeq := sequence)])
           else ended,
           [ValidEvent(c, st, block, tx, txIndex, eventIndex, CloseEvent, obj.objectKey, sequence, obj.currentOutpoint,
                       ZERO_OUTPOINT, obj.keys, commitment)])
  }

  function Execute(c: Crypto, st: ChainState, block: BlockView, tx: TxView, txIndex: u32, verdict: Verdict): Step
    requires Fits(tx) && (verdict.Accept? ==> Applicable(st, verdict.op))
  {
    match verdict
    case Silent => Step(st, [])
    case Reject(eventIndex, attempted, reason, namespace) =>
      Step(st, [BareInvalidEvent(block, tx, txIndex, eventIndex, attempted, reason, namespace)])
    case Exit(eventIndex, reason, namespace) =>
      ExitAll(st, block, tx, txIndex, eventIndex, reason, namespace, SortBy(SpendLess, CarrierSpends(st, tx.inputs)))
    case Refund(obj) =>
      Step(TerminateObject(st, obj, Refunded, tx.txid),
           [ValidEvent(c, st, block, tx, txIndex, U32_MAX, RefundEvent, obj.objectKey, obj.stateSeq,
                       obj.currentOutpoint,
                       ZERO_OUTPOINT, obj.keys, ZERO_HASH)])
    case Accept(eventIndex, op) => ApplyOperation(c, st, block, tx, txIndex, eventIndex, op)
  }

  /** What each verdict says about the carriers the transaction spends. */
  ghost predicate VerdictFacts(c: Crypto, st: ChainState, height: u64, tx: TxView, v: Verdict) {
    var carriers := CarrierSpends(st, tx.inputs);
    match v
    case Silent => |carriers| == 0
    case Reject(_, _, _, _) => |carriers| == 0
    case Exit(_, _, _) => |carriers| > 0
    case Refund(obj) => |tx.inputs| == 1 && carriers == [Spend(0, obj)] && RefundAccepted(c, height, tx, obj)
    case Accept(_, op) => |carriers| <= 1 && Justified(c, st.protocolStatus, height, tx, FirstSpend(carriers), op)
  }

  lemma ClassifyFacts(c: Crypto, st: ChainState, height: u64, tx: TxView)
    ensures VerdictFacts(c, st, height, tx, Classify(c, st, height, tx))
  {
    var candidates, carriers := Candidates(tx, st.binding), CarrierSpends(st, tx.inputs);
    if |carriers| > 0 { assert carriers[0] in carriers; }
    if |candidates| == 1 && candidates[0].Parse().Ok? {
      AcceptedIsJustified(c, st, height, tx, candidates[0].Parse().value, FirstSpend(carriers));
    }
  }

  /** No counter overflow and no unreachable arm: whatever is accepted can be applied. */
  lemma AcceptedIsApplicable(c: Crypto, st: ChainState, height: u64, tx: TxView, v: Verdict)
    requires Bounded(st) && VerdictFacts(c, st, height, tx, v)
    ensures v.Accept? ==> Applicable(st, v.op)
  {
    var carriers := CarrierSpends(st, tx.inputs);
    if |carriers| > 0 { assert carriers[0] in carriers; }
  }

  function ProcessTransaction(c: Crypto, st: ChainState, block: BlockView, tx: TxView, txIndex: u32): Step
    requires Bounded(st) && Fits(tx)
  {
    ClassifyFacts(c, st, block.height, tx);
    AcceptedIsApplicable(c, st, block.height, tx, Classify(c, st, block.height, tx));
    Execute(c, st, block, tx, txIndex, Classify(c, st, block.height, tx))
  }

  lemma {:induction false} ExitAllBounded(
    st: ChainState, block: BlockView, tx: TxView, txIndex: u32, eventIndex: u32, reason: Reason, namespace: Hash32,
    carriers: seq<Spend>)
    requires |carriers| <= U32_MAX && Bounded(st)
    ensures Bounded(ExitAll(st, block, tx, txIndex, eventIndex, reason, namespace, carriers).state)
    ensures var s := ExitAll(st, block, tx, txIndex, eventIndex, reason, namespace, carriers).state;
            SameHeader(s, st)
    decreases |carriers|
  {
    if |carriers| > 0 {
      ExitAllBounded(st, block, tx, txIndex, eventIndex, reason, namespace, carriers[..|carriers| - 1]);
    }
  }

  lemma TerminateKeepsBounded(st: ChainState, obj: ObjectState, status: ObjectStatus, txid: Hash32)
    requires Bounded(st)
    ensures var s := TerminateObject(st, obj, status, txid); Bounded(s) && SameHeader(s, st)
  {
  }

  lemma OperationKeepsBounded(
    c: Crypto, st: ChainState, block: BlockView, tx: TxView, txIndex: u32, eventIndex: u32, op: Operation)
    requires Bounded(st) && Applicable(st, op)
    requires !op.Create? ==> op.obj.chapterCount <= op.obj.stateSeq && op.sequence == op.obj.stateSeq + 1
    requires op.Close? ==> op.obj.objectKey in st.objects && st.objects[op.obj.objectKey] == op.obj
    ensures var s := ApplyOperation(c, st, block, tx, txIndex, eventIndex, op).state; Bounded(s) && SameHeader(s, st)
  {
  }

  lemma ProcessKeepsBounded(c: Crypto, st: ChainState, block: BlockView, tx: TxView, txIndex: u32)
    requires Bounded(st) && Fits(tx)
    ensures var s := ProcessTransaction(c, st, block, tx, txIndex).state;
            Bounded(s) && SameHeader(s, st)
  {
    var v := Classify(c, st, block.height, tx);
    ClassifyFacts(c, st, block.height, tx);
    AcceptedIsApplicable(c, st, block.height, tx, v);
    var carriers := CarrierSpends(st, tx.inputs);
    if |carriers| > 0 { assert carriers[0] in carriers; }
    match v
    case Exit(eventIndex, reason, namespace) =>
      ExitAllBounded(st, block, tx, txIndex, eventIndex, reason, namespace, SortBy(SpendLess, carriers));
    case Refund(obj) => TerminateKeepsBounded(st, obj, Refunded, tx.txid);
    case Accept(eventIndex, op) => OperationKeepsBounded(c, st, block, tx, txIndex, eventIndex, op);
    case _ =>
  }

  // ---------- blocks ----------

  predicate BlockFits(block: BlockView) {
    forall i :: 0 <= i < |block.transactions| ==> Fits(block.transactions[i])
  }

  /** The first `count` transactions of a block; inside the INIT block the configured INIT only emits its event. */
  function ProcessPrefix(c: Crypto, st: ChainState, block: BlockView, initBlock: bool, count: nat): (r: Step)
    requires Bounded(st) && BlockFits(block) && count <= |block.transactions| <= U32_MAX
    ensures Bounded(r.state)
    ensures SameHeader(r.state, st)
  {
    if count == 0 then Step(st, [])
    else
      var before := ProcessPrefix(c, st, block, initBlock, count - 1);
      var tx := block.transactions[count - 1];
      if initBlock && tx.txid == st.binding.initTxid
      then Step(before.state, before.events + [ValidInitEvent(c, before.state, block, tx, count - 1)])
      else
        var step := ProcessTransaction(c, before.state, block, tx, count - 1);
        ProcessKeepsBounded(c, before.state, block, tx, count - 1);
        Step(step.state, before.events + step.events)
  }

  function ValidateLinkage(st: ChainState, block: BlockView): Guard<ReducerError> {
    if st.tipHeight.None? then Pass
    else
      var expected := CheckedAdd(st.tipHeight.value, 1);
      if expected.None? then Fail(NonconsecutiveHeight(U64_MAX, block.height))
      else if block.height != expected.value then Fail(NonconsecutiveHeight(expected.value, block.height))
      else if st.tipHash != Some(block.previousHash) then Fail(ParentMismatch)
      else Pass
  }

  /** Position of the configured INIT transaction in a block. */
  function FindInit(txs: seq<TxView>, initTxid: Hash32): (r: Option<nat>)
    ensures r.Some? ==> r.value < |txs| && txs[r.value].txid == initTxid &&
                        forall i :: 0 <= i < r.value ==> txs[i].txid != initTxid
    ensures r.None? ==> forall i :: 0 <= i < |txs| ==> txs[i].txid != initTxid
  {
    if |txs| == 0 then None
    else if txs[0].txid == initTxid then Some(0)
    else
      var rest := FindInit(txs[1..], initTxid);
      if rest.Some? then Some(rest.value + 1) else None
  }

  /** Lifecycle transition and transaction processing of one linked block. */
  function ReduceBlock(c: Crypto, st: ChainState, block: BlockView): (r: Result<Step, ReducerError>)
    requires Bounded(st) && BlockFits(block) && |block.transactions| <= U32_MAX
    ensures r.Ok? ==> Bounded(r.value.state)
  {
    match st.protocolStatus
    case AwaitingInit =>
      var found :- OkOr(FindInit(block.transactions, st.binding.initTxid), ConfiguredInitAbsent);
      var tx := block.transactions[found];
      (match ValidateConfiguredInit(c, st.binding, block.height, tx)
       case Ok(params) =>
         var running := st.(protocolStatus := Running(block.height, params.hOpen, params.hClose));
         Ok(ProcessPrefix(c, running, block, true, |block.transactions|))
       case Err(reason) =>
         Ok(Step(st.(protocolStatus := FailedInit(reason, block.height)),
                 [FailedInitEvent(c, st.binding, block, tx, found, reason)])))
    case Running(_, _, _) => Ok(ProcessPrefix(c, st, block, false, |block.transactions|))
    case FailedInit(_, _) => Ok(Step(st, []))
  }

  datatype Applied = Applied(state: ChainState, delta: BlockDelta)

  /** Compute the roots, advance the tip and record the inverse journal. */
  function Seal(c: Crypto, before: ChainState, step: Step, block: BlockView): Applied {
    var namespace := before.binding.Namespace(c);
    var eventRoot := EventRoot(c, namespace, step.events);
    var objectRoot := ObjectStateRoot(c, namespace, ObjectsInOrder(step.state.objects));
    var counters := CountersOf(step.state.objects);
    var chained := BlockRoot(c, namespace, before.chainedRoot, block.hash, block.height, eventRoot, objectRoot,
                             counters);
    Applied(step.state.(tipHeight := Some(block.height), tipHash := Some(block.hash), chainedRoot := chained),
            BlockDelta(before, block.hash, block.previousHash, block.height, step.events,
                       HeightRoots(block.height, block.hash, eventRoot, objectRoot, chained, counters)))
  }

  function ApplyBlock(c: Crypto, st: ChainState, block: BlockView): (r: Result<Applied, ReducerError>)
    requires Bounded(st) && BlockFits(block)
    ensures r.Ok? ==> Bounded(r.value.state)
  {
    var linkage := ValidateLinkage(st, block);
    :- linkage;
    :- Need(|block.transactions| <= U32_MAX, TransactionIndexOverflow);
    var step :- ReduceBlock(c, st, block);
    Ok(Seal(c, st, step, block))
  }

  function DisconnectBlock(st: ChainState, delta: BlockDelta): Result<ChainState, ReducerError> {
    var isTip := st.tipHash == Some(delta.blockHash) && st.tipHeight == Some(delta.height);
    :- Need(isTip, DisconnectMismatch);
    Ok(delta.before)
  }

  // ---------- runs ----------

  /** Clean replay of a branch from the fresh state of a binding. */
  function Replay(c: Crypto, binding: Binding, blocks: seq<BlockView>): (r: Option<ChainState>)
    requires forall i :: 0 <= i < |blocks| ==> BlockFits(blocks[i])
    ensures r.Some? ==> Bounded(r.value)
  {
    if |blocks| == 0 then Some(NewState(c, binding))
    else
      var before := Replay(c, binding, blocks[..|blocks| - 1]);
      if before.None? then None
      else
        var r := ApplyBlock(c, before.value, blocks[|blocks| - 1]);
        if r.Ok? then Some(r.value.state) else None
  }

  /** The journal entry each block of a replayable branch produced. */
  function Journal(c: Crypto, binding: Binding, blocks: seq<BlockView>): (r: seq<BlockDelta>)
    requires forall i :: 0 <= i < |blocks| ==> BlockFits(blocks[i])
    requires Replay(c, binding, blocks).Some?
    ensures |r| == |blocks|
  {
    if |blocks| == 0 then []
    else
      var init := blocks[..|blocks| - 1];
      Journal(c, binding, init) + [ApplyBlock(c, Replay(c, binding, init).value, blocks[|blocks| - 1]).value.delta]
  }
}
