/** What every logged event says about the transaction it names, on the transaction's own fields and payload bytes. */
module EventContents {
  import opened Primitives
  import opened Types
  import opened Marker
  import opened Validators
  import opened Sorting
  import opened Roots
  import opened Reducer
  import LocalInvariant
  import opened EventLog
  import opened MarkerSelection
  import opened Rules

  // ---------- what acceptance reads from the transaction ----------

  /** The values an accepted operation carries, as they stand in the payload and the inputs. */
  ghost predicate Reads(c: Crypto, tx: TxView, marker: ParsedMarker, op: Operation) {
    var p := marker.payload;
    match op
    case Create(keys) =>
      marker.opcode == Some(CreateOp) && KeyAt(c, tx, 0) == Some(keys.key0) && KeyAt(c, tx, 1) == Some(keys.key1)
    case Mark(_, sequence, commitment) =>
      marker.opcode == Some(MarkOp) && |p| == 78 && p[40..44] == LE(sequence, 4) && commitment == p[46..78] &&
      commitment != ZERO_HASH
    case Rotate(_, sequence, keys) =>
      marker.opcode == Some(RotateOp) && |p| == 44 && p[40..44] == LE(sequence, 4) &&
      KeyAt(c, tx, 1) == Some(keys.key0) && KeyAt(c, tx, 2) == Some(keys.key1)
    case Close(_, sequence, commitment) =>
      marker.opcode == Some(CloseOp) && |p| == 80 && p[40..44] == LE(sequence, 4) && commitment == p[48..80]
  }

  lemma CreateReads(c: Crypto, status: ProtocolStatus, height: u64, tx: TxView, marker: ParsedMarker)
    requires marker.WellParsed() && marker.opcode == Some(CreateOp)
    ensures var r := ValidateCreate(c, status, height, tx, marker); r.Ok? ==> Reads(c, tx, marker, r.value)
  {
    hide AllReplaceable, AllSigned, AllConfirmed, OutputShapeOk, HeaderOk, P2wpkhScript, InputView.P2wpkhKey,
         InputView.P2wpkhRevealedKey, InputView.CarrierKeys, InputView.CarrierRevealedKeys, KeyPair.CarrierScript;
  }

  lemma MarkReads(c: Crypto, height: u64, tx: TxView, marker: ParsedMarker, carrier: Option<Spend>)
    requires marker.WellParsed() && marker.opcode == Some(MarkOp)
    ensures var r := ValidateMark(c, height, tx, marker, carrier); r.Ok? ==> Reads(c, tx, marker, r.value)
  {
    hide AllReplaceable, AllSigned, AllConfirmed, OutputShapeOk, HeaderOk, P2wpkhScript, InputView.P2wpkhKey,
         InputView.P2wpkhRevealedKey, InputView.CarrierKeys, InputView.CarrierRevealedKeys, KeyPair.CarrierScript;
    FieldBytes(marker, 40, marker.U32At(40));
  }

  lemma RotateReads(c: Crypto, height: u64, tx: TxView, marker: ParsedMarker, carrier: Option<Spend>)
    requires marker.WellParsed() && marker.opcode == Some(RotateOp)
    ensures var r := ValidateRotate(c, height, tx, marker, carrier); r.Ok? ==> Reads(c, tx, marker, r.value)
  {
    hide AllReplaceable, AllSigned, AllConfirmed, OutputShapeOk, HeaderOk, P2wpkhScript, InputView.P2wpkhKey,
         InputView.P2wpkhRevealedKey, InputView.CarrierKeys, InputView.CarrierRevealedKeys, KeyPair.CarrierScript;
    FieldBytes(marker, 40, marker.U32At(40));
  }

  lemma CloseReads(c: Crypto, height: u64, tx: TxView, marker: ParsedMarker, carrier: Option<Spend>)
    requires marker.WellParsed() && marker.opcode == Some(CloseOp)
    ensures var r := ValidateClose(c, height, tx, marker, carrier); r.Ok? ==> Reads(c, tx, marker, r.value)
  {
    hide AllReplaceable, AllSigned, AllConfirmed, OutputShapeOk, HeaderOk, P2wpkhScript, InputView.P2wpkhKey,
         InputView.P2wpkhRevealedKey, InputView.CarrierKeys, InputView.CarrierRevealedKeys, KeyPair.CarrierScript;
    FieldBytes(marker, 40, marker.U32At(40));
  }

  lemma AcceptedReads(
    c: Crypto, st: ChainState, height: u64, tx: TxView, marker: ParsedMarker, carrier: Option<Spend>)
    requires marker.WellParsed()
    ensures var r := ValidateSingle(c, st, height, tx, marker, carrier); r.Ok? ==> Reads(c, tx, marker, r.value)
  {
    hide ValidateCreate, ValidateMark, ValidateRotate, ValidateClose, Reads;
    match marker.opcode
    case Some(CreateOp) => CreateReads(c, st.protocolStatus, height, tx, marker);
    case Some(MarkOp) => MarkReads(c, height, tx, marker, carrier);
    case Some(RotateOp) => RotateReads(c, height, tx, marker, carrier);
    case Some(CloseOp) => CloseReads(c, height, tx, marker, carrier);
    case _ =>
  }

  // ---------- the rules an accepted operation keeps ----------

  /** The rules of every accepted operation, as a caller can check them: header, phase of life, signatures and keys. */
  ghost predicate Lawful(
    c: Crypto, binding: Binding, height: u64, tx: TxView, marker: ParsedMarker, carrier: Option<Spend>) {
    && marker.version == 1 && marker.network == binding.network.Code() && |marker.payload| >= 40
    && marker.payload[8..40] == binding.Namespace(c) && marker.vout == 0
    && VersionOk(tx) && SequencesAre(tx, 0xFFFF_FFFD) && ConfirmedOk(tx, height) && SignedOk(tx)
    && marker.opcode.Some? && KeysOk(c, tx, marker.opcode.value, carrier)
  }

  lemma AcceptedIsLawful(
    c: Crypto, st: ChainState, height: u64, tx: TxView, marker: ParsedMarker, carrier: Option<Spend>)
    requires marker.WellParsed() && ValidateSingle(c, st, height, tx, marker, carrier).Ok?
    ensures Lawful(c, st.binding, height, tx, marker, carrier)
  {
    hide ValidateSingle, KeysOk, VersionOk, SequencesAre, ConfirmedOk, SignedOk, ScriptsOk, OutputsOk, FeeOk, SplitOk,
         PredecessorOk, SequenceOk, SuccessorOk, CommitmentOk, PhaseOk, FieldsOk;
    SingleReportsFirst(c, st, height, tx, marker, carrier);
    assert FirstBrokenMarked(c, st, height, tx, marker, carrier) == None;
  }

  // ---------- what an event records ----------

  ghost predicate Stamps(block: BlockView, tx: TxView, e: Event) {
    e.blockHash == block.hash && e.height == block.height && e.txid == tx.txid && e.wtxid == tx.wtxid
  }

  /** The transaction's output 0 is the printed marker of this payload. */
  ghost predicate Carries(tx: TxView, payload: Bytes) {
    WellFormedPayload(payload) && |tx.outputs| > 0 && tx.outputs[0].scriptPubkey == MarkerScript(payload)
  }

  /** An accepted operation, field by field. */
  ghost predicate RecordsOperation(c: Crypto, binding: Binding, tx: TxView, payload: Bytes, e: Event) {
    && |payload| >= 40 && payload[4] == 1 && payload[5] == binding.network.Code()
    && payload[8..40] == binding.Namespace(c)
    && VersionOk(tx) && SequencesAre(tx, 0xFFFF_FFFD) && ConfirmedOk(tx, e.height) && SignedOk(tx)
    && e.eventIndex == 0
    && match e.eventType
       case CreateEvent =>
         && payload[6] == 1 && e.objectKey == ObjectKey(c, binding.Namespace(c), tx.txid) && e.stateSeq == 0
         && e.predecessor == ZERO_OUTPOINT && e.successor == OutPointRef(tx.txid, 1) && e.commitment == ZERO_HASH
         && KeyAt(c, tx, 0) == Some(e.key0) && KeyAt(c, tx, 1) == Some(e.key1)
       case MarkEvent =>
         && payload[6] == 2 && |payload| == 78 && payload[40..44] == LE(e.stateSeq, 4)
         && e.commitment == payload[46..78] && e.commitment != ZERO_HASH
         && |tx.inputs| > 0 && e.predecessor == tx.inputs[0].prevout && e.successor == OutPointRef(tx.txid, 1)
         && CarrierPair(c, tx) == Some(KeyPair(e.key0, e.key1))
       case RotateEvent =>
         && payload[6] == 3 && |payload| == 44 && payload[40..44] == LE(e.stateSeq, 4) && e.commitment == ZERO_HASH
         && |tx.inputs| > 0 && e.predecessor == tx.inputs[0].prevout && e.successor == OutPointRef(tx.txid, 1)
         && KeyAt(c, tx, 1) == Some(e.key0) && KeyAt(c, tx, 2) == Some(e.key1)
       case CloseEvent =>
         && payload[6] == 4 && |payload| == 80 && payload[40..44] == LE(e.stateSeq, 4)
         && e.commitment == payload[48..80]
         && |tx.inputs| > 0 && e.predecessor == tx.inputs[0].prevout && e.successor == ZERO_OUTPOINT
         && CarrierPair(c, tx) == Some(KeyPair(e.key0, e.key1))
       case _ => false
  }

  ghost predicate RecordsRefund(c: Crypto, tx: TxView, e: Event) {
    && e.eventIndex == 0xFFFF_FFFF && e.commitment == ZERO_HASH && e.successor == ZERO_OUTPOINT
    && |tx.inputs| == 1 && e.predecessor == tx.inputs[0].prevout && CarrierPair(c, tx) == Some(KeyPair(e.key0, e.key1))
    && VersionOk(tx) && SequencesAre(tx, 52_560) && SignedOk(tx)
  }

  ghost predicate RecordsInit(binding: Binding, tx: TxView, e: Event) {
    && tx.txid == binding.initTxid && e.commitment == binding.specHash
    && e.eventIndex == (if |Candidates(tx, binding)| == 0 then 0xFFFF_FFFF else Candidates(tx, binding)[0].vout)
    && e.objectKey == ZERO_HASH && e.stateSeq == 0xFFFF_FFFF && e.predecessor == ZERO_OUTPOINT
    && e.successor == ZERO_OUTPOINT && e.key0 == ZERO_KEY && e.key1 == ZERO_KEY
  }

  /** What a valid event records about its transaction. */
  ghost predicate Records(c: Crypto, binding: Binding, tx: TxView, e: Event) {
    && e.namespace == binding.Namespace(c) && e.reason == Valid && e.subIndex == 0
    && match e.eventType
       case InitEvent => RecordsInit(binding, tx, e)
       case RefundEvent => RecordsRefund(c, tx, e)
       case _ => exists payload :: Carries(tx, payload) && RecordsOperation(c, binding, tx, payload, e)
  }

  /** An invalid attempt names no object. */
  ghost predicate Blank(e: Event) {
    && e.subIndex == 0 && e.objectKey == ZERO_HASH && e.stateSeq == 0xFFFF_FFFF && e.predecessor == ZERO_OUTPOINT
    && e.successor == ZERO_OUTPOINT && e.key0 == ZERO_KEY && e.key1 == ZERO_KEY && e.commitment == ZERO_HASH
    && e.reason != Valid
  }

  /** An exit leaves no successor and no commitment. */
  ghost predicate RecordsExit(e: Event) {
    && e.eventType == ExitEvent && e.successor == ZERO_OUTPOINT && e.commitment == ZERO_HASH && e.reason != Valid
  }

  ghost predicate Describes(c: Crypto, binding: Binding, tx: TxView, e: Event) {
    match e.validityClass
    case ValidOperation => Records(c, binding, tx, e)
    case InvalidNoState => Blank(e)
    case TerminalNoncanonical => RecordsExit(e)
  }

  /** The event describes the transaction of the block that it points at. */
  ghost predicate EventOf(c: Crypto, binding: Binding, block: BlockView, e: Event) {
    e.txIndex < |block.transactions| && Stamps(block, block.transactions[e.txIndex], e) &&
    Describes(c, binding, block.transactions[e.txIndex], e)
  }

  // ---------- one transaction ----------

  /** The single candidate that parsed is the printed marker at its output. */
  lemma ParsedIsPrinted(tx: TxView, binding: Binding)
    requires |Candidates(tx, binding)| == 1 && Candidates(tx, binding)[0].Parse().Ok?
    requires Candidates(tx, binding)[0].Parse().value.vout == 0
    ensures var m := Candidates(tx, binding)[0].Parse().value;
            && Carries(tx, m.payload) && m.version == m.payload[4] && m.network == m.payload[5]
            && m.opcode == OpcodeFromByte(m.payload[6])
  {
    CandidatesExact(tx, binding);
    var candidate := Candidates(tx, binding)[0];
    assert candidate in Candidates(tx, binding);
    var i: nat :| Selected(tx, binding, i, candidate);
    PrintParsed(tx.outputs[i].scriptPubkey, i);
  }

  lemma OperationRecords(
    c: Crypto, st: ChainState, block: BlockView, tx: TxView, txIndex: u32, op: Operation, marker: ParsedMarker,
    carrier: Option<Spend>)
    requires marker.WellParsed() && Applicable(st, op) && Carries(tx, marker.payload)
    requires marker.version == marker.payload[4] && marker.network == marker.payload[5]
    requires marker.opcode == OpcodeFromByte(marker.payload[6])
    requires Reads(c, tx, marker, op) && Lawful(c, st.binding, block.height, tx, marker, carrier)
    requires Justified(c, st.protocolStatus, block.height, tx, carrier, op)
    ensures var events := ApplyOperation(c, st, block, tx, txIndex, 0, op).events;
            |events| == 1 && Stamps(block, tx, events[0]) && events[0].txIndex == txIndex &&
            events[0].validityClass == ValidOperation && Records(c, st.binding, tx, events[0])
  {
    hide VersionOk, SequencesAre, ConfirmedOk, SignedOk, KeyAt, CarrierPair, PairAt, WellFormedPayload, MarkerScript,
         ObjectKey;
    var e := ApplyOperation(c, st, block, tx, txIndex, 0, op).events[0];
    assert RecordsOperation(c, st.binding, tx, marker.payload, e);
  }

  lemma AcceptRecords(c: Crypto, st: ChainState, block: BlockView, tx: TxView, txIndex: u32)
    requires Bounded(st) && Fits(tx) && Classify(c, st, block.height, tx).Accept?
    ensures var events := ProcessTransaction(c, st, block, tx, txIndex).events;
            |events| == 1 && Stamps(block, tx, events[0]) && events[0].txIndex == txIndex &&
            events[0].validityClass == ValidOperation && Records(c, st.binding, tx, events[0])
  {
    hide ValidateSingle, RefundAccepted, CarrierSpends, Candidates, ApplyOperation, Reads, Lawful, Records, Justified,
         Applicable, Carries, MarkerCandidate.Parse;
    var v := Classify(c, st, block.height, tx);
    ClassifyFacts(c, st, block.height, tx);
    AcceptedIsApplicable(c, st, block.height, tx, v);
    var candidate, carrier := Candidates(tx, st.binding)[0], FirstSpend(CarrierSpends(st, tx.inputs));
    var marker := candidate.Parse().value;
    AcceptedReads(c, st, block.height, tx, marker, carrier);
    AcceptedIsLawful(c, st, block.height, tx, marker, carrier);
    LawfulAtZero(c, st.binding, block.height, tx, marker, carrier);
    ParsedIsPrinted(tx, st.binding);
    ParsedVout(candidate);
    OperationRecords(c, st, block, tx, txIndex, v.op, marker, carrier);
  }

  lemma LawfulAtZero(
    c: Crypto, binding: Binding, height: u64, tx: TxView, marker: ParsedMarker, carrier: Option<Spend>)
    requires Lawful(c, binding, height, tx, marker, carrier)
    ensures marker.vout == 0
  {
  }

  lemma ParsedVout(candidate: MarkerCandidate)
    requires candidate.WellDetected()
    ensures candidate.Parse().Ok? ==> candidate.Parse().value.vout == candidate.vout
  {
  }

  lemma RefundRecords(c: Crypto, st: ChainState, block: BlockView, tx: TxView, txIndex: u32, obj: ObjectState)
    requires Fits(tx) && VerdictFacts(c, st, block.height, tx, Refund(obj))
    ensures var events := Execute(c, st, block, tx, txIndex, Refund(obj)).events;
            |events| == 1 && Stamps(block, tx, events[0]) && events[0].txIndex == txIndex &&
            events[0].validityClass == ValidOperation && Records(c, st.binding, tx, events[0])
  {
    hide P2wpkhScript, InputView.CarrierKeys, MaturityGuard, CarrierSpends;
  }

  /** Whatever a transaction emits describes it. */
  lemma TransactionDescribed(c: Crypto, st: ChainState, block: BlockView, tx: TxView, txIndex: u32)
    requires Bounded(st) && Fits(tx)
    ensures var events := ProcessTransaction(c, st, block, tx, txIndex).events;
            forall i :: 0 <= i < |events| ==>
              events[i].txIndex == txIndex && Stamps(block, tx, events[i]) && Describes(c, st.binding, tx, events[i])
  {
    hide Classify, ValidateMarked, RefundAccepted, CarrierSpends, SortBy, ExitAll, Records, VerdictFacts,
         ApplyOperation;
    var v := Classify(c, st, block.height, tx);
    ClassifyFacts(c, st, block.height, tx);
    AcceptedIsApplicable(c, st, block.height, tx, v);
    FailureHasReason(c, st, block.height, tx);
    match v
    case Accept(_, _) => AcceptRecords(c, st, block, tx, txIndex);
    case Refund(obj) => RefundRecords(c, st, block, tx, txIndex, obj);
    case Exit(eventIndex, reason, n) =>
      ExitAllNumbered(st, block, tx, txIndex, eventIndex, reason, n, SortBy(SpendLess, CarrierSpends(st, tx.inputs)));
    case _ =>
  }

  /** No failure reports the valid code. */
  lemma FailureHasReason(c: Crypto, st: ChainState, height: u64, tx: TxView)
    ensures var v := Classify(c, st, height, tx);
            (v.Exit? ==> v.reason != Valid) && (v.Reject? ==> v.reason != Valid)
  {
    hide ValidateMarked, RefundAccepted, CarrierSpends, Candidates, Breaks;
    var candidates, carriers := Candidates(tx, st.binding), CarrierSpends(st, tx.inputs);
    if |candidates| == 1 && |carriers| <= 1 {
      ReasonIsLeastBrokenRule(c, st, height, tx, candidates[0], FirstSpend(carriers));
      ValidIsNoRule(c, st, height, tx, candidates[0], FirstSpend(carriers));
    }
  }

  // ---------- blocks and runs ----------

  ghost predicate AllOf(c: Crypto, binding: Binding, block: BlockView, events: seq<Event>) {
    forall i :: 0 <= i < |events| ==> EventOf(c, binding, block, events[i])
  }

  lemma {:induction false} PrefixDescribed(c: Crypto, st: ChainState, block: BlockView, initBlock: bool, count: nat)
    requires Bounded(st) && BlockFits(block) && count <= |block.transactions| <= U32_MAX
    ensures AllOf(c, st.binding, block, ProcessPrefix(c, st, block, initBlock, count).events)
    decreases count
  {
    hide ProcessTransaction, Describes, ValidInitEvent;
    if count > 0 {
      PrefixDescribed(c, st, block, initBlock, count - 1);
      var before := ProcessPrefix(c, st, block, initBlock, count - 1);
      var tx := block.transactions[count - 1];
      var more: seq<Event>;
      if initBlock && tx.txid == st.binding.initTxid {
        more := [ValidInitEvent(c, before.state, block, tx, count - 1)];
        InitDescribed(c, before.state, block, tx, count - 1);
      } else {
        more := ProcessTransaction(c, before.state, block, tx, count - 1).events;
        TransactionDescribed(c, before.state, block, tx, count - 1);
      }
      assert AllOf(c, st.binding, block, more);
      AllOfConcat(c, st.binding, block, before.events, more);
    }
  }

  lemma AllOfConcat(c: Crypto, binding: Binding, block: BlockView, a: seq<Event>, b: seq<Event>)
    requires AllOf(c, binding, block, a) && AllOf(c, binding, block, b)
    ensures AllOf(c, binding, block, a + b)
  {
    hide EventOf;
  }

  lemma InitDescribed(c: Crypto, st: ChainState, block: BlockView, tx: TxView, txIndex: u32)
    requires tx.txid == st.binding.initTxid
    ensures var e := ValidInitEvent(c, st, block, tx, txIndex);
            e.txIndex == txIndex && Stamps(block, tx, e) && Describes(c, st.binding, tx, e)
  {
  }

  lemma InitFailureHasReason(c: Crypto, binding: Binding, height: u64, tx: TxView)
    ensures var r := ValidateConfiguredInit(c, binding, height, tx); r.Err? ==> r.error != Valid
  {
    hide ValidateConfiguredInit, Candidates;
    InitReasonIsLeastBrokenRule(c, binding, height, tx);
  }

  lemma FailedInitDescribed(
    c: Crypto, binding: Binding, block: BlockView, found: nat, reason: Reason)
    requires found < |block.transactions| <= U32_MAX && reason != Valid
    ensures EventOf(c, binding, block, FailedInitEvent(c, binding, block, block.transactions[found], found, reason))
  {
    hide Records, RecordsExit;
  }

  /** Every event of every applied block describes the transaction it names. */
  lemma BlockDescribed(c: Crypto, st: ChainState, block: BlockView)
    requires Bounded(st) && BlockFits(block) && ApplyBlock(c, st, block).Ok?
    ensures AllOf(c, st.binding, block, ApplyBlock(c, st, block).value.delta.events)
  {
    hide ValidateConfiguredInit, ProcessPrefix, FailedInitEvent, EventOf, EventRoot, ObjectStateRoot, ObjectsInOrder,
         BlockRoot, CountersOf;
    match st.protocolStatus {
      case AwaitingInit =>
        var found := FindInit(block.transactions, st.binding.initTxid).value;
        var tx := block.transactions[found];
        var init := ValidateConfiguredInit(c, st.binding, block.height, tx);
        InitFailureHasReason(c, st.binding, block.height, tx);
        if init.Ok? {
          var running := st.(protocolStatus := Running(block.height, init.value.hOpen, init.value.hClose));
          PrefixDescribed(c, running, block, true, |block.transactions|);
        } else {
          FailedInitDescribed(c, st.binding, block, found, init.error);
        }
      case Running(_, _, _) => PrefixDescribed(c, st, block, false, |block.transactions|);
      case FailedInit(_, _) =>
    }
  }

  /** Every event of every run describes the transaction it names in one of the run's blocks. */
  lemma {:induction false} RunDescribed(c: Crypto, binding: Binding, blocks: seq<BlockView>)
    requires forall i :: 0 <= i < |blocks| ==> BlockFits(blocks[i])
    requires Replay(c, binding, blocks).Some?
    ensures forall e :: e in Log(c, binding, blocks) ==>
            exists b :: 0 <= b < |blocks| && EventOf(c, binding, blocks[b], e)
    decreases |blocks|
  {
    hide ApplyBlock, EventOf;
    if |blocks| > 0 {
      var init, block := blocks[..|blocks| - 1], blocks[|blocks| - 1];
      RunDescribed(c, binding, init);
      LocalInvariant.RunKeepsLocal(c, binding, init);
      BlockDescribed(c, Replay(c, binding, init).value, block);
      forall e | e in Log(c, binding, blocks)
        ensures exists b :: 0 <= b < |blocks| && EventOf(c, binding, blocks[b], e)
      {
        if e in Log(c, binding, init) {
          var b :| 0 <= b < |init| && EventOf(c, binding, init[b], e);
          assert EventOf(c, binding, blocks[b], e);
        } else {
          assert EventOf(c, binding, blocks[|blocks| - 1], e);
        }
      }
    }
  }
}
