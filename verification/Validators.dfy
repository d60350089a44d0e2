/** The configured-INIT, CREATE, MARK, ROTATE, CLOSE and REFUND validators. */
module Validators {
  import opened Primitives
  import opened Types
  import opened Marker

  /** An active carrier consumed by the input at `index`. */
  datatype Spend = Spend(index: nat, obj: ObjectState)

  datatype Operation =
    | Create(createKeys: KeyPair)
    | Mark(obj: ObjectState, sequence: u32, commitment: Hash32)
    | Rotate(obj: ObjectState, sequence: u32, newKeys: KeyPair)
    | Close(obj: ObjectState, sequence: u32, commitment: Hash32)

  datatype InitParams = InitParams(hOpen: u32, hClose: u32)

  function CheckedAdd(a: u64, b: u64): Option<u64> { if a + b <= U64_MAX then Some(a + b) else None }
  function CheckedAdd32(a: u32, b: u32): Option<u32> { if a + b <= U32_MAX then Some(a + b) else None }
  function CheckedSub(a: u64, b: u64): Option<u64> { if a >= b then Some(a - b) else None }

  predicate IsOpReturn(script: Bytes) { |script| > 0 && script[0] == 0x6A }

  predicate HasOtherOpReturn(tx: TxView, markerVout: u32) {
    exists i :: 0 <= i < |tx.outputs| && i != markerVout && IsOpReturn(tx.outputs[i].scriptPubkey)
  }

  /** Candidates of a transaction in output order; INIT-shaped ones count only in the configured INIT. */
  function MarkerCandidates(txid: Hash32, outputs: seq<OutputView>, binding: Binding): (r: seq<MarkerCandidate>)
    ensures forall m :: m in r ==> m.WellDetected()
  {
    if |outputs| == 0 then []
    else
      var index := |outputs| - 1;
      var rest := MarkerCandidates(txid, outputs[..index], binding);
      if index > U32_MAX then rest
      else
        var candidate := FindMarkerCandidate(outputs[index].scriptPubkey, index);
        if candidate.Some? && !(candidate.value.IsInitCandidate() && txid != binding.initTxid)
        then rest + [candidate.value] else rest
  }

  function Candidates(tx: TxView, binding: Binding): (r: seq<MarkerCandidate>)
    ensures forall m :: m in r ==> m.WellDetected()
  {
    MarkerCandidates(tx.txid, tx.outputs, binding)
  }

  // ---------- shared checks ----------

  predicate AllReplaceable(tx: TxView) { forall i :: 0 <= i < |tx.inputs| ==> tx.inputs[i].sequence == RBF_SEQUENCE }

  predicate AllSigned(tx: TxView) { forall i :: 0 <= i < |tx.inputs| ==> tx.inputs[i].signaturesValid }

  predicate AllConfirmed(tx: TxView, height: u64) {
    forall i :: 0 <= i < |tx.inputs| ==> tx.inputs[i].HasEarlierConfirmation(height)
  }

  predicate HeaderOk(tx: TxView) { tx.version == 2 && tx.lockTime == 0 }

  predicate OutputShapeOk(tx: TxView, marker: ParsedMarker, count: nat) {
    |tx.outputs| == count && marker.vout == 0 && !HasOtherOpReturn(tx, 0)
  }

  /** MARK: the revealed keys are the object's, and the sponsor is one of them. */
  predicate SponsorBound(revealed: KeyPair, sponsor: Key33, carrier: Option<Spend>) {
    (carrier.Some? ==> carrier.value.obj.keys == revealed) && revealed.Contains(sponsor)
  }

  /** ROTATE: the revealed keys are the object's, and the new pair differs from them. */
  predicate KeysReplaced(revealed: KeyPair, replacement: KeyPair, carrier: Option<Spend>) {
    (carrier.Some? ==> carrier.value.obj.keys == revealed) && revealed != replacement
  }

  // ---------- configured INIT ----------

  function ValidateMarkerHeader(c: Crypto, marker: ParsedMarker, binding: Binding, required: Opcode): Guard<Reason>
    requires marker.WellParsed()
  {
    if marker.version != VERSION then Fail(UnknownVersion)
    else if marker.network != binding.network.Code() then Fail(WrongNetwork)
    else if marker.opcode.None? then Fail(UnknownOpcode)
    else if marker.opcode.value != required then Fail(UnsupportedOrReservedField)
    else if marker.opcode.value != InitOp && marker.HashAt(8) != binding.Namespace(c) then Fail(WrongNamespace)
    else Pass
  }

  function ValidateConfiguredInit(c: Crypto, binding: Binding, height: u64, tx: TxView): Result<InitParams, Reason> {
    var candidates := Candidates(tx, binding);
    :- Need(|candidates| <= 1, MultipleMarkers);
    :- Need(|candidates| == 1, BadMarkerEncodingOrLength);
    var marker :- candidates[0].Parse();
    :- ValidateMarkerHeader(c, marker, binding, InitOp);
    var hOpen, hClose := marker.U32At(7), marker.U32At(11);
    :- Need(marker.U64At(15) == CARRIER_VALUE && marker.U32At(23) == REFUND_DELAY &&
            marker.HashAt(27) == binding.specHash, UnsupportedOrReservedField);
    :- Need(HeaderOk(tx), BadTxVersionOrLocktime);
    :- Need(|tx.inputs| == 1 && tx.inputs[0].sequence == U32_MAX, BadInputCountOrOrder);
    :- Need(OutputShapeOk(tx, marker, 2), BadOutputCountOrOrder);
    var input := tx.inputs[0];
    :- Need(input.HasEarlierConfirmation(height), UnconfirmedOrSameBlockPrevout);
    :- Need(input.P2wpkhRevealedKey().Some?, BadInputScript);
    var key :- OkOr(input.P2wpkhKey(c), BadKeyOrderOrBinding);
    :- Need(input.signaturesValid, BadSignatureOrSighash);
    :- Need(tx.outputs[0].value == 0 && tx.outputs[1].scriptPubkey == P2wpkhScript(c, key), BadOutputScriptOrValue);
    var fee := CheckedSub(input.prevoutValue, tx.outputs[1].value);
    :- Need(fee.Some? && fee.value > 0, NonpositiveOrInvalidFee);
    :- Need(tx.outputs[1].value >= CHANGE_FLOOR, BadFeeSplitOrChange);
    var expectedClose :- OkOr(CheckedAdd32(hOpen, FOUNDING_WINDOW), BadHeightOrPhase);
    :- Need(height <= U32_MAX, BadHeightOrPhase);
    var earliestOpen :- OkOr(CheckedAdd32(height, INIT_LEAD), BadHeightOrPhase);
    :- Need(expectedClose == hClose && earliestOpen <= hOpen, BadHeightOrPhase);
    Ok(InitParams(hOpen, hClose))
  }

  // ---------- marked operations ----------

  function ValidateSingle(
    c: Crypto, st: ChainState, height: u64, tx: TxView, marker: ParsedMarker, carrier: Option<Spend>)
    : Result<Operation, Reason>
    requires marker.WellParsed()
  {
    var version := marker.version;
    :- Need(version == VERSION, UnknownVersion);
    :- Need(marker.network == st.binding.network.Code(), WrongNetwork);
    var opcode :- OkOr(marker.opcode, UnknownOpcode);
    :- Need(opcode != InitOp ==> marker.HashAt(8) == st.binding.Namespace(c), WrongNamespace);
    match opcode
    case InitOp => Err(UnsupportedOrReservedField)
    case CreateOp => ValidateCreate(c, st.protocolStatus, height, tx, marker)
    case MarkOp => ValidateMark(c, height, tx, marker, carrier)
    case RotateOp => ValidateRotate(c, height, tx, marker, carrier)
    case CloseOp => ValidateClose(c, height, tx, marker, carrier)
  }

  function ValidateCreate(c: Crypto, status: ProtocolStatus, height: u64, tx: TxView, marker: ParsedMarker)
    : Result<Operation, Reason>
    requires marker.WellParsed() && marker.opcode == Some(CreateOp)
  {
    var payload := marker.payload;
    :- Need(payload[7] == 1, UnsupportedOrReservedField);
    :- Need(HeaderOk(tx), BadTxVersionOrLocktime);
    :- Need(|tx.inputs| == 2 && AllReplaceable(tx), BadInputCountOrOrder);
    :- Need(OutputShapeOk(tx, marker, 4), BadOutputCountOrOrder);
    :- Need(AllConfirmed(tx, height), UnconfirmedOrSameBlockPrevout);
    :- Need(tx.inputs[0].P2wpkhRevealedKey().Some? && tx.inputs[1].P2wpkhRevealedKey().Some?, BadInputScript);
    var key0 :- OkOr(tx.inputs[0].P2wpkhKey(c), BadKeyOrderOrBinding);
    var key1 :- OkOr(tx.inputs[1].P2wpkhKey(c), BadKeyOrderOrBinding);
    var keys :- OkOr(CheckedPair(c, key0, key1), BadKeyOrderOrBinding);
    :- Need(AllSigned(tx), BadSignatureOrSighash);
    :- Need(tx.outputs[0].value == 0 && tx.outputs[1].value == CARRIER_VALUE &&
            tx.outputs[1].scriptPubkey == keys.CarrierScript(c) &&
            tx.outputs[2].scriptPubkey == P2wpkhScript(c, key0) &&
            tx.outputs[3].scriptPubkey == P2wpkhScript(c, key1), BadOutputScriptOrValue);
    var debit0 :- OkOr(CheckedSub(tx.inputs[0].prevoutValue, tx.outputs[2].value), NonpositiveOrInvalidFee);
    var debit1 :- OkOr(CheckedSub(tx.inputs[1].prevoutValue, tx.outputs[3].value), NonpositiveOrInvalidFee);
    var total :- OkOr(CheckedAdd(debit0, debit1), NonpositiveOrInvalidFee);
    var fee :- OkOr(CheckedSub(total, CARRIER_VALUE), NonpositiveOrInvalidFee);
    :- Need(fee > 0, NonpositiveOrInvalidFee);
    :- Need(debit0 == 10_000 + (fee / 2 + fee % 2) && debit1 == 10_000 + fee / 2 &&
            tx.outputs[2].value >= CHANGE_FLOOR && tx.outputs[3].value >= CHANGE_FLOOR, BadFeeSplitOrChange);
    :- Need(status.Running?, BadHeightOrPhase);
    :- Need(height >= status.hOpen, BadHeightOrPhase);
    Ok(Create(keys))
  }

  function ValidateMark(c: Crypto, height: u64, tx: TxView, marker: ParsedMarker, carrier: Option<Spend>)
    : Result<Operation, Reason>
    requires marker.WellParsed() && marker.opcode == Some(MarkOp)
  {
    var payload := marker.payload;
    :- Need(payload[7] == 1 && payload[44] <= 5 && payload[45] == 0, UnsupportedOrReservedField);
    :- Need(HeaderOk(tx), BadTxVersionOrLocktime);
    :- Need(|tx.inputs| == 2 && AllReplaceable(tx) &&
            (carrier.Some? ==> carrier.value.index == 0), BadInputCountOrOrder);
    :- Need(OutputShapeOk(tx, marker, 3), BadOutputCountOrOrder);
    :- Need(AllConfirmed(tx, height), UnconfirmedOrSameBlockPrevout);
    :- Need(tx.inputs[0].CarrierRevealedKeys().Some? && tx.inputs[1].P2wpkhRevealedKey().Some?, BadInputScript);
    var carrierKeys :- OkOr(tx.inputs[0].CarrierKeys(c), BadKeyOrderOrBinding);
    var sponsor :- OkOr(tx.inputs[1].P2wpkhKey(c), BadKeyOrderOrBinding);
    :- Need(SponsorBound(carrierKeys, sponsor, carrier), BadKeyOrderOrBinding);
    :- Need(AllSigned(tx), BadSignatureOrSighash);
    :- Need(tx.outputs[0].value == 0 && tx.outputs[1].value == CARRIER_VALUE &&
            tx.outputs[2].scriptPubkey == P2wpkhScript(c, sponsor), BadOutputScriptOrValue);
    var fee :- OkOr(CheckedSub(tx.inputs[1].prevoutValue, tx.outputs[2].value), NonpositiveOrInvalidFee);
    :- Need(fee > 0, NonpositiveOrInvalidFee);
    :- Need(tx.outputs[2].value >= CHANGE_FLOOR, BadFeeSplitOrChange);
    :- Need(carrier.Some?, PredecessorNotActive);
    var obj := carrier.value.obj;
    :- Need(tx.inputs[0].prevout == obj.currentOutpoint, PredecessorNotActive);
    var sequence := marker.U32At(40);
    :- Need(CheckedAdd32(obj.stateSeq, 1) == Some(sequence), BadStateSequence);
    :- Need(tx.outputs[1].scriptPubkey == obj.keys.CarrierScript(c), BadSuccessor);
    var commitment := marker.HashAt(46);
    :- Need(!IsZero(commitment), BadCommitment);
    Ok(Mark(obj, sequence, commitment))
  }

  function ValidateRotate(c: Crypto, height: u64, tx: TxView, marker: ParsedMarker, carrier: Option<Spend>)
    : Result<Operation, Reason>
    requires marker.WellParsed() && marker.opcode == Some(RotateOp)
  {
    var payload := marker.payload;
    :- Need(payload[7] == 1, UnsupportedOrReservedField);
    :- Need(HeaderOk(tx), BadTxVersionOrLocktime);
    :- Need(|tx.inputs| == 3 && AllReplaceable(tx) &&
            (carrier.Some? ==> carrier.value.index == 0), BadInputCountOrOrder);
    :- Need(OutputShapeOk(tx, marker, 4), BadOutputCountOrOrder);
    :- Need(AllConfirmed(tx, height), UnconfirmedOrSameBlockPrevout);
    :- Need(tx.inputs[0].CarrierRevealedKeys().Some? && tx.inputs[1].P2wpkhRevealedKey().Some? &&
            tx.inputs[2].P2wpkhRevealedKey().Some?, BadInputScript);
    var oldKeys :- OkOr(tx.inputs[0].CarrierKeys(c), BadKeyOrderOrBinding);
    var key0 :- OkOr(tx.inputs[1].P2wpkhKey(c), BadKeyOrderOrBinding);
    var key1 :- OkOr(tx.inputs[2].P2wpkhKey(c), BadKeyOrderOrBinding);
    var keys :- OkOr(CheckedPair(c, key0, key1), BadKeyOrderOrBinding);
    :- Need(KeysReplaced(oldKeys, keys, carrier), BadKeyOrderOrBinding);
    :- Need(AllSigned(tx), BadSignatureOrSighash);
    :- Need(tx.outputs[0].value == 0 && tx.outputs[1].value == CARRIER_VALUE &&
            tx.outputs[2].scriptPubkey == P2wpkhScript(c, key0) &&
            tx.outputs[3].scriptPubkey == P2wpkhScript(c, key1), BadOutputScriptOrValue);
    var debit0 :- OkOr(CheckedSub(tx.inputs[1].prevoutValue, tx.outputs[2].value), NonpositiveOrInvalidFee);
    var debit1 :- OkOr(CheckedSub(tx.inputs[2].prevoutValue, tx.outputs[3].value), NonpositiveOrInvalidFee);
    var fee :- OkOr(CheckedAdd(debit0, debit1), NonpositiveOrInvalidFee);
    :- Need(fee > 0, NonpositiveOrInvalidFee);
    :- Need(debit0 == fee / 2 + fee % 2 && debit1 == fee / 2 &&
            tx.outputs[2].value >= CHANGE_FLOOR && tx.outputs[3].value >= CHANGE_FLOOR, BadFeeSplitOrChange);
    :- Need(carrier.Some?, PredecessorNotActive);
    var obj := carrier.value.obj;
    :- Need(tx.inputs[0].prevout == obj.currentOutpoint, PredecessorNotActive);
    var sequence := marker.U32At(40);
    :- Need(CheckedAdd32(obj.stateSeq, 1) == Some(sequence), BadStateSequence);
    :- Need(tx.outputs[1].scriptPubkey == keys.CarrierScript(c), BadSuccessor);
    Ok(Rotate(obj, sequence, keys))
  }

  function ValidateClose(c: Crypto, height: u64, tx: TxView, marker: ParsedMarker, carrier: Option<Spend>)
    : Result<Operation, Reason>
    requires marker.WellParsed() && marker.opcode == Some(CloseOp)
  {
    var payload := marker.payload;
    :- Need(payload[7] == 0xFF && payload[44] <= 3 && payload[45..48] == [0, 0, 0],
            UnsupportedOrReservedField);
    :- Need(HeaderOk(tx), BadTxVersionOrLocktime);
    :- Need(|tx.inputs| == 1 && tx.inputs[0].sequence == RBF_SEQUENCE && (carrier.Some? ==> carrier.value.index == 0),
            BadInputCountOrOrder);
    :- Need(OutputShapeOk(tx, marker, 3), BadOutputCountOrOrder);
    :- Need(AllConfirmed(tx, height), UnconfirmedOrSameBlockPrevout);
    :- Need(tx.inputs[0].CarrierRevealedKeys().Some?, BadInputScript);
    var keys :- OkOr(tx.inputs[0].CarrierKeys(c), BadKeyOrderOrBinding);
    :- Need(carrier.Some? ==> carrier.value.obj.keys == keys, BadKeyOrderOrBinding);
    :- Need(AllSigned(tx), BadSignatureOrSighash);
    :- Need(tx.outputs[0].value == 0 && tx.outputs[1].scriptPubkey == P2wpkhScript(c, keys.key0) &&
            tx.outputs[2].scriptPubkey == P2wpkhScript(c, keys.key1), BadOutputScriptOrValue);
    var outputs :- OkOr(CheckedAdd(tx.outputs[1].value, tx.outputs[2].value), NonpositiveOrInvalidFee);
    var fee :- OkOr(CheckedSub(CARRIER_VALUE, outputs), NonpositiveOrInvalidFee);
    :- Need(fee > 0, NonpositiveOrInvalidFee);
    :- Need(tx.outputs[1].value != 0 && tx.outputs[1].value == tx.outputs[2].value, BadFeeSplitOrChange);
    :- Need(carrier.Some?, PredecessorNotActive);
    var obj := carrier.value.obj;
    :- Need(tx.inputs[0].prevout == obj.currentOutpoint, PredecessorNotActive);
    var sequence := marker.U32At(40);
    :- Need(CheckedAdd32(obj.stateSeq, 1) == Some(sequence), BadStateSequence);
    Ok(Close(obj, sequence, marker.HashAt(48)))
  }

  // ---------- markerless refund ----------

  /** `confirmed.checked_add(REFUND_DELAY) > Some(height)` negated, where `None` sorts below every `Some`. */
  predicate MaturityGuard(confirmed: u64, height: u64) {
    var due := CheckedAdd(confirmed, REFUND_DELAY);
    due.None? || due.value <= height
  }

  predicate RefundAccepted(c: Crypto, height: u64, tx: TxView, obj: ObjectState) {
    HeaderOk(tx) && |tx.inputs| == 1 && |tx.outputs| == 2 &&
    !IsOpReturn(tx.outputs[0].scriptPubkey) && !IsOpReturn(tx.outputs[1].scriptPubkey) &&
    (var input := tx.inputs[0];
     input.sequence == REFUND_DELAY && input.prevout == obj.currentOutpoint &&
     input.HasEarlierConfirmation(height) && input.CarrierKeys(c) == Some(obj.keys) && input.signaturesValid &&
     MaturityGuard(input.prevoutHeight.value, height)) &&
    tx.outputs[0].scriptPubkey == P2wpkhScript(c, obj.keys.key0) &&
    tx.outputs[1].scriptPubkey == P2wpkhScript(c, obj.keys.key1) &&
    tx.outputs[0].value != 0 && tx.outputs[0].value == tx.outputs[1].value &&
    (var sum := CheckedAdd(tx.outputs[0].value, tx.outputs[1].value);
     sum.Some? && sum.value < CARRIER_VALUE)
  }

  /** The guard means "at least 52,560 blocks deep" for every confirmation below `height` exactly when
      `height` is small enough that the addition cannot overflow. */
  lemma MaturityGuardExact(height: u64)
    ensures (forall confirmed: u64 :: confirmed < height ==>
               (MaturityGuard(confirmed, height) <==> confirmed + REFUND_DELAY <= height)) <==>
            height <= U64_MAX - REFUND_DELAY + 1
  {
    if height > U64_MAX - REFUND_DELAY + 1 {
      var confirmed: u64 := U64_MAX - REFUND_DELAY + 1;
      assert MaturityGuard(confirmed, height);
    }
  }

  /** A concrete height at which an immature carrier passes the guard. */
  lemma MaturityGuardOverflows()
    ensures MaturityGuard(U64_MAX - 1, U64_MAX) && U64_MAX - 1 + REFUND_DELAY > U64_MAX
  {
  }

  // ---------- what acceptance establishes ----------

  /** The facts an accepted operation carries about its transaction, independent of rule order. */
  ghost predicate Justified(
    c: Crypto, status: ProtocolStatus, height: u64, tx: TxView, carrier: Option<Spend>, op: Operation) {
    match op
    case Create(keys) =>
      status.Running? && height >= status.hOpen && |tx.outputs| == 4 && |tx.inputs| == 2 &&
      (forall i :: 0 <= i < 2 ==> |tx.inputs[i].prevoutScript| == 22) &&
      tx.outputs[1] == OutputView(CARRIER_VALUE, keys.CarrierScript(c))
    case Mark(obj, sequence, _) =>
      carrier == Some(Spend(0, obj)) && Advances(tx, height, obj, sequence) && |tx.outputs| == 3 &&
      |tx.inputs| == 2 && tx.outputs[1] == OutputView(CARRIER_VALUE, obj.keys.CarrierScript(c))
    case Rotate(obj, sequence, keys) =>
      carrier == Some(Spend(0, obj)) && Advances(tx, height, obj, sequence) && |tx.outputs| == 4 &&
      |tx.inputs| == 3 && tx.outputs[1] == OutputView(CARRIER_VALUE, keys.CarrierScript(c))
    case Close(obj, sequence, _) =>
      carrier == Some(Spend(0, obj)) && Advances(tx, height, obj, sequence) && |tx.outputs| == 3 && |tx.inputs| == 1
  }

  ghost predicate Advances(tx: TxView, height: u64, obj: ObjectState, sequence: u32) {
    |tx.inputs| > 0 && tx.inputs[0].prevout == obj.currentOutpoint &&
    tx.inputs[0].HasEarlierConfirmation(height) && sequence == obj.stateSeq + 1
  }

  lemma CreateIsJustified(
    c: Crypto, status: ProtocolStatus, height: u64, tx: TxView, marker: ParsedMarker, carrier: Option<Spend>)
    requires marker.WellParsed() && marker.opcode == Some(CreateOp)
    ensures var r := ValidateCreate(c, status, height, tx, marker);
            r.Ok? ==> Justified(c, status, height, tx, carrier, r.value)
  {
  }

  lemma MarkIsJustified(
    c: Crypto, status: ProtocolStatus, height: u64, tx: TxView, marker: ParsedMarker, carrier: Option<Spend>)
    requires marker.WellParsed() && marker.opcode == Some(MarkOp)
    ensures var r := ValidateMark(c, height, tx, marker, carrier);
            r.Ok? ==> Justified(c, status, height, tx, carrier, r.value)
  {
  }

  lemma RotateIsJustified(
    c: Crypto, status: ProtocolStatus, height: u64, tx: TxView, marker: ParsedMarker, carrier: Option<Spend>)
    requires marker.WellParsed() && marker.opcode == Some(RotateOp)
    ensures var r := ValidateRotate(c, height, tx, marker, carrier);
            r.Ok? ==> Justified(c, status, height, tx, carrier, r.value)
  {
  }

  lemma CloseIsJustified(
    c: Crypto, status: ProtocolStatus, height: u64, tx: TxView, marker: ParsedMarker, carrier: Option<Spend>)
    requires marker.WellParsed() && marker.opcode == Some(CloseOp)
    ensures var r := ValidateClose(c, height, tx, marker, carrier);
            r.Ok? ==> Justified(c, status, height, tx, carrier, r.value)
  {
  }

  lemma AcceptedIsJustified(
    c: Crypto, st: ChainState, height: u64, tx: TxView, marker: ParsedMarker, carrier: Option<Spend>)
    requires marker.WellParsed()
    ensures var r := ValidateSingle(c, st, height, tx, marker, carrier);
            r.Ok? ==> Justified(c, st.protocolStatus, height, tx, carrier, r.value)
  {
    hide ValidateCreate, ValidateMark, ValidateRotate, ValidateClose, Justified;
    match marker.opcode
    case Some(CreateOp) => CreateIsJustified(c, st.protocolStatus, height, tx, marker, carrier);
    case Some(MarkOp) => MarkIsJustified(c, st.protocolStatus, height, tx, marker, carrier);
    case Some(RotateOp) => RotateIsJustified(c, st.protocolStatus, height, tx, marker, carrier);
    case Some(CloseOp) => CloseIsJustified(c, st.protocolStatus, height, tx, marker, carrier);
    case _ =>
  }
}
