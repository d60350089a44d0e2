/** The rule table of marked operations, stated on the fields of the transaction and the bytes of the payload without
    any order, and the proof that the validators report the least broken rule. The table shares no check with the
    validators; keys are what the decoders of module `Types` resolve, whose own exact meaning is proved there. A rule
    about something the transaction lacks counts as broken. */
module Rules {
  import opened Primitives
  import opened Types
  import opened Marker
  import opened Validators
  import opened Sorting
  import opened Reducer
  import opened EventLog

  // ---------- transaction fields ----------

  predicate VersionOk(tx: TxView) { tx.version == 2 && tx.lockTime == 0 }

  predicate SequencesAre(tx: TxView, sequence: u32) {
    forall i :: 0 <= i < |tx.inputs| ==> tx.inputs[i].sequence == sequence
  }

  predicate ConfirmedOk(tx: TxView, height: u64) {
    forall i :: 0 <= i < |tx.inputs| ==> tx.inputs[i].prevoutHeight.Some? && tx.inputs[i].prevoutHeight.value < height
  }

  predicate SignedOk(tx: TxView) { forall i :: 0 <= i < |tx.inputs| ==> tx.inputs[i].signaturesValid }

  /** The marker is output 0 and no later output is an OP_RETURN. */
  predicate ShapeOk(tx: TxView, marker: ParsedMarker, count: nat) {
    |tx.outputs| == count && marker.vout == 0 &&
    forall i :: 1 <= i < |tx.outputs| ==> |tx.outputs[i].scriptPubkey| == 0 || tx.outputs[i].scriptPubkey[0] != 0x6A
  }

  /** The validators' helpers check exactly these fields. */
  lemma FieldChecks(tx: TxView, height: u64, marker: ParsedMarker, count: nat)
    ensures HeaderOk(tx) <==> VersionOk(tx)
    ensures AllReplaceable(tx) <==> SequencesAre(tx, 0xFFFF_FFFD)
    ensures AllConfirmed(tx, height) <==> ConfirmedOk(tx, height)
    ensures AllSigned(tx) <==> SignedOk(tx)
    ensures OutputShapeOk(tx, marker, count) <==> ShapeOk(tx, marker, count)
    ensures ShapeOk(tx, marker, count) ==> |tx.outputs| == count
  {
    if AllConfirmed(tx, height) {
      forall i | 0 <= i < |tx.inputs|
        ensures tx.inputs[i].prevoutHeight.Some? && tx.inputs[i].prevoutHeight.value < height
      {
        assert tx.inputs[i].HasEarlierConfirmation(height);
      }
    }
    if OutputShapeOk(tx, marker, count) {
      forall i | 1 <= i < |tx.outputs|
        ensures |tx.outputs[i].scriptPubkey| == 0 || tx.outputs[i].scriptPubkey[0] != 0x6A
      {
        assert i != 0;
        assert !IsOpReturn(tx.outputs[i].scriptPubkey);
      }
    }
  }

  lemma OneSequence(tx: TxView, sequence: u32)
    ensures |tx.inputs| == 1 ==> (SequencesAre(tx, sequence) <==> tx.inputs[0].sequence == sequence)
  {
  }

  lemma OneInput(tx: TxView, height: u64)
    ensures |tx.inputs| == 1 ==> (ConfirmedOk(tx, height) <==> tx.inputs[0].HasEarlierConfirmation(height))
    ensures |tx.inputs| == 1 ==> (SignedOk(tx) <==> tx.inputs[0].signaturesValid)
    ensures |tx.inputs| == 1 ==> (SequencesAre(tx, 0xFFFF_FFFF) <==> tx.inputs[0].sequence == U32_MAX)
  {
  }

  lemma ZeroBytes(payload: Bytes)
    requires |payload| >= 78
    ensures payload[46..78] != ZERO_HASH <==> exists i :: 46 <= i < 78 && payload[i] != 0
  {
    var h := payload[46..78];
    if h != ZERO_HASH {
      var j :| 0 <= j < 32 && h[j] != ZERO_HASH[j];
      assert ZERO_HASH[j] == 0 && payload[46 + j] != 0;
    }
    if i :| 46 <= i < 78 && payload[i] != 0 { assert h[i - 46] == payload[i] && ZERO_HASH[i - 46] == 0; }
  }

  // ---------- roles ----------

  datatype Role = KeyInput | CarrierInput

  /** The inputs each operation takes, in order. */
  function Roles(op: Opcode): seq<Role> {
    match op
    case InitOp => [KeyInput]
    case CreateOp => [KeyInput, KeyInput]
    case MarkOp => [CarrierInput, KeyInput]
    case RotateOp => [CarrierInput, KeyInput, KeyInput]
    case CloseOp => [CarrierInput]
  }

  function OutputCount(op: Opcode): nat {
    match op case InitOp => 2 case CreateOp => 4 case MarkOp => 3 case RotateOp => 4 case CloseOp => 3
  }

  predicate Reveals(role: Role, input: InputView) {
    match role
    case KeyInput => input.P2wpkhRevealedKey().Some?
    case CarrierInput => input.CarrierRevealedKeys().Some?
  }

  /** Every required input is there and reveals what its role needs. */
  predicate ScriptsOk(tx: TxView, op: Opcode) {
    |tx.inputs| >= |Roles(op)| && forall i :: 0 <= i < |Roles(op)| ==> Reveals(Roles(op)[i], tx.inputs[i])
  }

  lemma ScriptsByRole(tx: TxView)
    ensures ScriptsOk(tx, CreateOp) <==>
            |tx.inputs| >= 2 && tx.inputs[0].P2wpkhRevealedKey().Some? && tx.inputs[1].P2wpkhRevealedKey().Some?
    ensures ScriptsOk(tx, MarkOp) <==>
            |tx.inputs| >= 2 && tx.inputs[0].CarrierRevealedKeys().Some? && tx.inputs[1].P2wpkhRevealedKey().Some?
    ensures ScriptsOk(tx, RotateOp) <==>
            |tx.inputs| >= 3 && tx.inputs[0].CarrierRevealedKeys().Some? && tx.inputs[1].P2wpkhRevealedKey().Some? &&
            tx.inputs[2].P2wpkhRevealedKey().Some?
    ensures ScriptsOk(tx, CloseOp) <==> |tx.inputs| >= 1 && tx.inputs[0].CarrierRevealedKeys().Some?
    ensures ScriptsOk(tx, InitOp) <==> |tx.inputs| >= 1 && tx.inputs[0].P2wpkhRevealedKey().Some?
  {
    assert Roles(CreateOp)[0] == KeyInput && Roles(CreateOp)[1] == KeyInput;
    assert Roles(MarkOp)[0] == CarrierInput && Roles(MarkOp)[1] == KeyInput;
    assert Roles(RotateOp)[0] == CarrierInput && Roles(RotateOp)[1] == KeyInput && Roles(RotateOp)[2] == KeyInput;
    assert Roles(CloseOp)[0] == CarrierInput && Roles(InitOp)[0] == KeyInput;
  }

  /** Mode byte, class bound and reserved zero bytes. */
  predicate FieldsOk(marker: ParsedMarker)
    requires marker.WellParsed() && marker.opcode.Some? && marker.opcode != Some(InitOp)
  {
    var p := marker.payload;
    match marker.opcode.value
    case CloseOp => p[7] == 0xFF && p[44] <= 3 && p[45] == 0 && p[46] == 0 && p[47] == 0
    case MarkOp => p[7] == 1 && p[44] <= 5 && p[45] == 0
    case CreateOp => p[7] == 1
    case RotateOp => p[7] == 1
    case InitOp => false
  }

  // ---------- what the inputs resolve to ----------

  function KeyAt(c: Crypto, tx: TxView, i: nat): Option<Key33> {
    if i < |tx.inputs| then tx.inputs[i].P2wpkhKey(c) else None
  }

  function PairAt(c: Crypto, tx: TxView, i: nat): Option<KeyPair> {
    if KeyAt(c, tx, i).Some? && KeyAt(c, tx, i + 1).Some? then
      CheckedPair(c, KeyAt(c, tx, i).value, KeyAt(c, tx, i + 1).value)
    else None
  }

  function CarrierPair(c: Crypto, tx: TxView): Option<KeyPair> {
    if |tx.inputs| > 0 then tx.inputs[0].CarrierKeys(c) else None
  }

  predicate KeysOk(c: Crypto, tx: TxView, op: Opcode, carrier: Option<Spend>) {
    match op
    case InitOp => KeyAt(c, tx, 0).Some?
    case CreateOp => PairAt(c, tx, 0).Some?
    case MarkOp =>
      CarrierPair(c, tx).Some? && KeyAt(c, tx, 1).Some? &&
      (KeyAt(c, tx, 1).value == CarrierPair(c, tx).value.key0 ||
       KeyAt(c, tx, 1).value == CarrierPair(c, tx).value.key1) &&
      (carrier.Some? ==> carrier.value.obj.keys == CarrierPair(c, tx).value)
    case RotateOp =>
      CarrierPair(c, tx).Some? && PairAt(c, tx, 1).Some? && CarrierPair(c, tx).value != PairAt(c, tx, 1).value &&
      (carrier.Some? ==> carrier.value.obj.keys == CarrierPair(c, tx).value)
    case CloseOp => CarrierPair(c, tx).Some? && (carrier.Some? ==> carrier.value.obj.keys == CarrierPair(c, tx).value)
  }

  // ---------- outputs and money, over unbounded integers ----------

  predicate PaysKey(c: Crypto, tx: TxView, vout: nat, key: Option<Key33>) {
    vout < |tx.outputs| && key.Some? && tx.outputs[vout].scriptPubkey == [0x00, 0x14] + c.hash160(key.value)
  }

  predicate OutputsOk(c: Crypto, tx: TxView, op: Opcode) {
    |tx.outputs| == OutputCount(op) && tx.outputs[0].value == 0 &&
    match op
    case InitOp => PaysKey(c, tx, 1, KeyAt(c, tx, 0))
    case CreateOp =>
      PairAt(c, tx, 0).Some? && tx.outputs[1] == OutputView(20_000, PairAt(c, tx, 0).value.CarrierScript(c)) &&
      PaysKey(c, tx, 2, KeyAt(c, tx, 0)) && PaysKey(c, tx, 3, KeyAt(c, tx, 1))
    case MarkOp => tx.outputs[1].value == 20_000 && PaysKey(c, tx, 2, KeyAt(c, tx, 1))
    case RotateOp =>
      tx.outputs[1].value == 20_000 && PaysKey(c, tx, 2, KeyAt(c, tx, 1)) && PaysKey(c, tx, 3, KeyAt(c, tx, 2))
    case CloseOp =>
      CarrierPair(c, tx).Some? && PaysKey(c, tx, 1, Some(CarrierPair(c, tx).value.key0)) &&
      PaysKey(c, tx, 2, Some(CarrierPair(c, tx).value.key1))
  }

  /** What input `i` pays beyond its change at output `o`. */
  function Debit(tx: TxView, i: nat, o: nat): int {
    if i < |tx.inputs| && o < |tx.outputs| then tx.inputs[i].prevoutValue - tx.outputs[o].value else -1
  }

  predicate FeeOk(tx: TxView, op: Opcode) {
    match op
    case InitOp => Debit(tx, 0, 1) > 0
    case CreateOp =>
      Debit(tx, 0, 2) >= 0 && Debit(tx, 1, 3) >= 0 && 20_000 < Debit(tx, 0, 2) + Debit(tx, 1, 3) <= U64_MAX
    case MarkOp => Debit(tx, 1, 2) > 0
    case RotateOp => Debit(tx, 1, 2) >= 0 && Debit(tx, 2, 3) >= 0 && 0 < Debit(tx, 1, 2) + Debit(tx, 2, 3) <= U64_MAX
    case CloseOp => |tx.outputs| > 2 && tx.outputs[1].value + tx.outputs[2].value < 20_000
  }

  predicate ChangeOk(tx: TxView, vout: nat) { vout < |tx.outputs| && tx.outputs[vout].value >= 1_000 }

  /** Two payers share the fee, the first paying the odd satoshi; equal payouts on CLOSE. */
  predicate SplitOk(tx: TxView, op: Opcode) {
    match op
    case InitOp => ChangeOk(tx, 1)
    case CreateOp =>
      Debit(tx, 0, 2) - Debit(tx, 1, 3) == (Debit(tx, 0, 2) + Debit(tx, 1, 3)) % 2 && ChangeOk(tx, 2) && ChangeOk(tx, 3)
    case MarkOp => ChangeOk(tx, 2)
    case RotateOp =>
      Debit(tx, 1, 2) - Debit(tx, 2, 3) == (Debit(tx, 1, 2) + Debit(tx, 2, 3)) % 2 && ChangeOk(tx, 2) && ChangeOk(tx, 3)
    case CloseOp => |tx.outputs| > 2 && tx.outputs[1].value == tx.outputs[2].value && tx.outputs[1].value > 0
  }

  // ---------- the object ----------

  predicate PredecessorOk(tx: TxView, op: Opcode, carrier: Option<Spend>) {
    op == CreateOp ||
    (carrier.Some? && |tx.inputs| > 0 && tx.inputs[0].prevout == carrier.value.obj.currentOutpoint)
  }

  predicate SequenceOk(marker: ParsedMarker, op: Opcode, carrier: Option<Spend>) {
    op == CreateOp ||
    (carrier.Some? && carrier.value.obj.stateSeq < 0xFFFF_FFFF && |marker.payload| >= 44 &&
     marker.payload[40..44] == LE(carrier.value.obj.stateSeq + 1, 4))
  }

  predicate SuccessorOk(c: Crypto, tx: TxView, op: Opcode, carrier: Option<Spend>) {
    match op
    case MarkOp => carrier.Some? && |tx.outputs| > 1 &&
      tx.outputs[1].scriptPubkey == carrier.value.obj.keys.CarrierScript(c)
    case RotateOp => PairAt(c, tx, 1).Some? && |tx.outputs| > 1 &&
      tx.outputs[1].scriptPubkey == PairAt(c, tx, 1).value.CarrierScript(c)
    case _ => true
  }

  predicate InputsOk(tx: TxView, op: Opcode, carrier: Option<Spend>) {
    |tx.inputs| == |Roles(op)| && SequencesAre(tx, 0xFFFF_FFFD) &&
    (op != CreateOp && carrier.Some? ==> carrier.value.index == 0)
  }

  predicate CommitmentOk(marker: ParsedMarker)
    requires marker.WellParsed()
  {
    marker.opcode == Some(MarkOp) ==> exists i :: 46 <= i < 78 && marker.payload[i] != 0
  }

  predicate PhaseOk(op: Opcode, status: ProtocolStatus, height: u64) {
    op == CreateOp ==> status.Running? && height >= status.hOpen
  }

  // ---------- the table ----------

  /** Whether the transaction, carrying a parsed marker of operation `op`, breaks the rule with code `r`. */
  ghost predicate BreaksOperation(
    c: Crypto, status: ProtocolStatus, height: u64, tx: TxView, marker: ParsedMarker, carrier: Option<Spend>, r: Reason)
    requires marker.WellParsed() && marker.opcode.Some? && marker.opcode != Some(InitOp)
  {
    var op := marker.opcode.value;
    match r
    case UnsupportedOrReservedField => !FieldsOk(marker)
    case BadTxVersionOrLocktime => !VersionOk(tx)
    case BadInputCountOrOrder => !InputsOk(tx, op, carrier)
    case BadOutputCountOrOrder => !ShapeOk(tx, marker, OutputCount(op))
    case UnconfirmedOrSameBlockPrevout => !ConfirmedOk(tx, height)
    case BadInputScript => !ScriptsOk(tx, op)
    case BadKeyOrderOrBinding => !KeysOk(c, tx, op, carrier)
    case BadSignatureOrSighash => !SignedOk(tx)
    case BadOutputScriptOrValue => !OutputsOk(c, tx, op)
    case NonpositiveOrInvalidFee => !FeeOk(tx, op)
    case BadFeeSplitOrChange => !SplitOk(tx, op)
    case PredecessorNotActive => !PredecessorOk(tx, op, carrier)
    case BadStateSequence => !SequenceOk(marker, op, carrier)
    case BadSuccessor => !SuccessorOk(c, tx, op, carrier)
    case BadCommitment => !CommitmentOk(marker)
    case BadHeightOrPhase => !PhaseOk(op, status, height)
    case _ => false
  }

  /** The table for a parsed marker: header rules, then those of its operation. */
  ghost predicate BreaksMarked(
    c: Crypto, st: ChainState, height: u64, tx: TxView, marker: ParsedMarker, carrier: Option<Spend>, r: Reason)
    requires marker.WellParsed()
  {
    match r
    case UnknownVersion => marker.version != 1
    case WrongNetwork => marker.network != st.binding.network.Code()
    case UnknownOpcode => marker.opcode.None?
    case WrongNamespace =>
      marker.opcode.Some? && marker.opcode != Some(InitOp) && marker.payload[8..40] != st.binding.Namespace(c)
    case _ =>
      if marker.opcode == Some(InitOp) then r == UnsupportedOrReservedField
      else marker.opcode.Some? && BreaksOperation(c, st.protocolStatus, height, tx, marker, carrier, r)
  }

  /** The whole table for a transaction with one marker candidate. */
  ghost predicate Breaks(
    c: Crypto, st: ChainState, height: u64, tx: TxView, candidate: MarkerCandidate, carrier: Option<Spend>, r: Reason)
    requires candidate.WellDetected()
  {
    var parsed := candidate.Parse();
    if parsed.Err? then r == BadMarkerEncodingOrLength
    else BreaksMarked(c, st, height, tx, parsed.value, carrier, r)
  }

  /** The table read from the least code up. */
  function FirstBroken(
    c: Crypto, status: ProtocolStatus, height: u64, tx: TxView, marker: ParsedMarker,
    carrier: Option<Spend>): Option<Reason>
    requires marker.WellParsed() && marker.opcode.Some? && marker.opcode != Some(InitOp)
  {
    var op := marker.opcode.value;
    if !FieldsOk(marker) then Some(UnsupportedOrReservedField)
    else if !VersionOk(tx) then Some(BadTxVersionOrLocktime)
    else if !InputsOk(tx, op, carrier) then Some(BadInputCountOrOrder)
    else if !ShapeOk(tx, marker, OutputCount(op)) then Some(BadOutputCountOrOrder)
    else if !ConfirmedOk(tx, height) then Some(UnconfirmedOrSameBlockPrevout)
    else if !ScriptsOk(tx, op) then Some(BadInputScript)
    else if !KeysOk(c, tx, op, carrier) then Some(BadKeyOrderOrBinding)
    else if !SignedOk(tx) then Some(BadSignatureOrSighash)
    else if !OutputsOk(c, tx, op) then Some(BadOutputScriptOrValue)
    else if !FeeOk(tx, op) then Some(NonpositiveOrInvalidFee)
    else if !SplitOk(tx, op) then Some(BadFeeSplitOrChange)
    else if !PredecessorOk(tx, op, carrier) then Some(PredecessorNotActive)
    else if !SequenceOk(marker, op, carrier) then Some(BadStateSequence)
    else if !SuccessorOk(c, tx, op, carrier) then Some(BadSuccessor)
    else if !CommitmentOk(marker) then Some(BadCommitment)
    else if !PhaseOk(op, status, height) then Some(BadHeightOrPhase)
    else None
  }

  lemma FirstBrokenIsLeast(
    c: Crypto, status: ProtocolStatus, height: u64, tx: TxView, marker: ParsedMarker, carrier: Option<Spend>, r: Reason)
    requires marker.WellParsed() && marker.opcode.Some? && marker.opcode != Some(InitOp)
    ensures var first := FirstBroken(c, status, height, tx, marker, carrier);
            (first == Some(r) ==> BreaksOperation(c, status, height, tx, marker, carrier, r)) &&
            (BreaksOperation(c, status, height, tx, marker, carrier, r) ==>
             first.Some? && first.value.Code() <= r.Code())
  {
    hide FieldsOk, VersionOk, InputsOk, ShapeOk, ConfirmedOk, ScriptsOk, KeysOk, SignedOk, OutputsOk, FeeOk, SplitOk,
         PredecessorOk, SequenceOk, SuccessorOk, CommitmentOk, PhaseOk, OutputCount;
  }

  // ---------- the table's rows as the validators check them ----------

  lemma PaysKeyIs(c: Crypto, tx: TxView)
    ensures forall vout: nat, key: Key33 :: PaysKey(c, tx, vout, Some(key)) <==>
              vout < |tx.outputs| && tx.outputs[vout].scriptPubkey == P2wpkhScript(c, key)
    ensures forall vout: nat, key: Option<Key33> :: PaysKey(c, tx, vout, key) ==> key.Some?
  {
    forall vout: nat, key: Key33
      ensures PaysKey(c, tx, vout, Some(key)) <==>
              vout < |tx.outputs| && tx.outputs[vout].scriptPubkey == P2wpkhScript(c, key)
    {
      KeyScriptIs(c, key);
    }
  }

  lemma KeyScriptIs(c: Crypto, key: Key33)
    ensures P2wpkhScript(c, key) == [0x00, 0x14] + c.hash160(key)
  {
  }

  lemma SequenceIs(marker: ParsedMarker, carrier: Option<Spend>)
    requires marker.WellParsed() && marker.opcode.Some? && marker.opcode != Some(InitOp)
    ensures var op := marker.opcode.value;
            SequenceOk(marker, op, carrier) <==>
            op == CreateOp || (carrier.Some? && CheckedAdd32(carrier.value.obj.stateSeq, 1) == Some(marker.U32At(40)))
  {
    if marker.opcode != Some(CreateOp) && carrier.Some? && carrier.value.obj.stateSeq < U32_MAX {
      FieldBytes(marker, 40, carrier.value.obj.stateSeq + 1);
    }
  }

  lemma CommitmentIs(marker: ParsedMarker)
    requires marker.WellParsed()
    ensures CommitmentOk(marker) <==> (marker.opcode == Some(MarkOp) ==> !IsZero(marker.HashAt(46)))
  {
    if marker.opcode == Some(MarkOp) { ZeroBytes(marker.payload); }
  }

  /** The validator's reported reason, if any. */
  function ErrorOf(v: Result<Operation, Reason>): Option<Reason> { if v.Err? then Some(v.error) else None }

  lemma CreateReportsFirst(
    c: Crypto, status: ProtocolStatus, height: u64, tx: TxView, marker: ParsedMarker, carrier: Option<Spend>)
    requires marker.WellParsed() && marker.opcode == Some(CreateOp)
    ensures ErrorOf(ValidateCreate(c, status, height, tx, marker)) ==
            FirstBroken(c, status, height, tx, marker, carrier)
  {
    hide HeaderOk, AllReplaceable, AllSigned, AllConfirmed, OutputShapeOk, VersionOk, SequencesAre, ConfirmedOk,
         SignedOk, ShapeOk, ScriptsOk, CheckedPair, PaysKey, P2wpkhScript, SequenceOk, CommitmentOk, CheckedAdd32,
         IsZero, InputView.P2wpkhKey, InputView.P2wpkhRevealedKey, InputView.CarrierKeys, InputView.CarrierRevealedKeys,
         KeyPair.CarrierScript;
    ScriptsByRole(tx);
    FieldChecks(tx, height, marker, 4);
    PaysKeyIs(c, tx);
    SequenceIs(marker, carrier);
    CommitmentIs(marker);
  }

  lemma MarkReportsFirst(
    c: Crypto, status: ProtocolStatus, height: u64, tx: TxView, marker: ParsedMarker, carrier: Option<Spend>)
    requires marker.WellParsed() && marker.opcode == Some(MarkOp)
    ensures ErrorOf(ValidateMark(c, height, tx, marker, carrier)) == FirstBroken(c, status, height, tx, marker, carrier)
  {
    hide HeaderOk, AllReplaceable, AllSigned, AllConfirmed, OutputShapeOk, VersionOk, SequencesAre, ConfirmedOk,
         SignedOk, ShapeOk, ScriptsOk, CheckedPair, PaysKey, P2wpkhScript, SequenceOk, CommitmentOk, CheckedAdd32,
         IsZero, InputView.P2wpkhKey, InputView.P2wpkhRevealedKey, InputView.CarrierKeys, InputView.CarrierRevealedKeys,
         KeyPair.CarrierScript;
    ScriptsByRole(tx);
    FieldChecks(tx, height, marker, 3);
    PaysKeyIs(c, tx);
    SequenceIs(marker, carrier);
    CommitmentIs(marker);
  }

  lemma RotateReportsFirst(
    c: Crypto, status: ProtocolStatus, height: u64, tx: TxView, marker: ParsedMarker, carrier: Option<Spend>)
    requires marker.WellParsed() && marker.opcode == Some(RotateOp)
    ensures ErrorOf(ValidateRotate(c, height, tx, marker, carrier)) ==
            FirstBroken(c, status, height, tx, marker, carrier)
  {
    hide HeaderOk, AllReplaceable, AllSigned, AllConfirmed, OutputShapeOk, VersionOk, SequencesAre, ConfirmedOk,
         SignedOk, ShapeOk, ScriptsOk, CheckedPair, PaysKey, P2wpkhScript, SequenceOk, CommitmentOk, CheckedAdd32,
         IsZero, InputView.P2wpkhKey, InputView.P2wpkhRevealedKey, InputView.CarrierKeys, InputView.CarrierRevealedKeys,
         KeyPair.CarrierScript;
    ScriptsByRole(tx);
    FieldChecks(tx, height, marker, 4);
    PaysKeyIs(c, tx);
    SequenceIs(marker, carrier);
    CommitmentIs(marker);
  }

  lemma CloseReportsFirst(
    c: Crypto, status: ProtocolStatus, height: u64, tx: TxView, marker: ParsedMarker, carrier: Option<Spend>)
    requires marker.WellParsed() && marker.opcode == Some(CloseOp)
    ensures ErrorOf(ValidateClose(c, height, tx, marker, carrier)) ==
            FirstBroken(c, status, height, tx, marker, carrier)
  {
    hide HeaderOk, AllReplaceable, AllSigned, AllConfirmed, OutputShapeOk, VersionOk, SequencesAre, ConfirmedOk,
         SignedOk, ShapeOk, ScriptsOk, CheckedPair, PaysKey, P2wpkhScript, SequenceOk, CommitmentOk, CheckedAdd32,
         IsZero, InputView.P2wpkhKey, InputView.P2wpkhRevealedKey, InputView.CarrierKeys, InputView.CarrierRevealedKeys,
         KeyPair.CarrierScript;
    ScriptsByRole(tx);
    FieldChecks(tx, height, marker, 3);
    PaysKeyIs(c, tx);
    SequenceIs(marker, carrier);
    CommitmentIs(marker);
    OneSequence(tx, 0xFFFF_FFFD);
  }

  lemma OperationReportsFirst(
    c: Crypto, st: ChainState, height: u64, tx: TxView, marker: ParsedMarker, carrier: Option<Spend>)
    requires marker.WellParsed() && marker.opcode.Some? && marker.opcode != Some(InitOp)
    requires marker.version == VERSION && marker.network == st.binding.network.Code() &&
             marker.HashAt(8) == st.binding.Namespace(c)
    ensures ErrorOf(ValidateSingle(c, st, height, tx, marker, carrier)) ==
            FirstBroken(c, st.protocolStatus, height, tx, marker, carrier)
  {
    hide ValidateCreate, ValidateMark, ValidateRotate, ValidateClose, FirstBroken;
    match marker.opcode.value
    case CreateOp => CreateReportsFirst(c, st.protocolStatus, height, tx, marker, carrier);
    case MarkOp => MarkReportsFirst(c, st.protocolStatus, height, tx, marker, carrier);
    case RotateOp => RotateReportsFirst(c, st.protocolStatus, height, tx, marker, carrier);
    case CloseOp => CloseReportsFirst(c, st.protocolStatus, height, tx, marker, carrier);
  }

  lemma OperationCodes(
    c: Crypto, status: ProtocolStatus, height: u64, tx: TxView, marker: ParsedMarker, carrier: Option<Spend>, r: Reason)
    requires marker.WellParsed() && marker.opcode.Some? && marker.opcode != Some(InitOp)
    requires BreaksOperation(c, status, height, tx, marker, carrier, r)
    ensures r.Code() >= UnsupportedOrReservedField.Code()
  {
    FirstBrokenIsLeast(c, status, height, tx, marker, carrier, r);
  }

  function FirstBrokenMarked(
    c: Crypto, st: ChainState, height: u64, tx: TxView, marker: ParsedMarker, carrier: Option<Spend>)
    : Option<Reason>
    requires marker.WellParsed()
  {
    if marker.version != VERSION then Some(UnknownVersion)
    else if marker.network != st.binding.network.Code() then Some(WrongNetwork)
    else if marker.opcode.None? then Some(UnknownOpcode)
    else if marker.opcode == Some(InitOp) then Some(UnsupportedOrReservedField)
    else if marker.HashAt(8) != st.binding.Namespace(c) then Some(WrongNamespace)
    else FirstBroken(c, st.protocolStatus, height, tx, marker, carrier)
  }

  lemma SingleReportsFirst(
    c: Crypto, st: ChainState, height: u64, tx: TxView, marker: ParsedMarker, carrier: Option<Spend>)
    requires marker.WellParsed()
    ensures ErrorOf(ValidateSingle(c, st, height, tx, marker, carrier)) ==
            FirstBrokenMarked(c, st, height, tx, marker, carrier)
  {
    hide ValidateCreate, ValidateMark, ValidateRotate, ValidateClose, FirstBroken;
    if marker.opcode.Some? && marker.opcode != Some(InitOp) && marker.version == VERSION &&
       marker.network == st.binding.network.Code() && marker.HashAt(8) == st.binding.Namespace(c) {
      OperationReportsFirst(c, st, height, tx, marker, carrier);
    }
  }

  lemma FirstBrokenCode(
    c: Crypto, status: ProtocolStatus, height: u64, tx: TxView, marker: ParsedMarker, carrier: Option<Spend>)
    requires marker.WellParsed() && marker.opcode.Some? && marker.opcode != Some(InitOp)
    ensures var first := FirstBroken(c, status, height, tx, marker, carrier);
            first.Some? ==> first.value.Code() >= UnsupportedOrReservedField.Code()
  {
    hide FieldsOk, VersionOk, InputsOk, ShapeOk, ConfirmedOk, ScriptsOk, KeysOk, SignedOk, OutputsOk, FeeOk, SplitOk,
         PredecessorOk, SequenceOk, SuccessorOk, CommitmentOk, PhaseOk, OutputCount;
  }

  /** The first broken rule is broken, and no broken rule has a smaller code. */
  lemma FirstBrokenMarkedIsLeast(
    c: Crypto, st: ChainState, height: u64, tx: TxView, marker: ParsedMarker, carrier: Option<Spend>, r: Reason)
    requires marker.WellParsed()
    ensures var first := FirstBrokenMarked(c, st, height, tx, marker, carrier);
            (first == Some(r) ==> BreaksMarked(c, st, height, tx, marker, carrier, r)) &&
            (BreaksMarked(c, st, height, tx, marker, carrier, r) ==> first.Some? && first.value.Code() <= r.Code())
  {
    hide BreaksOperation, FirstBroken;
    if marker.opcode.Some? && marker.opcode != Some(InitOp) {
      FirstBrokenIsLeast(c, st.protocolStatus, height, tx, marker, carrier, r);
      FirstBrokenCode(c, st.protocolStatus, height, tx, marker, carrier);
      if BreaksOperation(c, st.protocolStatus, height, tx, marker, carrier, r) {
        OperationCodes(c, st.protocolStatus, height, tx, marker, carrier, r);
      }
    }
  }

  /** Reason precedence: a single-marker transaction is valid iff it breaks no rule, and otherwise the reported reason
      is the least code among all rules it breaks. */
  lemma ReasonIsLeastBrokenRule(
    c: Crypto, st: ChainState, height: u64, tx: TxView, candidate: MarkerCandidate, carrier: Option<Spend>)
    requires candidate.WellDetected()
    ensures var v := ValidateMarked(c, st, height, tx, candidate, carrier);
            && (v.Ok? <==> forall r :: !Breaks(c, st, height, tx, candidate, carrier, r))
            && (v.Err? ==> Breaks(c, st, height, tx, candidate, carrier, v.error))
            && (v.Err? ==> forall r :: Breaks(c, st, height, tx, candidate, carrier, r) ==> v.error.Code() <= r.Code())
  {
    hide ValidateSingle, BreaksMarked, FirstBrokenMarked;
    var parsed := candidate.Parse();
    if parsed.Ok? {
      var v := ValidateMarked(c, st, height, tx, candidate, carrier);
      SingleReportsFirst(c, st, height, tx, parsed.value, carrier);
      if v.Err? {
        FirstBrokenMarkedIsLeast(c, st, height, tx, parsed.value, carrier, v.error);
        assert Breaks(c, st, height, tx, candidate, carrier, v.error);
      }
      forall r | Breaks(c, st, height, tx, candidate, carrier, r) ensures v.Err? && v.error.Code() <= r.Code() {
        FirstBrokenMarkedIsLeast(c, st, height, tx, parsed.value, carrier, r);
      }
    } else {
      assert Breaks(c, st, height, tx, candidate, carrier, BadMarkerEncodingOrLength);
    }
  }

  lemma ValidIsNoRule(
    c: Crypto, st: ChainState, height: u64, tx: TxView, candidate: MarkerCandidate, carrier: Option<Spend>)
    requires candidate.WellDetected()
    ensures !Breaks(c, st, height, tx, candidate, carrier, Valid)
  {
  }

  /** The one event that a verdict about a single marker and at most one carrier gives rise to. */
  lemma SingleEvent(c: Crypto, st: ChainState, block: BlockView, tx: TxView, txIndex: u32)
    requires Bounded(st) && Fits(tx) && |Candidates(tx, st.binding)| == 1 && |CarrierSpends(st, tx.inputs)| <= 1
    ensures var candidate, carriers := Candidates(tx, st.binding)[0], CarrierSpends(st, tx.inputs);
            var v := ValidateMarked(c, st, block.height, tx, candidate, FirstSpend(carriers));
            var events := ProcessTransaction(c, st, block, tx, txIndex).events;
            && |events| == 1
            && (events[0].validityClass == ValidOperation <==> v.Ok?)
            && events[0].reason == if v.Ok? then Valid else v.error
  {
    hide ValidateMarked, SortBy, CarrierSpends, Candidates, SpendLess;
    var v := Classify(c, st, block.height, tx);
    ClassifyFacts(c, st, block.height, tx);
    AcceptedIsApplicable(c, st, block.height, tx, v);
    if v.Exit? {
      ExitAllNumbered(st, block, tx, txIndex, v.eventIndex, v.reason, v.namespace,
                      SortBy(SpendLess, CarrierSpends(st, tx.inputs)));
    }
  }

  /** What is emitted for a transaction with one marker and at most one spent carrier: a single event, valid iff no rule
      is broken, and otherwise carrying the least code among all rules the transaction breaks. */
  lemma EventCarriesLeastBrokenRule(c: Crypto, st: ChainState, block: BlockView, tx: TxView, txIndex: u32)
    requires Bounded(st) && Fits(tx) && |Candidates(tx, st.binding)| == 1 && |CarrierSpends(st, tx.inputs)| <= 1
    ensures var candidate, carrier := Candidates(tx, st.binding)[0], FirstSpend(CarrierSpends(st, tx.inputs));
            var events := ProcessTransaction(c, st, block, tx, txIndex).events;
            && |events| == 1
            && (events[0].validityClass == ValidOperation <==> events[0].reason == Valid)
            && (events[0].reason == Valid <==> forall r :: !Breaks(c, st, block.height, tx, candidate, carrier, r))
            && (events[0].reason != Valid ==> Breaks(c, st, block.height, tx, candidate, carrier, events[0].reason))
            && (forall r :: Breaks(c, st, block.height, tx, candidate, carrier, r) ==>
                events[0].reason.Code() <= r.Code())
  {
    hide ValidateMarked, Breaks, ProcessTransaction, Candidates, CarrierSpends;
    var candidate, carrier := Candidates(tx, st.binding)[0], FirstSpend(CarrierSpends(st, tx.inputs));
    SingleEvent(c, st, block, tx, txIndex);
    ReasonIsLeastBrokenRule(c, st, block.height, tx, candidate, carrier);
    ValidIsNoRule(c, st, block.height, tx, candidate, carrier);
  }

  // ---------- the configured INIT ----------

  predicate InitFieldsOk(marker: ParsedMarker, binding: Binding)
    requires marker.WellParsed() && marker.opcode == Some(InitOp)
  {
    marker.payload[15..23] == LE(20_000, 8) && marker.payload[23..27] == LE(52_560, 4) &&
    marker.payload[27..59] == binding.specHash
  }

  predicate InitInputsOk(tx: TxView) { |tx.inputs| == 1 && SequencesAre(tx, 0xFFFF_FFFF) }

  /** The opening leaves the full lead and the close ends the exact window, over unbounded integers. */
  predicate InitHeightsOk(marker: ParsedMarker, height: u64)
    requires marker.WellParsed() && marker.opcode == Some(InitOp)
  {
    var opens := FromLE(marker.payload[7..11]);
    FromLE(marker.payload[11..15]) == opens + 4_320 && height + 1_008 <= opens
  }

  /** The table for the configured INIT once its single marker has parsed. */
  ghost predicate BreaksInit(c: Crypto, binding: Binding, height: u64, tx: TxView, marker: ParsedMarker, r: Reason)
    requires marker.WellParsed()
  {
    match r
    case UnknownVersion => marker.version != 1
    case WrongNetwork => marker.network != binding.network.Code()
    case UnknownOpcode => marker.opcode.None?
    case UnsupportedOrReservedField => marker.opcode.Some? &&
      (marker.opcode != Some(InitOp) || !InitFieldsOk(marker, binding))
    case BadTxVersionOrLocktime => marker.opcode == Some(InitOp) && !VersionOk(tx)
    case BadInputCountOrOrder => marker.opcode == Some(InitOp) && !InitInputsOk(tx)
    case BadOutputCountOrOrder => marker.opcode == Some(InitOp) && !ShapeOk(tx, marker, OutputCount(InitOp))
    case UnconfirmedOrSameBlockPrevout => marker.opcode == Some(InitOp) && !ConfirmedOk(tx, height)
    case BadInputScript => marker.opcode == Some(InitOp) && !ScriptsOk(tx, InitOp)
    case BadKeyOrderOrBinding => marker.opcode == Some(InitOp) && !KeysOk(c, tx, InitOp, None)
    case BadSignatureOrSighash => marker.opcode == Some(InitOp) && !SignedOk(tx)
    case BadOutputScriptOrValue => marker.opcode == Some(InitOp) && !OutputsOk(c, tx, InitOp)
    case NonpositiveOrInvalidFee => marker.opcode == Some(InitOp) && !FeeOk(tx, InitOp)
    case BadFeeSplitOrChange => marker.opcode == Some(InitOp) && !SplitOk(tx, InitOp)
    case BadHeightOrPhase => marker.opcode == Some(InitOp) && !InitHeightsOk(marker, height)
    case _ => false
  }

  ghost predicate BreaksConfiguredInit(c: Crypto, binding: Binding, height: u64, tx: TxView, r: Reason) {
    var candidates := Candidates(tx, binding);
    if |candidates| > 1 then r == MultipleMarkers
    else if |candidates| == 0 || candidates[0].Parse().Err? then r == BadMarkerEncodingOrLength
    else BreaksInit(c, binding, height, tx, candidates[0].Parse().value, r)
  }

  function FirstBrokenInit(c: Crypto, binding: Binding, height: u64, tx: TxView, marker: ParsedMarker): Option<Reason>
    requires marker.WellParsed()
  {
    if marker.version != VERSION then Some(UnknownVersion)
    else if marker.network != binding.network.Code() then Some(WrongNetwork)
    else if marker.opcode.None? then Some(UnknownOpcode)
    else if marker.opcode != Some(InitOp) || !InitFieldsOk(marker, binding) then Some(UnsupportedOrReservedField)
    else if !VersionOk(tx) then Some(BadTxVersionOrLocktime)
    else if !InitInputsOk(tx) then Some(BadInputCountOrOrder)
    else if !ShapeOk(tx, marker, OutputCount(InitOp)) then Some(BadOutputCountOrOrder)
    else if !ConfirmedOk(tx, height) then Some(UnconfirmedOrSameBlockPrevout)
    else if !ScriptsOk(tx, InitOp) then Some(BadInputScript)
    else if !KeysOk(c, tx, InitOp, None) then Some(BadKeyOrderOrBinding)
    else if !SignedOk(tx) then Some(BadSignatureOrSighash)
    else if !OutputsOk(c, tx, InitOp) then Some(BadOutputScriptOrValue)
    else if !FeeOk(tx, InitOp) then Some(NonpositiveOrInvalidFee)
    else if !SplitOk(tx, InitOp) then Some(BadFeeSplitOrChange)
    else if !InitHeightsOk(marker, height) then Some(BadHeightOrPhase)
    else None
  }

  lemma FirstBrokenInitIsLeast(c: Crypto, binding: Binding, height: u64, tx: TxView, marker: ParsedMarker, r: Reason)
    requires marker.WellParsed()
    ensures var first := FirstBrokenInit(c, binding, height, tx, marker);
            (first == Some(r) ==> BreaksInit(c, binding, height, tx, marker, r)) &&
            (BreaksInit(c, binding, height, tx, marker, r) ==> first.Some? && first.value.Code() <= r.Code())
  {
    hide InitFieldsOk, VersionOk, InitInputsOk, ShapeOk, ConfirmedOk, ScriptsOk, KeysOk, SignedOk, OutputsOk, FeeOk,
         SplitOk, InitHeightsOk, OutputCount;
  }

  lemma InitRowsAre(marker: ParsedMarker, binding: Binding, height: u64)
    requires marker.WellParsed() && marker.opcode == Some(InitOp)
    ensures InitFieldsOk(marker, binding) <==>
            marker.U64At(15) == CARRIER_VALUE && marker.U32At(23) == REFUND_DELAY &&
            marker.HashAt(27) == binding.specHash
    ensures InitHeightsOk(marker, height) <==>
            marker.U32At(11) == marker.U32At(7) + FOUNDING_WINDOW && height + INIT_LEAD <= marker.U32At(7)
  {
    WideFieldBytes(marker, 15, 20_000);
    FieldBytes(marker, 23, 52_560);
  }

  lemma InitReportsFirst(c: Crypto, binding: Binding, height: u64, tx: TxView)
    requires |Candidates(tx, binding)| == 1 && Candidates(tx, binding)[0].Parse().Ok?
    ensures var v := ValidateConfiguredInit(c, binding, height, tx);
            FirstBrokenInit(c, binding, height, tx, Candidates(tx, binding)[0].Parse().value) ==
            if v.Err? then Some(v.error) else None
  {
    hide Candidates, HeaderOk, AllConfirmed, OutputShapeOk, VersionOk, SequencesAre, ConfirmedOk, SignedOk, ShapeOk,
         ScriptsOk, MarkerCandidate.Parse, PaysKey, P2wpkhScript, InitFieldsOk, InitHeightsOk;
    ScriptsByRole(tx);
    var marker := Candidates(tx, binding)[0].Parse().value;
    FieldChecks(tx, height, marker, 2);
    OneInput(tx, height);
    PaysKeyIs(c, tx);
    if marker.opcode == Some(InitOp) { InitRowsAre(marker, binding, height); }
  }

  /** Without exactly one candidate that parses, the configured INIT fails on its encoding. */
  lemma UnparsedInit(c: Crypto, binding: Binding, height: u64, tx: TxView)
    requires !(|Candidates(tx, binding)| == 1 && Candidates(tx, binding)[0].Parse().Ok?)
    ensures ValidateConfiguredInit(c, binding, height, tx) ==
            Err(if |Candidates(tx, binding)| > 1 then MultipleMarkers else BadMarkerEncodingOrLength)
  {
    hide Candidates;
  }

  lemma ParsedInit(c: Crypto, binding: Binding, height: u64, tx: TxView, r: Reason)
    requires |Candidates(tx, binding)| == 1 && Candidates(tx, binding)[0].Parse().Ok?
    ensures var v := ValidateConfiguredInit(c, binding, height, tx);
            && (v.Err? && v.error == r ==> BreaksConfiguredInit(c, binding, height, tx, r))
            && (BreaksConfiguredInit(c, binding, height, tx, r) ==> v.Err? && v.error.Code() <= r.Code())
  {
    hide ValidateConfiguredInit, Candidates, BreaksInit, FirstBrokenInit, MarkerCandidate.Parse;
    var marker := Candidates(tx, binding)[0].Parse().value;
    InitReportsFirst(c, binding, height, tx);
    FirstBrokenInitIsLeast(c, binding, height, tx, marker, r);
  }

  /** The configured INIT is accepted iff it breaks no rule, and otherwise fails with the least broken code. */
  lemma InitReasonIsLeastBrokenRule(c: Crypto, binding: Binding, height: u64, tx: TxView)
    ensures var v := ValidateConfiguredInit(c, binding, height, tx);
            && (v.Ok? <==> forall r :: !BreaksConfiguredInit(c, binding, height, tx, r))
            && (v.Err? ==> BreaksConfiguredInit(c, binding, height, tx, v.error))
            && (v.Err? ==> forall r :: BreaksConfiguredInit(c, binding, height, tx, r) ==> v.error.Code() <= r.Code())
  {
    hide ValidateConfiguredInit, Candidates, BreaksInit, MarkerCandidate.Parse;
    var candidates := Candidates(tx, binding);
    var v := ValidateConfiguredInit(c, binding, height, tx);
    if |candidates| == 1 && candidates[0].Parse().Ok? {
      if v.Err? { ParsedInit(c, binding, height, tx, v.error); }
      forall r | BreaksConfiguredInit(c, binding, height, tx, r) ensures v.Err? && v.error.Code() <= r.Code() {
        ParsedInit(c, binding, height, tx, r);
      }
    } else {
      UnparsedInit(c, binding, height, tx);
      assert BreaksConfiguredInit(c, binding, height, tx, v.error);
    }
  }
}
