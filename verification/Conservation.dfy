/** Value conservation of every accepted operation over a faithful source. */
module Conservation {
  import opened Primitives
  import opened Types
  import opened Marker
  import opened Validators
  import opened Reducer
  import opened LocalInvariant
  import opened Ledger
  import opened Transitions

  function TotalIn(inputs: seq<InputView>): nat {
    if |inputs| == 0 then 0 else TotalIn(inputs[..|inputs| - 1]) + inputs[|inputs| - 1].prevoutValue
  }

  function TotalOut(outputs: seq<OutputView>): nat {
    if |outputs| == 0 then 0 else TotalOut(outputs[..|outputs| - 1]) + outputs[|outputs| - 1].value
  }

  function Fee(tx: TxView): int { TotalIn(tx.inputs) - TotalOut(tx.outputs) }

  lemma TotalInSmall(inputs: seq<InputView>)
    ensures |inputs| == 1 ==> TotalIn(inputs) == inputs[0].prevoutValue
    ensures |inputs| == 2 ==> TotalIn(inputs) == inputs[0].prevoutValue + inputs[1].prevoutValue
    ensures |inputs| == 3 ==>
              TotalIn(inputs) == inputs[0].prevoutValue + inputs[1].prevoutValue + inputs[2].prevoutValue
  {
    if |inputs| == 3 {
      TotalInSmall(inputs[..2]);
    } else if |inputs| == 2 {
      TotalInSmall(inputs[..1]);
    }
  }

  lemma TotalOutSmall(outputs: seq<OutputView>)
    ensures |outputs| == 1 ==> TotalOut(outputs) == outputs[0].value
    ensures |outputs| == 2 ==> TotalOut(outputs) == outputs[0].value + outputs[1].value
    ensures |outputs| == 3 ==> TotalOut(outputs) == outputs[0].value + outputs[1].value + outputs[2].value
    ensures |outputs| == 4 ==>
              TotalOut(outputs) == outputs[0].value + outputs[1].value + outputs[2].value + outputs[3].value
  {
    if 2 <= |outputs| <= 4 { TotalOutSmall(outputs[..|outputs| - 1]); }
  }

  /** A positive fee; where two participants pay it, their debits differ by exactly its parity. */
  ghost predicate Balanced(tx: TxView, op: Operation) {
    Fee(tx) > 0 &&
    match op
    case Create(_) =>
      |tx.inputs| == 2 && |tx.outputs| == 4 &&
      (tx.inputs[0].prevoutValue - tx.outputs[2].value) - (tx.inputs[1].prevoutValue - tx.outputs[3].value) ==
        Fee(tx) % 2
    case Rotate(_, _, _) =>
      |tx.inputs| == 3 && |tx.outputs| == 4 &&
      (tx.inputs[1].prevoutValue - tx.outputs[2].value) - (tx.inputs[2].prevoutValue - tx.outputs[3].value) ==
        Fee(tx) % 2
    case Mark(_, _, _) => true
    case Close(_, _, _) => true
  }

  lemma CreateBalanced(c: Crypto, status: ProtocolStatus, height: u64, tx: TxView, marker: ParsedMarker)
    requires marker.WellParsed() && marker.opcode == Some(CreateOp)
    ensures var r := ValidateCreate(c, status, height, tx, marker); r.Ok? ==> Balanced(tx, r.value)
  {
    TotalInSmall(tx.inputs);
    TotalOutSmall(tx.outputs);
  }

  lemma MarkBalanced(c: Crypto, height: u64, tx: TxView, marker: ParsedMarker, carrier: Option<Spend>)
    requires marker.WellParsed() && marker.opcode == Some(MarkOp)
    requires carrier.Some? && |tx.inputs| > 0 ==> tx.inputs[0].prevoutValue == CARRIER_VALUE
    ensures var r := ValidateMark(c, height, tx, marker, carrier); r.Ok? ==> Balanced(tx, r.value)
  {
    TotalInSmall(tx.inputs);
    TotalOutSmall(tx.outputs);
  }

  lemma RotateBalanced(c: Crypto, height: u64, tx: TxView, marker: ParsedMarker, carrier: Option<Spend>)
    requires marker.WellParsed() && marker.opcode == Some(RotateOp)
    requires carrier.Some? && |tx.inputs| > 0 ==> tx.inputs[0].prevoutValue == CARRIER_VALUE
    ensures var r := ValidateRotate(c, height, tx, marker, carrier); r.Ok? ==> Balanced(tx, r.value)
  {
    TotalInSmall(tx.inputs);
    TotalOutSmall(tx.outputs);
  }

  lemma CloseBalanced(c: Crypto, height: u64, tx: TxView, marker: ParsedMarker, carrier: Option<Spend>)
    requires marker.WellParsed() && marker.opcode == Some(CloseOp)
    requires carrier.Some? && |tx.inputs| > 0 ==> tx.inputs[0].prevoutValue == CARRIER_VALUE
    ensures var r := ValidateClose(c, height, tx, marker, carrier); r.Ok? ==> Balanced(tx, r.value)
  {
    TotalInSmall(tx.inputs);
    TotalOutSmall(tx.outputs);
  }

  lemma SingleBalanced(c: Crypto, st: ChainState, height: u64, tx: TxView, marker: ParsedMarker, carrier: Option<Spend>)
    requires marker.WellParsed()
    requires carrier.Some? && |tx.inputs| > 0 ==> tx.inputs[0].prevoutValue == CARRIER_VALUE
    ensures var r := ValidateSingle(c, st, height, tx, marker, carrier);
            r.Ok? ==> Balanced(tx, r.value)
  {
    hide ValidateCreate, ValidateMark, ValidateRotate, ValidateClose, Balanced;
    match marker.opcode
    case Some(CreateOp) => CreateBalanced(c, st.protocolStatus, height, tx, marker);
    case Some(MarkOp) => MarkBalanced(c, height, tx, marker, carrier);
    case Some(RotateOp) => RotateBalanced(c, height, tx, marker, carrier);
    case Some(CloseOp) => CloseBalanced(c, height, tx, marker, carrier);
    case _ =>
  }

  lemma OnlyCarrierIsBacked(c: Crypto, st: ChainState, l: Utxo, before: u64, tx: TxView)
    requires LocalInv(c, st) && LedgerInv(c, st, l, before) && FaithfulTx(l, tx)
    ensures forall s :: s in CarrierSpends(st, tx.inputs) ==> tx.inputs[s.index].prevoutValue == CARRIER_VALUE
  {
    forall s | s in CarrierSpends(st, tx.inputs) ensures tx.inputs[s.index].prevoutValue == CARRIER_VALUE {
      CarrierInputResolved(c, st, l, before, tx, s.index);
    }
  }

  /** Every accepted CREATE, MARK, ROTATE and CLOSE, and every refund, has total inputs = total outputs + a positive
      fee. The validators use the constant 20,000 for the carrier; it is the input's real value by the backing. */
  lemma ValueIsConserved(c: Crypto, st: ChainState, l: Utxo, before: u64, height: u64, tx: TxView)
    requires LocalInv(c, st) && LedgerInv(c, st, l, before) && FaithfulTx(l, tx)
    ensures var v := Classify(c, st, height, tx);
            (v.Accept? ==> Balanced(tx, v.op)) && (v.Refund? ==> Fee(tx) > 0)
  {
    var v := Classify(c, st, height, tx);
    var candidates, carriers := Candidates(tx, st.binding), CarrierSpends(st, tx.inputs);
    ClassifyFacts(c, st, height, tx);
    OnlyCarrierIsBacked(c, st, l, before, tx);
    if |carriers| > 0 { assert carriers[0] in carriers; }
    hide ValidateSingle, Balanced;
    if v.Refund? {
      TotalInSmall(tx.inputs);
      TotalOutSmall(tx.outputs);
    } else if v.Accept? {
      if v.op.Create? {
        CreateSpendsNoCarrier(c, st, l, before, height, tx, v.eventIndex, v.op.createKeys);
      }
      SingleBalanced(c, st, height, tx, candidates[0].Parse().value, FirstSpend(carriers));
    }
  }
}
