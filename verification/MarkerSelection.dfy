/** Which outputs count as markers, and what is read from a candidate that does not validate. */
module MarkerSelection {
  import opened Primitives
  import opened Types
  import opened Marker
  import opened Validators
  import opened Reducer

  /** Output `i` shows the marker `m`, and `m` is not an INIT of somebody else's deployment. */
  ghost predicate Selected(tx: TxView, binding: Binding, i: nat, m: MarkerCandidate) {
    && i < |tx.outputs| && i <= U32_MAX && FindMarkerCandidate(tx.outputs[i].scriptPubkey, i) == Some(m)
    && !(|m.payload| > 6 && m.payload[6] == 0 && tx.txid != binding.initTxid)
  }

  ghost predicate Ascends(ms: seq<MarkerCandidate>) { forall i, j :: 0 <= i < j < |ms| ==> ms[i].vout < ms[j].vout }

  lemma {:induction false} CandidatesOf(txid: Hash32, outputs: seq<OutputView>, binding: Binding)
    ensures var r := MarkerCandidates(txid, outputs, binding);
            && Ascends(r) && (forall m :: m in r ==> m.vout < |outputs|)
            && forall m :: m in r <==>
                 m.vout < |outputs| && FindMarkerCandidate(outputs[m.vout].scriptPubkey, m.vout) == Some(m) &&
                 !(|m.payload| > 6 && m.payload[6] == 0 && txid != binding.initTxid)
    decreases |outputs|
  {
    hide FindMarkerCandidate;
    if |outputs| > 0 {
      var index := |outputs| - 1;
      CandidatesOf(txid, outputs[..index], binding);
      var r, rest := MarkerCandidates(txid, outputs, binding), MarkerCandidates(txid, outputs[..index], binding);
      assert r == rest || r == rest + [r[|r| - 1]];
      forall i, j | 0 <= i < j < |r| ensures r[i].vout < r[j].vout {
        assert r[i] in rest;
      }
    }
  }

  /** The markers of a transaction are exactly the detected outputs, in output order, an INIT shape counting only in the
      configured INIT transaction. */
  lemma CandidatesExact(tx: TxView, binding: Binding)
    ensures forall m :: m in Candidates(tx, binding) <==> exists i: nat :: Selected(tx, binding, i, m)
    ensures Ascends(Candidates(tx, binding))
  {
    CandidatesOf(tx.txid, tx.outputs, binding);
    forall m ensures m in Candidates(tx, binding) <==> exists i: nat :: Selected(tx, binding, i, m) {
      if m in Candidates(tx, binding) { assert Selected(tx, binding, m.vout, m); }
      if i: nat :| Selected(tx, binding, i, m) { assert m.vout == i; }
    }
  }

  /** The list is empty, one or more according to the outputs selected. */
  lemma SingleCandidate(tx: TxView, binding: Binding, m: MarkerCandidate)
    requires exists i: nat :: Selected(tx, binding, i, m)
    requires forall i: nat, n :: Selected(tx, binding, i, n) ==> i == m.vout
    ensures Candidates(tx, binding) == [m]
  {
    hide FindMarkerCandidate, Candidates;
    CandidatesExact(tx, binding);
    var ms := Candidates(tx, binding);
    assert m in ms;
    forall j | 0 <= j < |ms| ensures ms[j] == m {
      assert ms[j] in ms;
      var i: nat :| Selected(tx, binding, i, ms[j]);
      var k: nat :| Selected(tx, binding, k, m);
    }
    assert |ms| <= 1 || ms[0].vout < ms[1].vout;
  }

  /** A configured INIT whose only detected output is a well-formed INIT marker has exactly that candidate, and it
      parses to the printed payload. */
  lemma ConfiguredInitCandidate(tx: TxView, binding: Binding, i: nat, payload: Bytes)
    requires tx.txid == binding.initTxid && i < |tx.outputs| && i <= U32_MAX
    requires WellFormedPayload(payload) && tx.outputs[i].scriptPubkey == MarkerScript(payload)
    requires forall j :: 0 <= j < |tx.outputs| && j <= U32_MAX && j != i ==>
               FindMarkerCandidate(tx.outputs[j].scriptPubkey, j).None?
    ensures |Candidates(tx, binding)| == 1
    ensures Candidates(tx, binding)[0].Parse() ==
            Ok(ParsedMarker(i, payload[4], payload[5], payload[6], OpcodeFromByte(payload[6]), payload))
  {
    ParsePrinted(payload, i);
    var m := FindMarkerCandidate(tx.outputs[i].scriptPubkey, i).value;
    assert Selected(tx, binding, i, m);
    SingleCandidate(tx, binding, m);
  }

  /** An INIT shape in any other transaction is no marker at all. */
  lemma ForeignInitIgnored(tx: TxView, binding: Binding, m: MarkerCandidate)
    requires m in Candidates(tx, binding) && tx.txid != binding.initTxid
    ensures |m.payload| <= 6 || m.payload[6] != 0
  {
    CandidatesExact(tx, binding);
  }

  // ---------- what an invalid event reports of its candidate ----------

  /** The least output index among several markers is the first candidate's. */
  lemma {:induction false} MinVoutIsFirst(ms: seq<MarkerCandidate>)
    requires |ms| > 0 && Ascends(ms)
    ensures MinVout(ms) == ms[0].vout
    decreases |ms|
  {
    if |ms| > 1 {
      assert Ascends(ms[1..]);
      MinVoutIsFirst(ms[1..]);
      assert ms[0].vout < ms[1].vout;
    }
  }

  /** The opcode numbers and their payload lengths. */
  ghost predicate Defines(opcode: u8, length: nat, eventType: EventType) {
    match opcode
    case 0 => length == 59 && eventType == InitEvent
    case 1 => length == 40 && eventType == CreateEvent
    case 2 => length == 78 && eventType == MarkEvent
    case 3 => length == 44 && eventType == RotateEvent
    case 4 => length == 80 && eventType == CloseEvent
    case _ => false
  }

  /** The event type an invalid attempt reports: that of its opcode byte under version 1, otherwise INVALID. */
  lemma AttemptedExact(m: MarkerCandidate)
    ensures var t := AttemptedEventType(m);
            if |m.payload| > 6 && m.payload[4] == 1 && m.payload[6] <= 4
            then exists n :: Defines(m.payload[6], n, t)
            else t == InvalidEvent
  {
    if |m.payload| > 6 && m.payload[4] == 1 && m.payload[6] <= 4 {
      assert Defines(m.payload[6], OpcodeFromByte(m.payload[6]).value.PayloadLen(), AttemptedEventType(m));
    }
  }

  /** The namespace an invalid or exiting event reports: bytes 8 to 40 of a complete version-1 payload that has the
      exact length of a defined operation other than INIT, otherwise zero. */
  lemma PopulationExact(m: MarkerCandidate)
    requires m.WellDetected()
    ensures var readable := m.payloadComplete && |m.payload| >= 40 && m.payload[4] == 1 && m.payload[6] != 0 &&
                            exists t :: Defines(m.payload[6], |m.payload|, t);
            PopulationNamespace(m) == if readable then m.payload[8..40] else ZERO_HASH
  {
    if |m.payload| >= 40 && OpcodeFromByte(m.payload[6]).Some? &&
       OpcodeFromByte(m.payload[6]).value.PayloadLen() == |m.payload| {
      assert Defines(m.payload[6], |m.payload|, EventTypeOf(OpcodeFromByte(m.payload[6]).value));
    }
  }
}
