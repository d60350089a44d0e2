/** What is emitted for a transaction, by the number of its markers and of the carriers it spends. */
module Dispatch {
  import opened Primitives
  import opened Types
  import opened Marker
  import opened Validators
  import opened Sorting
  import opened Reducer
  import opened EventLog
  import opened MarkerSelection
  import opened Rules

  // ---------- refunds ----------

  /** The refund path, on fields and bytes: version 2 without locktime, no OP_RETURN, the 52,560-block relative lock,
      the object's own outpoint spent by its own signed 2-of-2 script, both keys paid equal nonzero amounts, key 0
      first, with something left for the fee, and the carrier confirmed 52,560 blocks deep (or so high that the depth
      overflows). */
  ghost predicate IsRefund(c: Crypto, height: u64, tx: TxView, obj: ObjectState)
    requires |tx.inputs| == 1 && |tx.outputs| == 2
  {
    var input, first, second := tx.inputs[0], tx.outputs[0], tx.outputs[1];
    && tx.version == 2 && tx.lockTime == 0 && input.sequence == 52_560
    && input.prevout == obj.currentOutpoint && input.signaturesValid
    && |input.scriptSig| == 0 && |input.witnessStack| == 4 && |input.witnessStack[0]| == 0
    && IsTwoOfTwo(input.witnessStack[3], obj.keys)
    && input.prevoutScript == [0x00, 0x20] + c.sha256(input.witnessStack[3])
    && Signing(c, obj.keys.key0) && Signing(c, obj.keys.key1) && LexLess(obj.keys.key0, obj.keys.key1)
    && input.prevoutHeight.Some? && input.prevoutHeight.value < height
    && (input.prevoutHeight.value + 52_560 <= height || input.prevoutHeight.value + 52_560 > U64_MAX)
    && first.scriptPubkey == [0x00, 0x14] + c.hash160(obj.keys.key0)
    && second.scriptPubkey == [0x00, 0x14] + c.hash160(obj.keys.key1)
    && 0 < first.value == second.value && first.value + second.value < 20_000
  }

  lemma RefundFields(c: Crypto, height: u64, tx: TxView, obj: ObjectState)
    requires |tx.inputs| == 1 && |tx.outputs| == 2
    ensures RefundAccepted(c, height, tx, obj) <==> IsRefund(c, height, tx, obj)
  {
    CarrierKeysExact(c, tx.inputs[0], obj.keys);
    hide InputView.CarrierKeys;
    if IsRefund(c, height, tx, obj) {
      assert tx.outputs[0].scriptPubkey[0] == 0x00 && tx.outputs[1].scriptPubkey[0] == 0x00;
    }
  }

  /** A markerless spend of one carrier with one input and two outputs is a refund exactly when the refund rules hold,
      and otherwise ends the object as a bad refund. */
  lemma RefundExact(c: Crypto, st: ChainState, height: u64, tx: TxView, obj: ObjectState)
    requires Candidates(tx, st.binding) == [] && |tx.inputs| == 1 && |tx.outputs| == 2
    requires CarrierSpends(st, tx.inputs) == [Spend(0, obj)]
    ensures Classify(c, st, height, tx) ==
            if IsRefund(c, height, tx, obj) then Refund(obj)
            else Exit(0xFFFF_FFFF, BadRefundShapeOrMaturity, st.binding.Namespace(c))
    ensures height <= I64_MAX && IsRefund(c, height, tx, obj) ==>
              tx.inputs[0].prevoutHeight.value + 52_560 <= height
  {
    RefundFields(c, height, tx, obj);
  }

  // ---------- every other combination ----------

  /** The event closes the record of exactly this object. */
  ghost predicate IsExitOf(e: Event, obj: ObjectState) {
    e.objectKey == obj.objectKey && e.stateSeq == obj.stateSeq && e.predecessor == obj.currentOutpoint &&
    e.key0 == obj.keys.key0 && e.key1 == obj.keys.key1
  }

  /** Every spent object has its exit, and every exit is of a spent object. */
  ghost predicate ExitsAre(events: seq<Event>, carriers: seq<Spend>) {
    && (forall s :: s in carriers ==> exists e :: e in events && IsExitOf(e, s.obj))
    && (forall e :: e in events ==> exists s :: s in carriers && IsExitOf(e, s.obj))
  }

  /** Every listed event reports the same failure: an invalid attempt, or the exit of one spent object each. */
  ghost predicate AllReport(
    events: seq<Event>, carriers: seq<Spend>, eventIndex: u32, reason: Reason, namespace: Hash32)
  {
    && |events| == (if |carriers| == 0 then 1 else |carriers|)
    && (forall i :: 0 <= i < |events| ==>
          && events[i].eventIndex == eventIndex && events[i].reason == reason && events[i].namespace == namespace
          && events[i].subIndex == i && events[i].commitment == ZERO_HASH && events[i].successor == ZERO_OUTPOINT
          && (if |carriers| == 0 then events[i].validityClass == InvalidNoState
              else events[i].validityClass == TerminalNoncanonical && events[i].eventType == ExitEvent))
    && (|carriers| > 0 ==> ExitsAre(events, carriers))
  }

  lemma RejectReports(
    block: BlockView, tx: TxView, txIndex: u32, eventIndex: u32, t: EventType, reason: Reason, n: Hash32)
    ensures AllReport([BareInvalidEvent(block, tx, txIndex, eventIndex, t, reason, n)], [], eventIndex, reason, n)
  {
  }

  lemma ExitsOfSorted(events: seq<Event>, carriers: seq<Spend>, sorted: seq<Spend>)
    requires |events| == |sorted| && forall s :: s in sorted <==> s in carriers
    requires forall i :: 0 <= i < |events| ==> IsExitOf(events[i], sorted[i].obj)
    ensures ExitsAre(events, carriers)
  {
    forall s | s in carriers ensures exists e :: e in events && IsExitOf(e, s.obj) {
      assert s in sorted;
      var i :| 0 <= i < |sorted| && sorted[i] == s;
      assert events[i] in events;
    }
    forall e | e in events ensures exists s :: s in carriers && IsExitOf(e, s.obj) {
      var i :| 0 <= i < |events| && events[i] == e;
      assert sorted[i] in sorted;
    }
  }

  /** One exit event reports what its verdict says. */
  ghost predicate ReportsExit(e: Event, i: nat, obj: ObjectState, eventIndex: u32, reason: Reason, n: Hash32) {
    && e.eventIndex == eventIndex && e.reason == reason && e.namespace == n && e.subIndex == i
    && e.commitment == ZERO_HASH && e.successor == ZERO_OUTPOINT && e.validityClass == TerminalNoncanonical
    && e.eventType == ExitEvent && IsExitOf(e, obj)
  }

  lemma ExitedReports(
    block: BlockView, tx: TxView, txIndex: u32, eventIndex: u32, i: u32, reason: Reason, n: Hash32, obj: ObjectState)
    ensures ReportsExit(ExitedEvent(block, tx, txIndex, eventIndex, i, reason, n, obj), i, obj, eventIndex, reason, n)
  {
  }

  lemma ExitReports(
    st: ChainState, block: BlockView, tx: TxView, txIndex: u32, eventIndex: u32, reason: Reason, n: Hash32)
    requires Fits(tx) && |CarrierSpends(st, tx.inputs)| > 0
    ensures var carriers := CarrierSpends(st, tx.inputs);
            AllReport(ExitAll(st, block, tx, txIndex, eventIndex, reason, n, SortBy(SpendLess, carriers)).events,
                      carriers, eventIndex, reason, n)
  {
    hide CarrierSpends, SortBy, ExitAll, ExitsAre, ExitedEvent, IsExitOf, SpendLess;
    var carriers := CarrierSpends(st, tx.inputs);
    var sorted := SortBy(SpendLess, carriers);
    var events := ExitAll(st, block, tx, txIndex, eventIndex, reason, n, sorted).events;
    SortMembers(SpendLess, carriers);
    ExitAllNumbered(st, block, tx, txIndex, eventIndex, reason, n, sorted);
    forall i | 0 <= i < |events| ensures ReportsExit(events[i], i, sorted[i].obj, eventIndex, reason, n) {
      ExitedReports(block, tx, txIndex, eventIndex, i, reason, n, sorted[i].obj);
    }
    ExitsOfSorted(events, carriers, sorted);
  }

  /** The namespace an event without a valid operation reports. */
  ghost function Reported(c: Crypto, st: ChainState, markers: seq<MarkerCandidate>): Hash32
    requires |markers| <= 1 && forall m :: m in markers ==> m.WellDetected()
  {
    if |markers| == 0 then st.binding.Namespace(c) else PopulationNamespace(markers[0])
  }

  /** Dispatch, exactly. Several markers: one invalid event at the first of them, or the exit of every spent object. One
      marker or none with several carriers: their exits. No marker: nothing, a refund, or an exit. One marker and at
      most one carrier: the operation, or the least broken rule. */
  lemma DispatchExact(c: Crypto, st: ChainState, block: BlockView, tx: TxView, txIndex: u32)
    requires Bounded(st) && Fits(tx)
    ensures var markers, carriers := Candidates(tx, st.binding), CarrierSpends(st, tx.inputs);
            var events := ProcessTransaction(c, st, block, tx, txIndex).events;
            && (|markers| > 1 ==> AllReport(events, carriers, markers[0].vout, MultipleMarkers, ZERO_HASH))
            && (|markers| <= 1 && |carriers| > 1 ==>
                  AllReport(events, carriers, if |markers| == 0 then 0xFFFF_FFFF else markers[0].vout, MultipleCarriers,
                            Reported(c, st, markers)))
            && (|markers| == 0 && |carriers| == 0 ==> events == [])
            && (|markers| == 0 && |carriers| == 1 && !(|tx.inputs| == 1 && |tx.outputs| == 2) ==>
                  AllReport(events, carriers, 0xFFFF_FFFF, UnmarkedCarrierSpend, st.binding.Namespace(c)))
            && (|markers| == 0 && |carriers| == 1 && |tx.inputs| == 1 && |tx.outputs| == 2 ==>
                  if IsRefund(c, block.height, tx, carriers[0].obj)
                  then |events| == 1 && events[0].eventType == RefundEvent && events[0].validityClass == ValidOperation
                  else AllReport(events, carriers, 0xFFFF_FFFF, BadRefundShapeOrMaturity, st.binding.Namespace(c)))
            && (|markers| == 1 && |carriers| <= 1 && events[0].validityClass != ValidOperation ==>
                  AllReport(events, carriers, markers[0].vout, events[0].reason, PopulationNamespace(markers[0])) &&
                  (|carriers| == 0 ==> events[0].eventType == AttemptedEventType(markers[0])))
  {
    hide ValidateMarked, RefundAccepted, IsRefund, CarrierSpends, Candidates, SortBy, ExitAll, AllReport, MinVout,
         PopulationNamespace, ApplyOperation;
    var markers, carriers := Candidates(tx, st.binding), CarrierSpends(st, tx.inputs);
    var v := Classify(c, st, block.height, tx);
    ClassifyFacts(c, st, block.height, tx);
    AcceptedIsApplicable(c, st, block.height, tx, v);
    CandidatesExact(tx, st.binding);
    if |markers| > 1 { MinVoutIsFirst(markers); }
    if |markers| == 0 && |carriers| == 1 && |tx.inputs| == 1 && |tx.outputs| == 2 {
      assert carriers[0] in carriers;
      RefundFields(c, block.height, tx, carriers[0].obj);
    }
    if |markers| == 1 && |carriers| <= 1 { SingleEvent(c, st, block, tx, txIndex); }
    match v
    case Exit(eventIndex, reason, n) => ExitReports(st, block, tx, txIndex, eventIndex, reason, n);
    case Reject(eventIndex, t, reason, n) => RejectReports(block, tx, txIndex, eventIndex, t, reason, n);
    case _ =>
  }
}
