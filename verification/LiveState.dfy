/** `ChainState` as the mutable object the program updates in place. Each method changes the fields in the source's own
    order and is proved equal to the corresponding function of module `Reducer` on the state's value. */
module LiveState {
  import opened Primitives
  import opened Types
  import opened Marker
  import opened Validators
  import opened Sorting
  import opened Roots
  import opened Reducer

  class LiveChain {
    var binding: Binding
    var protocolStatus: ProtocolStatus
    var tipHeight: Option<u64>
    var tipHash: Option<Hash32>
    var chainedRoot: Hash32
    var objects: map<Hash32, ObjectState>
    var active: map<OutPointRef, Hash32>

    function Value(): ChainState
      reads this
    {
      ChainState(binding, protocolStatus, tipHeight, tipHash, chainedRoot, objects, active)
    }

    constructor (st: ChainState)
      ensures Value() == st
    {
      binding, protocolStatus, tipHeight, tipHash := st.binding, st.protocolStatus, st.tipHeight, st.tipHash;
      chainedRoot, objects, active := st.chainedRoot, st.objects, st.active;
    }

    /** Overwrite the whole state. */
    method Assign(st: ChainState)
      modifies this
      ensures Value() == st
    {
      binding, protocolStatus, tipHeight, tipHash := st.binding, st.protocolStatus, st.tipHeight, st.tipHash;
      chainedRoot, objects, active := st.chainedRoot, st.objects, st.active;
    }

    method TerminateObject(obj: ObjectState, status: ObjectStatus, txid: Hash32)
      modifies this`active, this`objects
      ensures Value() == Reducer.TerminateObject(old(Value()), obj, status, txid)
    {
      active := active - {obj.currentOutpoint};
      if obj.objectKey in objects {
        var stored := objects[obj.objectKey];
        stored := stored.(status := status);
        stored := stored.(currentOutpoint := ZERO_OUTPOINT);
        stored := stored.(terminalTxid := txid);
        objects := objects[obj.objectKey := stored];
      }
    }

    /** Exit every carrier in object-key order. The index-to-u32 conversion of the event number cannot fail. */
    method TerminateCarriers(
      block: BlockView, tx: TxView, txIndex: u32, eventIndex: u32, reason: Reason, namespace: Hash32,
      carriers: seq<Spend>)
      returns (events: seq<Event>)
      requires |carriers| <= U32_MAX
      modifies this`active, this`objects
      ensures Step(Value(), events) ==
              ExitAll(old(Value()), block, tx, txIndex, eventIndex, reason, namespace, SortBy(SpendLess, carriers))
    {
      var sorted := SortBy(SpendLess, carriers);
      events := [];
      var i := 0;
      while i < |sorted|
        invariant i <= |sorted|
        invariant Step(Value(), events) ==
                  ExitAll(old(Value()), block, tx, txIndex, eventIndex, reason, namespace, sorted[..i])
      {
        assert sorted[..i + 1][..i] == sorted[..i];
        var obj := sorted[i].obj;
        events := events + [ExitedEvent(block, tx, txIndex, eventIndex, i, reason, namespace, obj)];
        TerminateObject(obj, ExitedNoncanonical, tx.txid);
        i := i + 1;
      }
      assert sorted[..i] == sorted;
    }

    method ApplyValidOperation(c: Crypto, block: BlockView, tx: TxView, txIndex: u32, eventIndex: u32, op: Operation)
      returns (event: Event)
      requires Applicable(Value(), op)
      modifies this`active, this`objects
      ensures Step(Value(), [event]) == ApplyOperation(c, old(Value()), block, tx, txIndex, eventIndex, op)
    {
      var successor := OutPointRef(tx.txid, 1);
      match op {
        case Create(keys) =>
          var key := ObjectKey(c, binding.Namespace(c), tx.txid);
          var founding := block.height >= protocolStatus.hOpen && block.height < protocolStatus.hClose;
          var obj := ObjectState(key, successor, founding, Active, block.height, 0, successor, keys, ZERO_HASH, 0);
          active := active[successor := key];
          objects := objects[key := obj];
          event := ValidEvent(c, Value(), block, tx, txIndex, eventIndex, CreateEvent, key, 0, ZERO_OUTPOINT, successor,
                              keys, ZERO_HASH);
        case Mark(obj, sequence, commitment) =>
          var predecessor := obj.currentOutpoint;
          active := active - {predecessor};
          var next := obj.(currentOutpoint := successor, stateSeq := sequence);
          next := next.(chapterCount := next.chapterCount + 1);
          active := active[successor := next.objectKey];
          objects := objects[next.objectKey := next];
          event := ValidEvent(c, Value(), block, tx, txIndex, eventIndex, MarkEvent, next.objectKey, sequence,
                              predecessor, successor, next.keys, commitment);
        case Rotate(obj, sequence, keys) =>
          var predecessor := obj.currentOutpoint;
          active := active - {predecessor};
          var next := obj.(currentOutpoint := successor, stateSeq := sequence, keys := keys);
          active := active[successor := next.objectKey];
          objects := objects[next.objectKey := next];
          event := ValidEvent(c, Value(), block, tx, txIndex, eventIndex, RotateEvent, next.objectKey, sequence,
                              predecessor, successor, keys, ZERO_HASH);
        case Close(obj, sequence, commitment) =>
          var predecessor := obj.currentOutpoint;
          TerminateObject(obj, Closed, tx.txid);
          if obj.objectKey in objects {
            objects := objects[obj.objectKey := objects[obj.objectKey].(stateSeq := sequence)];
          }
          event := ValidEvent(c, Value(), block, tx, txIndex, eventIndex, CloseEvent, obj.objectKey, sequence,
                              predecessor, ZERO_OUTPOINT, obj.keys, commitment);
      }
    }

    /** The program's own dispatch: marker count, carrier count, refund detection, then the validators. */
    method ProcessTransaction(c: Crypto, block: BlockView, tx: TxView, txIndex: u32) returns (events: seq<Event>)
      requires Bounded(Value()) && Fits(tx)
      modifies this`active, this`objects
      ensures Step(Value(), events) == Reducer.ProcessTransaction(c, old(Value()), block, tx, txIndex)
    {
      ghost var verdict := Classify(c, Value(), block.height, tx);
      ClassifyFacts(c, Value(), block.height, tx);
      AcceptedIsApplicable(c, Value(), block.height, tx, verdict);
      var candidates := Candidates(tx, binding);
      var carriers := CarrierSpends(Value(), tx.inputs);
      if |candidates| > 1 {
        var eventIndex := MinVout(candidates);
        if |carriers| == 0 {
          return [BareInvalidEvent(block, tx, txIndex, eventIndex, InvalidEvent, MultipleMarkers, ZERO_HASH)];
        }
        events := TerminateCarriers(block, tx, txIndex, eventIndex, MultipleMarkers, ZERO_HASH, carriers);
        return;
      }
      if |carriers| > 1 {
        var eventIndex := if |candidates| == 0 then U32_MAX else candidates[0].vout;
        var namespace := if |candidates| == 0 then binding.Namespace(c) else PopulationNamespace(candidates[0]);
        events := TerminateCarriers(block, tx, txIndex, eventIndex, MultipleCarriers, namespace, carriers);
        return;
      }
      if |candidates| == 0 {
        if |carriers| == 0 { return []; }
        var obj := carriers[0].obj;
        if |tx.inputs| == 1 && |tx.outputs| == 2 {
          if RefundAccepted(c, block.height, tx, obj) {
            var event := ValidEvent(c, Value(), block, tx, txIndex, U32_MAX, RefundEvent, obj.objectKey, obj.stateSeq,
                                    obj.currentOutpoint, ZERO_OUTPOINT, obj.keys, ZERO_HASH);
            TerminateObject(obj, Refunded, tx.txid);
            return [event];
          }
          events := TerminateCarriers(block, tx, txIndex, U32_MAX, BadRefundShapeOrMaturity, binding.Namespace(c),
                                      carriers);
          return;
        }
        events := TerminateCarriers(block, tx, txIndex, U32_MAX, UnmarkedCarrierSpend, binding.Namespace(c), carriers);
        return;
      }
      var candidate := candidates[0];
      var namespace := PopulationNamespace(candidate);
      match ValidateMarked(c, Value(), block.height, tx, candidate, FirstSpend(carriers)) {
        case Ok(op) =>
          var event := ApplyValidOperation(c, block, tx, txIndex, candidate.vout, op);
          events := [event];
        case Err(reason) =>
          if |carriers| == 0 {
            events := [BareInvalidEvent(block, tx, txIndex, candidate.vout, AttemptedEventType(candidate), reason,
                                        namespace)];
          } else {
            events := TerminateCarriers(block, tx, txIndex, candidate.vout, reason, namespace, carriers);
          }
      }
    }

    /** Reduce the block's transactions in order; in the INIT block the configured INIT only emits its event. */
    method ProcessAll(c: Crypto, block: BlockView, initBlock: bool) returns (events: seq<Event>)
      requires Bounded(Value()) && BlockFits(block) && |block.transactions| <= U32_MAX
      modifies this`active, this`objects
      ensures Step(Value(), events) == ProcessPrefix(c, old(Value()), block, initBlock, |block.transactions|)
    {
      hide Reducer.ProcessTransaction, ValidInitEvent;
      events := [];
      var i := 0;
      while i < |block.transactions|
        invariant i <= |block.transactions|
        invariant Step(Value(), events) == ProcessPrefix(c, old(Value()), block, initBlock, i)
      {
        var tx := block.transactions[i];
        var more: seq<Event>;
        if initBlock && tx.txid == binding.initTxid {
          more := [ValidInitEvent(c, Value(), block, tx, i)];
        } else {
          more := ProcessTransaction(c, block, tx, i);
        }
        events := events + more;
        i := i + 1;
      }
    }

    /** One canonical block, atomically: an error leaves every field as it was, and no index, counter or conversion on
        the way can fail on a block whose counts fit the 32-bit encoding. */
    method ApplyBlock(c: Crypto, block: BlockView) returns (r: Result<BlockDelta, ReducerError>)
      requires Bounded(Value()) && BlockFits(block)
      modifies this
      ensures Bounded(Value())
      ensures r.Err? ==> Value() == old(Value())
      ensures var spec := Reducer.ApplyBlock(c, old(Value()), block);
              match r
              case Ok(delta) => spec == Ok(Applied(Value(), delta)) && delta.before == old(Value())
              case Err(error) => spec == Result<Applied, ReducerError>.Err(error)
    {
      hide ProcessPrefix, ValidateConfiguredInit, FailedInitEvent, EventRoot, ObjectStateRoot, ObjectsInOrder,
           BlockRoot;
      var linkage := ValidateLinkage(Value(), block);
      if linkage.Fail? { return Err(linkage.error); }
      if |block.transactions| > U32_MAX { return Err(TransactionIndexOverflow); }
      var before := Value();
      var namespace := binding.Namespace(c);
      var events := [];
      match protocolStatus {
        case AwaitingInit =>
          var found := FindInit(block.transactions, binding.initTxid);
          if found.None? { return Err(ConfiguredInitAbsent); }
          var tx := block.transactions[found.value];
          match ValidateConfiguredInit(c, binding, block.height, tx) {
            case Ok(params) =>
              protocolStatus := Running(block.height, params.hOpen, params.hClose);
              events := ProcessAll(c, block, true);
            case Err(reason) =>
              protocolStatus := FailedInit(reason, block.height);
              events := [FailedInitEvent(c, binding, block, tx, found.value, reason)];
          }
        case Running(_, _, _) => events := ProcessAll(c, block, false);
        case FailedInit(_, _) =>
      }
      assert ReduceBlock(c, before, block) == Ok(Step(Value(), events));
      var eventRoot := EventRoot(c, namespace, events);
      var objectRoot := ObjectStateRoot(c, namespace, ObjectsInOrder(objects));
      var counters := CountersOf(objects);
      var chained := BlockRoot(c, namespace, chainedRoot, block.hash, block.height, eventRoot, objectRoot, counters);
      tipHeight, tipHash, chainedRoot := Some(block.height), Some(block.hash), chained;
      var roots := HeightRoots(block.height, block.hash, eventRoot, objectRoot, chained, counters);
      r := Ok(BlockDelta(before, block.hash, block.previousHash, block.height, events, roots));
    }

    /** Restore the inverse journal of exactly the current tip. */
    method DisconnectBlock(delta: BlockDelta) returns (r: Guard<ReducerError>)
      modifies this
      ensures r.Pass? <==> old(tipHash) == Some(delta.blockHash) && old(tipHeight) == Some(delta.height)
      ensures r.Pass? ==> Value() == delta.before
      ensures r.Fail? ==> r.error == DisconnectMismatch && Value() == old(Value())
    {
      if tipHash != Some(delta.blockHash) || tipHeight != Some(delta.height) { return Fail(DisconnectMismatch); }
      Assign(delta.before);
      r := Pass;
    }
  }
}
