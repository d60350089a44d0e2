/** The emitted log: its order inside a block, and the fact that it determines the two state maps. */
module EventLog {
  import opened Primitives
  import opened Types
  import opened Validators
  import opened Sorting
  import opened Roots
  import opened Reducer

  // ---------- order ----------

  /** Strictly increasing in (tx_index, event_index, sub_index). */
  ghost predicate StrictlyOrdered(events: seq<Event>) {
    forall i, j :: 0 <= i < j < |events| ==> KeyBelow(events[i], events[j])
  }

  /** The primary-key order: transaction, then event, then sub-index. */
  predicate KeyBelow(a: Event, b: Event) {
    || a.txIndex < b.txIndex
    || (a.txIndex == b.txIndex && a.eventIndex < b.eventIndex)
    || (a.txIndex == b.txIndex && a.eventIndex == b.eventIndex && a.subIndex < b.subIndex)
  }

  lemma KeyOrderIsEventOrder(a: Event, b: Event)
    ensures EventLess(a, b) <==> KeyBelow(a, b)
  {
  }

  ghost predicate Numbered(events: seq<Event>, txIndex: u32) {
    (forall i :: 0 <= i < |events| ==> events[i].txIndex == txIndex && events[i].subIndex == i) &&
    (forall i, j :: 0 <= i < j < |events| ==> events[i].eventIndex == events[j].eventIndex)
  }

  lemma {:induction false} ExitAllNumbered(
    st: ChainState, block: BlockView, tx: TxView, txIndex: u32, eventIndex: u32, reason: Reason, namespace: Hash32,
    carriers: seq<Spend>)
    requires |carriers| <= U32_MAX
    ensures var events := ExitAll(st, block, tx, txIndex, eventIndex, reason, namespace, carriers).events;
            Numbered(events, txIndex) && forall i :: 0 <= i < |events| ==>
              events[i] == ExitedEvent(block, tx, txIndex, eventIndex, i, reason, namespace, carriers[i].obj)
    decreases |carriers|
  {
    if |carriers| > 0 {
      ExitAllNumbered(st, block, tx, txIndex, eventIndex, reason, namespace, carriers[..|carriers| - 1]);
    }
  }

  lemma ProcessNumbered(c: Crypto, st: ChainState, block: BlockView, tx: TxView, txIndex: u32)
    requires Bounded(st) && Fits(tx)
    ensures Numbered(ProcessTransaction(c, st, block, tx, txIndex).events, txIndex)
  {
    hide Classify;
    var v := Classify(c, st, block.height, tx);
    if v.Exit? {
      ExitAllNumbered(st, block, tx, txIndex, v.eventIndex, v.reason, v.namespace,
                      SortBy(SpendLess, CarrierSpends(st, tx.inputs)));
    }
  }

  lemma {:induction false} PrefixOrdered(c: Crypto, st: ChainState, block: BlockView, initBlock: bool, count: nat)
    requires Bounded(st) && BlockFits(block) && count <= |block.transactions| <= U32_MAX
    ensures var events := ProcessPrefix(c, st, block, initBlock, count).events;
            StrictlyOrdered(events) && forall i :: 0 <= i < |events| ==> events[i].txIndex < count
    decreases count
  {
    hide ProcessTransaction;
    if count > 0 {
      PrefixOrdered(c, st, block, initBlock, count - 1);
      var before := ProcessPrefix(c, st, block, initBlock, count - 1);
      var tx := block.transactions[count - 1];
      if !(initBlock && tx.txid == st.binding.initTxid) {
        ProcessNumbered(c, before.state, block, tx, count - 1);
      }
    }
  }

  lemma ReduceOrdered(c: Crypto, st: ChainState, block: BlockView)
    requires Bounded(st) && BlockFits(block) && |block.transactions| <= U32_MAX && ReduceBlock(c, st, block).Ok?
    ensures StrictlyOrdered(ReduceBlock(c, st, block).value.events)
  {
    hide ValidateConfiguredInit, ProcessPrefix;
    match st.protocolStatus {
      case AwaitingInit =>
        var found := FindInit(block.transactions, st.binding.initTxid).value;
        var init := ValidateConfiguredInit(c, st.binding, block.height, block.transactions[found]);
        if init.Ok? {
          var running := st.(protocolStatus := Running(block.height, init.value.hOpen, init.value.hClose));
          PrefixOrdered(c, running, block, true, |block.transactions|);
        }
      case Running(_, _, _) => PrefixOrdered(c, st, block, false, |block.transactions|);
      case FailedInit(_, _) =>
    }
  }

  lemma OrderedIsSorted(events: seq<Event>)
    requires StrictlyOrdered(events)
    ensures SortBy(EventLess, events) == events
    ensures forall i, j :: 0 <= i < j < |events| ==>
              events[i].txIndex != events[j].txIndex || events[i].eventIndex != events[j].eventIndex ||
              events[i].subIndex != events[j].subIndex
  {
    SortOrdered(EventLess, events);
  }

  /** Every block's events are strictly ordered, so the root's sort is a no-op and
      `PRIMARY KEY (height, tx_index, event_index, sub_index)` cannot clash. */
  lemma BlockEventsOrdered(c: Crypto, st: ChainState, block: BlockView)
    requires Bounded(st) && BlockFits(block) && ApplyBlock(c, st, block).Ok?
    ensures var events := ApplyBlock(c, st, block).value.delta.events;
            StrictlyOrdered(events) && SortBy(EventLess, events) == events
    ensures var events := ApplyBlock(c, st, block).value.delta.events;
            forall i, j :: 0 <= i < j < |events| ==>
              events[i].txIndex != events[j].txIndex || events[i].eventIndex != events[j].eventIndex ||
              events[i].subIndex != events[j].subIndex
  {
    ReduceOrdered(c, st, block);
    OrderedIsSorted(ReduceBlock(c, st, block).value.events);
  }

  /** The exits of one transaction are reported in increasing object-key order. */
  lemma ExitsInKeyOrder(st: ChainState, inputs: seq<InputView>)
    ensures var s := SortBy(SpendLess, CarrierSpends(st, inputs));
            forall i, j :: 0 <= i < j < |s| ==> !LexLess(s[j].obj.objectKey, s[i].obj.objectKey)
  {
    forall x: Spend, y: Spend ensures SpendLess(x, y) ==> !SpendLess(y, x) {
      if SpendLess(x, y) { LexAsymmetric(x.obj.objectKey, y.obj.objectKey); }
    }
    forall x: Spend, y: Spend, z: Spend ensures SpendLess(x, z) ==> SpendLess(x, y) || SpendLess(y, z) {
      if SpendLess(x, z) && !SpendLess(y, z) {
        LexTotal(y.obj.objectKey, z.obj.objectKey);
        if y.obj.objectKey != z.obj.objectKey { LexTransitive(x.obj.objectKey, z.obj.objectKey, y.obj.objectKey); }
      }
    }
    SortIsOrdered(SpendLess, CarrierSpends(st, inputs));
  }

  // ---------- an interpreter that sees only the log ----------

  datatype View = View(objects: map<Hash32, ObjectState>, active: map<OutPointRef, Hash32>)

  function ViewOf(st: ChainState): View { View(st.objects, st.active) }

  datatype Phase = Phase(hOpen: u64, hClose: u64)

  function PhaseOf(status: ProtocolStatus): Phase {
    if status.Running? then Phase(status.hOpen, status.hClose) else Phase(0, 0)
  }

  function EndedBy(v: View, e: Event, status: ObjectStatus): View {
    View(if e.objectKey in v.objects
         then v.objects[e.objectKey := Terminated(v.objects[e.objectKey], status, e.txid).(stateSeq := e.stateSeq)]
         else v.objects,
         v.active - {e.predecessor})
  }

  function MovedBy(v: View, e: Event, chapters: u32): View {
    if e.objectKey !in v.objects || v.objects[e.objectKey].chapterCount + chapters > U32_MAX then v
    else
      var o := v.objects[e.objectKey];
      View(v.objects[e.objectKey := o.(currentOutpoint := e.successor, stateSeq := e.stateSeq,
                                       keys := KeyPair(e.key0, e.key1), chapterCount := o.chapterCount + chapters)],
           (v.active - {e.predecessor})[e.successor := e.objectKey])
  }

  function CreatedBy(phase: Phase, v: View, e: Event): View {
    View(v.objects[e.objectKey := ObjectState(e.objectKey, e.successor, phase.hOpen <= e.height < phase.hClose, Active,
                                              e.height, e.stateSeq, e.successor, KeyPair(e.key0, e.key1), ZERO_HASH,
                                                0)],
         v.active[e.successor := e.objectKey])
  }

  /** Replay one event from its own fields; invalid and INIT events change nothing. */
  function Interpret(phase: Phase, v: View, e: Event): View {
    match e.validityClass
    case InvalidNoState => v
    case TerminalNoncanonical => EndedBy(v, e, ExitedNoncanonical)
    case ValidOperation =>
      match e.eventType
      case CreateEvent => CreatedBy(phase, v, e)
      case MarkEvent => MovedBy(v, e, 1)
      case RotateEvent => MovedBy(v, e, 0)
      case CloseEvent => EndedBy(v, e, Closed)
      case RefundEvent => EndedBy(v, e, Refunded)
      case _ => v
  }

  function InterpretAll(phase: Phase, v: View, events: seq<Event>): View {
    if |events| == 0 then v
    else Interpret(phase, InterpretAll(phase, v, events[..|events| - 1]), events[|events| - 1])
  }

  lemma {:induction false} InterpretConcat(phase: Phase, v: View, a: seq<Event>, b: seq<Event>)
    ensures InterpretAll(phase, v, a + b) == InterpretAll(phase, InterpretAll(phase, v, a), b)
    decreases |b|
  {
    if |b| == 0 {
      assert a + b == a;
    } else {
      InterpretConcat(phase, v, a, b[..|b| - 1]);
      assert (a + b)[..|a + b| - 1] == a + b[..|b| - 1];
    }
  }

  // ---------- the log determines the state ----------

  /** The spent objects are the stored ones, so an event's key leads the interpreter to the same object. */
  ghost predicate Stored(st: ChainState, carriers: seq<Spend>) {
    forall i :: 0 <= i < |carriers| ==>
      carriers[i].obj.objectKey in st.objects &&
      carriers[i].obj.stateSeq == st.objects[carriers[i].obj.objectKey].stateSeq
  }

  lemma {:induction false} ExitAllInterpreted(
    phase: Phase, st: ChainState, block: BlockView, tx: TxView, txIndex: u32, eventIndex: u32, reason: Reason,
    namespace: Hash32, carriers: seq<Spend>)
    requires |carriers| <= U32_MAX && Stored(st, carriers)
    ensures var r := ExitAll(st, block, tx, txIndex, eventIndex, reason, namespace, carriers);
            ViewOf(r.state) == InterpretAll(phase, ViewOf(st), r.events) && r.state.objects.Keys == st.objects.Keys &&
            forall k :: k in st.objects ==> r.state.objects[k].stateSeq == st.objects[k].stateSeq
    decreases |carriers|
  {
    if |carriers| > 0 {
      var last := |carriers| - 1;
      ExitAllInterpreted(phase, st, block, tx, txIndex, eventIndex, reason, namespace, carriers[..last]);
      var rest := ExitAll(st, block, tx, txIndex, eventIndex, reason, namespace, carriers[..last]);
      var r := ExitAll(st, block, tx, txIndex, eventIndex, reason, namespace, carriers);
      assert r.events[..last] == rest.events;
      assert Stored(st, carriers[last..]);
    }
  }

  lemma OperationInterpreted(
    c: Crypto, st: ChainState, block: BlockView, tx: TxView, txIndex: u32, eventIndex: u32, op: Operation)
    requires Applicable(st, op)
    requires !op.Create? ==> op.obj.objectKey in st.objects && st.objects[op.obj.objectKey] == op.obj
    ensures var r := ApplyOperation(c, st, block, tx, txIndex, eventIndex, op);
            |r.events| == 1 && ViewOf(r.state) == Interpret(PhaseOf(st.protocolStatus), ViewOf(st), r.events[0])
  {
  }

  lemma InterpretOne(phase: Phase, v: View, e: Event)
    ensures InterpretAll(phase, v, [e]) == Interpret(phase, v, e)
  {
    assert [e][..0] == [];
  }

  lemma RefundInterpreted(c: Crypto, st: ChainState, block: BlockView, tx: TxView, txIndex: u32, obj: ObjectState)
    requires Fits(tx) && obj.objectKey in st.objects && st.objects[obj.objectKey] == obj
    ensures var r := Execute(c, st, block, tx, txIndex, Refund(obj));
            |r.events| == 1 && ViewOf(r.state) == Interpret(PhaseOf(st.protocolStatus), ViewOf(st), r.events[0])
  {
  }

  lemma ExitInterpreted(
    phase: Phase, st: ChainState, block: BlockView, tx: TxView, txIndex: u32, eventIndex: u32, reason: Reason,
    namespace: Hash32)
    requires Bounded(st) && Fits(tx)
    ensures var r := ExitAll(st, block, tx, txIndex, eventIndex, reason, namespace,
                             SortBy(SpendLess, CarrierSpends(st, tx.inputs)));
            ViewOf(r.state) == InterpretAll(phase, ViewOf(st), r.events)
  {
    hide SortBy, CarrierSpends, ExitAll, InterpretAll;
    var carriers := CarrierSpends(st, tx.inputs);
    var sorted := SortBy(SpendLess, carriers);
    SortMembers(SpendLess, carriers);
    forall i | 0 <= i < |sorted|
      ensures sorted[i].obj.objectKey in st.objects &&
              sorted[i].obj.stateSeq == st.objects[sorted[i].obj.objectKey].stateSeq
    {
      assert sorted[i] in carriers;
    }
    ExitAllInterpreted(phase, st, block, tx, txIndex, eventIndex, reason, namespace, sorted);
  }

  lemma ProcessInterpreted(c: Crypto, st: ChainState, block: BlockView, tx: TxView, txIndex: u32)
    requires Bounded(st) && Fits(tx)
    ensures var r := ProcessTransaction(c, st, block, tx, txIndex);
            ViewOf(r.state) == InterpretAll(PhaseOf(st.protocolStatus), ViewOf(st), r.events)
  {
    hide Classify, RefundAccepted, ApplyOperation, ExitAll, SortBy, Interpret, TerminateObject;
    var v := Classify(c, st, block.height, tx);
    var phase := PhaseOf(st.protocolStatus);
    ClassifyFacts(c, st, block.height, tx);
    AcceptedIsApplicable(c, st, block.height, tx, v);
    var carriers := CarrierSpends(st, tx.inputs);
    if |carriers| > 0 { assert carriers[0] in carriers; }
    var r := Execute(c, st, block, tx, txIndex, v);
    match v {
      case Exit(eventIndex, reason, namespace) => ExitInterpreted(phase, st, block, tx, txIndex, eventIndex, reason,
                                                                  namespace);
      case Refund(obj) =>
        RefundInterpreted(c, st, block, tx, txIndex, obj);
        InterpretOne(phase, ViewOf(st), r.events[0]);
      case Accept(eventIndex, op) =>
        OperationInterpreted(c, st, block, tx, txIndex, eventIndex, op);
        InterpretOne(phase, ViewOf(st), r.events[0]);
      case Reject(_, _, _, _) =>
        InterpretOne(phase, ViewOf(st), r.events[0]);
        InvalidChangesNothing(phase, ViewOf(st), r.events[0]);
      case Silent =>
    }
  }

  lemma InvalidChangesNothing(phase: Phase, v: View, e: Event)
    requires e.validityClass == InvalidNoState
    ensures Interpret(phase, v, e) == v
  {
  }

  lemma {:induction false} PrefixInterpreted(c: Crypto, st: ChainState, block: BlockView, initBlock: bool, count: nat)
    requires Bounded(st) && BlockFits(block) && count <= |block.transactions| <= U32_MAX
    ensures var r := ProcessPrefix(c, st, block, initBlock, count);
            ViewOf(r.state) == InterpretAll(PhaseOf(st.protocolStatus), ViewOf(st), r.events)
    decreases count
  {
    hide ProcessTransaction;
    if count > 0 {
      PrefixInterpreted(c, st, block, initBlock, count - 1);
      var before := ProcessPrefix(c, st, block, initBlock, count - 1);
      var tx := block.transactions[count - 1];
      var phase := PhaseOf(st.protocolStatus);
      if initBlock && tx.txid == st.binding.initTxid {
        var event := ValidInitEvent(c, before.state, block, tx, count - 1);
        assert (before.events + [event])[..|before.events|] == before.events;
      } else {
        ProcessInterpreted(c, before.state, block, tx, count - 1);
        InterpretConcat(phase, ViewOf(st), before.events,
                        ProcessTransaction(c, before.state, block, tx, count - 1).events);
      }
    }
  }

  /** All events of a run, in emission order. */
  function Log(c: Crypto, binding: Binding, blocks: seq<BlockView>): seq<Event>
    requires forall i :: 0 <= i < |blocks| ==> BlockFits(blocks[i])
    requires Replay(c, binding, blocks).Some?
  {
    if |blocks| == 0 then []
    else
      var init := blocks[..|blocks| - 1];
      Log(c, binding, init) + ApplyBlock(c, Replay(c, binding, init).value, blocks[|blocks| - 1]).value.delta.events
  }

  /** A run awaits INIT exactly while it is empty. */
  lemma AwaitingIffEmpty(c: Crypto, binding: Binding, blocks: seq<BlockView>)
    requires forall i :: 0 <= i < |blocks| ==> BlockFits(blocks[i])
    requires Replay(c, binding, blocks).Some?
    ensures Replay(c, binding, blocks).value.protocolStatus.AwaitingInit? <==> |blocks| == 0
  {
    hide ApplyBlock;
    if |blocks| > 0 {
      AppliedHasStarted(c, Replay(c, binding, blocks[..|blocks| - 1]).value, blocks[|blocks| - 1]);
    }
  }

  lemma AppliedHasStarted(c: Crypto, st: ChainState, block: BlockView)
    requires Bounded(st) && BlockFits(block) && ApplyBlock(c, st, block).Ok?
    ensures !ApplyBlock(c, st, block).value.state.protocolStatus.AwaitingInit?
  {
    hide ValidateConfiguredInit, ProcessPrefix, FailedInitEvent, EventRoot, ObjectStateRoot, ObjectsInOrder, BlockRoot,
         CountersOf;
  }

  lemma BlockInterpreted(c: Crypto, st: ChainState, block: BlockView)
    requires Bounded(st) && BlockFits(block) && ApplyBlock(c, st, block).Ok?
    ensures var a := ApplyBlock(c, st, block).value;
            ViewOf(a.state) == InterpretAll(PhaseOf(a.state.protocolStatus), ViewOf(st), a.delta.events)
    ensures !st.protocolStatus.AwaitingInit? ==>
            ApplyBlock(c, st, block).value.state.protocolStatus == st.protocolStatus
  {
    hide ValidateConfiguredInit, ProcessPrefix, Interpret, EventRoot, ObjectStateRoot, ObjectsInOrder, BlockRoot,
         CountersOf;
    match st.protocolStatus {
      case AwaitingInit =>
        var found := FindInit(block.transactions, st.binding.initTxid).value;
        var tx := block.transactions[found];
        var init := ValidateConfiguredInit(c, st.binding, block.height, tx);
        if init.Ok? {
          var running := st.(protocolStatus := Running(block.height, init.value.hOpen, init.value.hClose));
          PrefixInterpreted(c, running, block, true, |block.transactions|);
        } else {
          var e := FailedInitEvent(c, st.binding, block, tx, found, init.error);
          var phase := PhaseOf(ApplyBlock(c, st, block).value.state.protocolStatus);
          InterpretOne(phase, ViewOf(st), e);
          InvalidChangesNothing(phase, ViewOf(st), e);
        }
      case Running(_, _, _) => PrefixInterpreted(c, st, block, false, |block.transactions|);
      case FailedInit(_, _) =>
    }
  }

  /** Folding the interpreter over everything a run emitted rebuilds exactly its `objects` and `active` maps. */
  lemma {:induction false} LogDeterminesState(c: Crypto, binding: Binding, blocks: seq<BlockView>)
    requires forall i :: 0 <= i < |blocks| ==> BlockFits(blocks[i])
    requires Replay(c, binding, blocks).Some?
    ensures var st := Replay(c, binding, blocks).value;
            ViewOf(st) == InterpretAll(PhaseOf(st.protocolStatus), View(map[], map[]), Log(c, binding, blocks))
    decreases |blocks|
  {
    if |blocks| > 0 {
      var init, block := blocks[..|blocks| - 1], blocks[|blocks| - 1];
      LogDeterminesState(c, binding, init);
      AwaitingIffEmpty(c, binding, init);
      var before := Replay(c, binding, init).value;
      BlockInterpreted(c, before, block);
      var a := ApplyBlock(c, before, block).value;
      InterpretConcat(PhaseOf(a.state.protocolStatus), View(map[], map[]), Log(c, binding, init), a.delta.events);
    }
  }
}
