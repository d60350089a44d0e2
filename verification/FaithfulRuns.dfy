/** Whole runs over a faithful source: index agreement, carrier backing, lineage and timing together. */
module FaithfulRuns {
  import opened Primitives
  import opened Types
  import opened Validators
  import opened Sorting
  import opened Reducer
  import opened EventLog
  import opened LocalInvariant
  import opened Heights
  import opened Ledger
  import opened Transitions
  import opened Lineage

  const EMPTY_VIEW: View := View(map[], map[])
  const EMPTY_UTXO: Utxo := Utxo(map[], {})

  ghost predicate RunInv(c: Crypto, st: ChainState, l: Utxo, log: seq<Event>, height: u64) {
    && LocalInv(c, st)
    && LedgerInv(c, st, l, height)
    && Linear(log)
    && HeightsMatch(st, l, log)
    && ViewOf(st) == InterpretAll(PhaseOf(st.protocolStatus), EMPTY_VIEW, log)
  }

  lemma TailsOfState(c: Crypto, st: ChainState, l: Utxo, log: seq<Event>, height: u64)
    requires RunInv(c, st, l, log, height)
    ensures TailsMatch(ViewOf(st), log)
  {
    LinearLogView(PhaseOf(st.protocolStatus), log);
  }

  // ---------- each new event extends its chain ----------

  /** The chain of a stored active object ends in the event that made its current carrier. */
  ghost predicate ChainEnd(l: Utxo, obj: ObjectState, p: Option<Event>) {
    p.Some? && Continues(p.value) && p.value.successor == obj.currentOutpoint && p.value.stateSeq == obj.stateSeq &&
    KeyPair(p.value.key0, p.value.key1) == obj.keys && obj.currentOutpoint in l.coins &&
    l.coins[obj.currentOutpoint].height == p.value.height
  }

  lemma StoredChainEnd(c: Crypto, st: ChainState, l: Utxo, log: seq<Event>, height: u64, k: Hash32)
    requires RunInv(c, st, l, log, height) && k in st.objects && st.objects[k].status == Active
    ensures ChainEnd(l, st.objects[k], Tail(log, k))
  {
    TailsOfState(c, st, l, log, height);
  }

  lemma CreateFollows(
    c: Crypto, st: ChainState, l: Utxo, before: u64, log: seq<Event>, block: BlockView, tx: TxView, txIndex: u32,
    eventIndex: u32, keys: KeyPair)
    requires RunInv(c, st, l, log, before) && FaithfulTx(l, tx) && st.protocolStatus.Running?
    requires NoKeyClash(c, st.binding.Namespace(c), l.txids + {tx.txid})
    ensures var e := ApplyOperation(c, st, block, tx, txIndex, eventIndex, Create(keys)).events[0];
            Follows(Tail(log, e.objectKey), e)
  {
    FreshKey(c, st, l, before, tx);
    TailsOfState(c, st, l, log, before);
    assert ObjectKey(c, st.binding.Namespace(c), tx.txid) !in ViewOf(st).objects;
  }

  lemma StepFollows(
    c: Crypto, st: ChainState, l: Utxo, before: u64, log: seq<Event>, block: BlockView, tx: TxView, txIndex: u32,
    eventIndex: u32, op: Operation)
    requires RunInv(c, st, l, log, before) && FaithfulTx(l, tx) && Applicable(st, op) && !op.Create?
    requires VerdictFacts(c, st, block.height, tx, Accept(eventIndex, op))
    ensures var e := ApplyOperation(c, st, block, tx, txIndex, eventIndex, op).events[0];
            Follows(Tail(log, e.objectKey), e)
  {
    OperandOk(c, st, block.height, tx, eventIndex, op);
    StoredChainEnd(c, st, l, log, before, op.obj.objectKey);
    assert CarrierSpends(st, tx.inputs) == [Spend(0, op.obj)];
    StepWasEarlier(c, st, l, before, block.height, tx, op.obj, op.sequence);
  }

  /** A refunded carrier was confirmed at least 52,560 blocks earlier. */
  lemma RefundFollows(
    c: Crypto, st: ChainState, l: Utxo, before: u64, log: seq<Event>, block: BlockView, tx: TxView, txIndex: u32,
    obj: ObjectState)
    requires RunInv(c, st, l, log, before) && FaithfulTx(l, tx) && Fits(tx) && block.height <= I64_MAX
    requires VerdictFacts(c, st, block.height, tx, Refund(obj))
    ensures var e := Execute(c, st, block, tx, txIndex, Refund(obj)).events[0];
            Follows(Tail(log, e.objectKey), e)
  {
    assert Spend(0, obj) in CarrierSpends(st, tx.inputs);
    assert tx.inputs[0].prevout in st.active && st.objects[st.active[tx.inputs[0].prevout]] == obj;
    StoredChainEnd(c, st, l, log, before, obj.objectKey);
    CarrierInputResolved(c, st, l, before, tx, 0);
  }

  ghost predicate ExitsReady(l: Utxo, log: seq<Event>, carriers: seq<Spend>) {
    && (forall i :: 0 <= i < |carriers| ==> ChainEnd(l, carriers[i].obj, Tail(log, carriers[i].obj.objectKey)))
    && (forall i, j :: 0 <= i < j < |carriers| ==> carriers[i].obj.objectKey != carriers[j].obj.objectKey)
  }

  lemma ExitSnocFollows(
    l: Utxo, log: seq<Event>, log': seq<Event>, block: BlockView, tx: TxView, txIndex: u32, eventIndex: u32,
    subIndex: u32, reason: Reason, namespace: Hash32, obj: ObjectState)
    requires Linear(log') && Tail(log', obj.objectKey) == Tail(log, obj.objectKey) &&
             ChainEnd(l, obj, Tail(log, obj.objectKey))
    ensures var e := ExitedEvent(block, tx, txIndex, eventIndex, subIndex, reason, namespace, obj);
            Linear(log' + [e]) && forall k: Hash32 :: k != obj.objectKey ==> Tail(log' + [e], k) == Tail(log', k)
  {
    hide Linear, Tail;
    var e := ExitedEvent(block, tx, txIndex, eventIndex, subIndex, reason, namespace, obj);
    LinearSnoc(log', e);
    forall k: Hash32 | k != obj.objectKey ensures Tail(log' + [e], k) == Tail(log', k) { TailSnoc(log', e, k); }
  }

  lemma {:induction false} ExitsFollow(
    st: ChainState, l: Utxo, log: seq<Event>, block: BlockView, tx: TxView, txIndex: u32,
    eventIndex: u32, reason: Reason, namespace: Hash32, carriers: seq<Spend>)
    requires Linear(log) && |carriers| <= U32_MAX && ExitsReady(l, log, carriers)
    ensures var events := ExitAll(st, block, tx, txIndex, eventIndex, reason, namespace, carriers).events;
            Linear(log + events) && forall k: Hash32 :: !KeyIn(carriers, k) ==> Tail(log + events, k) == Tail(log, k)
    decreases |carriers|
  {
    hide Linear, Tail, ChainEnd, TerminateObject, ExitedEvent;
    var events := ExitAll(st, block, tx, txIndex, eventIndex, reason, namespace, carriers).events;
    if |carriers| == 0 {
      assert log + events == log;
    } else {
      var last := |carriers| - 1;
      var init, obj := carriers[..last], carriers[last].obj;
      ExitsFollow(st, l, log, block, tx, txIndex, eventIndex, reason, namespace, init);
      var earlier := ExitAll(st, block, tx, txIndex, eventIndex, reason, namespace, init).events;
      var e := ExitedEvent(block, tx, txIndex, eventIndex, last, reason, namespace, obj);
      assert log + events == (log + earlier) + [e];
      assert !KeyIn(init, obj.objectKey);
      ExitSnocFollows(l, log, log + earlier, block, tx, txIndex, eventIndex, last, reason, namespace, obj);
      forall k: Hash32 | !KeyIn(carriers, k) ensures Tail(log + events, k) == Tail(log, k) { KeyInSnoc(carriers, k); }
    }
  }

  // ---------- one transaction ----------

  /** The chains after a transaction: still linear, new ends only where objects were spent or moved. */
  ghost predicate ChainsExtended(
    st: ChainState, tx: TxView, height: u64, mover: Option<Hash32>, log: seq<Event>, log': seq<Event>) {
    && Linear(log')
    && (forall k :: k in st.objects && !IsSpent(tx, st.objects[k]) ==> Tail(log', k) == Tail(log, k))
    && (mover.Some? ==> Tail(log', mover.value).Some? && Tail(log', mover.value).value.height == height)
  }

  lemma OneEventExtends(st: ChainState, tx: TxView, height: u64, mover: Option<Hash32>, log: seq<Event>, e: Event)
    requires Linear(log) && Touches(e) && Follows(Tail(log, e.objectKey), e) && e.height == height
    requires mover == None || mover == Some(e.objectKey)
    requires e.objectKey in st.objects ==> IsSpent(tx, st.objects[e.objectKey])
    ensures ChainsExtended(st, tx, height, mover, log, log + [e])
  {
    hide Linear, Tail, IsSpent, Follows;
    LinearSnoc(log, e);
    forall k: Hash32 ensures Tail(log + [e], k) == if e.objectKey == k then Some(e) else Tail(log, k) {
      TailSnoc(log, e, k);
    }
  }

  lemma OperandIsSpent(c: Crypto, st: ChainState, height: u64, tx: TxView, eventIndex: u32, op: Operation)
    requires LocalInv(c, st) && VerdictFacts(c, st, height, tx, Accept(eventIndex, op)) && !op.Create?
    ensures op.obj.objectKey in st.objects ==> IsSpent(tx, st.objects[op.obj.objectKey])
  {
    OperandOk(c, st, height, tx, eventIndex, op);
    hide LocalInv;
    assert tx.inputs[0].prevout == op.obj.currentOutpoint;
  }

  lemma OperationExtends(
    c: Crypto, st: ChainState, l: Utxo, before: u64, log: seq<Event>, block: BlockView, tx: TxView, txIndex: u32,
    eventIndex: u32, op: Operation)
    requires RunInv(c, st, l, log, before) && FaithfulTx(l, tx) && Applicable(st, op)
    requires NoKeyClash(c, st.binding.Namespace(c), l.txids + {tx.txid})
    requires VerdictFacts(c, st, block.height, tx, Accept(eventIndex, op))
    ensures ChainsExtended(st, tx, block.height, MoverOf(c, st, tx, Accept(eventIndex, op)), log,
                           log + ApplyOperation(c, st, block, tx, txIndex, eventIndex, op).events)
  {
    hide Linear, Tail, Follows, LocalInv, LedgerInv, HeightsMatch, InterpretAll, FaithfulTx, NoKeyClash, ChainsExtended,
         IsSpent, VerdictFacts;
    var e := ApplyOperation(c, st, block, tx, txIndex, eventIndex, op).events[0];
    if op.Create? {
      CreateFollows(c, st, l, before, log, block, tx, txIndex, eventIndex, op.createKeys);
      FreshKey(c, st, l, before, tx);
    } else {
      StepFollows(c, st, l, before, log, block, tx, txIndex, eventIndex, op);
      OperandIsSpent(c, st, block.height, tx, eventIndex, op);
    }
    OneEventExtends(st, tx, block.height, MoverOf(c, st, tx, Accept(eventIndex, op)), log, e);
    assert ApplyOperation(c, st, block, tx, txIndex, eventIndex, op).events == [e];
  }

  lemma ExitsAreReady(c: Crypto, st: ChainState, l: Utxo, before: u64, log: seq<Event>, tx: TxView)
    requires RunInv(c, st, l, log, before) && FaithfulTx(l, tx)
    ensures ExitsReady(l, log, SortBy(SpendLess, CarrierSpends(st, tx.inputs)))
  {
    var sorted := SortBy(SpendLess, CarrierSpends(st, tx.inputs));
    SortMembers(SpendLess, CarrierSpends(st, tx.inputs));
    forall i | 0 <= i < |sorted| ensures ChainEnd(l, sorted[i].obj, Tail(log, sorted[i].obj.objectKey)) {
      assert sorted[i] in CarrierSpends(st, tx.inputs);
      StoredChainEnd(c, st, l, log, before, sorted[i].obj.objectKey);
    }
    forall i, j | 0 <= i < j < |sorted| ensures sorted[i].obj.objectKey != sorted[j].obj.objectKey {
      DistinctExits(c, st, l, tx, i, j);
    }
  }

  lemma ExitExtends(
    c: Crypto, st: ChainState, l: Utxo, before: u64, log: seq<Event>, block: BlockView, tx: TxView, txIndex: u32,
    eventIndex: u32, reason: Reason, namespace: Hash32)
    requires RunInv(c, st, l, log, before) && FaithfulTx(l, tx) && Fits(tx)
    ensures var sorted := SortBy(SpendLess, CarrierSpends(st, tx.inputs));
            ChainsExtended(st, tx, block.height, None, log,
                           log + ExitAll(st, block, tx, txIndex, eventIndex, reason, namespace, sorted).events)
  {
    var sorted := SortBy(SpendLess, CarrierSpends(st, tx.inputs));
    SortMembers(SpendLess, CarrierSpends(st, tx.inputs));
    CarriersCover(c, st, tx);
    ExitsAreReady(c, st, l, before, log, tx);
    ExitsFollow(st, l, log, block, tx, txIndex, eventIndex, reason, namespace, sorted);
    forall k: Hash32 | k in st.objects && !IsSpent(tx, st.objects[k]) ensures !KeyIn(sorted, k) {
    }
  }

  lemma QuietExtends(st: ChainState, tx: TxView, height: u64, log: seq<Event>, e: Event)
    requires Linear(log) && !Touches(e)
    ensures ChainsExtended(st, tx, height, None, log, log + [e])
  {
    hide Linear, Tail, IsSpent;
    LinearSnoc(log, e);
    forall k: Hash32 ensures Tail(log + [e], k) == Tail(log, k) { TailSnoc(log, e, k); }
  }

  lemma RefundExtends(
    c: Crypto, st: ChainState, l: Utxo, before: u64, log: seq<Event>, block: BlockView, tx: TxView, txIndex: u32,
    obj: ObjectState)
    requires RunInv(c, st, l, log, before) && FaithfulTx(l, tx) && Fits(tx) && block.height <= I64_MAX
    requires VerdictFacts(c, st, block.height, tx, Refund(obj))
    ensures ChainsExtended(st, tx, block.height, None, log,
                           log + Execute(c, st, block, tx, txIndex, Refund(obj)).events)
  {
    hide Linear, Tail, Follows, HeightsMatch, InterpretAll, FaithfulTx, ChainsExtended, RefundAccepted, TerminateObject;
    RefundFollows(c, st, l, before, log, block, tx, txIndex, obj);
    assert Spend(0, obj) in CarrierSpends(st, tx.inputs);
    OneEventExtends(st, tx, block.height, None, log, Execute(c, st, block, tx, txIndex, Refund(obj)).events[0]);
  }

  lemma ProcessExtends(
    c: Crypto, st: ChainState, l: Utxo, before: u64, log: seq<Event>, block: BlockView, tx: TxView, txIndex: u32)
    requires RunInv(c, st, l, log, before) && Bounded(st) && FaithfulTx(l, tx) && Fits(tx) && block.height <= I64_MAX
    requires NoKeyClash(c, st.binding.Namespace(c), l.txids + {tx.txid})
    ensures ChainsExtended(st, tx, block.height, MoverOf(c, st, tx, Classify(c, st, block.height, tx)), log,
                           log + ProcessTransaction(c, st, block, tx, txIndex).events)
  {
    hide Classify, ApplyOperation, ExitAll, SortBy, RefundAccepted, Justified, Linear, Tail, LocalInv, LedgerInv,
         HeightsMatch, InterpretAll, FaithfulTx, NoKeyClash, Follows, TerminateObject;
    var v := Classify(c, st, block.height, tx);
    ClassifyFacts(c, st, block.height, tx);
    AcceptedIsApplicable(c, st, block.height, tx, v);
    match v {
      case Exit(eventIndex, reason, namespace) =>
        ExitExtends(c, st, l, before, log, block, tx, txIndex, eventIndex, reason, namespace);
      case Refund(obj) =>
        RefundExtends(c, st, l, before, log, block, tx, txIndex, obj);
      case Accept(eventIndex, op) => OperationExtends(c, st, l, before, log, block, tx, txIndex, eventIndex, op);
      case Reject(eventIndex, attempted, reason, namespace) =>
        QuietExtends(st, tx, block.height, log,
                     BareInvalidEvent(block, tx, txIndex, eventIndex, attempted, reason, namespace));
      case Silent =>
        assert log + [] == log;
    }
  }

  lemma HeightsKept(
    c: Crypto, st: ChainState, st': ChainState, l: Utxo, before: u64, height: u64, tx: TxView, mover: Option<Hash32>,
    log: seq<Event>, log': seq<Event>)
    requires LedgerInv(c, st, l, before) && HeightsMatch(st, l, log) && FaithfulTx(l, tx)
    requires Transition(c, st, st', tx, height, mover) && ChainsExtended(st, tx, height, mover, log, log')
    ensures HeightsMatch(st', SpendTx(l, tx, height), log')
  {
    var l' := SpendTx(l, tx, height);
    forall k: Hash32 | k in st'.objects && st'.objects[k].status == Active
      ensures Tail(log', k).Some? && st'.objects[k].currentOutpoint in l'.coins &&
              Tail(log', k).value.height == l'.coins[st'.objects[k].currentOutpoint].height
    {
      if mover == Some(k) {
        assert Successor(tx) in OutputCoins(tx, height);
      } else {
        assert Outcome(tx, st.objects[k], st'.objects[k], false);
        assert ObjectBacked(c, l, before, st.objects[k]);
      }
    }
  }

  /** The run invariant survives every faithful transaction. */
  lemma ProcessKeepsRun(
    c: Crypto, st: ChainState, l: Utxo, before: u64, log: seq<Event>, block: BlockView, tx: TxView, txIndex: u32)
    requires RunInv(c, st, l, log, before) && Bounded(st) && before <= block.height <= I64_MAX
    requires FaithfulTx(l, tx) && Fits(tx) && NoKeyClash(c, st.binding.Namespace(c), l.txids + {tx.txid})
    ensures var r := ProcessTransaction(c, st, block, tx, txIndex);
            RunInv(c, r.state, SpendTx(l, tx, block.height), log + r.events, block.height)
  {
    var mover := MoverOf(c, st, tx, Classify(c, st, block.height, tx));
    var r := ProcessTransaction(c, st, block, tx, txIndex);
    ProcessKeepsLocal(c, st, block, tx, txIndex);
    ProcessKeepsBounded(c, st, block, tx, txIndex);
    NoSpentCarrierStaysActive(c, st, l, before, block, tx, txIndex);
    TransitionKeepsLedger(c, st, r.state, l, before, block.height, tx, mover);
    ProcessExtends(c, st, l, before, log, block, tx, txIndex);
    HeightsKept(c, st, r.state, l, before, block.height, tx, mover, log, log + r.events);
    ProcessInterpreted(c, st, block, tx, txIndex);
    InterpretConcat(PhaseOf(st.protocolStatus), EMPTY_VIEW, log, r.events);
  }

  // ---------- blocks and runs ----------

  ghost function UtxoAfter(l: Utxo, block: BlockView, count: nat): Utxo
    requires count <= |block.transactions|
  {
    if count == 0 then l else SpendTx(UtxoAfter(l, block, count - 1), block.transactions[count - 1], block.height)
  }

  ghost predicate FaithfulBlock(l: Utxo, block: BlockView) {
    forall i :: 0 <= i < |block.transactions| ==> FaithfulTx(UtxoAfter(l, block, i), block.transactions[i])
  }

  ghost function UtxoAfterBlock(l: Utxo, block: BlockView): Utxo { UtxoAfter(l, block, |block.transactions|) }

  ghost function RunUtxo(blocks: seq<BlockView>): Utxo {
    if |blocks| == 0 then EMPTY_UTXO
    else var block := blocks[|blocks| - 1]; UtxoAfterBlock(RunUtxo(blocks[..|blocks| - 1]), block)
  }

  /** Every transaction of every block is faithful to the outputs before it; heights fit the store's `bigint`. */
  ghost predicate FaithfulRun(blocks: seq<BlockView>) {
    |blocks| == 0 ||
    (var init, block := blocks[..|blocks| - 1], blocks[|blocks| - 1];
     FaithfulRun(init) && FaithfulBlock(RunUtxo(init), block) && block.height <= I64_MAX)
  }

  /** What may change between two states of a run: objects persist with their identity, terminal ones are frozen, and
      new ones were created at `height` or later. */
  ghost predicate Evolves(st: ChainState, st': ChainState, height: u64) {
    && (forall k :: k in st.objects ==> k in st'.objects && SameIdentity(st.objects[k], st'.objects[k]) &&
                                        (st.objects[k].status != Active ==> st'.objects[k] == st.objects[k]))
    && (forall k :: k in st'.objects && k !in st.objects ==> st'.objects[k].createHeight >= height)
  }

  lemma EvolvesTrans(a: ChainState, b: ChainState, d: ChainState, height: u64, later: u64)
    requires Evolves(a, b, height) && Evolves(b, d, later) && height <= later
    ensures Evolves(a, d, height)
  {
  }

  lemma TransitionEvolves(c: Crypto, st: ChainState, st': ChainState, tx: TxView, height: u64, mover: Option<Hash32>)
    requires Transition(c, st, st', tx, height, mover)
    ensures Evolves(st, st', height)
  {
    forall k: Hash32 | k in st.objects
      ensures k in st'.objects && SameIdentity(st.objects[k], st'.objects[k]) &&
              (st.objects[k].status != Active ==> st'.objects[k] == st.objects[k])
    {
      assert Outcome(tx, st.objects[k], st'.objects[k], mover == Some(k));
    }
  }

  lemma {:induction false} UtxoGrows(l: Utxo, block: BlockView, count: nat)
    requires count <= |block.transactions| && forall o :: o in l.coins ==> o.txid in l.txids
    ensures var l' := UtxoAfter(l, block, count); l.txids <= l'.txids && forall o :: o in l'.coins ==>
            o.txid in l'.txids
    decreases count
  {
    if count > 0 { UtxoGrows(l, block, count - 1); }
  }

  /** With no objects yet, the outputs may evolve freely. */
  lemma EmptyRunInv(c: Crypto, st: ChainState, l: Utxo, l': Utxo, log: seq<Event>, before: u64, height: u64)
    requires RunInv(c, st, l, log, before) && st.objects == map[]
    requires forall o :: o in l'.coins ==> o.txid in l'.txids
    ensures RunInv(c, st, l', log, height) && st.active == map[]
  {
  }

  lemma LaterRunInv(c: Crypto, st: ChainState, l: Utxo, log: seq<Event>, before: u64, height: u64)
    requires RunInv(c, st, l, log, before) && before <= height
    ensures RunInv(c, st, l, log, height)
  {
  }

  /** An event that touches no object, appended to the log. */
  lemma QuietEventKeepsRun(c: Crypto, st: ChainState, l: Utxo, log: seq<Event>, height: u64, e: Event)
    requires RunInv(c, st, l, log, height) && !Touches(e)
    ensures RunInv(c, st, l, log + [e], height)
  {
    LinearSnoc(log, e);
    forall k: Hash32 ensures Tail(log + [e], k) == Tail(log, k) { TailSnoc(log, e, k); }
    assert (log + [e])[..|log|] == log;
  }

  /** Before the opening height there are no objects. */
  lemma InitBlockIsEmpty(c: Crypto, st: ChainState, l: Utxo, log: seq<Event>, height: u64)
    requires RunInv(c, st, l, log, height) && st.protocolStatus.Running? && height < st.protocolStatus.hOpen
    ensures st.objects == map[]
  {
    assert forall k :: k in st.objects ==> ObjectBacked(c, l, height, st.objects[k]);
    assert forall k :: k !in st.objects;
  }

  lemma InitTxKeepsRun(c: Crypto, st: ChainState, l: Utxo, log: seq<Event>, block: BlockView, tx: TxView, e: Event)
    requires RunInv(c, st, l, log, block.height) && st.protocolStatus.Running? && block.height < st.protocolStatus.hOpen
    requires !Touches(e)
    ensures RunInv(c, st, SpendTx(l, tx, block.height), log + [e], block.height)
  {
    InitBlockIsEmpty(c, st, l, log, block.height);
    EmptyRunInv(c, st, l, SpendTx(l, tx, block.height), log, block.height, block.height);
    QuietEventKeepsRun(c, st, SpendTx(l, tx, block.height), log, block.height, e);
  }

  lemma TxKeepsRun(c: Crypto, st: ChainState, l: Utxo, log: seq<Event>, block: BlockView, tx: TxView, txIndex: u32)
    requires RunInv(c, st, l, log, block.height) && Bounded(st) && block.height <= I64_MAX
    requires FaithfulTx(l, tx) && Fits(tx) && NoKeyClash(c, st.binding.Namespace(c), l.txids + {tx.txid})
    ensures var r := ProcessTransaction(c, st, block, tx, txIndex);
            RunInv(c, r.state, SpendTx(l, tx, block.height), log + r.events, block.height) &&
            Evolves(st, r.state, block.height)
  {
    ProcessKeepsRun(c, st, l, block.height, log, block, tx, txIndex);
    NoSpentCarrierStaysActive(c, st, l, block.height, block, tx, txIndex);
    TransitionEvolves(c, st, ProcessTransaction(c, st, block, tx, txIndex).state, tx, block.height,
                      MoverOf(c, st, tx, Classify(c, st, block.height, tx)));
  }

  ghost predicate PrefixGoal(c: Crypto, st: ChainState, l: Utxo, log: seq<Event>, block: BlockView, r: Step) {
    RunInv(c, r.state, l, log + r.events, block.height) && Evolves(st, r.state, block.height)
  }

  lemma PrefixGoalBase(c: Crypto, st: ChainState, l: Utxo, before: u64, log: seq<Event>, block: BlockView)
    requires RunInv(c, st, l, log, before) && before <= block.height
    ensures PrefixGoal(c, st, l, log, block, Step(st, [])) && UtxoAfter(l, block, 0) == l
    ensures forall initBlock :: Bounded(st) && BlockFits(block) && |block.transactions| <= U32_MAX ==>
              ProcessPrefix(c, st, block, initBlock, 0) == Step(st, [])
  {
    assert log + [] == log;
    LaterRunInv(c, st, l, log, before, block.height);
  }

  lemma PrefixGoalStep(
    c: Crypto, namespace: Hash32, st: ChainState, l: Utxo, log: seq<Event>, block: BlockView, mid: Step, tx: TxView,
    txIndex: u32)
    returns (next: Step)
    requires PrefixGoal(c, st, l, log, block, mid) && Bounded(mid.state) && block.height <= I64_MAX
    requires FaithfulTx(l, tx) && Fits(tx) && NoKeyClash(c, namespace, l.txids + {tx.txid}) &&
             namespace == mid.state.binding.Namespace(c)
    ensures next.state == ProcessTransaction(c, mid.state, block, tx, txIndex).state
    ensures next.events == mid.events + ProcessTransaction(c, mid.state, block, tx, txIndex).events
    ensures PrefixGoal(c, st, SpendTx(l, tx, block.height), log, block, next)
  {
    hide ProcessTransaction, RunInv;
    var r := ProcessTransaction(c, mid.state, block, tx, txIndex);
    TxKeepsRun(c, mid.state, l, log + mid.events, block, tx, txIndex);
    assert (log + mid.events) + r.events == log + (mid.events + r.events);
    EvolvesTrans(st, mid.state, r.state, block.height, block.height);
    next := Step(r.state, mid.events + r.events);
  }

  lemma PrefixGoalInit(
    c: Crypto, st: ChainState, l: Utxo, log: seq<Event>, block: BlockView, mid: Step, tx: TxView, e: Event)
    requires PrefixGoal(c, st, l, log, block, mid) && !Touches(e)
    requires mid.state.protocolStatus.Running? && block.height < mid.state.protocolStatus.hOpen
    ensures PrefixGoal(c, st, SpendTx(l, tx, block.height), log, block, Step(mid.state, mid.events + [e]))
  {
    InitTxKeepsRun(c, mid.state, l, log + mid.events, block, tx, e);
    assert (log + mid.events) + [e] == log + (mid.events + [e]);
  }

  /** One more transaction of a block. */
  lemma PrefixSnoc(c: Crypto, st: ChainState, block: BlockView, initBlock: bool, count: nat)
    requires Bounded(st) && BlockFits(block) && 0 < count <= |block.transactions| <= U32_MAX
    ensures var mid, tx := ProcessPrefix(c, st, block, initBlock, count - 1), block.transactions[count - 1];
            && mid.state.binding == st.binding && mid.state.protocolStatus == st.protocolStatus
            && Bounded(mid.state) && Fits(tx)
            && !Touches(ValidInitEvent(c, mid.state, block, tx, count - 1))
            && ProcessPrefix(c, st, block, initBlock, count) ==
               if initBlock && tx.txid == st.binding.initTxid
               then Step(mid.state, mid.events + [ValidInitEvent(c, mid.state, block, tx, count - 1)])
               else
                 var r := ProcessTransaction(c, mid.state, block, tx, count - 1);
                 Step(r.state, mid.events + r.events)
  {
    hide ProcessTransaction;
  }

  lemma {:induction false} TxidsGrow(l: Utxo, block: BlockView, m: nat, n: nat)
    requires m <= n <= |block.transactions|
    ensures UtxoAfter(l, block, m).txids <= UtxoAfter(l, block, n).txids
    decreases n
  {
    if m < n { TxidsGrow(l, block, m, n - 1); }
  }

  lemma TxReady(c: Crypto, namespace: Hash32, txids: set<Hash32>, l: Utxo, block: BlockView, count: nat, l1: Utxo)
    requires 0 < count <= |block.transactions| && FaithfulBlock(l, block) && l1 == UtxoAfter(l, block, count - 1)
    requires NoKeyClash(c, namespace, txids) && UtxoAfterBlock(l, block).txids <= txids
    ensures FaithfulTx(l1, block.transactions[count - 1])
    ensures NoKeyClash(c, namespace, l1.txids + {block.transactions[count - 1].txid})
    ensures UtxoAfter(l, block, count) == SpendTx(l1, block.transactions[count - 1], block.height)
  {
    var tx := block.transactions[count - 1];
    TxidsGrow(l, block, count, |block.transactions|);
    assert UtxoAfter(l, block, count).txids == l1.txids + {tx.txid};
  }

  lemma {:induction false} PrefixKeepsRun(
    c: Crypto, namespace: Hash32, txids: set<Hash32>, st: ChainState, l: Utxo, before: u64, log: seq<Event>,
    block: BlockView, initBlock: bool, count: nat) returns (l': Utxo, r: Step)
    requires RunInv(c, st, l, log, before) && Bounded(st) && before <= block.height <= I64_MAX
    requires BlockFits(block) && count <= |block.transactions| <= U32_MAX && FaithfulBlock(l, block)
    requires NoKeyClash(c, namespace, txids) && UtxoAfterBlock(l, block).txids <= txids &&
             namespace == st.binding.Namespace(c)
    requires initBlock ==> st.protocolStatus.Running? && block.height < st.protocolStatus.hOpen
    ensures l' == UtxoAfter(l, block, count) && r == ProcessPrefix(c, st, block, initBlock, count)
    ensures PrefixGoal(c, st, l', log, block, r)
    decreases count
  {
    hide *;
    if count == 0 {
      PrefixGoalBase(c, st, l, before, log, block);
      l', r := l, Step(st, []);
    } else {
      PrefixSnoc(c, st, block, initBlock, count);
      TxReady(c, namespace, txids, l, block, count, UtxoAfter(l, block, count - 1));
      var l1, mid := PrefixKeepsRun(c, namespace, txids, st, l, before, log, block, initBlock, count - 1);
      var tx := block.transactions[count - 1];
      l' := SpendTx(l1, tx, block.height);
      if initBlock && tx.txid == st.binding.initTxid {
        var e := ValidInitEvent(c, mid.state, block, tx, count - 1);
        r := Step(mid.state, mid.events + [e]);
        PrefixGoalInit(c, st, l1, log, block, mid, tx, e);
      } else {
        r := PrefixGoalStep(c, namespace, st, l1, log, block, mid, tx, count - 1);
      }
    }
  }

  lemma NotRunningIsEmpty(c: Crypto, st: ChainState)
    requires LocalInv(c, st) && !st.protocolStatus.Running?
    ensures st.objects == map[]
  {
    assert forall k :: k !in st.objects;
  }

  /** The run invariant survives every block, and the block's effect is an evolution. */
  lemma ReduceKeepsRun(c: Crypto, st: ChainState, l: Utxo, before: u64, log: seq<Event>, block: BlockView)
    returns (l': Utxo, r: Step)
    requires RunInv(c, st, l, log, before) && Bounded(st) && before <= block.height <= I64_MAX
    requires BlockFits(block) && |block.transactions| <= U32_MAX && FaithfulBlock(l, block)
    requires ReduceBlock(c, st, block).Ok? && (st.protocolStatus.AwaitingInit? ==> log == [])
    requires NoKeyClash(c, st.binding.Namespace(c), UtxoAfterBlock(l, block).txids)
    ensures l' == UtxoAfterBlock(l, block) && r == ReduceBlock(c, st, block).value
    ensures PrefixGoal(c, st, l', log, block, r)
  {
    if st.protocolStatus.Running? {
      WholeBlock(l, block);
      l', r := PrefixKeepsRun(c, st.binding.Namespace(c), UtxoAfterBlock(l, block).txids, st, l, before, log, block,
                              false,
                              |block.transactions|);
    } else {
      NotRunningIsEmpty(c, st);
      UtxoGrows(l, block, |block.transactions|);
      l' := UtxoAfterBlock(l, block);
      EmptyRunInv(c, st, l, l', log, before, block.height);
      if st.protocolStatus.FailedInit? {
        r := Step(st, []);
        assert log + [] == log;
      } else {
        l', r := AwaitedBlockKeepsRun(c, st, l, before, block);
      }
    }
  }

  lemma StatusSet(c: Crypto, st: ChainState, l: Utxo, before: u64, status: ProtocolStatus)
    requires RunInv(c, st, l, [], before) && st.objects == map[] && st.active == map[] && PhaseOk(status)
    ensures RunInv(c, st.(protocolStatus := status), l, [], before)
  {
  }

  lemma FailedInitKeepsRun(c: Crypto, st: ChainState, l: Utxo, l': Utxo, before: u64, height: u64, e: Event)
    requires RunInv(c, st, l, [], before) && st.objects == map[] && !Touches(e)
    requires forall o :: o in l'.coins ==> o.txid in l'.txids
    ensures RunInv(c, st, l', [] + [e], height)
  {
    EmptyRunInv(c, st, l, l', [], before, height);
    QuietEventKeepsRun(c, st, l', [], height, e);
  }

  /** The two ways an awaited INIT block reduces. */
  lemma AwaitedReduce(
    c: Crypto, st: ChainState, block: BlockView) returns (found: nat, init: Result<InitParams, Reason>)
    requires Bounded(st) && st.protocolStatus.AwaitingInit? && BlockFits(block) && |block.transactions| <= U32_MAX
    requires ReduceBlock(c, st, block).Ok?
    ensures found < |block.transactions|
    ensures init.Ok? ==>
      var running := st.(protocolStatus := Running(block.height, init.value.hOpen, init.value.hClose));
      PhaseOk(running.protocolStatus) && block.height < init.value.hOpen &&
      ReduceBlock(c, st, block).value == ProcessPrefix(c, running, block, true, |block.transactions|)
    ensures init.Err? ==>
      ReduceBlock(c, st, block).value ==
      Step(st.(protocolStatus := FailedInit(init.error, block.height)),
           [FailedInitEvent(c, st.binding, block, block.transactions[found], found, init.error)])
  {
    found := FindInit(block.transactions, st.binding.initTxid).value;
    var tx := block.transactions[found];
    InitParamsOk(c, st.binding, block.height, tx);
    init := ValidateConfiguredInit(c, st.binding, block.height, tx);
    hide ValidateConfiguredInit, ProcessPrefix;
  }

  lemma AwaitedBlockKeepsRun(
    c: Crypto, st: ChainState, l: Utxo, before: u64, block: BlockView) returns (l': Utxo, r: Step)
    requires RunInv(c, st, l, [], before) && st.objects == map[] && st.active == map[] &&
             before <= block.height <= I64_MAX
    requires BlockFits(block) && |block.transactions| <= U32_MAX && FaithfulBlock(l, block)
    requires Bounded(st) && st.protocolStatus.AwaitingInit? && ReduceBlock(c, st, block).Ok?
    requires NoKeyClash(c, st.binding.Namespace(c), UtxoAfterBlock(l, block).txids)
    ensures l' == UtxoAfterBlock(l, block) && r == ReduceBlock(c, st, block).value
    ensures PrefixGoal(c, st, l', [], block, r)
  {
    hide ReduceBlock, RunInv, ProcessPrefix, FaithfulBlock, NoKeyClash, UtxoAfter, UtxoAfterBlock, PhaseOk, BlockFits;
    var found, init := AwaitedReduce(c, st, block);
    l', r := UtxoAfterBlock(l, block), ReduceBlock(c, st, block).value;
    if init.Ok? {
      var running := st.(protocolStatus := Running(block.height, init.value.hOpen, init.value.hClose));
      StatusSet(c, st, l, before, running.protocolStatus);
      assert Bounded(running);
      l', r := PrefixKeepsRun(c, st.binding.Namespace(c), l'.txids, running, l, before, [], block, true,
                              |block.transactions|);
      WholeBlock(l, block);
    } else {
      var failed := st.(protocolStatus := FailedInit(init.error, block.height));
      StatusSet(c, st, l, before, failed.protocolStatus);
      RunInvClosed(c, st, l, [], before);
      UtxoGrows(l, block, |block.transactions|);
      WholeBlock(l, block);
      FailedInitKeepsRun(c, failed, l, l', before, block.height,
                         FailedInitEvent(c, st.binding, block, block.transactions[found], found, init.error));
    }
  }

  lemma WholeBlock(l: Utxo, block: BlockView)
    ensures UtxoAfterBlock(l, block) == UtxoAfter(l, block, |block.transactions|)
  {
  }

  lemma RunInvClosed(c: Crypto, st: ChainState, l: Utxo, log: seq<Event>, height: u64)
    requires RunInv(c, st, l, log, height)
    ensures forall o :: o in l.coins ==> o.txid in l.txids
  {
  }

  // ---------- the run theorem ----------

  /** A replayable, faithful run whose object keys do not collide. */
  ghost predicate GoodRun(c: Crypto, binding: Binding, blocks: seq<BlockView>) {
    && (forall i :: 0 <= i < |blocks| ==> BlockFits(blocks[i]))
    && Replay(c, binding, blocks).Some?
    && FaithfulRun(blocks)
    && NoKeyClash(c, binding.Namespace(c), RunUtxo(blocks).txids)
  }

  function TipOf(blocks: seq<BlockView>): u64 { if |blocks| == 0 then 0 else blocks[|blocks| - 1].height }

  lemma {:induction false} RunUtxoClosed(blocks: seq<BlockView>)
    ensures forall o :: o in RunUtxo(blocks).coins ==> o.txid in RunUtxo(blocks).txids
    decreases |blocks|
  {
    if |blocks| > 0 {
      RunUtxoClosed(blocks[..|blocks| - 1]);
      UtxoGrows(RunUtxo(blocks[..|blocks| - 1]), blocks[|blocks| - 1], |blocks[|blocks| - 1].transactions|);
    }
  }

  lemma GoodPrefix(c: Crypto, binding: Binding, blocks: seq<BlockView>)
    requires GoodRun(c, binding, blocks) && |blocks| > 0
    ensures GoodRun(c, binding, blocks[..|blocks| - 1])
  {
    RunUtxoClosed(blocks[..|blocks| - 1]);
    UtxoGrows(RunUtxo(blocks[..|blocks| - 1]), blocks[|blocks| - 1], |blocks[|blocks| - 1].transactions|);
  }

  lemma LinkedHeights(c: Crypto, binding: Binding, blocks: seq<BlockView>)
    requires forall i :: 0 <= i < |blocks| ==> BlockFits(blocks[i])
    requires Replay(c, binding, blocks).Some? && |blocks| > 0
    ensures Replay(c, binding, blocks).value.tipHeight == Some(TipOf(blocks))
    ensures Replay(c, binding, blocks).value.tipHash == Some(blocks[|blocks| - 1].hash)
    ensures TipOf(blocks[..|blocks| - 1]) <= TipOf(blocks)
    ensures |blocks| > 1 ==> TipOf(blocks) == TipOf(blocks[..|blocks| - 1]) + 1 &&
                             blocks[|blocks| - 1].previousHash == blocks[|blocks| - 2].hash
  {
    hide Replay;
    BranchTips(c, binding, blocks);
  }

  /** Tip and chained root play no part in the invariant. */
  lemma SealedRunInv(c: Crypto, a: ChainState, b: ChainState, l: Utxo, log: seq<Event>, height: u64)
    requires RunInv(c, a, l, log, height)
    requires a.binding == b.binding && a.protocolStatus == b.protocolStatus && a.objects == b.objects &&
             a.active == b.active
    ensures RunInv(c, b, l, log, height)
  {
  }

  lemma BlockKeepsRun(c: Crypto, st: ChainState, l: Utxo, before: u64, log: seq<Event>, block: BlockView)
    requires RunInv(c, st, l, log, before) && Bounded(st) && before <= block.height <= I64_MAX
    requires BlockFits(block) && ApplyBlock(c, st, block).Ok? && FaithfulBlock(l, block)
    requires NoKeyClash(c, st.binding.Namespace(c), UtxoAfterBlock(l, block).txids)
    requires st.protocolStatus.AwaitingInit? ==> log == []
    ensures var a := ApplyBlock(c, st, block).value;
            RunInv(c, a.state, UtxoAfterBlock(l, block), log + a.delta.events, block.height) &&
            Evolves(st, a.state, block.height)
  {
    var l', step := ReduceKeepsRun(c, st, l, before, log, block);
    SealedRunInv(c, step.state, Seal(c, st, step, block).state, l', log + step.events, block.height);
  }

  /** Every state of a faithful run satisfies the whole invariant, with the log the run emitted. */
  lemma {:induction false} RunHoldsInvariant(c: Crypto, binding: Binding, blocks: seq<BlockView>)
    requires GoodRun(c, binding, blocks)
    ensures RunInv(c, Replay(c, binding, blocks).value, RunUtxo(blocks), Log(c, binding, blocks), TipOf(blocks))
    decreases |blocks|
  {
    if |blocks| == 0 {
      assert RunInv(c, NewState(c, binding), EMPTY_UTXO, [], 0);
    } else {
      var init := blocks[..|blocks| - 1];
      GoodPrefix(c, binding, blocks);
      RunHoldsInvariant(c, binding, init);
      LastBlock(c, binding, blocks);
    }
  }

  lemma LastBlock(c: Crypto, binding: Binding, blocks: seq<BlockView>)
    requires GoodRun(c, binding, blocks) && |blocks| > 0 && GoodRun(c, binding, blocks[..|blocks| - 1])
    requires var init := blocks[..|blocks| - 1];
             RunInv(c, Replay(c, binding, init).value, RunUtxo(init), Log(c, binding, init), TipOf(init))
    ensures RunInv(c, Replay(c, binding, blocks).value, RunUtxo(blocks), Log(c, binding, blocks), TipOf(blocks))
    ensures Evolves(Replay(c, binding, blocks[..|blocks| - 1]).value, Replay(c, binding, blocks).value, TipOf(blocks))
  {
    var init, block := blocks[..|blocks| - 1], blocks[|blocks| - 1];
    LinkedHeights(c, binding, blocks);
    AwaitingIffEmpty(c, binding, init);
    RunKeepsLocal(c, binding, init);
    BlockKeepsRun(c, Replay(c, binding, init).value, RunUtxo(init), TipOf(init), Log(c, binding, init), block);
  }
}
