/** No spent carrier stays active: the exact effect of one faithful transaction. */
module Transitions {
  import opened Primitives
  import opened Types
  import opened Validators
  import opened Sorting
  import opened Reducer
  import opened LocalInvariant
  import opened Ledger

  ghost predicate KeyIn(carriers: seq<Spend>, k: Hash32) { exists s :: s in carriers && s.obj.objectKey == k }

  ghost predicate OutpointIn(carriers: seq<Spend>, o: OutPointRef) {
    exists s :: s in carriers && s.obj.currentOutpoint == o
  }

  ghost predicate SpendsStored(st: ChainState, carriers: seq<Spend>) {
    forall s :: s in carriers ==> s.obj.objectKey in st.objects && st.objects[s.obj.objectKey] == s.obj
  }

  /** The exits of a list of carriers in closed form. */
  ghost predicate ExitedObjects(
    a: map<Hash32, ObjectState>, b: map<Hash32, ObjectState>, carriers: seq<Spend>, txid: Hash32) {
    a.Keys == b.Keys &&
    forall k :: k in a ==> b[k] == if KeyIn(carriers, k) then Terminated(a[k], ExitedNoncanonical, txid) else a[k]
  }

  ghost predicate ExitedIndex(a: map<OutPointRef, Hash32>, b: map<OutPointRef, Hash32>, carriers: seq<Spend>) {
    (forall o :: o in b <==> o in a && !OutpointIn(carriers, o)) && (forall o :: o in b ==> b[o] == a[o])
  }

  ghost predicate Exited(st: ChainState, st': ChainState, carriers: seq<Spend>, txid: Hash32) {
    ExitedObjects(st.objects, st'.objects, carriers, txid) && ExitedIndex(st.active, st'.active, carriers)
  }

  lemma KeyInSnoc(carriers: seq<Spend>, k: Hash32)
    requires |carriers| > 0
    ensures KeyIn(carriers, k) <==> KeyIn(carriers[..|carriers| - 1], k) || k == carriers[|carriers| - 1].obj.objectKey
  {
    var init, last := carriers[..|carriers| - 1], carriers[|carriers| - 1];
    assert carriers == init + [last];
    assert last in carriers;
    if s :| s in init && s.obj.objectKey == k { assert s in carriers; }
    if s :| s in carriers && s.obj.objectKey == k && s != last { assert s in init; }
  }

  lemma OutpointInSnoc(carriers: seq<Spend>, o: OutPointRef)
    requires |carriers| > 0
    ensures OutpointIn(carriers, o) <==>
            OutpointIn(carriers[..|carriers| - 1], o) || o == carriers[|carriers| - 1].obj.currentOutpoint
  {
    var init, last := carriers[..|carriers| - 1], carriers[|carriers| - 1];
    assert carriers == init + [last];
    assert last in carriers;
    if s :| s in init && s.obj.currentOutpoint == o { assert s in carriers; }
    if s :| s in carriers && s.obj.currentOutpoint == o && s != last { assert s in init; }
  }

  lemma ExitObjectsSnoc(a: map<Hash32, ObjectState>, b: map<Hash32, ObjectState>, carriers: seq<Spend>, txid: Hash32)
    requires |carriers| > 0 && ExitedObjects(a, b, carriers[..|carriers| - 1], txid)
    requires carriers[|carriers| - 1].obj.objectKey in b
    ensures var key := carriers[|carriers| - 1].obj.objectKey;
            ExitedObjects(a, b[key := Terminated(b[key], ExitedNoncanonical, txid)], carriers, txid)
  {
    forall k: Hash32 | k in a
      ensures KeyIn(carriers, k) <==>
              KeyIn(carriers[..|carriers| - 1], k) || k == carriers[|carriers| - 1].obj.objectKey
    {
      KeyInSnoc(carriers, k);
    }
  }

  lemma ExitIndexSnoc(a: map<OutPointRef, Hash32>, b: map<OutPointRef, Hash32>, carriers: seq<Spend>)
    requires |carriers| > 0 && ExitedIndex(a, b, carriers[..|carriers| - 1])
    ensures ExitedIndex(a, b - {carriers[|carriers| - 1].obj.currentOutpoint}, carriers)
  {
    forall o: OutPointRef
      ensures OutpointIn(carriers, o) <==>
              OutpointIn(carriers[..|carriers| - 1], o) || o == carriers[|carriers| - 1].obj.currentOutpoint
    {
      OutpointInSnoc(carriers, o);
    }
  }

  lemma {:induction false} ExitAllEffect(
    st: ChainState, block: BlockView, tx: TxView, txIndex: u32, eventIndex: u32, reason: Reason, namespace: Hash32,
    carriers: seq<Spend>)
    requires |carriers| <= U32_MAX && SpendsStored(st, carriers)
    ensures Exited(st, ExitAll(st, block, tx, txIndex, eventIndex, reason, namespace, carriers).state, carriers,
                   tx.txid)
    decreases |carriers|
  {
    if |carriers| > 0 {
      var init := carriers[..|carriers| - 1];
      ExitAllEffect(st, block, tx, txIndex, eventIndex, reason, namespace, init);
      var mid := ExitAll(st, block, tx, txIndex, eventIndex, reason, namespace, init).state;
      assert carriers[|carriers| - 1] in carriers;
      ExitObjectsSnoc(st.objects, mid.objects, carriers, tx.txid);
      ExitIndexSnoc(st.active, mid.active, carriers);
    }
  }

  lemma ExitTransition(c: Crypto, st: ChainState, st': ChainState, tx: TxView, height: u64, carriers: seq<Spend>)
    requires LocalInv(c, st) && SpendsCover(st, tx, carriers) && Exited(st, st', carriers, tx.txid)
    ensures Transition(c, st, st', tx, height, None)
  {
    forall k: Hash32 | k in st.objects ensures Outcome(tx, st.objects[k], st'.objects[k], false) {
      if IsSpent(tx, st.objects[k]) {
        var s :| s in carriers && s.obj == st.objects[k];
        assert KeyIn(carriers, k);
      } else {
        assert !KeyIn(carriers, k);
      }
    }
    forall o: OutPointRef | o in st.active ensures OutpointIn(carriers, o) <==> SpentBy(tx, o) {
      if OutpointIn(carriers, o) {
        var s :| s in carriers && s.obj.currentOutpoint == o;
        assert IsSpent(tx, s.obj);
      }
    }
  }

  lemma QuietTransition(c: Crypto, st: ChainState, tx: TxView, height: u64)
    requires SpendsCover(st, tx, [])
    ensures SafeStep(c, st, st, tx, height, None)
  {
  }

  /** The transaction spends the carrier of `obj` and no other. */
  ghost predicate SpendsOnly(st: ChainState, tx: TxView, obj: ObjectState) {
    && obj.objectKey in st.objects && st.objects[obj.objectKey] == obj && IsSpent(tx, obj)
    && (forall k :: k in st.objects && IsSpent(tx, st.objects[k]) ==> k == obj.objectKey)
    && (forall o :: o in st.active && SpentBy(tx, o) ==> o == obj.currentOutpoint)
  }

  lemma CoverIsOnly(c: Crypto, st: ChainState, tx: TxView, obj: ObjectState)
    requires LocalInv(c, st) && IndexAgrees(st.objects, st.active) && CarrierSpends(st, tx.inputs) == [Spend(0, obj)]
    ensures SpendsOnly(st, tx, obj)
  {
    CarriersCover(c, st, tx);
    assert Spend(0, obj) in [Spend(0, obj)];
  }

  lemma EndTransition(c: Crypto, st: ChainState, tx: TxView, height: u64, obj: ObjectState, status: ObjectStatus)
    requires SpendsOnly(st, tx, obj) && status != Active && status != Closed
    ensures SafeStep(c, st, TerminateObject(st, obj, status, tx.txid), tx, height, None)
  {
  }

  lemma CloseTransition(
    c: Crypto, st: ChainState, block: BlockView, tx: TxView, txIndex: u32, eventIndex: u32, op: Operation)
    requires op.Close? && SpendsOnly(st, tx, op.obj) && op.sequence == op.obj.stateSeq + 1
    ensures Transition(c, st, ApplyOperation(c, st, block, tx, txIndex, eventIndex, op).state, tx, block.height, None)
  {
  }

  lemma MoveTransition(c: Crypto, st: ChainState, tx: TxView, height: u64, obj: ObjectState, next: ObjectState)
    requires SpendsOnly(st, tx, obj) && Advanced(tx, obj, next) && Carries(c, tx, next)
    ensures Transition(c, st, AdvanceTo(st, obj.currentOutpoint, next), tx, height, Some(obj.objectKey))
  {
  }

  lemma CreateTransition(c: Crypto, st: ChainState, tx: TxView, height: u64, obj: ObjectState)
    requires SpendsCover(st, tx, []) && obj.objectKey !in st.objects
    requires Carries(c, tx, obj) && Newborn(tx, height, obj)
    ensures Transition(
              c, st, st.(active := st.active[obj.currentOutpoint := obj.objectKey],
                         objects := st.objects[obj.objectKey := obj]),
              tx, height, Some(obj.objectKey))
  {
  }

  /** A CREATE cannot spend a carrier: its inputs must be 22-byte P2WPKH outputs, and a carrier is a 34-byte one. */
  lemma CreateSpendsNoCarrier(
    c: Crypto, st: ChainState, l: Utxo, before: u64, height: u64, tx: TxView, eventIndex: u32, keys: KeyPair)
    requires LocalInv(c, st) && LedgerInv(c, st, l, before) && FaithfulTx(l, tx)
    requires VerdictFacts(c, st, height, tx, Accept(eventIndex, Create(keys)))
    ensures CarrierSpends(st, tx.inputs) == []
  {
    var carriers := CarrierSpends(st, tx.inputs);
    if |carriers| > 0 {
      var s := carriers[0];
      assert s in carriers;
      CarrierInputResolved(c, st, l, before, tx, s.index);
      assert false;
    }
  }

  lemma FreshKey(c: Crypto, st: ChainState, l: Utxo, before: u64, tx: TxView)
    requires LocalInv(c, st) && LedgerInv(c, st, l, before) && FaithfulTx(l, tx)
    requires NoKeyClash(c, st.binding.Namespace(c), l.txids + {tx.txid})
    ensures ObjectKey(c, st.binding.Namespace(c), tx.txid) !in st.objects
  {
  }

  lemma StepWasEarlier(
    c: Crypto, st: ChainState, l: Utxo, before: u64, height: u64, tx: TxView, obj: ObjectState, sequence: u32)
    requires LocalInv(c, st) && LedgerInv(c, st, l, before) && FaithfulTx(l, tx)
    requires CarrierSpends(st, tx.inputs) == [Spend(0, obj)] && Advances(tx, height, obj, sequence)
    ensures obj.createHeight + obj.stateSeq < height
    ensures obj.currentOutpoint in l.coins && l.coins[obj.currentOutpoint].height < height
  {
    assert Spend(0, obj) in CarrierSpends(st, tx.inputs);
    CarrierInputResolved(c, st, l, before, tx, 0);
  }

  /** The object sitting at output 1 after an accepted operation. */
  function MoverOf(c: Crypto, st: ChainState, tx: TxView, v: Verdict): Option<Hash32> {
    if !v.Accept? || v.op.Close? then None
    else if v.op.Create? then Some(ObjectKey(c, st.binding.Namespace(c), tx.txid))
    else Some(v.op.obj.objectKey)
  }

  /** A transaction whose effect is a transition that keeps an object's steps in separate blocks. */
  ghost predicate SafeStep(c: Crypto, st: ChainState, st': ChainState, tx: TxView, height: u64, mover: Option<Hash32>) {
    Transition(c, st, st', tx, height, mover) && StepsApart(st, st', tx, height, mover)
  }

  lemma CreateStep(
    c: Crypto, st: ChainState, l: Utxo, before: u64, block: BlockView, tx: TxView, txIndex: u32, eventIndex: u32,
    keys: KeyPair)
    requires LocalInv(c, st) && LedgerInv(c, st, l, before) && FaithfulTx(l, tx)
    requires NoKeyClash(c, st.binding.Namespace(c), l.txids + {tx.txid})
    requires VerdictFacts(c, st, block.height, tx, Accept(eventIndex, Create(keys)))
    ensures SafeStep(c, st, ApplyOperation(c, st, block, tx, txIndex, eventIndex, Create(keys)).state, tx, block.height,
                     Some(ObjectKey(c, st.binding.Namespace(c), tx.txid)))
  {
    CarriersCover(c, st, tx);
    CreateSpendsNoCarrier(c, st, l, before, block.height, tx, eventIndex, keys);
    FreshKey(c, st, l, before, tx);
    CreateTransition(c, st, tx, block.height, CreatedObject(c, st, block, tx, keys));
  }

  lemma MoveStep(
    c: Crypto, st: ChainState, l: Utxo, before: u64, height: u64, tx: TxView, obj: ObjectState, sequence: u32,
    next: ObjectState)
    requires LocalInv(c, st) && LedgerInv(c, st, l, before) && FaithfulTx(l, tx)
    requires CarrierSpends(st, tx.inputs) == [Spend(0, obj)] && Advances(tx, height, obj, sequence)
    requires Advanced(tx, obj, next) && Carries(c, tx, next)
    ensures SafeStep(c, st, AdvanceTo(st, obj.currentOutpoint, next), tx, height, Some(obj.objectKey))
  {
    CoverIsOnly(c, st, tx, obj);
    MoveTransition(c, st, tx, height, obj, next);
    StepWasEarlier(c, st, l, before, height, tx, obj, sequence);
  }

  lemma CloseStep(
    c: Crypto, st: ChainState, l: Utxo, before: u64, block: BlockView, tx: TxView, txIndex: u32, eventIndex: u32,
    op: Operation)
    requires LocalInv(c, st) && LedgerInv(c, st, l, before) && FaithfulTx(l, tx) && op.Close?
    requires CarrierSpends(st, tx.inputs) == [Spend(0, op.obj)] && Advances(tx, block.height, op.obj, op.sequence)
    ensures SafeStep(c, st, ApplyOperation(c, st, block, tx, txIndex, eventIndex, op).state, tx, block.height, None)
  {
    CoverIsOnly(c, st, tx, op.obj);
    CloseTransition(c, st, block, tx, txIndex, eventIndex, op);
    StepWasEarlier(c, st, l, before, block.height, tx, op.obj, op.sequence);
  }

  lemma MarkStep(
    c: Crypto, st: ChainState, l: Utxo, before: u64, block: BlockView, tx: TxView, txIndex: u32, eventIndex: u32,
    op: Operation)
    requires LocalInv(c, st) && LedgerInv(c, st, l, before) && FaithfulTx(l, tx) && op.Mark? && Applicable(st, op)
    requires Operand(st, op) && VerdictFacts(c, st, block.height, tx, Accept(eventIndex, op))
    ensures SafeStep(c, st, ApplyOperation(c, st, block, tx, txIndex, eventIndex, op).state, tx, block.height,
                     Some(op.obj.objectKey))
  {
    assert CarrierSpends(st, tx.inputs) == [Spend(0, op.obj)];
    MoveStep(c, st, l, before, block.height, tx, op.obj, op.sequence,
             op.obj.(currentOutpoint := Successor(tx), stateSeq := op.sequence,
                     chapterCount := op.obj.chapterCount + 1));
  }

  lemma RotateStep(
    c: Crypto, st: ChainState, l: Utxo, before: u64, block: BlockView, tx: TxView, txIndex: u32, eventIndex: u32,
    op: Operation)
    requires LocalInv(c, st) && LedgerInv(c, st, l, before) && FaithfulTx(l, tx) && op.Rotate?
    requires Operand(st, op) && VerdictFacts(c, st, block.height, tx, Accept(eventIndex, op))
    ensures SafeStep(c, st, ApplyOperation(c, st, block, tx, txIndex, eventIndex, op).state, tx, block.height,
                     Some(op.obj.objectKey))
  {
    assert CarrierSpends(st, tx.inputs) == [Spend(0, op.obj)];
    MoveStep(c, st, l, before, block.height, tx, op.obj, op.sequence,
             op.obj.(currentOutpoint := Successor(tx), stateSeq := op.sequence, keys := op.newKeys));
  }

  lemma OnlyCarrier(c: Crypto, st: ChainState, height: u64, tx: TxView, eventIndex: u32, op: Operation)
    requires VerdictFacts(c, st, height, tx, Accept(eventIndex, op))
    ensures !op.Create? ==>
              CarrierSpends(st, tx.inputs) == [Spend(0, op.obj)] && Advances(tx, height, op.obj, op.sequence)
  {
  }

  lemma OperationTransition(
    c: Crypto, st: ChainState, l: Utxo, before: u64, block: BlockView, tx: TxView, txIndex: u32, eventIndex: u32,
    op: Operation)
    requires LocalInv(c, st) && LedgerInv(c, st, l, before) && FaithfulTx(l, tx)
    requires NoKeyClash(c, st.binding.Namespace(c), l.txids + {tx.txid})
    requires VerdictFacts(c, st, block.height, tx, Accept(eventIndex, op)) && Applicable(st, op)
    ensures SafeStep(c, st, ApplyOperation(c, st, block, tx, txIndex, eventIndex, op).state, tx, block.height,
                     MoverOf(c, st, tx, Accept(eventIndex, op)))
  {
    OperandOk(c, st, block.height, tx, eventIndex, op);
    OnlyCarrier(c, st, block.height, tx, eventIndex, op);
    hide LocalInv, LedgerInv, FaithfulTx, NoKeyClash, VerdictFacts, SafeStep, ApplyOperation, CarrierSpends, Operand;
    match op
    case Create(keys) => CreateStep(c, st, l, before, block, tx, txIndex, eventIndex, keys);
    case Mark(_, _, _) => MarkStep(c, st, l, before, block, tx, txIndex, eventIndex, op);
    case Rotate(_, _, _) => RotateStep(c, st, l, before, block, tx, txIndex, eventIndex, op);
    case Close(_, _, _) => CloseStep(c, st, l, before, block, tx, txIndex, eventIndex, op);
  }

  lemma CoverReordered(st: ChainState, tx: TxView, carriers: seq<Spend>, sorted: seq<Spend>)
    requires SpendsCover(st, tx, carriers) && forall s :: s in sorted <==> s in carriers
    ensures SpendsCover(st, tx, sorted)
  {
    hide IsSpent, SpentBy;
  }

  lemma ExitsApart(st: ChainState, st': ChainState, tx: TxView, height: u64, carriers: seq<Spend>)
    requires Exited(st, st', carriers, tx.txid)
    ensures StepsApart(st, st', tx, height, None)
  {
    hide KeyIn, ExitedIndex;
  }

  lemma ExitStep(
    c: Crypto, st: ChainState, block: BlockView, tx: TxView, txIndex: u32, eventIndex: u32, reason: Reason,
    namespace: Hash32)
    requires LocalInv(c, st) && IndexAgrees(st.objects, st.active) && Fits(tx)
    ensures SafeStep(c, st, ExitAll(st, block, tx, txIndex, eventIndex, reason, namespace,
                                    SortBy(SpendLess, CarrierSpends(st, tx.inputs))).state, tx, block.height, None)
  {
    hide LocalInv, IndexAgrees, ExitAll, SortBy, CarrierSpends, IsSpent, SpentBy, Transition, StepsApart, Exited,
         SpendsCover;
    CarriersCover(c, st, tx);
    var sorted := SortBy(SpendLess, CarrierSpends(st, tx.inputs));
    SortMembers(SpendLess, CarrierSpends(st, tx.inputs));
    CoverReordered(st, tx, CarrierSpends(st, tx.inputs), sorted);
    ExitAllEffect(st, block, tx, txIndex, eventIndex, reason, namespace, sorted);
    var st' := ExitAll(st, block, tx, txIndex, eventIndex, reason, namespace, sorted).state;
    ExitTransition(c, st, st', tx, block.height, sorted);
    ExitsApart(st, st', tx, block.height, sorted);
  }

  lemma StepClearsInputs(
    c: Crypto, st: ChainState, st': ChainState, l: Utxo, tx: TxView, height: u64, mover: Option<Hash32>)
    requires SafeStep(c, st, st', tx, height, mover) && FaithfulTx(l, tx)
    ensures forall o :: SpentBy(tx, o) ==> o !in st'.active
  {
    assert !SpentBy(tx, Successor(tx));
  }

  /** Under a faithful source every active object whose outpoint is an input is advanced once to output 1 or made
      terminal with this txid, every other object is unchanged, and no input of the transaction stays indexed. */
  lemma NoSpentCarrierStaysActive(
    c: Crypto, st: ChainState, l: Utxo, before: u64, block: BlockView, tx: TxView, txIndex: u32)
    requires LocalInv(c, st) && Bounded(st) && LedgerInv(c, st, l, before) && FaithfulTx(l, tx) && Fits(tx)
    requires NoKeyClash(c, st.binding.Namespace(c), l.txids + {tx.txid})
    ensures var st' := ProcessTransaction(c, st, block, tx, txIndex).state;
            SafeStep(c, st, st', tx, block.height, MoverOf(c, st, tx, Classify(c, st, block.height, tx))) &&
            forall o :: SpentBy(tx, o) ==> o !in st'.active
  {
    hide Classify, LocalInv, FaithfulTx, NoKeyClash, SafeStep, ApplyOperation, ExitAll, RefundAccepted, Justified;
    var v := Classify(c, st, block.height, tx);
    ClassifyFacts(c, st, block.height, tx);
    AcceptedIsApplicable(c, st, block.height, tx, v);
    match v {
      case Exit(eventIndex, reason, namespace) => ExitStep(c, st, block, tx, txIndex, eventIndex, reason, namespace);
      case Refund(obj) =>
        CoverIsOnly(c, st, tx, obj);
        EndTransition(c, st, tx, block.height, obj, Refunded);
      case Accept(eventIndex, op) => OperationTransition(c, st, l, before, block, tx, txIndex, eventIndex, op);
      case Reject(_, _, _, _) =>
        CarriersCover(c, st, tx);
        QuietTransition(c, st, tx, block.height);
      case Silent =>
        CarriersCover(c, st, tx);
        QuietTransition(c, st, tx, block.height);
    }
    StepClearsInputs(c, st, ProcessTransaction(c, st, block, tx, txIndex).state, l, tx, block.height,
                     MoverOf(c, st, tx, Classify(c, st, block.height, tx)));
  }
}
