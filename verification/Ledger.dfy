/** The Bitcoin outputs behind the carriers, and what a faithful block source guarantees. */
module Ledger {
  import opened Primitives
  import opened Types
  import opened Validators
  import opened Sorting
  import opened Reducer
  import opened LocalInvariant

  /** A confirmed output: amount, script and the height of its block. */
  datatype Coin = Coin(value: u64, script: Bytes, height: u64)

  /** Unspent outputs made by applied blocks, and every txid those blocks contained. */
  datatype Utxo = Utxo(coins: map<OutPointRef, Coin>, txids: set<Hash32>)

  ghost predicate SpentBy(tx: TxView, o: OutPointRef) {
    exists i :: 0 <= i < |tx.inputs| && tx.inputs[i].prevout == o
  }

  ghost function Prevouts(tx: TxView): (r: set<OutPointRef>)
    ensures forall o :: o in r <==> SpentBy(tx, o)
  {
    set i | 0 <= i < |tx.inputs| :: tx.inputs[i].prevout
  }

  ghost function OutputCoins(tx: TxView, height: u64): (r: map<OutPointRef, Coin>)
    ensures forall o :: o in r <==> o.txid == tx.txid && o.vout < |tx.outputs|
    ensures forall o :: o in r ==> r[o] == Coin(tx.outputs[o.vout].value, tx.outputs[o.vout].scriptPubkey, height)
  {
    map v: u32 | 0 <= v < |tx.outputs| ::
      OutPointRef(tx.txid, v) := Coin(tx.outputs[v].value, tx.outputs[v].scriptPubkey, height)
  }

  ghost function SpendTx(l: Utxo, tx: TxView, height: u64): Utxo {
    Utxo((l.coins - Prevouts(tx)) + OutputCoins(tx, height), l.txids + {tx.txid})
  }

  /** What Bitcoin consensus and the resolver promise of a transaction: a new txid, distinct prevouts, and for an
      output made by an applied block, that it is unspent and resolved to its recorded amount, script and height.
      A coinbase input carries the zero outpoint. */
  ghost predicate FaithfulTx(l: Utxo, tx: TxView) {
    && tx.txid !in l.txids
    && (forall i :: 0 <= i < |tx.inputs| ==> tx.inputs[i].prevout.txid != tx.txid)
    && (forall i, j :: 0 <= i < j < |tx.inputs| ==> tx.inputs[i].prevout != tx.inputs[j].prevout)
    && (forall i ::
          0 <= i < |tx.inputs| && tx.inputs[i].prevout != ZERO_OUTPOINT && tx.inputs[i].prevout.txid in l.txids ==>
            Resolved(l, tx.inputs[i]))
  }

  ghost predicate Resolved(l: Utxo, input: InputView) {
    input.prevout in l.coins &&
    (var coin := l.coins[input.prevout];
     input.prevoutValue == coin.value && input.prevoutScript == coin.script && input.prevoutHeight == Some(coin.height))
  }

  /** Object keys are hashes of txids; within one run they are assumed not to collide. */
  ghost predicate NoKeyClash(c: Crypto, namespace: Hash32, txids: set<Hash32>) {
    forall a: Hash32, b: Hash32 ::
      a in txids && b in txids && ObjectKey(c, namespace, a) == ObjectKey(c, namespace, b) ==> a == b
  }

  // ---------- the invariant ----------

  /** `active` is exactly the bijection between active objects and their current outpoints. */
  ghost predicate IndexAgrees(objects: map<Hash32, ObjectState>, active: map<OutPointRef, Hash32>) {
    && (forall o :: o in active ==> active[o] in objects && objects[active[o]].status == Active &&
                                    objects[active[o]].currentOutpoint == o)
    && (forall k :: k in objects && objects[k].status == Active ==>
          objects[k].currentOutpoint in active && active[objects[k].currentOutpoint] == k)
  }

  /** The current carrier is an unspent output of exactly 20,000 sats paying the object's keys, confirmed late
      enough that the object has taken at most one step per block. */
  ghost predicate Backed(c: Crypto, coins: map<OutPointRef, Coin>, height: u64, o: ObjectState) {
    o.currentOutpoint in coins &&
    (var coin := coins[o.currentOutpoint];
     coin.value == CARRIER_VALUE && coin.script == o.keys.CarrierScript(c) &&
     o.createHeight + o.stateSeq <= coin.height <= height)
  }

  ghost predicate ObjectBacked(c: Crypto, l: Utxo, height: u64, o: ObjectState) {
    && o.genesis.txid in l.txids
    && o.createHeight + o.stateSeq <= height
    && (o.status == Active ==> Backed(c, l.coins, height, o))
  }

  ghost predicate LedgerInv(c: Crypto, st: ChainState, l: Utxo, height: u64) {
    && IndexAgrees(st.objects, st.active)
    && (forall k :: k in st.objects ==> ObjectBacked(c, l, height, st.objects[k]))
    && (forall o :: o in l.coins ==> o.txid in l.txids)
  }

  // ---------- what one transaction may do ----------

  ghost predicate SameIdentity(a: ObjectState, b: ObjectState) {
    a.objectKey == b.objectKey && a.genesis == b.genesis && a.founding == b.founding && a.createHeight == b.createHeight
  }

  /** Advanced once to output 1 of the transaction. */
  ghost predicate Advanced(tx: TxView, a: ObjectState, b: ObjectState) {
    SameIdentity(a, b) && b.status == Active && b.currentOutpoint == Successor(tx) && b.stateSeq == a.stateSeq + 1 &&
    b.terminalTxid == a.terminalTxid
  }

  /** Made terminal by the transaction; only CLOSE raises the sequence. */
  ghost predicate Ended(tx: TxView, a: ObjectState, b: ObjectState) {
    SameIdentity(a, b) && b.status != Active && b.currentOutpoint == ZERO_OUTPOINT && b.terminalTxid == tx.txid &&
    b.keys == a.keys && b.chapterCount == a.chapterCount &&
    b.stateSeq == a.stateSeq + (if b.status == Closed then 1 else 0)
  }

  ghost predicate IsSpent(tx: TxView, o: ObjectState) { o.status == Active && SpentBy(tx, o.currentOutpoint) }

  ghost predicate Outcome(tx: TxView, a: ObjectState, b: ObjectState, moved: bool) {
    if !IsSpent(tx, a) then !moved && b == a
    else if moved then Advanced(tx, a, b)
    else Ended(tx, a, b)
  }

  /** The whole effect of one transaction on the two maps. `mover` is the object, old or new, now sitting at output 1:
      every spent active object is that mover or has ended; every other object is untouched; the index loses exactly
      the spent outpoints and gains exactly the mover's. */
  ghost predicate Transition(
    c: Crypto, st: ChainState, st': ChainState, tx: TxView, height: u64, mover: Option<Hash32>) {
    && (forall k :: k in st.objects ==>
        k in st'.objects && Outcome(tx, st.objects[k], st'.objects[k], mover == Some(k)))
    && (forall k :: k in st'.objects ==> k in st.objects || mover == Some(k))
    && (mover.Some? ==> mover.value in st'.objects && Carries(c, tx, st'.objects[mover.value]))
    && (mover.Some? && mover.value !in st.objects ==> Newborn(tx, height, st'.objects[mover.value]))
    && (forall o :: o in st'.active <==> (o in st.active && !SpentBy(tx, o)) || (mover.Some? && o == Successor(tx)))
    && (forall o :: o in st'.active ==>
          if mover.Some? && o == Successor(tx) then st'.active[o] == mover.value else st'.active[o] == st.active[o])
  }

  /** The transaction's output 1 is the object's new carrier. */
  ghost predicate Carries(c: Crypto, tx: TxView, o: ObjectState) {
    o.status == Active && o.currentOutpoint == Successor(tx) && |tx.outputs| > 1 &&
    tx.outputs[1] == OutputView(CARRIER_VALUE, o.keys.CarrierScript(c))
  }

  ghost predicate Newborn(tx: TxView, height: u64, o: ObjectState) {
    o.genesis == Successor(tx) && o.createHeight == height && o.stateSeq == 0
  }

  // ---------- carriers are exactly the spent active objects ----------

  lemma {:induction false} SpendsComplete(st: ChainState, inputs: seq<InputView>, i: nat)
    requires i < |inputs| && Lookup(st, inputs[i].prevout).Some?
    ensures Spend(i, Lookup(st, inputs[i].prevout).value) in CarrierSpends(st, inputs)
    decreases |inputs|
  {
    if i < |inputs| - 1 { SpendsComplete(st, inputs[..|inputs| - 1], i); }
  }

  ghost predicate SpendsCover(st: ChainState, tx: TxView, carriers: seq<Spend>) {
    && (forall s :: s in carriers ==> s.obj.objectKey in st.objects && st.objects[s.obj.objectKey] == s.obj &&
                                      IsSpent(tx, s.obj))
    && (forall k :: k in st.objects && IsSpent(tx, st.objects[k]) ==>
        exists s :: s in carriers && s.obj == st.objects[k])
    && (forall o :: o in st.active && SpentBy(tx, o) ==> exists s :: s in carriers && s.obj.currentOutpoint == o)
  }

  lemma CarriersCover(c: Crypto, st: ChainState, tx: TxView)
    requires LocalInv(c, st) && IndexAgrees(st.objects, st.active)
    ensures SpendsCover(st, tx, CarrierSpends(st, tx.inputs))
  {
    var carriers := CarrierSpends(st, tx.inputs);
    forall o | o in st.active && SpentBy(tx, o)
      ensures exists s :: s in carriers && s.obj == st.objects[st.active[o]]
    {
      var i :| 0 <= i < |tx.inputs| && tx.inputs[i].prevout == o;
      SpendsComplete(st, tx.inputs, i);
      assert Spend(i, st.objects[st.active[o]]) in carriers;
    }
    forall k | k in st.objects && IsSpent(tx, st.objects[k])
      ensures exists s :: s in carriers && s.obj == st.objects[k]
    {
      assert st.objects[k].currentOutpoint in st.active;
    }
  }

  /** The spent carrier's input was resolved to its recorded coin. */
  lemma CarrierInputResolved(c: Crypto, st: ChainState, l: Utxo, height: u64, tx: TxView, i: nat)
    requires LocalInv(c, st) && LedgerInv(c, st, l, height) && FaithfulTx(l, tx)
    requires i < |tx.inputs| && tx.inputs[i].prevout in st.active
    ensures Resolved(l, tx.inputs[i]) && Backed(c, l.coins, height, st.objects[st.active[tx.inputs[i].prevout]])
  {
  }

  // ---------- preservation ----------

  lemma BackedSurvives(c: Crypto, l: Utxo, before: u64, height: u64, tx: TxView, o: ObjectState)
    requires Backed(c, l.coins, before, o) && before <= height && o.currentOutpoint.txid in l.txids
    requires FaithfulTx(l, tx) && !SpentBy(tx, o.currentOutpoint)
    ensures Backed(c, SpendTx(l, tx, height).coins, height, o)
  {
  }

  lemma CarriesIsBacked(c: Crypto, l: Utxo, height: u64, tx: TxView, o: ObjectState)
    requires Carries(c, tx, o) && o.createHeight + o.stateSeq <= height
    ensures Backed(c, SpendTx(l, tx, height).coins, height, o)
  {
    assert Successor(tx) in OutputCoins(tx, height);
  }

  /** An advanced or closed object took its previous step in an earlier block. */
  ghost predicate StepsApart(st: ChainState, st': ChainState, tx: TxView, height: u64, mover: Option<Hash32>) {
    forall k :: k in st.objects && k in st'.objects && IsSpent(tx, st.objects[k]) &&
                (mover == Some(k) || st'.objects[k].status == Closed) ==>
      st.objects[k].createHeight + st.objects[k].stateSeq < height
  }

  lemma TransitionKeepsBacking(
    c: Crypto, st: ChainState, st': ChainState, l: Utxo, before: u64, height: u64, tx: TxView, mover: Option<Hash32>,
    k: Hash32)
    requires LedgerInv(c, st, l, before) && before <= height && FaithfulTx(l, tx)
    requires Transition(c, st, st', tx, height, mover) && StepsApart(st, st', tx, height, mover)
    requires k in st'.objects
    ensures ObjectBacked(c, SpendTx(l, tx, height), height, st'.objects[k])
  {
    if k in st.objects {
      assert Outcome(tx, st.objects[k], st'.objects[k], mover == Some(k));
      if !IsSpent(tx, st.objects[k]) {
        if st.objects[k].status == Active { BackedSurvives(c, l, before, height, tx, st.objects[k]); }
      } else if mover == Some(k) {
        CarriesIsBacked(c, l, height, tx, st'.objects[k]);
      }
    } else {
      CarriesIsBacked(c, l, height, tx, st'.objects[k]);
    }
  }

  lemma TransitionKeepsIndex(
    c: Crypto, st: ChainState, st': ChainState, l: Utxo, before: u64, height: u64, tx: TxView, mover: Option<Hash32>)
    requires LedgerInv(c, st, l, before) && FaithfulTx(l, tx) && Transition(c, st, st', tx, height, mover)
    ensures IndexAgrees(st'.objects, st'.active)
  {
    forall o | o in st'.active
      ensures st'.active[o] in st'.objects && st'.objects[st'.active[o]].status == Active &&
              st'.objects[st'.active[o]].currentOutpoint == o
    {
      if !(mover.Some? && o == Successor(tx)) {
        var k := st.active[o];
        assert Outcome(tx, st.objects[k], st'.objects[k], mover == Some(k));
      }
    }
    forall k | k in st'.objects && st'.objects[k].status == Active
      ensures st'.objects[k].currentOutpoint in st'.active && st'.active[st'.objects[k].currentOutpoint] == k
    {
      if mover != Some(k) {
        assert Outcome(tx, st.objects[k], st'.objects[k], false);
        assert st.objects[k].currentOutpoint in l.coins;
      }
    }
  }

  /** Any transition of a faithful transaction keeps index agreement and carrier backing. */
  lemma TransitionKeepsLedger(
    c: Crypto, st: ChainState, st': ChainState, l: Utxo, before: u64, height: u64, tx: TxView, mover: Option<Hash32>)
    requires LedgerInv(c, st, l, before) && before <= height && FaithfulTx(l, tx)
    requires Transition(c, st, st', tx, height, mover) && StepsApart(st, st', tx, height, mover)
    ensures LedgerInv(c, st', SpendTx(l, tx, height), height)
  {
    TransitionKeepsIndex(c, st, st', l, before, height, tx, mover);
    forall k: Hash32 | k in st'.objects ensures ObjectBacked(c, SpendTx(l, tx, height), height, st'.objects[k]) {
      TransitionKeepsBacking(c, st, st', l, before, height, tx, mover, k);
    }
  }
}
