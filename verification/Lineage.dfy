/** Each object's events form one chain from its CREATE; what such a log implies on its own. */
module Lineage {
  import opened Primitives
  import opened Types
  import opened Validators
  import opened Sorting
  import opened Reducer
  import opened EventLog
  import opened LocalInvariant
  import opened Ledger
  import opened Transitions

  /** The event changes an object. */
  predicate Touches(e: Event) {
    e.validityClass == TerminalNoncanonical ||
    (e.validityClass == ValidOperation && e.eventType != InitEvent && e.eventType != ExitEvent &&
     e.eventType != InvalidEvent)
  }

  /** The event leaves its object active. */
  predicate Continues(e: Event) {
    e.validityClass == ValidOperation &&
    (e.eventType == CreateEvent || e.eventType == MarkEvent || e.eventType == RotateEvent)
  }

  predicate Opens(e: Event) { e.validityClass == ValidOperation && e.eventType == CreateEvent }

  predicate Counts(e: Event) {
    e.validityClass == ValidOperation &&
    (e.eventType == MarkEvent || e.eventType == RotateEvent || e.eventType == CloseEvent)
  }

  /** The latest event that changed object `k`. */
  function Tail(log: seq<Event>, k: Hash32): Option<Event> {
    if |log| == 0 then None
    else
      var last := log[|log| - 1];
      if Touches(last) && last.objectKey == k then Some(last) else Tail(log[..|log| - 1], k)
  }

  /** `e` extends the chain that ends in `p`: it consumes the previous successor, the sequence rises by exactly one on
      MARK, ROTATE and CLOSE and otherwise stays, only ROTATE changes keys, a counted step falls in a later block, and
      a refund falls at least 52,560 blocks after the carrier it consumes. */
  ghost predicate Follows(p: Option<Event>, e: Event) {
    if Opens(e) then
      p.None? && e.stateSeq == 0 && e.predecessor == ZERO_OUTPOINT && e.successor == OutPointRef(e.txid, 1)
    else
      p.Some? && Continues(p.value) && e.predecessor == p.value.successor &&
      e.stateSeq == p.value.stateSeq + (if Counts(e) then 1 else 0) &&
      e.successor == (if Continues(e) then OutPointRef(e.txid, 1) else ZERO_OUTPOINT) &&
      (e.eventType != RotateEvent || e.validityClass != ValidOperation ==>
       e.key0 == p.value.key0 && e.key1 == p.value.key1) &&
      (Counts(e) ==> p.value.height < e.height) &&
      (e.validityClass == ValidOperation && e.eventType == RefundEvent ==> p.value.height + REFUND_DELAY <= e.height)
  }

  ghost predicate Linear(log: seq<Event>) {
    |log| == 0 ||
    (var init, last := log[..|log| - 1], log[|log| - 1];
     Linear(init) && (Touches(last) ==> Follows(Tail(init, last.objectKey), last)))
  }

  lemma LinearSnoc(log: seq<Event>, e: Event)
    requires Linear(log) && (Touches(e) ==> Follows(Tail(log, e.objectKey), e))
    ensures Linear(log + [e])
  {
    assert (log + [e])[..|log|] == log;
  }

  lemma TailSnoc(log: seq<Event>, e: Event, k: Hash32)
    ensures Tail(log + [e], k) == if Touches(e) && e.objectKey == k then Some(e) else Tail(log, k)
  {
    assert (log + [e])[..|log|] == log;
  }

  // ---------- what a linear log implies by itself ----------

  function StatusAfter(e: Event): ObjectStatus {
    if e.validityClass == TerminalNoncanonical then ExitedNoncanonical
    else match e.eventType case CloseEvent => Closed case RefundEvent => Refunded case _ => Active
  }

  /** The stored object is the one its last event describes. */
  ghost predicate Matches(o: ObjectState, e: Event) {
    o.status == StatusAfter(e) && o.currentOutpoint == e.successor && o.stateSeq == e.stateSeq &&
    o.keys == KeyPair(e.key0, e.key1) && (o.status == Active <==> Continues(e))
  }

  ghost predicate TailsMatch(v: View, log: seq<Event>) {
    forall k: Hash32 :: (k in v.objects <==> Tail(log, k).Some?) &&
      (k in v.objects ==> Matches(v.objects[k], Tail(log, k).value))
  }

  /** Counters fit: an object's chapter count is bounded by its sequence. */
  ghost predicate ChaptersFit(v: View) {
    forall k :: k in v.objects ==> v.objects[k].chapterCount <= v.objects[k].stateSeq
  }

  /** The number of events that ended an object. */
  function Endings(log: seq<Event>): nat {
    if |log| == 0 then 0
    else Endings(log[..|log| - 1]) + if Touches(log[|log| - 1]) && !Continues(log[|log| - 1]) then 1 else 0
  }

  lemma InterpretFits(phase: Phase, v: View, log: seq<Event>, e: Event)
    requires TailsMatch(v, log) && ChaptersFit(v) && (Touches(e) ==> Follows(Tail(log, e.objectKey), e))
    ensures ChaptersFit(Interpret(phase, v, e))
  {
    hide Tail;
  }

  lemma InterpretMatches(phase: Phase, v: View, log: seq<Event>, e: Event)
    requires TailsMatch(v, log) && ChaptersFit(v) && (Touches(e) ==> Follows(Tail(log, e.objectKey), e))
    ensures TailsMatch(Interpret(phase, v, e), log + [e])
  {
    hide Tail;
    forall k: Hash32 ensures Tail(log + [e], k) == if Touches(e) && e.objectKey == k then Some(e) else Tail(log, k) {
      TailSnoc(log, e, k);
    }
  }

  function Inactive(objects: map<Hash32, ObjectState>): int { |objects| - |ActiveKeys(objects)| }

  lemma ActiveKeysUpdate(objects: map<Hash32, ObjectState>, k: Hash32, o: ObjectState)
    ensures ActiveKeys(objects[k := o]) ==
            if o.status == Active then ActiveKeys(objects) + {k} else ActiveKeys(objects) - {k}
  {
  }

  lemma InactiveUpdate(objects: map<Hash32, ObjectState>, k: Hash32, o: ObjectState)
    ensures Inactive(objects[k := o]) == Inactive(objects) +
            (if k !in objects then (if o.status == Active then 0 else 1)
             else (if objects[k].status == Active then 1 else 0) - (if o.status == Active then 1 else 0))
  {
    ActiveKeysUpdate(objects, k, o);
    if k in objects {
      assert objects[k := o].Keys == objects.Keys;
    } else {
      assert objects[k := o].Keys == objects.Keys + {k};
    }
    assert |objects[k := o]| == |objects[k := o].Keys| && |objects| == |objects.Keys|;
    assert k in ActiveKeys(objects) <==> k in objects && objects[k].status == Active;
  }

  lemma InterpretCounts(phase: Phase, v: View, log: seq<Event>, e: Event)
    requires TailsMatch(v, log) && ChaptersFit(v) && (Touches(e) ==> Follows(Tail(log, e.objectKey), e))
    ensures Inactive(Interpret(phase, v, e).objects) ==
            Inactive(v.objects) + if Touches(e) && !Continues(e) then 1 else 0
  {
    hide Inactive, Linear, Tail;
    if Touches(e) {
      var k := e.objectKey;
      var v' := Interpret(phase, v, e);
      assert v'.objects == v.objects[k := v'.objects[k]];
      InactiveUpdate(v.objects, k, v'.objects[k]);
    }
  }

  /** In a linear log every object is what its last event says, and the objects no longer active are exactly as many
      as the ending events. */
  lemma {:induction false} LinearLogView(phase: Phase, log: seq<Event>)
    requires Linear(log)
    ensures var v := InterpretAll(phase, View(map[], map[]), log);
            TailsMatch(v, log) && ChaptersFit(v) && Inactive(v.objects) == Endings(log)
    decreases |log|
  {
    if |log| == 0 {
      assert ActiveKeys(map[]) == {};
    } else {
      var init, e := log[..|log| - 1], log[|log| - 1];
      LinearLogView(phase, init);
      var v := InterpretAll(phase, View(map[], map[]), init);
      InterpretMatches(phase, v, init, e);
      InterpretFits(phase, v, init, e);
      InterpretCounts(phase, v, init, e);
      assert init + [e] == log;
    }
  }

  // ---------- every faithful transaction extends the chains ----------

  /** The last event of an active object is as old as its carrier. */
  ghost predicate HeightsMatch(st: ChainState, l: Utxo, log: seq<Event>) {
    forall k :: k in st.objects && st.objects[k].status == Active ==>
      Tail(log, k).Some? && st.objects[k].currentOutpoint in l.coins &&
      Tail(log, k).value.height == l.coins[st.objects[k].currentOutpoint].height
  }

  lemma {:induction false} SpendsOnce(st: ChainState, inputs: seq<InputView>)
    ensures forall s :: multiset(CarrierSpends(st, inputs))[s] <= 1
    decreases |inputs|
  {
    if |inputs| > 0 {
      var index := |inputs| - 1;
      SpendsOnce(st, inputs[..index]);
      var rest := CarrierSpends(st, inputs[..index]);
      var found := Lookup(st, inputs[index].prevout);
      if found.Some? {
        var s := Spend(index, found.value);
        assert s !in rest;
        assert s !in multiset(rest);
      }
    }
  }

  lemma OncePerPosition(s: seq<Spend>, i: nat, j: nat)
    requires i < j < |s| && multiset(s)[s[i]] <= 1
    ensures s[i] != s[j]
  {
    assert s == s[..j] + s[j..];
    assert s[i] in s[..j] && s[j] in s[j..];
    assert multiset(s) == multiset(s[..j]) + multiset(s[j..]);
  }

  /** A faithful transaction lists every spent object once, in any order. */
  lemma DistinctExits(c: Crypto, st: ChainState, l: Utxo, tx: TxView, i: nat, j: nat)
    requires LocalInv(c, st) && IndexAgrees(st.objects, st.active) && FaithfulTx(l, tx)
    requires i < j < |SortBy(SpendLess, CarrierSpends(st, tx.inputs))|
    ensures var s := SortBy(SpendLess, CarrierSpends(st, tx.inputs)); s[i].obj.objectKey != s[j].obj.objectKey
  {
    hide SortBy;
    var carriers := CarrierSpends(st, tx.inputs);
    var s := SortBy(SpendLess, carriers);
    SpendsOnce(st, tx.inputs);
    SortMultiset(SpendLess, carriers);
    SortMembers(SpendLess, carriers);
    OncePerPosition(s, i, j);
    assert s[i] in carriers && s[j] in carriers;
  }
}
