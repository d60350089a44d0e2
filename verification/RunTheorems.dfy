/** The promises of the reducer, stated over every run. */
module RunTheorems {
  import opened Primitives
  import opened Types
  import opened Validators
  import opened Reducer
  import opened EventLog
  import opened LocalInvariant
  import opened Ledger
  import opened Transitions
  import opened Lineage
  import opened FaithfulRuns
  import opened Heights
  import opened Roots
  import opened Commitments
  import opened ChainBinding

  // ---------- every run ----------

  /** Phases over any run: no object before the opening height, the opening at least 1,008 blocks after INIT, and the
      founding flag exactly for creations before the close. */
  lemma PhasesHold(c: Crypto, binding: Binding, blocks: seq<BlockView>, k: Hash32)
    requires forall i :: 0 <= i < |blocks| ==> BlockFits(blocks[i])
    requires Replay(c, binding, blocks).Some? && k in Replay(c, binding, blocks).value.objects
    ensures var st := Replay(c, binding, blocks).value;
            var o := st.objects[k];
            && st.protocolStatus.Running? && st.protocolStatus.hOpen <= o.createHeight
            && st.protocolStatus.hOpen >= st.protocolStatus.initHeight + INIT_LEAD
            && (o.founding <==> o.createHeight < st.protocolStatus.hOpen + FOUNDING_WINDOW)
            && o.chapterCount <= o.stateSeq
  {
    RunKeepsLocal(c, binding, blocks);
  }

  // ---------- index agreement and backing ----------

  /** `active` is the bijection between active objects and their outpoints; its keys all have vout 1, so the coinbase
      outpoint never matches; its size is the active counter; and whatever the index finds is the object whose current
      outpoint was looked up. */
  ghost predicate IndexSound(st: ChainState) {
    && IndexAgrees(st.objects, st.active)
    && (forall o :: o in st.active ==> o.vout == 1)
    && ZERO_OUTPOINT !in st.active
    && CountersOf(st.objects).activeObjects == |st.active|
    && (forall o, obj :: Lookup(st, o) == Some(obj) ==> obj.currentOutpoint == o && obj.status == Active)
  }

  lemma RunInvIndex(c: Crypto, st: ChainState, l: Utxo, log: seq<Event>, height: u64)
    requires RunInv(c, st, l, log, height)
    ensures IndexSound(st)
  {
    IndexSize(st.objects, st.active);
  }

  lemma IndexAgreement(c: Crypto, binding: Binding, blocks: seq<BlockView>)
    requires GoodRun(c, binding, blocks)
    ensures IndexSound(Replay(c, binding, blocks).value)
  {
    RunHoldsInvariant(c, binding, blocks);
    RunInvIndex(c, Replay(c, binding, blocks).value, RunUtxo(blocks), Log(c, binding, blocks), TipOf(blocks));
  }

  lemma {:induction false} IndexSize(objects: map<Hash32, ObjectState>, active: map<OutPointRef, Hash32>)
    requires IndexAgrees(objects, active)
    ensures |ActiveKeys(objects)| == |active|
    decreases |active|
  {
    assert |active| == |active.Keys|;
    if active.Keys == {} {
      assert ActiveKeys(objects) == {};
    } else {
      var o :| o in active;
      var k := active[o];
      var smaller, rest := objects[k := objects[k].(status := Closed)], active - {o};
      assert rest.Keys == active.Keys - {o};
      assert |rest| == |rest.Keys|;
      IndexSize(smaller, rest);
      ActiveKeysUpdate(objects, k, objects[k].(status := Closed));
      assert k in ActiveKeys(objects);
    }
  }

  ghost function ValueOf(coins: map<OutPointRef, Coin>, s: set<OutPointRef>): nat {
    if s == {} then 0
    else var o :| o in s; (if o in coins then coins[o].value else 0) + ValueOf(coins, s - {o})
  }

  lemma {:induction false} UniformValue(coins: map<OutPointRef, Coin>, s: set<OutPointRef>)
    requires forall o :: o in s ==> o in coins && coins[o].value == CARRIER_VALUE
    ensures ValueOf(coins, s) == CARRIER_VALUE * |s|
    decreases |s|
  {
    if s != {} {
      var o :| o in s && ValueOf(coins, s) == (if o in coins then coins[o].value else 0) + ValueOf(coins, s - {o});
      UniformValue(coins, s - {o});
    }
  }

  /** Every active carrier is an unspent recorded output of exactly 20,000 sats paying its object's keys; the locked
      value is 20,000 times the active counter. */
  lemma CarriersAreBacked(c: Crypto, binding: Binding, blocks: seq<BlockView>)
    requires GoodRun(c, binding, blocks)
    ensures var st, coins := Replay(c, binding, blocks).value, RunUtxo(blocks).coins;
            && (forall o :: o in st.active ==>
                st.active[o] in st.objects && o in coins && coins[o].value == CARRIER_VALUE &&
                                               coins[o].script == st.objects[st.active[o]].keys.CarrierScript(c))
            && ValueOf(coins, st.active.Keys) == CARRIER_VALUE * CountersOf(st.objects).activeObjects
  {
    RunHoldsInvariant(c, binding, blocks);
    IndexAgreement(c, binding, blocks);
    var st, coins := Replay(c, binding, blocks).value, RunUtxo(blocks).coins;
    forall o | o in st.active
      ensures st.active[o] in st.objects && o in coins && coins[o].value == CARRIER_VALUE &&
              coins[o].script == st.objects[st.active[o]].keys.CarrierScript(c)
    {
      assert ObjectBacked(c, RunUtxo(blocks), TipOf(blocks), st.objects[st.active[o]]);
    }
    UniformValue(coins, st.active.Keys);
    assert |st.active| == |st.active.Keys|;
  }

  /** At most one step per object per block: the sequence never exceeds the object's age in blocks. */
  lemma OneStepPerBlock(c: Crypto, binding: Binding, blocks: seq<BlockView>, k: Hash32)
    requires GoodRun(c, binding, blocks) && k in Replay(c, binding, blocks).value.objects
    ensures var st := Replay(c, binding, blocks).value;
            st.tipHeight.Some? && st.objects[k].createHeight + st.objects[k].stateSeq <= st.tipHeight.value
  {
    RunHoldsInvariant(c, binding, blocks);
    assert ObjectBacked(c, RunUtxo(blocks), TipOf(blocks), Replay(c, binding, blocks).value.objects[k]);
    if |blocks| > 0 { LinkedHeights(c, binding, blocks); }
  }

  // ---------- lineage ----------

  /** The log of a faithful run is linear for every object, its last event is the stored object, and
      `all_objects - active_objects` counts the ending events. */
  lemma LineageIsLinear(c: Crypto, binding: Binding, blocks: seq<BlockView>)
    requires GoodRun(c, binding, blocks)
    ensures var st, log := Replay(c, binding, blocks).value, Log(c, binding, blocks);
            && Linear(log)
            && TailsMatch(ViewOf(st), log)
            && CountersOf(st.objects).allObjects - CountersOf(st.objects).activeObjects == Endings(log)
  {
    RunHoldsInvariant(c, binding, blocks);
    LinearLogView(PhaseOf(Replay(c, binding, blocks).value.protocolStatus), Log(c, binding, blocks));
  }

  /** Every event that touches an object follows the latest earlier event of that object: it consumes that event's
      successor, and a refund falls at least 52,560 blocks after it. */
  lemma {:induction false} EveryEventFollows(log: seq<Event>, i: nat)
    requires Linear(log) && i < |log| && Touches(log[i])
    ensures Follows(Tail(log[..i], log[i].objectKey), log[i])
    decreases |log|
  {
    if i < |log| - 1 {
      EveryEventFollows(log[..|log| - 1], i);
      assert log[..|log| - 1][..i] == log[..i];
    }
  }

  // ---------- frozen ends ----------

  lemma {:induction false} GoodPrefixes(c: Crypto, binding: Binding, blocks: seq<BlockView>, n: nat)
    requires GoodRun(c, binding, blocks) && n <= |blocks|
    ensures GoodRun(c, binding, blocks[..n])
    decreases |blocks|
  {
    if n < |blocks| {
      GoodPrefix(c, binding, blocks);
      GoodPrefixes(c, binding, blocks[..|blocks| - 1], n);
      assert blocks[..|blocks| - 1][..n] == blocks[..n];
    } else {
      assert blocks[..n] == blocks;
    }
  }

  lemma BlockEvolves(c: Crypto, binding: Binding, blocks: seq<BlockView>)
    requires GoodRun(c, binding, blocks) && |blocks| > 0
    ensures GoodRun(c, binding, blocks[..|blocks| - 1])
    ensures Evolves(Replay(c, binding, blocks[..|blocks| - 1]).value, Replay(c, binding, blocks).value, TipOf(blocks))
  {
    GoodPrefix(c, binding, blocks);
    RunHoldsInvariant(c, binding, blocks[..|blocks| - 1]);
    LastBlock(c, binding, blocks);
  }

  lemma EvolvesAtLeast(a: ChainState, b: ChainState, d: ChainState, height: u64)
    requires Evolves(a, b, 0) && Evolves(b, d, height)
    ensures Evolves(a, d, 0)
  {
  }

  /** Between any two states of a run every object keeps its key, genesis, founding flag and creation height, and an
      object that has ended never changes again. */
  lemma {:induction false} EndsAreFrozen(c: Crypto, binding: Binding, blocks: seq<BlockView>, n: nat)
    requires GoodRun(c, binding, blocks) && n <= |blocks|
    ensures GoodRun(c, binding, blocks[..n])
    ensures Evolves(Replay(c, binding, blocks[..n]).value, Replay(c, binding, blocks).value, 0)
    decreases |blocks|
  {
    GoodPrefixes(c, binding, blocks, n);
    if n == |blocks| {
      assert blocks[..n] == blocks;
    } else {
      var init := blocks[..|blocks| - 1];
      BlockEvolves(c, binding, blocks);
      EndsAreFrozen(c, binding, init, n);
      assert init[..n] == blocks[..n];
      EvolvesAtLeast(Replay(c, binding, blocks[..n]).value, Replay(c, binding, init).value,
                     Replay(c, binding, blocks).value, TipOf(blocks));
    }
  }

  /** A block at or after the close of the founding window founds nothing. */
  lemma LateBlockFoundsNothing(c: Crypto, binding: Binding, blocks: seq<BlockView>)
    requires GoodRun(c, binding, blocks) && |blocks| > 1
    requires var s := Replay(c, binding, blocks).value.protocolStatus; s.Running? ==> TipOf(blocks) >= s.hClose
    ensures GoodRun(c, binding, blocks[..|blocks| - 1])
    ensures FoundingKeys(Replay(c, binding, blocks[..|blocks| - 1]).value.objects) ==
            FoundingKeys(Replay(c, binding, blocks).value.objects)
    ensures Replay(c, binding, blocks[..|blocks| - 1]).value.protocolStatus ==
            Replay(c, binding, blocks).value.protocolStatus
  {
    hide ApplyBlock;
    var init := blocks[..|blocks| - 1];
    BlockEvolves(c, binding, blocks);
    RunKeepsLocal(c, binding, blocks);
    var a, b := Replay(c, binding, init).value, Replay(c, binding, blocks).value;
    FoundingKeysKept(c, a, b, TipOf(blocks));
    AwaitingIffEmpty(c, binding, init);
    BlockInterpreted(c, a, blocks[|blocks| - 1]);
  }

  /** From the close of the founding window on, the founding objects and `founding_created` are constant: whatever
      blocks follow the first `n`, once the next height is past the window. */
  lemma {:induction false} FoundingIsConstant(c: Crypto, binding: Binding, blocks: seq<BlockView>, n: nat)
    requires GoodRun(c, binding, blocks) && 0 < n <= |blocks|
    requires var s := Replay(c, binding, blocks).value.protocolStatus; s.Running? ==> TipOf(blocks[..n]) + 1 >= s.hClose
    ensures GoodRun(c, binding, blocks[..n])
    ensures FoundingKeys(Replay(c, binding, blocks[..n]).value.objects) ==
            FoundingKeys(Replay(c, binding, blocks).value.objects)
    ensures CountersOf(Replay(c, binding, blocks[..n]).value.objects).foundingCreated ==
            CountersOf(Replay(c, binding, blocks).value.objects).foundingCreated
    decreases |blocks|
  {
    hide Replay, FoundingKeys, GoodRun;
    if n == |blocks| {
      assert blocks[..n] == blocks;
    } else {
      var init := blocks[..|blocks| - 1];
      assert init[..n] == blocks[..n];
      LaterTip(c, binding, blocks, n);
      LateBlockFoundsNothing(c, binding, blocks);
      FoundingIsConstant(c, binding, init, n);
    }
  }

  lemma LaterTip(c: Crypto, binding: Binding, blocks: seq<BlockView>, n: nat)
    requires GoodRun(c, binding, blocks) && 0 < n < |blocks|
    ensures TipOf(blocks) >= TipOf(blocks[..n]) + 1
    ensures Replay(c, binding, blocks).Some?
  {
    hide Replay;
    BranchTips(c, binding, blocks);
  }

  lemma FoundingKeysKept(c: Crypto, a: ChainState, b: ChainState, height: u64)
    requires Evolves(a, b, height) && LocalInv(c, b) &&
             (b.protocolStatus.Running? ==> height >= b.protocolStatus.hClose)
    ensures FoundingKeys(a.objects) == FoundingKeys(b.objects)
  {
    forall k: Hash32 ensures k in FoundingKeys(a.objects) <==> k in FoundingKeys(b.objects) {
      if k in b.objects { assert ObjectOk(c, b.binding, b.protocolStatus, b.objects[k]); }
      if k in a.objects { assert SameIdentity(a.objects[k], b.objects[k]); }
    }
  }

  // ---------- the object root ----------

  /** Two reachable states of one binding with equal object-state roots have identical `objects` and `active` maps,
      unless the strings hashed on the way contain a collision. */
  lemma ObjectRootBindsState(c: Crypto, binding: Binding, xs: seq<BlockView>, ys: seq<BlockView>)
    requires GoodRun(c, binding, xs) && GoodRun(c, binding, ys)
    requires var n, a, b := binding.Namespace(c), Replay(c, binding, xs).value.objects,
             Replay(c, binding, ys).value.objects;
             ObjectStateRoot(c, n, ObjectsInOrder(a)) == ObjectStateRoot(c, n, ObjectsInOrder(b)) &&
             NoCollision(c, ObjectHashed(c, n, a) + ObjectHashed(c, n, b))
    ensures Replay(c, binding, xs).value.objects == Replay(c, binding, ys).value.objects
    ensures Replay(c, binding, xs).value.active == Replay(c, binding, ys).value.active
  {
    hide Replay, FaithfulRun, ObjectStateRoot, ObjectsInOrder, ObjectHashed, NoCollision, ObjectsOk, NoKeyClash;
    var a, b := Replay(c, binding, xs).value, Replay(c, binding, ys).value;
    RunsAreCoherent(c, binding, xs);
    RunsAreCoherent(c, binding, ys);
    ObjectRootBinding(c, binding, a.protocolStatus, b.protocolStatus, a.objects, b.objects);
    IndexAgreement(c, binding, xs);
    IndexAgreement(c, binding, ys);
    IndexDetermined(a.objects, a.active, b.active);
  }

  lemma RunsAreCoherent(c: Crypto, binding: Binding, blocks: seq<BlockView>)
    requires GoodRun(c, binding, blocks)
    ensures ObjectsOk(c, binding, Replay(c, binding, blocks).value.protocolStatus,
                      Replay(c, binding, blocks).value.objects)
  {
    hide Replay;
    RunKeepsLocal(c, binding, blocks);
  }

  lemma IndexDetermined(objects: map<Hash32, ObjectState>, a: map<OutPointRef, Hash32>, b: map<OutPointRef, Hash32>)
    requires IndexAgrees(objects, a) && IndexAgrees(objects, b)
    ensures a == b
  {
  }
}
