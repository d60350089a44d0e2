/** The object-state root and the chained root bind the object map and the complete history of a run. */
module ChainBinding {
  import opened Primitives
  import opened Types
  import opened Sorting
  import opened Roots
  import opened Reducer
  import opened EventLog
  import opened LocalInvariant
  import opened Commitments

  // ---------- object leaves ----------

  lemma ObjectWidths(a: ObjectState, b: ObjectState)
    ensures forall i :: 0 <= i < 10 ==> |ObjectFields(a)[i]| == |ObjectFields(b)[i]|
  {
  }

  lemma ObjectFieldsInjective(a: ObjectState, b: ObjectState)
    requires ObjectFields(a) == ObjectFields(b)
    ensures a.objectKey == b.objectKey && a.founding == b.founding && a.status == b.status &&
            a.createHeight == b.createHeight
    ensures a.stateSeq == b.stateSeq && a.keys == b.keys && a.chapterCount == b.chapterCount
    ensures a.status == Active ==> a.currentOutpoint == b.currentOutpoint
    ensures a.status != Active ==> a.terminalTxid == b.terminalTxid
  {
    var f, g := ObjectFields(a), ObjectFields(b);
    assert f[0] == g[0] && f[1][0] == g[1][0] && f[2][0] == g[2][0] && f[3] == g[3] && f[4] == g[4] && f[5] == g[5];
    assert f[6] == g[6] && f[7] == g[7] && f[8] == g[8] && f[9] == g[9];
    LE8Injective(a.createHeight, b.createHeight);
    LE4Injective(a.stateSeq, b.stateSeq);
    LE4Injective(a.chapterCount, b.chapterCount);
    if a.status == Active { WireInjective(a.currentOutpoint, b.currentOutpoint); }
  }

  lemma KeyPreimageInjective(namespace: Hash32, a: Hash32, b: Hash32)
    requires ObjectKeyPreimage(namespace, a) == ObjectKeyPreimage(namespace, b)
    ensures a == b
  {
    var f, g := [namespace, a, LE(1, 4)], [namespace, b, LE(1, 4)];
    SplitConcat(OBJECT_KEY_TAG, Concat(f), OBJECT_KEY_TAG, Concat(g));
    ConcatInjective(f, g);
    assert f[1] == g[1];
  }

  /** A coherent object is determined by its leaf; its genesis, which the leaf omits, through its hashed key. */
  lemma ObjectPreimageInjective(
    c: Crypto, binding: Binding, s: ProtocolStatus, t: ProtocolStatus, a: ObjectState, b: ObjectState)
    requires ObjectOk(c, binding, s, a) && ObjectOk(c, binding, t, b) && ObjectPreimage(a) == ObjectPreimage(b)
    requires NoCollision(c, {ObjectKeyPreimage(binding.Namespace(c), a.genesis.txid),
                             ObjectKeyPreimage(binding.Namespace(c), b.genesis.txid)})
    ensures a == b
  {
    hide ObjectFields, Concat, ObjectKeyPreimage;
    ObjectWidths(a, b);
    SplitConcat(OBJECT_STATE_TAG, Concat(ObjectFields(a)), OBJECT_STATE_TAG, Concat(ObjectFields(b)));
    ConcatInjective(ObjectFields(a), ObjectFields(b));
    ObjectFieldsInjective(a, b);
    KeyPreimageInjective(binding.Namespace(c), a.genesis.txid, b.genesis.txid);
  }

  lemma LeafKey(a: ObjectState, b: ObjectState)
    requires ObjectPreimage(a) == ObjectPreimage(b)
    ensures a.objectKey == b.objectKey
  {
    hide ObjectFields, Concat;
    ObjectWidths(a, b);
    SplitConcat(OBJECT_STATE_TAG, Concat(ObjectFields(a)), OBJECT_STATE_TAG, Concat(ObjectFields(b)));
    ConcatInjective(ObjectFields(a), ObjectFields(b));
    ObjectFieldsInjective(a, b);
  }

  function ObjectPreimages(objs: seq<ObjectState>): (r: seq<Bytes>)
    ensures |r| == |objs| && forall i :: 0 <= i < |r| ==> r[i] == ObjectPreimage(objs[i])
  {
    if |objs| == 0 then [] else [ObjectPreimage(objs[0])] + ObjectPreimages(objs[1..])
  }

  function ObjectTree(namespace: Hash32, objects: map<Hash32, ObjectState>): Tree {
    RootTree(ObjectEmptyPreimage(namespace), ObjectPreimages(ObjectsInOrder(objects)))
  }

  lemma {:induction false} ObjectLeavesAreTrees(c: Crypto, objs: seq<ObjectState>)
    ensures ObjectLeaves(c, objs) == TreeHashes(c, OBJECT_NODE_TAG, LeafTrees(ObjectPreimages(objs)))
    decreases |objs|
  {
    if |objs| > 0 {
      ObjectLeavesAreTrees(c, objs[1..]);
      assert ObjectPreimages(objs)[1..] == ObjectPreimages(objs[1..]);
      assert LeafTrees(ObjectPreimages(objs))[1..] == LeafTrees(ObjectPreimages(objs[1..]));
    }
  }

  ghost predicate Keyed(objects: map<Hash32, ObjectState>) { forall k :: k in objects ==> objects[k].objectKey == k }

  lemma InKeyOrder(objects: map<Hash32, ObjectState>)
    requires Keyed(objects)
    ensures var objs := ObjectsInOrder(objects);
            forall i, j :: 0 <= i < j < |objs| ==> LexLess(objs[i].objectKey, objs[j].objectKey)
  {
    var keys := KeysInOrder(objects.Keys);
    assert forall i :: 0 <= i < |keys| ==> keys[i] in objects;
  }

  /** Iterating the map in key order already sorts the leaves. */
  lemma ObjectRootIsTreeHash(c: Crypto, namespace: Hash32, objects: map<Hash32, ObjectState>)
    requires Keyed(objects)
    ensures ObjectStateRoot(c, namespace, ObjectsInOrder(objects)) ==
            TreeHash(c, OBJECT_NODE_TAG, ObjectTree(namespace, objects))
  {
    var objs := ObjectsInOrder(objects);
    InKeyOrder(objects);
    forall i, j | 0 <= i < j < |objs| ensures !ObjectLess(objs[j], objs[i]) {
      LexAsymmetric(objs[i].objectKey, objs[j].objectKey);
    }
    SortOrdered(ObjectLess, objs);
    ObjectLeavesAreTrees(c, objs);
    if |objs| > 0 { MerkleIsTreeHash(c, OBJECT_NODE_TAG, LeafTrees(ObjectPreimages(objs))); }
  }

  lemma ObjectTagsApart()
    ensures TagsApart(OBJECT_STATE_TAG, OBJECT_NODE_TAG) && TagsApart(OBJECT_EMPTY_TAG, OBJECT_NODE_TAG) &&
            TagsApart(OBJECT_STATE_TAG, OBJECT_EMPTY_TAG)
  {
    assert OBJECT_STATE_TAG[14] == 0x53 && OBJECT_NODE_TAG[14] == 0x4E && OBJECT_EMPTY_TAG[14] == 0x45;
  }

  lemma ObjectPreimagesDistinct(objects: map<Hash32, ObjectState>)
    requires Keyed(objects)
    ensures var ps := ObjectPreimages(ObjectsInOrder(objects)); Distinct(ps) && AllTagged(OBJECT_STATE_TAG, ps)
  {
    var objs := ObjectsInOrder(objects);
    InKeyOrder(objects);
    forall i, j | 0 <= i < j < |objs| ensures ObjectPreimages(objs)[i] != ObjectPreimages(objs)[j] {
      LexAsymmetric(objs[i].objectKey, objs[j].objectKey);
      if ObjectPreimage(objs[i]) == ObjectPreimage(objs[j]) { LeafKey(objs[i], objs[j]); }
    }
  }

  ghost function KeyPreimages(namespace: Hash32, objects: map<Hash32, ObjectState>): set<Bytes> {
    set k | k in objects :: ObjectKeyPreimage(namespace, objects[k].genesis.txid)
  }

  ghost function ObjectHashed(c: Crypto, namespace: Hash32, objects: map<Hash32, ObjectState>): set<Bytes> {
    Hashed(c, OBJECT_NODE_TAG, ObjectTree(namespace, objects)) + KeyPreimages(namespace, objects)
  }

  lemma ListedObject(objects: map<Hash32, ObjectState>, i: nat) returns (k: Hash32)
    requires i < |ObjectsInOrder(objects)|
    ensures k in objects && ObjectsInOrder(objects)[i] == objects[k] && k == KeysInOrder(objects.Keys)[i]
  {
    k := KeysInOrder(objects.Keys)[i];
    assert k in KeysInOrder(objects.Keys);
  }

  lemma SameObjectAt(
    c: Crypto, binding: Binding, s: ProtocolStatus, t: ProtocolStatus, a: map<Hash32, ObjectState>,
    b: map<Hash32, ObjectState>, i: nat)
    requires ObjectsOk(c, binding, s, a) && ObjectsOk(c, binding, t, b)
    requires ObjectPreimages(ObjectsInOrder(a)) == ObjectPreimages(ObjectsInOrder(b)) && i < |ObjectsInOrder(a)|
    requires NoCollision(c, KeyPreimages(binding.Namespace(c), a) + KeyPreimages(binding.Namespace(c), b))
    ensures i < |ObjectsInOrder(b)| && ObjectsInOrder(a)[i] == ObjectsInOrder(b)[i]
  {
    hide ObjectPreimage, ObjectKeyPreimage, ObjectOk, ObjectsInOrder;
    var n := binding.Namespace(c);
    assert |ObjectPreimages(ObjectsInOrder(a))| == |ObjectPreimages(ObjectsInOrder(b))|;
    assert ObjectPreimages(ObjectsInOrder(a))[i] == ObjectPreimages(ObjectsInOrder(b))[i];
    var k := ListedObject(a, i);
    var l := ListedObject(b, i);
    var p, q := ObjectKeyPreimage(n, a[k].genesis.txid), ObjectKeyPreimage(n, b[l].genesis.txid);
    assert p in KeyPreimages(n, a) && q in KeyPreimages(n, b);
    NoCollisionSubset(c, {p, q}, KeyPreimages(n, a) + KeyPreimages(n, b));
    ObjectPreimageInjective(c, binding, s, t, a[k], b[l]);
  }

  lemma OrderDeterminesMap(a: map<Hash32, ObjectState>, b: map<Hash32, ObjectState>)
    requires Keyed(a) && Keyed(b) && ObjectsInOrder(a) == ObjectsInOrder(b)
    ensures a == b
  {
    var ks, ls := KeysInOrder(a.Keys), KeysInOrder(b.Keys);
    assert |ObjectsInOrder(a)| == |ObjectsInOrder(b)|;
    forall i | 0 <= i < |ks| ensures ks[i] == ls[i] && ks[i] in a && ls[i] in b && a[ks[i]] == b[ls[i]] {
      var k := ListedObject(a, i);
      var l := ListedObject(b, i);
    }
    assert ks == ls;
    hide ObjectsInOrder;
    forall k: Hash32 ensures k in a <==> k in b { assert k in ks <==> k in ls; }
    forall k: Hash32 | k in a ensures a[k] == b[k] {
      assert k in ks;
      var i :| 0 <= i < |ks| && ks[i] == k;
    }
  }

  lemma SameObjects(
    c: Crypto, binding: Binding, s: ProtocolStatus, t: ProtocolStatus, a: map<Hash32, ObjectState>,
    b: map<Hash32, ObjectState>)
    requires ObjectsOk(c, binding, s, a) && ObjectsOk(c, binding, t, b)
    requires ObjectPreimages(ObjectsInOrder(a)) == ObjectPreimages(ObjectsInOrder(b))
    requires NoCollision(c, KeyPreimages(binding.Namespace(c), a) + KeyPreimages(binding.Namespace(c), b))
    ensures a == b
  {
    hide ObjectPreimage, ObjectKeyPreimage, ObjectOk, ObjectsInOrder, NoCollision;
    assert |ObjectPreimages(ObjectsInOrder(a))| == |ObjectPreimages(ObjectsInOrder(b))|;
    forall i | 0 <= i < |ObjectsInOrder(a)| ensures i < |ObjectsInOrder(b)| &&
      ObjectsInOrder(a)[i] == ObjectsInOrder(b)[i] {
      SameObjectAt(c, binding, s, t, a, b, i);
    }
    assert ObjectsInOrder(a) == ObjectsInOrder(b);
    OrderDeterminesMap(a, b);
  }

  /** Two coherent object maps under one binding with the same object-state root are the same map. */
  lemma ObjectRootBinding(
    c: Crypto, binding: Binding, s: ProtocolStatus, t: ProtocolStatus, a: map<Hash32, ObjectState>,
    b: map<Hash32, ObjectState>)
    requires ObjectsOk(c, binding, s, a) && ObjectsOk(c, binding, t, b)
    requires var n := binding.Namespace(c);
             ObjectStateRoot(c, n, ObjectsInOrder(a)) == ObjectStateRoot(c, n, ObjectsInOrder(b)) &&
             NoCollision(c, ObjectHashed(c, n, a) + ObjectHashed(c, n, b))
    ensures a == b
  {
    hide ObjectPreimage, RootTree, Hashed, TreeHash, ObjectStateRoot, ObjectsInOrder, ObjectOk;
    var n := binding.Namespace(c);
    ObjectRootIsTreeHash(c, n, a);
    ObjectRootIsTreeHash(c, n, b);
    ObjectTagsApart();
    ObjectPreimagesDistinct(a);
    ObjectPreimagesDistinct(b);
    var all := ObjectHashed(c, n, a) + ObjectHashed(c, n, b);
    NoCollisionSubset(c, Hashed(c, OBJECT_NODE_TAG, ObjectTree(n, a)) + Hashed(c, OBJECT_NODE_TAG, ObjectTree(n, b)),
                      all);
    NoCollisionSubset(c, KeyPreimages(n, a) + KeyPreimages(n, b), all);
    RootBinding(c, OBJECT_NODE_TAG, OBJECT_STATE_TAG, OBJECT_EMPTY_TAG, ObjectEmptyPreimage(n), ObjectEmptyPreimage(n),
                ObjectPreimages(ObjectsInOrder(a)), ObjectPreimages(ObjectsInOrder(b)));
    SameObjects(c, binding, s, t, a, b);
  }

  // ---------- the chained root ----------

  /** Every string hashed by a run for its namespace, its roots and the keys of its objects. */
  ghost function BlockHashed(c: Crypto, before: ChainState, a: Applied): set<Bytes> {
    var n := before.binding.Namespace(c);
    {BlockRootPreimage(n, before.chainedRoot, a.delta.blockHash, a.delta.height, a.delta.roots.eventRoot,
                       a.delta.roots.objectStateRoot, a.delta.roots.counters)} +
    Hashed(c, EVENT_NODE_TAG, EventTree(n, a.delta.events)) + ObjectHashed(c, n, a.state.objects)
  }

  ghost function RunHashed(c: Crypto, binding: Binding, blocks: seq<BlockView>): set<Bytes>
    requires forall i :: 0 <= i < |blocks| ==> BlockFits(blocks[i])
    requires Replay(c, binding, blocks).Some?
  {
    if |blocks| == 0 then {binding.NamespacePreimage(), EmptyStatePreimage(binding.Namespace(c))}
    else
      var init := blocks[..|blocks| - 1];
      var before := Replay(c, binding, init).value;
      RunHashed(c, binding, init) + BlockHashed(c, before, ApplyBlock(c, before, blocks[|blocks| - 1]).value)
  }

  lemma NamespaceInjective(a: Binding, b: Binding)
    requires a.NamespacePreimage() == b.NamespacePreimage()
    ensures a == b
  {
    var f, g := [[a.network.Code()], a.initTxid, a.specHash], [[b.network.Code()], b.initTxid, b.specHash];
    SplitConcat(NAMESPACE_TAG, Concat(f), NAMESPACE_TAG, Concat(g));
    ConcatInjective(f, g);
    assert f[0][0] == g[0][0] && f[1] == g[1] && f[2] == g[2];
  }

  lemma BlockRootInjective(
    n: Hash32, p: Hash32, h: Hash32, x: u64, e: Hash32, o: Hash32, k: Counters,
    n': Hash32, p': Hash32, h': Hash32, x': u64, e': Hash32, o': Hash32, k': Counters)
    requires BlockRootPreimage(n, p, h, x, e, o, k) == BlockRootPreimage(n', p', h', x', e', o', k')
    ensures n == n' && p == p' && h == h' && x == x' && e == e' && o == o'
  {
    var f, g := BlockRootFields(n, p, h, x, e, o, k), BlockRootFields(n', p', h', x', e', o', k');
    SplitConcat(BLOCK_ROOT_TAG, Concat(f), BLOCK_ROOT_TAG, Concat(g));
    ConcatInjective(f, g);
    assert f[0] == g[0] && f[1] == g[1] && f[2] == g[2] && f[3] == g[3] && f[4] == g[4] && f[5] == g[5];
    LE8Injective(x, x');
  }

  lemma ChainTagsApart()
    ensures TagsApart(STATE_EMPTY_TAG, BLOCK_ROOT_TAG) && TagsApart(BLOCK_ROOT_TAG, STATE_EMPTY_TAG)
  {
    assert STATE_EMPTY_TAG[7] == 0x53 && BLOCK_ROOT_TAG[7] == 0x42;
  }

  /** One block of two histories: same hash, height, events, roots, counters and resulting objects. */
  ghost predicate SameBlock(a: Applied, b: Applied) {
    && a.delta.blockHash == b.delta.blockHash && a.delta.height == b.delta.height
    && a.delta.events == b.delta.events && a.delta.roots == b.delta.roots
    && a.state.objects == b.state.objects
  }

  lemma BlockBinding(c: Crypto, s: ChainState, t: ChainState, x: BlockView, y: BlockView, all: set<Bytes>)
    requires LocalInv(c, s) && LocalInv(c, t) && Bounded(s) && Bounded(t) && BlockFits(x) && BlockFits(y)
    requires ApplyBlock(c, s, x).Ok? && ApplyBlock(c, t, y).Ok? && s.binding == t.binding
    requires var a, b := ApplyBlock(c, s, x).value, ApplyBlock(c, t, y).value;
             a.state.chainedRoot == b.state.chainedRoot && BlockHashed(c, s, a) <= all && BlockHashed(c, t, b) <= all
    requires NoCollision(c, all)
    ensures SameBlock(ApplyBlock(c, s, x).value, ApplyBlock(c, t, y).value)
  {
    var a, b := ApplyBlock(c, s, x).value, ApplyBlock(c, t, y).value;
    var n := s.binding.Namespace(c);
    RootsOf(c, s, x);
    RootsOf(c, t, y);
    ApplyKeepsLocal(c, s, x);
    ApplyKeepsLocal(c, t, y);
    BlockEventsOrdered(c, s, x);
    BlockEventsOrdered(c, t, y);
    hide ApplyBlock, LocalInv, ObjectOk, Hashed, EventTree, ObjectTree, BlockRootPreimage, EventRoot, ObjectStateRoot,
         StrictlyOrdered;
    BlockRootInjective(
      n, s.chainedRoot, x.hash, x.height, a.delta.roots.eventRoot, a.delta.roots.objectStateRoot,
        a.delta.roots.counters,
      n, t.chainedRoot, y.hash, y.height, b.delta.roots.eventRoot, b.delta.roots.objectStateRoot,
        b.delta.roots.counters);
    NoCollisionSubset(
      c, Hashed(c, EVENT_NODE_TAG, EventTree(n, a.delta.events)) +
         Hashed(c, EVENT_NODE_TAG, EventTree(n, b.delta.events)), all);
    EventRootBinding(c, n, n, a.delta.events, b.delta.events);
    NoCollisionSubset(c, ObjectHashed(c, n, a.state.objects) + ObjectHashed(c, n, b.state.objects), all);
    LocalObjects(c, a.state);
    LocalObjects(c, b.state);
    ObjectRootBinding(c, s.binding, a.state.protocolStatus, b.state.protocolStatus, a.state.objects, b.state.objects);
  }

  lemma LocalObjects(c: Crypto, st: ChainState)
    requires LocalInv(c, st)
    ensures ObjectsOk(c, st.binding, st.protocolStatus, st.objects)
  {
  }

  /** What a block application records about itself. */
  lemma RootsOf(c: Crypto, st: ChainState, block: BlockView)
    requires Bounded(st) && BlockFits(block) && ApplyBlock(c, st, block).Ok?
    ensures var a := ApplyBlock(c, st, block).value;
            var n := st.binding.Namespace(c);
            && a.delta.blockHash == block.hash && a.delta.height == block.height
            && a.delta.roots == HeightRoots(block.height, block.hash, EventRoot(c, n, a.delta.events),
                                            ObjectStateRoot(c, n, ObjectsInOrder(a.state.objects)), a.state.chainedRoot,
                                            CountersOf(a.state.objects))
            && a.state.chainedRoot == Sha256(c, BlockRootPreimage(n, st.chainedRoot, block.hash, block.height,
                                             a.delta.roots.eventRoot, a.delta.roots.objectStateRoot,
                                               a.delta.roots.counters))
  {
    hide ReduceBlock;
  }

  // ---------- whole runs ----------

  /** Two runs under the same binding with the same number of blocks that agree block by block. */
  ghost predicate SameHistory(c: Crypto, p: Binding, xs: seq<BlockView>, q: Binding, ys: seq<BlockView>)
    requires forall i :: 0 <= i < |xs| ==> BlockFits(xs[i])
    requires forall i :: 0 <= i < |ys| ==> BlockFits(ys[i])
    requires Replay(c, p, xs).Some? && Replay(c, q, ys).Some?
    decreases |xs|
  {
    p == q && |xs| == |ys| &&
    (|xs| > 0 ==>
       var xi, yi := xs[..|xs| - 1], ys[..|ys| - 1];
       SameHistory(c, p, xi, q, yi) &&
       SameBlock(ApplyBlock(c, Replay(c, p, xi).value, xs[|xs| - 1]).value,
                 ApplyBlock(c, Replay(c, q, yi).value, ys[|ys| - 1]).value))
  }

  /** A run's last block, seen from its prefix. */
  lemma Unroll(c: Crypto, p: Binding, xs: seq<BlockView>) returns (s: ChainState, block: BlockView)
    requires forall i :: 0 <= i < |xs| ==> BlockFits(xs[i])
    requires Replay(c, p, xs).Some? && |xs| > 0
    ensures Replay(c, p, xs[..|xs| - 1]) == Some(s) && block == xs[|xs| - 1] && BlockFits(block)
    ensures LocalInv(c, s) && Bounded(s) && s.binding == p && ApplyBlock(c, s, block).Ok?
    ensures Replay(c, p, xs).value == ApplyBlock(c, s, block).value.state
    ensures RunHashed(c, p, xs) == RunHashed(c, p, xs[..|xs| - 1]) + BlockHashed(c, s, ApplyBlock(c, s, block).value)
  {
    s, block := Replay(c, p, xs[..|xs| - 1]).value, xs[|xs| - 1];
    RunKeepsLocal(c, p, xs[..|xs| - 1]);
    hide ApplyBlock, LocalInv, BlockHashed;
  }

  lemma PreviousRootBinding(c: Crypto, s: ChainState, t: ChainState, x: BlockView, y: BlockView, all: set<Bytes>)
    requires Bounded(s) && Bounded(t) && BlockFits(x) && BlockFits(y) && ApplyBlock(c, s, x).Ok? &&
             ApplyBlock(c, t, y).Ok?
    requires var a, b := ApplyBlock(c, s, x).value, ApplyBlock(c, t, y).value;
             a.state.chainedRoot == b.state.chainedRoot && BlockHashed(c, s, a) <= all && BlockHashed(c, t, b) <= all
    requires NoCollision(c, all)
    ensures s.chainedRoot == t.chainedRoot
  {
    var a, b := ApplyBlock(c, s, x).value, ApplyBlock(c, t, y).value;
    RootsOf(c, s, x);
    RootsOf(c, t, y);
    hide ApplyBlock, Hashed, EventTree, ObjectTree, BlockRootPreimage, EventRoot, ObjectStateRoot;
    BlockRootInjective(
      s.binding.Namespace(c), s.chainedRoot, x.hash, x.height, a.delta.roots.eventRoot, a.delta.roots.objectStateRoot,
        a.delta.roots.counters,
      t.binding.Namespace(c), t.chainedRoot, y.hash, y.height, b.delta.roots.eventRoot, b.delta.roots.objectStateRoot,
        b.delta.roots.counters);
  }

  /** A fresh state's root is never a block root. */
  lemma FreshRootIsApart(c: Crypto, n: Hash32, t: ChainState, y: BlockView, all: set<Bytes>)
    requires Bounded(t) && BlockFits(y) && ApplyBlock(c, t, y).Ok?
    requires var b := ApplyBlock(c, t, y).value;
             b.state.chainedRoot == Sha256(c, EmptyStatePreimage(n)) && BlockHashed(c, t, b) <= all &&
             EmptyStatePreimage(n) in all
    ensures !NoCollision(c, all)
  {
    var b := ApplyBlock(c, t, y).value;
    RootsOf(c, t, y);
    hide ApplyBlock, Hashed, EventTree, ObjectTree, EventRoot, ObjectStateRoot, NoCollision, Concat;
    var p := BlockRootPreimage(t.binding.Namespace(c), t.chainedRoot, y.hash, y.height, b.delta.roots.eventRoot,
                               b.delta.roots.objectStateRoot, b.delta.roots.counters);
    assert p in all;
    ChainTagsApart();
    ApartStrings(STATE_EMPTY_TAG, BLOCK_ROOT_TAG, EmptyStatePreimage(n), p);
    Clash(c, all, p, EmptyStatePreimage(n));
  }

  lemma Clash(c: Crypto, all: set<Bytes>, x: Bytes, y: Bytes)
    requires x in all && y in all && x != y && Sha256(c, x) == Sha256(c, y)
    ensures !NoCollision(c, all)
  {
  }

  lemma FreshBinding(c: Crypto, p: Binding, q: Binding, all: set<Bytes>)
    requires NoCollision(c, all) && NewState(c, p).chainedRoot == NewState(c, q).chainedRoot
    requires {p.NamespacePreimage(), EmptyStatePreimage(p.Namespace(c)), q.NamespacePreimage(),
              EmptyStatePreimage(q.Namespace(c))} <= all
    ensures p == q
  {
    assert EmptyStatePreimage(p.Namespace(c)) in all && EmptyStatePreimage(q.Namespace(c)) in all;
    assert p.NamespacePreimage() in all && q.NamespacePreimage() in all;
    SplitConcat(STATE_EMPTY_TAG, p.Namespace(c), STATE_EMPTY_TAG, q.Namespace(c));
    NamespaceInjective(p, q);
  }

  /** Two runs under any bindings that end with the same chained root have the same binding, the same number of blocks,
      and at every height the same hash, events, roots, counters and objects — unless SHA256 collides on two of the
      strings the two runs hashed. */
  lemma {:induction false} ChainedRootBinding(
    c: Crypto, p: Binding, xs: seq<BlockView>, q: Binding, ys: seq<BlockView>, all: set<Bytes>)
    requires forall i :: 0 <= i < |xs| ==> BlockFits(xs[i])
    requires forall i :: 0 <= i < |ys| ==> BlockFits(ys[i])
    requires Replay(c, p, xs).Some? && Replay(c, q, ys).Some?
    requires Replay(c, p, xs).value.chainedRoot == Replay(c, q, ys).value.chainedRoot
    requires RunHashed(c, p, xs) <= all && RunHashed(c, q, ys) <= all && NoCollision(c, all)
    ensures SameHistory(c, p, xs, q, ys)
    decreases |xs|
  {
    hide ApplyBlock, LocalInv, BlockHashed, NoCollision, SameBlock, Bounded;
    if |xs| == 0 && |ys| == 0 {
      FreshBinding(c, p, q, all);
    } else if |xs| == 0 {
      var t, y := Unroll(c, q, ys);
      FreshRootIsApart(c, p.Namespace(c), t, y, all);
    } else if |ys| == 0 {
      var s, x := Unroll(c, p, xs);
      FreshRootIsApart(c, q.Namespace(c), s, x, all);
    } else {
      var s, x := Unroll(c, p, xs);
      var t, y := Unroll(c, q, ys);
      PreviousRootBinding(c, s, t, x, y, all);
      ChainedRootBinding(c, p, xs[..|xs| - 1], q, ys[..|ys| - 1], all);
      BlockBinding(c, s, t, x, y, all);
    }
  }

  /** The same object up to its founding flag, the only field that depends on the phase heights. */
  ghost predicate AlikeObjects(o: ObjectState, p: ObjectState) { p == o.(founding := p.founding) }

  /** The index is a function of the events alone. */
  ghost predicate Alike(v: View, w: View) {
    v.active == w.active && v.objects.Keys == w.objects.Keys &&
    forall k :: k in v.objects ==> AlikeObjects(v.objects[k], w.objects[k])
  }

  lemma AlikeUpdate(v: View, w: View, k: Hash32, o: ObjectState, p: ObjectState, active: map<OutPointRef, Hash32>)
    requires Alike(v, w) && AlikeObjects(o, p)
    ensures Alike(View(v.objects[k := o], active), View(w.objects[k := p], active))
  {
  }

  lemma {:induction false} PhaseFree(a: Phase, b: Phase, log: seq<Event>)
    ensures Alike(InterpretAll(a, View(map[], map[]), log), InterpretAll(b, View(map[], map[]), log))
    decreases |log|
  {
    if |log| > 0 {
      PhaseFree(a, b, log[..|log| - 1]);
      var v, w := InterpretAll(a, View(map[], map[]), log[..|log| - 1]),
        InterpretAll(b, View(map[], map[]), log[..|log| - 1]);
      InterpretAlike(a, b, v, w, log[|log| - 1]);
    }
  }

  lemma EndedAlike(v: View, w: View, e: Event, status: ObjectStatus)
    requires Alike(v, w)
    ensures Alike(EndedBy(v, e, status), EndedBy(w, e, status))
  {
    var k, active := e.objectKey, v.active - {e.predecessor};
    if k in v.objects {
      assert AlikeObjects(v.objects[k], w.objects[k]);
      AlikeUpdate(v, w, k, Terminated(v.objects[k], status, e.txid).(stateSeq := e.stateSeq),
                  Terminated(w.objects[k], status, e.txid).(stateSeq := e.stateSeq), active);
    }
  }

  lemma MovedAlike(v: View, w: View, e: Event, chapters: u32)
    requires Alike(v, w)
    ensures Alike(MovedBy(v, e, chapters), MovedBy(w, e, chapters))
  {
    var k := e.objectKey;
    if k in v.objects {
      var o, p := v.objects[k], w.objects[k];
      assert AlikeObjects(o, p);
      if o.chapterCount + chapters <= U32_MAX {
        AlikeUpdate(v, w, k,
                    o.(currentOutpoint := e.successor, stateSeq := e.stateSeq, keys := KeyPair(e.key0, e.key1),
                       chapterCount := o.chapterCount + chapters),
                    p.(currentOutpoint := e.successor, stateSeq := e.stateSeq, keys := KeyPair(e.key0, e.key1),
                       chapterCount := p.chapterCount + chapters),
                    (v.active - {e.predecessor})[e.successor := k]);
      }
    }
  }

  lemma CreatedAlike(a: Phase, b: Phase, v: View, w: View, e: Event)
    requires Alike(v, w)
    ensures Alike(CreatedBy(a, v, e), CreatedBy(b, w, e))
  {
    var v', w' := CreatedBy(a, v, e), CreatedBy(b, w, e);
    AlikeUpdate(v, w, e.objectKey, v'.objects[e.objectKey], w'.objects[e.objectKey], v'.active);
  }

  lemma InterpretAlike(a: Phase, b: Phase, v: View, w: View, e: Event)
    requires Alike(v, w)
    ensures Alike(Interpret(a, v, e), Interpret(b, w, e))
  {
    hide Alike, EndedBy, MovedBy, CreatedBy;
    EndedAlike(v, w, e, ExitedNoncanonical);
    EndedAlike(v, w, e, Closed);
    EndedAlike(v, w, e, Refunded);
    MovedAlike(v, w, e, 0);
    MovedAlike(v, w, e, 1);
    CreatedAlike(a, b, v, w, e);
  }

  lemma {:induction false} SameHistoryLog(c: Crypto, p: Binding, xs: seq<BlockView>, q: Binding, ys: seq<BlockView>)
    requires forall i :: 0 <= i < |xs| ==> BlockFits(xs[i])
    requires forall i :: 0 <= i < |ys| ==> BlockFits(ys[i])
    requires Replay(c, p, xs).Some? && Replay(c, q, ys).Some? && SameHistory(c, p, xs, q, ys)
    ensures Log(c, p, xs) == Log(c, q, ys)
    decreases |xs|
  {
    if |xs| > 0 {
      SameHistoryLog(c, p, xs[..|xs| - 1], q, ys[..|ys| - 1]);
      hide ApplyBlock;
    }
  }

  /** The same history leaves the same two maps. */
  lemma SameHistorySameMaps(c: Crypto, p: Binding, xs: seq<BlockView>, q: Binding, ys: seq<BlockView>)
    requires forall i :: 0 <= i < |xs| ==> BlockFits(xs[i])
    requires forall i :: 0 <= i < |ys| ==> BlockFits(ys[i])
    requires Replay(c, p, xs).Some? && Replay(c, q, ys).Some? && SameHistory(c, p, xs, q, ys)
    ensures Replay(c, p, xs).value.objects == Replay(c, q, ys).value.objects
    ensures Replay(c, p, xs).value.active == Replay(c, q, ys).value.active
  {
    SameHistoryLog(c, p, xs, q, ys);
    LogDeterminesState(c, p, xs);
    LogDeterminesState(c, q, ys);
    PhaseFree(PhaseOf(Replay(c, p, xs).value.protocolStatus), PhaseOf(Replay(c, q, ys).value.protocolStatus),
              Log(c, p, xs));
    hide ApplyBlock, InterpretAll;
  }
}
