/** The event and object roots bind their contents, odd-leaf duplication included. A root commits to the finite set of
    strings hashed on the way; binding holds whenever SHA256 has no collision inside that set. */
module Commitments {
  import opened Primitives
  import opened Types
  import opened Sorting
  import opened Roots
  import opened EventLog

  /** No two different strings of the set have the same digest. */
  ghost predicate NoCollision(c: Crypto, s: set<Bytes>) {
    forall x, y :: x in s && y in s && Sha256(c, x) == Sha256(c, y) ==> x == y
  }

  lemma NoCollisionSubset(c: Crypto, small: set<Bytes>, large: set<Bytes>)
    requires NoCollision(c, large) && small <= large
    ensures NoCollision(c, small)
  {
  }

  // ---------- hash trees ----------

  datatype Tree = Leaf(preimage: Bytes) | Node(left: Tree, right: Tree)

  function TreeHash(c: Crypto, domain: Bytes, t: Tree): Hash32 {
    match t
    case Leaf(preimage) => Sha256(c, preimage)
    case Node(left, right) => NodeHash(c, domain, TreeHash(c, domain, left), TreeHash(c, domain, right))
  }

  /** Every string hashed while computing the root of a tree. */
  ghost function Hashed(c: Crypto, domain: Bytes, t: Tree): set<Bytes> {
    match t
    case Leaf(preimage) => {preimage}
    case Node(left, right) =>
      {NodePreimage(domain, TreeHash(c, domain, left), TreeHash(c, domain, right))} +
      Hashed(c, domain, left) + Hashed(c, domain, right)
  }

  /** No leaf preimage can be read as a node preimage. */
  ghost predicate LeavesApart(domain: Bytes, t: Tree) {
    match t
    case Leaf(preimage) => !(domain <= preimage)
    case Node(left, right) => LeavesApart(domain, left) && LeavesApart(domain, right)
  }

  lemma NodePreimageInjective(domain: Bytes, a: Hash32, b: Hash32, x: Hash32, y: Hash32)
    requires NodePreimage(domain, a, b) == NodePreimage(domain, x, y)
    ensures a == x && b == y
  {
    SplitConcat(domain, Concat([a, b]), domain, Concat([x, y]));
    ConcatInjective([a, b], [x, y]);
    assert [a, b][0] == [x, y][0] && [a, b][1] == [x, y][1];
  }

  lemma NodePreimageTagged(domain: Bytes, a: Hash32, b: Hash32)
    ensures domain <= NodePreimage(domain, a, b)
  {
  }

  /** Equal root digests mean equal trees, whatever their shapes. */
  lemma {:induction false} TreeBinding(c: Crypto, domain: Bytes, t: Tree, u: Tree)
    requires LeavesApart(domain, t) && LeavesApart(domain, u)
    requires NoCollision(c, Hashed(c, domain, t) + Hashed(c, domain, u))
    requires TreeHash(c, domain, t) == TreeHash(c, domain, u)
    ensures t == u
    decreases t
  {
    var all := Hashed(c, domain, t) + Hashed(c, domain, u);
    match (t, u) {
      case (Node(a, b), Node(x, y)) =>
        NodePreimageInjective(domain, TreeHash(c, domain, a), TreeHash(c, domain, b), TreeHash(c, domain, x),
                              TreeHash(c, domain, y));
        NoCollisionSubset(c, Hashed(c, domain, a) + Hashed(c, domain, x), all);
        NoCollisionSubset(c, Hashed(c, domain, b) + Hashed(c, domain, y), all);
        TreeBinding(c, domain, a, x);
        TreeBinding(c, domain, b, y);
      case (Leaf(p), Node(x, y)) =>
        NodePreimageTagged(domain, TreeHash(c, domain, x), TreeHash(c, domain, y));
      case (Node(a, b), Leaf(q)) =>
        NodePreimageTagged(domain, TreeHash(c, domain, a), TreeHash(c, domain, b));
      case (Leaf(p), Leaf(q)) =>
    }
  }

  // ---------- the padded Merkle construction ----------

  function Up(ts: seq<Tree>): (r: seq<Tree>)
    ensures |r| == (|ts| + 1) / 2
  {
    if |ts| == 0 then []
    else if |ts| == 1 then [Node(ts[0], ts[0])]
    else [Node(ts[0], ts[1])] + Up(ts[2..])
  }

  function Build(ts: seq<Tree>): Tree
    requires |ts| > 0
    decreases |ts|
  {
    if |ts| == 1 then ts[0] else Build(Up(ts))
  }

  function TreeHashes(c: Crypto, domain: Bytes, ts: seq<Tree>): (r: seq<Hash32>)
    ensures |r| == |ts|
    ensures forall i :: 0 <= i < |ts| ==> r[i] == TreeHash(c, domain, ts[i])
  {
    if |ts| == 0 then [] else [TreeHash(c, domain, ts[0])] + TreeHashes(c, domain, ts[1..])
  }

  lemma {:induction false} UpHashes(c: Crypto, domain: Bytes, ts: seq<Tree>)
    ensures TreeHashes(c, domain, Up(ts)) == NextLevel(c, domain, TreeHashes(c, domain, ts))
    decreases |ts|
  {
    if |ts| > 1 {
      UpHashes(c, domain, ts[2..]);
      assert TreeHashes(c, domain, ts)[2..] == TreeHashes(c, domain, ts[2..]);
      assert Up(ts)[1..] == Up(ts[2..]);
    }
  }

  /** The level-by-level Merkle root is the hash of the built tree. */
  lemma {:induction false} MerkleIsTreeHash(c: Crypto, domain: Bytes, ts: seq<Tree>)
    requires |ts| > 0
    ensures MerkleRoot(c, domain, TreeHashes(c, domain, ts)) == TreeHash(c, domain, Build(ts))
    decreases |ts|
  {
    if |ts| > 1 {
      UpHashes(c, domain, ts);
      MerkleIsTreeHash(c, domain, Up(ts));
    }
  }

  lemma {:induction false} UpAt(ts: seq<Tree>, i: nat)
    requires i < (|ts| + 1) / 2
    ensures Up(ts)[i] == Node(ts[2 * i], if 2 * i + 1 < |ts| then ts[2 * i + 1] else ts[2 * i])
    decreases |ts|
  {
    if i > 0 { UpAt(ts[2..], i - 1); }
  }

  ghost predicate Distinct<T>(ts: seq<T>) { forall i, j :: 0 <= i < j < |ts| ==> ts[i] != ts[j] }

  predicate Perfect(t: Tree, depth: nat) {
    if t.Leaf? then depth == 0 else depth > 0 && Perfect(t.left, depth - 1) && Perfect(t.right, depth - 1)
  }

  ghost predicate Uniform(ts: seq<Tree>, depth: nat) { forall i :: 0 <= i < |ts| ==> Perfect(ts[i], depth) }

  lemma {:induction false} PerfectOnce(t: Tree, d: nat, e: nat)
    requires Perfect(t, d) && Perfect(t, e)
    ensures d == e
    decreases t
  {
    if t.Node? { PerfectOnce(t.left, d - 1, e - 1); }
  }

  lemma UpUniform(ts: seq<Tree>, depth: nat)
    requires Uniform(ts, depth)
    ensures Uniform(Up(ts), depth + 1)
  {
    forall i | 0 <= i < |Up(ts)| ensures Perfect(Up(ts)[i], depth + 1) { UpAt(ts, i); }
  }

  lemma {:induction false} BuildDepth(ts: seq<Tree>, depth: nat) returns (d: nat)
    requires |ts| > 0 && Uniform(ts, depth)
    ensures Perfect(Build(ts), d) && d >= depth && (|ts| > 1 ==> d > depth)
    decreases |ts|
  {
    if |ts| == 1 {
      d := depth;
    } else {
      UpUniform(ts, depth);
      d := BuildDepth(Up(ts), depth + 1);
    }
  }

  lemma UpDistinct(ts: seq<Tree>)
    requires Distinct(ts)
    ensures Distinct(Up(ts))
  {
    forall i, j | 0 <= i < j < |Up(ts)| ensures Up(ts)[i] != Up(ts)[j] {
      UpAt(ts, i);
      UpAt(ts, j);
    }
  }

  /** Duplicating the odd last element is harmless between lists without repetitions. */
  lemma UpInjective(a: seq<Tree>, b: seq<Tree>)
    requires Distinct(a) && Distinct(b) && Up(a) == Up(b)
    ensures a == b
  {
    var n := |Up(a)|;
    if n > 0 {
      UpAt(a, n - 1);
      UpAt(b, n - 1);
    }
    assert |a| == |b|;
    forall i | 0 <= i < |a| ensures a[i] == b[i] {
      UpAt(a, i / 2);
      UpAt(b, i / 2);
    }
  }

  /** Lists of any lengths, without repetitions, that build the same tree are the same list. */
  lemma {:induction false} BuildInjective(a: seq<Tree>, b: seq<Tree>, depth: nat)
    requires |a| > 0 && |b| > 0 && Uniform(a, depth) && Uniform(b, depth) && Distinct(a) && Distinct(b)
    requires Build(a) == Build(b)
    ensures a == b
    decreases |a|
  {
    var d := BuildDepth(a, depth);
    var e := BuildDepth(b, depth);
    PerfectOnce(Build(a), d, e);
    if |a| == 1 || |b| == 1 {
      if |a| == 1 { PerfectOnce(a[0], depth, d); }
      if |b| == 1 { PerfectOnce(b[0], depth, e); }
    } else {
      UpUniform(a, depth);
      UpUniform(b, depth);
      UpDistinct(a);
      UpDistinct(b);
      BuildInjective(Up(a), Up(b), depth + 1);
      UpInjective(a, b);
    }
  }

  // ---------- leaves as trees ----------

  function LeafTrees(preimages: seq<Bytes>): (r: seq<Tree>)
    ensures |r| == |preimages|
    ensures forall i :: 0 <= i < |r| ==> r[i] == Leaf(preimages[i])
  {
    if |preimages| == 0 then [] else [Leaf(preimages[0])] + LeafTrees(preimages[1..])
  }

  /** The tree behind a root: the tagged empty string for no leaves, the padded construction otherwise. */
  function RootTree(empty: Bytes, preimages: seq<Bytes>): Tree {
    if |preimages| == 0 then Leaf(empty) else Build(LeafTrees(preimages))
  }

  lemma {:induction false} BuildLeavesApart(domain: Bytes, ts: seq<Tree>)
    requires |ts| > 0 && forall i :: 0 <= i < |ts| ==> LeavesApart(domain, ts[i])
    ensures LeavesApart(domain, Build(ts))
    decreases |ts|
  {
    if |ts| > 1 {
      forall i | 0 <= i < |Up(ts)| ensures LeavesApart(domain, Up(ts)[i]) { UpAt(ts, i); }
      BuildLeavesApart(domain, Up(ts));
    }
  }

  ghost predicate AllTagged(tag: Bytes, preimages: seq<Bytes>) {
    forall i :: 0 <= i < |preimages| ==> tag <= preimages[i]
  }

  /** Tags that differ at a position inside both make different strings. */
  ghost predicate TagsApart(a: Bytes, b: Bytes) { exists i :: 0 <= i < |a| && i < |b| && a[i] != b[i] }

  lemma ApartStrings(a: Bytes, b: Bytes, x: Bytes, y: Bytes)
    requires TagsApart(a, b) && a <= x && b <= y
    ensures x != y && !(b <= x)
  {
    var i :| 0 <= i < |a| && i < |b| && a[i] != b[i];
    assert x[i] == a[i] && y[i] == b[i];
  }

  lemma RootTreeApart(domain: Bytes, tag: Bytes, emptyTag: Bytes, empty: Bytes, preimages: seq<Bytes>)
    requires TagsApart(tag, domain) && TagsApart(emptyTag, domain) && emptyTag <= empty && AllTagged(tag, preimages)
    ensures LeavesApart(domain, RootTree(empty, preimages))
  {
    if |preimages| == 0 {
      ApartStrings(emptyTag, domain, empty, domain);
    } else {
      forall i | 0 <= i < |preimages| ensures LeavesApart(domain, LeafTrees(preimages)[i]) {
        ApartStrings(tag, domain, preimages[i], domain);
      }
      BuildLeavesApart(domain, LeafTrees(preimages));
    }
  }

  lemma LeafTreesInjective(a: seq<Bytes>, b: seq<Bytes>)
    requires LeafTrees(a) == LeafTrees(b)
    ensures a == b
  {
    forall i | 0 <= i < |a| ensures a[i] == b[i] {
      assert LeafTrees(a)[i] == LeafTrees(b)[i];
    }
  }

  lemma EmptyRootIsApart(tag: Bytes, emptyTag: Bytes, empty: Bytes, preimages: seq<Bytes>)
    requires TagsApart(tag, emptyTag) && emptyTag <= empty && AllTagged(tag, preimages) && |preimages| > 0
    ensures Build(LeafTrees(preimages)) != Leaf(empty)
  {
    var ts := LeafTrees(preimages);
    var d := BuildDepth(ts, 0);
    ApartStrings(tag, emptyTag, preimages[0], empty);
    if |ts| > 1 { assert Build(ts).Node?; }
  }

  /** Equal roots of two lists without repetitions, of any lengths, mean equal lists. */
  lemma RootBinding(
    c: Crypto, domain: Bytes, tag: Bytes, emptyTag: Bytes, emptyA: Bytes, emptyB: Bytes, a: seq<Bytes>, b: seq<Bytes>)
    requires TagsApart(tag, domain) && TagsApart(emptyTag, domain) && TagsApart(tag, emptyTag)
    requires emptyTag <= emptyA && emptyTag <= emptyB && AllTagged(tag, a) && AllTagged(tag, b) && Distinct(a) &&
             Distinct(b)
    requires NoCollision(c, Hashed(c, domain, RootTree(emptyA, a)) + Hashed(c, domain, RootTree(emptyB, b)))
    requires TreeHash(c, domain, RootTree(emptyA, a)) == TreeHash(c, domain, RootTree(emptyB, b))
    ensures a == b && (|a| == 0 ==> emptyA == emptyB)
  {
    RootTreeApart(domain, tag, emptyTag, emptyA, a);
    RootTreeApart(domain, tag, emptyTag, emptyB, b);
    TreeBinding(c, domain, RootTree(emptyA, a), RootTree(emptyB, b));
    if |a| == 0 {
      if |b| > 0 { EmptyRootIsApart(tag, emptyTag, emptyA, b); }
    } else if |b| == 0 {
      EmptyRootIsApart(tag, emptyTag, emptyB, a);
    } else {
      assert Distinct(LeafTrees(a)) && Distinct(LeafTrees(b));
      BuildInjective(LeafTrees(a), LeafTrees(b), 0);
      LeafTreesInjective(a, b);
    }
  }

  // ---------- event roots ----------

  lemma EventTypeCodes(a: EventType, b: EventType)
    requires a.Code() == b.Code()
    ensures a == b
  {
  }

  lemma ReasonCodes(a: Reason, b: Reason)
    requires a.Code() == b.Code()
    ensures a == b
  {
  }

  lemma WireInjective(a: OutPointRef, b: OutPointRef)
    requires a.WireBytes() == b.WireBytes()
    ensures a == b
  {
    SplitConcat(a.txid, LE(a.vout, 4), b.txid, LE(b.vout, 4));
    LE4Injective(a.vout, b.vout);
  }

  lemma EventWidths(a: Event, b: Event)
    ensures |EventFields(a)| == |EventFields(b)|
    ensures forall i :: 0 <= i < |EventFields(a)| ==> |EventFields(a)[i]| == |EventFields(b)[i]|
  {
  }

  lemma EventHeadInjective(a: Event, b: Event)
    requires EventFields(a) == EventFields(b)
    ensures a.namespace == b.namespace && a.blockHash == b.blockHash && a.height == b.height && a.txIndex == b.txIndex
    ensures a.eventIndex == b.eventIndex && a.subIndex == b.subIndex
  {
    var f, g := EventFields(a), EventFields(b);
    assert f[0] == g[0] && f[1] == g[1] && f[2] == g[2] && f[3] == g[3] && f[4] == g[4] && f[5] == g[5];
    LE8Injective(a.height, b.height);
    LE4Injective(a.txIndex, b.txIndex);
    LE4Injective(a.eventIndex, b.eventIndex);
    LE4Injective(a.subIndex, b.subIndex);
  }

  lemma EventClassInjective(a: Event, b: Event)
    requires EventFields(a) == EventFields(b)
    ensures a.eventType == b.eventType && a.validityClass == b.validityClass && a.reason == b.reason
  {
    var f, g := EventFields(a), EventFields(b);
    assert f[6][0] == g[6][0] && f[7][0] == g[7][0] && f[8] == g[8];
    EventTypeCodes(a.eventType, b.eventType);
    LE2Injective(a.reason.Code(), b.reason.Code());
    ReasonCodes(a.reason, b.reason);
  }

  lemma EventTailInjective(a: Event, b: Event)
    requires EventFields(a) == EventFields(b)
    ensures a.txid == b.txid && a.wtxid == b.wtxid && a.objectKey == b.objectKey && a.stateSeq == b.stateSeq
    ensures a.predecessor == b.predecessor && a.successor == b.successor
    ensures a.key0 == b.key0 && a.key1 == b.key1 && a.commitment == b.commitment
  {
    var f, g := EventFields(a), EventFields(b);
    assert f[9] == g[9] && f[10] == g[10] && f[11] == g[11] && f[12] == g[12] && f[13] == g[13];
    assert f[14] == g[14] && f[15] == g[15] && f[16] == g[16] && f[17] == g[17];
    LE4Injective(a.stateSeq, b.stateSeq);
    WireInjective(a.predecessor, b.predecessor);
    WireInjective(a.successor, b.successor);
  }

  /** An event is determined by its leaf preimage. */
  lemma EventPreimageInjective(a: Event, b: Event)
    requires EventPreimage(a) == EventPreimage(b)
    ensures a == b
  {
    hide EventFields, Concat;
    EventWidths(a, b);
    SplitConcat(EVENT_TAG, Concat(EventFields(a)), EVENT_TAG, Concat(EventFields(b)));
    ConcatInjective(EventFields(a), EventFields(b));
    EventHeadInjective(a, b);
    EventClassInjective(a, b);
    EventTailInjective(a, b);
  }

  function EventPreimages(events: seq<Event>): (r: seq<Bytes>)
    ensures |r| == |events| && forall i :: 0 <= i < |r| ==> r[i] == EventPreimage(events[i])
  {
    if |events| == 0 then [] else [EventPreimage(events[0])] + EventPreimages(events[1..])
  }

  function EventTree(namespace: Hash32, events: seq<Event>): Tree {
    RootTree(EventEmptyPreimage(namespace), EventPreimages(events))
  }

  lemma {:induction false} EventLeavesAreTrees(c: Crypto, events: seq<Event>)
    ensures EventLeaves(c, events) == TreeHashes(c, EVENT_NODE_TAG, LeafTrees(EventPreimages(events)))
    decreases |events|
  {
    if |events| > 0 {
      EventLeavesAreTrees(c, events[1..]);
      assert EventPreimages(events)[1..] == EventPreimages(events[1..]);
      assert LeafTrees(EventPreimages(events))[1..] == LeafTrees(EventPreimages(events[1..]));
    }
  }

  lemma EventRootIsTreeHash(c: Crypto, namespace: Hash32, events: seq<Event>)
    requires StrictlyOrdered(events)
    ensures EventRoot(c, namespace, events) == TreeHash(c, EVENT_NODE_TAG, EventTree(namespace, events))
  {
    OrderedIsSorted(events);
    EventLeavesAreTrees(c, events);
    if |events| > 0 { MerkleIsTreeHash(c, EVENT_NODE_TAG, LeafTrees(EventPreimages(events))); }
  }

  lemma EventTagsApart()
    ensures TagsApart(EVENT_TAG, EVENT_NODE_TAG) && TagsApart(EVENT_EMPTY_TAG, EVENT_NODE_TAG) &&
            TagsApart(EVENT_TAG, EVENT_EMPTY_TAG)
  {
    assert EVENT_TAG[12] == 0 && EVENT_NODE_TAG[12] == 0x2D && EVENT_EMPTY_TAG[12] == 0x2D;
    assert EVENT_EMPTY_TAG[13] == 0x45 && EVENT_NODE_TAG[13] == 0x4E;
  }

  /** Two strictly ordered event lists, of any lengths, with the same event root are the same list. */
  lemma EventRootBinding(c: Crypto, n: Hash32, m: Hash32, a: seq<Event>, b: seq<Event>)
    requires StrictlyOrdered(a) && StrictlyOrdered(b) && EventRoot(c, n, a) == EventRoot(c, m, b)
    requires NoCollision(c, Hashed(c, EVENT_NODE_TAG, EventTree(n, a)) + Hashed(c, EVENT_NODE_TAG, EventTree(m, b)))
    ensures a == b
  {
    hide EventPreimage, RootTree, Hashed, TreeHash, EventRoot;
    EventRootIsTreeHash(c, n, a);
    EventRootIsTreeHash(c, m, b);
    EventTagsApart();
    PreimagesDistinct(a);
    PreimagesDistinct(b);
    RootBinding(c, EVENT_NODE_TAG, EVENT_TAG, EVENT_EMPTY_TAG, EventEmptyPreimage(n), EventEmptyPreimage(m),
                EventPreimages(a), EventPreimages(b));
    forall i | 0 <= i < |a| ensures a[i] == b[i] {
      assert EventPreimages(a)[i] == EventPreimages(b)[i];
      EventPreimageInjective(a[i], b[i]);
    }
  }

  lemma PreimagesDistinct(a: seq<Event>)
    requires StrictlyOrdered(a)
    ensures Distinct(EventPreimages(a)) && AllTagged(EVENT_TAG, EventPreimages(a))
  {
    forall i, j | 0 <= i < j < |a| ensures EventPreimages(a)[i] != EventPreimages(a)[j] {
      if EventPreimage(a[i]) == EventPreimage(a[j]) { EventPreimageInjective(a[i], a[j]); }
    }
  }
}
