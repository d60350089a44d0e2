/** Event, object-state and chained root calculations. */
module Roots {
  import opened Primitives
  import opened Types
  import opened Sorting

  // ---------- leaves ----------

  /** The eighteen fields of an event in leaf order. */
  function EventFields(e: Event): (r: seq<Bytes>)
    ensures |r| == 18
  {
    [e.namespace, e.blockHash, LE(e.height, 8), LE(e.txIndex, 4), LE(e.eventIndex, 4), LE(e.subIndex, 4),
     [e.eventType.Code()], [e.validityClass.Code()], LE(e.reason.Code(), 2), e.txid, e.wtxid, e.objectKey,
     LE(e.stateSeq, 4), e.predecessor.WireBytes(), e.successor.WireBytes(), e.key0, e.key1, e.commitment]
  }

  function EventPreimage(e: Event): Bytes { EVENT_TAG + Concat(EventFields(e)) }

  function EventLeaf(c: Crypto, e: Event): Hash32 { Sha256(c, EventPreimage(e)) }

  /** Leaf fields of an object; `genesis` is absent, and a terminal object hides its outpoint. */
  function ObjectFields(o: ObjectState): (r: seq<Bytes>)
    ensures |r| == 10
  {
    var activeOutpoint := if o.status == Active then o.currentOutpoint else ZERO_OUTPOINT;
    var terminalTxid := if o.status == Active then ZERO_HASH else o.terminalTxid;
    [o.objectKey, [if o.founding then 1 else 0], [o.status.Code()], LE(o.createHeight, 8), LE(o.stateSeq, 4),
     activeOutpoint.WireBytes(), o.keys.key0, o.keys.key1, terminalTxid, LE(o.chapterCount, 4)]
  }

  function ObjectPreimage(o: ObjectState): Bytes { OBJECT_STATE_TAG + Concat(ObjectFields(o)) }

  function ObjectStateLeaf(c: Crypto, o: ObjectState): Hash32 { Sha256(c, ObjectPreimage(o)) }

  // ---------- Merkle tree with a duplicated odd last leaf ----------

  function NodePreimage(domain: Bytes, left: Hash32, right: Hash32): Bytes { domain + Concat([left, right]) }

  function NodeHash(c: Crypto, domain: Bytes, left: Hash32, right: Hash32): Hash32 {
    Sha256(c, NodePreimage(domain, left, right))
  }

  /** One level up: hash consecutive pairs, pairing an odd last element with itself. */
  function NextLevel(c: Crypto, domain: Bytes, level: seq<Hash32>): (r: seq<Hash32>)
    ensures |r| == (|level| + 1) / 2
  {
    if |level| == 0 then []
    else if |level| == 1 then [NodeHash(c, domain, level[0], level[0])]
    else [NodeHash(c, domain, level[0], level[1])] + NextLevel(c, domain, level[2..])
  }

  function MerkleRoot(c: Crypto, domain: Bytes, level: seq<Hash32>): Hash32
    requires |level| > 0
    decreases |level|
  {
    if |level| == 1 then level[0] else MerkleRoot(c, domain, NextLevel(c, domain, level))
  }

  function Padded(level: seq<Hash32>): (r: seq<Hash32>)
    ensures |r| % 2 == 0 && |r| / 2 == (|level| + 1) / 2
  {
    if |level| % 2 == 1 then level + [level[|level| - 1]] else level
  }

  lemma {:induction false} PaddingIsSelfPairing(c: Crypto, domain: Bytes, level: seq<Hash32>)
    ensures NextLevel(c, domain, Padded(level)) == NextLevel(c, domain, level)
    decreases |level|
  {
    if |level| > 1 {
      PaddingIsSelfPairing(c, domain, level[2..]);
      assert Padded(level)[2..] == Padded(level[2..]);
    }
  }

  lemma {:induction false} NextLevelAt(c: Crypto, domain: Bytes, level: seq<Hash32>, i: nat)
    requires |level| % 2 == 0 && i < |level| / 2
    ensures NextLevel(c, domain, level)[i] == NodeHash(c, domain, level[2 * i], level[2 * i + 1])
    decreases |level|
  {
    if i > 0 {
      NextLevelAt(c, domain, level[2..], i - 1);
    }
  }

  /** The `while` loop of `merkle`: pad, replace the vector by its pair hashes, repeat. */
  method Merkle(c: Crypto, leaves0: seq<Hash32>, domain: Bytes) returns (root: Hash32)
    requires |leaves0| > 0
    ensures root == MerkleRoot(c, domain, leaves0)
  {
    var leaves := leaves0;
    while |leaves| > 1
      invariant |leaves| > 0
      invariant MerkleRoot(c, domain, leaves) == MerkleRoot(c, domain, leaves0)
      decreases |leaves|
    {
      ghost var level := leaves;
      if |leaves| % 2 == 1 { leaves := leaves + [leaves[|leaves| - 1]]; }
      PaddingIsSelfPairing(c, domain, level);
      var next: seq<Hash32> := [];
      var i := 0;
      while i < |leaves| / 2
        invariant 0 <= i <= |leaves| / 2
        invariant |next| == i
        invariant forall j :: 0 <= j < i ==> next[j] == NextLevel(c, domain, leaves)[j]
      {
        NextLevelAt(c, domain, leaves, i);
        next := next + [NodeHash(c, domain, leaves[2 * i], leaves[2 * i + 1])];
        i := i + 1;
      }
      assert next == NextLevel(c, domain, level);
      leaves := next;
    }
    root := leaves[0];
  }

  // ---------- roots ----------

  predicate EventLess(a: Event, b: Event) {
    a.txIndex < b.txIndex ||
    (a.txIndex == b.txIndex && (a.eventIndex < b.eventIndex ||
                                (a.eventIndex == b.eventIndex && a.subIndex < b.subIndex)))
  }

  function EventLeaves(c: Crypto, events: seq<Event>): (r: seq<Hash32>)
    ensures |r| == |events|
  {
    if |events| == 0 then [] else [EventLeaf(c, events[0])] + EventLeaves(c, events[1..])
  }

  function EventEmptyPreimage(namespace: Hash32): Bytes { EVENT_EMPTY_TAG + namespace }

  function EventRoot(c: Crypto, namespace: Hash32, events: seq<Event>): Hash32 {
    if |events| == 0 then Sha256(c, EventEmptyPreimage(namespace))
    else MerkleRoot(c, EVENT_NODE_TAG, EventLeaves(c, SortBy(EventLess, events)))
  }

  predicate ObjectLess(a: ObjectState, b: ObjectState) { LexLess(a.objectKey, b.objectKey) }

  function ObjectLeaves(c: Crypto, objs: seq<ObjectState>): (r: seq<Hash32>)
    ensures |r| == |objs|
  {
    if |objs| == 0 then [] else [ObjectStateLeaf(c, objs[0])] + ObjectLeaves(c, objs[1..])
  }

  function ObjectEmptyPreimage(namespace: Hash32): Bytes { OBJECT_EMPTY_TAG + namespace }

  function ObjectStateRoot(c: Crypto, namespace: Hash32, objs: seq<ObjectState>): Hash32 {
    if |objs| == 0 then Sha256(c, ObjectEmptyPreimage(namespace))
    else MerkleRoot(c, OBJECT_NODE_TAG, ObjectLeaves(c, SortBy(ObjectLess, objs)))
  }

  /** `state.objects.values()`: the objects in key order. */
  function ObjectsInOrder(objects: map<Hash32, ObjectState>): (r: seq<ObjectState>)
    ensures |r| == |objects|
    ensures forall i :: 0 <= i < |r| ==>
            KeysInOrder(objects.Keys)[i] in objects && r[i] == objects[KeysInOrder(objects.Keys)[i]]
  {
    var keys := KeysInOrder(objects.Keys);
    assert forall i :: 0 <= i < |keys| ==> keys[i] in objects;
    seq(|keys|, i requires 0 <= i < |keys| => objects[keys[i]])
  }

  function BlockRootFields(
    namespace: Hash32, previousRoot: Hash32, blockHash: Hash32, height: u64, eventRoot: Hash32, objectRoot: Hash32,
    counters: Counters): (r: seq<Bytes>)
    ensures |r| == 9
  {
    [namespace, previousRoot, blockHash, LE(height, 8), eventRoot, objectRoot,
     LE(counters.foundingCreated, 8), LE(counters.allObjects, 8), LE(counters.activeObjects, 8)]
  }

  function BlockRootPreimage(
    namespace: Hash32, previousRoot: Hash32, blockHash: Hash32, height: u64, eventRoot: Hash32, objectRoot: Hash32,
    counters: Counters): Bytes
  {
    BLOCK_ROOT_TAG + Concat(BlockRootFields(namespace, previousRoot, blockHash, height, eventRoot, objectRoot,
                                            counters))
  }

  function BlockRoot(
    c: Crypto, namespace: Hash32, previousRoot: Hash32, blockHash: Hash32, height: u64, eventRoot: Hash32,
    objectRoot: Hash32, counters: Counters): Hash32
  {
    Sha256(c, BlockRootPreimage(namespace, previousRoot, blockHash, height, eventRoot, objectRoot, counters))
  }
}
