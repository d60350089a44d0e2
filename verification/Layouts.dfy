/** The hashed records byte by byte: where each field stands, and a decoder that reads an event back from its leaf. */
module Layouts {
  import opened Primitives
  import opened Types
  import opened Roots

  // "TANDEM/" and the rest of each tag, as bytes.
  const PREFIX: Bytes := [0x54, 0x41, 0x4E, 0x44, 0x45, 0x4D, 0x2F]
  const EVENT_WORD: Bytes := [0x45, 0x56, 0x45, 0x4E, 0x54]
  const OBJECT_WORD: Bytes := [0x4F, 0x42, 0x4A, 0x45, 0x43, 0x54]
  const EMPTY_WORD: Bytes := [0x2D, 0x45, 0x4D, 0x50, 0x54, 0x59]
  const NODE_WORD: Bytes := [0x2D, 0x4E, 0x4F, 0x44, 0x45]
  const STATE_WORD: Bytes := [0x53, 0x54, 0x41, 0x54, 0x45]

  /** The ten domain tags, spelled out and ended by a zero byte. */
  lemma EventTags()
    ensures EVENT_TAG == PREFIX + EVENT_WORD + [0]
    ensures EVENT_EMPTY_TAG == PREFIX + EVENT_WORD + EMPTY_WORD + [0]
    ensures EVENT_NODE_TAG == PREFIX + EVENT_WORD + NODE_WORD + [0]
  {
  }

  lemma ObjectTags()
    ensures OBJECT_KEY_TAG == PREFIX + OBJECT_WORD + [0]
    ensures OBJECT_STATE_TAG == PREFIX + OBJECT_WORD + [0x2D] + STATE_WORD + [0]
  {
  }

  lemma ObjectTreeTags()
    ensures OBJECT_EMPTY_TAG == PREFIX + OBJECT_WORD + EMPTY_WORD + [0]
    ensures OBJECT_NODE_TAG == PREFIX + OBJECT_WORD + NODE_WORD + [0]
  {
  }

  lemma ChainTags()
    ensures STATE_EMPTY_TAG == PREFIX + STATE_WORD + EMPTY_WORD + [0]
    ensures NAMESPACE_TAG == PREFIX + [0x4E, 0x41, 0x4D, 0x45, 0x53, 0x50, 0x41, 0x43, 0x45, 0]
    ensures BLOCK_ROOT_TAG == PREFIX + [0x42, 0x4C, 0x4F, 0x43, 0x4B, 0x52, 0x4F, 0x4F, 0x54, 0]
  {
  }

  lemma {:induction false} OffsetStep(fields: seq<Bytes>, i: nat)
    requires i < |fields|
    ensures Offset(fields, i + 1) == Offset(fields, i) + |fields[i]|
    decreases i
  {
    if i > 0 { OffsetStep(fields[1..], i - 1); }
  }

  lemma {:induction false} OffsetEnd(fields: seq<Bytes>)
    ensures Offset(fields, |fields|) == |Concat(fields)|
    decreases |fields|
  {
    if |fields| > 0 { OffsetEnd(fields[1..]); }
  }

  /** Field `i` of a tagged record, at its offset after the tag. */
  lemma TaggedAt(tag: Bytes, fields: seq<Bytes>, i: nat)
    requires i < |fields|
    ensures var p, at := tag + Concat(fields), |tag| + Offset(fields, i);
            at + |fields[i]| <= |p| && p[at..at + |fields[i]|] == fields[i]
  {
    ConcatAt(fields, i);
    var p, at := tag + Concat(fields), Offset(fields, i);
    assert p[|tag| + at..|tag| + at + |fields[i]|] == Concat(fields)[at..at + |fields[i]|];
  }

  // ---------- event leaves ----------

  /** The start of each event field after the 13-byte tag. */
  const EVENT_OFFSETS: seq<nat> := [0, 32, 64, 72, 76, 80, 84, 85, 86, 88, 120, 152, 184, 188, 224, 260, 293, 326]

  lemma HeadOffsets(e: Event)
    ensures |EVENT_OFFSETS| == 18
    ensures forall i :: 0 <= i <= 9 ==> Offset(EventFields(e), i) == EVENT_OFFSETS[i]
  {
    hide Offset, Concat, LE;
    var f := EventFields(e);
    OffsetZero(f);
    OffsetStep(f, 0); OffsetStep(f, 1); OffsetStep(f, 2); OffsetStep(f, 3); OffsetStep(f, 4); OffsetStep(f, 5);
    OffsetStep(f, 6); OffsetStep(f, 7); OffsetStep(f, 8);
  }

  lemma EventOffsets(e: Event)
    ensures |EVENT_OFFSETS| == 18
    ensures forall i :: 0 <= i < 18 ==> Offset(EventFields(e), i) == EVENT_OFFSETS[i]
    ensures |Concat(EventFields(e))| == 358
  {
    hide Offset, Concat, LE;
    var f := EventFields(e);
    HeadOffsets(e);
    OffsetStep(f, 9); OffsetStep(f, 10); OffsetStep(f, 11); OffsetStep(f, 12); OffsetStep(f, 13); OffsetStep(f, 14);
    OffsetStep(f, 15); OffsetStep(f, 16); OffsetStep(f, 17);
    OffsetEnd(f);
  }

  lemma OffsetZero(fields: seq<Bytes>)
    ensures Offset(fields, 0) == 0
  {
  }

  /** Every field of the 371-byte leaf preimage stands at its own offset. */
  lemma EventFieldAt(e: Event, i: nat)
    requires i < 18
    ensures var p, at, width := EventPreimage(e), 13 + EVENT_OFFSETS[i], |EventFields(e)[i]|;
            |p| == 371 && at + width <= 371 && p[at..at + width] == EventFields(e)[i]
  {
    hide EventFields, Offset, Concat;
    EventOffsets(e);
    EventTags();
    TaggedAt(EVENT_TAG, EventFields(e), i);
  }

  function EventTypeAt(b: u8): Option<EventType> {
    match b
    case 0 => Some(InitEvent) case 1 => Some(CreateEvent) case 2 => Some(MarkEvent) case 3 => Some(RotateEvent)
    case 4 => Some(CloseEvent) case 5 => Some(RefundEvent) case 6 => Some(ExitEvent) case 7 => Some(InvalidEvent)
    case _ => None
  }

  function ClassAt(b: u8): Option<ValidityClass> {
    match b
    case 0 => Some(InvalidNoState) case 1 => Some(ValidOperation) case 2 => Some(TerminalNoncanonical)
    case _ => None
  }

  function ReasonAt(n: nat): Option<Reason> {
    match n
    case 0x00 => Some(Valid) case 0x01 => Some(MultipleMarkers) case 0x02 => Some(BadMarkerEncodingOrLength)
    case 0x03 => Some(UnknownVersion) case 0x04 => Some(WrongNetwork) case 0x05 => Some(UnknownOpcode)
    case 0x06 => Some(WrongNamespace) case 0x07 => Some(UnsupportedOrReservedField)
    case 0x10 => Some(BadTxVersionOrLocktime) case 0x11 => Some(BadInputCountOrOrder)
    case 0x12 => Some(BadOutputCountOrOrder) case 0x13 => Some(UnconfirmedOrSameBlockPrevout)
    case 0x14 => Some(BadInputScript) case 0x15 => Some(BadKeyOrderOrBinding) case 0x16 => Some(BadSignatureOrSighash)
    case 0x17 => Some(BadOutputScriptOrValue) case 0x18 => Some(NonpositiveOrInvalidFee)
    case 0x19 => Some(BadFeeSplitOrChange) case 0x1A => Some(PredecessorNotActive) case 0x1B => Some(BadStateSequence)
    case 0x1C => Some(BadSuccessor) case 0x1D => Some(BadCommitment) case 0x1E => Some(BadHeightOrPhase)
    case 0x1F => Some(BadRefundShapeOrMaturity) case 0x20 => Some(MultipleCarriers)
    case 0x30 => Some(UnmarkedCarrierSpend)
    case _ => None
  }

  function U32From(b: Bytes): u32
    requires |b| == 4
  {
    FromLEBound(b);
    assert Pow256(4) == 0x1_0000_0000;
    FromLE(b)
  }

  function U64From(b: Bytes): u64
    requires |b| == 8
  {
    FromLEBound(b);
    assert Pow256(8) == 0x1_0000_0000_0000_0000;
    FromLE(b)
  }

  function OutPointFrom(b: Bytes): OutPointRef
    requires |b| == 36
  {
    OutPointRef(b[..32], U32From(b[32..]))
  }

  /** Read an event from its leaf preimage. */
  function DecodeEvent(b: Bytes): Option<Event> {
    if |b| != 371 || b[..13] != PREFIX + EVENT_WORD + [0] then None
    else
      var eventType, validity, reason := EventTypeAt(b[97]), ClassAt(b[98]), ReasonAt(FromLE(b[99..101]));
      if eventType.None? || validity.None? || reason.None? then None
      else
        Some(Event(b[13..45], b[45..77], U64From(b[77..85]), U32From(b[85..89]), U32From(b[89..93]), U32From(b[93..97]),
                   eventType.value, validity.value, reason.value, b[101..133], b[133..165], b[165..197],
                   U32From(b[197..201]), OutPointFrom(b[201..237]), OutPointFrom(b[237..273]), b[273..306], b[306..339],
                   b[339..371]))
  }

  lemma U32Back(n: u32)
    ensures U32From(LE(n, 4)) == n
  {
    assert Pow256(4) == 0x1_0000_0000;
    LERoundTrip(n, 4);
  }

  lemma U64Back(n: u64)
    ensures U64From(LE(n, 8)) == n
  {
    assert Pow256(8) == 0x1_0000_0000_0000_0000;
    LERoundTrip(n, 8);
  }

  lemma OutPointBack(o: OutPointRef)
    ensures OutPointFrom(o.WireBytes()) == o
  {
    assert o.WireBytes()[..32] == o.txid && o.WireBytes()[32..] == LE(o.vout, 4);
    U32Back(o.vout);
  }

  lemma CodesBack(e: Event)
    ensures EventTypeAt(e.eventType.Code()) == Some(e.eventType) &&
            ClassAt(e.validityClass.Code()) == Some(e.validityClass)
    ensures ReasonAt(FromLE(LE(e.reason.Code(), 2))) == Some(e.reason)
  {
    assert Pow256(2) == 0x1_0000;
    LERoundTrip(e.reason.Code(), 2);
  }

  /** The first nine fields, at their bytes. */
  lemma EventHead(e: Event)
    ensures var p := EventPreimage(e);
            && |p| == 371 && p[13..45] == e.namespace && p[45..77] == e.blockHash && p[77..85] == LE(e.height, 8)
            && p[85..89] == LE(e.txIndex, 4) && p[89..93] == LE(e.eventIndex, 4) && p[93..97] == LE(e.subIndex, 4)
            && p[97] == e.eventType.Code() && p[98] == e.validityClass.Code() && p[99..101] == LE(e.reason.Code(), 2)
  {
    hide EventPreimage, LE;
    EventFieldAt(e, 0); EventFieldAt(e, 1); EventFieldAt(e, 2); EventFieldAt(e, 3); EventFieldAt(e, 4);
    EventFieldAt(e, 5); EventFieldAt(e, 6); EventFieldAt(e, 7); EventFieldAt(e, 8);
    var p := EventPreimage(e);
    assert p[97..98][0] == p[97] && p[98..99][0] == p[98];
  }

  lemma EventTail(e: Event)
    ensures var p := EventPreimage(e);
            && |p| == 371 && p[101..133] == e.txid && p[133..165] == e.wtxid && p[165..197] == e.objectKey
            && p[197..201] == LE(e.stateSeq, 4) && p[201..237] == e.predecessor.WireBytes()
            && p[237..273] == e.successor.WireBytes() && p[273..306] == e.key0 && p[306..339] == e.key1
            && p[339..371] == e.commitment
  {
    hide EventPreimage, LE;
    EventFieldAt(e, 9); EventFieldAt(e, 10); EventFieldAt(e, 11); EventFieldAt(e, 12); EventFieldAt(e, 13);
    EventFieldAt(e, 14); EventFieldAt(e, 15); EventFieldAt(e, 16); EventFieldAt(e, 17);
  }

  /** Round trip: the decoder reads every event back from its leaf preimage. */
  lemma DecodeEncoded(e: Event)
    ensures DecodeEvent(EventPreimage(e)) == Some(e)
  {
    hide EventFields, LE, FromLE, OutPointFrom, U32From, U64From, EventTypeAt, ClassAt, ReasonAt, Concat;
    var p := EventPreimage(e);
    EventHead(e);
    EventTail(e);
    EventTags();
    assert p[..13] == EVENT_TAG;
    CodesBack(e);
    U64Back(e.height);
    U32Back(e.txIndex);
    U32Back(e.eventIndex);
    U32Back(e.subIndex);
    U32Back(e.stateSeq);
    OutPointBack(e.predecessor);
    OutPointBack(e.successor);
  }

  // ---------- object leaves and chained roots ----------

  function StatusNumber(s: ObjectStatus): u8 {
    if s.Active? then 0 else if s.Closed? then 1 else if s.Refunded? then 2 else 3
  }

  const OBJECT_OFFSETS: seq<nat> := [0, 32, 33, 34, 42, 46, 82, 115, 148, 180]

  lemma ObjectOffsets(o: ObjectState)
    ensures |OBJECT_OFFSETS| == 10
    ensures forall i :: 0 <= i < 10 ==> Offset(ObjectFields(o), i) == OBJECT_OFFSETS[i]
    ensures |Concat(ObjectFields(o))| == 184
  {
    hide Offset, Concat, LE;
    var f := ObjectFields(o);
    OffsetZero(f);
    OffsetStep(f, 0); OffsetStep(f, 1); OffsetStep(f, 2); OffsetStep(f, 3); OffsetStep(f, 4); OffsetStep(f, 5);
    OffsetStep(f, 6); OffsetStep(f, 7); OffsetStep(f, 8); OffsetStep(f, 9);
    OffsetEnd(f);
  }

  lemma ObjectFieldAt(o: ObjectState, i: nat)
    requires i < 10
    ensures var p, at, width := ObjectPreimage(o), 20 + OBJECT_OFFSETS[i], |ObjectFields(o)[i]|;
            |p| == 204 && at + width <= 204 && p[at..at + width] == ObjectFields(o)[i]
  {
    hide ObjectFields, Offset, Concat;
    ObjectOffsets(o);
    ObjectTags();
    TaggedAt(OBJECT_STATE_TAG, ObjectFields(o), i);
  }

  /** The 204-byte object leaf; an ended object shows the zero outpoint, an active one a zero terminal txid. */
  lemma ObjectLayout(o: ObjectState)
    ensures var p := ObjectPreimage(o);
            && |p| == 204 && p[20..52] == o.objectKey && p[52] == (if o.founding then 1 else 0)
            && p[53] == StatusNumber(o.status) && p[54..62] == LE(o.createHeight, 8) && p[62..66] == LE(o.stateSeq, 4)
            && p[66..102] == (if o.status == Active then o.currentOutpoint else OutPointRef(ZERO_HASH, 0)).WireBytes()
            && p[102..135] == o.keys.key0 && p[135..168] == o.keys.key1
            && p[168..200] == (if o.status == Active then ZERO_HASH else o.terminalTxid)
            && p[200..204] == LE(o.chapterCount, 4)
  {
    hide LE, ObjectPreimage;
    ObjectFieldAt(o, 0); ObjectFieldAt(o, 1); ObjectFieldAt(o, 2); ObjectFieldAt(o, 3); ObjectFieldAt(o, 4);
    ObjectFieldAt(o, 5); ObjectFieldAt(o, 6); ObjectFieldAt(o, 7); ObjectFieldAt(o, 8); ObjectFieldAt(o, 9);
    var p := ObjectPreimage(o);
    assert p[52..53][0] == p[52] && p[53..54][0] == p[53];
  }

  /** The 209-byte preimage of a chained root. */
  lemma BlockRootLayout(
    n: Hash32, previous: Hash32, hash: Hash32, height: u64, events: Hash32, objects: Hash32, k: Counters)
    ensures var p := BlockRootPreimage(n, previous, hash, height, events, objects, k);
            && |p| == 209 && p[17..49] == n && p[49..81] == previous && p[81..113] == hash
            && p[113..121] == LE(height, 8) && p[121..153] == events && p[153..185] == objects
            && p[185..193] == LE(k.foundingCreated, 8)
            && p[193..201] == LE(k.allObjects, 8) && p[201..209] == LE(k.activeObjects, 8)
  {
    hide LE, Offset, Concat;
    var f := BlockRootFields(n, previous, hash, height, events, objects, k);
    ChainTags();
    OffsetZero(f);
    OffsetStep(f, 0); OffsetStep(f, 1); OffsetStep(f, 2); OffsetStep(f, 3); OffsetStep(f, 4); OffsetStep(f, 5);
    OffsetStep(f, 6); OffsetStep(f, 7); OffsetStep(f, 8);
    OffsetEnd(f);
    TaggedAt(BLOCK_ROOT_TAG, f, 0); TaggedAt(BLOCK_ROOT_TAG, f, 1); TaggedAt(BLOCK_ROOT_TAG, f, 2);
    TaggedAt(BLOCK_ROOT_TAG, f, 3); TaggedAt(BLOCK_ROOT_TAG, f, 4); TaggedAt(BLOCK_ROOT_TAG, f, 5);
    TaggedAt(BLOCK_ROOT_TAG, f, 6); TaggedAt(BLOCK_ROOT_TAG, f, 7); TaggedAt(BLOCK_ROOT_TAG, f, 8);
  }

  function NetworkNumber(n: Network): u8 {
    if n.Mainnet? then 0 else if n.Signet? then 1 else if n.Testnet4? then 2 else 3
  }

  lemma ThreeFields(x: Bytes, y: Bytes, z: Bytes)
    ensures Concat([x, y, z]) == x + y + z
  {
    assert [x, y, z][1..] == [y, z];
    TwoFields(y, z);
  }

  lemma TwoFields(x: Bytes, y: Bytes)
    ensures Concat([x, y]) == x + y
  {
    assert [x, y][1..] == [y] && [y][1..] == [];
    assert Concat([y]) == y;
  }

  lemma NetworkCode(n: Network)
    ensures n.Code() == NetworkNumber(n)
  {
  }

  lemma NamespaceLayout(b: Binding)
    ensures b.NamespacePreimage() == NAMESPACE_TAG + ([NetworkNumber(b.network)] + b.initTxid + b.specHash)
  {
    hide Concat, NetworkNumber;
    NetworkCode(b.network);
    ThreeFields([b.network.Code()], b.initTxid, b.specHash);
  }

  lemma ObjectKeyLayout(n: Hash32, txid: Hash32)
    ensures ObjectKeyPreimage(n, txid) == OBJECT_KEY_TAG + (n + txid + [1, 0, 0, 0])
  {
    hide Concat;
    ThreeFields(n, txid, LE(1, 4));
    OneInFour();
  }

  lemma OneInFour()
    ensures LE(1, 4) == [1, 0, 0, 0]
  {
  }

  /** The preimages of a namespace, an object key, a Merkle node and the empty roots. */
  lemma KeyLayouts(b: Binding, n: Hash32, txid: Hash32, domain: Bytes, left: Hash32, right: Hash32)
    ensures b.NamespacePreimage() == NAMESPACE_TAG + ([NetworkNumber(b.network)] + b.initTxid + b.specHash)
    ensures ObjectKeyPreimage(n, txid) == OBJECT_KEY_TAG + (n + txid + [1, 0, 0, 0])
    ensures NodePreimage(domain, left, right) == domain + (left + right)
    ensures EmptyStatePreimage(n) == STATE_EMPTY_TAG + n
    ensures EventEmptyPreimage(n) == EVENT_EMPTY_TAG + n && ObjectEmptyPreimage(n) == OBJECT_EMPTY_TAG + n
  {
    hide Concat, NetworkNumber, LE, ObjectKeyPreimage;
    NamespaceLayout(b);
    ObjectKeyLayout(n, txid);
    TwoFields(left, right);
  }
}
