/** Consensus data types of `tandem-core`: keys, scripts, transactions, objects and state. */
module Types {
  import opened Primitives

  const MAGIC: Bytes := [0x54, 0x4E, 0x44, 0x4D]  // "TNDM"
  const VERSION: u8 := 1
  const CARRIER_VALUE: u64 := 20_000
  const REFUND_DELAY: u32 := 52_560
  const FOUNDING_WINDOW: u32 := 4_320
  const INIT_LEAD: u32 := 1_008
  const CHANGE_FLOOR: u64 := 1_000
  const RBF_SEQUENCE: u32 := 0xFFFF_FFFD

  type Hash20 = h: Bytes | |h| == 20 witness seq(20, _ => 0)
  type Hash32 = h: Bytes | |h| == 32 witness seq(32, _ => 0)
  type Key33 = k: Bytes | |k| == 33 witness seq(33, _ => 0)

  const ZERO_HASH: Hash32 :=
    [0, 0, 0, 0, 0, 0, 0, 0, 0, 0, 0, 0, 0, 0, 0, 0, 0, 0, 0, 0, 0, 0, 0, 0, 0, 0, 0, 0, 0, 0, 0, 0]
  const ZERO_KEY: Key33 :=
    [0, 0, 0, 0, 0, 0, 0, 0, 0, 0, 0, 0, 0, 0, 0, 0, 0, 0, 0, 0, 0, 0, 0, 0, 0, 0, 0, 0, 0, 0, 0, 0, 0]

  predicate IsZero(h: Hash32) { h == ZERO_HASH }

  /** The three cryptographic primitives, left as arbitrary functions: every theorem about a
      `Crypto` holds for all of them. `onCurve` is what `secp256k1::PublicKey::from_slice` accepts. */
  datatype Crypto = Crypto(sha256: Bytes -> Hash32, hash160: Bytes -> Hash20, onCurve: Bytes -> bool)

  function Sha256(c: Crypto, b: Bytes): Hash32 { c.sha256(b) }
  function Hash160(c: Crypto, b: Bytes): Hash20 { c.hash160(b) }
  predicate OnCurve(c: Crypto, b: Bytes) { c.onCurve(b) }

  datatype OutPointRef = OutPointRef(txid: Hash32, vout: u32) {
    function WireBytes(): (r: Bytes)
      ensures |r| == 36
    {
      txid + LE(vout, 4)
    }
  }

  const ZERO_OUTPOINT: OutPointRef := OutPointRef(ZERO_HASH, 0)

  // ---------- keys and scripts ----------

  function P2wpkhScript(c: Crypto, key: Key33): (r: Bytes)
    ensures |r| == 22
  {
    [0x00, 0x14] + Hash160(c, key)
  }

  predicate KeyValid(c: Crypto, key: Key33) {
    (key[0] == 0x02 || key[0] == 0x03) && OnCurve(c, key)
  }

  datatype KeyPair = KeyPair(key0: Key33, key1: Key33) {
    /** Exact 71-byte 2-of-2 witness script. */
    function WitnessScript(): (r: Bytes)
      ensures |r| == 71
    {
      [0x52, 0x21] + key0 + [0x21] + key1 + [0x52, 0xAE]
    }

    function CarrierScript(c: Crypto): (r: Bytes)
      ensures |r| == 34
    {
      [0x00, 0x20] + Sha256(c, WitnessScript())
    }

    predicate Contains(key: Key33) { key0 == key || key1 == key }
  }

  function CheckedPair(c: Crypto, key0: Key33, key1: Key33): Option<KeyPair> {
    if KeyValid(c, key0) && KeyValid(c, key1) && LexLess(key0, key1) then Some(KeyPair(key0, key1)) else None
  }

  // ---------- binding ----------

  datatype Network = Mainnet | Signet | Testnet4 | Regtest {
    function Code(): u8 {
      match this case Mainnet => 0 case Signet => 1 case Testnet4 => 2 case Regtest => 3
    }
  }

  datatype Binding = Binding(network: Network, initTxid: Hash32, specHash: Hash32) {
    function NamespacePreimage(): Bytes {
      NAMESPACE_TAG + Concat([[network.Code()], initTxid, specHash])
    }

    function Namespace(c: Crypto): Hash32 { Sha256(c, NamespacePreimage()) }
  }

  /** The bytes of an ASCII literal. */
  function Ascii(s: string): (r: Bytes)
    ensures |r| == |s|
  {
    seq(|s|, i requires 0 <= i < |s| => (s[i] as int % 256) as u8)
  }

  // The NUL-terminated domain tags that open every hashed preimage.
  const NAMESPACE_TAG: Bytes := Ascii("TANDEM/NAMESPACE") + [0]
  const OBJECT_KEY_TAG: Bytes := Ascii("TANDEM/OBJECT") + [0]
  const STATE_EMPTY_TAG: Bytes := Ascii("TANDEM/STATE-EMPTY") + [0]
  const EVENT_TAG: Bytes := Ascii("TANDEM/EVENT") + [0]
  const EVENT_EMPTY_TAG: Bytes := Ascii("TANDEM/EVENT-EMPTY") + [0]
  const EVENT_NODE_TAG: Bytes := Ascii("TANDEM/EVENT-NODE") + [0]
  const OBJECT_STATE_TAG: Bytes := Ascii("TANDEM/OBJECT-STATE") + [0]
  const OBJECT_EMPTY_TAG: Bytes := Ascii("TANDEM/OBJECT-EMPTY") + [0]
  const OBJECT_NODE_TAG: Bytes := Ascii("TANDEM/OBJECT-NODE") + [0]
  const BLOCK_ROOT_TAG: Bytes := Ascii("TANDEM/BLOCKROOT") + [0]

  function ObjectKeyPreimage(namespace: Hash32, createTxid: Hash32): Bytes {
    OBJECT_KEY_TAG + Concat([namespace, createTxid, LE(1, 4)])
  }

  function ObjectKey(c: Crypto, namespace: Hash32, createTxid: Hash32): Hash32 {
    Sha256(c, ObjectKeyPreimage(namespace, createTxid))
  }

  // ---------- opcodes, reasons, event classes ----------

  datatype Opcode = InitOp | CreateOp | MarkOp | RotateOp | CloseOp {
    function PayloadLen(): nat {
      match this case InitOp => 59 case CreateOp => 40 case MarkOp => 78 case RotateOp => 44 case CloseOp => 80
    }
  }

  function OpcodeFromByte(value: u8): Option<Opcode> {
    match value
    case 0 => Some(InitOp)
    case 1 => Some(CreateOp)
    case 2 => Some(MarkOp)
    case 3 => Some(RotateOp)
    case 4 => Some(CloseOp)
    case _ => None
  }

  datatype Reason =
    | Valid
    | MultipleMarkers
    | BadMarkerEncodingOrLength
    | UnknownVersion
    | WrongNetwork
    | UnknownOpcode
    | WrongNamespace
    | UnsupportedOrReservedField
    | BadTxVersionOrLocktime
    | BadInputCountOrOrder
    | BadOutputCountOrOrder
    | UnconfirmedOrSameBlockPrevout
    | BadInputScript
    | BadKeyOrderOrBinding
    | BadSignatureOrSighash
    | BadOutputScriptOrValue
    | NonpositiveOrInvalidFee
    | BadFeeSplitOrChange
    | PredecessorNotActive
    | BadStateSequence
    | BadSuccessor
    | BadCommitment
    | BadHeightOrPhase
    | BadRefundShapeOrMaturity
    | MultipleCarriers
    | UnmarkedCarrierSpend
  {
    function Code(): u16 {
      match this
      case Valid => 0x0000
      case MultipleMarkers => 0x0001
      case BadMarkerEncodingOrLength => 0x0002
      case UnknownVersion => 0x0003
      case WrongNetwork => 0x0004
      case UnknownOpcode => 0x0005
      case WrongNamespace => 0x0006
      case UnsupportedOrReservedField => 0x0007
      case BadTxVersionOrLocktime => 0x0010
      case BadInputCountOrOrder => 0x0011
      case BadOutputCountOrOrder => 0x0012
      case UnconfirmedOrSameBlockPrevout => 0x0013
      case BadInputScript => 0x0014
      case BadKeyOrderOrBinding => 0x0015
      case BadSignatureOrSighash => 0x0016
      case BadOutputScriptOrValue => 0x0017
      case NonpositiveOrInvalidFee => 0x0018
      case BadFeeSplitOrChange => 0x0019
      case PredecessorNotActive => 0x001A
      case BadStateSequence => 0x001B
      case BadSuccessor => 0x001C
      case BadCommitment => 0x001D
      case BadHeightOrPhase => 0x001E
      case BadRefundShapeOrMaturity => 0x001F
      case MultipleCarriers => 0x0020
      case UnmarkedCarrierSpend => 0x0030
    }
  }

  datatype EventType =
    | InitEvent | CreateEvent | MarkEvent | RotateEvent | CloseEvent | RefundEvent | ExitEvent | InvalidEvent
  {
    function Code(): u8 {
      match this
      case InitEvent => 0 case CreateEvent => 1 case MarkEvent => 2 case RotateEvent => 3
      case CloseEvent => 4 case RefundEvent => 5 case ExitEvent => 6 case InvalidEvent => 7
    }
  }

  function EventTypeOf(op: Opcode): EventType {
    match op
    case InitOp => InitEvent case CreateOp => CreateEvent case MarkOp => MarkEvent
    case RotateOp => RotateEvent case CloseOp => CloseEvent
  }

  datatype ValidityClass = InvalidNoState | ValidOperation | TerminalNoncanonical {
    function Code(): u8 {
      match this case InvalidNoState => 0 case ValidOperation => 1 case TerminalNoncanonical => 2
    }
  }

  // ---------- resolved transactions ----------

  datatype InputView = InputView(
    prevout: OutPointRef, sequence: u32, scriptSig: Bytes, witnessStack: seq<Bytes>,
    prevoutValue: u64, prevoutScript: Bytes, prevoutHeight: Option<u64>, signaturesValid: bool)
  {
    function P2wpkhRevealedKey(): Option<Key33> {
      if |scriptSig| != 0 || |witnessStack| != 2 || |prevoutScript| != 22 ||
        prevoutScript[..2] != [0x00, 0x14] then None
      else if |witnessStack[1]| == 33 then Some(witnessStack[1]) else None
    }

    function P2wpkhKey(c: Crypto): Option<Key33> {
      var key := P2wpkhRevealedKey();
      if key.None? || !KeyValid(c, key.value) || P2wpkhScript(c, key.value) != prevoutScript then None else key
    }

    function CarrierRevealedKeys(): Option<KeyPair> {
      if |scriptSig| != 0 || |witnessStack| != 4 || |witnessStack[0]| != 0 || |prevoutScript| != 34
         || prevoutScript[..2] != [0x00, 0x20] then None
      else
        var script := witnessStack[3];
        if |script| != 71 || script[0..2] != [0x52, 0x21] || script[35] != 0x21 || script[69..71] != [0x52, 0xAE]
        then None
        else Some(KeyPair(script[2..35], script[36..69]))
    }

    function CarrierKeys(c: Crypto): Option<KeyPair> {
      var keys := CarrierRevealedKeys();
      if keys.None? then None
      else
        var pair := CheckedPair(c, keys.value.key0, keys.value.key1);
        if pair.Some? && pair.value.CarrierScript(c) == prevoutScript then pair else None
    }

    predicate HasEarlierConfirmation(height: u64) {
      prevoutHeight.Some? && prevoutHeight.value < height
    }
  }

  datatype OutputView = OutputView(value: u64, scriptPubkey: Bytes)

  datatype TxView = TxView(
    txid: Hash32, wtxid: Hash32, version: i32, lockTime: u32, inputs: seq<InputView>, outputs: seq<OutputView>)

  datatype BlockView = BlockView(hash: Hash32, previousHash: Hash32, height: u64, transactions: seq<TxView>)

  // ---------- events, objects, state ----------

  datatype Event = Event(
    namespace: Hash32, blockHash: Hash32, height: u64, txIndex: u32, eventIndex: u32, subIndex: u32,
    eventType: EventType, validityClass: ValidityClass, reason: Reason, txid: Hash32, wtxid: Hash32,
    objectKey: Hash32, stateSeq: u32, predecessor: OutPointRef, successor: OutPointRef,
    key0: Key33, key1: Key33, commitment: Hash32)

  datatype ObjectStatus = Active | Closed | Refunded | ExitedNoncanonical {
    function Code(): u8 {
      match this case Active => 0 case Closed => 1 case Refunded => 2 case ExitedNoncanonical => 3
    }
  }

  datatype ObjectState = ObjectState(
    objectKey: Hash32, genesis: OutPointRef, founding: bool, status: ObjectStatus, createHeight: u64,
    stateSeq: u32, currentOutpoint: OutPointRef, keys: KeyPair, terminalTxid: Hash32, chapterCount: u32)

  /** `ProtocolStatus`; `Running` is the source's `Active` variant. */
  datatype ProtocolStatus =
    | AwaitingInit
    | Running(initHeight: u64, hOpen: u32, hClose: u32)
    | FailedInit(reason: Reason, initHeight: u64)

  datatype ChainState = ChainState(
    binding: Binding, protocolStatus: ProtocolStatus, tipHeight: Option<u64>, tipHash: Option<Hash32>,
    chainedRoot: Hash32, objects: map<Hash32, ObjectState>, active: map<OutPointRef, Hash32>)

  function EmptyStatePreimage(namespace: Hash32): Bytes {
    STATE_EMPTY_TAG + namespace
  }

  function NewState(c: Crypto, binding: Binding): ChainState {
    ChainState(binding, AwaitingInit, None, None, Sha256(c, EmptyStatePreimage(binding.Namespace(c))), map[], map[])
  }

  datatype Counters = Counters(foundingCreated: nat, allObjects: nat, activeObjects: nat)

  function FoundingKeys(objects: map<Hash32, ObjectState>): set<Hash32> {
    set k | k in objects && objects[k].founding
  }

  function ActiveKeys(objects: map<Hash32, ObjectState>): set<Hash32> {
    set k | k in objects && objects[k].status == Active
  }

  function CountersOf(objects: map<Hash32, ObjectState>): Counters {
    Counters(|FoundingKeys(objects)|, |objects|, |ActiveKeys(objects)|)
  }

  datatype HeightRoots = HeightRoots(
    height: u64, blockHash: Hash32, eventRoot: Hash32, objectStateRoot: Hash32, chainedRoot: Hash32,
    counters: Counters)

  /** The decoder accepts a witness script exactly when it is the printed script of the keys it returns. */
  lemma CarrierDecoderInvertsPrinter(input: InputView)
    ensures input.CarrierRevealedKeys().Some? <==>
            |input.scriptSig| == 0 && |input.witnessStack| == 4 && |input.witnessStack[0]| == 0 &&
            |input.prevoutScript| == 34 && input.prevoutScript[..2] == [0x00, 0x20] &&
            exists keys: KeyPair :: input.witnessStack[3] == keys.WitnessScript()
    ensures forall keys: KeyPair :: input.CarrierRevealedKeys() == Some(keys) ==>
            input.witnessStack[3] == keys.WitnessScript()
    ensures forall keys: KeyPair ::
              input.CarrierRevealedKeys().Some? && input.witnessStack[3] == keys.WitnessScript() ==>
                input.CarrierRevealedKeys() == Some(keys)
  {
    if |input.witnessStack| == 4 {
      var script := input.witnessStack[3];
      if input.CarrierRevealedKeys().Some? {
        var keys := input.CarrierRevealedKeys().value;
        assert script == script[0..2] + script[2..35] + [script[35]] + script[36..69] + script[69..71];
        assert script == keys.WitnessScript();
      }
      forall keys: KeyPair | script == keys.WitnessScript()
        ensures script[0..2] == [0x52, 0x21] && script[35] == 0x21 && script[69..71] == [0x52, 0xAE]
        ensures script[2..35] == keys.key0 && script[36..69] == keys.key1
      {
      }
    }
  }

  /** A key that can sign: compressed and on the curve. */
  ghost predicate Signing(c: Crypto, k: Key33) { (k[0] == 2 || k[0] == 3) && c.onCurve(k) }

  /** The key decoder accepts an input exactly when it spends a 22-byte key-hash output with an empty script and two
      witness items, the second being a signing key that hashes to the output. */
  lemma KeyDecoderExact(c: Crypto, input: InputView, k: Key33)
    ensures input.P2wpkhKey(c) == Some(k) <==>
            |input.scriptSig| == 0 && |input.witnessStack| == 2 && input.witnessStack[1] == k &&
            input.prevoutScript == [0x00, 0x14] + c.hash160(k) && Signing(c, k)
    ensures input.P2wpkhRevealedKey() == Some(k) <==>
            |input.scriptSig| == 0 && |input.witnessStack| == 2 && input.witnessStack[1] == k &&
            |input.prevoutScript| == 22 && input.prevoutScript[0] == 0x00 && input.prevoutScript[1] == 0x14
  {
    if input.prevoutScript == [0x00, 0x14] + c.hash160(k) { assert input.prevoutScript[..2] == [0x00, 0x14]; }
    if |input.prevoutScript| == 22 { assert input.prevoutScript[..2] ==
                                    [input.prevoutScript[0], input.prevoutScript[1]]; }
  }

  /** The printed 2-of-2 script: OP_2, two 33-byte pushes, OP_2, OP_CHECKMULTISIG. */
  ghost predicate IsTwoOfTwo(script: Bytes, keys: KeyPair) {
    |script| == 71 && script[0] == 0x52 && script[1] == 0x21 && script[2..35] == keys.key0 && script[35] == 0x21 &&
    script[36..69] == keys.key1 && script[69] == 0x52 && script[70] == 0xAE
  }

  lemma WitnessScriptExact(script: Bytes, keys: KeyPair)
    ensures script == keys.WitnessScript() <==> IsTwoOfTwo(script, keys)
  {
    if IsTwoOfTwo(script, keys) {
      assert script == script[..2] + script[2..35] + [script[35]] + script[36..69] + script[69..];
      assert script[..2] == [0x52, 0x21] && script[69..] == [0x52, 0xAE];
    }
  }

  /** The carrier decoder accepts an input exactly when it spends the hash of a 2-of-2 script of two signing keys in
      ascending order, with an empty script and four witness items of which the first is empty and the last that script.
      */
  lemma CarrierKeysExact(c: Crypto, input: InputView, keys: KeyPair)
    ensures input.CarrierKeys(c) == Some(keys) <==>
            |input.scriptSig| == 0 && |input.witnessStack| == 4 && |input.witnessStack[0]| == 0 &&
            IsTwoOfTwo(input.witnessStack[3], keys) &&
            input.prevoutScript == [0x00, 0x20] + c.sha256(input.witnessStack[3]) &&
            Signing(c, keys.key0) && Signing(c, keys.key1) && LexLess(keys.key0, keys.key1)
  {
    CarrierDecoderInvertsPrinter(input);
    if |input.witnessStack| == 4 {
      WitnessScriptExact(input.witnessStack[3], keys);
      if input.prevoutScript == [0x00, 0x20] + c.sha256(input.witnessStack[3]) {
        assert input.prevoutScript[..2] == [0x00, 0x20];
      }
    }
    var revealed := input.CarrierRevealedKeys();
    if revealed.Some? { WitnessScriptExact(input.witnessStack[3], revealed.value); }
  }
}
