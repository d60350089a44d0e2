/** Broad marker detection, strict payload parsing, and their exact inverse printer. */
module Marker {
  import opened Primitives
  import opened Types

  datatype MarkerCandidate = MarkerCandidate(
    vout: u32, declaredLen: nat, payload: Bytes, payloadComplete: bool, noTrailingBytes: bool, minimalPush: bool)
  {
    function OpcodeByte(): Option<u8> { if |payload| > 6 then Some(payload[6]) else None }

    predicate IsInitCandidate() { OpcodeByte() == Some(0) }

    /** Strict structural parse of a detected candidate. */
    function Parse(): (r: Result<ParsedMarker, Reason>)
      requires WellDetected()
      ensures r.Ok? ==> r.value.WellParsed()
    {
      var shortestExactPush := 7 <= declaredLen <= 80 && payloadComplete && noTrailingBytes && minimalPush;
      :- Need(shortestExactPush, BadMarkerEncodingOrLength);
      var opcode := OpcodeFromByte(payload[6]);
      :- Need(opcode.Some? ==> opcode.value.PayloadLen() == |payload|, BadMarkerEncodingOrLength);
      Ok(ParsedMarker(vout, payload[4], payload[5], payload[6], opcode, payload))
    }

    /** What detection guarantees: a complete push holds exactly its declared bytes. */
    predicate WellDetected() { |payload| >= 4 && (payloadComplete ==> |payload| == declaredLen) }
  }

  datatype ParsedMarker = ParsedMarker(
    vout: u32, version: u8, network: u8, opcodeByte: u8, opcode: Option<Opcode>, payload: Bytes)
  {
    /** A defined opcode fixes the payload length, so its fixed fields are in range. */
    predicate WellParsed() {
      7 <= |payload| <= 80 && opcode == OpcodeFromByte(opcodeByte) &&
      (opcode.Some? ==> |payload| == opcode.value.PayloadLen())
    }

    function U32At(start: nat): u32
      requires start + 4 <= |payload|
    {
      FromLEBound(payload[start..start + 4]);
      assert Pow256(4) == 0x1_0000_0000;
      FromLE(payload[start..start + 4])
    }

    function U64At(start: nat): u64
      requires start + 8 <= |payload|
    {
      FromLEBound(payload[start..start + 8]);
      assert Pow256(8) == 0x1_0000_0000_0000_0000;
      FromLE(payload[start..start + 8])
    }

    function HashAt(start: nat): Hash32
      requires start + 32 <= |payload|
    {
      payload[start..start + 32]
    }
  }

  /** The integer read at an offset is the one whose little-endian bytes stand there. */
  lemma FieldBytes(marker: ParsedMarker, start: nat, n: u32)
    requires start + 4 <= |marker.payload|
    ensures marker.U32At(start) == n <==> marker.payload[start..start + 4] == LE(n, 4)
  {
    assert Pow256(4) == 0x1_0000_0000;
    LERoundTrip(n, 4);
    FromLEPrinted(marker.payload[start..start + 4]);
  }

  lemma WideFieldBytes(marker: ParsedMarker, start: nat, n: u64)
    requires start + 8 <= |marker.payload|
    ensures marker.U64At(start) == n <==> marker.payload[start..start + 8] == LE(n, 8)
  {
    assert Pow256(8) == 0x1_0000_0000_0000_0000;
    LERoundTrip(n, 8);
    FromLEPrinted(marker.payload[start..start + 8]);
  }

  /** Push prefix: declared length, prefix width, and whether the push form is the shortest. */
  datatype Push = Push(declaredLen: nat, prefixLen: nat, minimal: bool)

  function ReadPush(script: Bytes): Option<Push>
    requires |script| >= 2
  {
    var opcode := script[1];
    if 0x01 <= opcode <= 0x4B then Some(Push(opcode as int, 2, true))
    else if opcode == 0x4C then
      if |script| < 3 then None else Some(Push(script[2] as int, 3, script[2] >= 0x4C))
    else if opcode == 0x4D then
      if |script| < 4 then None else var n := FromLE(script[2..4]); Some(Push(n, 4, n > 0xFF))
    else if opcode == 0x4E then
      if |script| < 6 then None else var n := FromLE(script[2..6]); Some(Push(n, 6, n > 0xFFFF))
    else None
  }

  function FindMarkerCandidate(script: Bytes, vout: u32): (r: Option<MarkerCandidate>)
    ensures r.Some? ==>
              r.value.WellDetected() && r.value.vout == vout && |script| > 0 && script[0] == 0x6A &&
              r.value.payload[..4] == MAGIC
  {
    if |script| < 2 || script[0] != 0x6A then None
    else
      var push := ReadPush(script);
      if push.None? || push.value.declaredLen < 4 then None
      else
        var Push(declaredLen, prefixLen, minimal) := push.value;
        var available := if |script| >= prefixLen then |script| - prefixLen else 0;
        if available < 4 || script[prefixLen..prefixLen + 4] != MAGIC then None
        else
          var physicalLen := if declaredLen < available then declaredLen else available;
          var payload := script[prefixLen..prefixLen + physicalLen];
          assert payload[..4] == script[prefixLen..prefixLen + 4];
          Some(MarkerCandidate(vout, declaredLen, payload, available >= declaredLen, available == declaredLen, minimal))
  }

  // ---------- broad detection, exactly ----------

  /** The four ways to write a push. */
  datatype PushForm = Direct | Data1 | Data2 | Data4

  /** The lengths a form can write. */
  predicate Writes(form: PushForm, n: nat) {
    match form
    case Direct => 1 <= n <= 75
    case Data1 => n <= 0xFF
    case Data2 => n <= 0xFFFF
    case Data4 => n <= 0xFFFF_FFFF
  }

  function PushPrefix(form: PushForm, n: nat): Bytes
    requires Writes(form, n)
  {
    match form
    case Direct => [n as u8]
    case Data1 => [0x4C, n as u8]
    case Data2 => [0x4D] + LE(n, 2)
    case Data4 => [0x4E] + LE(n, 4)
  }

  /** No earlier form writes the length. */
  predicate Shortest(form: PushForm, n: nat) {
    match form
    case Direct => true
    case Data1 => n >= 76
    case Data2 => n > 0xFF
    case Data4 => n > 0xFFFF
  }

  /** A script that announces `n` pushed bytes and continues with `tail`. */
  predicate Announces(script: Bytes, form: PushForm, n: nat, tail: Bytes) {
    Writes(form, n) && script == [0x6A] + PushPrefix(form, n) + tail
  }

  /** What a detected candidate records of the announced push. */
  function Observed(vout: u32, form: PushForm, n: nat, tail: Bytes): MarkerCandidate {
    MarkerCandidate(vout, n, if n <= |tail| then tail[..n] else tail, n <= |tail|, n == |tail|, Shortest(form, n))
  }

  lemma PrefixReads(form: PushForm, n: nat, tail: Bytes)
    requires Writes(form, n)
    ensures var script := [0x6A] + PushPrefix(form, n) + tail;
            ReadPush(script) == Some(Push(n, 1 + |PushPrefix(form, n)|, Shortest(form, n)))
  {
    var script := [0x6A] + PushPrefix(form, n) + tail;
    match form
    case Data2 =>
      assert script[2..4] == LE(n, 2);
      assert Pow256(2) == 0x1_0000;
      LERoundTrip(n, 2);
    case Data4 =>
      assert script[2..6] == LE(n, 4);
      assert Pow256(4) == 0x1_0000_0000;
      LERoundTrip(n, 4);
    case _ =>
  }

  lemma ReadsPrefix(script: Bytes) returns (form: PushForm, n: nat, tail: Bytes)
    requires |script| >= 2 && script[0] == 0x6A && ReadPush(script).Some?
    ensures Announces(script, form, n, tail)
  {
    var push := ReadPush(script).value;
    n, tail := push.declaredLen, script[push.prefixLen..];
    form := match push.prefixLen case 2 => Direct case 3 => Data1 case 4 => Data2 case _ => Data4;
    if form == Data2 {
      FromLEBound(script[2..4]);
      FromLEPrinted(script[2..4]);
      assert Pow256(2) == 0x1_0000;
    } else if form == Data4 {
      FromLEBound(script[2..6]);
      FromLEPrinted(script[2..6]);
      assert Pow256(4) == 0x1_0000_0000;
    }
    assert script == script[..push.prefixLen] + tail;
    assert script[..push.prefixLen] == [0x6A] + PushPrefix(form, n);
  }

  /** A script that announces a push is detected exactly when at least the magic is announced and present, and then as
      what is physically there: truncated, trailing and oversized pushes are all detected. */
  lemma DetectsAnnounced(script: Bytes, vout: u32, form: PushForm, n: nat, tail: Bytes)
    requires Announces(script, form, n, tail)
    ensures FindMarkerCandidate(script, vout) ==
            if n >= 4 && MAGIC <= tail then Some(Observed(vout, form, n, tail)) else None
  {
    hide ReadPush, PushPrefix, Shortest;
    var head := [0x6A] + PushPrefix(form, n);
    PrefixReads(form, n, tail);
    assert script == head + tail;
    assert MAGIC <= tail <==> |tail| >= 4 && tail[..4] == MAGIC;
    if |tail| >= 4 {
      SliceAfter(head, tail, 4);
      SliceAfter(head, tail, if n <= |tail| then n else |tail|);
      assert tail[..|tail|] == tail;
    }
  }

  lemma SliceAfter(head: Bytes, tail: Bytes, m: nat)
    requires m <= |tail|
    ensures (head + tail)[|head|..|head| + m] == tail[..m]
  {
  }

  /** Broad detection, both ways: a candidate is what some announced push of the magic shows. */
  lemma DetectionExact(script: Bytes, vout: u32, m: MarkerCandidate)
    ensures FindMarkerCandidate(script, vout) == Some(m) <==>
            exists form, n: nat, tail ::
              Announces(script, form, n, tail) && n >= 4 && MAGIC <= tail && m == Observed(vout, form, n, tail)
  {
    if FindMarkerCandidate(script, vout).Some? {
      var form, n, tail := ReadsPrefix(script);
      DetectsAnnounced(script, vout, form, n, tail);
    }
    if form, n: nat, tail :|
       Announces(script, form, n, tail) && n >= 4 && MAGIC <= tail && m == Observed(vout, form, n, tail) {
      DetectsAnnounced(script, vout, form, n, tail);
    }
  }

  // ---------- the printer and the exact inverse ----------

  /** OP_RETURN followed by the shortest push of a payload of at most 255 bytes. */
  function MarkerScript(payload: Bytes): Bytes
    requires 1 <= |payload| <= 0xFF
  {
    if |payload| <= 75 then [0x6A, |payload| as u8] + payload else [0x6A, 0x4C, |payload| as u8] + payload
  }

  /** The payloads a strict marker can carry. */
  predicate WellFormedPayload(payload: Bytes) {
    7 <= |payload| <= 80 && payload[..4] == MAGIC &&
    (var opcode := OpcodeFromByte(payload[6]); opcode.Some? ==> |payload| == opcode.value.PayloadLen())
  }

  function DetectAndParse(script: Bytes, vout: u32): Option<ParsedMarker> {
    var candidate := FindMarkerCandidate(script, vout);
    if candidate.Some? && candidate.value.Parse().Ok? then Some(candidate.value.Parse().value) else None
  }

  /** Printing then parsing returns the payload, with the header bytes in their places. */
  lemma ParsePrinted(payload: Bytes, vout: u32)
    requires WellFormedPayload(payload)
    ensures DetectAndParse(MarkerScript(payload), vout) ==
            Some(ParsedMarker(vout, payload[4], payload[5], payload[6], OpcodeFromByte(payload[6]), payload))
  {
    var script := MarkerScript(payload);
    var prefix := if |payload| <= 75 then 2 else 3;
    assert ReadPush(script) == Some(Push(|payload|, prefix, true));
    assert script[prefix..prefix + |payload|] == payload;
    assert script[prefix..prefix + 4] == payload[..4];
  }

  /** Whatever parses was printed: the script is the unique shortest encoding of its payload. */
  lemma PrintParsed(script: Bytes, vout: u32)
    requires DetectAndParse(script, vout).Some?
    ensures var p := DetectAndParse(script, vout).value.payload;
            WellFormedPayload(p) && script == MarkerScript(p)
  {
    var candidate := FindMarkerCandidate(script, vout).value;
    var p := candidate.payload;
    var push := ReadPush(script).value;
    assert p == script[push.prefixLen..];
    assert candidate.Parse().value.payload == p && p[..4] == MAGIC;
    if push.prefixLen == 2 {
      assert script == [script[0], script[1]] + script[2..];
    } else {
      assert push.prefixLen == 3;
      assert script == [script[0], script[1], script[2]] + script[3..];
    }
  }

  /** A script is detected and strictly parsed to `payload` iff it is the printed form of it. */
  lemma ParserInvertsPrinter(script: Bytes, payload: Bytes, vout: u32)
    ensures (DetectAndParse(script, vout).Some? && DetectAndParse(script, vout).value.payload == payload) <==>
            (WellFormedPayload(payload) && script == MarkerScript(payload))
  {
    if DetectAndParse(script, vout).Some? { PrintParsed(script, vout); }
    if WellFormedPayload(payload) { ParsePrinted(payload, vout); }
  }
}
