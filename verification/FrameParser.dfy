/** The frame parser of components/alpha_hwr/frame_parser.cpp:18-178, and the builders
against it.

The parser reports the first APDU of a telegram only, and never past the length that
APDU declares. Parsed says which bytes that is; ParseFrame fills the result field by
field the way the source does.
*/
module FrameParser {
  import opened Crc
  import opened FrameCheck
  import opened FrameBuilder
  import CaptureScan
  import Numbers

  const RESPONSE_START: byte := 0x24
  const OPSPEC_MOTOR_STATE: byte := 0x30
  const OPSPEC_FLOW_PRESSURE: byte := 0x2B
  const OPSPEC_TEMPERATURE: byte := 0x14
  const OPSPEC_ALARMS_WARNINGS: byte := 0x09
  const OPSPEC_PASSIVE_NOTIF: byte := 0x0E
  const OPSPEC_ALARMS_READ: byte := 0x13

  datatype FrameType = Invalid | Request | Response

  // A payload is a pointer into the received bytes, and a length.
  datatype Payload = NoPayload | PayloadAt(offset: nat, length: nat)

  datatype ParsedFrame = ParsedFrame(
    valid: bool,
    frameType: FrameType,
    classByte: byte,
    opspec: byte,
    subId: bv16,
    objId: bv16,
    payload: Payload,
    crcValid: bool,
    multiApdu: bool)

  function PayloadBytes(data: seq<byte>, p: Payload): seq<byte>
    requires p.PayloadAt? ==> p.offset + p.length <= |data|
  {
    if p.NoPayload? then [] else data[p.offset..p.offset + p.length]
  }

  function TypeOf(start: byte): FrameType {
    if start == RESPONSE_START then Response
    else if start == FRAME_START then Request
    else Invalid
  }

  // ---------------------------------------------------------------------------
  // What parsing means
  // ---------------------------------------------------------------------------

  function DeclaredTotal(data: seq<byte>): nat
    requires |data| >= 2
  {
    data[1] as int + 4
  }

  /** Start byte known, all declared bytes there, and room for an APDU head. */
  predicate Structured(data: seq<byte>) {
    |data| >= 8 && TypeOf(data[0]) != Invalid && 8 <= DeclaredTotal(data) <= |data|
  }

  function BodyLength(head: byte): nat {
    (head & 0x3F) as int
  }

  /** The end of the first APDU: what its head declares, but never past the checksum. */
  function Apdu1End(frame: seq<byte>): (end: nat)
    requires |frame| >= 8
    ensures 6 <= end <= |frame| - 2
  {
    var declared := 6 + BodyLength(frame[5]);
    if declared < |frame| - 2 then declared else |frame| - 2
  }

  predicate IsRegisterRead(opspec: byte) {
    opspec == OPSPEC_MOTOR_STATE || opspec == OPSPEC_FLOW_PRESSURE ||
    opspec == OPSPEC_TEMPERATURE || opspec == OPSPEC_ALARMS_WARNINGS ||
    opspec == 0x2E || opspec == 0x2D
  }

  // Where the payload of a frame begins, if the frame is long enough to have one.
  function PayloadStart(frame: seq<byte>): (start: nat)
    requires |frame| >= 8
    ensures start >= 6
  {
    if frame[4] != CLASS_10 then 6
    else if IsRegisterRead(frame[5]) then 13
    else 10
  }

  // A window that holds exactly the declared bytes.
  function ParsedWindow(frame: seq<byte>): ParsedFrame
    requires |frame| >= 8
  {
    var start, end := PayloadStart(frame), Apdu1End(frame);
    var hasIds := frame[4] == CLASS_10 && start <= |frame| - 2;
    ParsedFrame(
      true, TypeOf(frame[0]), frame[4], frame[5],
      if hasIds then U16At(frame, 6) else 0,
      if hasIds then U16At(frame, 8) else 0,
      if start < end then PayloadAt(start, end - start) else NoPayload,
      FrameCrcValid(frame),
      end < |frame| - 2)
  }

  function Parsed(data: seq<byte>): ParsedFrame {
    if Structured(data) then ParsedWindow(data[..DeclaredTotal(data)])
    else
      var frameType := if |data| >= 8 then TypeOf(data[0]) else Invalid;
      ParsedFrame(false, frameType, 0, 0, 0, 0, NoPayload, false, false)
  }

  // set_payload: the payload is the part of what follows offset inside APDU 1.
  function SetPayload(apdu1End: nat, offset: nat, naive: nat): Payload {
    if offset >= apdu1End then NoPayload
    else PayloadAt(offset, if naive < apdu1End - offset then naive else apdu1End - offset)
  }

  method CrcMatches(frame: seq<byte>) returns (ok: bool)
    ensures ok == FrameCrcValid(frame)
  {
    if |frame| < 4 {
      return false;
    }
    var calculated := CalcCrc16Read(frame[1..|frame| - 2]);
    ok := calculated == U16At(frame, |frame| - 2);
  }

  /** parse_frame, for any bytes at all. */
  method ParseFrame(data: seq<byte>) returns (result: ParsedFrame)
    ensures result == Parsed(data)
  {
    hide ParsedWindow;
    result := ParsedFrame(false, Invalid, 0, 0, 0, 0, NoPayload, false, false);
    var len := |data|;
    if len < 8 {
      return;
    }
    if data[0] == RESPONSE_START {
      result := result.(frameType := Response);
    } else if data[0] == FRAME_START {
      result := result.(frameType := Request);
    } else {
      return;
    }
    result := result.(valid := true);

    var expectedTotal := data[1] as int + 4;
    if len < expectedTotal {
      result := result.(valid := false);
      return;
    }
    if expectedTotal < 8 {
      result := result.(valid := false);
      return;
    }
    if len > expectedTotal {
      len := expectedTotal;
    }
    result := ParseWindow(data[..len], result);
  }

  // The rest of parse_frame, once len has been clamped to the declared total.
  method ParseWindow(frame: seq<byte>, checked: ParsedFrame) returns (result: ParsedFrame)
    requires |frame| >= 8
    requires checked == ParsedFrame(true, TypeOf(frame[0]), 0, 0, 0, 0, NoPayload, false, false)
    ensures result == ParsedWindow(frame)
  {
    hide FrameCrcValid, U16At, BodyLength, TypeOf;
    var len := |frame|;
    result := checked;
    var crcOk := CrcMatches(frame);
    result := result.(crcValid := crcOk);
    result := result.(classByte := frame[4]);
    result := result.(opspec := frame[5]);

    var apdu1End := 6 + BodyLength(frame[5]);
    var bodyLimit := len - 2;
    if apdu1End > bodyLimit {
      apdu1End := bodyLimit;
    }
    result := result.(multiApdu := apdu1End < bodyLimit);

    if result.classByte == CLASS_10 {
      if IsRegisterRead(result.opspec) {
        if len >= 15 {
          result := result.(payload := SetPayload(apdu1End, 13, len - 15));
          result := result.(subId := U16At(frame, 6), objId := U16At(frame, 8));
        }
      } else if result.opspec == OPSPEC_PASSIVE_NOTIF || result.opspec == OPSPEC_ALARMS_READ {
        if len >= 12 {
          result := result.(subId := U16At(frame, 6), objId := U16At(frame, 8));
          result := result.(payload := SetPayload(apdu1End, 10, len - 12));
        }
      } else {
        if len >= 12 {
          result := result.(subId := U16At(frame, 6), objId := U16At(frame, 8));
          result := result.(payload := SetPayload(apdu1End, 10, len - 12));
        }
      }
    } else {
      result := result.(payload := SetPayload(apdu1End, 6, len - 8));
    }
  }

  // ---------------------------------------------------------------------------
  // On arbitrary input
  // ---------------------------------------------------------------------------

  /** Whatever arrives, a reported payload lies behind the head of APDU 1, inside what
  that head declares, and before the checksum of a window the sender declared. */
  lemma PayloadStaysInside(data: seq<byte>)
    ensures var r := Parsed(data);
            r.payload.PayloadAt? ==>
              && r.valid
              && DeclaredTotal(data) <= |data|
              && 6 <= r.payload.offset
              && 0 < r.payload.length
              && r.payload.offset + r.payload.length <= 6 + BodyLength(r.opspec)
              && r.payload.offset + r.payload.length <= DeclaredTotal(data) - 2
  {}

  /** Bytes behind the declared end never change the result. */
  lemma TrailingBytesIgnored(data: seq<byte>, trailing: seq<byte>)
    requires Structured(data)
    ensures Parsed(data + trailing) == Parsed(data)
  {
    hide ParsedWindow;
    assert (data + trailing)[..DeclaredTotal(data)] == data[..DeclaredTotal(data)];
  }

  /** The parser and the capture scanner accept the same telegrams of at least eight
  bytes: one with its own CRC and its own length test, one with the other's. */
  lemma ParserAgreesWithScanner(frame: seq<byte>)
    ensures CaptureScan.WellFormed(frame) && |frame| >= 8 <==>
            var r := Parsed(frame); r.valid && r.crcValid && |frame| == DeclaredTotal(frame)
  {
    hide FrameCrcValid;
    if |frame| >= 8 && |frame| == DeclaredTotal(frame) {
      assert frame[..DeclaredTotal(frame)] == frame;
    }
  }

  /** A telegram that has not all arrived is never valid, however much of it has. */
  lemma TruncatedIsInvalid(data: seq<byte>, n: nat)
    requires Parsed(data).valid && n < DeclaredTotal(data)
    ensures |data| >= 8 && n < |data| && !Parsed(data[..n]).valid
  {
    hide ParsedWindow;
    assert n >= 2 ==> data[..n][1] == data[1];
  }

  // ---------------------------------------------------------------------------
  // Round trips
  // ---------------------------------------------------------------------------

  lemma LengthByteDecodes(length: nat)
    requires length < 256
    ensures LengthByte(length) as int == length
  {
    IntToByteAndBack(length);
  }

  // Conversions are checked a range at a time.
  lemma Back00(n: nat) requires 0 <= n < 32 ensures (n as byte) as int == n {}
  lemma Back20(n: nat) requires 32 <= n < 64 ensures (n as byte) as int == n {}
  lemma Back40(n: nat) requires 64 <= n < 96 ensures (n as byte) as int == n {}
  lemma Back60(n: nat) requires 96 <= n < 128 ensures (n as byte) as int == n {}
  lemma Back80(n: nat) requires 128 <= n < 160 ensures (n as byte) as int == n {}
  lemma BackA0(n: nat) requires 160 <= n < 192 ensures (n as byte) as int == n {}
  lemma BackC0(n: nat) requires 192 <= n < 224 ensures (n as byte) as int == n {}
  lemma BackE0(n: nat) requires 224 <= n < 256 ensures (n as byte) as int == n {}

  lemma IntToByteAndBack(n: nat)
    requires n < 256
    ensures (n as byte) as int == n
  {
    if n < 32 { Back00(n); } else if n < 64 { Back20(n); }
    else if n < 96 { Back40(n); } else if n < 128 { Back60(n); }
    else if n < 160 { Back80(n); } else if n < 192 { BackA0(n); }
    else if n < 224 { BackC0(n); } else { BackE0(n); }
  }

  lemma SetOpSpecDecodes(bodyLen: nat)
    requires bodyLen < 64
    ensures BodyLength(SetOpSpec(bodyLen)) == bodyLen
    ensures SetOpSpec(bodyLen) & 0xC0 == 0x80
    ensures !IsRegisterRead(SetOpSpec(bodyLen))
  {
    IntToByteAndBack(bodyLen);
    SetBits(bodyLen as byte);
  }

  lemma SetBits(b: byte)
    requires b < 64
    ensures (0x80 | b) & 0x3F == b
    ensures (0x80 | b) & 0xC0 == 0x80
    ensures 0x80 | b >= 0x80
  {}

  /** A head declares a length below 64, whatever its two upper bits acknowledge. */
  lemma HeadDeclares(length: byte, upper: byte)
    requires length < 64 && upper & 0x3F == 0
    ensures BodyLength(length | upper) == length as int
  {
    assert (length | upper) & 0x3F == length;
  }

  // A telegram around an APDU, a request or a response by its start byte.
  function Telegram(start: byte, serviceId: byte, source: byte, apdu: seq<byte>): seq<byte>
    requires |apdu| + 2 <= MAX_PDU_LEN
  {
    Sealed([start, LengthByte(|apdu| + 2), serviceId, source] + apdu)
  }

  /** What is on the wire: the declared length is the length, the checksum matches, and the
  APDU stands between the addresses and the checksum. */
  lemma TelegramOnTheWire(start: byte, serviceId: byte, source: byte, apdu: seq<byte>)
    requires |apdu| + 2 <= MAX_PDU_LEN
    ensures var p := Telegram(start, serviceId, source, apdu);
            && |p| == |apdu| + 6 == DeclaredTotal(p)
            && p[0] == start && p[2] == serviceId && p[3] == source && p[4..|p| - 2] == apdu
            && FrameCrcValid(p)
  {
    hide FrameCrcValid, CrcRead, Hi, Lo;
    LengthByteDecodes(|apdu| + 2);
    SealedIsValid([start, LengthByte(|apdu| + 2), serviceId, source] + apdu);
  }

  lemma BuiltPacket(serviceId: byte, source: byte, apdu: seq<byte>)
    requires |apdu| + 2 <= MAX_PDU_LEN
    ensures var p := GeniPacket(serviceId, source, apdu);
            && p == Telegram(FRAME_START, serviceId, source, apdu)
            && |p| == |apdu| + 6 == DeclaredTotal(p)
            && p[0] == 0x27 && p[2] == serviceId && p[3] == source && p[4..|p| - 2] == apdu
            && FrameCrcValid(p)
  {
    TelegramOnTheWire(FRAME_START, serviceId, source, apdu);
  }

  // A part of the APDU, found again in the telegram and in the buffer holding it.
  lemma ApduSlice(p: seq<byte>, trailing: seq<byte>, apdu: seq<byte>, from: nat, to: nat)
    requires |p| == |apdu| + 6 && p[4..|p| - 2] == apdu && from <= to <= |apdu|
    ensures p[4 + from..4 + to] == apdu[from..to]
    ensures (p + trailing)[4 + from..4 + to] == apdu[from..to]
  {
    var x := apdu[from..to];
    forall k | 0 <= k < to - from
      ensures x[k] == p[4 + from + k] == (p + trailing)[4 + from + k]
    {
      assert x[k] == apdu[from + k] == p[4..|p| - 2][from + k];
    }
  }

  /** Parsing a telegram, whatever follows it in the buffer: it is recognised exactly when
  its start byte is known and its APDU has a head, and then its checksum matches. */
  lemma TelegramIsRecognised(start: byte, serviceId: byte, source: byte, apdu: seq<byte>, trailing: seq<byte>)
    requires |apdu| + 2 <= MAX_PDU_LEN
    ensures var p := Telegram(start, serviceId, source, apdu);
            var r := Parsed(p + trailing);
            && (r.valid <==> |apdu| >= 2 && (start == 0x24 || start == 0x27))
            && (r.valid ==> r == ParsedWindow(p) && r.crcValid &&
                            r.frameType == if start == 0x24 then Response else Request)
  {
    hide FrameCrcValid, Telegram;
    var p := Telegram(start, serviceId, source, apdu);
    TelegramOnTheWire(start, serviceId, source, apdu);
    assert p[..|p|] == p;
    if |apdu| >= 2 && (start == 0x24 || start == 0x27) {
      TrailingBytesIgnored(p, trailing);
    }
  }

  lemma BuiltIsRecognised(serviceId: byte, source: byte, apdu: seq<byte>, trailing: seq<byte>)
    requires |apdu| + 2 <= MAX_PDU_LEN
    ensures var r := Parsed(GeniPacket(serviceId, source, apdu) + trailing);
            && (r.valid <==> |apdu| >= 2)
            && (r.valid ==> r == ParsedWindow(GeniPacket(serviceId, source, apdu)) && r.crcValid)
  {
    hide FrameCrcValid, GeniPacket, Telegram, ParsedWindow;
    BuiltPacket(serviceId, source, apdu);
    TelegramIsRecognised(FRAME_START, serviceId, source, apdu, trailing);
  }

  // The class and the head where the parser looks for them, and the end of the APDU.
  lemma HeadOnTheWire(p: seq<byte>, apdu: seq<byte>)
    requires 2 <= |apdu| && |p| == |apdu| + 6 && p[4..|p| - 2] == apdu
    ensures p[4] == apdu[0] && p[5] == apdu[1]
    ensures Apdu1End(p) == 4 + Numbers.Min(2 + BodyLength(apdu[1]), |apdu|)
  {
    hide BodyLength;
    assert p[4] == p[4..|p| - 2][0] && p[5] == p[4..|p| - 2][1];
  }

  /** A telegram outside Class 10, request or response, comes back with its class, its head
  and exactly the body its head declares, cut short only by the end of the APDU itself. */
  lemma GenericReadsBack(start: byte, serviceId: byte, source: byte, apdu: seq<byte>, trailing: seq<byte>)
    requires start == 0x24 || start == 0x27
    requires 2 <= |apdu| && |apdu| + 2 <= MAX_PDU_LEN && apdu[0] != CLASS_10
    ensures var data := Telegram(start, serviceId, source, apdu) + trailing;
            var r := Parsed(data);
            var bodyEnd := Numbers.Min(2 + BodyLength(apdu[1]), |apdu|);
            && r.valid && r.crcValid && r.frameType == (if start == 0x24 then Response else Request)
            && r.classByte == apdu[0] && r.opspec == apdu[1] && r.subId == 0 && r.objId == 0
            && (r.payload.PayloadAt? ==> r.payload.offset + r.payload.length <= |data|)
            && PayloadBytes(data, r.payload) == apdu[2..bodyEnd]
            && (r.multiApdu <==> bodyEnd < |apdu|)
  {
    hide FrameCrcValid, Telegram, BodyLength, U16At;
    var p := Telegram(start, serviceId, source, apdu);
    TelegramOnTheWire(start, serviceId, source, apdu);
    TelegramIsRecognised(start, serviceId, source, apdu, trailing);
    HeadOnTheWire(p, apdu);
    hide Apdu1End;
    ApduSlice(p, trailing, apdu, 2, Numbers.Min(2 + BodyLength(apdu[1]), |apdu|));
  }

  /** So does what build_geni_packet writes. */
  lemma GenericRoundTrip(serviceId: byte, source: byte, apdu: seq<byte>, trailing: seq<byte>)
    requires 2 <= |apdu| && |apdu| + 2 <= MAX_PDU_LEN && apdu[0] != CLASS_10
    ensures var data := GeniPacket(serviceId, source, apdu) + trailing;
            var r := Parsed(data);
            var bodyEnd := Numbers.Min(2 + BodyLength(apdu[1]), |apdu|);
            && data[0] == 0x27 && data[2] == serviceId && data[3] == source
            && r.valid && r.crcValid && r.frameType == Request
            && r.classByte == apdu[0] && r.opspec == apdu[1]
            && (r.payload.PayloadAt? ==> r.payload.offset + r.payload.length <= |data|)
            && PayloadBytes(data, r.payload) == apdu[2..bodyEnd]
            && (r.multiApdu <==> bodyEnd < |apdu|)
  {
    hide FrameCrcValid, GeniPacket, Telegram, BodyLength, Parsed;
    BuiltPacket(serviceId, source, apdu);
    GenericReadsBack(FRAME_START, serviceId, source, apdu, trailing);
  }

  // ---------------------------------------------------------------------------
  // Class 10
  // ---------------------------------------------------------------------------

  // The heads that answer a register read. Three more bytes, two reserved and a length,
  // stand behind their ids.
  const REGISTER_READS: set<byte> := {0x30, 0x2B, 0x14, 0x09, 0x2E, 0x2D}

  function IdsEnd(op: byte): nat {
    if op in REGISTER_READS then 9 else 6
  }

  // A Class 10 APDU: its head, two ids, whatever stands before its data, and its data.
  function Class10Apdu(op: byte, subId: bv16, objId: bv16, gap: seq<byte>, data: seq<byte>): seq<byte> {
    [CLASS_10, op] + U16Bytes(subId) + U16Bytes(objId) + gap + data
  }

  lemma Class10Parts(op: byte, subId: bv16, objId: bv16, gap: seq<byte>, data: seq<byte>)
    ensures var apdu := Class10Apdu(op, subId, objId, gap, data);
            && |apdu| == 6 + |gap| + |data| && apdu[0] == CLASS_10 && apdu[1] == op
            && apdu[2..4] == U16Bytes(subId) && apdu[4..6] == U16Bytes(objId) && apdu[6 + |gap|..] == data
  {
    hide Hi, Lo;
  }

  lemma RegisterReadHeads(op: byte)
    ensures IsRegisterRead(op) <==> op in REGISTER_READS
  {}

  lemma IdsOnTheWire(p: seq<byte>, apdu: seq<byte>, subId: bv16, objId: bv16)
    requires |apdu| >= 6 && |p| == |apdu| + 6 && p[4..|p| - 2] == apdu
    requires apdu[2..4] == U16Bytes(subId) && apdu[4..6] == U16Bytes(objId)
    ensures U16At(p, 6) == subId && U16At(p, 8) == objId
  {
    hide U16At, U16Bytes;
    ApduSlice(p, [], apdu, 2, 4);
    ApduSlice(p, [], apdu, 4, 6);
    U16RoundTrip(p, 6, subId);
    U16RoundTrip(p, 8, objId);
  }

  // What the parser makes of the window of such a telegram.
  lemma Class10Window(p: seq<byte>, op: byte, subId: bv16, objId: bv16, gap: seq<byte>, data: seq<byte>)
    requires var apdu := Class10Apdu(op, subId, objId, gap, data);
             |p| == |apdu| + 6 && p[4..|p| - 2] == apdu
    requires |gap| == IdsEnd(op) - 6
    ensures var r, end := ParsedWindow(p), Numbers.Min(2 + BodyLength(op), 6 + |gap| + |data|);
            && r.classByte == CLASS_10 && r.opspec == op && r.subId == subId && r.objId == objId
            && r.payload == (if 6 + |gap| < end then PayloadAt(10 + |gap|, end - 6 - |gap|) else NoPayload)
            && (r.multiApdu <==> end < 6 + |gap| + |data|)
  {
    hide FrameCrcValid, BodyLength, U16At, IsRegisterRead, Class10Apdu, TypeOf;
    Class10Parts(op, subId, objId, gap, data);
    var apdu := Class10Apdu(op, subId, objId, gap, data);
    HeadOnTheWire(p, apdu);
    IdsOnTheWire(p, apdu, subId, objId);
    RegisterReadHeads(op);
    hide Apdu1End;
  }

  /** A Class 10 telegram, request or response, comes back with its head and its two ids, and
  with the data behind them: behind three bytes more for the answers to register reads, in
  which the telemetry arrives. Of the data it is what the head's length covers. */
  lemma Class10ReadsBack(start: byte, serviceId: byte, source: byte, op: byte, subId: bv16, objId: bv16,
                         gap: seq<byte>, data: seq<byte>, trailing: seq<byte>)
    requires start == 0x24 || start == 0x27
    requires |gap| == IdsEnd(op) - 6 && |data| + IdsEnd(op) + 2 <= MAX_PDU_LEN
    ensures |Class10Apdu(op, subId, objId, gap, data)| == IdsEnd(op) + |data|
    ensures var wire := Telegram(start, serviceId, source, Class10Apdu(op, subId, objId, gap, data)) + trailing;
            var r := Parsed(wire);
            var covered := if BodyLength(op) + 2 < IdsEnd(op) then 0
                           else Numbers.Min(BodyLength(op) + 2 - IdsEnd(op), |data|);
            && r.valid && r.crcValid && r.frameType == (if start == 0x24 then Response else Request)
            && r.classByte == CLASS_10 && r.opspec == op && r.subId == subId && r.objId == objId
            && (r.payload.PayloadAt? ==> r.payload.offset + r.payload.length <= |wire|)
            && PayloadBytes(wire, r.payload) == data[..covered]
            && (r.multiApdu <==> BodyLength(op) + 2 < IdsEnd(op) + |data|)
  {
    hide FrameCrcValid, BodyLength, U16At, Class10Apdu, Telegram, ParsedWindow, Parsed, IdsEnd;
    var apdu := Class10Apdu(op, subId, objId, gap, data);
    Class10Parts(op, subId, objId, gap, data);
    var p := Telegram(start, serviceId, source, apdu);
    TelegramOnTheWire(start, serviceId, source, apdu);
    TelegramIsRecognised(start, serviceId, source, apdu, trailing);
    Class10Window(p, op, subId, objId, gap, data);
    var end := Numbers.Min(2 + BodyLength(op), |apdu|);
    if 6 + |gap| < end {
      ApduSlice(p, trailing, apdu, 6 + |gap|, end);
      assert apdu[6 + |gap|..end] == apdu[6 + |gap|..][..end - 6 - |gap|];
    }
  }

  /** A Class 10 telegram too short for its ids has none, and no data either. */
  lemma ShortClass10(start: byte, serviceId: byte, source: byte, apdu: seq<byte>, trailing: seq<byte>)
    requires start == 0x24 || start == 0x27
    requires 2 <= |apdu| && apdu[0] == CLASS_10 && |apdu| < IdsEnd(apdu[1])
    ensures var r := Parsed(Telegram(start, serviceId, source, apdu) + trailing);
            r.valid && r.crcValid && r.subId == 0 && r.objId == 0 && r.payload == NoPayload
  {
    hide FrameCrcValid, BodyLength, U16At, IsRegisterRead, Telegram, Parsed, TypeOf;
    var p := Telegram(start, serviceId, source, apdu);
    TelegramOnTheWire(start, serviceId, source, apdu);
    TelegramIsRecognised(start, serviceId, source, apdu, trailing);
    HeadOnTheWire(p, apdu);
    RegisterReadHeads(apdu[1]);
    hide Apdu1End;
  }

  // The pieces of a SET telegram, where the parser looks for them.
  lemma SetOnTheWire(subId: bv16, objId: bv16, data: seq<byte>, source: byte, trailing: seq<byte>)
    requires |data| <= MAX_SET_DATA
    ensures var p := GeniPacket(SERVICE_ID_HIGH, source, SetApdu(subId, objId, data));
            && |p| == |data| + 12 && p[0] == 0x27 && p[2] == 0xE7 && p[3] == source && p[4] == CLASS_10
            && p[5] == SetOpSpec(4 + |data|)
            && U16At(p, 6) == subId && U16At(p, 8) == objId
            && (p + trailing)[10..10 + |data|] == data
  {
    hide FrameCrcValid, GeniPacket, U16At, SetApdu, SetOpSpec, Hi, Lo;
    var apdu := SetApdu(subId, objId, data);
    SetApduParts(subId, objId, data);
    var p := GeniPacket(SERVICE_ID_HIGH, source, apdu);
    BuiltPacket(SERVICE_ID_HIGH, source, apdu);
    assert p[4] == p[4..|p| - 2][0] && p[5] == p[4..|p| - 2][1];
    ApduSlice(p, trailing, apdu, 2, 4);
    ApduSlice(p, trailing, apdu, 4, 6);
    ApduSlice(p, trailing, apdu, 6, |apdu|);
    U16RoundTrip(p, 6, subId);
    U16RoundTrip(p, 8, objId);
  }

  /** A Class 10 SET comes back with its ids and its data, byte for byte. */
  lemma SetRoundTrip(subId: bv16, objId: bv16, data: seq<byte>, source: byte, trailing: seq<byte>)
    requires |data| <= MAX_SET_DATA
    ensures var wire := GeniPacket(SERVICE_ID_HIGH, source, SetApdu(subId, objId, data)) + trailing;
            var r := Parsed(wire);
            && wire[0] == 0x27 && wire[2] == 0xE7 && wire[3] == source
            && r.valid && r.crcValid && r.frameType == Request
            && r.classByte == 0x0A && r.opspec & 0xC0 == 0x80 && BodyLength(r.opspec) == 4 + |data|
            && r.subId == subId && r.objId == objId
            && (r.payload.PayloadAt? ==> r.payload.offset + r.payload.length <= |wire|)
            && PayloadBytes(wire, r.payload) == data
            && !r.multiApdu
  {
    hide FrameCrcValid, GeniPacket, BodyLength, U16At, SetApdu, SetOpSpec, IsRegisterRead, Parsed;
    SetApduParts(subId, objId, data);
    SetOnTheWire(subId, objId, data, source, trailing);
    BuiltIsRecognised(SERVICE_ID_HIGH, source, SetApdu(subId, objId, data), trailing);
    SetOpSpecDecodes(4 + |data|);
  }

  lemma SetApduParts(subId: bv16, objId: bv16, data: seq<byte>)
    requires |data| <= MAX_SET_DATA
    ensures var apdu := SetApdu(subId, objId, data);
            && |apdu| == |data| + 6
            && apdu[0] == CLASS_10 && apdu[1] == SetOpSpec(4 + |data|)
            && apdu[2..4] == U16Bytes(subId) && apdu[4..6] == U16Bytes(objId) && apdu[6..] == data
  {
    hide SetOpSpec, Hi, Lo;
  }
}
