/** The telegram builders of components/alpha_hwr/frame_builder.cpp: they write into a
buffer the caller owns and return how many bytes they wrote, or 0 for a refusal.

    [Start] [Length] [Destination] [Source] [APDU ...] [CRC-H] [CRC-L]
*/
module FrameBuilder {
  import opened Crc
  import opened FrameCheck

  const FRAME_START: byte := 0x27
  const SERVICE_ID_HIGH: byte := 0xE7
  const CLASS_10: byte := 0x0A
  const MAX_TELEGRAM_LEN := 259
  const MAX_PDU_LEN := 253

  // Behind a payload of more than 59 bytes the length no longer fits the six low
  // bits of the OpSpec.
  const MAX_SET_DATA := 59

  // A telegram body with its checksum appended.
  function Sealed(body: seq<byte>): seq<byte>
    requires |body| > 0
  {
    body + U16Bytes(CrcRead(body[1..]))
  }

  function LengthByte(length: nat): byte
    requires length <= 255
  {
    length as byte
  }

  function GeniPacket(serviceId: byte, source: byte, apdu: seq<byte>): seq<byte>
    requires |apdu| + 2 <= MAX_PDU_LEN
  {
    Sealed([FRAME_START, LengthByte(|apdu| + 2), serviceId, source] + apdu)
  }

  // The head byte of a SET: operation 0b10 over the length of what follows it.
  function SetOpSpec(bodyLen: nat): byte
    requires bodyLen < 64
  {
    0x80 | (bodyLen as byte)
  }

  function SetApdu(subId: bv16, objId: bv16, data: seq<byte>): seq<byte>
    requires |data| <= MAX_SET_DATA
  {
    [CLASS_10, SetOpSpec(4 + |data|), Hi(subId), Lo(subId), Hi(objId), Lo(objId)] + data
  }

  // The four bytes in front of the APDU.
  method WriteAddress(length: byte, destination: byte, source: byte, packetOut: array<byte>)
    requires packetOut.Length >= 4
    modifies packetOut
    ensures packetOut[..4] == [FRAME_START, length, destination, source]
    ensures packetOut[4..] == old(packetOut[4..])
  {
    packetOut[0] := FRAME_START;
    packetOut[1] := length;
    packetOut[2] := destination;
    packetOut[3] := source;
  }

  // A window over and over.
  function Repeated(window: seq<byte>, n: nat): (s: seq<byte>)
    requires |window| > 0
    ensures |s| == n
  {
    seq(n, i requires 0 <= i < n => window[i % |window|])
  }

  // What the copy loop brings from one position to another. Reading its own target, and
  // from further down, it soon reads what it has written.
  function Copied(own: bool, source: seq<byte>, from: nat, at: nat, n: nat): (s: seq<byte>)
    requires from + n <= |source| && (own ==> at <= |source|)
    ensures |s| == n
  {
    if own && from < at then Repeated(source[from..at], n) else source[from..from + n]
  }

  lemma RepeatedAt(window: seq<byte>, n: nat, i: nat)
    requires |window| > 0 && i < n
    ensures Repeated(window, n)[i] == if i < |window| then window[i] else Repeated(window, n)[i - |window|]
  {
    if i >= |window| {
      OnePeriodBack(i, |window|);
    }
  }

  lemma OnePeriodBack(i: nat, period: nat)
    requires 0 < period <= i
    ensures i % period == (i - period) % period
  {
    var q, r := (i - period) / period, (i - period) % period;
    assert i == (q + 1) * period + r;
    QuotientIs(i, period, q + 1, r);
  }

  lemma QuotientIs(i: nat, period: nat, q: nat, r: nat)
    requires period > 0 && i == q * period + r && r < period
    ensures i % period == r
  {
    var d := i / period - q;
    assert i == i / period * period + i % period;
    assert d * period == r - i % period;
    OnePeriodAtLeast(d, period);
  }

  lemma OnePeriodAtLeast(d: int, period: int)
    requires period > 0
    ensures d >= 1 ==> d * period >= period
    ensures d <= -1 ==> d * period <= -period
  {}

  // The copy loop both builders share.
  method CopyInto(packetOut: array<byte>, at: nat, data: array<byte>, from: nat, n: nat)
    requires at + n <= packetOut.Length && from + n <= data.Length
    modifies packetOut
    ensures packetOut[..at] == old(packetOut[..at])
    ensures packetOut[at..at + n] == Copied(data == packetOut, old(data[..]), from, at, n)
    ensures packetOut[at + n..] == old(packetOut[at + n..])
  {
    hide Repeated;
    ghost var before, source := packetOut[..], data[..];
    ghost var want := Copied(data == packetOut, source, from, at, n);
    for i := 0 to n
      invariant forall k :: 0 <= k < at ==> packetOut[k] == before[k]
      invariant forall k :: 0 <= k < i ==> packetOut[at + k] == want[k]
      invariant forall k :: at + i <= k < packetOut.Length ==> packetOut[k] == before[k]
      invariant data != packetOut ==> data[..] == source
    {
      if data == packetOut && from < at {
        RepeatedAt(source[from..at], n, i);
        assert i >= at - from ==> packetOut[at + (i - (at - from))] == want[i - (at - from)];
      } else {
        assert data[from + i] == source[from + i] == want[i];
      }
      packetOut[at + i] := data[from + i];
    }
  }

  // The closing lines both builders share: checksum over everything after the start
  // byte, high byte first.
  method AppendCrc(packetOut: array<byte>, length: nat) returns (written: nat)
    requires packetOut.Length >= length + 4
    modifies packetOut
    ensures written == length + 4
    ensures packetOut[..written] == Sealed(old(packetOut[..length + 2]))
    ensures packetOut[written..] == old(packetOut[written..])
  {
    var crcDataLen := 1 + length;
    var crc := CalcCrc16Read(packetOut[1..1 + crcDataLen]);
    ghost var body := packetOut[..length + 2];
    assert body[1..] == packetOut[1..1 + crcDataLen];
    var crcOffset := 1 + crcDataLen;
    packetOut[crcOffset] := Hi(crc);
    packetOut[crcOffset + 1] := Lo(crc);
    written := crcOffset + 2;
    assert packetOut[..written] == body + [Hi(crc), Lo(crc)];
  }

  // The bytes of an APDU or payload as the copy loop finds them, behind the head that the
  // builder has just written.
  function Handed(own: bool, head: seq<byte>, source: seq<byte>, from: nat, n: nat): (s: seq<byte>)
    requires from + n <= |source| && (own ==> |head| <= |source|)
    ensures |s| == n
  {
    Copied(own, if own then head + source[|head|..] else source, from, |head|, n)
  }

  /** build_geni_packet. The buffer must hold what an accepted APDU needs; nothing
  beyond the telegram is touched, and a refusal touches nothing. The APDU may lie anywhere
  in the buffer itself: at or behind its place it arrives as it was, and before it, the
  head and what follows it are repeated. */
  method BuildGeniPacket(serviceId: byte, source: byte, apdu: array?<byte>, from: nat, apduLen: nat,
                         packetOut: array<byte>)
    returns (written: nat)
    requires 0 < apduLen <= MAX_PDU_LEN - 2 ==> apdu != null && from + apduLen <= apdu.Length
    requires apduLen <= MAX_PDU_LEN - 2 ==> packetOut.Length >= apduLen + 6
    modifies packetOut
    ensures apduLen > 251 ==> written == 0 && packetOut[..] == old(packetOut[..])
    ensures apduLen <= 251 ==>
              var head := [FRAME_START, LengthByte(apduLen + 2), serviceId, source];
              var taken := if apduLen == 0 then [] else Handed(apdu == packetOut, head, old(apdu[..]), from, apduLen);
              && written == apduLen + 6 <= 257
              && packetOut[..written] == GeniPacket(serviceId, source, taken)
              && packetOut[written..] == old(packetOut[written..])
  {
    hide Copied, Sealed;
    var length := 1 + 1 + apduLen;
    if length > MAX_PDU_LEN {
      return 0;
    }
    WriteAddress(LengthByte(length), serviceId, source, packetOut);
    ghost var head := packetOut[..4];
    ghost var rest := packetOut[4..];
    if apduLen > 0 {
      assert apdu == packetOut ==> packetOut[..] == head + old(apdu[..])[4..];
      CopyInto(packetOut, 4, apdu, from, apduLen);
      assert packetOut[4 + apduLen..] == rest[apduLen..];
    }
    assert packetOut[..length + 2] == head + packetOut[4..4 + apduLen];
    written := AppendCrc(packetOut, length);
    assert packetOut[written..] == rest[apduLen + 2..] == old(packetOut[written..]);
  }

  // The ten bytes in front of a SET's payload.
  function SetHead(subId: bv16, objId: bv16, source: byte, dataLen: nat): seq<byte>
    requires dataLen <= MAX_SET_DATA
  {
    [FRAME_START, LengthByte(dataLen + 8), SERVICE_ID_HIGH, source,
     CLASS_10, SetOpSpec(4 + dataLen), Hi(subId), Lo(subId), Hi(objId), Lo(objId)]
  }

  // Class, head byte and the two ids, behind the four address bytes.
  method WriteSetApduHead(subId: bv16, objId: bv16, dataLen: nat, packetOut: array<byte>)
    requires dataLen <= MAX_SET_DATA && packetOut.Length >= 10
    modifies packetOut
    ensures packetOut[..4] == old(packetOut[..4])
    ensures packetOut[4..10] == [CLASS_10, SetOpSpec(4 + dataLen), Hi(subId), Lo(subId), Hi(objId), Lo(objId)]
    ensures packetOut[10..] == old(packetOut[10..])
  {
    hide SetOpSpec, Hi, Lo;
    packetOut[4] := CLASS_10;
    packetOut[5] := SetOpSpec(4 + dataLen);
    packetOut[6] := Hi(subId);
    packetOut[7] := Lo(subId);
    packetOut[8] := Hi(objId);
    packetOut[9] := Lo(objId);
  }

  /** build_data_object_set. A null data pointer with a nonzero length leaves the
  buffer's own bytes standing where the payload would be; a payload that lies in the buffer
  itself is read behind the head already written there. */
  method BuildDataObjectSet(subId: bv16, objId: bv16, data: array?<byte>, from: nat, dataLen: nat,
                            packetOut: array<byte>, source: byte)
    returns (written: nat)
    requires data != null && 0 < dataLen <= MAX_SET_DATA ==> from + dataLen <= data.Length
    requires dataLen <= MAX_SET_DATA ==> packetOut.Length >= dataLen + 12
    modifies packetOut
    ensures dataLen > 59 ==> written == 0 && packetOut[..] == old(packetOut[..])
    ensures dataLen <= 59 ==>
              var head := SetHead(subId, objId, source, dataLen);
              var payload := if data == null || dataLen == 0 then old(packetOut[10..10 + dataLen])
                             else Handed(data == packetOut, head, old(data[..]), from, dataLen);
              && written == dataLen + 12 <= MAX_TELEGRAM_LEN
              && packetOut[..written] == GeniPacket(SERVICE_ID_HIGH, source, SetApdu(subId, objId, payload))
              && packetOut[written..] == old(packetOut[written..])
  {
    hide SetApdu, Sealed, Copied;
    var length := 1 + 1 + 1 + 1 + 2 + 2 + dataLen;
    if dataLen > MAX_SET_DATA {
      return 0;
    }
    WriteSetHead(subId, objId, dataLen, packetOut, source);
    hide SetHead;
    ghost var head := packetOut[..10];
    ghost var rest := packetOut[10..];
    if data != null && dataLen > 0 {
      assert data == packetOut ==> packetOut[..] == head + old(data[..])[10..];
      CopyInto(packetOut, 10, data, from, dataLen);
      assert packetOut[10 + dataLen..] == rest[dataLen..];
    } else {
      assert packetOut[10..10 + dataLen] == rest[..dataLen] == old(packetOut[10..10 + dataLen]);
    }
    ghost var payload := packetOut[10..10 + dataLen];
    assert packetOut[..length + 2] == head + payload && packetOut[10 + dataLen..] == rest[dataLen..];
    SetHeadAndPayload(subId, objId, source, payload);
    hide GeniPacket;
    written := AppendCrc(packetOut, length);
    assert packetOut[written..] == rest[dataLen + 2..];
    assert packetOut[written..] == old(packetOut[10..])[dataLen + 2..] == old(packetOut[written..]);
  }

  // The ten bytes in front of the payload, and nothing else.
  method WriteSetHead(subId: bv16, objId: bv16, dataLen: nat, packetOut: array<byte>, source: byte)
    requires dataLen <= MAX_SET_DATA && packetOut.Length >= dataLen + 12
    modifies packetOut
    ensures packetOut[..10] == SetHead(subId, objId, source, dataLen)
    ensures packetOut[10..] == old(packetOut[10..])
  {
    hide SetHead;
    WriteAddress(LengthByte(dataLen + 8), SERVICE_ID_HIGH, source, packetOut);
    WriteSetApduHead(subId, objId, dataLen, packetOut);
    SetHeadParts(subId, objId, source, dataLen, packetOut[..10]);
    assert packetOut[10..] == old(packetOut[4..])[6..] == old(packetOut[10..]);
  }

  lemma SetHeadParts(subId: bv16, objId: bv16, source: byte, dataLen: nat, written: seq<byte>)
    requires dataLen <= MAX_SET_DATA && |written| == 10
    requires written[..4] == [FRAME_START, LengthByte(dataLen + 8), SERVICE_ID_HIGH, source]
    requires written[4..] == [CLASS_10, SetOpSpec(4 + dataLen), Hi(subId), Lo(subId), Hi(objId), Lo(objId)]
    ensures written == SetHead(subId, objId, source, dataLen)
  {
    hide LengthByte, SetOpSpec, Hi, Lo;
    assert written == written[..4] + written[4..];
  }

  lemma SetHeadAndPayload(subId: bv16, objId: bv16, source: byte, payload: seq<byte>)
    requires |payload| <= MAX_SET_DATA
    ensures GeniPacket(SERVICE_ID_HIGH, source, SetApdu(subId, objId, payload))
         == Sealed(SetHead(subId, objId, source, |payload|) + payload)
  {
    hide LengthByte, SetOpSpec, Hi, Lo, CrcRead;
    var head4 := [FRAME_START, LengthByte(|payload| + 8), SERVICE_ID_HIGH, source];
    var head6 := [CLASS_10, SetOpSpec(4 + |payload|), Hi(subId), Lo(subId), Hi(objId), Lo(objId)];
    assert SetHead(subId, objId, source, |payload|) == head4 + head6;
    assert head4 + (head6 + payload) == (head4 + head6) + payload;
  }

  /** Whatever is built is a telegram a receiver accepts, checksum included. */
  lemma SealedIsValid(body: seq<byte>)
    requires |body| >= 2
    ensures FrameCrcValid(Sealed(body))
  {
    var frame := Sealed(body);
    assert frame[1..|frame| - 2] == body[1..];
    U16RoundTrip(frame, |frame| - 2, CrcRead(body[1..]));
    assert frame[|frame| - 2..|frame|] == U16Bytes(CrcRead(body[1..]));
  }

  /** What a builder takes when it is handed its own buffer, byte by byte: from its place or
  behind it, the byte that stood there; from ahead of it, the end of the head again and
  again; and from any other buffer, that buffer's bytes. */
  lemma HandedByPosition(own: bool, head: seq<byte>, source: seq<byte>, from: nat, n: nat, i: nat)
    requires i < n && from + n <= |source| && (own ==> |head| <= |source|)
    ensures Handed(own, head, source, from, n)[i] ==
            if own && from < |head| then head[from + i % (|head| - from)] else source[from + i]
  {}
}
