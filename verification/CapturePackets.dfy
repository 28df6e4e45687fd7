/** From ACL records to attribute payloads (tools/geni_capture_scan.py:148-180, 203-229):
what att_streams and timed_frames do alike before either looks for a frame.

An L2CAP packet travels in one record or in several, on many links at once. The records
of a link are put together until the packet's own length is there; a packet on the
attribute channel with one of four opcodes then hands on its value.
*/
module CapturePackets {
  import opened Crc
  import opened Numbers
  import opened Text

  // One ACL packet of the capture, its time in microseconds.
  datatype Record = Record(recv: bool, ts: int, data: seq<Crc.byte>)

  // A connection, in one direction.
  datatype Link = Link(connection: nat, recv: bool)

  // A stream of one link: an attribute handle.
  datatype StreamKey = StreamKey(connection: nat, attHandle: nat, recv: bool)

  // One attribute value, with the time of the record that completed it.
  datatype Fragment = Fragment(ts: int, key: StreamKey, data: seq<Crc.byte>)

  type Partial = map<Link, seq<Crc.byte>>

  const ATT_CHANNEL := 0x0004

  function Value(b: Crc.byte): nat {
    b as int
  }

  // Two bytes, the low one first.
  function LittleAt(data: seq<Crc.byte>, i: nat): nat
    requires i + 2 <= |data|
  {
    Value(data[i]) + 0x100 * Value(data[i + 1])
  }

  // Write request, write command, notification, indication.
  predicate CarriesValue(opcode: Crc.byte) {
    opcode == 0x12 || opcode == 0x52 || opcode == 0x1B || opcode == 0x1D
  }

  // ---------------------------------------------------------------------------
  // One record
  // ---------------------------------------------------------------------------

  function LinkOf(r: Record): Link
    requires |r.data| >= 4
  {
    Link(LittleAt(r.data, 0) % 0x1000, r.recv)
  }

  // 0 and 2 begin a packet, 1 continues one.
  function Boundary(r: Record): nat
    requires |r.data| >= 4
  {
    LittleAt(r.data, 0) / 0x1000 % 4
  }

  function Payload(r: Record): seq<Crc.byte>
    requires |r.data| >= 4
  {
    r.data[4..Min(4 + LittleAt(r.data, 2), |r.data|)]
  }

  predicate IsWhole(buf: seq<Crc.byte>) {
    |buf| >= 4 && |buf| >= 4 + LittleAt(buf, 0)
  }

  // The value in a whole packet, if it is one of those looked for.
  function ValueIn(ts: int, link: Link, buf: seq<Crc.byte>): seq<Fragment>
    requires IsWhole(buf)
  {
    var pdu := buf[4..4 + LittleAt(buf, 0)];
    if LittleAt(buf, 2) != ATT_CHANNEL || |pdu| < 3 || !CarriesValue(pdu[0]) then []
    else [Fragment(ts, StreamKey(link.connection, LittleAt(pdu, 1), link.recv), pdu[3..])]
  }

  function Begun(partial: Partial, link: Link): seq<Crc.byte> {
    if link in partial then partial[link] else []
  }

  // What has arrived, and what it has given.
  datatype Packets = Packets(partial: Partial, out: seq<Fragment>)

  function Gather(p: Packets, ts: int, link: Link, buf: seq<Crc.byte>): Packets {
    if IsWhole(buf) then Packets(p.partial - {link}, p.out + ValueIn(ts, link, buf))
    else p.(partial := p.partial[link := buf])
  }

  function Take(p: Packets, r: Record): Packets {
    if |r.data| < 4 || Boundary(r) == 3 then p
    else
      var link := LinkOf(r);
      Gather(p, r.ts, link, (if Boundary(r) == 1 then Begun(p.partial, link) else []) + Payload(r))
  }

  function TakeAll(p: Packets, rs: seq<Record>): Packets {
    if rs == [] then p else Take(TakeAll(p, rs[..|rs| - 1]), rs[|rs| - 1])
  }

  const NOTHING := Packets(map[], [])

  // The values of a capture, each when its packet was complete.
  function ValuesOf(rs: seq<Record>): seq<Fragment> {
    TakeAll(NOTHING, rs).out
  }

  /** The part of the record loop that both readers of a capture begin with. */
  method TakeRecord(partial: Partial, r: Record) returns (later: Partial, value: Option<Fragment>)
    ensures forall out :: Take(Packets(partial, out), r) ==
                          Packets(later, out + if value.Some? then [value.value] else [])
  {
    hide LittleAt;
    later, value := partial, None;
    if |r.data| < 4 {
      return;
    }
    var pb := Boundary(r);
    var link := LinkOf(r);
    var payload := Payload(r);
    if pb == 2 || pb == 0 {
      assert [] + payload == payload;
      later := later[link := payload];
    } else if pb == 1 {
      later := later[link := Begun(later, link) + payload];
    } else {
      assert pb == 3;
      return;
    }
    var buf := later[link];
    if |buf| < 4 || |buf| < 4 + LittleAt(buf, 0) {
      return;
    }
    assert partial[link := buf] - {link} == partial - {link};
    later := later - {link};
    var pdu := buf[4..4 + LittleAt(buf, 0)];
    if LittleAt(buf, 2) != ATT_CHANNEL || |pdu| < 3 || !CarriesValue(pdu[0]) {
      return;
    }
    value := Some(Fragment(r.ts, StreamKey(link.connection, LittleAt(pdu, 1), r.recv), pdu[3..]));
  }

  // ---------------------------------------------------------------------------
  // Links do not mix
  // ---------------------------------------------------------------------------

  // One link's records.
  function RecordsOn(rs: seq<Record>, link: Link): seq<Record> {
    if rs == [] then []
    else
      var init, r := RecordsOn(rs[..|rs| - 1], link), rs[|rs| - 1];
      if |r.data| >= 4 && LinkOf(r) == link then init + [r] else init
  }

  predicate ComesFrom(f: Fragment, link: Link) {
    f.key.connection == link.connection && f.key.recv == link.recv
  }

  // ... and values.
  function ValuesOn(fs: seq<Fragment>, link: Link): seq<Fragment> {
    if fs == [] then []
    else
      var init, f := ValuesOn(fs[..|fs| - 1], link), fs[|fs| - 1];
      if ComesFrom(f, link) then init + [f] else init
  }

  lemma ValuesOnMore(fs: seq<Fragment>, more: seq<Fragment>, link: Link)
    requires |more| <= 1
    ensures ValuesOn(fs + more, link) == ValuesOn(fs, link) + ValuesOn(more, link)
  {
    if more == [] {
      assert fs + more == fs;
    } else {
      assert (fs + more)[..|fs|] == fs;
      assert more[..0] == [];
    }
  }

  // A record of the link moves the link's own packets; any other leaves them alone.
  lemma TakeOnLink(p: Packets, q: Packets, r: Record, link: Link)
    requires Begun(p.partial, link) == Begun(q.partial, link) && ValuesOn(p.out, link) == q.out
    ensures var s := Take(p, r);
            var t := if |r.data| >= 4 && LinkOf(r) == link then Take(q, r) else q;
            Begun(s.partial, link) == Begun(t.partial, link) && ValuesOn(s.out, link) == t.out
  {
    if |r.data| >= 4 && Boundary(r) != 3 {
      var from := LinkOf(r);
      hide LinkOf, Boundary, Payload, LittleAt, ValuesOn;
      var buf := (if Boundary(r) == 1 then Begun(p.partial, from) else []) + Payload(r);
      if IsWhole(buf) {
        ValueIsFrom(r.ts, from, buf, link);
        ValuesOnMore(p.out, ValueIn(r.ts, from, buf), link);
      }
    }
  }

  lemma ValueIsFrom(ts: int, from: Link, buf: seq<Crc.byte>, link: Link)
    requires IsWhole(buf)
    ensures |ValueIn(ts, from, buf)| <= 1
    ensures ValuesOn(ValueIn(ts, from, buf), link) == if from == link then ValueIn(ts, from, buf) else []
  {
    hide LittleAt;
    var vs := ValueIn(ts, from, buf);
    if vs != [] {
      assert vs[..0] == [];
      assert ValuesOn(vs[..0], link) == [];
    }
  }

  /** However the records of many links are interleaved, the values of each link are those
  of its own records alone. */
  lemma {:induction false} LinksDoNotMix(rs: seq<Record>, link: Link)
    ensures var p, q := TakeAll(NOTHING, rs), TakeAll(NOTHING, RecordsOn(rs, link));
            ValuesOn(p.out, link) == q.out && Begun(p.partial, link) == Begun(q.partial, link)
  {
    if rs == [] {
    } else {
      hide Take, LinkOf, ValuesOn, Begun;
      var init, r := rs[..|rs| - 1], rs[|rs| - 1];
      LinksDoNotMix(init, link);
      TakeOnLink(TakeAll(NOTHING, init), TakeAll(NOTHING, RecordsOn(init, link)), r, link);
      TakeAllSnoc(NOTHING, RecordsOn(init, link), r);
    }
  }

  lemma TakeAllSnoc(p: Packets, rs: seq<Record>, r: Record)
    ensures TakeAll(p, rs + [r]) == Take(TakeAll(p, rs), r)
  {
    assert (rs + [r])[..|rs|] == rs;
    hide Take;
  }

  lemma {:induction false} TakeAllConcat(p: Packets, rs: seq<Record>, more: seq<Record>)
    ensures TakeAll(p, rs + more) == TakeAll(TakeAll(p, rs), more)
    decreases |more|
  {
    if more == [] {
      assert rs + more == rs;
    } else {
      hide Take;
      assert (rs + more)[..|rs + more| - 1] == rs + more[..|more| - 1];
      TakeAllConcat(p, rs, more[..|more| - 1]);
    }
  }

  // ---------------------------------------------------------------------------
  // Cut packets come back
  // ---------------------------------------------------------------------------

  function PayloadsOf(rs: seq<Record>): seq<Crc.byte>
    requires forall i :: 0 <= i < |rs| ==> |rs[i].data| >= 4
  {
    if rs == [] then [] else PayloadsOf(rs[..|rs| - 1]) + Payload(rs[|rs| - 1])
  }

  // Whole, and nothing behind it.
  predicate IsPacket(packet: seq<Crc.byte>) {
    |packet| >= 4 && |packet| == 4 + LittleAt(packet, 0)
  }

  // The records of a link that bring the beginning of something.
  predicate Brings(rs: seq<Record>, link: Link, bytes: seq<Crc.byte>) {
    && rs != [] && (forall i :: 0 <= i < |rs| ==> |rs[i].data| >= 4 && LinkOf(rs[i]) == link)
    && (Boundary(rs[0]) == 0 || Boundary(rs[0]) == 2)
    && (forall i :: 0 < i < |rs| ==> Boundary(rs[i]) == 1)
    && PayloadsOf(rs) == bytes
  }

  // All of a packet, its last byte in the last of them.
  predicate BringsPacket(rs: seq<Record>, link: Link, packet: seq<Crc.byte>) {
    IsPacket(packet) && Brings(rs, link, packet) && Payload(rs[|rs| - 1]) != []
  }

  // Short of its end, a packet is not whole.
  lemma PrefixIsNotWhole(packet: seq<Crc.byte>, n: nat)
    requires IsPacket(packet) && n < |packet|
    ensures !IsWhole(packet[..n])
  {
    hide Value;
  }

  lemma {:induction false} PartOfPacket(p: Packets, rs: seq<Record>, link: Link, packet: seq<Crc.byte>, n: nat)
    requires IsPacket(packet) && n < |packet| && Brings(rs, link, packet[..n])
    ensures TakeAll(p, rs) == p.(partial := p.partial[link := packet[..n]])
    decreases |rs|
  {
    hide LinkOf, Boundary, Payload, LittleAt, IsPacket, IsWhole;
    PrefixIsNotWhole(packet, n);
    var init, r := rs[..|rs| - 1], rs[|rs| - 1];
    var before := PayloadsOf(init);
    assert packet[..n] == before + Payload(r);
    if init == [] {
      assert TakeAll(p, init) == p;
    } else {
      assert before == packet[..|before|];
      PartOfPacket(p, init, link, packet, |before|);
      assert p.partial[link := before][link := packet[..n]] == p.partial[link := packet[..n]];
    }
  }

  lemma WholePacket(p: Packets, rs: seq<Record>, link: Link, packet: seq<Crc.byte>)
    requires BringsPacket(rs, link, packet)
    ensures IsWhole(packet)
    ensures TakeAll(p, rs) == Packets(p.partial - {link}, p.out + ValueIn(rs[|rs| - 1].ts, link, packet))
  {
    hide LinkOf, Boundary, Payload, LittleAt, IsPacket, ValueIn;
    PacketIsWhole(packet);
    hide IsWhole;
    var init, r := rs[..|rs| - 1], rs[|rs| - 1];
    var before := PayloadsOf(init);
    assert packet == before + Payload(r);
    if init == [] {
      assert TakeAll(p, init) == p;
    } else {
      assert before == packet[..|before|];
      PartOfPacket(p, init, link, packet, |before|);
      assert p.partial[link := before] - {link} == p.partial - {link};
    }
  }

  lemma PacketIsWhole(packet: seq<Crc.byte>)
    requires IsPacket(packet)
    ensures IsWhole(packet)
  {}

  function Flat(batches: seq<seq<Record>>): seq<Record> {
    if batches == [] then [] else Flat(batches[..|batches| - 1]) + batches[|batches| - 1]
  }

  // ---------------------------------------------------------------------------
  // Records and packets as they are written
  // ---------------------------------------------------------------------------

  // An attribute value on its way: its opcode and handle, behind a length and the channel.
  datatype Sent = Sent(n0: Crc.byte, n1: Crc.byte, opcode: Crc.byte, lo: Crc.byte, hi: Crc.byte, value: seq<Crc.byte>)

  function PacketOf(v: Sent): seq<Crc.byte> {
    [v.n0, v.n1, 4, 0, v.opcode, v.lo, v.hi] + v.value
  }

  predicate IsSent(v: Sent) {
    Value(v.n0) + 256 * Value(v.n1) == 3 + |v.value|
  }

  lemma ChannelBytes()
    ensures Value(4) + 0x100 * Value(0) == ATT_CHANNEL
  {}

  lemma Layout(v: Sent)
    requires IsSent(v)
    ensures var p := PacketOf(v);
            && LittleAt(p, 0) == 3 + |v.value| && LittleAt(p, 2) == ATT_CHANNEL
            && p[4..4 + LittleAt(p, 0)] == [v.opcode, v.lo, v.hi] + v.value
  {
    ChannelBytes();
    hide Value;
    var p := PacketOf(v);
    assert p[0] == v.n0 && p[1] == v.n1 && p[2] == 4 && p[3] == 0;
    assert p[4..] == [v.opcode, v.lo, v.hi] + v.value;
    assert |p| == 7 + |v.value|;
  }

  lemma HandleOf(v: Sent)
    ensures LittleAt([v.opcode, v.lo, v.hi] + v.value, 1) == Value(v.lo) + 256 * Value(v.hi)
  {
    hide Value;
  }

  predicate IsValueOpcode(opcode: Crc.byte) {
    opcode in {0x12, 0x52, 0x1B, 0x1D}
  }

  lemma Opcodes(opcode: Crc.byte)
    ensures CarriesValue(opcode) <==> IsValueOpcode(opcode)
  {}

  /** Such a packet is whole, and gives its value under its handle if the opcode is a write
  request or command, a notification or an indication, and nothing under any other. */
  lemma PacketReadsBack(v: Sent, ts: int, link: Link)
    requires IsSent(v)
    ensures IsPacket(PacketOf(v)) && IsWhole(PacketOf(v))
    ensures ValueIn(ts, link, PacketOf(v)) ==
            if IsValueOpcode(v.opcode)
            then [Fragment(ts, StreamKey(link.connection, Value(v.lo) + 256 * Value(v.hi), link.recv), v.value)]
            else []
  {
    Layout(v);
    HandleOf(v);
    Opcodes(v.opcode);
    PacketLength(v);
    hide LittleAt, CarriesValue, PacketOf, IsValueOpcode, Value;
    var pdu := [v.opcode, v.lo, v.hi] + v.value;
    assert pdu[3..] == v.value;
  }

  lemma PacketLength(v: Sent)
    ensures |PacketOf(v)| == 7 + |v.value|
  {}

  /** A packet on any other channel gives nothing. */
  lemma OtherChannelsGiveNothing(ts: int, link: Link, packet: seq<Crc.byte>)
    requires IsWhole(packet) && !(packet[2] == 4 && packet[3] == 0)
    ensures ValueIn(ts, link, packet) == []
  {
    ChannelFour(packet[2], packet[3]);
  }

  lemma ChannelFour(lo: Crc.byte, hi: Crc.byte)
    ensures Value(lo) + 0x100 * Value(hi) == 4 <==> lo == 4 && hi == 0
  {
    ValueBound(lo);
    ValueBound(hi);
    ValueOf(lo, 4);
    ValueOf(hi, 0);
  }

  lemma ValueBound(b: Crc.byte)
    ensures 0 <= Value(b) < 0x100
  {}

  lemma ValueOf(b: Crc.byte, c: Crc.byte)
    ensures Value(b) == Value(c) <==> b == c
  {}

  // A record of a link, with its boundary flag and its part of a packet; what stands above
  // the flag is the host's.
  predicate IsRecord(r: Record, link: Link, flag: nat, chunk: seq<Crc.byte>) {
    && |r.data| >= 4 && link.connection < 0x1000 && r.recv == link.recv && r.data[4..] == chunk
    && (exists upper: nat :: upper < 4 && flag < 4 &&
          Value(r.data[0]) + 256 * Value(r.data[1]) == link.connection + 0x1000 * flag + 0x4000 * upper)
    && Value(r.data[2]) + 256 * Value(r.data[3]) == |chunk|
  }

  lemma RecordReadsBack(r: Record, link: Link, flag: nat, chunk: seq<Crc.byte>)
    requires IsRecord(r, link, flag, chunk)
    ensures LinkOf(r) == link && Boundary(r) == flag && Payload(r) == chunk
  {
    var upper: nat :| upper < 4 && flag < 4 &&
      Value(r.data[0]) + 256 * Value(r.data[1]) == link.connection + 0x1000 * flag + 0x4000 * upper;
    FieldsOf(LittleAt(r.data, 0), link.connection, flag, upper);
    assert r.data[4..4 + LittleAt(r.data, 2)] == chunk;
  }

  lemma FieldsOf(header: nat, connection: nat, flag: nat, upper: nat)
    requires header == connection + 0x1000 * flag + 0x4000 * upper && connection < 0x1000 && flag < 4
    ensures header % 0x1000 == connection && header / 0x1000 % 4 == flag
  {
    assert header / 0x1000 == flag + 4 * upper;
  }

  /** Only the flags 0, 1 and 2 and records with a header mean anything. */
  lemma OtherRecordsDoNothing(p: Packets, r: Record, link: Link, chunk: seq<Crc.byte>)
    requires |r.data| < 4 || IsRecord(r, link, 3, chunk)
    ensures Take(p, r) == p
  {
    if |r.data| >= 4 {
      RecordReadsBack(r, link, 3, chunk);
    }
  }

  function JoinedChunks(chunks: seq<seq<Crc.byte>>): seq<Crc.byte> {
    if chunks == [] then [] else JoinedChunks(chunks[..|chunks| - 1]) + chunks[|chunks| - 1]
  }

  // The packet, cut into these chunks, in records that say so.
  predicate Cut(rs: seq<Record>, link: Link, chunks: seq<seq<Crc.byte>>, packet: seq<Crc.byte>) {
    && rs != [] && |rs| == |chunks| && chunks[|chunks| - 1] != []
    && (IsRecord(rs[0], link, 0, chunks[0]) || IsRecord(rs[0], link, 2, chunks[0]))
    && (forall k :: 0 < k < |rs| ==> IsRecord(rs[k], link, 1, chunks[k]))
    && JoinedChunks(chunks) == packet
  }

  lemma {:induction false} ChunksAreJoined(rs: seq<Record>, chunks: seq<seq<Crc.byte>>)
    requires |rs| == |chunks| && forall k :: 0 <= k < |rs| ==> |rs[k].data| >= 4 && Payload(rs[k]) == chunks[k]
    ensures PayloadsOf(rs) == JoinedChunks(chunks)
    decreases |rs|
  {
    hide Payload;
    if rs == [] {
    } else {
      ChunksAreJoined(rs[..|rs| - 1], chunks[..|rs| - 1]);
    }
  }

  lemma CutBrings(rs: seq<Record>, link: Link, chunks: seq<seq<Crc.byte>>, v: Sent)
    requires IsSent(v) && Cut(rs, link, chunks, PacketOf(v))
    ensures BringsPacket(rs, link, PacketOf(v))
  {
    hide LinkOf, Boundary, Payload, PacketOf, IsPacket;
    PacketReadsBack(v, 0, link);
    forall k | 0 <= k < |rs|
      ensures |rs[k].data| >= 4 && LinkOf(rs[k]) == link && Payload(rs[k]) == chunks[k]
      ensures if k == 0 then Boundary(rs[k]) == 0 || Boundary(rs[k]) == 2 else Boundary(rs[k]) == 1
    {
      if k > 0 {
        RecordReadsBack(rs[k], link, 1, chunks[k]);
      } else if IsRecord(rs[0], link, 0, chunks[0]) {
        RecordReadsBack(rs[0], link, 0, chunks[0]);
      } else {
        RecordReadsBack(rs[0], link, 2, chunks[0]);
      }
    }
    hide IsRecord;
    ChunksAreJoined(rs, chunks);
  }

  function FragmentOf(rs: seq<Record>, link: Link, v: Sent): Fragment
    requires rs != []
  {
    Fragment(rs[|rs| - 1].ts, StreamKey(link.connection, Value(v.lo) + 256 * Value(v.hi), link.recv), v.value)
  }

  // Each value, cut into these chunks, in these records.
  predicate AllCut(batches: seq<seq<Record>>, link: Link, cuts: seq<seq<seq<Crc.byte>>>, sent: seq<Sent>) {
    |batches| == |cuts| == |sent| &&
    forall i :: 0 <= i < |sent| ==>
      IsSent(sent[i]) && IsValueOpcode(sent[i].opcode) && batches[i] != [] &&
      Cut(batches[i], link, cuts[i], PacketOf(sent[i]))
  }

  function SentValues(batches: seq<seq<Record>>, link: Link, sent: seq<Sent>): (values: seq<Fragment>)
    requires |batches| == |sent| && forall i :: 0 <= i < |sent| ==> batches[i] != []
    ensures |values| == |sent|
    ensures forall i :: 0 <= i < |sent| ==> values[i] == FragmentOf(batches[i], link, sent[i])
  {
    seq(|sent|, i requires 0 <= i < |sent| => FragmentOf(batches[i], link, sent[i]))
  }

  lemma OneMoreSent(batches: seq<seq<Record>>, link: Link, cuts: seq<seq<seq<Crc.byte>>>, sent: seq<Sent>)
    requires AllCut(batches, link, cuts, sent) && sent != []
    ensures var n := |sent| - 1;
            && AllCut(batches[..n], link, cuts[..n], sent[..n])
            && SentValues(batches, link, sent) ==
               SentValues(batches[..n], link, sent[..n]) + [FragmentOf(batches[n], link, sent[n])]
  {
    hide Cut, PacketOf, IsSent, FragmentOf;
  }

  lemma OneCut(p: Packets, rs: seq<Record>, link: Link, chunks: seq<seq<Crc.byte>>, v: Sent)
    requires IsSent(v) && IsValueOpcode(v.opcode) && rs != [] && Cut(rs, link, chunks, PacketOf(v))
    ensures TakeAll(p, rs).out == p.out + [FragmentOf(rs, link, v)]
  {
    hide Cut, PacketOf, IsSent, ValueIn, IsWhole, IsPacket, TakeAll;
    CutBrings(rs, link, chunks, v);
    PacketReadsBack(v, rs[|rs| - 1].ts, link);
    hide BringsPacket;
    WholePacket(p, rs, link, PacketOf(v));
  }

  lemma {:induction false} SentComeBack(batches: seq<seq<Record>>, link: Link, cuts: seq<seq<seq<Crc.byte>>>,
                                        sent: seq<Sent>)
    requires AllCut(batches, link, cuts, sent)
    ensures TakeAll(NOTHING, Flat(batches)).out == SentValues(batches, link, sent)
    decreases |sent|
  {
    if sent == [] {
    } else {
      hide Cut, PacketOf, IsSent, FragmentOf, Take, SentValues, TakeAll;
      var n := |sent| - 1;
      OneMoreSent(batches, link, cuts, sent);
      SentComeBack(batches[..n], link, cuts[..n], sent[..n]);
      TakeAllConcat(NOTHING, Flat(batches[..n]), batches[n]);
      OneCut(TakeAll(NOTHING, Flat(batches[..n])), batches[n], link, cuts[n], sent[n]);
    }
  }

  /** A link's attribute values, each cut into records wherever one likes, and the records
  mixed with those of other links in any way, come back: each once, in order, byte for
  byte and under its handle, with the time of its last record. */
  lemma CutPacketsComeBack(rs: seq<Record>, link: Link, batches: seq<seq<Record>>, cuts: seq<seq<seq<Crc.byte>>>,
                           sent: seq<Sent>)
    requires AllCut(batches, link, cuts, sent) && RecordsOn(rs, link) == Flat(batches)
    ensures ValuesOn(ValuesOf(rs), link) == SentValues(batches, link, sent)
  {
    hide AllCut, Take, ValuesOn, RecordsOn, Begun, SentValues;
    LinksDoNotMix(rs, link);
    SentComeBack(batches, link, cuts, sent);
  }
}
