/** The two readers of a capture in tools/geni_capture_scan.py: timed_frames (lines 191-242),
with a buffer for each stream and each frame stamped with the time of the record that
completed it, all of them sorted by that time; and att_streams (lines 148-180), which joins
each stream's values for the batch scan.
*/
module CaptureTimes {
  import opened Crc
  import opened CaptureScan
  import opened CapturePackets
  import opened StableSort
  import opened Text

  datatype Timed = Timed(ts: int, recv: bool, frame: Frame)

  // A frame as it comes out, with the stream it came from.
  datatype Emitted = Emitted(key: StreamKey, timed: Timed)

  type Buffers = map<StreamKey, seq<byte>>

  function Held(buffers: Buffers, key: StreamKey): seq<byte> {
    if key in buffers then buffers[key] else []
  }

  function Stamp(f: Fragment, frames: seq<Frame>): (es: seq<Emitted>)
    ensures |es| == |frames|
    ensures forall i :: 0 <= i < |es| ==> es[i] == Emitted(f.key, Timed(f.ts, f.key.recv, frames[i]))
  {
    if frames == [] then []
    else Stamp(f, frames[..|frames| - 1]) + [Emitted(f.key, Timed(f.ts, f.key.recv, frames[|frames| - 1]))]
  }

  function Timeds(es: seq<Emitted>): (ts: seq<Timed>)
    ensures |ts| == |es| && forall i :: 0 <= i < |ts| ==> ts[i] == es[i].timed
  {
    if es == [] then [] else Timeds(es[..|es| - 1]) + [es[|es| - 1].timed]
  }

  datatype Capture = Capture(buffers: Buffers, out: seq<Emitted>)

  function Receive(c: Capture, f: Fragment): Capture {
    var d := Drain(Held(c.buffers, f.key) + f.data);
    Capture(c.buffers[f.key := d.rest], c.out + Stamp(f, d.frames))
  }

  function Received(fragments: seq<Fragment>): Capture {
    if fragments == [] then Capture(map[], [])
    else Receive(Received(fragments[..|fragments| - 1]), fragments[|fragments| - 1])
  }

  function StampOf(t: Timed): real {
    t.ts as real
  }

  lemma TimedsConcat(a: seq<Emitted>, b: seq<Emitted>)
    ensures Timeds(a + b) == Timeds(a) + Timeds(b)
  {}

  /** timed_frames: packets put together link by link, a buffer for each stream drained by
  each value of it, and one sort at the end. */
  method TimedFrames(records: seq<Record>) returns (out: seq<Timed>)
    ensures out == Sort(Timeds(Received(ValuesOf(records)).out), StampOf)
  {
    hide Drain, Stamp, Timeds, Take;
    out := [];
    var partial: Partial := map[];
    var buffers: Buffers := map[];
    NothingYet();
    for i := 0 to |records|
      invariant partial == TakeAll(NOTHING, records[..i]).partial
      invariant var c := Received(ValuesOf(records[..i])); buffers == c.buffers && out == Timeds(c.out)
    {
      ghost var values := ValuesOf(records[..i]);
      var later, value := TakeRecord(partial, records[i]);
      TakenSnoc(records, i, partial, later, value);
      partial := later;
      if value.Some? {
        var f := value.value;
        var timed, rest := TakeValue(buffers, f);
        ReceivedSnoc(values, f);
        TimedsConcat(Received(values).out, Stamp(f, Drain(Held(buffers, f.key) + f.data).frames));
        out := out + timed;
        buffers := buffers[f.key := rest];
      } else {
        assert values + [] == values;
      }
    }
    assert records[..|records|] == records;
    out := Sort(out, StampOf);
  }

  // One value into its stream's buffer, and what that completes.
  method TakeValue(buffers: Buffers, f: Fragment) returns (timed: seq<Timed>, rest: seq<byte>)
    ensures var d := Drain(Held(buffers, f.key) + f.data);
            timed == Timeds(Stamp(f, d.frames)) && rest == d.rest
  {
    hide Drain, Stamp, Timeds;
    var frames;
    frames, rest := DrainStream(Held(buffers, f.key) + f.data);
    StampedIs(f, frames);
    timed := seq(|frames|, k requires 0 <= k < |frames| => Timed(f.ts, f.key.recv, frames[k]));
  }

  lemma TakenSnoc(records: seq<Record>, i: nat, partial: Partial, later: Partial, value: Option<Fragment>)
    requires i < |records| && partial == TakeAll(NOTHING, records[..i]).partial
    requires forall out :: Take(Packets(partial, out), records[i]) ==
                           Packets(later, out + if value.Some? then [value.value] else [])
    ensures TakeAll(NOTHING, records[..i + 1]).partial == later
    ensures ValuesOf(records[..i + 1]) == ValuesOf(records[..i]) + if value.Some? then [value.value] else []
  {
    hide Take;
    assert records[..i + 1] == records[..i] + [records[i]];
    TakeAllSnoc(NOTHING, records[..i], records[i]);
    var p := TakeAll(NOTHING, records[..i]);
    assert p == Packets(partial, p.out);
  }

  lemma NothingYet()
    ensures Timeds([]) == []
  {}

  lemma ReceivedSnoc(fragments: seq<Fragment>, f: Fragment)
    ensures Received(fragments + [f]) == Receive(Received(fragments), f)
  {
    assert (fragments + [f])[..|fragments|] == fragments;
    hide Receive;
  }

  lemma StampedIs(f: Fragment, frames: seq<Frame>)
    ensures Timeds(Stamp(f, frames)) ==
            seq(|frames|, k requires 0 <= k < |frames| => Timed(f.ts, f.key.recv, frames[k]))
  {}

  // The drain loop, over one stream's bytes.
  method DrainStream(bytes: seq<byte>) returns (frames: seq<Frame>, rest: seq<byte>)
    ensures Drained(frames, rest) == Drain(bytes)
  {
    var buffer := new Reassembler();
    assert [] + bytes == bytes;
    buffer.Extend(bytes);
    frames, rest := buffer.out, buffer.stream;
    assert [] + frames == frames;
  }

  // ---------------------------------------------------------------------------
  // Streams do not mix
  // ---------------------------------------------------------------------------

  // One stream's share of the fragments.
  function DataOf(fragments: seq<Fragment>, key: StreamKey): seq<seq<byte>> {
    if fragments == [] then []
    else
      var init, f := DataOf(fragments[..|fragments| - 1], key), fragments[|fragments| - 1];
      if f.key == key then init + [f.data] else init
  }

  // ... and of what came out.
  function FramesOf(es: seq<Emitted>, key: StreamKey): seq<Frame> {
    if es == [] then []
    else
      var init, e := FramesOf(es[..|es| - 1], key), es[|es| - 1];
      if e.key == key then init + [e.timed.frame] else init
  }

  lemma FramesOfSnoc(es: seq<Emitted>, e: Emitted, key: StreamKey)
    ensures FramesOf(es + [e], key) == FramesOf(es, key) + if e.key == key then [e.timed.frame] else []
  {
    assert (es + [e])[..|es|] == es;
  }

  lemma StampStep(es: seq<Emitted>, f: Fragment, frames: seq<Frame>)
    requires frames != []
    ensures var e := Emitted(f.key, Timed(f.ts, f.key.recv, frames[|frames| - 1]));
            es + Stamp(f, frames) == es + Stamp(f, frames[..|frames| - 1]) + [e]
  {}

  lemma {:induction false} FramesOfStamp(es: seq<Emitted>, f: Fragment, frames: seq<Frame>, key: StreamKey)
    ensures FramesOf(es + Stamp(f, frames), key) == FramesOf(es, key) + if f.key == key then frames else []
  {
    if frames == [] {
      assert es + Stamp(f, frames) == es;
    } else {
      hide FramesOf, Stamp;
      var init, last := frames[..|frames| - 1], frames[|frames| - 1];
      FramesOfStamp(es, f, init, key);
      StampStep(es, f, frames);
      FramesOfSnoc(es + Stamp(f, init), Emitted(f.key, Timed(f.ts, f.key.recv, last)), key);
      assert frames == init + [last];
    }
  }

  /** However the fragments of many streams are interleaved, each stream's frames and
  remainder are those of its own bytes alone, joined. */
  lemma {:induction false} StreamsDoNotMix(fragments: seq<Fragment>, key: StreamKey)
    ensures var c, d := Received(fragments), Drain(Joined(DataOf(fragments, key)));
            FramesOf(c.out, key) == d.frames && Held(c.buffers, key) == d.rest
  {
    StreamIsDrained(fragments, key);
    FragmentsOnlyJoin([], DataOf(fragments, key));
    assert [] + Joined(DataOf(fragments, key)) == Joined(DataOf(fragments, key));
  }

  lemma {:induction false} StreamIsDrained(fragments: seq<Fragment>, key: StreamKey)
    ensures var c, d := Received(fragments), DrainAll([], DataOf(fragments, key));
            FramesOf(c.out, key) == d.frames && Held(c.buffers, key) == d.rest
  {
    if fragments != [] {
      hide Drain, Stamp, DrainAll;
      var init, f := fragments[..|fragments| - 1], fragments[|fragments| - 1];
      StreamIsDrained(init, key);
      var c := Received(init);
      FramesOfStamp(c.out, f, Drain(Held(c.buffers, f.key) + f.data).frames, key);
      if f.key == key {
        DrainAllSnoc([], DataOf(init, key), f.data);
      }
    } else {
      assert DrainAll([], []) == Drained([], []);
    }
  }

  // ---------------------------------------------------------------------------
  // Times
  // ---------------------------------------------------------------------------

  predicate Chronological(fragments: seq<Fragment>) {
    forall i, j :: 0 <= i < j < |fragments| ==> fragments[i].ts <= fragments[j].ts
  }

  // Each frame stands behind what was complete before it, and no later than the given time.
  predicate StampedBy(es: seq<Emitted>, ts: int) {
    (forall i, j :: 0 <= i < j < |es| ==> es[i].timed.ts <= es[j].timed.ts) &&
    forall i :: 0 <= i < |es| ==> es[i].timed.ts <= ts
  }

  lemma StampKeeps(es: seq<Emitted>, f: Fragment, frames: seq<Frame>, ts: int)
    requires StampedBy(es, ts) && ts <= f.ts
    ensures StampedBy(es + Stamp(f, frames), f.ts)
  {
    hide Stamp;
  }

  lemma {:induction false} ReceivedInOrder(fragments: seq<Fragment>)
    requires Chronological(fragments) && fragments != []
    ensures StampedBy(Received(fragments).out, fragments[|fragments| - 1].ts)
  {
    hide Drain, Stamp, StampedBy;
    var init, f := fragments[..|fragments| - 1], fragments[|fragments| - 1];
    if init == [] {
      NoneStamped(f.ts);
      StampKeeps([], f, Drain(Held(map[], f.key) + f.data).frames, f.ts);
    } else {
      ReceivedInOrder(init);
      StampKeeps(Received(init).out, f, Drain(Held(Received(init).buffers, f.key) + f.data).frames,
                 init[|init| - 1].ts);
    }
  }

  lemma NoneStamped(ts: int)
    ensures StampedBy([], ts)
  {}

  // The capture's records stand in the order of their times.
  predicate InTimeOrder(records: seq<Record>) {
    forall i, j :: 0 <= i < j < |records| ==> records[i].ts <= records[j].ts
  }

  predicate NotLaterThan(fragments: seq<Fragment>, ts: int) {
    forall i :: 0 <= i < |fragments| ==> fragments[i].ts <= ts
  }

  lemma TakeKeepsOrder(p: Packets, r: Record, ts: int)
    requires Chronological(p.out) && NotLaterThan(p.out, ts) && ts <= r.ts
    ensures Chronological(Take(p, r).out) && NotLaterThan(Take(p, r).out, r.ts)
  {
    hide LinkOf, Boundary, Payload, LittleAt, Begun;
  }

  lemma {:induction false} ValuesInOrder(records: seq<Record>)
    requires InTimeOrder(records)
    ensures Chronological(ValuesOf(records))
    ensures records != [] ==> NotLaterThan(ValuesOf(records), records[|records| - 1].ts)
  {
    if records == [] {
    } else {
      hide Take, Chronological;
      var init, r := records[..|records| - 1], records[|records| - 1];
      ValuesInOrder(init);
      NoneLate();
      TakeKeepsOrder(TakeAll(NOTHING, init), r, if init == [] then r.ts else init[|init| - 1].ts);
    }
  }

  lemma NoneLate()
    ensures Chronological([])
  {}

  /** The frames come out in the order of the times at which they were complete; and from a
  capture whose records are in order they come out just as they were completed, stream
  among stream. */
  lemma FramesInTime(records: seq<Record>)
    ensures var done := Timeds(Received(ValuesOf(records)).out);
            InOrder(Sort(done, StampOf), StampOf) && multiset(Sort(done, StampOf)) == multiset(done) &&
            (InTimeOrder(records) ==> Sort(done, StampOf) == done)
  {
    var fragments := ValuesOf(records);
    var done := Timeds(Received(fragments).out);
    SortSorts(done, StampOf);
    if InTimeOrder(records) {
      ValuesInOrder(records);
      if fragments != [] {
        ReceivedInOrder(fragments);
      }
      hide Received, Timeds, Chronological, InTimeOrder, ValuesOf;
      assert InOrder(done, StampOf);
      SortedStays(done, StampOf);
    }
  }

  // ---------------------------------------------------------------------------
  // The census
  // ---------------------------------------------------------------------------

  // Each stream's values in a row.
  function Streams(fragments: seq<Fragment>): Buffers {
    if fragments == [] then map[]
    else
      var init, f := Streams(fragments[..|fragments| - 1]), fragments[|fragments| - 1];
      init[f.key := Held(init, f.key) + f.data]
  }

  lemma StreamsSnoc(fragments: seq<Fragment>, f: Fragment)
    ensures Streams(fragments + [f]) ==
            Streams(fragments)[f.key := Held(Streams(fragments), f.key) + f.data]
  {
    assert (fragments + [f])[..|fragments|] == fragments;
  }

  /** att_streams: the same packets, each value behind its stream's earlier ones. */
  method AttStreams(records: seq<Record>) returns (streams: Buffers)
    ensures streams == Streams(ValuesOf(records))
  {
    hide Take, Streams;
    var partial: Partial := map[];
    streams := map[];
    assert Streams([]) == map[] by {
      NoStreams();
    }
    for i := 0 to |records|
      invariant partial == TakeAll(NOTHING, records[..i]).partial
      invariant streams == Streams(ValuesOf(records[..i]))
    {
      ghost var values := ValuesOf(records[..i]);
      var later, value := TakeRecord(partial, records[i]);
      TakenSnoc(records, i, partial, later, value);
      partial := later;
      if value.Some? {
        var f := value.value;
        StreamsSnoc(values, f);
        streams := streams[f.key := Held(streams, f.key) + f.data];
      } else {
        assert values + [] == values;
      }
    }
    assert records[..|records|] == records;
  }

  lemma NoStreams()
    ensures Streams([]) == map[]
  {}

  lemma JoinedSnoc(fragments: seq<seq<byte>>, last: seq<byte>)
    ensures Joined(fragments + [last]) == Joined(fragments) + last
    decreases |fragments|
  {
    if fragments == [] {
      assert [last][1..] == [];
    } else {
      assert (fragments + [last])[1..] == fragments[1..] + [last];
      JoinedSnoc(fragments[1..], last);
    }
  }

  lemma {:induction false} StreamIsJoined(fragments: seq<Fragment>, key: StreamKey)
    ensures Held(Streams(fragments), key) == Joined(DataOf(fragments, key))
  {
    if fragments == [] {
    } else {
      var init, f := fragments[..|fragments| - 1], fragments[|fragments| - 1];
      StreamIsJoined(init, key);
      JoinedSnoc(DataOf(init, key), f.data);
    }
  }

  /** The two readers agree on every capture: in each stream, the frames that come out with
  times are the first of those that the batch scan finds in the census's stream, and every
  frame more lies in the bytes the other still holds back. */
  lemma TimelineIsPrefixOfCensus(records: seq<Record>, key: StreamKey)
    ensures var c, stream := Received(ValuesOf(records)), Held(Streams(ValuesOf(records)), key);
            Frames(stream) == FramesOf(c.out, key) + Frames(Held(c.buffers, key))
  {
    hide Drain, Frames, TakeAll, Received;
    var fragments := ValuesOf(records);
    StreamsDoNotMix(fragments, key);
    StreamIsJoined(fragments, key);
    BatchExtendsDrain(Joined(DataOf(fragments, key)));
  }

  // ---------------------------------------------------------------------------
  // When a frame was complete
  // ---------------------------------------------------------------------------

  // One stream's frames as they came out.
  function TimedsOf(es: seq<Emitted>, key: StreamKey): seq<Timed> {
    if es == [] then []
    else
      var init, e := TimedsOf(es[..|es| - 1], key), es[|es| - 1];
      if e.key == key then init + [e.timed] else init
  }

  // How many frames the first n fragments complete in a stream.
  function CompleteBy(fragments: seq<Fragment>, key: StreamKey, n: nat): nat
    requires n <= |fragments|
  {
    |Drain(Joined(DataOf(fragments[..n], key))).frames|
  }

  // The fragment with which frame j of a stream is complete.
  predicate Completes(fragments: seq<Fragment>, key: StreamKey, j: nat, m: nat) {
    m < |fragments| && fragments[m].key == key &&
    CompleteBy(fragments, key, m) <= j < CompleteBy(fragments, key, m + 1)
  }

  lemma {:induction false} TimedsOfStamp(es: seq<Emitted>, f: Fragment, frames: seq<Frame>, key: StreamKey)
    ensures TimedsOf(es + Stamp(f, frames), key) ==
            TimedsOf(es, key) + if f.key == key then Timeds(Stamp(f, frames)) else []
  {
    if frames == [] {
      assert es + Stamp(f, frames) == es;
    } else {
      hide TimedsOf, Stamp, Timeds;
      var init, e := frames[..|frames| - 1], Emitted(f.key, Timed(f.ts, f.key.recv, frames[|frames| - 1]));
      TimedsOfStamp(es, f, init, key);
      StampStep(es, f, frames);
      TimedsOfSnoc(es + Stamp(f, init), e, key);
      StampedIs(f, init);
      StampedIs(f, frames);
      assert Timeds(Stamp(f, frames)) == Timeds(Stamp(f, init)) + [e.timed];
    }
  }

  lemma TimedsOfSnoc(es: seq<Emitted>, e: Emitted, key: StreamKey)
    ensures TimedsOf(es + [e], key) == TimedsOf(es, key) + if e.key == key then [e.timed] else []
  {
    assert (es + [e])[..|es|] == es;
  }

  lemma {:induction false} FramesAreTimed(es: seq<Emitted>, key: StreamKey)
    ensures |TimedsOf(es, key)| == |FramesOf(es, key)|
    ensures forall j :: 0 <= j < |FramesOf(es, key)| ==> TimedsOf(es, key)[j].frame == FramesOf(es, key)[j]
  {
    if es == [] {
    } else {
      FramesAreTimed(es[..|es| - 1], key);
    }
  }

  lemma CompletesEarlier(fragments: seq<Fragment>, f: Fragment, key: StreamKey, j: nat, m: nat)
    requires Completes(fragments, key, j, m)
    ensures Completes(fragments + [f], key, j, m)
  {
    var more := fragments + [f];
    assert more[..m] == fragments[..m] && more[..m + 1] == fragments[..m + 1];
    hide Drain, DataOf;
  }

  // The frame says with which fragment of its stream, and in which direction, it came.
  ghost predicate TimedRight(fragments: seq<Fragment>, key: StreamKey, j: nat, t: Timed) {
    t.recv == key.recv && exists m: nat :: Completes(fragments, key, j, m) && t.ts == fragments[m].ts
  }

  /** Each frame of each stream carries the time of the very fragment before which the
  stream's bytes did not hold it whole, and with which they do. */
  lemma {:induction false} StampedOnCompletion(fragments: seq<Fragment>, key: StreamKey, j: nat)
    requires j < |TimedsOf(Received(fragments).out, key)|
    ensures TimedRight(fragments, key, j, TimedsOf(Received(fragments).out, key)[j])
  {
    if fragments == [] {
    } else {
      hide Drain, Stamp, DataOf, TimedsOf, FramesOf, Completes;
      var init, f := fragments[..|fragments| - 1], fragments[|fragments| - 1];
      assert fragments == init + [f];
      var c := Received(init);
      var frames := Drain(Held(c.buffers, f.key) + f.data).frames;
      TimedsOfStamp(c.out, f, frames, key);
      var before := |TimedsOf(c.out, key)|;
      if j < before {
        StampedOnCompletion(init, key, j);
        var m: nat :| Completes(init, key, j, m) && TimedsOf(c.out, key)[j].ts == init[m].ts;
        CompletesEarlier(init, f, key, j, m);
        CompletesWithin(init, key, j, m);
      } else {
        NewlyComplete(init, f, key, j);
        StampedIs(f, frames);
      }
    }
  }

  lemma CompletesWithin(fragments: seq<Fragment>, key: StreamKey, j: nat, m: nat)
    requires Completes(fragments, key, j, m)
    ensures m < |fragments|
  {}

  lemma NewlyComplete(init: seq<Fragment>, f: Fragment, key: StreamKey, j: nat)
    requires f.key == key
    requires |TimedsOf(Received(init).out, key)| <= j < |TimedsOf(Received(init + [f]).out, key)|
    ensures Completes(init + [f], key, j, |init|)
  {
    hide Drain, DataOf, TimedsOf, FramesOf, Received;
    var more := init + [f];
    StreamsDoNotMix(init, key);
    StreamsDoNotMix(more, key);
    FramesAreTimed(Received(init).out, key);
    FramesAreTimed(Received(more).out, key);
    assert more[..|init|] == init && more[..|init| + 1] == more;
  }
}
