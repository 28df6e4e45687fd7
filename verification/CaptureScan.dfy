/** The two reassemblers of tools/geni_capture_scan.py: the batch scan of a whole
stream (frames, lines 255-272) and the drain loop that consumes a stream as it
arrives (timed_frames, lines 222-240).

Both cut the same way where both cut at all. The difference is what they do with a
start byte whose frame has not all arrived: the batch scan gives up on it and moves
on by one byte, the incremental one waits.
*/
module CaptureScan {
  import opened Crc
  import opened FrameCheck

  type Frame = seq<byte>

  predicate IsStart(b: byte) {
    b == 0x24 || b == 0x27
  }

  // What the length byte says the whole frame measures.
  function Total(stream: seq<byte>): (n: nat)
    requires |stream| >= 2
    ensures n >= 4
  {
    stream[1] as int + 4
  }

  /** A telegram that stands on its own: start byte, the declared length, a matching
  checksum. */
  predicate WellFormed(f: Frame) {
    |f| >= 2 && IsStart(f[0]) && |f| == Total(f) && FrameCrcValid(f)
  }

  // A complete frame with a matching checksum at the head of the stream.
  predicate FrameAtHead(stream: seq<byte>) {
    |stream| >= 2 && IsStart(stream[0]) && Total(stream) <= |stream| &&
    FrameCrcValid(stream[..Total(stream)])
  }

  // A start byte at the head whose frame has not all arrived.
  predicate Waiting(stream: seq<byte>) {
    |stream| < 2 || (IsStart(stream[0]) && |stream| < Total(stream))
  }

  lemma FrameAtHeadIsWellFormed(stream: seq<byte>)
    requires |stream| >= 2
    ensures FrameAtHead(stream) <==> Total(stream) <= |stream| && WellFormed(stream[..Total(stream)])
  {}

  lemma ConcatAssociates<T>(x: seq<T>, y: seq<T>, z: seq<T>)
    ensures (x + y) + z == x + (y + z)
  {}

  // ---------------------------------------------------------------------------
  // The batch scan
  // ---------------------------------------------------------------------------

  function Frames(stream: seq<byte>): (fs: seq<Frame>)
    decreases |stream|
  {
    if |stream| == 0 then []
    else if FrameAtHead(stream) then
      [stream[..Total(stream)]] + Frames(stream[Total(stream)..])
    else Frames(stream[1..])
  }

  // The scan's three tests, at index i of the whole stream.
  predicate FrameAt(stream: seq<byte>, i: nat)
    requires i < |stream|
  {
    IsStart(stream[i]) && i + 2 <= |stream| &&
    i + stream[i + 1] as int + 4 <= |stream| &&
    FrameCrcValid(stream[i..i + stream[i + 1] as int + 4])
  }

  lemma FramesAt(stream: seq<byte>, i: nat)
    requires i < |stream|
    ensures !FrameAt(stream, i) ==> Frames(stream[i..]) == Frames(stream[i + 1..])
    ensures FrameAt(stream, i) ==>
              var next := i + stream[i + 1] as int + 4;
              Frames(stream[i..]) == [stream[i..next]] + Frames(stream[next..])
  {
    hide FrameCrcValid;
    var rest := stream[i..];
    assert rest[1..] == stream[i + 1..];
    if |rest| >= 2 && Total(rest) <= |rest| {
      assert rest[..Total(rest)] == stream[i..i + Total(rest)];
      assert rest[Total(rest)..] == stream[i + Total(rest)..];
    }
  }

  // crc16(frame[1:-2]) against the last two bytes.
  method ChecksumMatches(frame: seq<byte>) returns (ok: bool)
    requires |frame| >= 4
    ensures ok == FrameCrcValid(frame)
  {
    var crc := BitSerialCrc16(frame[1..|frame| - 2]);
    ok := crc == U16At(frame, |frame| - 2);
  }

  /** frames: one pass with an index over the whole stream. */
  method ScanFrames(stream: seq<byte>) returns (out: seq<Frame>)
    ensures out == Frames(stream)
  {
    hide FrameCrcValid;
    out := [];
    var i, n := 0, |stream|;
    ghost var later := Frames(stream);
    while i < n
      invariant 0 <= i <= n && later == Frames(stream[i..])
      invariant out + later == Frames(stream)
    {
      FramesAt(stream, i);
      if !IsStart(stream[i]) || i + 2 > n {
        i := i + 1;
      } else {
        var total := stream[i + 1] as int + 4;
        if i + total > n {
          i := i + 1;
        } else {
          var frame := stream[i..i + total];
          var ok := ChecksumMatches(frame);
          if ok {
            later := Frames(stream[i + total..]);
            ConcatAssociates(out, [frame], later);
            out := out + [frame];
            i := i + total;
          } else {
            i := i + 1;
          }
        }
      }
    }
  }

  // ---------------------------------------------------------------------------
  // The incremental reassembler
  // ---------------------------------------------------------------------------

  // What one drain leaves: the frames it completed, and the bytes still waiting.
  datatype Drained = Drained(frames: seq<Frame>, rest: seq<byte>)

  function Drain(stream: seq<byte>): (d: Drained)
    decreases |stream|
  {
    if Waiting(stream) then Drained([], stream)
    else if FrameAtHead(stream) then
      var d := Drain(stream[Total(stream)..]);
      Drained([stream[..Total(stream)]] + d.frames, d.rest)
    else Drain(stream[1..])
  }

  /** One stream's buffer, extended by every fragment and drained at once. */
  class Reassembler {
    var stream: seq<byte>
    var out: seq<Frame>

    constructor ()
      ensures stream == [] && out == []
    {
      stream, out := [], [];
    }

    method Extend(fragment: seq<byte>)
      modifies this
      ensures out == old(out) + Drain(old(stream) + fragment).frames
      ensures stream == Drain(old(stream) + fragment).rest
    {
      stream := stream + fragment;
      ghost var all := stream;
      while |stream| >= 2
        invariant out + Drain(stream).frames == old(out) + Drain(all).frames
        invariant Drain(stream).rest == Drain(all).rest
        decreases |stream|
      {
        if !IsStart(stream[0]) {
          stream := stream[1..];
        } else {
          var total := stream[1] as int + 4;
          if |stream| < total {
            break;
          }
          var frame := stream[..total];
          var ok := ChecksumMatches(frame);
          if ok {
            ConcatAssociates(out, [frame], Drain(stream[total..]).frames);
            out := out + [frame];
            stream := stream[total..];
          } else {
            stream := stream[1..];
          }
        }
      }
    }
  }

  // ---------------------------------------------------------------------------
  // Cutting the stream up does not matter
  // ---------------------------------------------------------------------------

  lemma {:induction false} WaitingRest(stream: seq<byte>)
    ensures Waiting(Drain(stream).rest)
    decreases |stream|
  {
    if Waiting(stream) {
    } else if FrameAtHead(stream) {
      WaitingRest(stream[Total(stream)..]);
    } else {
      WaitingRest(stream[1..]);
    }
  }

  // Once the head of the stream can be judged, later bytes do not change the verdict.
  lemma HeadIsSettled(x: seq<byte>, y: seq<byte>)
    requires !Waiting(x)
    ensures !Waiting(x + y) && (x + y)[1..] == x[1..] + y
    ensures FrameAtHead(x + y) == FrameAtHead(x)
    ensures FrameAtHead(x) ==>
              var n := Total(x);
              Total(x + y) == n && (x + y)[..n] == x[..n] && (x + y)[n..] == x[n..] + y
  {
    hide FrameCrcValid;
    if Total(x) <= |x| {
      assert (x + y)[..Total(x)] == x[..Total(x)];
    }
  }

  // One iteration of the drain.
  lemma DrainStep(x: seq<byte>)
    ensures Waiting(x) ==> Drain(x) == Drained([], x)
    ensures !Waiting(x) && FrameAtHead(x) ==>
              var d := Drain(x[Total(x)..]);
              Drain(x) == Drained([x[..Total(x)]] + d.frames, d.rest)
    ensures !Waiting(x) && !FrameAtHead(x) ==> Drain(x) == Drain(x[1..])
  {}

  /** Draining early and carrying the rest over is draining once. */
  lemma {:induction false} DrainInTwo(x: seq<byte>, y: seq<byte>)
    ensures Drain(x + y).frames == Drain(x).frames + Drain(Drain(x).rest + y).frames
    ensures Drain(x + y).rest == Drain(Drain(x).rest + y).rest
    decreases |x|
  {
    hide Drain, FrameCrcValid;
    DrainStep(x);
    if !Waiting(x) {
      HeadIsSettled(x, y);
      DrainStep(x + y);
      if FrameAtHead(x) {
        var later := x[Total(x)..];
        DrainInTwo(later, y);
        ConcatAssociates([x[..Total(x)]], Drain(later).frames, Drain(Drain(later).rest + y).frames);
      } else {
        DrainInTwo(x[1..], y);
      }
    }
  }

  function Joined(fragments: seq<seq<byte>>): seq<byte> {
    if |fragments| == 0 then [] else fragments[0] + Joined(fragments[1..])
  }

  // The reassembler's contract, fragment after fragment, from a buffer holding rest.
  function DrainAll(rest: seq<byte>, fragments: seq<seq<byte>>): Drained
    decreases |fragments|
  {
    if |fragments| == 0 then Drained([], rest)
    else
      var first := Drain(rest + fragments[0]);
      var later := DrainAll(first.rest, fragments[1..]);
      Drained(first.frames + later.frames, later.rest)
  }

  /** Frames and remainder after any fragments are a function of the joined bytes. */
  lemma {:induction false} FragmentsOnlyJoin(rest: seq<byte>, fragments: seq<seq<byte>>)
    requires Waiting(rest)
    ensures DrainAll(rest, fragments) == Drain(rest + Joined(fragments))
    decreases |fragments|
  {
    if |fragments| == 0 {
      assert rest + [] == rest;
    } else {
      var x, y := rest + fragments[0], Joined(fragments[1..]);
      var first := Drain(x);
      WaitingRest(x);
      FragmentsOnlyJoin(first.rest, fragments[1..]);
      DrainInTwo(x, y);
      ConcatAssociates(rest, fragments[0], y);
    }
  }

  lemma {:induction false} DrainAllSnoc(rest: seq<byte>, fragments: seq<seq<byte>>, last: seq<byte>)
    ensures var d, e := DrainAll(rest, fragments), DrainAll(rest, fragments + [last]);
            e == Drained(d.frames + Drain(d.rest + last).frames, Drain(d.rest + last).rest)
    decreases |fragments|
  {
    if |fragments| == 0 {
      assert [last][1..] == [];
    } else {
      assert (fragments + [last])[1..] == fragments[1..] + [last];
      DrainAllSnoc(Drain(rest + fragments[0]).rest, fragments[1..], last);
    }
  }

  /** One stream of timed_frames: whatever the fragments, the frames of the bytes. */
  method StreamFrames(fragments: seq<seq<byte>>) returns (out: seq<Frame>)
    ensures out == Drain(Joined(fragments)).frames
  {
    var buffer := new Reassembler();
    for i := 0 to |fragments|
      invariant Drained(buffer.out, buffer.stream) == DrainAll([], fragments[..i])
    {
      DrainAllSnoc([], fragments[..i], fragments[i]);
      assert fragments[..i] + [fragments[i]] == fragments[..i + 1];
      buffer.Extend(fragments[i]);
    }
    assert fragments[..|fragments|] == fragments;
    FragmentsOnlyJoin([], fragments);
    assert [] + Joined(fragments) == Joined(fragments);
    out := buffer.out;
  }

  /** Two ways of cutting the same bytes give the same frames and the same remainder. */
  lemma FragmentationIrrelevant(a: seq<seq<byte>>, b: seq<seq<byte>>)
    requires Joined(a) == Joined(b)
    ensures DrainAll([], a) == DrainAll([], b) == Drain(Joined(a))
  {
    FragmentsOnlyJoin([], a);
    FragmentsOnlyJoin([], b);
    assert [] + Joined(a) == Joined(a);
  }

  // ---------------------------------------------------------------------------
  // The two scans against each other
  // ---------------------------------------------------------------------------

  /** On any bytes the batch scan finds what the incremental one has emitted, then
  whatever it reads into the bytes the other is still holding back. */
  lemma {:induction false} BatchExtendsDrain(stream: seq<byte>)
    ensures Frames(stream) == Drain(stream).frames + Frames(Drain(stream).rest)
    decreases |stream|
  {
    if Waiting(stream) {
    } else if FrameAtHead(stream) {
      BatchExtendsDrain(stream[Total(stream)..]);
    } else {
      BatchExtendsDrain(stream[1..]);
    }
  }

  lemma DrainIsPrefixOfBatch(stream: seq<byte>)
    ensures Drain(stream).frames <= Frames(stream)
  {
    BatchExtendsDrain(stream);
  }

  /** Everything either scan reports is a telegram that stands on its own. */
  lemma OnlyWellFormed(stream: seq<byte>)
    ensures forall f :: f in Frames(stream) || f in Drain(stream).frames ==> WellFormed(f)
  {
    BatchIsWellFormed(stream);
    DrainIsPrefixOfBatch(stream);
    hide WellFormed, Frames, Drain;
    forall f | f in Drain(stream).frames
      ensures f in Frames(stream)
    {
      var i :| 0 <= i < |Drain(stream).frames| && Drain(stream).frames[i] == f;
      assert Frames(stream)[i] == f;
    }
  }

  lemma {:induction false} BatchIsWellFormed(stream: seq<byte>)
    ensures forall f :: f in Frames(stream) ==> WellFormed(f)
    decreases |stream|
  {
    if |stream| == 0 {
    } else if FrameAtHead(stream) {
      FrameAtHeadIsWellFormed(stream);
      BatchIsWellFormed(stream[Total(stream)..]);
    } else {
      BatchIsWellFormed(stream[1..]);
    }
  }

  lemma HeadOfConcatenation(f: Frame, later: seq<byte>)
    requires WellFormed(f)
    ensures FrameAtHead(f + later) && !Waiting(f + later)
    ensures Total(f + later) == |f|
    ensures (f + later)[..|f|] == f && (f + later)[|f|..] == later
  {}

  /** On telegrams sent back to back both scans return exactly those telegrams, and
  the incremental one has nothing left over. */
  lemma {:induction false} BackToBack(fs: seq<Frame>)
    requires forall f :: f in fs ==> WellFormed(f)
    ensures Frames(Joined(fs)) == fs
    ensures Drain(Joined(fs)) == Drained(fs, [])
    decreases |fs|
  {
    if |fs| == 0 {
    } else {
      HeadOfConcatenation(fs[0], Joined(fs[1..]));
      BackToBack(fs[1..]);
    }
  }

  /** A telegram is emitted by the fragment that completes it and not before: once
  exactly fs and part of the next frame have arrived, fs are out and that part waits. */
  lemma {:induction false} EmittedOnCompletion(fs: seq<Frame>, next: Frame, k: nat)
    requires forall f :: f in fs ==> WellFormed(f)
    requires WellFormed(next) && k < |next|
    ensures Drain(Joined(fs) + next[..k]) == Drained(fs, next[..k])
    decreases |fs|
  {
    hide FrameCrcValid;
    if |fs| == 0 {
      assert [] + next[..k] == next[..k];
    } else {
      HeadOfConcatenation(fs[0], Joined(fs[1..]) + next[..k]);
      assert Joined(fs) + next[..k] == fs[0] + (Joined(fs[1..]) + next[..k]);
      EmittedOnCompletion(fs[1..], next, k);
    }
  }
}
