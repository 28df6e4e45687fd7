/** Two counters of NodeTotals.add that a record may leave out and that do not keep their
place when it does: the intervals cut short, where a missing reading is taken for 0, and
the time the checksum counter covered, which starts again after every record without it
(tools/link_gap_report.py, lines 312-315 and 349-380).
*/
module NodeCoverage {
  import opened NodeTotals
  import opened Text

  /** What a usable record says of such a counter: whether it comes after a reset, and the
  count since the boot, if it is there. */
  datatype Tick = Tick(reset: bool, carried: Option<real>)

  // The count carried last since the last reset.
  function Share(ticks: seq<Tick>): real {
    if ticks == [] then 0.0
    else
      var init, tick := ticks[..|ticks| - 1], ticks[|ticks| - 1];
      if tick.carried.Some? then tick.carried.value
      else if tick.reset then 0.0
      else Share(init)
  }

  // What a record is counted from: nothing after a reset, else the share before it.
  function Start(ticks: seq<Tick>): real
    requires ticks != []
  {
    if ticks[|ticks| - 1].reset then 0.0 else Share(ticks[..|ticks| - 1])
  }

  /** What every other field gets: each count differenced against the one carried before
  it, however many records in between left it out. */
  function Covered(ticks: seq<Tick>): real {
    if ticks == [] then 0.0
    else
      var tick := ticks[|ticks| - 1];
      Covered(ticks[..|ticks| - 1]) +
      if tick.carried.Some? then Delta(Start(ticks), tick.carried.value) else 0.0
  }

  // The record before did not carry the count, or there is none.
  predicate AfterGap(ticks: seq<Tick>)
    requires ticks != []
  {
    |ticks| == 1 || ticks[|ticks| - 2].carried.None?
  }

  /** What these two get: after a gap, the whole count again. */
  function Counted(ticks: seq<Tick>): real {
    if ticks == [] then 0.0
    else
      var tick := ticks[|ticks| - 1];
      Counted(ticks[..|ticks| - 1]) +
      if tick.carried.None? then 0.0
      else if AfterGap(ticks) then tick.carried.value
      else Delta(Start(ticks), tick.carried.value)
  }

  /** A record takes the count up again where it stood before a gap. */
  predicate Resumes(ticks: seq<Tick>)
    requires ticks != []
  {
    ticks[|ticks| - 1].carried.Some? && AfterGap(ticks) && 0.0 < Start(ticks) <= ticks[|ticks| - 1].carried.value
  }

  predicate NeverResumes(ticks: seq<Tick>) {
    forall n :: 0 < n <= |ticks| ==> !Resumes(ticks[..n])
  }

  predicate NonNegative(ticks: seq<Tick>) {
    forall i :: 0 <= i < |ticks| && ticks[i].carried.Some? ==> ticks[i].carried.value >= 0.0
  }

  lemma {:induction false} ShareIsNonNegative(ticks: seq<Tick>)
    requires NonNegative(ticks)
    ensures Share(ticks) >= 0.0
  {
    if ticks == [] {
    } else {
      ShareIsNonNegative(ticks[..|ticks| - 1]);
    }
  }

  lemma NeverResumesPrefix(ticks: seq<Tick>)
    requires ticks != []
    ensures NeverResumes(ticks) <==> NeverResumes(ticks[..|ticks| - 1]) && !Resumes(ticks)
  {
    hide Resumes;
    var init := ticks[..|ticks| - 1];
    assert ticks[..|ticks|] == ticks;
    if NeverResumes(ticks) {
      forall n | 0 < n <= |init|
        ensures !Resumes(init[..n])
      {
        assert init[..n] == ticks[..n];
      }
    }
    if NeverResumes(init) && !Resumes(ticks) {
      forall n | 0 < n <= |ticks|
        ensures !Resumes(ticks[..n])
      {
        if n < |ticks| {
          assert init[..n] == ticks[..n];
        }
      }
    }
  }

  /** The count is never too low, and it is right exactly when no record takes it up again
  after one that left it out. */
  lemma {:induction false} CountedExactlyUnlessResumed(ticks: seq<Tick>)
    requires NonNegative(ticks)
    ensures Counted(ticks) >= Covered(ticks)
    ensures Counted(ticks) == Covered(ticks) <==> NeverResumes(ticks)
  {
    if ticks == [] {
    } else {
      var init := ticks[..|ticks| - 1];
      assert forall i :: 0 <= i < |init| ==> init[i] == ticks[i];
      CountedExactlyUnlessResumed(init);
      ShareIsNonNegative(init);
      NeverResumesPrefix(ticks);
      hide NeverResumes, Share;
    }
  }

  // ---------------------------------------------------------------------------
  // The two counters
  // ---------------------------------------------------------------------------

  // The time the checksum counter is taken to cover, where a record has the counter.
  function CrcTime(r: Record): Option<real> {
    if r.crcDrops.Some? then r.watched else None
  }

  function Ticks(obs: seq<Observation>, of: Record -> Option<real>): (ticks: seq<Tick>)
    ensures |ticks| <= |obs|
  {
    if obs == [] then []
    else
      var init, r := Ticks(obs[..|obs| - 1], of), obs[|obs| - 1].record;
      if r.watched.Some? then init + [Tick(Resets(obs), of(r))] else init
  }

  predicate CrcFollows(obs: seq<Observation>) {
    var t, ticks := Run(obs), Ticks(obs, CrcTime);
    t.crcWatched == Counted(ticks) &&
    t.crcSeen == (ticks != [] && ticks[|ticks| - 1].carried.Some?) &&
    (t.crcSeen ==> t.prev.Some? && Share(ticks) == t.prev.value.watched)
  }

  // Adding a usable record adds its tick.
  lemma TickNow(obs: seq<Observation>, of: Record -> Option<real>)
    requires obs != [] && obs[|obs| - 1].record.watched.Some?
    ensures var init, ticks := Ticks(obs[..|obs| - 1], of), Ticks(obs, of);
            ticks == init + [Tick(Resets(obs), of(obs[|obs| - 1].record))] && ticks[..|ticks| - 1] == init &&
            |ticks| > 0 && (|ticks| > 1 ==> |init| > 0 && ticks[|ticks| - 2] == init[|init| - 1])
  {}

  lemma {:induction false} CrcIsCounted(obs: seq<Observation>)
    ensures CrcFollows(obs)
  {
    if obs == [] {
    } else {
      var init, o := obs[..|obs| - 1], obs[|obs| - 1];
      CrcIsCounted(init);
      RunNow(obs);
      if o.record.watched.Some? {
        TickNow(obs, CrcTime);
        CrcStep(obs);
      }
    }
  }

  lemma CrcStep(obs: seq<Observation>)
    requires obs != [] && obs[|obs| - 1].record.watched.Some? && CrcFollows(obs[..|obs| - 1])
    ensures CrcFollows(obs)
  {
    RunNow(obs);
    TickNow(obs, CrcTime);
    hide Run, Ticks, AddRungs, Gain;
  }

  /** The time the checksum counter is taken to have covered is at least what it did, and
  is that exactly when no snapshot without the counter stands between two that have it. */
  lemma CrcTimeExactUnlessResumed(obs: seq<Observation>)
    requires Honest(obs, WATCHED)
    ensures Run(obs).crcWatched >= Covered(Ticks(obs, CrcTime))
    ensures Run(obs).crcWatched == Covered(Ticks(obs, CrcTime)) <==> NeverResumes(Ticks(obs, CrcTime))
  {
    CrcIsCounted(obs);
    CrcTicksNonNegative(obs);
    CountedExactlyUnlessResumed(Ticks(obs, CrcTime));
    hide Run, Ticks, Covered, NeverResumes;
  }

  lemma {:induction false} CrcTicksNonNegative(obs: seq<Observation>)
    requires Honest(obs, WATCHED)
    ensures NonNegative(Ticks(obs, CrcTime))
  {
    if obs == [] {
    } else {
      HonestPrefix(obs, WATCHED);
      CrcTicksNonNegative(obs[..|obs| - 1]);
      assert Reads(obs[|obs| - 1], WATCHED) ==> Reading(obs[|obs| - 1], WATCHED) >= 0.0;
      hide Honest, Resets;
    }
  }

  // The intervals cut short, where a record has them.
  function CutShort(r: Record): Option<real> {
    r.truncated
  }

  predicate CutShortFollows(obs: seq<Observation>) {
    var t, ticks := Run(obs), Ticks(obs, CutShort);
    t.truncated == Counted(ticks) && (t.prev.None? <==> ticks == []) &&
    (t.prev.Some? ==>
       t.prev.value.truncated == OrZero(ticks[|ticks| - 1].carried) >= 0.0 &&
       (ticks[|ticks| - 1].carried.Some? ==> Share(ticks) == t.prev.value.truncated))
  }

  predicate CutShortNonNegative(obs: seq<Observation>) {
    forall i :: 0 <= i < |obs| && obs[i].record.truncated.Some? ==> obs[i].record.truncated.value >= 0.0
  }

  lemma CutShortStep(obs: seq<Observation>)
    requires obs != [] && obs[|obs| - 1].record.watched.Some? && CutShortFollows(obs[..|obs| - 1])
    requires OrZero(obs[|obs| - 1].record.truncated) >= 0.0
    ensures CutShortFollows(obs)
  {
    RunNow(obs);
    TickNow(obs, CutShort);
    hide Run, Ticks, AddRungs, Covers;
  }

  lemma {:induction false} CutShortIsCounted(obs: seq<Observation>)
    requires CutShortNonNegative(obs)
    ensures CutShortFollows(obs) && NonNegative(Ticks(obs, CutShort))
  {
    if obs == [] {
    } else {
      var init, o := obs[..|obs| - 1], obs[|obs| - 1];
      assert forall i :: 0 <= i < |init| ==> init[i] == obs[i];
      CutShortIsCounted(init);
      RunNow(obs);
      if o.record.watched.Some? {
        TickNow(obs, CutShort);
        CutShortStep(obs);
      }
    }
  }

  /** The intervals cut short are never pooled too low, and are right exactly when no
  record takes the count up again after one that left it out. */
  lemma CutShortExactUnlessResumed(obs: seq<Observation>)
    requires CutShortNonNegative(obs)
    ensures Run(obs).truncated >= Covered(Ticks(obs, CutShort))
    ensures Run(obs).truncated == Covered(Ticks(obs, CutShort)) <==> NeverResumes(Ticks(obs, CutShort))
  {
    CutShortIsCounted(obs);
    CountedExactlyUnlessResumed(Ticks(obs, CutShort));
    hide Run, Ticks, Covered, NeverResumes;
  }

  /** Three snapshots of one boot, the second without the two counters: 300 seconds were
  watched and 400 are taken as covered; 5 intervals were cut short and 10 are pooled. */
  lemma OneGapCountsTwice(host: string)
    ensures var first := Observation(0, Record(host, 100.0, Some(100.0), Some(5.0), Some(0.0), map[]));
            var second := Observation(0, Record(host, 200.0, Some(200.0), None, None, map[]));
            var third := Observation(0, Record(host, 300.0, Some(300.0), Some(5.0), Some(0.0), map[]));
            var t := Run([first, second, third]);
            t.watched == 300.0 && t.crcWatched == 400.0 && t.truncated == 10.0
  {
    var first := Observation(0, Record(host, 100.0, Some(100.0), Some(5.0), Some(0.0), map[]));
    var second := Observation(0, Record(host, 200.0, Some(200.0), None, None, map[]));
    var third := Observation(0, Record(host, 300.0, Some(300.0), Some(5.0), Some(0.0), map[]));
    RunThree(first, second, third);
    hide Run, AddRungs;
  }

  lemma RunThree(a: Observation, b: Observation, c: Observation)
    ensures Run([a, b, c]) == Add(Add(Add(EMPTY, a.record), b.record), c.record)
  {
    hide Add;
    assert [a, b, c][..2] == [a, b] && [a, b][..1] == [a] && [a][..0] == [];
    assert Run([a]) == Add(EMPTY, a.record);
    assert Run([a, b]) == Add(Run([a]), b.record);
  }
}
