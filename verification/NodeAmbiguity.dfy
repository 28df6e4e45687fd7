/** What the ambiguity count of tools/link_gap_report.py:335-348 stands for.

The tool flags a difference when the time since the last snapshot exceeds the time the
node had watched by then. A reboot can really hide behind a difference when the time since
exceeds the new reading. The first covers the second, and is raised in one case more.
*/
module NodeAmbiguity {
  import opened NodeTotals

  function NewBoot(obs: seq<Observation>): nat
    requires |obs| >= 2
  {
    obs[|obs| - 2].boot + 1
  }

  // The snapshots, the last of them taken in a boot that began since.
  function Hidden(obs: seq<Observation>): seq<Observation>
    requires |obs| >= 2
  {
    var n := |obs| - 1;
    obs[..n] + [Observation(NewBoot(obs), obs[n].record)]
  }

  // Some honest node with a sound clock, that reboots only after the last snapshot but one,
  // leaves the same readings.
  ghost predicate CouldHide(obs: seq<Observation>)
    requires |obs| >= 2
  {
    exists start: nat -> real ::
      Honest(Hidden(obs), WATCHED) && Clocked(Hidden(obs), start) && obs[|obs| - 2].record.at < start(NewBoot(obs))
  }

  predicate InTimeOrder(obs: seq<Observation>) {
    forall i, j :: 0 <= i < j < |obs| ==> obs[i].record.at <= obs[j].record.at
  }

  function Elapsed(obs: seq<Observation>): real
    requires |obs| >= 2
  {
    obs[|obs| - 1].record.at - obs[|obs| - 2].record.at
  }

  predicate BothRead(obs: seq<Observation>) {
    |obs| >= 2 && Reads(obs[|obs| - 1], WATCHED) && Reads(obs[|obs| - 2], WATCHED)
  }

  function NewReading(obs: seq<Observation>): real
    requires BothRead(obs)
  {
    Reading(obs[|obs| - 1], WATCHED)
  }

  function OldReading(obs: seq<Observation>): real
    requires BothRead(obs)
  {
    Reading(obs[|obs| - 2], WATCHED)
  }

  // A boot that begins as late as its watched time allows.
  lemma LateBootFits(obs: seq<Observation>, start: nat -> real)
    requires BothRead(obs) && InTimeOrder(obs) && Honest(obs, WATCHED) && Clocked(obs, start)
    requires NewReading(obs) < Elapsed(obs)
    ensures CouldHide(obs)
  {
    var n, hidden := |obs| - 1, Hidden(obs);
    var boot := NewBoot(obs);
    var begun := obs[n].record.at - NewReading(obs);
    var late := (k: nat) => if k == boot then begun else start(k);
    EarlierThan(obs, begun);
    HiddenIsHonest(obs);
    assert Clocked(hidden, late);
  }

  lemma EarlierThan(obs: seq<Observation>, begun: real)
    requires |obs| >= 2 && InTimeOrder(obs) && Honest(obs, WATCHED) && obs[|obs| - 2].record.at < begun
    ensures forall i :: 0 <= i < |obs| - 1 ==>
              Hidden(obs)[i] == obs[i] && obs[i].boot < NewBoot(obs) && obs[i].record.at < begun
  {
    var n := |obs| - 1;
    forall i | 0 <= i < n
      ensures obs[i].boot < NewBoot(obs) && obs[i].record.at < begun
    {
      assert obs[i].boot <= obs[n - 1].boot;
      assert obs[i].record.at <= obs[n - 1].record.at;
    }
  }

  lemma HiddenIsHonest(obs: seq<Observation>)
    requires |obs| >= 2 && Honest(obs, WATCHED)
    ensures Honest(Hidden(obs), WATCHED)
  {
    var n, hidden := |obs| - 1, Hidden(obs);
    assert forall i :: 0 <= i < n ==> hidden[i] == obs[i] && obs[i].boot <= obs[n - 1].boot;
    assert Reads(hidden[n], WATCHED) == Reads(obs[n], WATCHED);
  }

  lemma HidingTakesTime(obs: seq<Observation>)
    requires BothRead(obs) && CouldHide(obs)
    ensures NewReading(obs) < Elapsed(obs)
  {
    var n, hidden := |obs| - 1, Hidden(obs);
    var start: nat -> real :|
      Honest(hidden, WATCHED) && Clocked(hidden, start) && obs[n - 1].record.at < start(NewBoot(obs));
    assert Reads(hidden[n], WATCHED) && Reading(hidden[n], WATCHED) == NewReading(obs);
    assert Reading(hidden[n], WATCHED) <= hidden[n].record.at - start(hidden[n].boot);
  }

  lemma BaselineIsLastRead(obs: seq<Observation>)
    requires obs != [] && Reads(obs[|obs| - 1], WATCHED)
    ensures var prev := Run(obs).prev;
            prev.Some? && prev.value.watched == Reading(obs[|obs| - 1], WATCHED) &&
            prev.value.at == obs[|obs| - 1].record.at
  {}

  /** A difference is flagged exactly when a reboot could hide behind it, or when the new
  reading takes up all the time that has passed and that exceeds the old reading: then no
  reboot can hide, and the flag is raised for nothing. */
  lemma FlaggedExactlyWhenItCouldHide(obs: seq<Observation>, start: nat -> real)
    requires BothRead(obs) && InTimeOrder(obs) && Honest(obs, WATCHED) && Clocked(obs, start) && !Resets(obs)
    ensures Run(obs).ambiguous == Run(obs[..|obs| - 1]).ambiguous +
            if CouldHide(obs) || OldReading(obs) < Elapsed(obs) <= NewReading(obs) then 1 else 0
  {
    BaselineIsLastRead(obs[..|obs| - 1]);
    AmbiguousStep(Run(obs[..|obs| - 1]), obs[|obs| - 1].record);
    hide Honest, Clocked;
    if NewReading(obs) < Elapsed(obs) {
      LateBootFits(obs, start);
    }
    if CouldHide(obs) {
      HidingTakesTime(obs);
    }
    hide CouldHide;
  }

  // ---------------------------------------------------------------------------
  // The other counts
  // ---------------------------------------------------------------------------

  function Usable(obs: seq<Observation>): nat {
    if obs == [] then 0
    else Usable(obs[..|obs| - 1]) + if obs[|obs| - 1].record.watched.Some? then 1 else 0
  }

  function ResetsIn(obs: seq<Observation>): nat {
    if obs == [] then 0 else ResetsIn(obs[..|obs| - 1]) + if Resets(obs) then 1 else 0
  }

  // Some usable snapshot has a count for the threshold.
  predicate Reported(obs: seq<Observation>, k: int) {
    exists i :: 0 <= i < |obs| && obs[i].record.watched.Some? && k in obs[i].record.over
  }

  predicate DropsReported(obs: seq<Observation>) {
    exists i :: 0 <= i < |obs| && obs[i].record.watched.Some? && obs[i].record.crcDrops.Some?
  }

  lemma OneMoreReported(init: seq<Observation>, o: Observation)
    ensures forall k :: Reported(init + [o], k) <==>
              Reported(init, k) || (o.record.watched.Some? && k in o.record.over)
    ensures DropsReported(init + [o]) <==>
            DropsReported(init) || (o.record.watched.Some? && o.record.crcDrops.Some?)
  {
    var obs := init + [o];
    assert obs[|init|] == o && forall i :: 0 <= i < |init| ==> obs[i] == init[i];
    forall k | Reported(init, k)
      ensures Reported(obs, k)
    {
      var i :| 0 <= i < |init| && init[i].record.watched.Some? && k in init[i].record.over;
      assert obs[i].record.watched.Some?;
    }
  }

  /** The other counts are what their names say: the usable snapshots, the resets seen, the
  thresholds and the drops that any usable snapshot has; and every threshold reported is
  pooled. */
  lemma {:induction false} CountsAreWhatTheySay(obs: seq<Observation>)
    ensures var t := Run(obs);
            && t.snapshots == Usable(obs) && t.resets == ResetsIn(obs)
            && (forall k :: k in t.reported <==> Reported(obs, k))
            && (t.crcReported <==> DropsReported(obs))
            && t.over.Keys == {15, 20, 30, 45, 60, 90} + t.reported
  {
    if obs == [] {
    } else {
      var init, o := obs[..|obs| - 1], obs[|obs| - 1];
      CountsAreWhatTheySay(init);
      assert init + [o] == obs;
      OneMoreReported(init, o);
      hide Reported, DropsReported, Gain, Rebase, Covers, IsReset, IsAmbiguous, AddRung, Run;
      assert Run(obs) == Add(Run(init), o.record) by {
        RunIsAdd(obs);
      }
    }
  }

  lemma RunIsAdd(obs: seq<Observation>)
    requires obs != []
    ensures Run(obs) == Add(Run(obs[..|obs| - 1]), obs[|obs| - 1].record)
  {}
}
