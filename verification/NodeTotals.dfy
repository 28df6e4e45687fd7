/** Pooling one node's counters across its reboots (NodeTotals.add and pool in
tools/link_gap_report.py, lines 274-382).

A node counts from zero at every boot, and a snapshot says where its counters stand. A
reboot shows only as a reading of watched time lower than the one before it.
*/
module NodeTotals {
  import opened Text

  // What is pooled: the time watched, the intervals cut short, the frames dropped for
  // their checksum, and for each threshold the intervals longer than it.
  datatype Field = WATCHED | TRUNCATED | CRC_DROPS | OVER(threshold: int)

  datatype Record = Record(
    host: string, at: real, watched: Option<real>, truncated: Option<real>, crcDrops: Option<real>,
    over: map<int, real>)

  const THRESHOLDS: set<int> := {15, 20, 30, 45, 60, 90}

  function Value(r: Record, f: Field): Option<real> {
    match f
    case WATCHED => r.watched
    case TRUNCATED => Some(OrZero(r.truncated))
    case CRC_DROPS => r.crcDrops
    case OVER(k) => if k in r.over then Some(r.over[k]) else None
  }

  function OrZero(v: Option<real>): real {
    match v
    case None => 0.0
    case Some(x) => x
  }

  // The readings differenced against: the latest of each field since the last reset.
  datatype Baseline = Baseline(
    watched: real, truncated: real, crcDrops: Option<real>, over: map<int, real>, at: real)

  datatype Totals = Totals(
    over: map<int, real>, reported: set<int>, watched: real, truncated: real,
    // The drops counted, whether any record had the counter, the watched time it is taken
    // to have covered, and whether the last record had it.
    crcDrops: real, crcReported: bool, crcWatched: real, crcSeen: bool,
    resets: nat, ambiguous: nat, snapshots: nat, prev: Option<Baseline>)

  const EMPTY := Totals(map k | k in THRESHOLDS :: 0.0, {}, 0.0, 0.0, 0.0, false, 0.0, false, 0, 0, 0, None)

  function Get(m: map<int, real>, k: int): real {
    if k in m then m[k] else 0.0
  }

  function Pooled(t: Totals, f: Field): real {
    match f
    case WATCHED => t.watched
    case TRUNCATED => t.truncated
    case CRC_DROPS => t.crcDrops
    case OVER(k) => Get(t.over, k)
  }

  // The baseline of a field; none after a reset, or where the field has not been seen.
  function Prior(prev: Option<Baseline>, f: Field): real {
    match prev
    case None => 0.0
    case Some(p) =>
      match f
      case WATCHED => p.watched
      case TRUNCATED => p.truncated
      case CRC_DROPS => OrZero(p.crcDrops)
      case OVER(k) => Get(p.over, k)
  }

  function Delta(previous: real, value: real): real {
    if value - previous < 0.0 then value else value - previous
  }

  predicate IsReset(prev: Option<Baseline>, watched: real) {
    prev.Some? && watched < prev.value.watched
  }

  predicate IsAmbiguous(prev: Option<Baseline>, watched: real, at: real) {
    prev.Some? && !IsReset(prev, watched) && at - prev.value.at > prev.value.watched
  }

  // What the record is differenced against.
  function Against(prev: Option<Baseline>, watched: real): Option<Baseline> {
    if IsReset(prev, watched) then None else prev
  }

  // One threshold's count, after its delta.
  function AddRung(over: map<int, real>, prev: Option<Baseline>, rungs: map<int, real>, k: int): real
    requires k in rungs
  {
    Get(over, k) + Delta(Prior(prev, OVER(k)), rungs[k])
  }

  function AddRungs(over: map<int, real>, prev: Option<Baseline>, rungs: map<int, real>): map<int, real> {
    AddSome(over, prev, rungs, rungs.Keys)
  }

  // The thresholds of the record are all there; those in which have had their delta.
  function AddSome(over: map<int, real>, prev: Option<Baseline>, rungs: map<int, real>, which: set<int>)
    : map<int, real>
  {
    map k | k in over.Keys + rungs.Keys ::
      if k in rungs && k in which then AddRung(over, prev, rungs, k) else Get(over, k)
  }

  lemma AddOne(over: map<int, real>, prev: Option<Baseline>, rungs: map<int, real>, left: set<int>, k: int)
    requires left <= rungs.Keys && k in left
    ensures var some := AddSome(over, prev, rungs, rungs.Keys - left);
            k in some &&
            AddSome(over, prev, rungs, rungs.Keys - (left - {k})) ==
            some[k := some[k] + Delta(Prior(prev, OVER(k)), rungs[k])]
  {
    hide Delta, Prior;
  }

  // Room for every threshold of the record.
  function Zeros(rungs: map<int, real>): map<int, real> {
    map k | k in rungs :: 0.0
  }

  // Merged into the old baseline, so that a field left out keeps the one it had.
  function Rebase(prev: Option<Baseline>, watched: real, r: Record): Baseline {
    Baseline(
      watched, OrZero(r.truncated),
      if r.crcDrops.None? && prev.Some? then prev.value.crcDrops else r.crcDrops,
      if prev.None? then r.over else prev.value.over + r.over,
      r.at)
  }

  // What a field gains: nothing where the record leaves it out.
  function Gain(prev: Option<Baseline>, r: Record, f: Field): real {
    match Value(r, f)
    case None => 0.0
    case Some(v) => Delta(Prior(prev, f), v)
  }

  // The watched time that this record's drops are taken to cover.
  function Covers(prev: Option<Baseline>, seen: bool, watched: real, r: Record): real {
    if r.crcDrops.None? then 0.0
    else if IsReset(prev, watched) || !seen then watched
    else Delta(Prior(Against(prev, watched), WATCHED), watched)
  }

  function Add(t: Totals, r: Record): Totals {
    if r.watched.None? then t
    else
      var watched := r.watched.value;
      var prev := Against(t.prev, watched);
      Totals(
        AddRungs(t.over, prev, r.over),
        t.reported + r.over.Keys,
        t.watched + Gain(prev, r, WATCHED),
        t.truncated + Gain(prev, r, TRUNCATED),
        t.crcDrops + Gain(prev, r, CRC_DROPS),
        t.crcReported || r.crcDrops.Some?,
        t.crcWatched + Covers(t.prev, t.crcSeen, watched, r),
        r.crcDrops.Some?,
        t.resets + if IsReset(t.prev, watched) then 1 else 0,
        t.ambiguous + if IsAmbiguous(t.prev, watched, r.at) then 1 else 0,
        t.snapshots + 1,
        Some(Rebase(prev, watched, r)))
  }

  lemma SomethingLeft(left: set<int>)
    requires left != {}
    ensures exists k :: k in left
  {
    if forall k :: k !in left {
      assert false;
    }
  }

  class NodeTotals {
    const host: string
    var over: map<int, real>
    var reported: set<int>
    var watched: real
    var truncated: real
    var crcDrops: real
    var crcReported: bool
    var crcWatched: real
    var crcSeen: bool
    var resets: nat
    var ambiguous: nat
    var snapshots: nat
    var prev: Option<Baseline>

    function Now(): Totals
      reads this
    {
      Totals(over, reported, watched, truncated, crcDrops, crcReported, crcWatched, crcSeen,
             resets, ambiguous, snapshots, prev)
    }

    constructor (name: string)
      ensures Now() == EMPTY && host == name
    {
      host := name;
      over := map k | k in THRESHOLDS :: 0.0;
      reported, watched, truncated := {}, 0.0, 0.0;
      crcDrops, crcReported, crcWatched, crcSeen := 0.0, false, 0.0, false;
      resets, ambiguous, snapshots := 0, 0, 0;
      prev := None;
    }

    method AddRecord(record: Record)
      modifies this
      ensures Now() == Add(old(Now()), record)
    {
      hide AddRungs, Rebase, Gain, IsReset, IsAmbiguous, Covers;
      if record.watched.None? {
        return;
      }
      var reading := record.watched.value;
      snapshots := snapshots + 1;
      reported := reported + record.over.Keys;
      var reset := CountResets(reading, record.at);
      var against := if reset then None else prev;
      AddTotals(record, reset, against);
      prev := Some(Rebase(against, reading, record));
    }

    // Every field's delta.
    method AddTotals(record: Record, reset: bool, against: Option<Baseline>)
      requires record.watched.Some? && reset == IsReset(prev, record.watched.value)
      requires against == Against(prev, record.watched.value)
      modifies this`watched, this`truncated, this`over
      modifies this`crcReported, this`crcDrops, this`crcWatched, this`crcSeen
      ensures watched == old(watched) + Gain(against, record, WATCHED)
      ensures truncated == old(truncated) + Gain(against, record, TRUNCATED)
      ensures over == AddRungs(old(over), against, record.over)
      ensures crcReported == (old(crcReported) || record.crcDrops.Some?) && crcSeen == record.crcDrops.Some?
      ensures crcDrops == old(crcDrops) + Gain(against, record, CRC_DROPS)
      ensures crcWatched == old(crcWatched) + Covers(prev, old(crcSeen), record.watched.value, record)
    {
      hide AddRungs, Delta, Prior, IsReset, Covers;
      var watchedDelta := Delta(Prior(against, WATCHED), record.watched.value);
      watched := watched + watchedDelta;
      truncated := truncated + Delta(Prior(against, TRUNCATED), OrZero(record.truncated));
      AddDeltas(record.over, against);
      AddDrops(record, reset, against, watchedDelta);
    }

    // One reset test for the whole record, and the ambiguity test where it says no.
    method CountResets(reading: real, at: real) returns (reset: bool)
      modifies this`resets, this`ambiguous
      ensures reset == IsReset(prev, reading)
      ensures resets == old(resets) + if reset then 1 else 0
      ensures ambiguous == old(ambiguous) + if IsAmbiguous(prev, reading, at) then 1 else 0
    {
      reset := prev.Some? && reading < prev.value.watched;
      if reset {
        resets := resets + 1;
      } else if prev.Some? {
        if at - prev.value.at > prev.value.watched {
          ambiguous := ambiguous + 1;
        }
      }
    }

    // The drops, and the watched time they are taken to cover.
    method AddDrops(record: Record, reset: bool, against: Option<Baseline>, watchedDelta: real)
      requires record.watched.Some? && reset == IsReset(prev, record.watched.value)
      requires against == Against(prev, record.watched.value)
      requires watchedDelta == Delta(Prior(against, WATCHED), record.watched.value)
      modifies this`crcReported, this`crcDrops, this`crcWatched, this`crcSeen
      ensures crcReported == (old(crcReported) || record.crcDrops.Some?) && crcSeen == record.crcDrops.Some?
      ensures crcDrops == old(crcDrops) + Gain(against, record, CRC_DROPS)
      ensures crcWatched == old(crcWatched) + Covers(prev, old(crcSeen), record.watched.value, record)
    {
      hide Delta, Prior, IsReset;
      if record.crcDrops.Some? {
        crcReported := true;
        crcDrops := crcDrops + Delta(Prior(against, CRC_DROPS), record.crcDrops.value);
        if reset || !crcSeen {
          crcWatched := crcWatched + record.watched.value;
        } else {
          crcWatched := crcWatched + watchedDelta;
        }
      }
      crcSeen := record.crcDrops.Some?;
    }

    // The loop over the thresholds, in no particular order.
    method AddDeltas(rungs: map<int, real>, against: Option<Baseline>)
      modifies this`over
      ensures over == AddRungs(old(over), against, rungs)
    {
      hide AddSome, Delta, Prior, Zeros;
      var left := rungs.Keys;
      Untouched(over, against, rungs);
      over := Zeros(rungs) + over;
      while left != {}
        invariant left <= rungs.Keys && over == AddSome(old(over), against, rungs, rungs.Keys - left)
        decreases |left|
      {
        SomethingLeft(left);
        var k :| k in left;
        AddOne(old(over), against, rungs, left, k);
        over := over[k := over[k] + Delta(Prior(against, OVER(k)), rungs[k])];
        left := left - {k};
      }
      assert rungs.Keys - left == rungs.Keys;
    }
  }

  // Making room for a threshold not met before changes no count.
  lemma Untouched(over: map<int, real>, prev: Option<Baseline>, rungs: map<int, real>)
    ensures Zeros(rungs) + over == AddSome(over, prev, rungs, rungs.Keys - rungs.Keys)
  {}

  // ---------------------------------------------------------------------------
  // What was really counted
  // ---------------------------------------------------------------------------

  /** A snapshot, and the boot of the node it was taken in. */
  datatype Observation = Observation(boot: nat, record: Record)

  function Run(obs: seq<Observation>): Totals {
    if obs == [] then EMPTY else Add(Run(obs[..|obs| - 1]), obs[|obs| - 1].record)
  }

  // The reading counts: the record has a watched time, and has this field.
  predicate Reads(o: Observation, f: Field) {
    o.record.watched.Some? && Value(o.record, f).Some?
  }

  function Reading(o: Observation, f: Field): real
    requires Reads(o, f)
  {
    Value(o.record, f).value
  }

  /** Boots come one after the other, and within one of them a counter never falls. */
  predicate Honest(obs: seq<Observation>, f: Field) {
    && (forall i, j :: 0 <= i < j < |obs| ==> obs[i].boot <= obs[j].boot)
    && (forall i :: 0 <= i < |obs| && Reads(obs[i], f) ==> Reading(obs[i], f) >= 0.0)
    && (forall i, j :: 0 <= i < j < |obs| && obs[i].boot == obs[j].boot && Reads(obs[i], f) && Reads(obs[j], f) ==>
                         Reading(obs[i], f) <= Reading(obs[j], f))
  }

  lemma HonestPrefix(obs: seq<Observation>, f: Field)
    requires Honest(obs, f) && obs != []
    ensures Honest(obs[..|obs| - 1], f)
  {
    var init := obs[..|obs| - 1];
    assert forall i :: 0 <= i < |init| ==> init[i] == obs[i];
  }

  lemma AddField(t: Totals, r: Record, f: Field)
    requires r.watched.Some?
    ensures var n := Add(t, r);
            var against := Against(t.prev, r.watched.value);
            && Pooled(n, f) == Pooled(t, f) + (match Value(r, f)
                                               case Some(v) => Delta(Prior(against, f), v)
                                               case None => 0.0)
            && Prior(n.prev, f) == (match Value(r, f)
                                    case Some(v) => v
                                    case None => Prior(against, f))
  {}

  // ---------------------------------------------------------------------------
  // Never too much
  // ---------------------------------------------------------------------------

  predicate Resets(obs: seq<Observation>)
    requires obs != []
  {
    var o := obs[|obs| - 1].record;
    o.watched.Some? && IsReset(Run(obs[..|obs| - 1]).prev, o.watched.value)
  }

  /** The boot that the baseline of a field belongs to: the boot of its last reading, or
  of the last reset seen, whichever is later. */
  function Base(obs: seq<Observation>, f: Field): nat {
    if obs == [] then 0
    else if Reads(obs[|obs| - 1], f) || Resets(obs) then obs[|obs| - 1].boot
    else Base(obs[..|obs| - 1], f)
  }

  lemma {:induction false} BaseIsPast(obs: seq<Observation>, f: Field)
    requires Honest(obs, WATCHED) && obs != []
    ensures Base(obs, f) <= Base(obs, WATCHED) <= obs[|obs| - 1].boot
  {
    var init := obs[..|obs| - 1];
    HonestPrefix(obs, WATCHED);
    if init == [] {
    } else {
      BaseIsPast(init, f);
    }
  }

  // A baseline is 0, or a reading taken in the boot it belongs to.
  predicate IsTaken(obs: seq<Observation>, f: Field, p: real) {
    exists j :: 0 <= j < |obs| && Reads(obs[j], f) && obs[j].boot == Base(obs, f) && Reading(obs[j], f) == p
  }

  lemma {:induction false} BaselineIsTaken(obs: seq<Observation>, f: Field)
    ensures Prior(Run(obs).prev, f) == 0.0 || IsTaken(obs, f, Prior(Run(obs).prev, f))
  {
    if obs == [] {
    } else {
      hide Add, Prior, Against;
      var init, o := obs[..|obs| - 1], obs[|obs| - 1];
      BaselineIsTaken(init, f);
      if o.record.watched.Some? {
        AddField(Run(init), o.record, f);
        BaselineAgainst(Run(init), o.record, f);
      }
      if Reads(o, f) {
        assert obs[|obs| - 1].boot == Base(obs, f);
      } else if IsTaken(init, f, Prior(Run(init).prev, f)) {
        var j :| 0 <= j < |init| && Reads(init[j], f) && init[j].boot == Base(init, f) &&
          Reading(init[j], f) == Prior(Run(init).prev, f);
        assert obs[j] == init[j];
      }
      AddNothing(Run(init), o.record);
    }
  }

  lemma AddNothing(t: Totals, r: Record)
    ensures r.watched.None? ==> Add(t, r) == t
  {}

  lemma BaselineAgainst(t: Totals, r: Record, f: Field)
    requires r.watched.Some?
    ensures Prior(Against(t.prev, r.watched.value), f) ==
            if IsReset(t.prev, r.watched.value) then 0.0 else Prior(t.prev, f)
  {}

  /** A reading below its baseline is from a later boot. */
  lemma LowerIsLater(obs: seq<Observation>, f: Field)
    requires obs != [] && Honest(obs, f) && Reads(obs[|obs| - 1], f)
    requires Reading(obs[|obs| - 1], f) < Prior(Run(obs[..|obs| - 1]).prev, f)
    ensures Base(obs[..|obs| - 1], f) < obs[|obs| - 1].boot
  {
    var init, n := obs[..|obs| - 1], |obs| - 1;
    BaselineIsTaken(init, f);
    hide Run, Prior;
    var p := Prior(Run(init).prev, f);
    var j :| 0 <= j < |init| && Reads(init[j], f) && init[j].boot == Base(init, f) && Reading(init[j], f) == p;
    assert obs[j] == init[j] && obs[j].boot <= obs[n].boot;
  }

  /** Every reset seen is a reboot. */
  lemma ResetIsReboot(obs: seq<Observation>)
    requires obs != [] && Honest(obs, WATCHED) && Resets(obs)
    ensures Base(obs[..|obs| - 1], WATCHED) < obs[|obs| - 1].boot
  {
    LowerIsLater(obs, WATCHED);
  }

  // The true totals of the first n boots.
  ghost function Total(final: nat -> real, n: nat): real {
    if n == 0 then 0.0 else Total(final, n - 1) + final(n - 1)
  }

  /** The true final counts: no less than 0, nor than any reading taken on the way. */
  ghost predicate IsFinal(obs: seq<Observation>, f: Field, final: nat -> real) {
    (forall b :: final(b) >= 0.0) &&
    forall i :: 0 <= i < |obs| && Reads(obs[i], f) ==> Reading(obs[i], f) <= final(obs[i].boot)
  }

  lemma {:induction false} TotalGrows(final: nat -> real, m: nat, n: nat)
    requires m <= n && forall b :: final(b) >= 0.0
    ensures Total(final, m) <= Total(final, n)
    ensures m < n ==> Total(final, m) + final(m) <= Total(final, n)
  {
    if m < n {
      TotalGrows(final, m, n - 1);
    }
  }

  // What is pooled fits in the boots before the baseline's, and the baseline.
  ghost predicate Fits(obs: seq<Observation>, f: Field, final: nat -> real) {
    var t := Run(obs);
    Pooled(t, f) <= Total(final, Base(obs, f)) + Prior(t.prev, f) &&
    0.0 <= Prior(t.prev, f) <= final(Base(obs, f))
  }

  lemma FitsStep(obs: seq<Observation>, f: Field, final: nat -> real)
    requires obs != [] && Honest(obs, f) && Honest(obs, WATCHED) && IsFinal(obs, f, final)
    requires Fits(obs[..|obs| - 1], f, final)
    ensures Fits(obs, f, final)
  {
    var init, o := obs[..|obs| - 1], obs[|obs| - 1];
    assert Reads(o, f) ==> Reading(o, f) >= 0.0;
    hide Run, Add, Prior, Against, Base, Honest, Total, Pooled, Delta;
    RunNow(obs);
    BaseNow(obs, f);
    if o.record.watched.Some? {
      AddField(Run(init), o.record, f);
      BaselineAgainst(Run(init), o.record, f);
      BaseOrder(obs, f);
      TotalGrows(final, Base(init, f), o.boot);
      if Resets(obs) {
        ResetIsReboot(obs);
      }
      if Reads(o, f) {
        DeltaIs(Prior(Against(Run(init).prev, o.record.watched.value), f), Reading(o, f));
        if Reading(o, f) < Prior(Run(init).prev, f) {
          LowerIsLater(obs, f);
        }
      }
    }
  }

  lemma RunNow(obs: seq<Observation>)
    requires obs != []
    ensures var o := obs[|obs| - 1];
            Run(obs) == if o.record.watched.None? then Run(obs[..|obs| - 1]) else Add(Run(obs[..|obs| - 1]), o.record)
  {
    AddNothing(Run(obs[..|obs| - 1]), obs[|obs| - 1].record);
    hide Add;
  }

  lemma DeltaIs(previous: real, value: real)
    ensures Delta(previous, value) == if value < previous then value else value - previous
  {}

  lemma BaseNow(obs: seq<Observation>, f: Field)
    requires obs != []
    ensures Base(obs, f) == if Reads(obs[|obs| - 1], f) || Resets(obs) then obs[|obs| - 1].boot
                            else Base(obs[..|obs| - 1], f)
  {}

  lemma BaseOrder(obs: seq<Observation>, f: Field)
    requires obs != [] && Honest(obs, WATCHED)
    ensures Base(obs[..|obs| - 1], f) <= Base(obs[..|obs| - 1], WATCHED) <= obs[|obs| - 1].boot
  {
    var init := obs[..|obs| - 1];
    HonestPrefix(obs, WATCHED);
    if init != [] {
      BaseIsPast(init, f);
      assert obs[|init| - 1] == init[|init| - 1];
    }
  }

  lemma {:induction false} FitsAlways(obs: seq<Observation>, f: Field, final: nat -> real)
    requires Honest(obs, f) && Honest(obs, WATCHED) && IsFinal(obs, f, final)
    ensures Fits(obs, f, final)
  {
    if obs == [] {
    } else {
      HonestPrefix(obs, f);
      HonestPrefix(obs, WATCHED);
      FinalPrefix(obs, f, final);
      hide Fits, Honest, IsFinal, Base, Run;
      FitsAlways(obs[..|obs| - 1], f, final);
      FitsStep(obs, f, final);
    }
  }

  lemma FinalPrefix(obs: seq<Observation>, f: Field, final: nat -> real)
    requires obs != [] && IsFinal(obs, f, final)
    ensures IsFinal(obs[..|obs| - 1], f, final)
  {
    var init := obs[..|obs| - 1];
    assert forall i :: 0 <= i < |init| ==> init[i] == obs[i];
  }

  /** What is pooled never exceeds what the node truly counted over all its boots: with
  reboots that no snapshot shows, and with snapshots that leave fields out. */
  lemma NeverTooMuch(obs: seq<Observation>, f: Field, final: nat -> real, boots: nat)
    requires Honest(obs, f) && Honest(obs, WATCHED) && IsFinal(obs, f, final)
    requires forall i :: 0 <= i < |obs| ==> obs[i].boot < boots
    ensures Pooled(Run(obs), f) <= Total(final, boots)
  {
    if obs != [] {
      FitsAlways(obs, f, final);
      BaseIsPast(obs, f);
      TotalGrows(final, Base(obs, f), boots);
      hide Run, Pooled, Prior, Base, Honest;
    } else {
      TotalGrows(final, 0, boots);
    }
  }

  // ---------------------------------------------------------------------------
  // Exactly enough
  // ---------------------------------------------------------------------------

  /** The last reading of a field in one boot, 0 where there was none. When every usable
  snapshot carries the field, it is that of the boot's last usable snapshot. */
  function LastIn(obs: seq<Observation>, f: Field, boot: nat): real {
    if obs == [] then 0.0
    else
      var o := obs[|obs| - 1];
      if Reads(o, f) && o.boot == boot then Reading(o, f) else LastIn(obs[..|obs| - 1], f, boot)
  }

  // The last readings of the first n boots, added up.
  function Observed(obs: seq<Observation>, f: Field, n: nat): real {
    if n == 0 then 0.0 else Observed(obs, f, n - 1) + LastIn(obs, f, n - 1)
  }

  /** Watched time runs no faster than the clock, and no boot began before a snapshot of
  an earlier one. */
  ghost predicate Clocked(obs: seq<Observation>, start: nat -> real) {
    && (forall i :: 0 <= i < |obs| && Reads(obs[i], WATCHED) ==>
                      Reading(obs[i], WATCHED) <= obs[i].record.at - start(obs[i].boot))
    && (forall i, j :: 0 <= i < j < |obs| && obs[i].boot < obs[j].boot ==> obs[i].record.at <= start(obs[j].boot))
  }

  // Nor at the very moment of one.
  ghost predicate Apart(obs: seq<Observation>, start: nat -> real) {
    forall i, j :: 0 <= i < j < |obs| && obs[i].boot < obs[j].boot ==> obs[i].record.at != start(obs[j].boot)
  }

  lemma ClockedPrefix(obs: seq<Observation>, start: nat -> real)
    requires obs != [] && Clocked(obs, start)
    ensures Clocked(obs[..|obs| - 1], start)
    ensures Apart(obs, start) ==> Apart(obs[..|obs| - 1], start)
  {
    var init := obs[..|obs| - 1];
    assert forall i :: 0 <= i < |init| ==> init[i] == obs[i];
  }

  // The baseline the reset test uses is the last usable snapshot.
  predicate LastUsable(obs: seq<Observation>, j: nat) {
    var p := Run(obs).prev;
    j < |obs| && Reads(obs[j], WATCHED) && obs[j].boot == Base(obs, WATCHED) && p.Some? &&
    p.value.watched == Reading(obs[j], WATCHED) && p.value.at == obs[j].record.at
  }

  lemma {:induction false} BaselineIsLastUsable(obs: seq<Observation>) returns (j: nat)
    requires Run(obs).prev.Some?
    ensures LastUsable(obs, j)
  {
    var init, n := obs[..|obs| - 1], |obs| - 1;
    if obs[n].record.watched.Some? {
      j := n;
    } else {
      j := BaselineIsLastUsable(init);
    }
  }

  lemma AmbiguousStep(t: Totals, r: Record)
    ensures Add(t, r).ambiguous >= t.ambiguous
    ensures Add(t, r).ambiguous == t.ambiguous && r.watched.Some? ==> !IsAmbiguous(t.prev, r.watched.value, r.at)
  {}

  // The last snapshot is the first usable one of a later boot.
  predicate Rebooted(obs: seq<Observation>)
    requires obs != []
  {
    Reads(obs[|obs| - 1], WATCHED) && Run(obs[..|obs| - 1]).prev.Some? &&
    Base(obs[..|obs| - 1], WATCHED) < obs[|obs| - 1].boot
  }

  // ... and nothing shows it.
  predicate Missed(obs: seq<Observation>)
    requires obs != []
  {
    Rebooted(obs) && !Resets(obs)
  }

  /** With nothing ambiguous, a reboot goes unseen exactly when the new boot has watched
  what the old one had, and that in all the time that passed between the snapshots. */
  lemma MissedExactlyAtTheBoundary(obs: seq<Observation>, start: nat -> real)
    requires obs != [] && Honest(obs, WATCHED) && Clocked(obs, start) && Run(obs).ambiguous == 0
    requires Rebooted(obs)
    ensures var p, o := Run(obs[..|obs| - 1]).prev.value, obs[|obs| - 1];
            Missed(obs) <==> Reading(o, WATCHED) == p.watched == o.record.at - p.at
    ensures Missed(obs) ==> !Apart(obs, start)
  {
    var init, n := obs[..|obs| - 1], |obs| - 1;
    var j := BaselineIsLastUsable(init);
    assert obs[j] == init[j];
    AmbiguousStep(Run(init), obs[n].record);
    BaseOrder(obs, WATCHED);
    hide Run, Base;
    if Missed(obs) {
      assert obs[j].record.at == start(obs[n].boot);
    }
  }

  /** So with each reboot strictly after the snapshot before it, every one is seen. */
  lemma RebootIsReset(obs: seq<Observation>, start: nat -> real)
    requires obs != [] && Honest(obs, WATCHED) && Clocked(obs, start) && Apart(obs, start)
    requires Run(obs).ambiguous == 0
    requires Reads(obs[|obs| - 1], WATCHED) && Run(obs[..|obs| - 1]).prev.Some?
    ensures Resets(obs) <==> Base(obs[..|obs| - 1], WATCHED) < obs[|obs| - 1].boot
  {
    if Rebooted(obs) {
      MissedExactlyAtTheBoundary(obs, start);
    }
    if Resets(obs) {
      ResetIsReboot(obs);
    }
    hide Run, Base;
  }

  predicate NoneMissed(obs: seq<Observation>) {
    forall n :: 0 < n <= |obs| ==> !Missed(obs[..n])
  }

  lemma NoneMissedPrefix(obs: seq<Observation>)
    requires obs != []
    ensures NoneMissed(obs) <==> NoneMissed(obs[..|obs| - 1]) && !Missed(obs)
  {
    hide Missed;
    var init := obs[..|obs| - 1];
    assert obs[..|obs|] == obs;
    forall n | 0 < n <= |init|
      ensures init[..n] == obs[..n]
    {}
    if NoneMissed(init) && !Missed(obs) {
      forall n | 0 < n <= |obs|
        ensures !Missed(obs[..n])
      {
        if n < |obs| {
          assert init[..n] == obs[..n];
        }
      }
    }
  }

  lemma {:induction false} NoneMissedWhenUnambiguous(obs: seq<Observation>, start: nat -> real)
    requires Honest(obs, WATCHED) && Clocked(obs, start) && Apart(obs, start) && Run(obs).ambiguous == 0
    ensures NoneMissed(obs)
  {
    if obs == [] {
    } else {
      HonestPrefix(obs, WATCHED);
      ClockedPrefix(obs, start);
      AmbiguousStep(Run(obs[..|obs| - 1]), obs[|obs| - 1].record);
      if Rebooted(obs) {
        MissedExactlyAtTheBoundary(obs, start);
      }
      NoneMissedPrefix(obs);
      hide Add, Honest, Clocked, Apart, Rebooted, Resets, NoneMissed;
      NoneMissedWhenUnambiguous(obs[..|obs| - 1], start);
    }
  }

  lemma {:induction false} NoneLater(obs: seq<Observation>, f: Field, boot: nat)
    requires forall i :: 0 <= i < |obs| && Reads(obs[i], f) ==> obs[i].boot < boot
    ensures LastIn(obs, f, boot) == 0.0
  {
    if obs == [] {
    } else {
      NoneLater(obs[..|obs| - 1], f, boot);
    }
  }

  lemma {:induction false} ObservedStep(obs: seq<Observation>, f: Field, n: nat)
    requires obs != []
    ensures var init, o := obs[..|obs| - 1], obs[|obs| - 1];
            Observed(obs, f, n) ==
            Observed(init, f, n) +
            if Reads(o, f) && o.boot < n then Reading(o, f) - LastIn(init, f, o.boot) else 0.0
  {
    if n == 0 {
    } else {
      ObservedStep(obs, f, n - 1);
    }
  }

  // Boots of usable snapshots, up to the baseline's.
  lemma {:induction false} UsableBoots(obs: seq<Observation>)
    requires Honest(obs, WATCHED)
    ensures Run(obs).prev.None? ==> forall i :: 0 <= i < |obs| ==> !Reads(obs[i], WATCHED)
    ensures forall i :: 0 <= i < |obs| && Reads(obs[i], WATCHED) ==> obs[i].boot <= Base(obs, WATCHED)
  {
    if obs == [] {
    } else {
      var init := obs[..|obs| - 1];
      HonestPrefix(obs, WATCHED);
      UsableBoots(init);
      forall i | 0 <= i < |obs| && Reads(obs[i], WATCHED)
        ensures obs[i].boot <= Base(obs, WATCHED) && Run(obs).prev.Some?
      {
        if i < |init| {
          assert init[i] == obs[i];
        }
      }
    }
  }

  // What is pooled is what was observed, and the baseline is the current boot's share.
  ghost predicate Exact(obs: seq<Observation>, f: Field, boots: nat) {
    var t := Run(obs);
    Pooled(t, f) == Observed(obs, f, boots) &&
    Prior(t.prev, f) == (if t.prev.None? then 0.0 else LastIn(obs, f, Base(obs, WATCHED)))
  }

  lemma {:induction false} LastInBelow(obs: seq<Observation>, f: Field, boot: nat, v: real)
    requires v >= 0.0
    requires forall i :: 0 <= i < |obs| && Reads(obs[i], f) && obs[i].boot == boot ==> Reading(obs[i], f) <= v
    ensures LastIn(obs, f, boot) <= v
  {
    if obs == [] {
    } else {
      LastInBelow(obs[..|obs| - 1], f, boot, v);
    }
  }

  lemma LastInNow(obs: seq<Observation>, f: Field, boot: nat)
    requires obs != []
    ensures var o := obs[|obs| - 1];
            LastIn(obs, f, boot) ==
            if Reads(o, f) && o.boot == boot then Reading(o, f) else LastIn(obs[..|obs| - 1], f, boot)
  {}

  // The share of the boot that this snapshot is from, before it: what the baseline says.
  lemma BaselineIsShare(obs: seq<Observation>, f: Field, boots: nat)
    requires obs != [] && Honest(obs, WATCHED) && !Missed(obs)
    requires Reads(obs[|obs| - 1], WATCHED) && Exact(obs[..|obs| - 1], f, boots)
    ensures var init, o := obs[..|obs| - 1], obs[|obs| - 1];
            Prior(Against(Run(init).prev, o.record.watched.value), f) == LastIn(init, f, o.boot)
  {
    var init, o := obs[..|obs| - 1], obs[|obs| - 1];
    HonestPrefix(obs, WATCHED);
    UsableBoots(init);
    BaselineAgainst(Run(init), o.record, f);
    if Run(init).prev.Some? {
      BaseOrder(obs, f);
      if Resets(obs) {
        ResetIsReboot(obs);
      }
    }
    if Run(init).prev.None? || Resets(obs) {
      NothingYet(obs, f);
    }
    hide Run, Base, LastIn, Observed;
  }

  // A boot no usable snapshot has come from yet has no share.
  lemma NothingYet(obs: seq<Observation>, f: Field)
    requires obs != [] && Honest(obs, WATCHED)
    requires Run(obs[..|obs| - 1]).prev.None? || Base(obs[..|obs| - 1], WATCHED) < obs[|obs| - 1].boot
    ensures LastIn(obs[..|obs| - 1], f, obs[|obs| - 1].boot) == 0.0
  {
    var init, o := obs[..|obs| - 1], obs[|obs| - 1];
    HonestPrefix(obs, WATCHED);
    UsableBoots(init);
    forall i | 0 <= i < |init| && Reads(init[i], f)
      ensures init[i].boot < o.boot
    {
      assert Reads(init[i], WATCHED);
    }
    NoneLater(init, f, o.boot);
  }

  lemma ExactStep(obs: seq<Observation>, f: Field, boots: nat)
    requires obs != [] && Honest(obs, f) && Honest(obs, WATCHED) && !Missed(obs)
    requires obs[|obs| - 1].boot < boots && Exact(obs[..|obs| - 1], f, boots)
    ensures Exact(obs, f, boots)
  {
    var init, o := obs[..|obs| - 1], obs[|obs| - 1];
    AddNothing(Run(init), o.record);
    ObservedStep(obs, f, boots);
    BaseNow(obs, WATCHED);
    LastInNow(obs, f, Base(obs, WATCHED));
    if o.record.watched.Some? {
      AddField(Run(init), o.record, f);
      BaselineIsShare(obs, f, boots);
      if Reads(o, f) {
        ReadingOverShare(obs, f);
      }
      assert Run(obs) == Add(Run(init), o.record);
      hide Run, Base, LastIn, Observed, Honest, Missed;
    } else {
      assert !Resets(obs);
    }
  }

  /** When no reboot is missed, what is pooled is exactly the last reading of each boot,
  added up over all boots. Fields may be left out of snapshots on the way. */
  lemma {:induction false} ExactWhenNoneMissed(obs: seq<Observation>, f: Field, boots: nat)
    requires Honest(obs, f) && Honest(obs, WATCHED) && NoneMissed(obs)
    requires forall i :: 0 <= i < |obs| ==> obs[i].boot < boots
    ensures Exact(obs, f, boots)
  {
    if obs == [] {
      NothingObserved(f, boots);
    } else {
      HonestPrefix(obs, f);
      HonestPrefix(obs, WATCHED);
      NoneMissedPrefix(obs);
      hide Add, Exact, Honest, Missed, NoneMissed;
      ExactWhenNoneMissed(obs[..|obs| - 1], f, boots);
      ExactStep(obs, f, boots);
    }
  }

  lemma {:induction false} NothingObserved(f: Field, n: nat)
    ensures Observed([], f, n) == 0.0
  {
    if n == 0 {
    } else {
      NothingObserved(f, n - 1);
    }
  }

  /** When nothing was ambiguous, the clocks are sound and every reboot comes strictly
  after the snapshot before it, none is missed and every total is exact. */
  lemma ExactWhenUnambiguous(obs: seq<Observation>, f: Field, start: nat -> real, boots: nat)
    requires Honest(obs, f) && Honest(obs, WATCHED) && Clocked(obs, start) && Apart(obs, start)
    requires Run(obs).ambiguous == 0
    requires forall i :: 0 <= i < |obs| ==> obs[i].boot < boots
    ensures Pooled(Run(obs), f) == Observed(obs, f, boots)
  {
    NoneMissedWhenUnambiguous(obs, start);
    ExactWhenNoneMissed(obs, f, boots);
    hide Run, Observed;
  }

  // ---------------------------------------------------------------------------
  // What a missed reboot costs
  // ---------------------------------------------------------------------------

  // What a reboot after these snapshots would take from a field, were it missed.
  function AtStake(obs: seq<Observation>, f: Field): real {
    Prior(Run(obs).prev, f)
  }

  /** The last snapshot brings a field's first reading in a later boot, no reset has been
  seen since the reading before it, and the new one is no lower: it is differenced against
  another boot's count. */
  predicate Crossed(obs: seq<Observation>, f: Field)
    requires obs != []
  {
    var init, o := obs[..|obs| - 1], obs[|obs| - 1];
    Reads(o, f) && Base(init, f) < o.boot && !Resets(obs) && AtStake(init, f) <= Reading(o, f)
  }

  /** What those differences leave out. */
  function Lost(obs: seq<Observation>, f: Field): real {
    if obs == [] then 0.0
    else
      var init := obs[..|obs| - 1];
      Lost(init, f) + if Crossed(obs, f) then AtStake(init, f) else 0.0
  }

  // No reading of a field is from a boot later than its baseline's.
  lemma {:induction false} ReadingsUpToBase(obs: seq<Observation>, f: Field)
    requires Honest(obs, WATCHED)
    ensures forall i :: 0 <= i < |obs| && Reads(obs[i], f) ==> obs[i].boot <= Base(obs, f)
  {
    if obs == [] {
    } else {
      var init := obs[..|obs| - 1];
      HonestPrefix(obs, WATCHED);
      ReadingsUpToBase(init, f);
      BaseNow(obs, f);
      forall i | 0 <= i < |obs| && Reads(obs[i], f)
        ensures obs[i].boot <= Base(obs, f)
      {
        if i < |init| {
          assert init[i] == obs[i];
        }
      }
    }
  }

  lemma NoShareYet(obs: seq<Observation>, f: Field)
    requires obs != [] && Honest(obs, WATCHED) && Base(obs[..|obs| - 1], f) < obs[|obs| - 1].boot
    ensures LastIn(obs[..|obs| - 1], f, obs[|obs| - 1].boot) == 0.0
  {
    HonestPrefix(obs, WATCHED);
    ReadingsUpToBase(obs[..|obs| - 1], f);
    NoneLater(obs[..|obs| - 1], f, obs[|obs| - 1].boot);
  }

  ghost predicate Short(obs: seq<Observation>, f: Field, boots: nat) {
    Pooled(Run(obs), f) + Lost(obs, f) == Observed(obs, f, boots) &&
    AtStake(obs, f) == LastIn(obs, f, Base(obs, f))
  }

  lemma LostNow(obs: seq<Observation>, f: Field)
    requires obs != []
    ensures var init := obs[..|obs| - 1];
            Lost(obs, f) == Lost(init, f) + if Crossed(obs, f) then AtStake(init, f) else 0.0
  {}

  // Within its boot a reading is no lower than what was read before it.
  lemma ReadingOverShare(obs: seq<Observation>, f: Field)
    requires obs != [] && Honest(obs, f) && Reads(obs[|obs| - 1], f)
    ensures 0.0 <= Reading(obs[|obs| - 1], f)
    ensures LastIn(obs[..|obs| - 1], f, obs[|obs| - 1].boot) <= Reading(obs[|obs| - 1], f)
  {
    var init, o := obs[..|obs| - 1], obs[|obs| - 1];
    forall i | 0 <= i < |init| && Reads(init[i], f) && init[i].boot == o.boot
      ensures Reading(init[i], f) <= Reading(o, f)
    {
      assert init[i] == obs[i];
    }
    LastInBelow(init, f, o.boot, Reading(o, f));
  }

  lemma ShortStep(obs: seq<Observation>, f: Field, boots: nat)
    requires obs != [] && Honest(obs, WATCHED) && Honest(obs, f) && obs[|obs| - 1].boot < boots
    requires Short(obs[..|obs| - 1], f, boots)
    ensures Short(obs, f, boots)
  {
    hide Run, Add, Base, LastIn, Observed, Honest, Lost, Prior, Against, Pooled, Delta;
    var init, o := obs[..|obs| - 1], obs[|obs| - 1];
    BaseOrder(obs, f);
    if Base(init, f) < o.boot {
      NoShareYet(obs, f);
    }
    if Resets(obs) {
      ResetIsReboot(obs);
    }
    RunNow(obs);
    ObservedStep(obs, f, boots);
    BaseNow(obs, f);
    LastInNow(obs, f, Base(obs, f));
    LostNow(obs, f);
    if o.record.watched.Some? {
      AddField(Run(init), o.record, f);
      BaselineAgainst(Run(init), o.record, f);
      if Reads(o, f) {
        ReadingOverShare(obs, f);
        DeltaIs(Prior(Against(Run(init).prev, o.record.watched.value), f), Reading(o, f));
      }
    }
  }

  lemma {:induction false} ShortAlways(obs: seq<Observation>, f: Field, boots: nat)
    requires Honest(obs, WATCHED) && Honest(obs, f) && forall i :: 0 <= i < |obs| ==> obs[i].boot < boots
    ensures Short(obs, f, boots)
  {
    if obs == [] {
      NothingObserved(f, boots);
    } else {
      HonestPrefix(obs, WATCHED);
      HonestPrefix(obs, f);
      hide Short, Honest;
      ShortAlways(obs[..|obs| - 1], f, boots);
      ShortStep(obs, f, boots);
    }
  }

  // Every difference across boots is one against a count of nothing.
  predicate CrossedFromNothing(obs: seq<Observation>, f: Field) {
    forall n :: 0 < n <= |obs| && Crossed(obs[..n], f) ==> AtStake(obs[..n - 1], f) == 0.0
  }

  lemma CrossedPrefix(obs: seq<Observation>, f: Field)
    requires obs != []
    ensures var init := obs[..|obs| - 1];
            CrossedFromNothing(obs, f) <==>
            CrossedFromNothing(init, f) && (Crossed(obs, f) ==> AtStake(init, f) == 0.0)
  {
    hide Crossed, AtStake;
    var init := obs[..|obs| - 1];
    assert obs[..|obs|] == obs;
    if CrossedFromNothing(obs, f) {
      forall n | 0 < n <= |init| && Crossed(init[..n], f)
        ensures AtStake(init[..n - 1], f) == 0.0
      {
        assert init[..n] == obs[..n] && init[..n - 1] == obs[..n - 1];
      }
    }
    if CrossedFromNothing(init, f) && (Crossed(obs, f) ==> AtStake(init, f) == 0.0) {
      forall n | 0 < n <= |obs| && Crossed(obs[..n], f)
        ensures AtStake(obs[..n - 1], f) == 0.0
      {
        if n < |obs| {
          assert init[..n] == obs[..n] && init[..n - 1] == obs[..n - 1];
        }
      }
    }
  }

  lemma StakeIsReading(obs: seq<Observation>, f: Field)
    requires Honest(obs, f)
    ensures AtStake(obs, f) >= 0.0
  {
    BaselineIsTaken(obs, f);
  }

  lemma {:induction false} LostIsNothing(obs: seq<Observation>, f: Field)
    requires Honest(obs, f)
    ensures Lost(obs, f) >= 0.0
    ensures Lost(obs, f) == 0.0 <==> CrossedFromNothing(obs, f)
  {
    if obs == [] {
    } else {
      HonestPrefix(obs, f);
      CrossedPrefix(obs, f);
      StakeIsReading(obs[..|obs| - 1], f);
      hide Crossed, AtStake, Honest, CrossedFromNothing;
      LostIsNothing(obs[..|obs| - 1], f);
    }
  }

  /** Whatever the clocks and the counts of resets and ambiguities say: every field's total
  falls short by what it left out where it was differenced against another boot's count,
  and is exact exactly when that is nothing. */
  lemma ExactIffNothingLost(obs: seq<Observation>, f: Field, boots: nat)
    requires Honest(obs, WATCHED) && Honest(obs, f) && forall i :: 0 <= i < |obs| ==> obs[i].boot < boots
    ensures Pooled(Run(obs), f) == Observed(obs, f, boots) - Lost(obs, f)
    ensures Pooled(Run(obs), f) == Observed(obs, f, boots) <==> CrossedFromNothing(obs, f)
  {
    ShortAlways(obs, f, boots);
    LostIsNothing(obs, f);
    hide Run, Observed, Lost, CrossedFromNothing;
  }

  // Every reboot that goes unseen comes after a reading of nothing.
  predicate MissedCostNothing(obs: seq<Observation>) {
    forall n :: 0 < n <= |obs| && Missed(obs[..n]) ==> AtStake(obs[..n - 1], WATCHED) == 0.0
  }

  lemma CrossedIsMissed(obs: seq<Observation>)
    requires obs != []
    ensures Missed(obs) ==> Crossed(obs, WATCHED)
    ensures Crossed(obs, WATCHED) ==> Missed(obs) || AtStake(obs[..|obs| - 1], WATCHED) == 0.0
  {}

  /** For the watched time, those are the reboots that are missed. */
  lemma WatchedExactIffNothingLost(obs: seq<Observation>, boots: nat)
    requires Honest(obs, WATCHED) && forall i :: 0 <= i < |obs| ==> obs[i].boot < boots
    ensures Pooled(Run(obs), WATCHED) == Observed(obs, WATCHED, boots) - Lost(obs, WATCHED)
    ensures Pooled(Run(obs), WATCHED) == Observed(obs, WATCHED, boots) <==> MissedCostNothing(obs)
  {
    ExactIffNothingLost(obs, WATCHED, boots);
    hide Run, Observed, Lost, Crossed, Missed, AtStake;
    forall n | 0 < n <= |obs|
      ensures Missed(obs[..n]) ==> Crossed(obs[..n], WATCHED)
      ensures Crossed(obs[..n], WATCHED) ==> Missed(obs[..n]) || AtStake(obs[..n - 1], WATCHED) == 0.0
    {
      CrossedIsMissed(obs[..n]);
      assert obs[..n][..n - 1] == obs[..n - 1];
    }
  }

  /** A reboot at the very moment of a snapshot is the case the test does not catch: the
  node can climb back to the same reading in exactly the time that passed, and neither a
  reset nor an ambiguity is counted. */
  lemma RebootAtTheSnapshotIsMissed(host: string)
    ensures var first := Observation(0, Record(host, 100.0, Some(100.0), None, None, map[]));
            var second := Observation(1, Record(host, 200.0, Some(100.0), None, None, map[]));
            var t := Run([first, second]);
            t.ambiguous == 0 && t.resets == 0 && t.watched == 100.0 &&
            Observed([first, second], WATCHED, 2) == 200.0
  {
    var first := Observation(0, Record(host, 100.0, Some(100.0), None, None, map[]));
    var second := Observation(1, Record(host, 200.0, Some(100.0), None, None, map[]));
    assert [first, second][..1] == [first] && [first][..0] == [];
    assert Run([first]) == Add(EMPTY, first.record);
    assert LastIn([first, second], WATCHED, 0) == 100.0 && LastIn([first, second], WATCHED, 1) == 100.0;
    assert Observed([first, second], WATCHED, 1) == 100.0;
  }
}
