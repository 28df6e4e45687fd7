/** The daylight-saving comparison of components/alpha_hwr/dst_rule.h: probing a zone for
its rule (315-404), assembling what was found (261-297), comparing two rules (412-449).

A zone is the function from a UTC second to the offset its wall clock shows; the civil
reading at t is the date and hour of t + offset(t).
*/
module DstProbe {
  import opened CivilDate

  const DAY: int := 86400
  const HOUR: int := 3600

  datatype DstRule = DstRule(
    valid: bool, enabled: bool, start: DstTransition, end: DstTransition, offsetMinutes: nat)

  datatype DstAgreement = Unknown | Agree | Neither | PumpOnly | HostOnly | RulesDiffer

  const NO_TRANSITION := DstTransition(0, 0, 0, 0)
  const NO_RULE := DstRule(false, false, NO_TRANSITION, NO_TRANSITION, 0)

  type Zone = int -> int

  // ---------------------------------------------------------------------------
  // Reading the wall clock
  // ---------------------------------------------------------------------------

  datatype WallClock = WallClock(date: Date, hour: nat)

  function ReadAt(zone: Zone, t: int): (w: WallClock)
    ensures w.date.day >= 1
  {
    var local := t + zone(t);
    WallClock(Civil(local / DAY), (local % DAY) / HOUR)
  }

  // The full hour the wall clock was about to reach, rolling over midnight.
  function AboutToReach(w: WallClock): (v: WallClock)
    requires w.date.day >= 1
    ensures v.date.day >= 1
  {
    if w.hour + 1 == 24 then WallClock(Next(w.date), 0) else w.(hour := w.hour + 1)
  }

  function TransitionAt(zone: Zone, change: int): DstTransition {
    var w := AboutToReach(ReadAt(zone, change - 1));
    Encode(w.date, w.hour)
  }

  // ---------------------------------------------------------------------------
  // The bisection
  // ---------------------------------------------------------------------------

  /** A second between lo and hi at which the offset leaves prev. */
  function Bisect(zone: Zone, prev: int, lo: int, hi: int): (at: int)
    requires lo < hi && zone(lo) == prev && zone(hi) != prev
    ensures lo < at <= hi
    ensures zone(at - 1) == prev && zone(at) != prev
    decreases hi - lo
  {
    if hi - lo <= 1 then hi
    else
      var mid := lo + (hi - lo) / 2;
      if zone(mid) == prev then Bisect(zone, prev, mid, hi) else Bisect(zone, prev, lo, mid)
  }

  /** Where the offset changes once between lo and hi, the bisection ends on the exact
  second of that change. */
  lemma BisectIsExact(zone: Zone, prev: int, lo: int, hi: int, change: int)
    requires lo < change <= hi
    requires forall t :: lo <= t < change ==> zone(t) == prev
    requires forall t :: change <= t <= hi ==> zone(t) != prev
    ensures Bisect(zone, prev, lo, hi) == change
  {
    var at := Bisect(zone, prev, lo, hi);
    assert zone(at - 1) == prev && zone(at) != prev;
  }

  // ---------------------------------------------------------------------------
  // The year's changes, by daily samples
  // ---------------------------------------------------------------------------

  datatype Change = Change(at: int, delta: int)

  // What the daily samples from t on find, the sample before having read prev.
  function Changes(zone: Zone, t: int, yearEnd: int, prev: int): seq<Change>
    requires zone(t - DAY) == prev
    decreases yearEnd - t
  {
    if t >= yearEnd then []
    else if zone(t) == prev then Changes(zone, t + DAY, yearEnd, prev)
    else
      [Change(Bisect(zone, prev, t - DAY, t), zone(t) - prev)] +
      Changes(zone, t + DAY, yearEnd, zone(t))
  }

  function YearStart(year: int): int {
    DaysFromEpoch(year, 1, 1) * DAY
  }

  // assemble_probed_rule: none is a zone that never shifts, two are a rule, and any
  // other count is nothing this comparison can express.
  function Assemble(count: nat, found: seq<DstTransition>, delta: seq<int>): DstRule
    requires |found| == 2 && |delta| == 2
  {
    if count == 0 then NO_RULE.(valid := true)
    else if count != 2 then NO_RULE
    else
      var spring := delta[0] > 0;
      var magnitude := if delta[0] < 0 then -delta[0] else delta[0];
      DstRule(true, true,
              if spring then found[0] else found[1],
              if spring then found[1] else found[0],
              (magnitude / 60) % 0x1_0000)
  }

  function FoundIn(zone: Zone, cs: seq<Change>): (found: seq<DstTransition>)
    ensures |found| == 2
  {
    [if |cs| > 0 then TransitionAt(zone, cs[0].at) else NO_TRANSITION,
     if |cs| > 1 then TransitionAt(zone, cs[1].at) else NO_TRANSITION]
  }

  function DeltasOf(cs: seq<Change>): (delta: seq<int>)
    ensures |delta| == 2
  {
    [if |cs| > 0 then cs[0].delta else 0, if |cs| > 1 then cs[1].delta else 0]
  }

  function ChangesOfYear(zone: Zone, year: int): seq<Change> {
    Changes(zone, YearStart(year) + DAY, YearStart(year + 1), zone(YearStart(year)))
  }

  function Probed(zone: Zone, year: int): DstRule {
    if year < 1970 || year > 2100 then NO_RULE
    else
      var cs := ChangesOfYear(zone, year);
      Assemble(|cs|, FoundIn(zone, cs), DeltasOf(cs))
  }

  // The bisection loop.
  method FindChange(zone: Zone, prev: int, from: int, to: int) returns (at: int)
    requires from < to && zone(from) == prev && zone(to) != prev
    ensures at == Bisect(zone, prev, from, to)
  {
    var lo, hi := from, to;
    while hi - lo > 1
      invariant from <= lo < hi <= to
      invariant zone(lo) == prev && zone(hi) != prev
      invariant Bisect(zone, prev, lo, hi) == Bisect(zone, prev, from, to)
      decreases hi - lo
    {
      var mid := lo + (hi - lo) / 2;
      if zone(mid) == prev {
        lo := mid;
      } else {
        hi := mid;
      }
    }
    at := hi;
  }

  lemma ChangesStep(zone: Zone, t: int, yearEnd: int, prev: int)
    requires zone(t - DAY) == prev
    ensures t >= yearEnd ==> Changes(zone, t, yearEnd, prev) == []
    ensures t < yearEnd && zone(t) == prev ==>
              Changes(zone, t, yearEnd, prev) == Changes(zone, t + DAY, yearEnd, zone(t))
    ensures t < yearEnd && zone(t) != prev ==>
              Changes(zone, t, yearEnd, prev) ==
              [Change(Bisect(zone, prev, t - DAY, t), zone(t) - prev)] + Changes(zone, t + DAY, yearEnd, zone(t))
  {}

  lemma Recorded(zone: Zone, seen: seq<Change>, c: Change)
    ensures var k, found, delta := |seen|, FoundIn(zone, seen), DeltasOf(seen);
            if k < 2 then
              FoundIn(zone, seen + [c]) == found[k := TransitionAt(zone, c.at)] &&
              DeltasOf(seen + [c]) == delta[k := c.delta]
            else FoundIn(zone, seen + [c]) == found && DeltasOf(seen + [c]) == delta
  {
    hide TransitionAt;
  }

  /** probe_host_dst_rule, for any zone whatever. */
  method ProbeHostDstRule(zone: Zone, year: int) returns (r: DstRule)
    ensures r == Probed(zone, year)
  {
    hide Changes, TransitionAt, FoundIn, DeltasOf, Assemble, YearStart, Bisect;
    if year < 1970 || year > 2100 {
      return NO_RULE;
    }
    var yearStart, yearEnd := YearStart(year), YearStart(year + 1);
    ghost var all := ChangesOfYear(zone, year);
    ghost var seen: seq<Change> := [];
    var found: seq<DstTransition> := [NO_TRANSITION, NO_TRANSITION];
    var delta: seq<int> := [0, 0];
    NothingRecorded(zone);
    var transitionsFound := 0;
    var prevOffset := zone(yearStart);
    var t := yearStart + DAY;
    while t < yearEnd
      invariant zone(t - DAY) == prevOffset
      invariant transitionsFound == |seen|
      invariant found == FoundIn(zone, seen) && delta == DeltasOf(seen)
      invariant all == seen + Changes(zone, t, yearEnd, prevOffset)
      decreases yearEnd - t
    {
      ChangesStep(zone, t, yearEnd, prevOffset);
      var offset := zone(t);
      if offset != prevOffset {
        var hi := FindChange(zone, prevOffset, t - DAY, t);
        ghost var c := Change(hi, offset - prevOffset);
        Recorded(zone, seen, c);
        if transitionsFound < 2 {
          found := found[transitionsFound := TransitionAt(zone, hi)];
          delta := delta[transitionsFound := offset - prevOffset];
        }
        transitionsFound := transitionsFound + 1;
        Appended(seen, c, Changes(zone, t + DAY, yearEnd, offset));
        seen := seen + [c];
        prevOffset := offset;
      }
      t := t + DAY;
    }
    ChangesStep(zone, t, yearEnd, prevOffset);
    assert seen + [] == seen;
    r := Assemble(transitionsFound, found, delta);
  }

  lemma NothingRecorded(zone: Zone)
    ensures FoundIn(zone, []) == [NO_TRANSITION, NO_TRANSITION] && DeltasOf([]) == [0, 0]
  {}

  lemma Appended(seen: seq<Change>, c: Change, later: seq<Change>)
    ensures seen + ([c] + later) == (seen + [c]) + later
  {}

  // ---------------------------------------------------------------------------
  // Comparing rules
  // ---------------------------------------------------------------------------

  predicate TransitionsCoincide(a: DstTransition, b: DstTransition, year: int) {
    a.month == b.month && a.hour == b.hour &&
    var dayA, dayB := Resolve(a, year), Resolve(b, year);
    dayA != 0 && dayB != 0 && dayA == dayB
  }

  function CompareDstRules(pump: DstRule, host: DstRule, year: int): DstAgreement {
    if !pump.valid || !host.valid then Unknown
    else if !pump.enabled && !host.enabled then Neither
    else if pump.enabled && !host.enabled then PumpOnly
    else if !pump.enabled && host.enabled then HostOnly
    else if TransitionsCoincide(pump.start, host.start, year) &&
            TransitionsCoincide(pump.end, host.end, year) &&
            pump.offsetMinutes == host.offsetMinutes then Agree
    else RulesDiffer
  }
}
