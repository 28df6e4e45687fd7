/** Probing a zone with any number of changes in the year
(components/alpha_hwr/dst_rule.h:261-297, 346-402).

A history is the offsets a zone takes in turn and the seconds at which it leaves each.
The daily samples list exactly its changes when, and only when, each lies behind a
sample of its own; and a list of other than none or two is refused.
*/
module DstHistory {
  import opened CivilDate
  import opened DstProbe
  import opened DstAgreementProof

  datatype History = History(changes: seq<int>, offsets: seq<int>)

  // The changes in order, each to another offset.
  predicate IsHistory(h: History) {
    && |h.offsets| == |h.changes| + 1
    && (forall i, j :: 0 <= i < j < |h.changes| ==> h.changes[i] < h.changes[j])
    && (forall i :: 0 <= i < |h.changes| ==> h.offsets[i] != h.offsets[i + 1])
  }

  // The history after its first change.
  function Later(h: History): (later: History)
    requires IsHistory(h) && h.changes != []
    ensures IsHistory(later) && |later.changes| == |h.changes| - 1
  {
    History(h.changes[1..], h.offsets[1..])
  }

  function OffsetAt(h: History, t: int): int
    requires IsHistory(h)
    decreases |h.changes|
  {
    if h.changes == [] || t < h.changes[0] then h.offsets[0] else OffsetAt(Later(h), t)
  }

  ghost predicate Takes(zone: Zone, h: History, from: int, to: int)
    requires IsHistory(h)
  {
    forall t :: from <= t < to ==> zone(t) == OffsetAt(h, t)
  }

  // Its changes, each with the step it makes.
  function StepsOf(h: History): (cs: seq<Change>)
    requires IsHistory(h)
    ensures |cs| == |h.changes|
    ensures forall i :: 0 <= i < |cs| ==>
              cs[i] == Change(h.changes[i], h.offsets[i + 1] - h.offsets[i])
    decreases |h.changes|
  {
    if h.changes == [] then []
    else [Change(h.changes[0], h.offsets[1] - h.offsets[0])] + StepsOf(Later(h))
  }

  predicate EachSeenApart(changes: seq<int>, year: int) {
    && (forall i :: 0 <= i < |changes| ==> Seen(changes[i], year))
    && (forall i, j :: 0 <= i < j < |changes| ==>
          SampleBehind(changes[i], year) < SampleBehind(changes[j], year))
  }

  // ---------------------------------------------------------------------------
  // Seen apart: all found
  // ---------------------------------------------------------------------------

  lemma NextSampleIsLater(c: int, d: int, year: int)
    requires year >= 1970 && SampleBehind(c, year) < SampleBehind(d, year)
    ensures SampleBehind(c, year) < d
  {
    SampleBehindBounds(c, year);
    SampleBehindBounds(d, year);
    Aligned(YearStart(year), SampleBehind(c, year), SampleBehind(d, year));
  }

  // Around a change that has its sample to itself, the zone reads as before up to the
  // change and as after from there to the sample.
  lemma AroundFirst(zone: Zone, h: History, from: int, to: int, year: int)
    requires year >= 1970 && IsHistory(h) && h.changes != []
    requires EachSeenApart(h.changes, year) && Takes(zone, h, from, to)
    ensures var c, s := h.changes[0], SampleBehind(h.changes[0], year);
            && (forall t :: from <= t < c && t < to ==> zone(t) == h.offsets[0])
            && (forall t :: c <= t <= s && from <= t < to ==> zone(t) == h.offsets[1])
            && Takes(zone, Later(h), if from < c then c else from, to)
  {
    var c, s := h.changes[0], SampleBehind(h.changes[0], year);
    if |h.changes| > 1 {
      NextSampleIsLater(c, h.changes[1], year);
    }
    hide SampleBehind, Seen;
    assert Later(h).offsets[0] == h.offsets[1];
    forall t | c <= t && from <= t < to
      ensures zone(t) == OffsetAt(Later(h), t)
    {}
    forall t | c <= t <= s && from <= t < to
      ensures zone(t) == h.offsets[1]
    {
      assert OffsetAt(Later(h), t) == Later(h).offsets[0];
    }
  }

  lemma LaterSeenApart(h: History, year: int)
    requires IsHistory(h) && h.changes != [] && EachSeenApart(h.changes, year)
    ensures EachSeenApart(Later(h).changes, year)
  {
    hide SampleBehind, Seen;
  }

  lemma OneDayIn(year: int, t: int)
    requires year >= 1970 && t <= YearStart(year + 1)
    ensures t - DAY < YearStart(year + 1)
  {}

  lemma NoneLeft(zone: Zone, h: History, year: int, t: int)
    requires year >= 1970 && IsHistory(h) && h.changes == []
    requires (t - YearStart(year)) % DAY == 0 && t <= YearStart(year + 1)
    requires Takes(zone, h, t - DAY, YearStart(year + 1))
    ensures Changes(zone, t, YearStart(year + 1), zone(t - DAY)) == []
  {
    hide Changes, YearStart;
    var ys, ye := YearStart(year), YearStart(year + 1);
    YearsAreWholeDays(year);
    WholeDays(DaysInYear(year));
    Aligned(ys, t, ye);
    Walk(zone, t, ye, ye, h.offsets[0]);
    ChangesStep(zone, ye, ye, h.offsets[0]);
  }

  // One value up to the change and another from there to its sample: found, to the second.
  lemma OneFound(zone: Zone, ys: int, ye: int, t: int, c: int, s: int, a: int, b: int)
    requires forall u :: t - DAY <= u < c && u < ye ==> zone(u) == a
    requires forall u :: c <= u <= s ==> zone(u) == b
    requires a != b && (t - ys) % DAY == 0 && (s - ys) % DAY == 0
    requires t - DAY < c && s - DAY < c <= s <= ye - DAY
    ensures t <= s && zone(t - DAY) == a
    ensures Changes(zone, t, ye, a) == [Change(c, b - a)] + Changes(zone, s + DAY, ye, b)
  {
    hide Changes, Bisect;
    OneDayBack(t, ys);
    Aligned(ys, t - DAY, s);
    Aligned(ys, t, s);
    Walk(zone, t, s, ye, a);
    BisectIsExact(zone, a, s - DAY, s, c);
    ChangesStep(zone, s, ye, a);
  }

  lemma OneDayBack(t: int, ys: int)
    requires (t - ys) % DAY == 0
    ensures (t - DAY - ys) % DAY == 0
  {}

  // The samples up to the one behind the first change list that change.
  lemma FirstFound(zone: Zone, h: History, year: int, t: int)
    requires year >= 1970 && IsHistory(h) && h.changes != [] && EachSeenApart(h.changes, year)
    requires (t - YearStart(year)) % DAY == 0 && t - DAY < h.changes[0]
    requires Takes(zone, h, t - DAY, YearStart(year + 1))
    ensures var c, s, ye := h.changes[0], SampleBehind(h.changes[0], year), YearStart(year + 1);
            && Takes(zone, Later(h), c, ye) && t <= s <= ye - DAY && zone(t - DAY) == h.offsets[0]
            && zone(s) == h.offsets[1]
            && Changes(zone, t, ye, h.offsets[0]) ==
               [Change(c, h.offsets[1] - h.offsets[0])] + Changes(zone, s + DAY, ye, h.offsets[1])
  {
    hide Changes, YearStart;
    var ys, ye, c := YearStart(year), YearStart(year + 1), h.changes[0];
    SampleBehindBounds(c, year);
    AroundFirst(zone, h, t - DAY, ye, year);
    hide OffsetAt, SampleBehind, Takes;
    OneFound(zone, ys, ye, t, c, SampleBehind(c, year), h.offsets[0], h.offsets[1]);
  }

  // From sample t on, the one before having come ahead of all changes.
  lemma {:induction false} AllFound(zone: Zone, h: History, year: int, t: int)
    requires year >= 1970 && IsHistory(h) && EachSeenApart(h.changes, year)
    requires (t - YearStart(year)) % DAY == 0 && t <= YearStart(year + 1)
    requires Takes(zone, h, t - DAY, YearStart(year + 1))
    requires h.changes != [] ==> t - DAY < h.changes[0]
    ensures zone(t - DAY) == h.offsets[0]
    ensures Changes(zone, t, YearStart(year + 1), h.offsets[0]) == StepsOf(h)
    decreases |h.changes|
  {
    hide Changes, YearStart, Bisect, SampleBehind, EachSeenApart;
    var ye := YearStart(year + 1);
    assert zone(t - DAY) == OffsetAt(h, t - DAY) by {
      OneDayIn(year, t);
    }
    if h.changes == [] {
      NoneLeft(zone, h, year, t);
    } else {
      var s := SampleBehind(h.changes[0], year);
      FirstFound(zone, h, year, t);
      LaterSeenApart(h, year);
      FirstThenLater(zone, h, year, s);
      AllFound(zone, Later(h), year, s + DAY);
    }
  }

  lemma FirstThenLater(zone: Zone, h: History, year: int, s: int)
    requires year >= 1970 && IsHistory(h) && h.changes != [] && EachSeenApart(h.changes, year)
    requires s == SampleBehind(h.changes[0], year)
    requires Takes(zone, Later(h), h.changes[0], YearStart(year + 1))
    ensures Takes(zone, Later(h), s, YearStart(year + 1))
    ensures |h.changes| > 1 ==> s < Later(h).changes[0]
    ensures (s + DAY - YearStart(year)) % DAY == 0
  {
    hide YearStart, OffsetAt;
    SampleBehindBounds(h.changes[0], year);
    if |h.changes| > 1 {
      NextSampleIsLater(h.changes[0], h.changes[1], year);
    }
  }

  // ---------------------------------------------------------------------------
  // Found: seen apart
  // ---------------------------------------------------------------------------

  // What the samples list lies behind successive samples, the first no earlier than t.
  lemma {:induction false} ListedAreSeenApart(zone: Zone, year: int, t: int, prev: int)
    requires year >= 1970 && zone(t - DAY) == prev
    requires (t - YearStart(year)) % DAY == 0 && YearStart(year) < t
    ensures var cs := Changes(zone, t, YearStart(year + 1), prev);
            && (forall i :: 0 <= i < |cs| ==> Seen(cs[i].at, year) && t <= SampleBehind(cs[i].at, year))
            && (forall i, j :: 0 <= i < j < |cs| ==>
                  SampleBehind(cs[i].at, year) < SampleBehind(cs[j].at, year))
    decreases YearStart(year + 1) - t
  {
    hide YearStart, Changes, Bisect, SampleBehind, Seen;
    var ye := YearStart(year + 1);
    ChangesStep(zone, t, ye, prev);
    if t < ye {
      NextAligned(t, year);
      ListedAreSeenApart(zone, year, t + DAY, zone(t));
      if zone(t) != prev {
        FoundBehind(zone, year, t, prev);
      }
    }
  }

  lemma NextAligned(t: int, year: int)
    requires (t - YearStart(year)) % DAY == 0
    ensures (t + DAY - YearStart(year)) % DAY == 0
  {
    hide YearStart;
  }

  lemma FoundBehind(zone: Zone, year: int, t: int, prev: int)
    requires year >= 1970 && zone(t - DAY) == prev && zone(t) != prev
    requires (t - YearStart(year)) % DAY == 0 && YearStart(year) < t < YearStart(year + 1)
    ensures var at := Bisect(zone, prev, t - DAY, t);
            Seen(at, year) && SampleBehind(at, year) == t
  {
    hide YearStart, SampleBehind, Bisect;
    var at := Bisect(zone, prev, t - DAY, t);
    var ys, ye, s := YearStart(year), YearStart(year + 1), SampleBehind(at, year);
    SampleBehindBounds(at, year);
    YearsAreWholeDays(year);
    WholeDays(DaysInYear(year));
    Aligned(ys, t, ye);
    Aligned(ys, ys, t);
    Aligned(ys, s, t);
    Aligned(ys, t, s);
    assert zone(at - 1) == prev && t - DAY < at <= t;
  }

  // ---------------------------------------------------------------------------
  // The theorems
  // ---------------------------------------------------------------------------

  lemma SeenApartListed(zone: Zone, year: int, h: History)
    requires year >= 1970 && IsHistory(h) && EachSeenApart(h.changes, year)
    requires Takes(zone, h, YearStart(year), YearStart(year + 1))
    ensures ChangesOfYear(zone, year) == StepsOf(h)
  {
    hide YearStart, Changes, SampleBehind, OffsetAt;
    var ys := YearStart(year);
    YearsAreWholeDays(year);
    WholeDays(1);
    AllFound(zone, h, year, ys + DAY);
  }

  lemma YearsAreSeenApart(zone: Zone, year: int)
    requires year >= 1970
    ensures var cs := ChangesOfYear(zone, year);
            && (forall i :: 0 <= i < |cs| ==> Seen(cs[i].at, year))
            && (forall i, j :: 0 <= i < j < |cs| ==>
                  SampleBehind(cs[i].at, year) < SampleBehind(cs[j].at, year))
  {
    hide YearStart, Changes, SampleBehind, Seen;
    WholeDays(1);
    var ys := YearStart(year);
    ListedAreSeenApart(zone, year, ys + DAY, zone(ys));
    var cs := ChangesOfYear(zone, year);
    assert cs == Changes(zone, ys + DAY, YearStart(year + 1), zone(ys));
    assert forall i :: 0 <= i < |cs| ==> Seen(cs[i].at, year);
  }

  /** However often the zone changes its offset in the year, the probe lists exactly
  those changes, in order, to the second and with the step each makes, if and only if
  each lies behind a daily sample of its own. */
  lemma ListedExactlyWhenSeenApart(zone: Zone, year: int, h: History)
    requires year >= 1970 && IsHistory(h)
    requires Takes(zone, h, YearStart(year), YearStart(year + 1))
    ensures ChangesOfYear(zone, year) == StepsOf(h) <==> EachSeenApart(h.changes, year)
  {
    hide YearStart, ChangesOfYear, SampleBehind;
    if EachSeenApart(h.changes, year) {
      SeenApartListed(zone, year, h);
    }
    if ChangesOfYear(zone, year) == StepsOf(h) {
      YearsAreSeenApart(zone, year);
      var cs := StepsOf(h);
      assert |cs| == |h.changes|;
      forall i | 0 <= i < |h.changes|
        ensures h.changes[i] == cs[i].at
      {
        assert cs[i] == Change(h.changes[i], h.offsets[i + 1] - h.offsets[i]);
      }
    }
  }

  /** Such a zone is read as a rule exactly when it changes twice, as one that never shifts
  exactly when it never does, and is refused after any other number of changes. */
  lemma ValidExactlyWithNoneOrTwo(zone: Zone, year: int, h: History)
    requires 1970 <= year <= 2100 && IsHistory(h)
    requires Takes(zone, h, YearStart(year), YearStart(year + 1)) && EachSeenApart(h.changes, year)
    ensures Probed(zone, year).valid <==> |h.changes| == 0 || |h.changes| == 2
    ensures Probed(zone, year).enabled <==> |h.changes| == 2
  {
    hide YearStart, ChangesOfYear, SampleBehind, TransitionAt;
    ListedExactlyWhenSeenApart(zone, year, h);
  }

  /** So nothing can be said of any rule of the pump beside a zone with another number of
  changes; and of the counts that can be read, none says the node does not shift and two
  say it does. */
  lemma VerdictByCount(zone: Zone, year: int, h: History, p: DstRule)
    requires 1970 <= year <= 2100 && IsHistory(h)
    requires Takes(zone, h, YearStart(year), YearStart(year + 1)) && EachSeenApart(h.changes, year)
    ensures var verdict, n := CompareDstRules(p, Probed(zone, year), year), |h.changes|;
            && (verdict == Unknown <==> !p.valid || (n != 0 && n != 2))
            && (verdict == PumpOnly || verdict == Neither <==> p.valid && n == 0)
            && (verdict == PumpOnly <==> p.valid && n == 0 && p.enabled)
            && (verdict == HostOnly <==> p.valid && n == 2 && !p.enabled)
  {
    hide Probed, TransitionsCoincide, EachSeenApart, Takes;
    ValidExactlyWithNoneOrTwo(zone, year, h);
  }

  /** Nothing is said of a year the probe does not cover. */
  lemma VerdictOutsideYears(zone: Zone, year: int, p: DstRule)
    requires year < 1970 || year > 2100
    ensures CompareDstRules(p, Probed(zone, year), year) == Unknown
  {}
}
