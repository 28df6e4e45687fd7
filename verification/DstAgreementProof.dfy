/** Probing a zone that follows a rule finds a rule that agrees with it.

The pump's rule names local wall-clock hours. A zone follows it in a year when, over that
UTC year, its offset is the daylight one between the two instants the rule names and the
standard one elsewhere, in whichever order the two fall (either hemisphere). The daily
samples then decide everything: the comparison says Agree exactly when each change lies
behind a sample of its own.
*/
module DstAgreementProof {
  import opened CivilDate
  import opened DstProbe

  // ---------------------------------------------------------------------------
  // A zone that follows a rule
  // ---------------------------------------------------------------------------

  predicate InRange(d: DstTransition) {
    1 <= d.month <= 12 && 1 <= d.weekday <= 7 && 1 <= d.occurrence <= 5 && d.hour <= 23
  }

  // A decoded, enabled rule that does shift.
  predicate IsShiftingRule(r: DstRule) {
    r.valid && r.enabled && InRange(r.start) && InRange(r.end) && 1 <= r.offsetMinutes < 0x1_0000
  }

  // The date a transition names in a year.
  function DateOf(d: DstTransition, year: int): (date: Date)
    requires InRange(d)
    ensures IsDate(date) && date == Date(year, d.month, Resolve(d, year))
  {
    ResolveIsTheDay(d, year, Resolve(d, year));
    Date(year, d.month, Resolve(d, year))
  }

  // The wall-clock second a transition names, counted as if the wall clock were UTC.
  function LocalSecond(d: DstTransition, year: int): int {
    DaysFromEpoch(year, d.month, Resolve(d, year)) * DAY + d.hour * HOUR
  }

  function Shift(r: DstRule): int {
    r.offsetMinutes * 60
  }

  // Onto daylight time when the standard clock says so, off it when the daylight one does.
  function SpringAt(r: DstRule, std: int, year: int): int {
    LocalSecond(r.start, year) - std
  }

  function FallAt(r: DstRule, std: int, year: int): int {
    LocalSecond(r.end, year) - (std + Shift(r))
  }

  predicate OnDaylightTime(r: DstRule, std: int, year: int, t: int) {
    var spring, fall := SpringAt(r, std, year), FallAt(r, std, year);
    if spring < fall then spring <= t < fall else !(fall <= t < spring)
  }

  ghost predicate Follows(zone: Zone, r: DstRule, std: int, year: int) {
    forall t :: YearStart(year) <= t < YearStart(year + 1) ==>
      zone(t) == if OnDaylightTime(r, std, year, t) then std + Shift(r) else std
  }

  // ---------------------------------------------------------------------------
  // What the samples can see
  // ---------------------------------------------------------------------------

  // A sample of the year comes before the change, and one comes at or behind it.
  predicate Seen(change: int, year: int) {
    YearStart(year) < change <= YearStart(year + 1) - DAY
  }

  // The first daily sample at or behind the change.
  function SampleBehind(change: int, year: int): int {
    YearStart(year) + (change - YearStart(year) + DAY - 1) / DAY * DAY
  }

  lemma YearsAreWholeDays(year: int)
    requires year >= 1970
    ensures YearStart(year + 1) == YearStart(year) + DaysInYear(year) * DAY
  {}

  lemma SampleBehindBounds(change: int, year: int)
    requires year >= 1970
    ensures var s := SampleBehind(change, year);
            && s - DAY < change <= s
            && (s - YearStart(year)) % DAY == 0
            && (Seen(change, year) ==> YearStart(year) < s <= YearStart(year + 1) - DAY)
  {
    YearsAreWholeDays(year);
    var n := change - YearStart(year) + DAY - 1;
    assert n == n / DAY * DAY + n % DAY;
    WholeDays(n / DAY);
    if Seen(change, year) {
      var days := DaysInYear(year);
      assert n / DAY * DAY < (days - 1) * DAY + 1;
      assert n / DAY <= days - 1;
    }
  }

  lemma WholeDays(k: int)
    ensures (k * DAY) % DAY == 0
  {}

  // Samples from t up to (not including) u all read v.
  ghost predicate SamplesRead(zone: Zone, t: int, u: int, v: int) {
    forall s :: t <= s < u && (s - t) % DAY == 0 ==> zone(s) == v
  }

  lemma {:induction false} Walk(zone: Zone, t: int, u: int, yearEnd: int, prev: int)
    requires zone(t - DAY) == prev && t <= u <= yearEnd && (u - t) % DAY == 0
    requires SamplesRead(zone, t, u, prev)
    ensures zone(u - DAY) == prev
    ensures Changes(zone, t, yearEnd, prev) == Changes(zone, u, yearEnd, prev)
    decreases u - t
  {
    if t < u {
      assert zone(t) == prev;
      assert t + DAY <= u;
      forall s | t + DAY <= s < u && (s - (t + DAY)) % DAY == 0
        ensures zone(s) == prev
      {
        assert (s - t) % DAY == 0;
      }
      ChangesStep(zone, t, yearEnd, prev);
      Walk(zone, t + DAY, u, yearEnd, prev);
    }
  }

  // One value up to u and another from there on: one change at most.
  lemma AtMostOneChange(zone: Zone, t: int, u: int, yearEnd: int, prev: int, v: int)
    requires zone(t - DAY) == prev && t <= u <= yearEnd
    requires (u - t) % DAY == 0 && (yearEnd - u) % DAY == 0
    requires SamplesRead(zone, t, u, prev) && SamplesRead(zone, u, yearEnd, v)
    ensures |Changes(zone, t, yearEnd, prev)| <= 1
  {
    Walk(zone, t, u, yearEnd, prev);
    ChangesStep(zone, u, yearEnd, prev);
    if u < yearEnd {
      assert zone(u) == v;
      assert u + DAY <= yearEnd;
      forall s | u + DAY <= s < yearEnd && (s - (u + DAY)) % DAY == 0
        ensures zone(s) == v
      {
        assert (s - u) % DAY == 0;
      }
      Walk(zone, u + DAY, yearEnd, yearEnd, v);
      ChangesStep(zone, yearEnd, yearEnd, v);
    }
  }

  // ---------------------------------------------------------------------------
  // One excursion: offset a, except offset b from c1 until c2
  // ---------------------------------------------------------------------------

  ghost predicate Excursion(zone: Zone, year: int, a: int, b: int, c1: int, c2: int) {
    forall t :: YearStart(year) <= t < YearStart(year + 1) ==> zone(t) == if c1 <= t < c2 then b else a
  }

  predicate SeenApart(c1: int, c2: int, year: int) {
    Seen(c1, year) && Seen(c2, year) && SampleBehind(c1, year) != SampleBehind(c2, year)
  }

  lemma Aligned(ys: int, s1: int, s2: int)
    requires (s1 - ys) % DAY == 0 && (s2 - ys) % DAY == 0
    ensures (s2 - s1) % DAY == 0
    ensures (s1 - (ys + DAY)) % DAY == 0
    ensures (s2 - (s1 + DAY)) % DAY == 0
    ensures s1 < s2 ==> s1 + DAY <= s2
  {}

  // Both ends seen, each behind a sample of its own: found, in order, to the second.
  lemma BothEnds(zone: Zone, ys: int, ye: int, a: int, b: int, c1: int, c2: int, s1: int, s2: int)
    requires forall t :: ys <= t < ye ==> zone(t) == if c1 <= t < c2 then b else a
    requires a != b && ys < s1 < s2 <= ye - DAY && (ye - ys) % DAY == 0
    requires s1 - DAY < c1 <= s1 && (s1 - ys) % DAY == 0
    requires s2 - DAY < c2 <= s2 && (s2 - ys) % DAY == 0
    requires ys < c1
    ensures Changes(zone, ys + DAY, ye, zone(ys)) == [Change(c1, b - a), Change(c2, a - b)]
    ensures zone(c1 - 1) == a && zone(c2 - 1) == b
  {
    hide Changes, Bisect;
    Aligned(ys, s1, s2);
    Aligned(ys, s2, ye);
    assert ys + DAY <= s1;

    Walk(zone, ys + DAY, s1, ye, a);
    BisectIsExact(zone, a, s1 - DAY, s1, c1);
    ChangesStep(zone, s1, ye, a);

    Walk(zone, s1 + DAY, s2, ye, b);
    BisectIsExact(zone, b, s2 - DAY, s2, c2);
    ChangesStep(zone, s2, ye, b);

    Walk(zone, s2 + DAY, ye, ye, a);
    ChangesStep(zone, ye, ye, a);
  }

  lemma BothFound(zone: Zone, year: int, a: int, b: int, c1: int, c2: int)
    requires year >= 1970 && a != b && c1 < c2
    requires Excursion(zone, year, a, b, c1, c2) && SeenApart(c1, c2, year)
    ensures ChangesOfYear(zone, year) == [Change(c1, b - a), Change(c2, a - b)]
    ensures zone(c1 - 1) == a && zone(c2 - 1) == b
  {
    hide Changes, YearStart;
    var ys, ye := YearStart(year), YearStart(year + 1);
    YearsAreWholeDays(year);
    SampleBehindBounds(c1, year);
    SampleBehindBounds(c2, year);
    WholeDays(DaysInYear(year));
    Ordered(c1, c2, year);
    BothEnds(zone, ys, ye, a, b, c1, c2, SampleBehind(c1, year), SampleBehind(c2, year));
  }

  lemma Ordered(c1: int, c2: int, year: int)
    requires c1 <= c2
    ensures SampleBehind(c1, year) <= SampleBehind(c2, year)
  {
    var ys := YearStart(year);
    var n1, n2 := c1 - ys + DAY - 1, c2 - ys + DAY - 1;
    assert n1 / DAY <= n2 / DAY;
  }

  // Otherwise the samples see one change at most. First, an excursion under way when the
  // year starts.
  lemma OnlyItsEnd(zone: Zone, ys: int, ye: int, a: int, b: int, c1: int, c2: int, s2: int)
    requires forall t :: ys <= t < ye ==> zone(t) == if c1 <= t < c2 then b else a
    requires ys < ye && (ye - ys) % DAY == 0 && c1 <= ys < c2
    requires s2 - DAY < c2 <= s2 && (s2 - ys) % DAY == 0
    ensures |Changes(zone, ys + DAY, ye, b)| <= 1
  {
    hide Changes;
    var u := if c2 <= ye - DAY then s2 else ye;
    Aligned(ys, u, ye);
    assert ys + DAY <= u <= ye;
    AtMostOneChange(zone, ys + DAY, u, ye, b, a);
  }

  // Then, one that outlasts the year's last sample.
  lemma OnlyItsStart(zone: Zone, ys: int, ye: int, a: int, b: int, c1: int, c2: int, s1: int)
    requires forall t :: ys <= t < ye ==> zone(t) == if c1 <= t < c2 then b else a
    requires ys < c1 <= ye - DAY < c2 && (ye - ys) % DAY == 0
    requires s1 - DAY < c1 <= s1 && (s1 - ys) % DAY == 0
    ensures |Changes(zone, ys + DAY, ye, a)| <= 1
  {
    hide Changes;
    Aligned(ys, s1, ye);
    assert ys + DAY <= s1 <= ye;
    AtMostOneChange(zone, ys + DAY, s1, ye, a, b);
  }

  lemma NotBothFound(zone: Zone, year: int, a: int, b: int, c1: int, c2: int)
    requires year >= 1970 && a != b && c1 < c2
    requires Excursion(zone, year, a, b, c1, c2) && !SeenApart(c1, c2, year)
    ensures |ChangesOfYear(zone, year)| <= 1
  {
    hide Changes, YearStart;
    var ys, ye := YearStart(year), YearStart(year + 1);
    var s1, s2 := SampleBehind(c1, year), SampleBehind(c2, year);
    YearsAreWholeDays(year);
    SampleBehindBounds(c1, year);
    SampleBehindBounds(c2, year);
    WholeDays(DaysInYear(year));
    if c1 <= ys < c2 {
      OnlyItsEnd(zone, ys, ye, a, b, c1, c2, s2);
    } else if ys < c1 <= ye - DAY < c2 {
      OnlyItsStart(zone, ys, ye, a, b, c1, c2, s1);
    } else {
      NoneOfIt(zone, ys, ye, a, b, c1, c2, s1, s2);
    }
  }

  // Last, one that no sample falls into.
  lemma NoneOfIt(zone: Zone, ys: int, ye: int, a: int, b: int, c1: int, c2: int, s1: int, s2: int)
    requires forall t :: ys <= t < ye ==> zone(t) == if c1 <= t < c2 then b else a
    requires ys < ye && (ye - ys) % DAY == 0 && c1 < c2
    requires s1 - DAY < c1 <= s1 && (s1 - ys) % DAY == 0
    requires s2 - DAY < c2 <= s2 && (s2 - ys) % DAY == 0
    requires c2 <= ys || ye - DAY < c1 || (ys < c1 && s1 == s2)
    ensures |Changes(zone, ys + DAY, ye, zone(ys))| <= 1
  {
    hide Changes;
    assert ys + DAY <= ye;
    forall s | ys <= s < ye && (s - ys) % DAY == 0
      ensures zone(s) == a
    {
      if c1 <= s < c2 {
        Aligned(ys, s, s1);
        Aligned(ys, s1, s);
        Aligned(ys, s, ye);
      }
    }
    forall s | ys + DAY <= s < ye && (s - (ys + DAY)) % DAY == 0
      ensures zone(s) == a
    {
      assert (s - ys) % DAY == 0;
    }
    assert zone(ys) == a;
    AtMostOneChange(zone, ys + DAY, ye, ye, a, a);
  }

  // ---------------------------------------------------------------------------
  // Reading a change back as a transition
  // ---------------------------------------------------------------------------

  /** One second before a change that the rule places on a full local hour, the wall clock
  is about to reach exactly that hour of that date, local midnight included. */
  lemma ChangeReadsBack(zone: Zone, change: int, d: DstTransition, year: int)
    requires year >= 1970 && InRange(d)
    requires change + zone(change - 1) == LocalSecond(d, year)
    ensures TransitionAt(zone, change) == Encode(DateOf(d, year), d.hour)
  {
    var date := DateOf(d, year);
    var n := Number(date);
    assert n >= 0 && IsDate(date);
    CivilInverse(n, date);
    var local := change - 1 + zone(change - 1);
    assert local == n * DAY + d.hour * HOUR - 1;
    if d.hour > 0 {
      WallClockOf(local, n, d.hour * HOUR - 1);
      assert (d.hour * HOUR - 1) / HOUR == d.hour - 1;
    } else {
      WallClockOf(local, n - 1, DAY - 1);
      NextCivil(n - 1);
    }
  }

  lemma WallClockOf(local: int, n: int, second: int)
    requires local == n * DAY + second && 0 <= second < DAY
    ensures local / DAY == n && local % DAY == second
  {}

  lemma ReadBackCoincides(d: DstTransition, year: int)
    requires year >= 1970 && InRange(d)
    ensures TransitionsCoincide(d, Encode(DateOf(d, year), d.hour), year)
  {
    EncodeResolves(DateOf(d, year), d.hour);
  }

  // ---------------------------------------------------------------------------
  // The theorem
  // ---------------------------------------------------------------------------

  // The rule's two instants, in the order they come.
  function FirstInstant(r: DstRule, std: int, year: int): int {
    var spring, fall := SpringAt(r, std, year), FallAt(r, std, year);
    if spring < fall then spring else fall
  }

  function SecondInstant(r: DstRule, std: int, year: int): int {
    var spring, fall := SpringAt(r, std, year), FallAt(r, std, year);
    if spring < fall then fall else spring
  }

  lemma FollowingIsExcursion(zone: Zone, r: DstRule, std: int, year: int)
    requires Follows(zone, r, std, year)
    ensures var north := SpringAt(r, std, year) < FallAt(r, std, year);
            var a := if north then std else std + Shift(r);
            var b := if north then std + Shift(r) else std;
            Excursion(zone, year, a, b, FirstInstant(r, std, year), SecondInstant(r, std, year))
  {
    hide YearStart, SpringAt, FallAt;
  }

  lemma ProbedFromTwo(zone: Zone, year: int, c1: int, c2: int, shift: int, minutes: nat)
    requires 1970 <= year <= 2100 && 1 <= minutes < 0x1_0000
    requires shift == minutes * 60 || shift == -(minutes * 60)
    requires ChangesOfYear(zone, year) == [Change(c1, shift), Change(c2, -shift)]
    ensures Probed(zone, year) ==
            DstRule(true, true,
                    TransitionAt(zone, if shift > 0 then c1 else c2),
                    TransitionAt(zone, if shift > 0 then c2 else c1), minutes)
  {
    hide ChangesOfYear, TransitionAt;
  }

  lemma ProbedFromFew(zone: Zone, year: int)
    requires |ChangesOfYear(zone, year)| <= 1
    ensures !(Probed(zone, year).valid && Probed(zone, year).enabled)
  {
    hide ChangesOfYear, TransitionAt;
  }

  // What probing such a zone finds, when both changes are seen: the rule itself, its
  // transitions written as the weekdays and occurrences of that year.
  lemma ProbedWhenSeenApart(zone: Zone, r: DstRule, std: int, year: int)
    requires 1970 <= year <= 2100
    requires IsShiftingRule(r) && Follows(zone, r, std, year)
    requires SeenApart(SpringAt(r, std, year), FallAt(r, std, year), year)
    ensures Probed(zone, year) ==
            DstRule(true, true, Encode(DateOf(r.start, year), r.start.hour),
                    Encode(DateOf(r.end, year), r.end.hour), r.offsetMinutes)
  {
    hide ChangesOfYear, LocalSecond, TransitionAt, Probed, Encode, DateOf;
    var spring, fall := SpringAt(r, std, year), FallAt(r, std, year);
    FollowingIsExcursion(zone, r, std, year);
    var a := if spring < fall then std else std + Shift(r);
    var b := if spring < fall then std + Shift(r) else std;
    BothFound(zone, year, a, b, FirstInstant(r, std, year), SecondInstant(r, std, year));
    ProbedFromTwo(zone, year, FirstInstant(r, std, year), SecondInstant(r, std, year), b - a, r.offsetMinutes);
    ChangeReadsBack(zone, spring, r.start, year);
    ChangeReadsBack(zone, fall, r.end, year);
  }

  lemma ProbedWhenNotSeenApart(zone: Zone, r: DstRule, std: int, year: int)
    requires 1970 <= year <= 2100
    requires IsShiftingRule(r) && Follows(zone, r, std, year)
    requires SpringAt(r, std, year) != FallAt(r, std, year)
    requires !SeenApart(SpringAt(r, std, year), FallAt(r, std, year), year)
    ensures !(Probed(zone, year).valid && Probed(zone, year).enabled)
  {
    hide ChangesOfYear, LocalSecond, Probed;
    var spring, fall := SpringAt(r, std, year), FallAt(r, std, year);
    FollowingIsExcursion(zone, r, std, year);
    var a := if spring < fall then std else std + Shift(r);
    var b := if spring < fall then std + Shift(r) else std;
    NotBothFound(zone, year, a, b, FirstInstant(r, std, year), SecondInstant(r, std, year));
    ProbedFromFew(zone, year);
  }

  // A rule whose two instants are one is always on daylight time.
  lemma OneInstantIsSteady(zone: Zone, p: DstRule, std: int, year: int)
    requires 1970 <= year <= 2100 && Follows(zone, p, std, year)
    requires SpringAt(p, std, year) == FallAt(p, std, year)
    ensures !(Probed(zone, year).valid && Probed(zone, year).enabled)
  {
    hide SpringAt, FallAt, Probed;
    SteadyZoneNeverShifts(zone, year, std + Shift(p));
  }

  /** For a zone that follows the rule, the probed rule agrees with it exactly when both
  changes are seen by the daily samples of that year and no sample interval holds both;
  either hemisphere, any standard offset, midnight transitions included. */
  lemma ProbeAgreesExactlyWhenSeenApart(zone: Zone, r: DstRule, std: int, year: int)
    requires 1970 <= year <= 2100
    requires IsShiftingRule(r) && Follows(zone, r, std, year)
    ensures CompareDstRules(r, Probed(zone, year), year) == Agree
       <==> SeenApart(SpringAt(r, std, year), FallAt(r, std, year), year)
  {
    hide LocalSecond, TransitionsCoincide, Probed, Follows;
    if SpringAt(r, std, year) == FallAt(r, std, year) {
      OneInstantIsSteady(zone, r, std, year);
    } else if SeenApart(SpringAt(r, std, year), FallAt(r, std, year), year) {
      ProbedWhenSeenApart(zone, r, std, year);
      ReadBackCoincides(r.start, year);
      ReadBackCoincides(r.end, year);
    } else {
      ProbedWhenNotSeenApart(zone, r, std, year);
    }
  }

  // ---------------------------------------------------------------------------
  // The verdict on any other rule
  // ---------------------------------------------------------------------------

  // In that year, the same hour of the same date.
  predicate SameMoment(d: DstTransition, e: DstTransition, year: int) {
    d.month == e.month && d.hour == e.hour && Resolve(d, year) == Resolve(e, year)
  }

  predicate SameInYear(p: DstRule, r: DstRule, year: int) {
    SameMoment(p.start, r.start, year) && SameMoment(p.end, r.end, year) && p.offsetMinutes == r.offsetMinutes
  }

  lemma CoincidesAsWritten(d: DstTransition, e: DstTransition, year: int)
    requires year >= 1970 && InRange(d) && InRange(e)
    ensures TransitionsCoincide(d, Encode(DateOf(e, year), e.hour), year) <==> SameMoment(d, e, year)
  {
    EncodeResolves(DateOf(e, year), e.hour);
    assert IsDate(DateOf(d, year));
    hide Resolve;
  }

  // What a rule accepted from the pump looks like; a disabled one may hold anything.
  predicate IsAccepted(p: DstRule) {
    p.valid && (p.enabled ==> InRange(p.start) && InRange(p.end))
  }

  /** The verdict on whatever the pump may hold, where the zone shifts: nothing can be said
  of a rule that is not valid; a pump that does not shift is told that the node's zone does;
  and a rule that shifts is judged by that year's two moments and the amount. */
  lemma VerdictOnAnyRule(zone: Zone, r: DstRule, std: int, year: int, p: DstRule)
    requires 1970 <= year <= 2100
    requires IsShiftingRule(r) && Follows(zone, r, std, year)
    requires SeenApart(SpringAt(r, std, year), FallAt(r, std, year), year)
    requires p.valid ==> IsAccepted(p)
    ensures CompareDstRules(p, Probed(zone, year), year) ==
            if !p.valid then Unknown
            else if !p.enabled then HostOnly
            else if SameInYear(p, r, year) then Agree else RulesDiffer
  {
    ProbedWhenSeenApart(zone, r, std, year);
    if p.valid && p.enabled {
      CoincidesAsWritten(p.start, r.start, year);
      CoincidesAsWritten(p.end, r.end, year);
    }
    hide Probed, TransitionsCoincide, SameMoment, Follows, SeenApart, Encode, DateOf;
  }

  /** And where the zone's offset never changes in the year: a pump that shifts does so
  alone, and one that does not agrees that nobody does. */
  lemma VerdictOnSteadyZone(zone: Zone, year: int, offset: int, p: DstRule)
    requires 1970 <= year <= 2100
    requires forall t :: YearStart(year) <= t < YearStart(year + 1) ==> zone(t) == offset
    ensures CompareDstRules(p, Probed(zone, year), year) ==
            if !p.valid then Unknown else if p.enabled then PumpOnly else Neither
  {
    hide Probed;
    SteadyZoneNeverShifts(zone, year, offset);
  }

  /** Two transitions that name no day of the year are not taken to coincide. */
  lemma CoincidingIsReal(d: DstTransition, e: DstTransition, year: int)
    requires TransitionsCoincide(d, e, year)
    ensures d.month == e.month && d.hour == e.hour && Resolve(d, year) == Resolve(e, year) >= 1
  {
    hide Resolve;
  }

  lemma SameInYearFollows(zone: Zone, r: DstRule, std: int, year: int, p: DstRule)
    requires Follows(zone, r, std, year) && SameInYear(p, r, year)
    ensures Follows(zone, p, std, year)
  {
    hide Resolve, DaysFromEpoch;
    assert LocalSecond(p.start, year) == LocalSecond(r.start, year);
    assert LocalSecond(p.end, year) == LocalSecond(r.end, year);
    hide LocalSecond;
    forall t | YearStart(year) <= t < YearStart(year + 1)
      ensures OnDaylightTime(p, std, year, t) == OnDaylightTime(r, std, year, t)
    {}
  }

  /** That is what the verdict means: the rules judged to agree are exactly those that the
  zone follows, too. */
  lemma AgreesExactlyWithWhatIsFollowed(zone: Zone, r: DstRule, std: int, year: int, p: DstRule)
    requires 1970 <= year <= 2100
    requires IsShiftingRule(r) && Follows(zone, r, std, year)
    requires SeenApart(SpringAt(r, std, year), FallAt(r, std, year), year)
    requires IsShiftingRule(p)
    ensures CompareDstRules(p, Probed(zone, year), year) == Agree <==> Follows(zone, p, std, year)
  {
    hide Probed, Follows, SeenApart, SpringAt, FallAt, SameInYear;
    VerdictOnAnyRule(zone, r, std, year, p);
    ProbedWhenSeenApart(zone, r, std, year);
    if SameInYear(p, r, year) {
      SameInYearFollows(zone, r, std, year, p);
    }
    if Follows(zone, p, std, year) {
      if SpringAt(p, std, year) == FallAt(p, std, year) {
        OneInstantIsSteady(zone, p, std, year);
      } else if !SeenApart(SpringAt(p, std, year), FallAt(p, std, year), year) {
        ProbedWhenNotSeenApart(zone, p, std, year);
      } else {
        ProbeAgreesExactlyWhenSeenApart(zone, p, std, year);
      }
    }
  }

  /** In particular: changes on different sampling days, at least a day inside the year. */
  lemma ProbeAgrees(zone: Zone, r: DstRule, std: int, year: int)
    requires 1970 <= year <= 2100
    requires IsShiftingRule(r) && Follows(zone, r, std, year)
    requires var spring, fall := SpringAt(r, std, year), FallAt(r, std, year);
             && YearStart(year) + DAY <= spring <= YearStart(year + 1) - DAY
             && YearStart(year) + DAY <= fall <= YearStart(year + 1) - DAY
             && (fall - spring >= DAY || spring - fall >= DAY)
    ensures CompareDstRules(r, Probed(zone, year), year) == Agree
  {
    SampleBehindBounds(SpringAt(r, std, year), year);
    SampleBehindBounds(FallAt(r, std, year), year);
    ProbeAgreesExactlyWhenSeenApart(zone, r, std, year);
  }

  /** A zone whose offset never changes in the year is probed as one that never shifts. */
  lemma SteadyZoneNeverShifts(zone: Zone, year: int, offset: int)
    requires 1970 <= year <= 2100
    requires forall t :: YearStart(year) <= t < YearStart(year + 1) ==> zone(t) == offset
    ensures Probed(zone, year).valid && !Probed(zone, year).enabled
  {
    hide Changes, YearStart;
    YearsAreWholeDays(year);
    WholeDays(DaysInYear(year));
    var ys, ye := YearStart(year), YearStart(year + 1);
    Aligned(ys, ys, ye);
    assert ys + DAY <= ye;
    Walk(zone, ys + DAY, ye, ye, offset);
    ChangesStep(zone, ye, ye, offset);
  }

  // ---------------------------------------------------------------------------
  // The pump's side (dst_rule.h:113-160)
  // ---------------------------------------------------------------------------

  // The ten bytes of a type 323 object body.
  function DecodeDstRule(body: seq<nat>): DstRule {
    if |body| < 10 then NO_RULE
    else
      var start := DstTransition(body[1], body[2], body[3], body[4]);
      var end := DstTransition(body[5], body[6], body[7], body[8]);
      var enabled := body[0] != 0;
      DstRule(!enabled || (InRange(start) && InRange(end)), enabled, start, end, body[9])
  }

  /** Where each field stands in the body: a rule written in that order is read back, with
  anything behind it, and is valid unless it shifts by fields that describe no date. */
  lemma RuleReadsBack(r: DstRule, flag: nat, tail: seq<nat>)
    requires r.enabled == (flag != 0)
    ensures var body := [flag, r.start.month, r.start.weekday, r.start.occurrence, r.start.hour,
                         r.end.month, r.end.weekday, r.end.occurrence, r.end.hour, r.offsetMinutes] + tail;
            DecodeDstRule(body) == r.(valid := r.enabled ==> InRange(r.start) && InRange(r.end))
  {
    hide InRange;
  }

  /** Nothing shorter is a rule, and what is read as valid is one that a verdict can be
  given on. */
  lemma DecodedIsAccepted(body: seq<nat>)
    ensures |body| < 10 ==> !DecodeDstRule(body).valid
    ensures DecodeDstRule(body).valid ==> IsAccepted(DecodeDstRule(body))
  {}

  /** A rule accepted from the pump as valid and enabled names a real day in every year. */
  lemma DecodedRuleAlwaysResolves(body: seq<nat>, year: int)
    requires DecodeDstRule(body).valid && DecodeDstRule(body).enabled
    ensures var r := DecodeDstRule(body);
            && 1 <= Resolve(r.start, year) <= DaysInMonth(r.start.month, year)
            && 1 <= Resolve(r.end, year) <= DaysInMonth(r.end.month, year)
  {
    var r := DecodeDstRule(body);
    ResolveIsTheDay(r.start, year, Resolve(r.start, year));
    ResolveIsTheDay(r.end, year, Resolve(r.end, year));
  }
}
