/** The calendar of components/alpha_hwr/dst_rule.h:162-243: day numbers counted from
1970-01-01, weekdays, and "the Nth weekday of the month".
*/
module CivilDate {

  predicate IsLeap(year: int) {
    (year % 4 == 0 && year % 100 != 0) || year % 400 == 0
  }

  // 0 for a month that does not exist.
  function DaysInMonth(month: nat, year: int): nat {
    if month == 2 then (if IsLeap(year) then 29 else 28)
    else if month == 4 || month == 6 || month == 9 || month == 11 then 30
    else if 1 <= month <= 12 then 31
    else 0
  }

  function DaysInYear(year: int): nat {
    if IsLeap(year) then 366 else 365
  }

  // Days before January 1st, counted from 1970; years before that count as none.
  function DaysBeforeYear(year: int): nat
    decreases year - 1970
  {
    if year <= 1970 then 0 else DaysBeforeYear(year - 1) + DaysInYear(year - 1)
  }

  function DaysBeforeMonth(month: nat, year: int): nat {
    if month <= 1 then 0 else DaysBeforeMonth(month - 1, year) + DaysInMonth(month - 1, year)
  }

  function DaysFromEpoch(year: int, month: nat, day: nat): int {
    DaysBeforeYear(year) + DaysBeforeMonth(month, year) + day - 1
  }

  /** dst_days_from_epoch: whole years first, then whole months of the year. */
  method ComputeDaysFromEpoch(year: int, month: nat, day: nat) returns (days: int)
    ensures days == DaysFromEpoch(year, month, day)
  {
    days := 0;
    var y := 1970;
    while y < year
      invariant y <= year || y == 1970
      invariant days == DaysBeforeYear(y)
    {
      days := days + if IsLeap(y) then 366 else 365;
      y := y + 1;
    }
    assert DaysBeforeYear(y) == DaysBeforeYear(year);
    var m := 1;
    while m < month
      invariant m <= month || m == 1
      invariant days == DaysBeforeYear(year) + DaysBeforeMonth(m, year)
    {
      days := days + DaysInMonth(m, year);
      m := m + 1;
    }
    assert DaysBeforeMonth(m, year) == DaysBeforeMonth(month, year);
    days := days + (day - 1);
  }

  // ---------------------------------------------------------------------------
  // Dates and their successors
  // ---------------------------------------------------------------------------

  datatype Date = Date(year: int, month: nat, day: nat)

  predicate IsDate(d: Date) {
    1 <= d.month <= 12 && 1 <= d.day <= DaysInMonth(d.month, d.year)
  }

  function Number(d: Date): int {
    DaysFromEpoch(d.year, d.month, d.day)
  }

  // The day after, the way a wall clock rolls over midnight.
  function Next(d: Date): Date {
    if d.day + 1 <= DaysInMonth(d.month, d.year) then d.(day := d.day + 1)
    else if d.month + 1 <= 12 then Date(d.year, d.month + 1, 1)
    else Date(d.year + 1, 1, 1)
  }

  lemma YearIsItsMonths(year: int)
    ensures DaysBeforeMonth(12, year) + DaysInMonth(12, year) == DaysInYear(year)
  {
    assert DaysBeforeMonth(4, year) == DaysBeforeMonth(2, year) + DaysInMonth(2, year) + 31;
    assert DaysBeforeMonth(6, year) == DaysBeforeMonth(4, year) + 30 + 31;
    assert DaysBeforeMonth(8, year) == DaysBeforeMonth(6, year) + 30 + 31;
    assert DaysBeforeMonth(10, year) == DaysBeforeMonth(8, year) + 31 + 30;
    assert DaysBeforeMonth(12, year) == DaysBeforeMonth(10, year) + 31 + 30;
  }

  /** Day numbers are consecutive over consecutive dates. */
  lemma NextIsOneMore(d: Date)
    requires IsDate(d) && d.year >= 1970
    ensures IsDate(Next(d)) && Next(d).year >= 1970
    ensures Number(Next(d)) == Number(d) + 1
  {
    hide IsLeap;
    if d.day + 1 <= DaysInMonth(d.month, d.year) {
    } else if d.month < 12 {
      assert DaysBeforeMonth(d.month + 1, d.year) == DaysBeforeMonth(d.month, d.year) + DaysInMonth(d.month, d.year);
    } else {
      YearIsItsMonths(d.year);
      assert DaysBeforeMonth(1, d.year + 1) == 0;
    }
  }

  predicate Before(a: Date, b: Date) {
    a.year < b.year || (a.year == b.year && (a.month < b.month || (a.month == b.month && a.day < b.day)))
  }

  lemma {:induction false} MonthsAddUp(m: nat, n: nat, year: int)
    requires 1 <= m < n
    ensures DaysBeforeMonth(m, year) + DaysInMonth(m, year) <= DaysBeforeMonth(n, year)
    decreases n
  {
    if m + 1 < n {
      MonthsAddUp(m, n - 1, year);
    }
  }

  lemma {:induction false} YearsAddUp(y: int, z: int)
    requires 1970 <= y < z
    ensures DaysBeforeYear(y) + DaysInYear(y) <= DaysBeforeYear(z)
    decreases z - y
  {
    if y + 1 < z {
      YearsAddUp(y, z - 1);
    }
  }

  lemma WithinYear(d: Date)
    requires IsDate(d)
    ensures DaysBeforeMonth(d.month, d.year) + d.day <= DaysInYear(d.year)
  {
    YearIsItsMonths(d.year);
    if d.month < 12 {
      MonthsAddUp(d.month, 12, d.year);
    }
  }

  lemma EarlierIsLess(a: Date, b: Date)
    requires IsDate(a) && IsDate(b) && a.year >= 1970 && b.year >= 1970
    requires Before(a, b)
    ensures Number(a) < Number(b)
  {
    if a.year < b.year {
      WithinYear(a);
      YearsAddUp(a.year, b.year);
    } else if a.month < b.month {
      MonthsAddUp(a.month, b.month, a.year);
    }
  }

  /** Day numbers order dates: strictly increasing, so no two dates share one. */
  lemma NumbersOrderDates(a: Date, b: Date)
    requires IsDate(a) && IsDate(b) && a.year >= 1970 && b.year >= 1970
    ensures Number(a) < Number(b) <==> Before(a, b)
    ensures Number(a) == Number(b) <==> a == b
  {
    if Before(a, b) {
      EarlierIsLess(a, b);
    } else if Before(b, a) {
      EarlierIsLess(b, a);
    }
  }

  // ---------------------------------------------------------------------------
  // Back from day numbers
  // ---------------------------------------------------------------------------

  function MonthOf(dayOfYear: nat, month: nat, year: int): (d: Date)
    ensures d.day >= 1
    decreases 12 - month
  {
    if month >= 12 || dayOfYear < DaysInMonth(month, year) then Date(year, month, dayOfYear + 1)
    else MonthOf(dayOfYear - DaysInMonth(month, year), month + 1, year)
  }

  function YearOf(n: nat, year: int): (d: Date)
    ensures d.day >= 1
    decreases n
  {
    if n < DaysInYear(year) then MonthOf(n, 1, year)
    else YearOf(n - DaysInYear(year), year + 1)
  }

  // The day n days before the end of the given year.
  function YearBack(n: nat, year: int): (d: Date)
    ensures d.day >= 1
    decreases n
  {
    if n <= DaysInYear(year) then MonthOf(DaysInYear(year) - n, 1, year)
    else YearBack(n - DaysInYear(year), year - 1)
  }

  /** The civil date of a day number, before 1970 as well. */
  function Civil(n: int): (d: Date)
    ensures d.day >= 1
  {
    if n >= 0 then YearOf(n, 1970) else YearBack(-n, 1969)
  }

  lemma {:induction false} MonthOfIsDate(dayOfYear: nat, month: nat, year: int)
    requires 1 <= month <= 12
    requires DaysBeforeMonth(month, year) + dayOfYear < DaysInYear(year)
    ensures var d := MonthOf(dayOfYear, month, year);
            && IsDate(d) && d.year == year
            && DaysBeforeMonth(d.month, year) + d.day == DaysBeforeMonth(month, year) + dayOfYear + 1
    decreases 12 - month
  {
    YearIsItsMonths(year);
    if month < 12 && dayOfYear >= DaysInMonth(month, year) {
      MonthOfIsDate(dayOfYear - DaysInMonth(month, year), month + 1, year);
    }
  }

  lemma {:induction false} YearOfIsDate(n: nat, year: int)
    requires year >= 1970
    ensures var d := YearOf(n, year);
            IsDate(d) && d.year >= 1970 && Number(d) == DaysBeforeYear(year) + n
    decreases n
  {
    if n < DaysInYear(year) {
      MonthOfIsDate(n, 1, year);
    } else {
      YearOfIsDate(n - DaysInYear(year), year + 1);
    }
  }

  /** Every day number from 0 on is the number of exactly one date. */
  lemma CivilInverse(n: int, d: Date)
    requires n >= 0 && IsDate(d) && d.year >= 1970
    ensures IsDate(Civil(n)) && Civil(n).year >= 1970
    ensures Civil(n) == d <==> Number(d) == n
  {
    YearOfIsDate(n, 1970);
    NumbersOrderDates(Civil(n), d);
  }

  /** The wall clock rolls from each day into the next, across 1970 too. */
  lemma NextCivil(n: int)
    requires n >= -1
    ensures Next(Civil(n)) == Civil(n + 1)
  {
    if n >= 0 {
      YearOfIsDate(n, 1970);
      YearOfIsDate(n + 1, 1970);
      NextIsOneMore(Civil(n));
      NumbersOrderDates(Next(Civil(n)), Civil(n + 1));
    } else {
      LastDayOf1969();
    }
  }

  lemma LastDayOf1969()
    ensures Civil(-1) == Date(1969, 12, 31)
  {
    assert DaysInYear(1969) == 365;
    MonthOfIsDate(364, 1, 1969);
    YearIsItsMonths(1969);
    var d := MonthOf(364, 1, 1969);
    if d.month < 12 {
      MonthsAddUp(d.month, 12, 1969);
    }
  }

  // ---------------------------------------------------------------------------
  // The Gregorian calendar
  // ---------------------------------------------------------------------------

  /** Years are long as Pope Gregory had them: every fourth a leap year, but of the
  centuries only every fourth. */
  lemma {:induction false} GregorianYears(year: int)
    requires year >= 1970
    ensures DaysBeforeYear(year) == 365 * (year - 1970) + (year - 1) / 4 - (year - 1) / 100 + (year - 1) / 400 - 477
    decreases year
  {
    if year == 1970 {
    } else {
      GregorianYears(year - 1);
      OneYearOn(year - 1);
    }
  }

  lemma OneYearOn(year: int)
    requires year >= 1
    ensures year / 4 - (year - 1) / 4 == if year % 4 == 0 then 1 else 0
    ensures year / 100 - (year - 1) / 100 == if year % 100 == 0 then 1 else 0
    ensures year / 400 - (year - 1) / 400 == if year % 400 == 0 then 1 else 0
    ensures year % 400 == 0 ==> year % 100 == 0
    ensures year % 100 == 0 ==> year % 4 == 0
  {}

  /** And months by the knuckles: 31 and 30 by turns, but two of 31 in July and August; and
  February has the day more that its year has. */
  lemma MonthLengths(month: nat, year: int)
    requires 1 <= month <= 12 && year >= 1970
    ensures DaysInMonth(month, year) ==
            if month == 2 then 28 + DaysBeforeYear(year + 1) - DaysBeforeYear(year) - 365
            else 30 + (month + month / 8) % 2
  {}

  // ---------------------------------------------------------------------------
  // Weekdays, 1 = Monday
  // ---------------------------------------------------------------------------

  // Where in the week the month starts.
  function MonthBase(year: int, month: nat): int {
    DaysBeforeYear(year) + DaysBeforeMonth(month, year) + 2
  }

  /** dst_weekday_of: the day number plus three, modulo seven. The day number is never
  below -1 here, so the source's guard for a negative remainder never fires. */
  function WeekdayOf(year: int, month: nat, day: nat): (w: nat)
    ensures 1 <= w <= 7
    ensures w == (DaysFromEpoch(year, month, day) + 3) % 7 + 1
  {
    (MonthBase(year, month) + day) % 7 + 1
  }

  function WeekdayAfter(w: nat): nat {
    w % 7 + 1
  }

  /** Weekdays advance cyclically over the dates; 1970-01-01 is a Thursday. */
  lemma WeekdaysCycle(d: Date)
    requires IsDate(d) && d.year >= 1970
    ensures WeekdayOf(1970, 1, 1) == 4
    ensures var e := Next(d);
            WeekdayOf(e.year, e.month, e.day) == WeekdayAfter(WeekdayOf(d.year, d.month, d.day))
  {
    NextIsOneMore(d);
  }

  lemma SameRemainder(base: int, a: int, b: int)
    ensures (base + a) % 7 == (base + b) % 7 <==> (a - b) % 7 == 0
  {}

  // The week comes round: from any point, every weekday is less than seven days ahead.
  lemma WeekComesRound(x: int, w: int)
    requires 1 <= w <= 7
    ensures (x + (w - (x % 7 + 1)) % 7) % 7 + 1 == w
  {
    var r := x % 7;
    var ahead := if w >= r + 1 then w - (r + 1) else w - (r + 1) + 7;
    assert (w - (r + 1)) % 7 == ahead;
    assert x + ahead == 7 * (x / 7) + r + ahead;
  }

  lemma SameWeekday(year: int, month: nat, a: nat, b: nat)
    ensures WeekdayOf(year, month, a) == WeekdayOf(year, month, b) <==> (a - b) % 7 == 0
  {
    hide MonthBase, DaysFromEpoch;
    SameRemainder(MonthBase(year, month), a, b);
  }

  // ---------------------------------------------------------------------------
  // "The Nth weekday of the month"
  // ---------------------------------------------------------------------------

  datatype DstTransition = DstTransition(month: nat, weekday: nat, occurrence: nat, hour: nat)

  // The first day of the month, from the given one to the seventh, on the weekday.
  function FirstOn(year: int, month: nat, weekday: nat, from: nat): nat
    decreases 8 - from
  {
    if from > 7 then 0
    else if WeekdayOf(year, month, from) == weekday then from
    else FirstOn(year, month, weekday, from + 1)
  }

  // Seven days on, as long as the month allows.
  function LastFrom(day: nat, days: nat): nat
    decreases days - day
  {
    if day + 7 <= days then LastFrom(day + 7, days) else day
  }

  function Resolve(d: DstTransition, year: int): nat {
    var days := DaysInMonth(d.month, year);
    if days == 0 || d.weekday < 1 || d.weekday > 7 || d.occurrence < 1 then 0
    else
      var first := FirstOn(year, d.month, d.weekday, 1);
      if first == 0 then 0
      else if d.occurrence >= 5 then LastFrom(first, days)
      else
        var day := first + 7 * (d.occurrence - 1);
        if day > days then 0 else day
  }

  /** resolve_transition_day, loops and all. */
  method ResolveTransitionDay(d: DstTransition, year: int) returns (day: nat)
    ensures day == Resolve(d, year)
  {
    var days := DaysInMonth(d.month, year);
    if days == 0 {
      return 0;
    }
    if d.weekday < 1 || d.weekday > 7 {
      return 0;
    }
    if d.occurrence < 1 {
      return 0;
    }
    var first := 0;
    var candidate := 1;
    while candidate <= 7
      invariant 1 <= candidate <= 8
      invariant first == 0
      invariant FirstOn(year, d.month, d.weekday, candidate) == FirstOn(year, d.month, d.weekday, 1)
    {
      if WeekdayOf(year, d.month, candidate) == d.weekday {
        first := candidate;
        break;
      }
      candidate := candidate + 1;
    }
    if first == 0 {
      return 0;
    }
    if d.occurrence >= 5 {
      var last := first;
      while last + 7 <= days
        invariant LastFrom(last, days) == LastFrom(first, days)
        decreases days - last
      {
        last := last + 7;
      }
      return last;
    }
    day := first + 7 * (d.occurrence - 1);
    if day > days {
      day := 0;
    }
  }

  // How many of the first n days of the month fall on the weekday.
  function CountOn(year: int, month: nat, weekday: nat, n: nat): nat {
    if n == 0 then 0
    else CountOn(year, month, weekday, n - 1) + if WeekdayOf(year, month, n) == weekday then 1 else 0
  }

  // The Nth such day of the month.
  predicate IsNth(year: int, month: nat, weekday: nat, n: nat, day: nat) {
    1 <= day <= DaysInMonth(month, year) &&
    WeekdayOf(year, month, day) == weekday &&
    CountOn(year, month, weekday, day) == n
  }

  // The last such day of the month.
  predicate IsLast(year: int, month: nat, weekday: nat, day: nat) {
    1 <= day <= DaysInMonth(month, year) &&
    WeekdayOf(year, month, day) == weekday &&
    CountOn(year, month, weekday, day) == CountOn(year, month, weekday, DaysInMonth(month, year))
  }

  lemma {:induction false} FirstOnIsFirst(year: int, month: nat, weekday: nat, from: nat, k: nat)
    requires 1 <= from <= k <= 7 && WeekdayOf(year, month, k) == weekday
    ensures var f := FirstOn(year, month, weekday, from);
            from <= f <= 7 && WeekdayOf(year, month, f) == weekday
    decreases 8 - from
  {
    hide WeekdayOf, DaysFromEpoch;
    if WeekdayOf(year, month, from) != weekday {
      FirstOnIsFirst(year, month, weekday, from + 1, k);
    }
  }

  // Every weekday occurs in the first seven days.
  lemma FirstExists(year: int, month: nat, weekday: nat)
    requires 1 <= weekday <= 7
    ensures var f := FirstOn(year, month, weekday, 1);
            1 <= f <= 7 && WeekdayOf(year, month, f) == weekday
  {
    hide MonthBase, DaysFromEpoch;
    var k := 1 + (weekday - WeekdayOf(year, month, 1)) % 7;
    WeekComesRound(MonthBase(year, month) + 1, weekday);
    assert WeekdayOf(year, month, k) == weekday;
    FirstOnIsFirst(year, month, weekday, 1, k);
  }

  // From the first one on, the weekday returns every seven days.
  lemma {:induction false} CountFromFirst(year: int, month: nat, weekday: nat, first: nat, n: nat)
    requires 1 <= first <= 7 && WeekdayOf(year, month, first) == weekday
    ensures CountOn(year, month, weekday, n) == if n < first then 0 else (n - first) / 7 + 1
    decreases n
  {
    hide WeekdayOf, DaysFromEpoch;
    if n == 0 {
    } else {
      CountFromFirst(year, month, weekday, first, n - 1);
      SameWeekday(year, month, n, first);
    }
  }

  lemma {:induction false} LastFromIsLast(day: nat, days: nat)
    requires 1 <= day <= days
    ensures var last := LastFrom(day, days);
            day <= last <= days < last + 7 && (last - day) % 7 == 0
    decreases days - day
  {
    if day + 7 <= days {
      LastFromIsLast(day + 7, days);
    }
  }

  predicate FieldsResolve(d: DstTransition) {
    1 <= d.month <= 12 && 1 <= d.weekday <= 7 && d.occurrence >= 1
  }

  /** Fields that describe a date resolve to exactly the day they describe: the Nth such
  weekday of the month, or the last one from occurrence 5 on. Other fields resolve to 0. */
  lemma ResolveIsTheDay(d: DstTransition, year: int, day: nat)
    ensures Resolve(d, year) == 0 <==> !FieldsResolve(d)
    ensures FieldsResolve(d) ==>
              (Resolve(d, year) == day <==>
                 if d.occurrence >= 5 then IsLast(year, d.month, d.weekday, day)
                 else IsNth(year, d.month, d.weekday, d.occurrence, day))
  {
    hide WeekdayOf, DaysFromEpoch;
    if FieldsResolve(d) {
      var days := DaysInMonth(d.month, year);
      FirstExists(year, d.month, d.weekday);
      var first := FirstOn(year, d.month, d.weekday, 1);
      CountFromFirst(year, d.month, d.weekday, first, day);
      CountFromFirst(year, d.month, d.weekday, first, days);
      LastFromIsLast(first, days);
      SameWeekday(year, d.month, day, first);
      SameWeekday(year, d.month, LastFrom(first, days), first);
    }
  }

  // What the prober writes down for a date (dst_rule.h:393-394).
  function Encode(d: Date, hour: nat): DstTransition
    requires d.day >= 1
  {
    DstTransition(d.month, WeekdayOf(d.year, d.month, d.day), (d.day - 1) / 7 + 1, hour)
  }

  /** Encoding a date as weekday and occurrence and resolving it in its own year gives
  the date back; a fifth occurrence is read as the last one, which it is. */
  lemma EncodeResolves(d: Date, hour: nat)
    requires IsDate(d)
    ensures Resolve(Encode(d, hour), d.year) == d.day
  {
    hide WeekdayOf, DaysFromEpoch;
    var e := Encode(d, hour);
    var days := DaysInMonth(d.month, d.year);
    FirstExists(d.year, d.month, e.weekday);
    var first := FirstOn(d.year, d.month, e.weekday, 1);
    SameWeekday(d.year, d.month, d.day, first);
    LastFromIsLast(first, days);
  }
}
