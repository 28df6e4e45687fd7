/** The pairing-stall detector of components/alpha_hwr/pairing_stall.h.

It counts connections that opened unbonded and that the pump then dropped without
ever offering to pair. The count is kept in a saturating byte; what it stands for is
defined here on the trace of events, with no counter at all.
*/
module PairingStall {
  import opened Numbers

  const STALL_CYCLES: nat := 3
  const REMINDER_CYCLES: nat := 12
  const UINT8_MAX: nat := 255

  // The reasons that mean the link was lost or ended from this side.
  predicate IsLinkLoss(reason: uint16) {
    reason in {0x0001, 0x0008, 0x0016, 0x0022, 0x003E, 0x0100}
  }

  datatype Event =
    | Open(bonded: bool)
    | SecurityRequest
    | BondEstablished
    | Data
    | LocalTeardown
    | Disconnect(reason: uint16)

  // ---------------------------------------------------------------------------
  // The detector's four fields, and one event on them
  // ---------------------------------------------------------------------------

  datatype Stall = Stall(sawOpen: bool, progress: bool, consecutive: nat, sinceReport: nat)

  const IDLE := Stall(false, false, 0, 0)

  predicate Stalled(s: Stall) {
    s.consecutive >= STALL_CYCLES
  }

  // A disconnect that closes an open cycle the pump ended without progress.
  predicate Counts(s: Stall, e: Event) {
    e.Disconnect? && s.sawOpen && !s.progress && !IsLinkLoss(e.reason)
  }

  function Progressed(s: Stall): Stall {
    s.(progress := true, consecutive := 0)
  }

  function Counted(s: Stall): Stall {
    var n := if s.consecutive < UINT8_MAX then s.consecutive + 1 else s.consecutive;
    var c := s.(sawOpen := false, consecutive := n);
    if n <= STALL_CYCLES then c
    else if s.sinceReport + 1 >= REMINDER_CYCLES then c.(sinceReport := 0)
    else c.(sinceReport := s.sinceReport + 1)
  }

  function Step(s: Stall, e: Event): Stall {
    match e
    case Open(bonded) =>
      var reseated := s.(sawOpen := true, progress := false);
      if bonded then Progressed(reseated) else reseated
    case SecurityRequest => Progressed(s)
    case BondEstablished => Progressed(s)
    case Data => Progressed(s)
    case LocalTeardown => s.(progress := true)
    case Disconnect(_) =>
      if !s.sawOpen then s
      else if Counts(s, e) then Counted(s)
      else s.(sawOpen := false, consecutive := 0, sinceReport := 0)
  }

  // Whether that event asks the caller to report.
  predicate Reports(s: Stall, e: Event) {
    Counts(s, e) &&
    var n := if s.consecutive < UINT8_MAX then s.consecutive + 1 else s.consecutive;
    n == STALL_CYCLES || (n > STALL_CYCLES && s.sinceReport + 1 >= REMINDER_CYCLES)
  }

  function Run(trace: seq<Event>): (s: Stall)
    ensures s.consecutive <= UINT8_MAX && s.sinceReport < REMINDER_CYCLES
  {
    if trace == [] then IDLE else Step(Run(trace[..|trace| - 1]), trace[|trace| - 1])
  }

  class PairingStallDetector {
    var sawOpen: bool
    var progress: bool
    var consecutive: nat
    var sinceReport: nat

    function State(): Stall
      reads this
    {
      Stall(sawOpen, progress, consecutive, sinceReport)
    }

    predicate IsStalled()
      reads this
    {
      consecutive >= STALL_CYCLES
    }

    // Both bytes in range; the reminder counter never reaches its ceiling.
    predicate Valid()
      reads this
    {
      consecutive <= UINT8_MAX && sinceReport < REMINDER_CYCLES
    }

    constructor ()
      ensures Valid() && State() == IDLE
    {
      sawOpen, progress, consecutive, sinceReport := false, false, 0, 0;
    }

    method NoteProgress()
      modifies this
      ensures State() == Progressed(old(State()))
      ensures old(Valid()) ==> Valid()
    {
      progress := true;
      consecutive := 0;
    }

    method OnConnectionOpened(bondedAtOpen: bool)
      modifies this
      ensures State() == Step(old(State()), Open(bondedAtOpen))
      ensures old(Valid()) ==> Valid()
    {
      sawOpen := true;
      progress := false;
      if bondedAtOpen {
        NoteProgress();
      }
    }

    method NoteSecurityRequest()
      modifies this
      ensures State() == Step(old(State()), SecurityRequest)
      ensures old(Valid()) ==> Valid()
    {
      NoteProgress();
    }

    method NoteBondEstablished()
      modifies this
      ensures State() == Step(old(State()), BondEstablished)
      ensures old(Valid()) ==> Valid()
    {
      NoteProgress();
    }

    method NoteData()
      modifies this
      ensures State() == Step(old(State()), Data)
      ensures old(Valid()) ==> Valid()
    {
      NoteProgress();
    }

    method NoteLocalTeardown()
      modifies this
      ensures State() == Step(old(State()), LocalTeardown)
      ensures old(Valid()) ==> Valid()
    {
      progress := true;
    }

    method OnDisconnected(reason: uint16) returns (report: bool)
      requires Valid()
      modifies this
      ensures Valid() && State() == Step(old(State()), Disconnect(reason))
      ensures report == Reports(old(State()), Disconnect(reason))
    {
      if !sawOpen {
        return false;
      }
      sawOpen := false;
      if progress || IsLinkLoss(reason) {
        consecutive := 0;
        sinceReport := 0;
        return false;
      }
      if consecutive < UINT8_MAX {
        consecutive := consecutive + 1;
      }
      if consecutive < STALL_CYCLES {
        return false;
      }
      if consecutive == STALL_CYCLES {
        return true;
      }
      sinceReport := sinceReport + 1;
      if sinceReport >= REMINDER_CYCLES {
        sinceReport := 0;
        return true;
      }
      return false;
    }
  }

  // ---------------------------------------------------------------------------
  // The same things said about the trace alone
  // ---------------------------------------------------------------------------

  predicate IsSignal(e: Event) {
    e.SecurityRequest? || e.BondEstablished? || e.Data?
  }

  // A connection is open just before event j.
  predicate LinkOpen(trace: seq<Event>, j: nat)
    requires j <= |trace|
  {
    exists i :: 0 <= i < j && trace[i].Open? && forall k :: i < k < j ==> !trace[k].Disconnect?
  }

  /** Event j is the pump ending an unbonded connection on which nothing at all had
  happened: of the events this detector sees, the open is the one just before it. */
  predicate Refusal(trace: seq<Event>, j: nat)
    requires j < |trace|
  {
    j > 0 && trace[j - 1] == Open(false) && trace[j].Disconnect? && !IsLinkLoss(trace[j].reason)
  }

  /** Event j ends a run of refusals: the pump offered to pair, bonded or sent data, a
  bonded connection opened, or a connection closed in any other way. */
  predicate Breaks(trace: seq<Event>, j: nat)
    requires j < |trace|
  {
    IsSignal(trace[j]) || trace[j] == Open(true) ||
    (trace[j].Disconnect? && LinkOpen(trace, j) && !Refusal(trace, j))
  }

  // The refusals with nothing after them that ends the run.
  function RefusalsInARow(trace: seq<Event>): set<nat> {
    set j: nat | j < |trace| && Refusal(trace, j) && forall k :: j < k < |trace| ==> !Breaks(trace, k)
  }

  function Streak(trace: seq<Event>): nat {
    |RefusalsInARow(trace)|
  }

  lemma LinkOpenLooksBack(trace: seq<Event>, e: Event, j: nat)
    requires j <= |trace|
    ensures LinkOpen(trace + [e], j) == LinkOpen(trace, j)
  {
    var more := trace + [e];
    if LinkOpen(more, j) {
      var i :| 0 <= i < j && more[i].Open? && forall k :: i < k < j ==> !more[k].Disconnect?;
      assert trace[i].Open? && forall k :: i < k < j ==> trace[k] == more[k];
    }
    if LinkOpen(trace, j) {
      var i :| 0 <= i < j && trace[i].Open? && forall k :: i < k < j ==> !trace[k].Disconnect?;
      assert more[i].Open? && forall k :: i < k < j ==> trace[k] == more[k];
    }
  }

  lemma LinkOpenAfter(trace: seq<Event>, e: Event)
    ensures LinkOpen(trace + [e], |trace| + 1) == (e.Open? || (LinkOpen(trace, |trace|) && !e.Disconnect?))
  {
    var more, n := trace + [e], |trace|;
    LinkOpenLooksBack(trace, e, n);
    assert more[n] == e;
    if LinkOpen(more, n + 1) && !e.Open? {
      var i :| 0 <= i < n + 1 && more[i].Open? && forall k :: i < k < n + 1 ==> !more[k].Disconnect?;
      assert i < n && forall k :: i < k < n ==> !more[k].Disconnect?;
    }
    if LinkOpen(more, n) && !e.Disconnect? {
      var i :| 0 <= i < n && more[i].Open? && forall k :: i < k < n ==> !more[k].Disconnect?;
      assert forall k :: i < k < n + 1 ==> !more[k].Disconnect?;
    }
  }

  lemma LooksBack(trace: seq<Event>, e: Event, j: nat)
    requires j < |trace|
    ensures Refusal(trace + [e], j) == Refusal(trace, j)
    ensures Breaks(trace + [e], j) == Breaks(trace, j)
  {
    LinkOpenLooksBack(trace, e, j);
  }

  lemma RowStep(trace: seq<Event>, e: Event)
    ensures var more := trace + [e];
            RefusalsInARow(more) ==
            (if Breaks(more, |trace|) then {} else RefusalsInARow(trace)) +
            (if Refusal(more, |trace|) then {|trace|} else {})
  {
    var more, n := trace + [e], |trace|;
    hide Breaks, Refusal;
    forall j | 0 <= j < n
      ensures Refusal(more, j) == Refusal(trace, j) && Breaks(more, j) == Breaks(trace, j)
    {
      LooksBack(trace, e, j);
    }
    var next := (if Breaks(more, n) then {} else RefusalsInARow(trace)) + (if Refusal(more, n) then {n} else {});
    forall j: nat
      ensures j in RefusalsInARow(more) <==> j in next
    {
      if j < n {
        assert (forall k :: j < k < n + 1 ==> !Breaks(more, k)) <==>
               !Breaks(more, n) && forall k :: j < k < n ==> !Breaks(trace, k);
      }
    }
  }

  lemma {:induction false} StreakStep(trace: seq<Event>, e: Event)
    ensures var more := trace + [e];
            Streak(more) ==
            if Refusal(more, |trace|) then Streak(trace) + 1
            else if Breaks(more, |trace|) then 0
            else Streak(trace)
  {
    RowStep(trace, e);
    assert |trace| !in RefusalsInARow(trace);
  }

  // ---------------------------------------------------------------------------
  // The count
  // ---------------------------------------------------------------------------

  // The two flags, read off the trace.
  predicate FlagsFollow(trace: seq<Event>) {
    var s := Run(trace);
    s.sawOpen == LinkOpen(trace, |trace|) &&
    (s.sawOpen && !s.progress <==> trace != [] && trace[|trace| - 1] == Open(false))
  }

  lemma RunStep(trace: seq<Event>, e: Event)
    ensures Run(trace + [e]) == Step(Run(trace), e)
  {
    assert (trace + [e])[..|trace|] == trace;
  }

  lemma FlagsFollowStep(trace: seq<Event>, e: Event)
    requires FlagsFollow(trace)
    ensures FlagsFollow(trace + [e])
  {
    RunStep(trace, e);
    LinkOpenAfter(trace, e);
    hide LinkOpen, Run;
    assert (trace + [e])[|trace|] == e;
  }

  lemma {:induction false} FlagsFollowRuns(trace: seq<Event>)
    ensures FlagsFollow(trace)
  {
    if trace == [] {
    } else {
      var init, e := trace[..|trace| - 1], trace[|trace| - 1];
      assert trace == init + [e];
      hide FlagsFollow;
      FlagsFollowRuns(init);
      FlagsFollowStep(init, e);
    }
  }

  lemma CountsAreRefusals(trace: seq<Event>, e: Event)
    ensures Counts(Run(trace), e) == Refusal(trace + [e], |trace|)
    ensures Breaks(trace + [e], |trace|) <==>
              IsSignal(e) || e == Open(true) || (e.Disconnect? && Run(trace).sawOpen && !Counts(Run(trace), e))
  {
    FlagsFollowRuns(trace);
    LinkOpenLooksBack(trace, e, |trace|);
    assert (trace + [e])[|trace|] == e;
    assert trace != [] ==> (trace + [e])[|trace| - 1] == trace[|trace| - 1];
  }

  /** The saturating byte is the number of refusals in a row, as far as a byte goes. */
  lemma {:induction false} CountIsStreak(trace: seq<Event>)
    ensures Run(trace).consecutive == Min(UINT8_MAX, Streak(trace))
  {
    if trace == [] {
      assert RefusalsInARow(trace) == {};
    } else {
      var init, e := trace[..|trace| - 1], trace[|trace| - 1];
      assert trace == init + [e];
      CountIsStreak(init);
      RunStep(init, e);
      StreakStep(init, e);
      CountsAreRefusals(init, e);
      hide Breaks, Refusal, Streak, Run;
    }
  }

  lemma StalledMeansThreeRefusals(trace: seq<Event>)
    ensures Stalled(Run(trace)) <==> Streak(trace) >= STALL_CYCLES
  {
    CountIsStreak(trace);
  }

  // ---------------------------------------------------------------------------
  // When it reports
  // ---------------------------------------------------------------------------

  // Where a clock that goes round at twelve stands, from where it stood at the start of a
  // run of refusals and the length of the run: it ticks on every refusal after the third.
  function Reminder(phase: nat, streak: nat): (r: nat)
    requires phase < REMINDER_CYCLES
    ensures r < REMINDER_CYCLES
  {
    if streak <= STALL_CYCLES then phase else (phase + streak - STALL_CYCLES) % REMINDER_CYCLES
  }

  /** Where that clock stood when the present run of refusals began, on the trace alone. A
  signal that ends a run leaves the clock where it is; only the disconnect that closes an
  uncounted cycle sets it back. */
  function Phase(trace: seq<Event>): (p: nat)
    ensures p < REMINDER_CYCLES
  {
    if trace == [] then 0
    else
      var n := |trace| - 1;
      if !Breaks(trace, n) then Phase(trace[..n])
      else if trace[n].Disconnect? then 0
      else Reminder(Phase(trace[..n]), Streak(trace[..n]))
  }

  lemma PhaseStep(trace: seq<Event>, e: Event)
    ensures Phase(trace + [e]) ==
            if !Breaks(trace + [e], |trace|) then Phase(trace)
            else if e.Disconnect? then 0 else Reminder(Phase(trace), Streak(trace))
  {
    assert (trace + [e])[..|trace|] == trace;
    hide Streak, Breaks, Reminder;
  }

  // One more refusal moves the clock on by one, and it goes round at twelve.
  lemma ReminderAdvances(phase: nat, streak: nat)
    requires phase < REMINDER_CYCLES && streak >= STALL_CYCLES
    ensures var r := Reminder(phase, streak) + 1;
            Reminder(phase, streak + 1) == if r >= REMINDER_CYCLES then 0 else r
  {
    var x := phase + streak - STALL_CYCLES;
    assert (x + 1) % 12 == if x % 12 + 1 >= 12 then 0 else x % 12 + 1;
  }

  lemma ReminderStep(trace: seq<Event>, e: Event)
    requires Run(trace).sinceReport == Reminder(Phase(trace), Streak(trace))
    ensures Run(trace + [e]).sinceReport == Reminder(Phase(trace + [e]), Streak(trace + [e]))
  {
    hide Breaks, Refusal, Streak, Run, Phase;
    CountIsStreak(trace);
    RunStep(trace, e);
    StreakStep(trace, e);
    PhaseStep(trace, e);
    CountsAreRefusals(trace, e);
    if Counts(Run(trace), e) && Streak(trace) >= STALL_CYCLES {
      ReminderAdvances(Phase(trace), Streak(trace));
      hide Reminder;
    }
  }

  lemma {:induction false} ReminderFollowsPhase(trace: seq<Event>)
    ensures Run(trace).sinceReport == Reminder(Phase(trace), Streak(trace))
  {
    if trace == [] {
      assert RefusalsInARow(trace) == {};
    } else {
      var init, e := trace[..|trace| - 1], trace[|trace| - 1];
      assert trace == init + [e];
      hide Streak, Run, Phase, Reminder;
      ReminderFollowsPhase(init);
      ReminderStep(init, e);
    }
  }

  // The refusals that are reported, given the phase the run began with.
  predicate Due(phase: nat, streak: nat) {
    streak == STALL_CYCLES ||
    (streak > STALL_CYCLES && (phase + streak - STALL_CYCLES) % REMINDER_CYCLES == 0)
  }

  /** On any trace at all: a report falls on refusal number 3 of a run, and then on
  every twelfth cycle of a clock that did not restart with the run. */
  lemma ReportsAreDue(trace: seq<Event>, e: Event)
    ensures Reports(Run(trace), e) <==>
              Refusal(trace + [e], |trace|) && Due(Phase(trace), Streak(trace + [e]))
  {
    CountIsStreak(trace);
    ReminderFollowsPhase(trace);
    StreakStep(trace, e);
    CountsAreRefusals(trace, e);
    hide Breaks, Refusal, Streak, Run, Phase;
  }

  /** Signals arrive over an open link, and one link produces one open. */
  predicate LinkOrdered(trace: seq<Event>) {
    forall j :: 0 <= j < |trace| ==>
                  (IsSignal(trace[j]) ==> LinkOpen(trace, j)) && (trace[j].Open? ==> !LinkOpen(trace, j))
  }

  lemma OrderedPrefix(trace: seq<Event>, e: Event)
    requires LinkOrdered(trace + [e])
    ensures LinkOrdered(trace)
    ensures IsSignal(e) ==> LinkOpen(trace, |trace|)
    ensures e.Open? ==> !LinkOpen(trace, |trace|)
  {
    var more := trace + [e];
    forall j | 0 <= j <= |trace|
      ensures LinkOpen(more, j) == LinkOpen(trace, j)
    {
      LinkOpenLooksBack(trace, e, j);
    }
    assert more[|trace|] == e;
    forall j | 0 <= j < |trace|
      ensures (IsSignal(trace[j]) ==> LinkOpen(trace, j)) && (trace[j].Open? ==> !LinkOpen(trace, j))
    {
      assert more[j] == trace[j];
    }
  }

  // A leftover phase is waiting for its own link to close, which clears it.
  predicate PhaseWaits(phase: nat, s: Stall) {
    phase == 0 || (s.sawOpen && s.progress && s.consecutive == 0)
  }

  lemma {:induction false} OrderedPhaseWaits(trace: seq<Event>)
    requires LinkOrdered(trace)
    ensures PhaseWaits(Phase(trace), Run(trace))
  {
    if trace == [] {
    } else {
      var init, e := trace[..|trace| - 1], trace[|trace| - 1];
      assert trace == init + [e];
      OrderedPrefix(init, e);
      OrderedPhaseWaits(init);
      RunStep(init, e);
      FlagsFollowRuns(init);
      PhaseStep(init, e);
      CountsAreRefusals(init, e);
      hide LinkOpen, Run, Phase, Breaks, Refusal;
    }
  }

  lemma DueWithoutPhase(streak: nat)
    ensures Due(0, streak) <==> streak >= 3 && streak % 12 == 3
  {}

  /** With links in order, reports fall on refusals 3, 15, 27 and so on of every run,
  for ever: the count they go by is the true one, not the byte that stops at 255. */
  lemma ReportsEveryTwelfth(trace: seq<Event>, e: Event)
    requires LinkOrdered(trace)
    ensures Reports(Run(trace), e) <==>
              Refusal(trace + [e], |trace|) &&
              Streak(trace + [e]) >= 3 && Streak(trace + [e]) % 12 == 3
  {
    ReportsAreDue(trace, e);
    OrderedPhaseWaits(trace);
    CountsAreRefusals(trace, e);
    DueWithoutPhase(Streak(trace + [e]));
    hide Breaks, Refusal, Streak, Run, Phase, LinkOpen, Due, Reports, LinkOrdered;
  }

  // ---------------------------------------------------------------------------
  // A signal while no link is open
  // ---------------------------------------------------------------------------

  // n refusals, one after the other.
  function Cycles(n: nat): seq<Event> {
    if n == 0 then [] else Cycles(n - 1) + [Open(false), Disconnect(0x13)]
  }

  lemma {:induction false} CyclesAdd(trace: seq<Event>, n: nat)
    ensures Streak(trace + Cycles(n)) == Streak(trace) + n
    ensures Phase(trace + Cycles(n)) == Phase(trace)
  {
    if n == 0 {
      assert trace + Cycles(0) == trace;
    } else {
      CyclesAdd(trace, n - 1);
      OneMoreCycle(trace, n - 1);
      CycleAdds(trace + Cycles(n - 1));
    }
  }

  lemma CycleAdds(before: seq<Event>)
    ensures var after := before + [Open(false)] + [Disconnect(0x13)];
            Streak(after) == Streak(before) + 1 && Phase(after) == Phase(before)
  {
    hide Streak, Phase, Run, Breaks, Refusal, LinkOpen, Counts;
    var linked := before + [Open(false)];
    StreakStep(before, Open(false));
    StreakStep(linked, Disconnect(0x13));
    CountsAreRefusals(before, Open(false));
    CountsAreRefusals(linked, Disconnect(0x13));
    PhaseStep(before, Open(false));
    PhaseStep(linked, Disconnect(0x13));
    LastIsRefusal(before);
    OpenIsNoRefusal(before);
  }

  lemma OpenIsNoRefusal(before: seq<Event>)
    ensures !Refusal(before + [Open(false)], |before|)
  {}

  /** The order of links matters. After four refusals, any signal that arrives between two
  links, a security request, a bond or data, ends the run but leaves the clock at one, and
  the run that follows is reported on refusals 3 and 14. */
  lemma SignalBetweenLinksMovesReminder(signal: Event)
    requires IsSignal(signal)
    ensures var before := Cycles(4) + [signal];
            Streak(before) == 0 &&
            Reports(Run(before + Cycles(2) + [Open(false)]), Disconnect(0x13)) &&
            Reports(Run(before + Cycles(13) + [Open(false)]), Disconnect(0x13)) &&
            !Reports(Run(before + Cycles(14) + [Open(false)]), Disconnect(0x13))
  {
    hide Streak, Phase, Cycles, Run, Reports, Due;
    SignalAfterFour(signal);
    var before := Cycles(4) + [signal];
    NextRefusal(before, 2);
    NextRefusal(before, 13);
    NextRefusal(before, 14);
    DueAtOne();
  }

  lemma DueAtOne()
    ensures Due(1, 3) && Due(1, 14) && !Due(1, 15)
  {}

  lemma SignalAfterFour(signal: Event)
    requires IsSignal(signal)
    ensures var before := Cycles(4) + [signal]; Streak(before) == 0 && Phase(before) == 1
  {
    hide Streak, Phase, Cycles, Run, RefusalsInARow, Refusal, Counts;
    FourFromStart();
    StreakStep(Cycles(4), signal);
    PhaseStep(Cycles(4), signal);
    CountsAreRefusals(Cycles(4), signal);
    SignalIsNoRefusal(Cycles(4), signal);
  }

  lemma SignalIsNoRefusal(before: seq<Event>, signal: Event)
    requires IsSignal(signal)
    ensures !Refusal(before + [signal], |before|)
  {}

  lemma FourFromStart()
    ensures Streak(Cycles(4)) == 4 && Phase(Cycles(4)) == 0
  {
    assert [] + Cycles(4) == Cycles(4);
    CyclesAdd([], 4);
    assert RefusalsInARow([]) == {};
    hide Cycles;
  }

  lemma TwelfthsExactlyWithoutPhase(phase: nat)
    requires phase < REMINDER_CYCLES
    ensures (forall streak: nat :: Due(phase, streak) <==> streak >= 3 && streak % 12 == 3) <==> phase == 0
  {
    if phase == 0 {
      forall streak: nat
        ensures Due(phase, streak) <==> streak >= 3 && streak % 12 == 3
      {
        DueWithoutPhase(streak);
      }
    } else {
      LateOne(phase);
    }
  }

  // The refusals of the next run are reported on time: the third, the fifteenth and so on.
  ghost predicate OnTime(before: seq<Event>) {
    forall n: nat :: Reports(Run(before + Cycles(n) + [Open(false)]), Disconnect(0x13)) <==>
                       n + 1 >= 3 && (n + 1) % 12 == 3
  }

  /** Exactly when they are: the run that begins after a trace is reported on refusals 3, 15,
  27 and so on if and only if the clock, read off the trace, stands at nothing. */
  lemma OnTimeExactlyWithoutPhase(before: seq<Event>)
    requires Streak(before) == 0
    ensures OnTime(before) <==> Phase(before) == 0
  {
    hide Streak, Phase, Cycles, Run, Reports, Due;
    if Phase(before) == 0 {
      forall n: nat
        ensures Reports(Run(before + Cycles(n) + [Open(false)]), Disconnect(0x13)) <==>
                  n + 1 >= 3 && (n + 1) % 12 == 3
      {
        NextRefusal(before, n);
        DueWithoutPhase(n + 1);
      }
    } else {
      LateOne(Phase(before));
      NextRefusal(before, 14 - Phase(before));
    }
  }

  lemma LateOne(phase: nat)
    requires 0 < phase < REMINDER_CYCLES
    ensures Due(phase, 15 - phase) && (15 - phase) % 12 != 3
  {}

  lemma NextRefusal(before: seq<Event>, n: nat)
    ensures Reports(Run(before + Cycles(n) + [Open(false)]), Disconnect(0x13)) <==>
              Due(Phase(before), Streak(before) + n + 1)
  {
    hide Streak, Phase, Cycles, Run, Due, Reports, Refusal, Breaks, LinkOpen, Counts;
    var linked, closed := before + Cycles(n) + [Open(false)], Disconnect(0x13);
    OneMoreCycle(before, n);
    CyclesAdd(before, n);
    CyclesAdd(before, n + 1);
    ReportsAreDue(linked, closed);
    PhaseStep(before + Cycles(n), Open(false));
    CountsAreRefusals(before + Cycles(n), Open(false));
    LastIsRefusal(before + Cycles(n));
  }

  lemma OneMoreCycle(before: seq<Event>, n: nat)
    ensures before + Cycles(n) + [Open(false)] + [Disconnect(0x13)] == before + Cycles(n + 1)
  {}

  lemma LastIsRefusal(before: seq<Event>)
    ensures Refusal(before + [Open(false)] + [Disconnect(0x13)], |before| + 1)
  {}
}
