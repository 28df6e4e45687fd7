/** Which control mode the component believes the pump to be in, while commands, reads
and notifications overtake one another (components/alpha_hwr/control_service.cpp and .h).

A setpoint is the 32-bit word the pump sent; what it measures is not part of this model.
*/
module ControlMode {
  import opened Numbers
  import opened Text

  // A control mode is a byte; these are the ones with a setpoint of their own, and NONE.
  type Mode = byte
  const CONSTANT_PRESSURE: Mode := 0
  const PROPORTIONAL_PRESSURE: Mode := 1
  const CONSTANT_SPEED: Mode := 2
  const CONSTANT_FLOW: Mode := 8
  const NONE: Mode := 254

  const STOP: byte := 1
  const MAX_MODE_CONFIRM_ATTEMPTS: nat := 4

  // The four setpoint slots; None until the pump has reported one.
  datatype Setpoints = Setpoints(
    pressure: Option<uint32>, proportional: Option<uint32>, flow: Option<uint32>, speed: Option<uint32>)

  const NO_SETPOINTS := Setpoints(None, None, None, None)

  function Slot(p: Setpoints, mode: Mode): Option<uint32> {
    if mode == CONSTANT_PRESSURE then p.pressure
    else if mode == PROPORTIONAL_PRESSURE then p.proportional
    else if mode == CONSTANT_SPEED then p.speed
    else if mode == CONSTANT_FLOW then p.flow
    else None
  }

  predicate HasSlot(mode: Mode) {
    mode in {CONSTANT_PRESSURE, PROPORTIONAL_PRESSURE, CONSTANT_SPEED, CONSTANT_FLOW}
  }

  // The pump's run state and who commands it.
  datatype Source = Source(
    operationMode: byte, enabled: bool, enabledValid: bool, remote: bool, remoteValid: bool, observations: uint32)

  datatype State = State(
    current: Mode, valid: bool, commanded: Mode, pending: bool, attempts: nat, setpoints: Setpoints, source: Source)

  const START := State(NONE, false, NONE, false, 0, NO_SETPOINTS, Source(0, false, false, false, false, 0))

  // What the pump reports, whether it volunteers it or is asked.
  datatype Report = Report(control: byte, operation: byte, mode: Mode, setpoint: uint32)

  datatype Event =
    | Commanded(mode: Mode)
    | Notified(report: Report)
      // A read of the mode came back, outside a sync.
    | ModeRead(ok: bool, payload: seq<byte>)
      // ... or as the first step of a sync that expected a mode when it began.
    | SyncRead(expected: Mode, ok: bool, payload: seq<byte>)
    | Invalidated

  datatype Effect =
    | ModeChanged(mode: Mode, operationMode: byte)
    | RetryScheduled
    | ConfigRead
    | SyncFailed

  datatype Next = Next(state: State, out: seq<Effect>)

  function Store(p: Setpoints, mode: Mode, raw: uint32): Setpoints {
    if mode == CONSTANT_PRESSURE then p.(pressure := Some(raw))
    else if mode == PROPORTIONAL_PRESSURE then p.(proportional := Some(raw))
    else if mode == CONSTANT_FLOW then p.(flow := Some(raw))
    else if mode == CONSTANT_SPEED then p.(speed := Some(raw))
    else p
  }

  function Observe(s: Source, r: Report): Source {
    var running := s.(operationMode := r.operation, enabled := r.operation != STOP, enabledValid := true);
    if r.control == 1 || r.control == 2
    then running.(remote := r.control == 2, remoteValid := true, observations := (s.observations + 1) % 0x1_0000_0000)
    else running
  }

  function Heard(s: State, r: Report): State {
    s.(setpoints := Store(s.setpoints, r.mode, r.setpoint), source := Observe(s.source, r))
  }

  // A report of another mode while a command is in flight is older than the command.
  predicate Stale(s: State, r: Report) {
    s.pending && r.mode != s.commanded
  }

  function OnCommanded(s: State, mode: Mode): Next {
    Next(s.(commanded := mode, pending := true, attempts := 0, current := mode, valid := true), [ModeChanged(mode, 0)])
  }

  function OnNotified(s: State, r: Report): Next {
    var heard := Heard(s, r);
    var t := if Stale(s, r) then heard else heard.(pending := false, current := r.mode, valid := true);
    Next(t, [ModeChanged(t.current, r.operation)])
  }

  function Offset(payload: seq<byte>): nat {
    if |payload| >= 3 && payload[0] == 0 && payload[1] == 0 then 3 else 0
  }

  function Word(payload: seq<byte>, i: nat): uint32
    requires i + 4 <= |payload|
  {
    ((payload[i] as int * 256 + payload[i + 1] as int) * 256 + payload[i + 2] as int) * 256 + payload[i + 3] as int
  }

  function Parse(payload: seq<byte>): Option<Report> {
    var o := Offset(payload);
    if |payload| < 10 || payload[o + 2] > NONE then None
    else Some(Report(payload[o], payload[o + 1], payload[o + 2], Word(payload, o + 3)))
  }

  // A mode read has nothing to say: it failed, or what came back is no report.
  function ReportOf(ok: bool, payload: seq<byte>): Option<Report> {
    if ok then Parse(payload) else None
  }

  function OnModeRead(s: State, ok: bool, payload: seq<byte>): Next {
    match ReportOf(ok, payload)
    case None => Next(s, [])
    case Some(r) =>
      var heard := Heard(s, r);
      if Stale(s, r) then Next(heard, [])
      else
        Next(heard.(pending := false, attempts := 0, current := r.mode, valid := true),
             [ModeChanged(r.mode, r.operation)])
  }

  // What sync_cache_async expects when it begins.
  function Expected(s: State): Mode {
    if s.valid then s.current else NONE
  }

  // The sync's own part, once the read has told it a mode.
  function OnSynced(s: State, expected: Mode, mode: Mode): Next {
    if expected == NONE || mode == expected then Next(s, [ConfigRead])
    else if s.pending && s.attempts < MAX_MODE_CONFIRM_ATTEMPTS
    then Next(s.(attempts := s.attempts + 1), [RetryScheduled])
    else
      Next(s.(pending := false, attempts := 0, current := mode, valid := true),
           [ModeChanged(mode, s.source.operationMode), ConfigRead])
  }

  function OnSyncRead(s: State, expected: Mode, ok: bool, payload: seq<byte>): Next {
    match ReportOf(ok, payload)
    case None => Next(s, [SyncFailed])
    case Some(r) =>
      var n := OnModeRead(s, ok, payload);
      var m := OnSynced(n.state, expected, r.mode);
      Next(m.state, n.out + m.out)
  }

  function OnInvalidated(s: State): State {
    s.(valid := false, pending := false, attempts := 0,
    source := s.source.(enabledValid := false, remoteValid := false))
  }

  function Step(s: State, e: Event): Next {
    match e
    case Commanded(mode) => OnCommanded(s, mode)
    case Notified(r) => OnNotified(s, r)
    case ModeRead(ok, payload) => OnModeRead(s, ok, payload)
    case SyncRead(expected, ok, payload) => OnSyncRead(s, expected, ok, payload)
    case Invalidated => Next(OnInvalidated(s), [])
  }

  // ---------------------------------------------------------------------------
  // The service
  // ---------------------------------------------------------------------------

  class ControlService {
    var currentMode: Mode
    var modeValid: bool
    var commandedMode: Mode
    var modeCommandPending: bool
    var modeConfirmAttempts: nat
    var setpoints: Setpoints
    var source: Source
    ghost var done: seq<Effect>

    ghost function Now(): State
      reads this
    {
      State(currentMode, modeValid, commandedMode, modeCommandPending, modeConfirmAttempts, setpoints, source)
    }

    twostate predicate Became(n: Next)
      reads this
    {
      Now() == n.state && done == old(done) + n.out
    }

    constructor ()
      ensures Now() == START && done == []
    {
      currentMode, modeValid, commandedMode, modeCommandPending, modeConfirmAttempts := NONE, false, NONE, false, 0;
      setpoints, source := NO_SETPOINTS, Source(0, false, false, false, false, 0);
      done := [];
    }

    method CacheSetpointForMode(mode: Mode, raw: uint32)
      modifies this`setpoints
      ensures setpoints == Store(old(setpoints), mode, raw)
    {
      if mode == CONSTANT_PRESSURE {
        setpoints := setpoints.(pressure := Some(raw));
      } else if mode == PROPORTIONAL_PRESSURE {
        setpoints := setpoints.(proportional := Some(raw));
      } else if mode == CONSTANT_FLOW {
        setpoints := setpoints.(flow := Some(raw));
      } else if mode == CONSTANT_SPEED {
        setpoints := setpoints.(speed := Some(raw));
      }
    }

    method ObserveSource(r: Report)
      modifies this`source
      ensures source == Observe(old(source), r)
    {
      source := source.(operationMode := r.operation, enabled := r.operation != STOP, enabledValid := true);
      if r.control == 2 {
        source := source.(remote := true, remoteValid := true);
        source := source.(observations := (source.observations + 1) % 0x1_0000_0000);
      } else if r.control == 1 {
        source := source.(remote := false, remoteValid := true);
        source := source.(observations := (source.observations + 1) % 0x1_0000_0000);
      }
    }

    method NoteModeCommanded(mode: Mode)
      modifies this
      ensures Became(OnCommanded(old(Now()), mode))
    {
      commandedMode := mode;
      modeCommandPending := true;
      modeConfirmAttempts := 0;
      currentMode := mode;
      modeValid := true;
      done := done + [ModeChanged(currentMode, 0)];
    }

    method UpdateModeFromNotification(r: Report)
      modifies this
      ensures Became(OnNotified(old(Now()), r))
    {
      CacheSetpointForMode(r.mode, r.setpoint);
      if !(modeCommandPending && r.mode != commandedMode) {
        modeCommandPending := false;
        currentMode := r.mode;
        modeValid := true;
      }
      ObserveSource(r);
      done := done + [ModeChanged(currentMode, r.operation)];
    }

    // The reply handler of get_mode_async, and what it tells the caller.
    method HandleModeReply(ok: bool, payload: seq<byte>) returns (success: bool, mode: Mode)
      modifies this
      ensures Became(OnModeRead(old(Now()), ok, payload))
      ensures success == ReportOf(ok, payload).Some?
      ensures success ==> mode == ReportOf(ok, payload).value.mode
    {
      if !ok || |payload| < 10 {
        return false, currentMode;
      }
      var offset := 0;
      if payload[0] == 0 && payload[1] == 0 {
        offset := 3;
      }
      if payload[offset + 2] > NONE {
        return false, currentMode;
      }
      var r := Report(payload[offset], payload[offset + 1], payload[offset + 2], Word(payload, offset + 3));
      ObserveSource(r);
      CacheSetpointForMode(r.mode, r.setpoint);
      if modeCommandPending && r.mode != commandedMode {
        return true, r.mode;
      }
      modeCommandPending := false;
      modeConfirmAttempts := 0;
      currentMode := r.mode;
      modeValid := true;
      done := done + [ModeChanged(currentMode, r.operation)];
      return true, currentMode;
    }

    // A sync begun while a command is in flight expects the commanded mode, whatever the
    // pump has reported meanwhile; one begun with nothing valid expects nothing.
    method BeginSync() returns (expected: Mode)
      ensures Coordinated(Now()) && modeCommandPending ==> expected == commandedMode
      ensures expected == NONE || (modeValid && expected == currentMode)
      ensures !modeValid ==> expected == NONE
      ensures expected == Expected(Now())
    {
      expected := if modeValid then currentMode else NONE;
    }

    method HandleSyncReply(expected: Mode, ok: bool, payload: seq<byte>)
      modifies this
      ensures Became(OnSyncRead(old(Now()), expected, ok, payload))
    {
      hide Parse, Heard;
      var success, mode := HandleModeReply(ok, payload);
      if !success {
        done := done + [SyncFailed];
        return;
      }
      if expected != NONE && mode != expected {
        if modeCommandPending && modeConfirmAttempts < MAX_MODE_CONFIRM_ATTEMPTS {
          modeConfirmAttempts := modeConfirmAttempts + 1;
          done := done + [RetryScheduled];
          return;
        }
        modeCommandPending := false;
        modeConfirmAttempts := 0;
        currentMode := mode;
        modeValid := true;
        done := done + [ModeChanged(currentMode, source.operationMode)];
      }
      done := done + [ConfigRead];
    }

    method InvalidateCache()
      modifies this
      ensures Became(Next(OnInvalidated(old(Now())), []))
    {
      modeValid := false;
      source := source.(enabledValid := false, remoteValid := false);
      modeCommandPending := false;
      modeConfirmAttempts := 0;
    }
  }

  // ---------------------------------------------------------------------------
  // The mode while a command is in flight
  // ---------------------------------------------------------------------------

  function Run(s: State, es: seq<Event>): State {
    if es == [] then s else Step(Run(s, es[..|es| - 1]), es[|es| - 1]).state
  }

  predicate Coordinated(s: State) {
    s.attempts <= MAX_MODE_CONFIRM_ATTEMPTS && (s.pending ==> s.valid && s.current == s.commanded)
  }

  lemma StepKeepsCoordinated(s: State, e: Event)
    requires Coordinated(s)
    ensures Coordinated(Step(s, e).state)
  {
    hide Parse, Observe, Store;
  }

  /** Whatever reads and notifications arrive, in any order and from any sync, the mode is
  the commanded one and valid for as long as the command is in flight. */
  lemma {:induction false} PendingKeepsMode(es: seq<Event>)
    ensures var s := Run(START, es);
            (s.pending ==> s.valid && s.current == s.commanded) && s.attempts <= MAX_MODE_CONFIRM_ATTEMPTS
  {
    hide Step;
    if es == [] {
    } else {
      PendingKeepsMode(es[..|es| - 1]);
      StepKeepsCoordinated(Run(START, es[..|es| - 1]), es[|es| - 1]);
    }
  }

  // The report an event carries, if it carries one.
  function Carries(e: Event): Option<Report> {
    match e
    case Notified(r) => Some(r)
    case ModeRead(ok, payload) => ReportOf(ok, payload)
    case SyncRead(_, ok, payload) => ReportOf(ok, payload)
    case _ => None
  }

  // A sync that is told another mode than it expected, with no retries left to it.
  predicate GivesUp(s: State, e: Event) {
    e.SyncRead? && Carries(e).Some? && e.expected != NONE && Carries(e).value.mode != e.expected &&
    s.attempts == MAX_MODE_CONFIRM_ATTEMPTS
  }

  /** A command in flight ends in three ways and no other: the pump reports its mode, a
  sync gives up and takes the pump's, or the cache is invalidated. */
  lemma CommandEnds(s: State, e: Event)
    requires Coordinated(s) && s.pending && !e.Commanded?
    ensures var t := Step(s, e).state;
            if Carries(e).Some? && Carries(e).value.mode == s.commanded
            then !t.pending && t.valid && t.current == s.commanded
            else if GivesUp(s, e) then !t.pending && t.valid && t.current == Carries(e).value.mode
            else if e.Invalidated? then !t.pending && !t.valid
            else t.pending && t.valid && t.current == s.commanded
  {
    hide Parse, Observe, Store;
  }

  // ---------------------------------------------------------------------------
  // The mode, read off the events
  // ---------------------------------------------------------------------------

  /** What was last commanded or reported, unless the cache was invalidated since. */
  function LastTold(es: seq<Event>): Option<Mode> {
    if es == [] then None
    else
      var e := es[|es| - 1];
      match e
      case Commanded(mode) => Some(mode)
      case Invalidated => None
      case _ => if Carries(e).Some? then Some(Carries(e).value.mode) else LastTold(es[..|es| - 1])
  }

  predicate TellsMode(s: State, told: Option<Mode>) {
    s.valid == told.Some? && (told.Some? ==> s.current == told.value)
  }

  lemma StepBelieves(s: State, e: Event)
    requires Coordinated(s)
    ensures var t := Step(s, e).state;
            && (!s.pending && Carries(e).Some? ==> !t.pending && TellsMode(t, Some(Carries(e).value.mode)))
            && (s.pending && !t.pending && !e.Invalidated? ==>
                  Carries(e).Some? && TellsMode(t, Some(Carries(e).value.mode)))
            && (Carries(e).None? && !e.Commanded? && !e.Invalidated? ==>
                  t.pending == s.pending && t.valid == s.valid && t.current == s.current)
  {
    hide Parse, Observe, Store;
  }

  /** With no command in flight the pump is believed: the mode is valid exactly if something
  was commanded or reported since the last invalidation, and it is what was last. */
  lemma {:induction false} PumpIsBelieved(es: seq<Event>)
    ensures !Run(START, es).pending ==> TellsMode(Run(START, es), LastTold(es))
  {
    hide Step, Carries, Coordinated;
    if es == [] {
    } else {
      var init, e := es[..|es| - 1], es[|es| - 1];
      var s := Run(START, init);
      PumpIsBelieved(init);
      RunIsCoordinated(init);
      StepBelieves(s, e);
      CommandAndInvalidation(s, e);
    }
  }

  lemma CommandAndInvalidation(s: State, e: Event)
    ensures e.Commanded? ==> Step(s, e).state.pending && Carries(e).None?
    ensures e.Invalidated? ==> !Step(s, e).state.valid && Carries(e).None?
  {}

  lemma {:induction false} RunIsCoordinated(es: seq<Event>)
    ensures Coordinated(Run(START, es))
  {
    hide Step;
    if es == [] {
    } else {
      RunIsCoordinated(es[..|es| - 1]);
      StepKeepsCoordinated(Run(START, es[..|es| - 1]), es[|es| - 1]);
    }
  }

  // Everything done in a run, in order.
  function Done(es: seq<Event>): seq<Effect> {
    if es == [] then [] else Done(es[..|es| - 1]) + Step(Run(START, es[..|es| - 1]), es[|es| - 1]).out
  }

  // The mode that the component was last told of.
  function LastShown(out: seq<Effect>): Mode {
    if out == [] then NONE
    else
      match out[|out| - 1]
      case ModeChanged(mode, _) => mode
      case _ => LastShown(out[..|out| - 1])
  }

  lemma ShownSnoc(out: seq<Effect>, x: Effect)
    ensures LastShown(out + [x]) == if x.ModeChanged? then x.mode else LastShown(out)
  {
    assert (out + [x])[..|out|] == out;
  }

  // Adds nothing, or one to three effects.
  lemma ShownAfter(out: seq<Effect>, more: seq<Effect>)
    requires |more| <= 3
    ensures var n := |more|;
            LastShown(out + more) ==
            if n > 0 && more[n - 1].ModeChanged? then more[n - 1].mode
            else if n > 1 && more[n - 2].ModeChanged? then more[n - 2].mode
            else if n > 2 && more[n - 3].ModeChanged? then more[n - 3].mode
            else LastShown(out)
  {
    hide LastShown;
    if |more| == 0 {
      assert out + more == out;
    } else {
      ShownSnoc(out, more[0]);
      if |more| == 1 {
        assert out + more == out + [more[0]];
      } else {
        ShownSnoc(out + [more[0]], more[1]);
        if |more| == 2 {
          assert out + more == out + [more[0]] + [more[1]];
        } else {
          ShownSnoc(out + [more[0]] + [more[1]], more[2]);
          assert out + more == out + [more[0]] + [more[1]] + [more[2]];
        }
      }
    }
  }

  lemma StepShows(s: State, e: Event, out: seq<Effect>)
    requires LastShown(out) == s.current
    ensures LastShown(out + Step(s, e).out) == Step(s, e).state.current
  {
    hide Parse, Observe, Store, LastShown;
    var n := Step(s, e);
    assert |n.out| <= 3;
    ShownAfter(out, n.out);
  }

  /** The component is never left behind: in every run the mode it was last told is the one
  held, NONE before anything is. */
  lemma {:induction false} ShownIsCurrent(es: seq<Event>)
    ensures LastShown(Done(es)) == Run(START, es).current
  {
    hide Step, LastShown;
    if es == [] {
      assert LastShown([]) == NONE by {
        NothingShown();
      }
    } else {
      var init, e := es[..|es| - 1], es[|es| - 1];
      ShownIsCurrent(init);
      StepShows(Run(START, init), e, Done(init));
    }
  }

  lemma NothingShown()
    ensures LastShown([]) == NONE
  {}

  /** ... with the operation mode of the report it came in, and 0 for a command. */
  lemma OperationIsShown(s: State, e: Event, k: nat)
    requires k < |Step(s, e).out| && Step(s, e).out[k].ModeChanged?
    ensures var shown := Step(s, e).out[k].operationMode;
            (e.Commanded? && shown == 0) || (Carries(e).Some? && shown == Carries(e).value.operation)
  {
    hide Parse, Store;
  }

  /** A read that failed says nothing, whatever bytes came with it. */
  lemma FailedReadSaysNothing(s: State, expected: Mode, payload: seq<byte>)
    ensures Step(s, ModeRead(false, payload)) == Next(s, [])
    ensures Step(s, SyncRead(expected, false, payload)) == Next(s, [SyncFailed])
  {}

  /** What a sync does, in every state a run can reach: it fails exactly when the read does;
  it schedules a retry exactly when the read names another mode than expected, the command
  is still in flight and has retries left; and otherwise it goes on to the configuration. */
  lemma SyncGoesOnExactly(s: State, expected: Mode, ok: bool, payload: seq<byte>)
    requires Coordinated(s)
    ensures var out, r := Step(s, SyncRead(expected, ok, payload)).out, ReportOf(ok, payload);
            var retries := r.Some? && expected != NONE && r.value.mode != expected && s.pending &&
                           r.value.mode != s.commanded && s.attempts < 4;
            && (SyncFailed in out <==> r.None?)
            && (RetryScheduled in out <==> retries)
            && (ConfigRead in out <==> r.Some? && !retries)
  {
    hide Parse, Store, Observe;
  }

  // ---------------------------------------------------------------------------
  // Run state and source, read off the events
  // ---------------------------------------------------------------------------

  /** The last report since the cache was last invalidated. */
  function LastReport(es: seq<Event>): Option<Report> {
    if es == [] || es[|es| - 1].Invalidated? then None
    else if Carries(es[|es| - 1]).Some? then Carries(es[|es| - 1])
    else LastReport(es[..|es| - 1])
  }

  // Only the control sources 1 and 2 say who commands the pump.
  function LastSource(es: seq<Event>): Option<Report> {
    if es == [] || es[|es| - 1].Invalidated? then None
    else
      var r := Carries(es[|es| - 1]);
      if r.Some? && (r.value.control == 1 || r.value.control == 2) then r else LastSource(es[..|es| - 1])
  }

  function SourcesSeen(es: seq<Event>): nat {
    if es == [] then 0
    else
      var r := Carries(es[|es| - 1]);
      SourcesSeen(es[..|es| - 1]) + if r.Some? && (r.value.control == 1 || r.value.control == 2) then 1 else 0
  }

  lemma StepObserves(s: State, e: Event)
    ensures Step(s, e).state.source ==
            match Carries(e)
            case Some(r) => Observe(s.source, r)
            case None => if e.Invalidated? then s.source.(enabledValid := false, remoteValid := false) else s.source
  {
    hide Parse, Observe, Store;
  }

  // The source fields are what the events say they are.
  predicate SourceFits(es: seq<Event>, s: Source) {
    && s.enabledValid == LastReport(es).Some?
    && (s.enabledValid ==> s.enabled == (LastReport(es).value.operation != 1))
    && s.remoteValid == LastSource(es).Some?
    && (s.remoteValid ==> s.remote == (LastSource(es).value.control == 2))
    && s.observations == SourcesSeen(es) % 0x1_0000_0000
  }

  lemma ReportFits(init: seq<Event>, e: Event, s: Source)
    requires SourceFits(init, s)
    ensures SourceFits(init + [e],
                       match Carries(e)
                       case Some(r) => Observe(s, r)
                       case None =>
                         if e.Invalidated? then s.(enabledValid := false, remoteValid := false) else s)
  {
    hide Parse;
    assert (init + [e])[..|init|] == init;
  }

  /** In every run: whether the pump runs is what its last report said, and who commands it
  what the last report that says so said, each known exactly if there is one since the
  last invalidation; and every one that says so has been counted. */
  lemma {:induction false} SourceFollowsReports(es: seq<Event>)
    ensures SourceFits(es, Run(START, es).source)
  {
    if es == [] {
    } else {
      hide Step, SourceFits, Carries, Observe;
      var init, e := es[..|es| - 1], es[|es| - 1];
      SourceFollowsReports(init);
      StepObserves(Run(START, init), e);
      ReportFits(init, e, Run(START, init).source);
      assert init + [e] == es;
    }
  }

  // ---------------------------------------------------------------------------
  // The reply
  // ---------------------------------------------------------------------------

  // A 32-bit word, most significant byte first.
  function WordBytes(w: uint32): (b: seq<byte>)
    ensures |b| == 4
  {
    [w / 0x100_0000, w / 0x1_0000 % 256, w / 256 % 256, w % 256]
  }

  function ReportBytes(r: Report): seq<byte> {
    [r.control, r.operation, r.mode] + WordBytes(r.setpoint)
  }

  lemma WordReadsBack(payload: seq<byte>, i: nat, w: uint32)
    requires i + 4 <= |payload| && payload[i..i + 4] == WordBytes(w)
    ensures Word(payload, i) == w
  {
    var b := payload[i..i + 4];
    assert payload[i] == b[0] && payload[i + 1] == b[1] && payload[i + 2] == b[2] && payload[i + 3] == b[3];
    assert w / 256 == w / 0x1_0000 * 256 + w / 256 % 256;
    assert w / 0x1_0000 == w / 0x100_0000 * 256 + w / 0x1_0000 % 256;
  }

  // A bare report that begins with the header's zeros and still reads as itself: what
  // stands three bytes on happens to be the same report again.
  predicate ReadsTheSameLate(r: Report, tail: seq<byte>)
    requires |tail| >= 3
  {
    WordBytes(r.setpoint)[..3] == [0, 0, r.mode] && Word(ReportBytes(r) + tail, 6) == r.setpoint
  }

  /** A reply reads back as the report in it behind its three-byte header, whatever comes
  after; a bare one does so exactly when its first two bytes are not the header's zeros,
  or the bytes three further on spell the same report. */
  lemma ReportReadsBack(r: Report, version: byte, tail: seq<byte>)
    requires r.mode <= NONE
    ensures Parse([0, 0, version] + ReportBytes(r) + tail) == Some(r)
    ensures |tail| >= 3 ==>
              (Parse(ReportBytes(r) + tail) == Some(r) <==>
               r.control != 0 || r.operation != 0 || ReadsTheSameLate(r, tail))
  {
    hide WordBytes, Word;
    var with, bare := [0, 0, version] + ReportBytes(r) + tail, ReportBytes(r) + tail;
    assert with[6..10] == WordBytes(r.setpoint) && bare[3..7] == WordBytes(r.setpoint);
    WordReadsBack(with, 6, r.setpoint);
    WordReadsBack(bare, 3, r.setpoint);
    if |tail| >= 3 && r.control == 0 && r.operation == 0 {
      var b := WordBytes(r.setpoint);
      assert bare[3] == bare[3..7][0] && bare[4] == bare[3..7][1] && bare[5] == bare[3..7][2];
      assert b[..3] == [b[0], b[1], b[2]];
    }
  }

  /** What is no report: anything under ten bytes, and a mode above NONE where the mode is
  looked for. */
  lemma RefusedExactly(payload: seq<byte>)
    ensures Parse(payload).None? <==>
            |payload| < 10 || payload[if payload[0] == 0 && payload[1] == 0 then 5 else 2] > 254
  {}

  /** A bare reply of a pump running normally at constant speed, setpoint 2.0, is one of
  those read wrong, whatever follows it. */
  lemma BareReplyMisread(tail: seq<byte>)
    requires |tail| >= 3
    ensures var r := Report(0, 0, CONSTANT_SPEED, 0x4000_0000);
            Parse(ReportBytes(r) + tail).Some? && Parse(ReportBytes(r) + tail).value.control == 0x40 &&
            Parse(ReportBytes(r) + tail).value.mode == CONSTANT_PRESSURE
  {
    hide Word;
    var bare := ReportBytes(Report(0, 0, CONSTANT_SPEED, 0x4000_0000)) + tail;
    assert bare[..7] == [0, 0, 2, 0x40, 0, 0, 0];
    assert bare[3] == bare[..7][3] && bare[5] == bare[..7][5];
  }

  // ---------------------------------------------------------------------------
  // Setpoints
  // ---------------------------------------------------------------------------

  /** The last setpoint reported under a mode. */
  function LastReported(es: seq<Event>, mode: Mode): Option<uint32> {
    if es == [] then None
    else
      match Carries(es[|es| - 1])
      case Some(r) => if r.mode == mode then Some(r.setpoint) else LastReported(es[..|es| - 1], mode)
      case None => LastReported(es[..|es| - 1], mode)
  }

  lemma StepStores(s: State, e: Event)
    ensures Step(s, e).state.setpoints ==
            match Carries(e)
            case Some(r) => Store(s.setpoints, r.mode, r.setpoint)
            case None => s.setpoints
  {
    hide Parse, Observe, Store;
  }

  /** Each slot holds exactly the last setpoint the pump reported under that mode, command
  in flight or not; a mode without a setpoint of its own disturbs none of them. */
  lemma {:induction false} SlotsFollowReports(es: seq<Event>, mode: Mode)
    requires HasSlot(mode)
    ensures Slot(Run(START, es).setpoints, mode) == LastReported(es, mode)
  {
    hide Step, Carries;
    if es == [] {
    } else {
      SlotsFollowReports(es[..|es| - 1], mode);
      StepStores(Run(START, es[..|es| - 1]), es[|es| - 1]);
    }
  }

  // ---------------------------------------------------------------------------
  // Retries
  // ---------------------------------------------------------------------------

  function RetriesOf(out: seq<Effect>): nat {
    multiset(out)[RetryScheduled]
  }

  function Retries(s: State, es: seq<Event>): nat {
    if es == [] then 0
    else Retries(s, es[..|es| - 1]) + RetriesOf(Step(Run(s, es[..|es| - 1]), es[|es| - 1]).out)
  }

  lemma RetriesConcat(a: seq<Effect>, b: seq<Effect>)
    ensures RetriesOf(a + b) == RetriesOf(a) + RetriesOf(b)
  {
    assert multiset(a + b) == multiset(a) + multiset(b);
  }

  lemma RetriesNone(out: seq<Effect>)
    requires RetryScheduled !in out
    ensures RetriesOf(out) == 0
  {}

  lemma SyncedRetries(s: State, expected: Mode, mode: Mode)
    ensures var n := OnSynced(s, expected, mode);
            RetriesOf(n.out) == if n.out == [RetryScheduled] then 1 else 0
  {
    var n := OnSynced(s, expected, mode);
    if n.out != [RetryScheduled] {
      RetriesNone(n.out);
    }
  }

  lemma StepRetries(s: State, e: Event)
    requires Coordinated(s) && !e.Commanded?
    ensures var n := Step(s, e);
            && (!s.pending ==> !n.state.pending && RetriesOf(n.out) == 0)
            && (n.state.pending ==> s.pending && n.state.attempts == s.attempts + RetriesOf(n.out))
            && (s.pending && !n.state.pending ==> RetriesOf(n.out) == 0)
  {
    hide Parse, Observe, Store, RetriesOf;
    match e
    case SyncRead(expected, ok, payload) =>
      RetriesNone([SyncFailed]);
      var n := OnModeRead(s, ok, payload);
      RetriesNone(n.out);
      if ReportOf(ok, payload).Some? {
        var mode := ReportOf(ok, payload).value.mode;
        SyncedRetries(n.state, expected, mode);
        RetriesConcat(n.out, OnSynced(n.state, expected, mode).out);
      }
    case _ =>
      RetriesNone(Step(s, e).out);
  }

  /** Between one command and the next there are at most four retries, and while the
  command is in flight the attempt counter is their number. */
  lemma {:induction false} AtMostFourRetries(s: State, es: seq<Event>)
    requires Coordinated(s) && forall i :: 0 <= i < |es| ==> !es[i].Commanded?
    ensures Coordinated(Run(s, es))
    ensures var t := Run(s, es);
            if t.pending then s.pending && t.attempts == s.attempts + Retries(s, es)
            else Retries(s, es) + (if s.pending then s.attempts else 0) <= MAX_MODE_CONFIRM_ATTEMPTS
    ensures !s.pending ==> Retries(s, es) == 0
  {
    hide Step, RetriesOf;
    if es == [] {
    } else {
      AtMostFourRetries(s, es[..|es| - 1]);
      StepRetries(Run(s, es[..|es| - 1]), es[|es| - 1]);
      StepKeepsCoordinated(Run(s, es[..|es| - 1]), es[|es| - 1]);
    }
  }

  lemma OneCommandFourRetries(s: State, mode: Mode, es: seq<Event>)
    requires Coordinated(s) && forall i :: 0 <= i < |es| ==> !es[i].Commanded?
    ensures Retries(Step(s, Commanded(mode)).state, es) <= MAX_MODE_CONFIRM_ATTEMPTS
  {
    AtMostFourRetries(Step(s, Commanded(mode)).state, es);
    hide Run, Retries;
  }

  // n syncs in a row that are told the same mode.
  function Syncs(expected: Mode, payload: seq<byte>, n: nat): seq<Event> {
    if n == 0 then [] else Syncs(expected, payload, n - 1) + [SyncRead(expected, true, payload)]
  }

  lemma {:induction false} SyncsRetry(s: State, payload: seq<byte>, n: nat)
    requires Coordinated(s) && s.pending && s.commanded != NONE
    requires Parse(payload).Some? && Parse(payload).value.mode != s.commanded
    requires s.attempts + n <= MAX_MODE_CONFIRM_ATTEMPTS
    ensures var t := Run(s, Syncs(s.commanded, payload, n));
            t.pending && t.valid && t.current == s.commanded == t.commanded && t.attempts == s.attempts + n
  {
    hide Parse, Observe, Store;
    if n == 0 {
    } else {
      SyncsRetry(s, payload, n - 1);
    }
  }

  /** A pump that never applies a command: four syncs are told its old mode and retried,
  and the fifth takes that mode for true. */
  lemma FifthSyncAdopts(s: State, mode: Mode, payload: seq<byte>)
    requires Coordinated(s) && mode != NONE && Parse(payload).Some? && Parse(payload).value.mode != mode
    ensures var sent := Step(s, Commanded(mode)).state;
            var fourth := Run(sent, Syncs(mode, payload, 4));
            var fifth := Run(sent, Syncs(mode, payload, 5));
            fourth.pending && fourth.current == mode && Expected(fourth) == mode &&
            !fifth.pending && fifth.valid && fifth.current == Parse(payload).value.mode
  {
    var sent := Step(s, Commanded(mode)).state;
    SyncsRetry(sent, payload, 4);
    var fourth := Run(sent, Syncs(mode, payload, 4));
    CommandEnds(fourth, SyncRead(mode, true, payload));
    hide Parse, OnSyncRead;
  }
}
