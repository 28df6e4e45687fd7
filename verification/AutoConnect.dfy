/** Who may reconnect the link, and when: the boot hold, the reconnect settle window and
the suspend switch, which share the client's one auto_connect flag
(components/alpha_hwr/alpha_hwr.cpp, lines 40-64, 153-207, 320-363, 619-655 and 993-1076).
*/
module AutoConnect {
  // connect_after_boot_delay and reconnect_settle_time, as set or not.
  datatype Config = Config(bootDelay: bool, settleTime: bool)

  // Where the client is: nothing under way, a connect in flight, a link.
  datatype Phase = IDLE | CONNECTING | LINKED

  datatype Call = LinkSuspended | TeardownForgotten | SettleTimerSet

  datatype State = State(
    suspended: bool, settling: bool, armed: bool, bootHolding: bool, auto: bool,
    // The scheduler's two timers, and the client.
    settleTimer: bool, bootTimer: bool, phase: Phase,
    // What has been asked of the connection manager and of the scheduler.
    calls: seq<Call>)

  datatype Event =
    | Connect
    | Opened
    | Disconnected(bonded: bool)
    | Advertised(isPump: bool)
    | SettleTimer
    | BootTimer
    | Suspend(on: bool)

  /** What the surroundings can do: the client starts a connect on an advertisement, and
  reads auto_connect there and nowhere else; an open completes a connect; a disconnect
  ends a link or an attempt; a timer fires if it is set. */
  predicate Possible(s: State, e: Event) {
    match e
    case Connect => s.phase.IDLE? && s.auto
    case Opened => s.phase.CONNECTING?
    case Disconnected(_) => !s.phase.IDLE?
    case SettleTimer => s.settleTimer
    case BootTimer => s.bootTimer
    case _ => true
  }

  function Start(cfg: Config): State {
    State(false, false, false, cfg.bootDelay, !cfg.bootDelay, false, cfg.bootDelay, IDLE, [])
  }

  function OnOpened(s: State): State {
    var opening := s.(phase := LINKED);
    if s.suspended then opening.(auto := false, calls := s.calls + [LinkSuspended])
    else opening.(settling := false, armed := false, settleTimer := false)
  }

  function OnDisconnected(cfg: Config, s: State, bonded: bool): State {
    var down := s.(phase := IDLE);
    if !s.suspended && cfg.settleTime && bonded
    then down.(auto := false, settling := true, armed := false, settleTimer := false)
    else down
  }

  function OnAdvertised(s: State, isPump: bool): State {
    if s.settling && !s.armed && isPump
    then s.(armed := true, settleTimer := true, calls := s.calls + [SettleTimerSet])
    else s
  }

  function OnSettleTimer(s: State): State {
    var over := s.(settling := false, armed := false, settleTimer := false);
    if s.suspended then over else over.(auto := true)
  }

  function OnBootTimer(s: State): State {
    var over := s.(bootHolding := false, bootTimer := false);
    if s.suspended then over else over.(auto := true)
  }

  function OnSuspend(s: State, on: bool): State {
    if on then s.(suspended := true, auto := false, calls := s.calls + [LinkSuspended])
    else if !s.suspended then s
    else
      var released := s.(suspended := false, calls := s.calls + [TeardownForgotten]);
      if s.settling || s.bootHolding then released else released.(auto := true)
  }

  function Step(cfg: Config, s: State, e: Event): State {
    match e
    case Connect => s.(phase := CONNECTING)
    case Opened => OnOpened(s)
    case Disconnected(bonded) => OnDisconnected(cfg, s, bonded)
    case Advertised(isPump) => OnAdvertised(s, isPump)
    case SettleTimer => OnSettleTimer(s)
    case BootTimer => OnBootTimer(s)
    case Suspend(on) => OnSuspend(s, on)
  }

  // ---------------------------------------------------------------------------
  // The component
  // ---------------------------------------------------------------------------

  class AlphaHwrComponent {
    const cfg: Config
    var suspended: bool
    var reconnectSettling: bool
    var reconnectTimerArmed: bool
    var connectAfterBootHolding: bool
    // The client's flag and the scheduler's timers, as this component sets them.
    var autoConnect: bool
    var settleTimer: bool
    var bootTimer: bool
    ghost var phase: Phase
    ghost var calls: seq<Call>

    ghost function Now(): State
      reads this
    {
      State(suspended, reconnectSettling, reconnectTimerArmed, connectAfterBootHolding, autoConnect,
            settleTimer, bootTimer, phase, calls)
    }

    // The client connects by itself until told otherwise, and setup tells it.
    constructor (config: Config)
      ensures Now() == Start(config) && cfg == config
    {
      cfg := config;
      suspended, reconnectSettling, reconnectTimerArmed, connectAfterBootHolding := false, false, false, false;
      autoConnect, settleTimer, bootTimer := true, false, false;
      phase, calls := IDLE, [];
      new;
      if config.bootDelay {
        connectAfterBootHolding := true;
        autoConnect := false;
        bootTimer := true;
      }
    }

    method ConnectionCallback()
      modifies this
      ensures Now() == Step(cfg, old(Now()), Opened)
    {
      phase := LINKED;
      if suspended {
        autoConnect := false;
        calls := calls + [LinkSuspended];
        return;
      }
      reconnectSettling := false;
      reconnectTimerArmed := false;
      settleTimer := false;
    }

    method DisconnectionCallback(bonded: bool)
      modifies this
      ensures Now() == Step(cfg, old(Now()), Disconnected(bonded))
    {
      phase := IDLE;
      if !suspended && cfg.settleTime && bonded {
        autoConnect := false;
        reconnectSettling := true;
        reconnectTimerArmed := false;
        settleTimer := false;
      }
    }

    method ParseDevice(isPump: bool)
      modifies this
      ensures Now() == Step(cfg, old(Now()), Advertised(isPump))
    {
      if !reconnectSettling || reconnectTimerArmed {
        return;
      }
      if !isPump {
        return;
      }
      reconnectTimerArmed := true;
      settleTimer := true;
      calls := calls + [SettleTimerSet];
    }

    method SettleTimeout()
      modifies this
      ensures Now() == Step(cfg, old(Now()), SettleTimer)
    {
      settleTimer := false;
      reconnectSettling := false;
      reconnectTimerArmed := false;
      if !suspended {
        autoConnect := true;
      }
    }

    method BootTimeout()
      modifies this
      ensures Now() == Step(cfg, old(Now()), BootTimer)
    {
      bootTimer := false;
      connectAfterBootHolding := false;
      if suspended {
        return;
      }
      autoConnect := true;
    }

    method SetSuspended(on: bool)
      modifies this
      ensures Now() == Step(cfg, old(Now()), Suspend(on))
    {
      if !on && !suspended {
        return;
      }
      suspended := on;
      if on {
        autoConnect := false;
        calls := calls + [LinkSuspended];
      } else {
        calls := calls + [TeardownForgotten];
        if reconnectSettling {
        } else if connectAfterBootHolding {
        } else {
          autoConnect := true;
        }
      }
    }
  }

  // ---------------------------------------------------------------------------
  // Every reachable state
  // ---------------------------------------------------------------------------

  function Run(cfg: Config, s: State, es: seq<Event>): State {
    if es == [] then s else Step(cfg, Run(cfg, s, es[..|es| - 1]), es[|es| - 1])
  }

  // Each event is possible when it comes.
  predicate CanHappen(cfg: Config, s: State, es: seq<Event>) {
    forall i :: 0 <= i < |es| ==> Possible(Run(cfg, s, es[..i]), es[i])
  }

  predicate Arbitrated(s: State) {
    && s.auto == !(s.suspended || s.settling || s.bootHolding)
    && !(s.settling && s.bootHolding)
    && (!s.phase.IDLE? ==> !s.settling && !s.bootHolding)
    && s.settleTimer == s.armed && (s.armed ==> s.settling)
    && s.bootTimer == s.bootHolding
  }

  lemma StepKeepsArbitrated(cfg: Config, s: State, e: Event)
    requires Arbitrated(s) && Possible(s, e)
    ensures Arbitrated(Step(cfg, s, e))
  {}

  lemma CanHappenPrefix(cfg: Config, s: State, es: seq<Event>, n: nat)
    requires CanHappen(cfg, s, es) && n <= |es|
    ensures CanHappen(cfg, s, es[..n])
    ensures n < |es| ==> Possible(Run(cfg, s, es[..n]), es[n])
  {
    forall i | 0 <= i < n
      ensures Possible(Run(cfg, s, es[..n][..i]), es[..n][i])
    {
      assert es[..n][..i] == es[..i];
    }
  }

  lemma {:induction false} RunKeepsArbitrated(cfg: Config, s: State, es: seq<Event>)
    requires Arbitrated(s) && CanHappen(cfg, s, es)
    ensures Arbitrated(Run(cfg, s, es))
  {
    hide Step, Arbitrated, Possible, CanHappen;
    if es == [] {
    } else {
      var init, e := es[..|es| - 1], es[|es| - 1];
      CanHappenPrefix(cfg, s, es, |es| - 1);
      RunKeepsArbitrated(cfg, s, init);
      StepKeepsArbitrated(cfg, Run(cfg, s, init), e);
    }
  }

  /** In every reachable state the client may not reconnect exactly when the link is
  suspended, in its boot hold or in a settle window; never in both of those at once. */
  lemma OffMeansHeld(cfg: Config, es: seq<Event>)
    requires CanHappen(cfg, Start(cfg), es)
    ensures var s := Run(cfg, Start(cfg), es);
            (!s.auto <==> s.suspended || s.settling || s.bootHolding) && !(s.settling && s.bootHolding)
  {
    RunKeepsArbitrated(cfg, Start(cfg), es);
  }

  /** No timer, open or disconnect undoes a suspend. */
  lemma {:induction false} SuspendLasts(cfg: Config, s: State, es: seq<Event>)
    requires Arbitrated(s) && s.suspended && CanHappen(cfg, s, es)
    requires forall i :: 0 <= i < |es| ==> es[i] != Suspend(false)
    ensures var t := Run(cfg, s, es); t.suspended && !t.auto
  {
    if es == [] {
    } else {
      hide CanHappen;
      CanHappenPrefix(cfg, s, es, |es| - 1);
      SuspendLasts(cfg, s, es[..|es| - 1]);
    }
  }

  // What is left of the holds: which are in force, and whether the window has started.
  datatype Holds = Holds(boot: bool, settle: bool, started: bool)

  function HoldsOf(s: State): Holds {
    Holds(s.bootHolding, s.settling, s.armed)
  }

  predicate PumpSeen(es: seq<Event>) {
    exists i :: 0 <= i < |es| && es[i] == Advertised(true)
  }

  lemma HoldStep(cfg: Config, s: State, e: Event)
    requires Arbitrated(s) && (s.settling || s.bootHolding) && Possible(s, e) && !e.SettleTimer? && !e.BootTimer?
    ensures HoldsOf(Step(cfg, s, e)) ==
            Holds(s.bootHolding, s.settling, s.armed || (s.settling && e == Advertised(true)))
  {}

  predicate NoTimers(es: seq<Event>) {
    forall i :: 0 <= i < |es| ==> !es[i].SettleTimer? && !es[i].BootTimer?
  }

  function Evolved(s: State, es: seq<Event>): Holds {
    Holds(s.bootHolding, s.settling, s.armed || (s.settling && PumpSeen(es)))
  }

  lemma EvolvedSnoc(s: State, es: seq<Event>, e: Event)
    ensures var h := Evolved(s, es);
            Evolved(s, es + [e]) == h.(started := h.started || (s.settling && e == Advertised(true)))
  {
    hide PumpSeen;
    PumpSeenSnoc(es, e);
  }

  lemma {:induction false} HoldsEvolve(cfg: Config, s: State, es: seq<Event>)
    requires Arbitrated(s) && (s.settling || s.bootHolding) && CanHappen(cfg, s, es) && NoTimers(es)
    ensures HoldsOf(Run(cfg, s, es)) == Evolved(s, es)
  {
    hide Step, Possible, CanHappen, Arbitrated;
    if es == [] {
      assert !PumpSeen(es);
    } else {
      hide PumpSeen, Evolved;
      var init, e := es[..|es| - 1], es[|es| - 1];
      CanHappenPrefix(cfg, s, es, |es| - 1);
      HoldsEvolve(cfg, s, init);
      RunKeepsArbitrated(cfg, s, init);
      EvolvedKeepsHolds(s, init);
      HoldStep(cfg, Run(cfg, s, init), e);
      assert es == init + [e];
      EvolvedSnoc(s, init, e);
    }
  }

  lemma EvolvedKeepsHolds(s: State, es: seq<Event>)
    ensures Evolved(s, es).boot == s.bootHolding && Evolved(s, es).settle == s.settling
  {}

  /** A hold lasts until its own timer, whatever is suspended and released in the
  meantime, and the settle timer starts at the same advertisement either way. */
  lemma HoldOutlastsSuspends(cfg: Config, s: State, es: seq<Event>)
    requires Arbitrated(s) && (s.settling || s.bootHolding) && CanHappen(cfg, s, es) && NoTimers(es)
    ensures var t := Run(cfg, s, es); !t.auto && t.phase.IDLE? && HoldsOf(t) == Evolved(s, es)
  {
    hide Run, CanHappen, PumpSeen;
    HoldsEvolve(cfg, s, es);
    RunKeepsArbitrated(cfg, s, es);
  }

  lemma PumpSeenSnoc(es: seq<Event>, e: Event)
    ensures PumpSeen(es + [e]) <==> PumpSeen(es) || e == Advertised(true)
  {
    var more := es + [e];
    assert more[|es|] == e;
    if PumpSeen(es) {
      var i :| 0 <= i < |es| && es[i] == Advertised(true);
      assert more[i] == Advertised(true);
    }
  }

  /** A suspend and a release, from wherever they find the link, leave the arbitration as
  it was: holds, timers and all. */
  lemma SuspendThenRelease(cfg: Config, s: State)
    requires Arbitrated(s) && !s.suspended
    ensures var t := Step(cfg, Step(cfg, s, Suspend(true)), Suspend(false));
            t == s.(calls := s.calls + [LinkSuspended, TeardownForgotten])
  {
    assert s.calls + [LinkSuspended] + [TeardownForgotten] == s.calls + [LinkSuspended, TeardownForgotten];
  }

  // A timer that is set fires; one that is not does nothing.
  function Elapse(cfg: Config, s: State, e: Event): State {
    if Possible(s, e) then Step(cfg, s, e) else s
  }

  /** From any reachable state, releasing the switch, seeing the pump and letting the
  timers run out leaves the client free to connect. */
  lemma NeverStranded(cfg: Config, es: seq<Event>)
    requires CanHappen(cfg, Start(cfg), es)
    ensures var released := Step(cfg, Run(cfg, Start(cfg), es), Suspend(false));
            var seen := Step(cfg, released, Advertised(true));
            var settled := Elapse(cfg, seen, SettleTimer);
            Elapse(cfg, settled, BootTimer).auto
  {
    RunKeepsArbitrated(cfg, Start(cfg), es);
    hide Run, CanHappen;
  }

  // ---------------------------------------------------------------------------
  // What it leans on
  // ---------------------------------------------------------------------------

  // The property itself, in one state.
  predicate OffIffHeld(s: State) {
    !s.auto <==> s.suspended || s.settling || s.bootHolding
  }

  /** It holds from here on, whatever happens. */
  ghost predicate Always(cfg: Config, s: State) {
    forall es | CanHappen(cfg, s, es) :: OffIffHeld(Run(cfg, s, es))
  }

  // What carries it: an invariant that leaves more to the client than Arbitrated does.
  predicate Carries(cfg: Config, s: State) {
    && OffIffHeld(s) && !(s.settling && s.bootHolding)
    && s.settleTimer == s.armed && (s.armed ==> s.settling) && s.bootTimer == s.bootHolding
    && (s.phase.CONNECTING? ==> !s.settling)
    && (s.bootHolding && cfg.settleTime ==> s.phase.IDLE?)
  }

  lemma StepKeepsCarries(cfg: Config, s: State, e: Event)
    requires Carries(cfg, s) && Possible(s, e)
    ensures Carries(cfg, Step(cfg, s, e))
  {}

  lemma {:induction false} RunKeepsCarries(cfg: Config, s: State, es: seq<Event>)
    requires Carries(cfg, s) && CanHappen(cfg, s, es)
    ensures Carries(cfg, Run(cfg, s, es))
  {
    hide Step, Carries, Possible, CanHappen;
    if es == [] {
    } else {
      CanHappenPrefix(cfg, s, es, |es| - 1);
      RunKeepsCarries(cfg, s, es[..|es| - 1]);
      StepKeepsCarries(cfg, Run(cfg, s, es[..|es| - 1]), es[|es| - 1]);
    }
  }

  lemma CarriedAlways(cfg: Config, s: State)
    requires Carries(cfg, s)
    ensures Always(cfg, s)
  {
    forall es | CanHappen(cfg, s, es)
      ensures OffIffHeld(Run(cfg, s, es))
    {
      RunKeepsCarries(cfg, s, es);
      hide Run, CanHappen;
    }
  }

  // Three possible events after which it does not hold.
  lemma BrokenInThree(cfg: Config, s: State, a: Event, b: Event, c: Event)
    requires var t := Step(cfg, s, a);
             Possible(s, a) && Possible(t, b) && Possible(Step(cfg, t, b), c) &&
             !OffIffHeld(Step(cfg, Step(cfg, t, b), c))
    ensures !Always(cfg, s)
  {
    RunThree(cfg, s, a, b, c);
    hide Step, Possible;
    assert CanHappen(cfg, s, [a, b, c]);
  }

  lemma BrokenNow(cfg: Config, s: State)
    requires !OffIffHeld(s)
    ensures !Always(cfg, s)
  {
    assert CanHappen(cfg, s, []) && Run(cfg, s, []) == s;
  }

  /** "Off exactly when suspended, settling or in the boot hold", for ever after an event
  that the client was perhaps not free to bring about. After an open it holds if and only
  if no settle window was running, or the link was suspended, and no boot hold either, or
  no settle windows are configured; after a connect, without the exception for suspended
  links; after a disconnect, unless it starts a settle window inside the boot hold. */
  lemma KeptExactlyOutsideHolds(cfg: Config, s: State, bonded: bool)
    requires Arbitrated(s)
    ensures Always(cfg, Step(cfg, s, Opened)) <==>
              (!s.settling || s.suspended) && (!s.bootHolding || !cfg.settleTime)
    ensures Always(cfg, Step(cfg, s, Connect)) <==>
              !s.settling && (!s.bootHolding || !cfg.settleTime)
    ensures Always(cfg, Step(cfg, s, Disconnected(bonded))) <==>
              !(s.bootHolding && !s.suspended && cfg.settleTime && bonded)
  {
    AfterOpen(cfg, s);
    AfterConnect(cfg, s);
    AfterDisconnect(cfg, s, bonded);
  }

  lemma AfterOpen(cfg: Config, s: State)
    requires Arbitrated(s)
    ensures Always(cfg, Step(cfg, s, Opened)) <==>
              (!s.settling || s.suspended) && (!s.bootHolding || !cfg.settleTime)
  {
    hide Always;
    var t := Step(cfg, s, Opened);
    if s.settling && !s.suspended {
      BrokenNow(cfg, t);
    } else if s.bootHolding && cfg.settleTime {
      BrokenInThree(cfg, t, Suspend(false), Disconnected(true), BootTimer);
    } else {
      CarriedAlways(cfg, t);
    }
  }

  lemma AfterConnect(cfg: Config, s: State)
    requires Arbitrated(s)
    ensures Always(cfg, Step(cfg, s, Connect)) <==> !s.settling && (!s.bootHolding || !cfg.settleTime)
  {
    hide Always;
    var t := Step(cfg, s, Connect);
    if s.settling {
      BrokenInThree(cfg, t, Suspend(false), Opened, Advertised(false));
    } else if s.bootHolding && cfg.settleTime {
      BrokenInThree(cfg, t, Suspend(false), Disconnected(true), BootTimer);
    } else {
      CarriedAlways(cfg, t);
    }
  }

  lemma AfterDisconnect(cfg: Config, s: State, bonded: bool)
    requires Arbitrated(s)
    ensures Always(cfg, Step(cfg, s, Disconnected(bonded))) <==>
              !(s.bootHolding && !s.suspended && cfg.settleTime && bonded)
  {
    hide Always;
    var t := Step(cfg, s, Disconnected(bonded));
    if s.bootHolding && !s.suspended && cfg.settleTime && bonded {
      BrokenInThree(cfg, t, BootTimer, Advertised(false), Advertised(false));
    } else {
      CarriedAlways(cfg, t);
    }
  }

  // Off, with nothing in force and nothing set that would turn it on.
  predicate Stranded(s: State) {
    !s.auto && !s.suspended && !s.settling && !s.bootHolding && !s.armed && !s.settleTimer && !s.bootTimer
  }

  /** An open inside a settle window, with no connect behind it, clears the window and
  leaves auto_connect off; and from there no event gives it back but a suspend, to be
  released, or the disconnect of a bonded link, to be waited out. */
  lemma {:induction false} OpenInsideWindowStrands(cfg: Config, s: State, es: seq<Event>)
    requires Arbitrated(s) && s.settling && !s.suspended
    requires CanHappen(cfg, Step(cfg, s, Opened), es)
    requires Suspend(true) !in es && Disconnected(true) !in es
    ensures Stranded(Run(cfg, Step(cfg, s, Opened), es))
  {
    var t := Step(cfg, s, Opened);
    if es == [] {
    } else {
      var init, e := es[..|es| - 1], es[|es| - 1];
      CanHappenPrefix(cfg, t, es, |es| - 1);
      assert e in es && forall x :: x in init ==> x in es;
      OpenInsideWindowStrands(cfg, s, init);
      hide Run, CanHappen, Arbitrated;
      StrandedStep(cfg, Run(cfg, t, init), e);
    }
  }

  lemma StrandedStep(cfg: Config, s: State, e: Event)
    requires Stranded(s) && Possible(s, e) && e != Suspend(true) && e != Disconnected(true)
    ensures Stranded(Step(cfg, s, e))
  {}

  // Events that come one after the other; those after the given number are all possible.
  ghost predicate HappensAfter(cfg: Config, s: State, es: seq<Event>, n: nat) {
    forall i :: n <= i < |es| ==> Possible(Run(cfg, s, es[..i]), es[i])
  }

  /** The same from the start: a window, and an open that nothing asked for. */
  lemma StrandedFromStart()
    ensures var cfg := Config(false, true);
            var es := [Connect, Opened, Disconnected(true)];
            var s := Run(cfg, Start(cfg), es);
            CanHappen(cfg, Start(cfg), es) && Arbitrated(s) && s.settling &&
            Stranded(Step(cfg, s, Opened))
  {
    var cfg := Config(false, true);
    RunThree(cfg, Start(cfg), Connect, Opened, Disconnected(true));
  }

  /** An open inside the boot hold, and then nothing but possible events: the boot timer
  hands auto_connect back in the middle of a settle window. */
  lemma OpenInsideBootHoldCutsWindow()
    ensures var cfg := Config(true, true);
            var es := [Opened, Disconnected(true), BootTimer];
            var t := Run(cfg, Start(cfg), es);
            Arbitrated(Start(cfg)) && !Start(cfg).settling && !Start(cfg).suspended &&
            HappensAfter(cfg, Start(cfg), es, 1) && t.auto && t.settling && !t.suspended
  {
    var cfg := Config(true, true);
    RunThree(cfg, Start(cfg), Opened, Disconnected(true), BootTimer);
  }

  lemma RunThree(cfg: Config, s: State, a: Event, b: Event, c: Event)
    ensures var es := [a, b, c];
            Run(cfg, s, es[..0]) == s && Run(cfg, s, es[..1]) == Step(cfg, s, a) &&
            Run(cfg, s, es[..2]) == Step(cfg, Step(cfg, s, a), b) &&
            Run(cfg, s, es) == Step(cfg, Step(cfg, Step(cfg, s, a), b), c)
  {
    var es := [a, b, c];
    assert es[..1] == [a] && es[..2] == [a, b] && es[..1][..0] == [] && es[..2][..1] == [a];
    hide Step;
  }

  // ---------------------------------------------------------------------------
  // Read off the events alone
  // ---------------------------------------------------------------------------

  // The last word on suspending.
  predicate SuspendedIn(es: seq<Event>) {
    es != [] &&
    var e := es[|es| - 1];
    if e.Suspend? then e.on else SuspendedIn(es[..|es| - 1])
  }

  // A bonded link ended unsuspended, and its window has neither run out nor been opened into.
  predicate WindowIn(cfg: Config, es: seq<Event>) {
    es != [] &&
    var init, e := es[..|es| - 1], es[|es| - 1];
    var before := WindowIn(cfg, init);
    match e
    case Disconnected(bonded) => before || (bonded && cfg.settleTime && !SuspendedIn(init))
    case Opened => before && SuspendedIn(init)
    case SettleTimer => false
    case _ => before
  }

  // The pump has been seen in the window.
  predicate SeenInWindow(cfg: Config, es: seq<Event>) {
    es != [] &&
    var init, e := es[..|es| - 1], es[|es| - 1];
    var before := SeenInWindow(cfg, init);
    match e
    case Advertised(isPump) => before || (isPump && WindowIn(cfg, init))
    case Disconnected(bonded) => before && !(bonded && cfg.settleTime && !SuspendedIn(init))
    case Opened => before && SuspendedIn(init)
    case SettleTimer => false
    case _ => before
  }

  predicate BootHoldIn(cfg: Config, es: seq<Event>) {
    cfg.bootDelay && BootTimer !in es
  }

  // The manager is asked to hang up by each suspend, and by each link that opens under one;
  // and to forget that by each release of one. The timer of a window is set once, by the
  // first advertisement of the pump in it.
  function CallsIn(cfg: Config, es: seq<Event>): seq<Call> {
    if es == [] then []
    else
      var init, e := es[..|es| - 1], es[|es| - 1];
      CallsIn(cfg, init) +
      match e
      case Suspend(on) => if on then [LinkSuspended] else if SuspendedIn(init) then [TeardownForgotten] else []
      case Opened => if SuspendedIn(init) then [LinkSuspended] else []
      case Advertised(isPump) =>
        if isPump && WindowIn(cfg, init) && !SeenInWindow(cfg, init) then [SettleTimerSet] else []
      case _ => []
  }

  // What the flags say is what the events say.
  predicate AsRead(cfg: Config, es: seq<Event>, s: State) {
    && s.suspended == SuspendedIn(es) && s.settling == WindowIn(cfg, es) && s.armed == SeenInWindow(cfg, es)
    && s.bootHolding == BootHoldIn(cfg, es) && s.calls == CallsIn(cfg, es)
  }

  lemma WindowOneMore(cfg: Config, init: seq<Event>, e: Event)
    ensures SuspendedIn(init + [e]) == if e.Suspend? then e.on else SuspendedIn(init)
    ensures BootHoldIn(cfg, init + [e]) == (BootHoldIn(cfg, init) && !e.BootTimer?)
    ensures WindowIn(cfg, init + [e]) ==
            match e
            case Disconnected(bonded) => WindowIn(cfg, init) || (bonded && cfg.settleTime && !SuspendedIn(init))
            case Opened => WindowIn(cfg, init) && SuspendedIn(init)
            case SettleTimer => false
            case _ => WindowIn(cfg, init)
    ensures SeenInWindow(cfg, init + [e]) ==
            match e
            case Advertised(isPump) => SeenInWindow(cfg, init) || (isPump && WindowIn(cfg, init))
            case Disconnected(bonded) =>
              SeenInWindow(cfg, init) && !(bonded && cfg.settleTime && !SuspendedIn(init))
            case Opened => SeenInWindow(cfg, init) && SuspendedIn(init)
            case SettleTimer => false
            case _ => SeenInWindow(cfg, init)
  {
    assert (init + [e])[..|init|] == init;
  }

  lemma CallsOneMore(cfg: Config, init: seq<Event>, e: Event)
    ensures CallsIn(cfg, init + [e]) == CallsIn(cfg, init) +
            match e
            case Suspend(on) => if on then [LinkSuspended] else if SuspendedIn(init) then [TeardownForgotten] else []
            case Opened => if SuspendedIn(init) then [LinkSuspended] else []
            case Advertised(isPump) =>
              if isPump && WindowIn(cfg, init) && !SeenInWindow(cfg, init) then [SettleTimerSet] else []
            case _ => []
  {
    assert (init + [e])[..|init|] == init;
  }

  lemma ReadCalls(cfg: Config, init: seq<Event>, e: Event, s: State)
    requires AsRead(cfg, init, s)
    ensures Step(cfg, s, e).calls == CallsIn(cfg, init + [e])
  {
    hide SuspendedIn, WindowIn, SeenInWindow, BootHoldIn, CallsIn;
    CallsOneMore(cfg, init, e);
  }

  lemma ReadOneMore(cfg: Config, init: seq<Event>, e: Event, s: State)
    requires AsRead(cfg, init, s)
    ensures AsRead(cfg, init + [e], Step(cfg, s, e))
  {
    hide SuspendedIn, WindowIn, SeenInWindow, BootHoldIn, CallsIn;
    WindowOneMore(cfg, init, e);
    ReadCalls(cfg, init, e, s);
  }

  lemma {:induction false} FlagsAreRead(cfg: Config, es: seq<Event>)
    ensures AsRead(cfg, es, Run(cfg, Start(cfg), es))
  {
    if es == [] {
    } else {
      hide Step, AsRead;
      var init, e := es[..|es| - 1], es[|es| - 1];
      FlagsAreRead(cfg, init);
      ReadOneMore(cfg, init, e, Run(cfg, Start(cfg), init));
      assert init + [e] == es;
    }
  }

  /** In every run from the start, suspension, windows, boot hold and what the manager was
  asked are what the events alone say, and so is auto_connect: on exactly without all three. */
  lemma ReadOffEvents(cfg: Config, es: seq<Event>)
    requires CanHappen(cfg, Start(cfg), es)
    ensures var s := Run(cfg, Start(cfg), es);
            && s.suspended == SuspendedIn(es) && s.settling == WindowIn(cfg, es) && s.armed == SeenInWindow(cfg, es)
            && s.bootHolding == BootHoldIn(cfg, es) && s.calls == CallsIn(cfg, es)
            && s.auto == (!SuspendedIn(es) && !WindowIn(cfg, es) && !BootHoldIn(cfg, es))
  {
    hide Run, CanHappen;
    OffMeansHeld(cfg, es);
    FlagsAreRead(cfg, es);
  }
}
