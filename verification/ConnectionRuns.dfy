/** What holds over whole runs of the connection manager, from its start and through
any events the stack, the pump, other devices and the component can produce.
*/
module ConnectionRuns {
  import opened FailureHold
  import opened GapSecurity
  import opened Numbers
  import opened ConnectionManager
  import Stalls = PairingStall

  // ---------------------------------------------------------------------------
  // Runs
  // ---------------------------------------------------------------------------

  /** What the component says: its reasons name something, are not the text of a
  teardown, and come at the two ranks its watchdogs use. */
  predicate Says(e: Event) {
    (e.NoteFailure? || e.ForceDisconnect?) ==>
      e.text != "" && !IsLocalTeardown(e.text) && (e.rank.DATA? || e.rank.READY?)
  }

  predicate CanHappen(cfg: Config, es: seq<Event>) {
    forall i :: 0 <= i < |es| ==> Possible(cfg, es[i]) && Says(es[i])
  }

  function Run(cfg: Config, s: State, es: seq<Event>): State {
    if es == [] then s else Step(cfg, Run(cfg, s, es[..|es| - 1]), es[|es| - 1]).state
  }

  // Everything done in a run, in order.
  function Done(cfg: Config, s: State, es: seq<Event>): seq<Effect> {
    if es == [] then []
    else
      var init, e := es[..|es| - 1], es[|es| - 1];
      Done(cfg, s, init) + Step(cfg, Run(cfg, s, init), e).out
  }

  lemma RunSnoc(cfg: Config, s: State, es: seq<Event>, e: Event)
    ensures Run(cfg, s, es + [e]) == Step(cfg, Run(cfg, s, es), e).state
    ensures Done(cfg, s, es + [e]) == Done(cfg, s, es) + Step(cfg, Run(cfg, s, es), e).out
  {
    assert (es + [e])[..|es|] == es;
  }

  lemma {:induction false} RunConcat(cfg: Config, s: State, es: seq<Event>, fs: seq<Event>)
    ensures Run(cfg, s, es + fs) == Run(cfg, Run(cfg, s, es), fs)
  {
    if fs == [] {
      assert es + fs == es;
    } else {
      hide Step;
      var init, e := fs[..|fs| - 1], fs[|fs| - 1];
      assert es + fs == es + init + [e];
      RunSnoc(cfg, s, es + init, e);
      RunConcat(cfg, s, es, init);
    }
  }

  // ---------------------------------------------------------------------------
  // The invariant
  // ---------------------------------------------------------------------------

  /** A held text is the text of the fault whose rank is held. */
  ghost predicate TextFits(s: State) {
    match s.hold
    case NONE => true
    case READY => s.text != "" && !IsLocalTeardown(s.text)
    case DATA => s.text != "" && !IsLocalTeardown(s.text)
    case PAIRING_STALL => s.text == STALL_TEXT
    case SUBSCRIBE => exists o: Outcome :: Blocks(o) && s.text == OutcomeText(o)
    case AUTH => exists r: byte :: s.text == AuthText(r)
  }

  predicate StallFits(s: State) {
    s.stall.sawOpen && s.hold.PAIRING_STALL? ==> Stalls.Stalled(s.stall)
  }

  ghost predicate Good(s: State) {
    TextFits(s) && StallFits(s) && (s.deferred ==> s.pending) && s.retries <= MAX_DISCOVERY_RETRIES
  }

  lemma HeldTextNamesAFault(s: State)
    requires TextFits(s) && s.hold != NONE
    ensures s.text != "" && !IsLocalTeardown(s.text)
  {
    hide AuthName, LowerHex, OutcomeText;
    assert LOCAL_TEXT[0] == 'L';
    match s.hold
    case AUTH =>
      var r: byte :| s.text == AuthText(r);
      assert s.text[0] == AuthName(r)[0];
    case SUBSCRIBE =>
      var o: Outcome :| Blocks(o) && s.text == OutcomeText(o);
    case _ =>
  }

  lemma SubscribeGood(cfg: Config, s: State, peer: Peer)
    requires Good(s)
    ensures Good(Subscribe(cfg, s, peer).state)
  {
    ReportGood(s, Attempt(cfg, peer));
  }

  lemma ReportGood(s: State, o: Outcome)
    requires Good(s)
    ensures Good(ReportSubscribe(s, o))
  {
    hide OutcomeText, AuthText;
    if Blocks(o) {
      assert TextFits(s.(text := OutcomeText(o), hold := SUBSCRIBE));
    }
  }

  lemma OpenedGood(cfg: Config, s: State, bonded: bool, refused: bool, accepted: bool)
    requires Good(s)
    ensures Good(OnOpened(cfg, s, bonded, refused, accepted).state)
  {
    hide OutcomeText, AuthText;
    var called := CallComponent(s.(bondedAtOpen := bonded, teardown := false), refused);
    assert TextFits(called);
    assert TextFits(Admit(s, bonded, refused));
  }

  lemma DisconnectGood(s: State, reason: uint16)
    requires Good(s)
    ensures Good(OnDisconnect(s, reason).state)
  {
    hide OutcomeText, AuthText, DisconnectText;
    assert TextFits(CloseCycle(s, reason).state);
  }

  lemma AuthGood(cfg: Config, s: State, success: bool, reason: byte, peer: Peer)
    requires Good(s)
    ensures Good(OnAuthSuccess(cfg, s, peer).state)
    ensures Good(OnAuthFailure(s, reason).state)
  {
    hide OutcomeText, AuthText;
    assert TextFits(s.(text := AuthText(reason), hold := AUTH));
    var done := s.(pending := false, deferred := false);
    var unheld := if ReleasedByAuth(done.hold) then done.(hold := NONE) else done;
    assert TextFits(unheld);
    var bonded := ReleaseStall(Tell(unheld, Stalls.BondEstablished));
    assert Good(bonded);
    SubscribeGood(cfg, bonded, peer);
    hide Subscribe;
  }

  lemma SearchGood(cfg: Config, s: State, peer: Peer)
    requires Good(s)
    ensures Good(OnSearchComplete(cfg, s, peer).state)
  {
    hide OutcomeText, AuthText, ReportSubscribe, Subscribe;
    ReportGood(s, NO_CLIENT);
    ReportGood(s, NO_SERVICE);
    ReportGood(s, NO_CHARACTERISTIC);
    SubscribeGood(cfg, s, peer);
  }

  lemma HeardGood(cfg: Config, s: State, length: nat, addr: Address)
    requires Good(s)
    ensures Good(OnNotify(s, length).state)
    ensures Good(OnSecurityReq(cfg, s, addr).state)
  {
    hide OutcomeText, AuthText, IsPump, Answer;
  }

  lemma NoteGood(cfg: Config, s: State, text: string, rank: Hold)
    requires Good(s) && text != "" && !IsLocalTeardown(text) && (rank.DATA? || rank.READY?)
    ensures Good(Note(s, text, rank)) && Good(OnForceDisconnect(cfg, s, text, rank).state)
  {
    hide OutcomeText, AuthText;
    assert TextFits(Note(s, text, rank));
  }

  /** Every event keeps the invariant. */
  lemma StepKeepsGood(cfg: Config, s: State, e: Event)
    requires Good(s) && Possible(cfg, e) && Says(e)
    ensures Good(Step(cfg, s, e).state)
  {
    hide OutcomeText, AuthText, OnOpened, OnDisconnect, OnSearchComplete, OnAuthSuccess, OnAuthFailure;
    hide OnNotify, OnSecurityReq, OnForceDisconnect, Note;
    match e
    case GattOpen(_, bonded, refused, accepted) => OpenedGood(cfg, s, bonded, refused, accepted);
    case GattDisconnect(reason) => DisconnectGood(s, reason);
    case AuthComplete(_, success, reason, peer) => AuthGood(cfg, s, success, reason, peer);
    case SearchComplete(peer) => SearchGood(cfg, s, peer);
    case Notify(length) => HeardGood(cfg, s, length, UNSET);
    case SecurityReq(addr) => HeardGood(cfg, s, 0, addr);
    case NoteFailure(text, rank) => NoteGood(cfg, s, text, rank);
    case ForceDisconnect(text, rank) => NoteGood(cfg, s, text, rank);
    case _ =>
  }

  lemma {:induction false} RunKeepsGood(cfg: Config, s: State, es: seq<Event>)
    requires Good(s) && CanHappen(cfg, es)
    ensures Good(Run(cfg, s, es))
  {
    if es == [] {
    } else {
      hide Step, Good;
      RunKeepsGood(cfg, s, es[..|es| - 1]);
      StepKeepsGood(cfg, Run(cfg, s, es[..|es| - 1]), es[|es| - 1]);
    }
  }

  /** Over every run: a hold has a text that names a fault, never the text of a teardown
  this node asked for; a deferred subscription waits on encryption; and while a link is
  open a stall is held only on a pump that is stalled. */
  lemma HoldsAreHonest(cfg: Config, es: seq<Event>)
    requires CanHappen(cfg, es)
    ensures var s := Run(cfg, START, es);
            && (s.hold != NONE ==> s.text != "" && !IsLocalTeardown(s.text))
            && (s.deferred ==> s.pending)
            && (s.stall.sawOpen && s.hold.PAIRING_STALL? ==> Stalls.Stalled(s.stall))
            && s.retries <= MAX_DISCOVERY_RETRIES
  {
    RunKeepsGood(cfg, START, es);
    var s := Run(cfg, START, es);
    if s.hold != NONE {
      HeldTextNamesAFault(s);
    }
  }

  // ---------------------------------------------------------------------------
  // What ends a hold
  // ---------------------------------------------------------------------------

  /** The events that release what is held, each for the ranks it speaks to. */
  predicate Releases(cfg: Config, s: State, e: Event) {
    match e
    case Notify(length) => length > 0 && ReleasedByData(s.hold)
    case AuthComplete(addr, success, _, _) => IsPump(cfg, addr) && success && ReleasedByAuth(s.hold)
    case SessionReady => ReleasedBySessionReady(s.hold)
    case PumpReady => ReleasedByPumpReady(s.hold)
    case SecurityReq(addr) => IsPump(cfg, addr) && s.hold.PAIRING_STALL?
    case GattOpen(status, bonded, _, _) =>
      !status.OPEN_FAILED? && s.hold.PAIRING_STALL? && (bonded || !Stalls.Stalled(s.stall))
    case _ => false
  }

  lemma OpenHold(cfg: Config, s: State, bonded: bool, refused: bool, accepted: bool)
    ensures var t := OnOpened(cfg, s, bonded, refused, accepted).state;
            if s.hold.PAIRING_STALL? && (bonded || !Stalls.Stalled(s.stall)) then t.hold == NONE && t.text == ""
            else t.hold == s.hold && t.text == s.text
  {}

  /** The highest rank at which an event can bring a reason of its own. */
  function Brings(cfg: Config, e: Event): Hold {
    match e
    case SearchComplete(_) => SUBSCRIBE
    case AuthComplete(addr, success, _, _) =>
      if !IsPump(cfg, addr) then NONE else if success then SUBSCRIBE else AUTH
    case GattDisconnect(_) => PAIRING_STALL
    case NoteFailure(_, rank) => rank
    case ForceDisconnect(_, rank) => rank
    case _ => NONE
  }

  // What was held is still held, or a reason between its rank and the given one is.
  predicate GaveWay(s: State, t: State, brought: Hold) {
    (t.hold == s.hold && t.text == s.text) || Rank(s.hold) <= Rank(t.hold) <= Rank(brought)
  }

  lemma SubscribeHold(cfg: Config, s: State, peer: Peer)
    requires s.hold != NONE
    ensures GaveWay(s, Subscribe(cfg, s, peer).state, SUBSCRIBE)
  {}

  lemma SearchHold(cfg: Config, s: State, peer: Peer)
    requires s.hold != NONE
    ensures GaveWay(s, OnSearchComplete(cfg, s, peer).state, SUBSCRIBE)
  {
    hide OutcomeText, Subscribe;
    SubscribeHold(cfg, s, peer);
  }

  lemma DisconnectHold(s: State, reason: uint16)
    requires s.hold != NONE
    ensures GaveWay(s, OnDisconnect(s, reason).state, PAIRING_STALL)
  {
    hide DisconnectText, Stalls.Step, Stalls.Reports;
  }

  lemma AuthHold(cfg: Config, s: State, reason: byte, peer: Peer)
    requires s.hold != NONE
    ensures !ReleasedByAuth(s.hold) ==> GaveWay(s, OnAuthSuccess(cfg, s, peer).state, SUBSCRIBE)
    ensures GaveWay(s, OnAuthFailure(s, reason).state, AUTH)
  {
    hide AuthText, Stalls.Step;
    if !ReleasedByAuth(s.hold) {
      var bonded := Tell(s.(pending := false), Stalls.BondEstablished);
      SubscribeHold(cfg, bonded.(deferred := false), peer);
      hide Subscribe;
    }
  }

  /** One event and a reason held: it stays as it is, or gives way to one the event
  brings, of at least its rank, or the event is one that releases that rank. */
  lemma HoldGivesWay(cfg: Config, s: State, e: Event)
    requires Good(s) && s.hold != NONE && Possible(cfg, e) && Says(e) && !Releases(cfg, s, e)
    ensures GaveWay(s, Step(cfg, s, e).state, Brings(cfg, e))
  {
    HeldTextNamesAFault(s);
    hide OutcomeText, AuthText, DisconnectText, TextFits, StallFits, OnOpened, Subscribe;
    hide OnAuthSuccess, OnAuthFailure, OnDisconnect, OnSearchComplete;
    match e
    case GattOpen(_, bonded, refused, accepted) => OpenHold(cfg, s, bonded, refused, accepted);
    case SearchComplete(peer) => SearchHold(cfg, s, peer);
    case GattDisconnect(reason) => DisconnectHold(s, reason);
    case AuthComplete(_, _, reason, peer) => AuthHold(cfg, s, reason, peer);
    case _ =>
  }

  // Some event of the run releases what is held when it comes.
  predicate ReleasedIn(cfg: Config, s: State, es: seq<Event>) {
    exists i :: 0 <= i < |es| && Releases(cfg, Run(cfg, s, es[..i]), es[i])
  }

  /** Over a run in which nothing releases what is held, the rank held never falls. */
  lemma {:induction false} RankNeverFalls(cfg: Config, s: State, es: seq<Event>)
    requires Good(s) && CanHappen(cfg, es) && !ReleasedIn(cfg, s, es)
    ensures Rank(Run(cfg, s, es).hold) >= Rank(s.hold)
  {
    if es == [] {
    } else {
      hide Step, Good, Releases;
      var init, e := es[..|es| - 1], es[|es| - 1];
      forall i | 0 <= i < |init|
        ensures !Releases(cfg, Run(cfg, s, init[..i]), init[i])
      {
        assert init[..i] == es[..i];
      }
      RankNeverFalls(cfg, s, init);
      RunKeepsGood(cfg, s, init);
      assert !Releases(cfg, Run(cfg, s, init), e);
      if Run(cfg, s, init).hold != NONE {
        HoldGivesWay(cfg, Run(cfg, s, init), e);
      }
    }
  }

  predicate IsPumpAuth(cfg: Config, e: Event) {
    e.AuthComplete? && IsPump(cfg, e.addr)
  }

  /** An authentication failure stays on the surface, word for word, through anything
  but the pump's next authentication result or a session that became ready. */
  lemma {:induction false} AuthReasonSurvives(cfg: Config, s: State, es: seq<Event>)
    requires Good(s) && s.hold.AUTH? && CanHappen(cfg, es)
    requires forall i :: 0 <= i < |es| ==> !IsPumpAuth(cfg, es[i]) && !es[i].SessionReady?
    ensures var t := Run(cfg, s, es); t.hold == AUTH && t.text == s.text
  {
    if es == [] {
    } else {
      hide Step, Good;
      var init := es[..|es| - 1];
      AuthReasonSurvives(cfg, s, init);
      RunKeepsGood(cfg, s, init);
      HoldGivesWay(cfg, Run(cfg, s, init), es[|es| - 1]);
    }
  }

  // The outcome of the subscription that the pump's authentication sets off, if any.
  function OutcomeOnAuth(cfg: Config, s: State, peer: Peer): Outcome {
    if s.deferred then Attempt(cfg, peer) else OK
  }

  lemma AuthReleases(cfg: Config, s: State, peer: Peer)
    requires Good(s) && ReleasedByAuth(s.hold)
    ensures var t, o := OnAuthSuccess(cfg, s, peer).state, OutcomeOnAuth(cfg, s, peer);
            if o.OK? then t.hold == NONE && t.text == s.text
            else t.hold == (if Blocks(o) then SUBSCRIBE else NONE) && t.text == OutcomeText(o)
  {
    hide OutcomeText, AuthText, TextFits, StallFits, Stalls.Step, Attempt;
  }

  /** A release clears the text with the hold, and only the pump's authentication does
  not: that one drops the rank and leaves the words, unless a subscription that waited
  for it fails and puts its own in their place. */
  lemma ReleaseClearsText(cfg: Config, s: State, e: Event)
    requires Good(s) && Releases(cfg, s, e)
    ensures var t := Step(cfg, s, e).state;
            if !e.AuthComplete? then t.hold == NONE && t.text == ""
            else
              var o := OutcomeOnAuth(cfg, s, e.authPeer);
              t.hold == (if Blocks(o) then SUBSCRIBE else NONE) &&
              t.text == (if o.OK? then s.text else OutcomeText(o))
    ensures Step(cfg, s, e).state.text == "" <==> !e.AuthComplete?
  {
    HeldTextNamesAFault(s);
    hide OutcomeText, AuthText, DisconnectText, TextFits, StallFits, OnOpened, OnAuthSuccess;
    match e
    case GattOpen(_, bonded, refused, accepted) => OpenHold(cfg, s, bonded, refused, accepted);
    case AuthComplete(_, _, _, peer) => AuthReleases(cfg, s, peer);
    case _ =>
  }

  /** So a stall that the pump refutes by bonding goes on being shown, unheld, exactly
  when no subscription was waiting or the one that was goes through; a stall that it
  refutes by asking for security is withdrawn. */
  lemma BondLeavesStallText(cfg: Config, s: State, addr: Address, reason: byte, peer: Peer)
    requires Good(s) && s.hold.PAIRING_STALL? && IsPump(cfg, addr)
    ensures var bonded := Step(cfg, s, AuthComplete(addr, true, reason, peer)).state;
            (bonded.text == STALL_TEXT <==> !s.deferred || Attempt(cfg, peer).OK?) &&
            (bonded.text == STALL_TEXT ==> bonded.hold == NONE) && bonded.text != ""
    ensures var asked := Step(cfg, s, SecurityReq(addr)).state;
            asked.hold == NONE && asked.text == ""
  {
    ReleaseClearsText(cfg, s, AuthComplete(addr, true, reason, peer));
    ReleaseClearsText(cfg, s, SecurityReq(addr));
    var o := OutcomeOnAuth(cfg, s, peer);
    assert OutcomeText(o)[0] == 'S' && STALL_TEXT[0] == 'P';
    hide Step, OutcomeText, Attempt;
  }

  // The pump takes an unbonded connection and ends it.
  function Refused(cfg: Config, s: State): State {
    Step(cfg, Step(cfg, s, GattOpen(GATT_OK, false, false, false)).state, GattDisconnect(0x13)).state
  }

  lemma RefusedOnce(cfg: Config, s: State)
    requires s.hold == NONE && s.stall.consecutive < 3
    ensures var t := Refused(cfg, s);
            t.stall.consecutive == s.stall.consecutive + 1 && !t.deferred &&
            t.hold == if t.stall.consecutive == 3 then PAIRING_STALL else NONE
  {
    hide DisconnectText;
  }

  // The next connection, unbonded and taken.
  function Reopened(cfg: Config, s: State): State {
    Step(cfg, s, GattOpen(GATT_OK, false, false, false)).state
  }

  lemma StallHeldOnOpen(cfg: Config, s: State)
    requires s.hold.PAIRING_STALL? && Stalls.Stalled(s.stall)
    ensures var t := Reopened(cfg, s); t.hold.PAIRING_STALL? && t.stall.sawOpen && !t.deferred
  {}

  /** Such a state is three refused connections away, and the bond comes over the fourth. */
  lemma BondLeavesStallTextFromStart(cfg: Config, reason: byte, peer: Peer)
    requires cfg.client.Some? && cfg.client.value != UNSET
    ensures var linked := Reopened(cfg, Refused(cfg, Refused(cfg, Refused(cfg, START))));
            var bonded := Step(cfg, linked, AuthComplete(cfg.client.value, true, reason, peer)).state;
            linked.hold == PAIRING_STALL && linked.stall.sawOpen &&
            bonded.hold == NONE && bonded.text == STALL_TEXT
  {
    var once := Refused(cfg, START);
    var twice := Refused(cfg, once);
    var stalled := Refused(cfg, twice);
    var linked := Reopened(cfg, stalled);
    RefusedOnce(cfg, START);
    RefusedOnce(cfg, once);
    RefusedOnce(cfg, twice);
    RefusedKeepsGood(cfg, START);
    RefusedKeepsGood(cfg, once);
    RefusedKeepsGood(cfg, twice);
    StallHeldOnOpen(cfg, stalled);
    hide Refused, Step;
    StepKeepsGood(cfg, stalled, GattOpen(GATT_OK, false, false, false));
    BondLeavesStallText(cfg, linked, cfg.client.value, reason, peer);
  }

  lemma RefusedKeepsGood(cfg: Config, s: State)
    requires Good(s) && cfg.client.Some?
    ensures Good(Refused(cfg, s))
  {
    hide Step, Good;
    StepKeepsGood(cfg, s, GattOpen(GATT_OK, false, false, false));
    StepKeepsGood(cfg, Step(cfg, s, GattOpen(GATT_OK, false, false, false)).state, GattDisconnect(0x13));
  }

  // ---------------------------------------------------------------------------
  // What the stall detector is told
  // ---------------------------------------------------------------------------

  function Told(cfg: Config, e: Event): seq<Stalls.Event> {
    match e
    case GattOpen(status, bonded, refused, _) =>
      if status.OPEN_FAILED? then []
      else if refused then [Stalls.LocalTeardown, Stalls.Open(bonded)]
      else [Stalls.Open(bonded)]
    case Notify(length) => if length > 0 then [Stalls.Data] else []
    case GattDisconnect(reason) => [Stalls.Disconnect(reason)]
    case AuthComplete(addr, success, _, _) => if IsPump(cfg, addr) && success then [Stalls.BondEstablished] else []
    case SecurityReq(addr) => if IsPump(cfg, addr) then [Stalls.SecurityRequest] else []
    case ForceDisconnect(_, _) => [Stalls.LocalTeardown]
    case SuspendLink => [Stalls.LocalTeardown]
    case _ => []
  }

  function ToldIn(cfg: Config, es: seq<Event>): seq<Stalls.Event> {
    if es == [] then [] else ToldIn(cfg, es[..|es| - 1]) + Told(cfg, es[|es| - 1])
  }

  function StallAfter(s: Stalls.Stall, trace: seq<Stalls.Event>): Stalls.Stall
    requires |trace| <= 2
  {
    if |trace| == 0 then s
    else if |trace| == 1 then Stalls.Step(s, trace[0])
    else Stalls.Step(Stalls.Step(s, trace[0]), trace[1])
  }

  lemma LinkTells(cfg: Config, s: State, bonded: bool, refused: bool, accepted: bool, reason: uint16, peer: Peer)
    ensures OnOpened(cfg, s, bonded, refused, accepted).state.stall ==
            StallAfter(s.stall, Told(cfg, GattOpen(GATT_OK, bonded, refused, accepted)))
    ensures OnDisconnect(s, reason).state.stall == Stalls.Step(s.stall, Stalls.Disconnect(reason))
    ensures OnSearchComplete(cfg, s, peer).state.stall == s.stall
  {
    hide Stalls.Step, DisconnectText, Note, ReleaseStall, ReportSubscribe, Subscribe;
  }

  lemma PeerTells(cfg: Config, s: State, length: nat, reason: byte, peer: Peer)
    ensures OnNotify(s, length).state.stall == if length > 0 then Stalls.Step(s.stall, Stalls.Data) else s.stall
    ensures OnAuthSuccess(cfg, s, peer).state.stall == Stalls.Step(s.stall, Stalls.BondEstablished)
    ensures OnAuthFailure(s, reason).state.stall == s.stall
  {
    hide Stalls.Step, AuthText, Note, ReleaseStall, Subscribe;
  }

  lemma StepTells(cfg: Config, s: State, e: Event)
    ensures Step(cfg, s, e).state.stall == StallAfter(s.stall, Told(cfg, e))
  {
    hide Stalls.Step, Note, ReleaseStall, IsPump;
    hide OnOpened, OnDisconnect, OnSearchComplete, OnNotify, OnAuthSuccess, OnAuthFailure;
    match e
    case GattOpen(_, bonded, refused, accepted) =>
      LinkTells(cfg, s, bonded, refused, accepted, 0, Peer(false, false, false, false));
    case GattDisconnect(reason) => LinkTells(cfg, s, false, false, false, reason, Peer(false, false, false, false));
    case SearchComplete(peer) => LinkTells(cfg, s, false, false, false, 0, peer);
    case Notify(length) => PeerTells(cfg, s, length, 0, Peer(false, false, false, false));
    case AuthComplete(_, _, reason, peer) => PeerTells(cfg, s, 0, reason, peer);
    case _ =>
  }

  lemma StallRunTwo(trace: seq<Stalls.Event>, more: seq<Stalls.Event>)
    requires |more| <= 2
    ensures Stalls.Run(trace + more) == StallAfter(Stalls.Run(trace), more)
  {
    hide Stalls.Step, Stalls.Run;
    if |more| == 0 {
      assert trace + more == trace;
    } else {
      Stalls.RunStep(trace, more[0]);
      if |more| == 1 {
        assert trace + more == trace + [more[0]];
      } else {
        Stalls.RunStep(trace + [more[0]], more[1]);
        assert trace + more == trace + [more[0]] + [more[1]];
      }
    }
  }

  lemma {:induction false} StallIsItsTrace(cfg: Config, es: seq<Event>)
    ensures Run(cfg, START, es).stall == Stalls.Run(ToldIn(cfg, es))
  {
    if es == [] {
    } else {
      hide Step, Told, StallAfter, Stalls.Run;
      var init, e := es[..|es| - 1], es[|es| - 1];
      StallIsItsTrace(cfg, init);
      StepTells(cfg, Run(cfg, START, init), e);
      ToldAtMostTwice(cfg, e);
      StallRunTwo(ToldIn(cfg, init), Told(cfg, e));
    }
  }

  lemma ToldAtMostTwice(cfg: Config, e: Event)
    ensures |Told(cfg, e)| <= 2
  {}

  /** A stall held while a link is open stands for at least three links in a row that
  the pump ended, unbonded, with nothing said on them. */
  lemma HeldStallIsThreeRefusals(cfg: Config, es: seq<Event>)
    requires CanHappen(cfg, es)
    requires Run(cfg, START, es).stall.sawOpen && Run(cfg, START, es).hold.PAIRING_STALL?
    ensures Stalls.Streak(ToldIn(cfg, es)) >= 3
    ensures Stalls.LinkOpen(ToldIn(cfg, es), |ToldIn(cfg, es)|)
  {
    HoldsAreHonest(cfg, es);
    StallIsItsTrace(cfg, es);
    Stalls.StalledMeansThreeRefusals(ToldIn(cfg, es));
    Stalls.FlagsFollowRuns(ToldIn(cfg, es));
  }

  /** A connection the component refuses as it opens is marked as this node's own
  teardown before the detector starts the cycle, and the start wipes the mark: what
  keeps it out of the count is only the reason its disconnect gives. */
  lemma RefusedOpenCounts(cfg: Config, s: State, accepted: bool, reason: uint16)
    ensures var linked := Step(cfg, s, GattOpen(GATT_OK, false, true, accepted)).state;
            Stalls.Counts(linked.stall, Stalls.Disconnect(reason)) <==>
            reason !in {0x01, 0x08, 0x16, 0x22, 0x3E, 0x100}
  {
    StepTells(cfg, s, GattOpen(GATT_OK, false, true, accepted));
    hide Step;
  }

  // ---------------------------------------------------------------------------
  // Other devices
  // ---------------------------------------------------------------------------

  // Security traffic carrying an address that is not the pump's.
  predicate IsForeign(cfg: Config, e: Event) {
    (e.AuthComplete? || e.SecurityReq? || e.NumericComparison? || e.GapLogged?) && !IsPump(cfg, e.addr)
  }

  function WithoutForeign(cfg: Config, es: seq<Event>): seq<Event> {
    if es == [] then []
    else
      var init, e := WithoutForeign(cfg, es[..|es| - 1]), es[|es| - 1];
      if IsForeign(cfg, e) then init else init + [e]
  }

  lemma ForeignDoesNothing(cfg: Config, s: State, e: Event)
    requires IsForeign(cfg, e)
    ensures Step(cfg, s, e) == Next(s, [])
  {}

  /** Leaving every other device's security traffic out of a run changes neither where
  the manager ends nor anything it does on the way. */
  lemma {:induction false} ForeignTrafficIsInvisible(cfg: Config, s: State, es: seq<Event>)
    ensures Run(cfg, s, WithoutForeign(cfg, es)) == Run(cfg, s, es)
    ensures Done(cfg, s, WithoutForeign(cfg, es)) == Done(cfg, s, es)
  {
    if es == [] {
    } else {
      hide Step, IsForeign;
      var init, e := es[..|es| - 1], es[|es| - 1];
      ForeignTrafficIsInvisible(cfg, s, init);
      if IsForeign(cfg, e) {
        ForeignDoesNothing(cfg, Run(cfg, s, init), e);
      } else {
        RunSnoc(cfg, s, WithoutForeign(cfg, init), e);
      }
    }
  }

  // An answer to a pairing request that is the pump's, and as pairing is configured.
  predicate Proper(cfg: Config, effect: Effect) {
    match effect
    case SecurityReply(addr, accept) => IsPump(cfg, addr) && accept && cfg.pairingEnabled
    case ConfirmReply(addr, accept) => IsPump(cfg, addr) && accept == cfg.pairingEnabled
    case EncryptionRequested(_) => cfg.pairingEnabled
    case _ => true
  }

  lemma StepIsProper(cfg: Config, s: State, e: Event)
    ensures forall k :: 0 <= k < |Step(cfg, s, e).out| ==> Proper(cfg, Step(cfg, s, e).out[k])
  {
    hide Note, ReleaseStall, ReportSubscribe, AuthText, DisconnectText, Stalls.Step, Stalls.Reports, IsPump;
  }

  /** In no run is a pairing request answered that is not the pump's; the pump's is
  accepted only with pairing enabled, and encryption is asked for only then. */
  lemma {:induction false} OnlyThePumpIsAnswered(cfg: Config, s: State, es: seq<Event>)
    ensures forall k :: 0 <= k < |Done(cfg, s, es)| ==> Proper(cfg, Done(cfg, s, es)[k])
  {
    if es == [] {
    } else {
      hide Step, Proper;
      OnlyThePumpIsAnswered(cfg, s, es[..|es| - 1]);
      StepIsProper(cfg, Run(cfg, s, es[..|es| - 1]), es[|es| - 1]);
    }
  }
}
