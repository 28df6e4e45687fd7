/** What the connection manager owes: in every run, exactly when each thing is asked of the
stack or told to the component, and which failure is then on show. Conditions are read
off the log of the run, not off the manager's fields.
*/
module ConnectionDuties {
  import opened FailureHold
  import opened GapSecurity
  import opened Numbers
  import opened Text
  import opened ConnectionManager
  import opened ConnectionRuns
  import opened ConnectionWrites
  import Stalls = PairingStall

  // ---------------------------------------------------------------------------
  // The subscription
  // ---------------------------------------------------------------------------

  predicate Reachable(cfg: Config, peer: Peer) {
    cfg.client.Some? && peer.service && peer.characteristic
  }

  /** A search found everything while encryption was being negotiated, and nothing has
  settled that since. */
  predicate Waiting(cfg: Config, log: seq<Entry>) {
    if log == [] then false
    else
      var init := log[..|log| - 1];
      match log[|log| - 1]
      case Did(_) => Waiting(cfg, init)
      case Heard(e) =>
        !Settles(cfg, e) &&
        (Waiting(cfg, init) || (e.SearchComplete? && Reachable(cfg, e.peer) && Negotiating(cfg, init)))
  }

  lemma SearchDefers(cfg: Config, s: State, peer: Peer)
    ensures OnSearchComplete(cfg, s, peer).state.deferred == (s.deferred || (Reachable(cfg, peer) && s.pending))
  {
    hide Note, OutcomeText;
  }

  lemma StepDefers(cfg: Config, s: State, e: Event)
    ensures Step(cfg, s, e).state.deferred ==
            (!Settles(cfg, e) && (s.deferred || (e.SearchComplete? && Reachable(cfg, e.peer) && s.pending)))
  {
    DeferredStep(cfg, s, e);
    if e.SearchComplete? {
      SearchDefers(cfg, s, e.peer);
      hide OnSearchComplete;
    } else if !Settles(cfg, e) {
      if e.AuthComplete? {
        ForeignDoesNothing(cfg, s, e);
      } else if !e.GattOpen? {
        PlainOutput(cfg, s, e);
      }
    }
    hide Step;
  }

  lemma {:induction false} WaitingIsLasting(cfg: Config, log: seq<Entry>, out: seq<Effect>)
    ensures Waiting(cfg, log + Dids(out)) == Waiting(cfg, log)
    decreases |out|
  {
    if out == [] {
      assert log + Dids(out) == log;
    } else {
      var init := out[..|out| - 1];
      assert (log + Dids(out))[..|log + Dids(out)| - 1] == log + Dids(init);
      WaitingIsLasting(cfg, log, init);
    }
  }

  lemma HearingWaits(cfg: Config, log: seq<Entry>, e: Event)
    ensures Waiting(cfg, log + [Heard(e)]) ==
            (!Settles(cfg, e) &&
             (Waiting(cfg, log) || (e.SearchComplete? && Reachable(cfg, e.peer) && Negotiating(cfg, log))))
  {
    assert (log + [Heard(e)])[..|log|] == log;
  }

  /** What the manager has put off is what waits in the log. */
  lemma {:induction false} WaitingIsDeferred(cfg: Config, es: seq<Event>)
    ensures Waiting(cfg, Log(cfg, START, es)) == Run(cfg, START, es).deferred
  {
    if es == [] {
    } else {
      hide Step, Negotiating, Waiting, Adds;
      var init, e := es[..|es| - 1], es[|es| - 1];
      var s, log := Run(cfg, START, init), Log(cfg, START, init);
      WaitingIsDeferred(cfg, init);
      LogFollows(cfg, init);
      AddsWaiting(cfg, log, s, e);
    }
  }

  lemma AddsWaiting(cfg: Config, log: seq<Entry>, s: State, e: Event)
    requires Waiting(cfg, log) == s.deferred && Negotiating(cfg, log) == s.pending
    ensures Waiting(cfg, log + Adds(cfg, s, e)) == Step(cfg, s, e).state.deferred
  {
    StepDefers(cfg, s, e);
    hide Step, Negotiating, Settles, Waiting, Reachable, Dids;
    HearingWaits(cfg, log, e);
    WaitingIsLasting(cfg, log + [Heard(e)], Step(cfg, s, e).out);
    assert log + Adds(cfg, s, e) == log + [Heard(e)] + Dids(Step(cfg, s, e).out);
  }

  // The event is one on which the subscription is to be tried.
  predicate IsTheTime(cfg: Config, log: seq<Entry>, e: Event) {
    (e.SearchComplete? && Reachable(cfg, e.peer) && !Negotiating(cfg, log)) ||
    (IsPumpAuth(cfg, e) && e.success && Waiting(cfg, log))
  }

  function TriedOn(e: Event): Peer {
    match e
    case SearchComplete(peer) => peer
    case AuthComplete(_, _, _, peer) => peer
    case _ => Peer(false, false, false, false)
  }

  // The same, of one step, with what the manager's two flags say.
  predicate TriesWhen(cfg: Config, s: State, e: Event) {
    (e.SearchComplete? && Reachable(cfg, e.peer) && !s.pending) ||
    (IsPumpAuth(cfg, e) && e.success && s.deferred)
  }

  // How far a subscription gets.
  predicate Subscribes(cfg: Config, out: seq<Effect>, tries: bool, peer: Peer) {
    && (SubscribeAttempt in out <==> tries)
    && (RegisterForNotify in out <==> tries && Reachable(cfg, peer))
    && (NotifyWrite in out <==> tries && Reachable(cfg, peer) && peer.registers)
    && (SubscribedCallback in out <==> tries && Reachable(cfg, peer) && peer.registers)
    && (SubscribedCallback in out ==>
          |out| >= 4 && out[|out| - 4..] == [SubscribeAttempt, RegisterForNotify, NotifyWrite, SubscribedCallback])
  }

  lemma SearchSubscribes(cfg: Config, s: State, peer: Peer)
    ensures Subscribes(cfg, OnSearchComplete(cfg, s, peer).out, Reachable(cfg, peer) && !s.pending, peer)
  {
    hide Note, OutcomeText, ReportSubscribe;
  }

  lemma AttemptSubscribes(cfg: Config, peer: Peer)
    ensures Subscribes(cfg, AttemptOutput(Attempt(cfg, peer)), true, peer)
  {}

  lemma OthersDoNotSubscribe(cfg: Config, s: State, e: Event, peer: Peer)
    requires !e.SearchComplete? && !e.AuthComplete? && !e.GattDisconnect?
    ensures Subscribes(cfg, Step(cfg, s, e).out, false, peer)
  {
    hide Note, ReleaseStall, Stalls.Step, Stalls.Reports, IsPump, DisconnectText;
  }

  lemma StepSubscribes(cfg: Config, s: State, e: Event)
    ensures Subscribes(cfg, Step(cfg, s, e).out, TriesWhen(cfg, s, e), TriedOn(e))
  {
    match e
    case SearchComplete(peer) =>
      SearchSubscribes(cfg, s, peer);
      hide OnSearchComplete, Reachable;
    case AuthComplete(addr, success, reason, peer) =>
      AuthOutput(cfg, s, addr, success, reason, peer);
      AttemptSubscribes(cfg, peer);
      hide OnAuth, IsPump, AttemptOutput, Attempt, Reachable;
    case GattDisconnect(reason) =>
      DisconnectOutput(s, reason);
      hide OnDisconnect, Reachable;
    case _ =>
      OthersDoNotSubscribe(cfg, s, e, TriedOn(e));
      hide Step;
  }

  /** In every run the subscription is tried exactly when a search finds everything and
  encryption is not being negotiated, or the pump's bond comes to one that waits for it;
  and the pump is then written to, and the component told, exactly if the stack registers
  it. A search that finds everything too early makes it wait. */
  lemma SubscribesExactly(cfg: Config, es: seq<Event>, e: Event)
    ensures var log, n := Log(cfg, START, es), Step(cfg, Run(cfg, START, es), e);
            && Subscribes(cfg, n.out, IsTheTime(cfg, log, e), TriedOn(e))
            && (e.SearchComplete? && Reachable(cfg, e.peer) && Negotiating(cfg, log) ==> n.state.deferred)
  {
    hide Step, Log, Run, Negotiating, Waiting, Settles, Subscribes, IsPump;
    var s := Run(cfg, START, es);
    LogFollows(cfg, es);
    WaitingIsDeferred(cfg, es);
    StepSubscribes(cfg, s, e);
    StepDefers(cfg, s, e);
    SearchSettlesNothing(cfg, e);
  }

  lemma SearchSettlesNothing(cfg: Config, e: Event)
    ensures e.SearchComplete? ==> !Settles(cfg, e)
  {}

  // ---------------------------------------------------------------------------
  // Everything else that is asked for or told
  // ---------------------------------------------------------------------------

  predicate Admitted(e: Event) {
    Opens(e) && !e.refused
  }

  // The link is to be ended from this side.
  predicate HangsUp(cfg: Config, negotiating: bool, e: Event) {
    (Opens(e) && e.refused) || (IsPumpAuth(cfg, e) && !e.success && negotiating) ||
    ((e.SuspendLink? || e.ForceDisconnect?) && cfg.client.Some?)
  }

  // The service is missing, and the link has not had all its retries.
  predicate SearchesAgain(cfg: Config, retries: nat, e: Event) {
    e.SearchComplete? && cfg.client.Some? && !e.peer.service && retries < 3
  }

  ghost predicate Asks(cfg: Config, e: Event, negotiating: bool, retries: nat, sequence: nat, out: seq<Effect>) {
    && (DisconnectLink in out <==> HangsUp(cfg, negotiating, e))
    && (forall accepted :: EncryptionRequested(accepted) in out <==>
          Admitted(e) && cfg.pairingEnabled && e.bonded && e.accepted == accepted)
    && (forall addr, accept :: SecurityReply(addr, accept) in out <==>
          e == SecurityReq(addr) && IsPump(cfg, addr) && cfg.pairingEnabled && accept)
    && (forall addr, accept :: ConfirmReply(addr, accept) in out <==>
          e == NumericComparison(addr) && IsPump(cfg, addr) && accept == cfg.pairingEnabled)
    && ((exists n :: Schedule(POST_CONNECT, n) in out) <==> Admitted(e))
    && ((exists n :: Schedule(DISCOVERY_RETRY, n) in out) <==> SearchesAgain(cfg, retries, e))
    && (SearchService in out <==> e.Timer? && e.kind.DISCOVERY_RETRY? && e.seqNo == sequence)
  }

  predicate Tells(cfg: Config, e: Event, out: seq<Effect>) {
    && (ConnectionCallback in out <==> Opens(e))
    && (DisconnectionCallback in out <==> e.GattDisconnect?)
    && (NotificationCallback in out <==> e.Notify? && e.length > 0)
    && (ServiceFoundCallback in out <==> e.SearchComplete? && cfg.client.Some? && e.peer.service)
  }

  lemma OpenDoes(cfg: Config, s: State, bonded: bool, refused: bool, accepted: bool)
    ensures var n := OnOpened(cfg, s, bonded, refused, accepted);
            n.out == if refused then [ConnectionCallback, DisconnectLink]
                     else if cfg.pairingEnabled && bonded
                     then [ConnectionCallback, EncryptionRequested(accepted), Schedule(POST_CONNECT, n.state.sequence)]
                     else [ConnectionCallback, Schedule(POST_CONNECT, n.state.sequence)]
  {
    hide ReleaseStall, Stalls.Step;
  }

  // What those effects amount to.
  lemma AdmittedAsks(cfg: Config, e: Event, s: State, seqNo: uint32, out: seq<Effect>)
    requires Admitted(e)
    requires out == if cfg.pairingEnabled && e.bonded
                    then [ConnectionCallback, EncryptionRequested(e.accepted), Schedule(POST_CONNECT, seqNo)]
                    else [ConnectionCallback, Schedule(POST_CONNECT, seqNo)]
    ensures Asks(cfg, e, s.pending, s.retries, s.sequence, out) && Tells(cfg, e, out)
  {
    hide IsPump;
    assert Schedule(POST_CONNECT, seqNo) in out;
  }

  lemma UnadmittedAsks(cfg: Config, e: Event, s: State, out: seq<Effect>)
    requires e.GattOpen? && !Admitted(e) && out == if Opens(e) then [ConnectionCallback, DisconnectLink] else []
    ensures Asks(cfg, e, s.pending, s.retries, s.sequence, out) && Tells(cfg, e, out)
  {
    hide IsPump;
  }

  lemma OpenAsks(cfg: Config, s: State, e: Event)
    requires e.GattOpen?
    ensures var out := Step(cfg, s, e).out;
            Asks(cfg, e, s.pending, s.retries, s.sequence, out) && Tells(cfg, e, out)
  {
    hide OnOpened, Asks, Tells;
    OpenDoes(cfg, s, e.bonded, e.refused, e.accepted);
    var n := Step(cfg, s, e);
    if Admitted(e) {
      AdmittedAsks(cfg, e, s, n.state.sequence, n.out);
    } else {
      UnadmittedAsks(cfg, e, s, n.out);
    }
  }

  lemma SearchDoes(cfg: Config, s: State, peer: Peer)
    ensures var n := OnSearchComplete(cfg, s, peer);
            n.out == if cfg.client.None? then []
                     else if !peer.service
                     then (if s.retries < 3 then [Schedule(DISCOVERY_RETRY, n.state.sequence)] else [])
                     else if !peer.characteristic || s.pending then [ServiceFoundCallback]
                     else [ServiceFoundCallback] + AttemptOutput(Attempt(cfg, peer))
  {
    hide Note, ReportSubscribe, AttemptOutput, Attempt;
  }

  lemma SearchAsks(cfg: Config, s: State, peer: Peer)
    ensures var e, out := SearchComplete(peer), OnSearchComplete(cfg, s, peer).out;
            Asks(cfg, e, s.pending, s.retries, s.sequence, out) && Tells(cfg, e, out)
  {
    SearchDoes(cfg, s, peer);
    AttemptAsksNothing(Attempt(cfg, peer));
    hide OnSearchComplete, IsPump, AttemptOutput, Attempt;
    var n := OnSearchComplete(cfg, s, peer);
    if SearchesAgain(cfg, s.retries, SearchComplete(peer)) {
      assert Schedule(DISCOVERY_RETRY, n.state.sequence) in n.out;
    }
  }

  lemma AuthDoes(cfg: Config, s: State, addr: Address, success: bool, reason: byte, peer: Peer)
    ensures OnAuth(cfg, s, addr, success, reason, peer).out ==
            if !IsPump(cfg, addr) then []
            else if success then (if s.deferred then AttemptOutput(Attempt(cfg, peer)) else [])
            else if s.pending then [DisconnectLink] else []
  {
    hide Note, ReleaseStall, ReportSubscribe, AuthText, Stalls.Step, IsPump, AttemptOutput, Attempt;
  }

  lemma AttemptAsksNothing(o: Outcome)
    ensures forall x :: x in AttemptOutput(o) ==>
              x.SubscribeAttempt? || x.RegisterForNotify? || x.NotifyWrite? || x.SubscribedCallback?
  {}

  lemma AuthAsks(cfg: Config, s: State, addr: Address, success: bool, reason: byte, peer: Peer)
    ensures var e, out := AuthComplete(addr, success, reason, peer), OnAuth(cfg, s, addr, success, reason, peer).out;
            Asks(cfg, e, s.pending, s.retries, s.sequence, out) && Tells(cfg, e, out)
  {
    AuthDoes(cfg, s, addr, success, reason, peer);
    AttemptAsksNothing(Attempt(cfg, peer));
    hide OnAuth, IsPump, AttemptOutput, Attempt;
  }

  lemma DisconnectAsks(cfg: Config, s: State, reason: uint16)
    ensures var out := OnDisconnect(s, reason).out;
            Asks(cfg, GattDisconnect(reason), s.pending, s.retries, s.sequence, out) &&
            Tells(cfg, GattDisconnect(reason), out)
  {
    DisconnectOutput(s, reason);
    hide OnDisconnect, IsPump;
  }

  lemma OthersAsk(cfg: Config, s: State, e: Event)
    requires !e.GattOpen? && !e.SearchComplete? && !e.AuthComplete? && !e.GattDisconnect?
    ensures var out := Step(cfg, s, e).out; Asks(cfg, e, s.pending, s.retries, s.sequence, out) && Tells(cfg, e, out)
  {
    hide Note, ReleaseStall, Stalls.Step, IsPump;
  }

  /** In every run: the link is ended exactly when an open is refused, the pump's
  authentication fails while encryption is negotiated, or the component asks; encryption is
  requested exactly on a bonded open with pairing enabled; the pump's requests are
  answered, and no other's, and accepted exactly with pairing enabled; a timer is set on
  every admitted open, and on each search that misses the service until the link has had
  three, and searches again exactly if it is a retry and the sequence stands where it did;
  and the component is told of each link, discovery and notification. */
  lemma AsksExactly(cfg: Config, es: seq<Event>, e: Event)
    ensures var log, out := Log(cfg, START, es), Step(cfg, Run(cfg, START, es), e).out;
            Asks(cfg, e, Negotiating(cfg, log), RetriesOnLink(log), Moved(log) % 0x1_0000_0000, out) &&
            Tells(cfg, e, out)
  {
    hide Log, Run, Negotiating, RetriesOnLink, Moved, Asks, Tells;
    var s := Run(cfg, START, es);
    LogFollows(cfg, es);
    RetriesAreCounted(cfg, es);
    SequenceCounts(cfg, es);
    match e
    case GattOpen(_, _, _, _) =>
      OpenAsks(cfg, s, e);
      hide Step;
    case SearchComplete(peer) =>
      SearchAsks(cfg, s, peer);
      hide OnSearchComplete;
    case AuthComplete(addr, success, reason, peer) =>
      AuthAsks(cfg, s, addr, success, reason, peer);
      hide OnAuth;
    case GattDisconnect(reason) =>
      DisconnectAsks(cfg, s, reason);
      hide OnDisconnect;
    case _ =>
      OthersAsk(cfg, s, e);
      hide Step;
  }

  /** A stall is reported exactly when the trace of the detector says one is due. */
  lemma StallReportedWhenDue(cfg: Config, es: seq<Event>, e: Event)
    ensures StallReport in Step(cfg, Run(cfg, START, es), e).out <==>
            e.GattDisconnect? &&
            var trace := ToldIn(cfg, es);
            var refused := trace + [Stalls.Disconnect(e.reason)];
            Stalls.Refusal(refused, |trace|) && Stalls.Due(Stalls.Phase(trace), Stalls.Streak(refused))
  {
    hide Run, Stalls.Run, Stalls.Refusal, Stalls.Due, Stalls.Phase, Stalls.Streak, Stalls.Reports;
    StallIsItsTrace(cfg, es);
    StepReports(cfg, Run(cfg, START, es), e);
    if e.GattDisconnect? {
      Stalls.ReportsAreDue(ToldIn(cfg, es), Stalls.Disconnect(e.reason));
    }
    hide Step;
  }

  lemma StepReports(cfg: Config, s: State, e: Event)
    ensures StallReport in Step(cfg, s, e).out <==>
            e.GattDisconnect? && Stalls.Reports(s.stall, Stalls.Disconnect(e.reason))
  {
    hide Note, ReleaseStall, ReportSubscribe, Stalls.Step, Stalls.Reports, IsPump, DisconnectText, AuthText;
  }

  // ---------------------------------------------------------------------------
  // What is shown
  // ---------------------------------------------------------------------------

  datatype Fault = Fault(text: string, rank: Hold)

  // How a subscription fails on a peer that was reached.
  function SubscribeFault(cfg: Config, peer: Peer): Option<Fault> {
    if cfg.client.None? then Some(Fault(OutcomeText(NO_CLIENT), SUBSCRIBE))
    else if !peer.service then Some(Fault(OutcomeText(NO_SERVICE), SUBSCRIBE))
    else if !peer.characteristic then Some(Fault(OutcomeText(NO_CHARACTERISTIC), SUBSCRIBE))
    else if !peer.registers then Some(Fault(OutcomeText(REGISTER_FAILED), SUBSCRIBE))
    else if !peer.writes then Some(Fault(OutcomeText(CCCD_WRITE_FAILED), NONE))
    else None
  }

  // The failure that an event other than a disconnect is, given where the link stands.
  function FaultWhen(cfg: Config, e: Event, negotiating: bool, retries: nat, waiting: bool): Option<Fault> {
    match e
    case SearchComplete(peer) =>
      if SearchesAgain(cfg, retries, e) || (Reachable(cfg, peer) && negotiating) then None
      else SubscribeFault(cfg, peer)
    case AuthComplete(addr, success, reason, peer) =>
      if !IsPump(cfg, addr) then None
      else if !success then Some(Fault(AuthText(reason), AUTH))
      else if waiting then SubscribeFault(cfg, peer)
      else None
    case NoteFailure(text, rank) => Some(Fault(text, rank))
    case ForceDisconnect(text, rank) => Some(Fault(text, rank))
    case _ => None
  }

  /** ... and given the log. */
  function FaultOf(cfg: Config, log: seq<Entry>, e: Event): Option<Fault> {
    FaultWhen(cfg, e, Negotiating(cfg, log), RetriesOnLink(log), Waiting(cfg, log))
  }

  // The pump's bond has already let go of what it refutes.
  function HeldAgainst(cfg: Config, s: State, e: Event): Hold {
    if IsPumpAuth(cfg, e) && e.success && (s.hold.PAIRING_STALL? || s.hold.AUTH?) then NONE else s.hold
  }

  predicate Shows(t: State, f: Fault) {
    t.text == f.text && t.hold == f.rank
  }

  lemma AttemptShows(s: State, cfg: Config, peer: Peer)
    ensures var t, f := ReportSubscribe(s, Attempt(cfg, peer)), SubscribeFault(cfg, peer);
            if f.Some? && Rank(s.hold) <= Rank(f.value.rank) then Shows(t, f.value) && SameLink(s, t)
            else t == s
  {
    hide OutcomeText;
  }

  // What a state shows once a failure has come, if one has.
  predicate Showing(held: Hold, s: State, f: Option<Fault>, t: State) {
    if f.Some? && Rank(held) <= Rank(f.value.rank) then Shows(t, f.value)
    else t.text == s.text && t.hold == held
  }

  lemma SearchShows(cfg: Config, s: State, peer: Peer)
    ensures var e := SearchComplete(peer);
            Showing(s.hold, s, FaultWhen(cfg, e, s.pending, s.retries, s.deferred),
                    OnSearchComplete(cfg, s, peer).state)
  {
    hide OutcomeText;
    AttemptShows(s, cfg, peer);
  }

  lemma BondShows(cfg: Config, s: State, peer: Peer)
    ensures var t := OnAuthSuccess(cfg, s, peer).state;
            var held := if s.hold.PAIRING_STALL? || s.hold.AUTH? then NONE else s.hold;
            Showing(held, s, if s.deferred then SubscribeFault(cfg, peer) else None, t)
  {
    hide OutcomeText, Stalls.Step, SubscribeFault, Attempt;
    var done := s.(pending := false);
    var unheld := if ReleasedByAuth(done.hold) then done.(hold := NONE) else done;
    var bonded := ReleaseStall(Tell(unheld, Stalls.BondEstablished));
    AttemptShows(bonded.(deferred := false), cfg, peer);
    hide ReportSubscribe;
  }

  lemma StepShows(cfg: Config, s: State, e: Event)
    requires e.SearchComplete? || e.AuthComplete? || e.NoteFailure? || e.ForceDisconnect?
    ensures Showing(HeldAgainst(cfg, s, e), s, FaultWhen(cfg, e, s.pending, s.retries, s.deferred),
                    Step(cfg, s, e).state)
  {
    hide OutcomeText, AuthText, Stalls.Step, IsPump, SubscribeFault;
    match e
    case SearchComplete(peer) =>
      SearchShows(cfg, s, peer);
      hide OnSearchComplete;
    case AuthComplete(_, success, _, peer) =>
      BondShows(cfg, s, peer);
      hide OnAuthSuccess;
    case _ =>
  }

  /** In every run, a failure that the event is goes on show at its own rank exactly when
  nothing of a higher rank is held; otherwise what was held stays, word for word. */
  lemma FailuresAreShown(cfg: Config, es: seq<Event>, e: Event)
    requires e.SearchComplete? || e.AuthComplete? || e.NoteFailure? || e.ForceDisconnect?
    ensures var s := Run(cfg, START, es);
            Showing(HeldAgainst(cfg, s, e), s, FaultOf(cfg, Log(cfg, START, es), e), Step(cfg, s, e).state)
  {
    hide Log, Run, Negotiating, RetriesOnLink, Waiting, Showing, FaultWhen, HeldAgainst, Step;
    LogFollows(cfg, es);
    RetriesAreCounted(cfg, es);
    WaitingIsDeferred(cfg, es);
    StepShows(cfg, Run(cfg, START, es), e);
  }

  lemma DisconnectShows(s: State, reason: uint16, stalled: bool)
    requires stalled == Stalls.Stalled(Stalls.Step(s.stall, Stalls.Disconnect(reason)))
    ensures var t := OnDisconnect(s, reason).state;
            && t.lastReason == reason
            && if stalled && !s.hold.SUBSCRIBE? && !s.hold.AUTH? then Shows(t, Fault(STALL_TEXT, PAIRING_STALL))
               else if s.hold.NONE? then Shows(t, Fault(DisconnectText(reason), NONE))
               else t.text == s.text && t.hold == s.hold
  {
    hide DisconnectText, Stalls.Step, Stalls.Reports;
  }

  /** In every run, a disconnect after three refusals in a row shows the stall unless a
  graver reason is held; and otherwise shows its own reason, unless one is held. */
  lemma DisconnectIsShown(cfg: Config, es: seq<Event>, reason: uint16)
    ensures var s, t := Run(cfg, START, es), Step(cfg, Run(cfg, START, es), GattDisconnect(reason)).state;
            var stalled := Stalls.Streak(ToldIn(cfg, es) + [Stalls.Disconnect(reason)]) >= 3;
            && t.lastReason == reason
            && if stalled && !s.hold.SUBSCRIBE? && !s.hold.AUTH? then Shows(t, Fault(STALL_TEXT, PAIRING_STALL))
               else if s.hold.NONE? then Shows(t, Fault(DisconnectText(reason), NONE))
               else t.text == s.text && t.hold == s.hold
  {
    hide Run, DisconnectText, Stalls.Run, Stalls.Step, Stalls.Streak, OnDisconnect;
    var s, trace := Run(cfg, START, es), ToldIn(cfg, es);
    StallIsItsTrace(cfg, es);
    Stalls.RunStep(trace, Stalls.Disconnect(reason));
    Stalls.StalledMeansThreeRefusals(trace + [Stalls.Disconnect(reason)]);
    DisconnectShows(s, reason, Stalls.Stalled(Stalls.Step(s.stall, Stalls.Disconnect(reason))));
  }

  /** A disconnect that this node asked for leaves nothing on show once the component has
  it forgotten, and any other stays on show. */
  lemma OwnTeardownIsForgotten(cfg: Config, s: State, reason: uint16)
    requires s.hold.NONE? && !Stalls.Stalled(Stalls.Step(s.stall, Stalls.Disconnect(reason)))
    ensures var t := Step(cfg, Step(cfg, s, GattDisconnect(reason)).state, ClearLocalTeardown).state;
            t.text == (if reason == 0x16 then "" else DisconnectText(reason)) && t.hold.NONE?
  {
    DisconnectShows(s, reason, false);
    NamesItsReason(reason);
    hide OnDisconnect, DisconnectText, Stalls.Step, IsLocalTeardown;
  }

  lemma NamesItsReason(reason: uint16)
    ensures IsLocalTeardown(DisconnectText(reason)) <==> reason == 0x16
  {
    hide LowerHex;
    var name, text := DisconnectName(reason), DisconnectText(reason);
    assert LOCAL_TEXT[0] == 'L' && LOCAL_TEXT[1] == 'o';
    assert text[0] == name[0] && text[1] == name[1];
    if reason == 0x16 {
      assert text[..|LOCAL_TEXT|] == LOCAL_TEXT;
    }
  }

  // ---------------------------------------------------------------------------
  // What is let go
  // ---------------------------------------------------------------------------

  // The event refutes what is held.
  predicate Refutes(cfg: Config, s: State, e: Event) {
    match s.hold
    case NONE => false
    case READY => e.PumpReady?
    case DATA => e.Notify? && e.length > 0
    case PAIRING_STALL =>
      (e.Notify? && e.length > 0) || (IsPumpAuth(cfg, e) && e.success) || e.SessionReady? ||
      (e.SecurityReq? && IsPump(cfg, e.addr)) || (Opens(e) && (e.bonded || !Stalls.Stalled(s.stall)))
    case SUBSCRIBE => e.Notify? && e.length > 0
    case AUTH => (IsPumpAuth(cfg, e) && e.success) || e.SessionReady?
  }

  lemma RefutingReleases(cfg: Config, s: State, e: Event)
    ensures Refutes(cfg, s, e) <==> Releases(cfg, s, e)
  {
    hide IsPump;
  }

  /** What is held is let go by exactly the events that refute it, rank by rank: data refutes
  a silence, a stall and a failed subscription, but not an authentication failure; a bond
  or a ready session refutes a stall and an authentication failure; a usable pump refutes
  that it is not ready, and nothing else does. */
  lemma LetGoExactlyWhenRefuted(cfg: Config, s: State, e: Event)
    requires Good(s) && s.hold != NONE && Possible(cfg, e) && Says(e)
    ensures var t := Step(cfg, s, e).state;
            if Refutes(cfg, s, e) then t.hold.NONE? || (t.hold.SUBSCRIBE? && e.AuthComplete? && s.deferred)
            else !t.hold.NONE?
  {
    hide Step, Good, Refutes, Releases;
    RefutingReleases(cfg, s, e);
    if Releases(cfg, s, e) {
      ReleaseClearsText(cfg, s, e);
    } else {
      HoldGivesWay(cfg, s, e);
    }
  }

  const WELL := Peer(true, true, true, true)

  // A link on which everything goes well: bond, discovery, session, data, caches.
  function HealthyLink(pump: Address, bonded: bool, reason: byte): seq<Event> {
    [GattOpen(GATT_OK, bonded, false, true), AuthComplete(pump, true, reason, WELL), SearchComplete(WELL),
     SessionReady, Notify(1), PumpReady]
  }

  lemma BondedHold(cfg: Config, s: State, reason: byte)
    requires cfg.client.Some? && cfg.client.value != UNSET && !s.deferred
    ensures var t := Step(cfg, s, AuthComplete(cfg.client.value, true, reason, WELL)).state;
            t.hold == (if s.hold.PAIRING_STALL? || s.hold.AUTH? then NONE else s.hold) && !t.pending
  {
    BondShows(cfg, s, WELL);
    AuthOutput(cfg, s, cfg.client.value, true, reason, WELL);
    hide OnAuthSuccess, SubscribeFault;
  }

  lemma FoundHold(cfg: Config, s: State)
    requires cfg.client.Some? && !s.pending
    ensures Step(cfg, s, SearchComplete(WELL)).state.hold == s.hold
  {
    SearchShows(cfg, s, WELL);
    hide OnSearchComplete;
  }

  lemma SpokenHold(cfg: Config, s: State)
    requires !s.hold.PAIRING_STALL? && !s.hold.AUTH?
    ensures Step(cfg, s, SessionReady).state == s
    ensures var t := Step(cfg, s, Notify(1)).state; t.hold.NONE? || (t.hold.READY? && s.hold.READY?)
    ensures s.hold.NONE? || s.hold.READY? ==> Step(cfg, s, PumpReady).state.hold.NONE?
  {
    hide Stalls.Step;
  }

  /** Nothing is held for ever: from any state whatever, one link on which everything goes
  well lets go of every reason. */
  lemma HealthyLinkLetsGo(cfg: Config, s: State, bonded: bool, reason: byte)
    requires cfg.client.Some? && cfg.client.value != UNSET
    ensures Run(cfg, s, HealthyLink(cfg.client.value, bonded, reason)).hold == NONE
  {
    var es := HealthyLink(cfg.client.value, bonded, reason);
    var s1 := Step(cfg, s, es[0]).state;
    var s2 := Step(cfg, s1, es[1]).state;
    var s3 := Step(cfg, s2, es[2]).state;
    OpenClears(cfg, s, bonded, false, true);
    assert !s1.deferred;
    hide Step;
    BondedHold(cfg, s1, reason);
    FoundHold(cfg, s2);
    SpokenHold(cfg, s3);
    SpokenHold(cfg, Step(cfg, s3, SessionReady).state);
    SpokenHold(cfg, Step(cfg, s3, Notify(1)).state);
    RunSix(cfg, s, es);
  }

  lemma RunSix(cfg: Config, s: State, es: seq<Event>)
    requires |es| == 6
    ensures var t := Step(cfg, Step(cfg, Step(cfg, s, es[0]).state, es[1]).state, es[2]).state;
            Run(cfg, s, es) ==
            Step(cfg, Step(cfg, Step(cfg, t, es[3]).state, es[4]).state, es[5]).state
  {
    hide Step;
    assert es[..1] == [] + [es[0]] && es[..2] == es[..1] + [es[1]] && es[..3] == es[..2] + [es[2]];
    assert es[..4] == es[..3] + [es[3]] && es[..5] == es[..4] + [es[4]] && es == es[..5] + [es[5]];
    RunSnoc(cfg, s, [], es[0]);
    RunSnoc(cfg, s, es[..1], es[1]);
    RunSnoc(cfg, s, es[..2], es[2]);
    RunSnoc(cfg, s, es[..3], es[3]);
    RunSnoc(cfg, s, es[..4], es[4]);
    RunSnoc(cfg, s, es[..5], es[5]);
  }
}
