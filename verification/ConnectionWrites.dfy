/** When the connection manager writes to the pump, and when its timers act: what the
log of a run shows, with the events and the effects in the order they came.
*/
module ConnectionWrites {
  import opened FailureHold
  import opened GapSecurity
  import opened Numbers
  import opened ConnectionManager
  import opened ConnectionRuns
  import Stalls = PairingStall

  datatype Entry = Heard(event: Event) | Did(effect: Effect)

  function Dids(out: seq<Effect>): (log: seq<Entry>)
    ensures |log| == |out| && forall i :: 0 <= i < |out| ==> log[i] == Did(out[i])
  {
    if out == [] then [] else Dids(out[..|out| - 1]) + [Did(out[|out| - 1])]
  }

  // What one event adds to the log.
  function Adds(cfg: Config, s: State, e: Event): seq<Entry> {
    [Heard(e)] + Dids(Step(cfg, s, e).out)
  }

  function Log(cfg: Config, s: State, es: seq<Event>): seq<Entry> {
    if es == [] then []
    else
      var init, e := es[..|es| - 1], es[|es| - 1];
      Log(cfg, s, init) + Adds(cfg, Run(cfg, s, init), e)
  }

  // ---------------------------------------------------------------------------
  // Encryption, read off the log
  // ---------------------------------------------------------------------------

  predicate Opens(e: Event) {
    e.GattOpen? && !e.status.OPEN_FAILED?
  }

  // A link that opened, a link that closed, or the pump's authentication result.
  predicate Settles(cfg: Config, e: Event) {
    Opens(e) || e.GattDisconnect? || IsPumpAuth(cfg, e)
  }

  /** Encryption was requested, the stack took the request, and nothing has settled it. */
  predicate Negotiating(cfg: Config, log: seq<Entry>) {
    if log == [] then false
    else
      match log[|log| - 1]
      case Did(EncryptionRequested(accepted)) => accepted
      case Heard(e) => !Settles(cfg, e) && Negotiating(cfg, log[..|log| - 1])
      case Did(_) => Negotiating(cfg, log[..|log| - 1])
  }

  predicate Quiet(log: seq<Entry>) {
    forall i :: 0 <= i < |log| ==> log[i].Did? && !log[i].effect.EncryptionRequested?
  }

  lemma {:induction false} QuietKeeps(cfg: Config, log: seq<Entry>, more: seq<Entry>)
    requires Quiet(more)
    ensures Negotiating(cfg, log + more) == Negotiating(cfg, log)
  {
    if more == [] {
      assert log + more == log;
    } else {
      var init := more[..|more| - 1];
      assert (log + more)[..|log + more| - 1] == log + init;
      QuietKeeps(cfg, log, init);
    }
  }

  lemma Hearing(cfg: Config, log: seq<Entry>, e: Event)
    ensures Negotiating(cfg, log + [Heard(e)]) == (Negotiating(cfg, log) && !Settles(cfg, e))
  {
    assert (log + [Heard(e)])[..|log|] == log;
  }

  // Nothing in the log writes to the pump while encryption is being negotiated.
  predicate Safe(cfg: Config, log: seq<Entry>) {
    forall j :: 0 <= j < |log| && log[j] == Did(NotifyWrite) ==> !Negotiating(cfg, log[..j])
  }

  lemma SafeConcat(cfg: Config, log: seq<Entry>, more: seq<Entry>)
    requires Safe(cfg, log)
    requires forall k :: 0 <= k < |more| && more[k] == Did(NotifyWrite) ==> !Negotiating(cfg, log + more[..k])
    ensures Safe(cfg, log + more)
  {
    forall j | 0 <= j < |log + more| && (log + more)[j] == Did(NotifyWrite)
      ensures !Negotiating(cfg, (log + more)[..j])
    {
      if j < |log| {
        assert (log + more)[..j] == log[..j];
      } else {
        assert (log + more)[..j] == log + more[..j - |log|];
      }
    }
  }

  // Which effects each handler can have, and what it leaves pending or deferred.
  lemma SearchOutput(cfg: Config, s: State, peer: Peer)
    ensures forall k :: 0 <= k < |OnSearchComplete(cfg, s, peer).out| ==>
                          !OnSearchComplete(cfg, s, peer).out[k].EncryptionRequested?
    ensures s.pending ==> NotifyWrite !in OnSearchComplete(cfg, s, peer).out
    ensures s.pending ==> SubscribeAttempt !in OnSearchComplete(cfg, s, peer).out
    ensures OnSearchComplete(cfg, s, peer).state.pending == s.pending
    ensures OnSearchComplete(cfg, s, peer).state.deferred ==> s.deferred || s.pending
    ensures s.deferred ==> OnSearchComplete(cfg, s, peer).state.deferred
  {
    hide Note, ReportSubscribe, OutcomeText;
  }

  lemma AuthOutput(cfg: Config, s: State, addr: Address, success: bool, reason: byte, peer: Peer)
    ensures var n := OnAuth(cfg, s, addr, success, reason, peer);
            if IsPump(cfg, addr) && success && s.deferred
            then n.out == AttemptOutput(Attempt(cfg, peer)) && !n.state.pending && !n.state.deferred
            else (n.out == [] || n.out == [DisconnectLink]) &&
                 if IsPump(cfg, addr) then !n.state.pending && !n.state.deferred
                 else n.state.pending == s.pending && n.state.deferred == s.deferred
  {
    hide Note, ReleaseStall, ReportSubscribe, AuthText, Stalls.Step, IsPump, AttemptOutput;
  }

  lemma DisconnectOutput(s: State, reason: uint16)
    ensures var n := OnDisconnect(s, reason);
            (n.out == [DisconnectionCallback] || n.out == [StallReport, DisconnectionCallback]) &&
            !n.state.pending && !n.state.deferred
  {
    hide Note, DisconnectText, Stalls.Step, Stalls.Reports;
  }

  predicate IsPlain(e: Event) {
    !e.GattOpen? && !e.SearchComplete? && !e.AuthComplete? && !e.GattDisconnect?
  }

  lemma PlainOutput(cfg: Config, s: State, e: Event)
    requires IsPlain(e)
    ensures var n := Step(cfg, s, e);
            && (forall k :: 0 <= k < |n.out| ==> !n.out[k].EncryptionRequested?)
            && NotifyWrite !in n.out && SubscribeAttempt !in n.out
            && n.state.pending == s.pending && n.state.deferred == s.deferred
  {
    hide Note, ReleaseStall, Stalls.Step, IsPump;
  }

  // Only an open asks for encryption, and a write comes only where nothing is pending.
  lemma StepOutput(cfg: Config, s: State, e: Event)
    requires !Opens(e)
    ensures var n := Step(cfg, s, e);
            && (forall k :: 0 <= k < |n.out| ==> !n.out[k].EncryptionRequested?)
            && (NotifyWrite in n.out ==> Settles(cfg, e) || !s.pending)
            && n.state.pending == (s.pending && !Settles(cfg, e))
  {
    hide OnSearchComplete, OnAuth, OnDisconnect, IsPump;
    match e
    case SearchComplete(peer) => SearchOutput(cfg, s, peer);
    case AuthComplete(addr, success, reason, peer) => AuthOutput(cfg, s, addr, success, reason, peer);
    case GattDisconnect(reason) => DisconnectOutput(s, reason);
    case GattOpen(_, _, _, _) =>
    case _ =>
      PlainOutput(cfg, s, e);
      hide Step;
  }

  lemma OpenOutput(cfg: Config, s: State, e: Event)
    requires Opens(e)
    ensures var n := Step(cfg, s, e);
            || (n.out == [ConnectionCallback, DisconnectLink] && !n.state.pending)
            || (n.out == [ConnectionCallback, Schedule(POST_CONNECT, n.state.sequence)] && !n.state.pending)
            || n.out == [ConnectionCallback, EncryptionRequested(n.state.pending),
                         Schedule(POST_CONNECT, n.state.sequence)]
  {
    hide ReleaseStall, Stalls.Step;
  }

  lemma AddsQuietly(cfg: Config, log: seq<Entry>, s: State, e: Event)
    requires Negotiating(cfg, log) == s.pending
    requires !Opens(e)
    ensures Negotiating(cfg, log + Adds(cfg, s, e)) == Step(cfg, s, e).state.pending
    ensures forall k :: 0 <= k < |Adds(cfg, s, e)| && Adds(cfg, s, e)[k] == Did(NotifyWrite) ==>
                          !Negotiating(cfg, log + Adds(cfg, s, e)[..k])
  {
    StepOutput(cfg, s, e);
    hide Step, Negotiating;
    Hearing(cfg, log, e);
    HeardQuietly(cfg, log, e, Step(cfg, s, e).out);
  }

  lemma HeardQuietly(cfg: Config, log: seq<Entry>, e: Event, out: seq<Effect>)
    requires forall k :: 0 <= k < |out| ==> !out[k].EncryptionRequested?
    requires NotifyWrite in out ==> !Negotiating(cfg, log + [Heard(e)])
    ensures Negotiating(cfg, log + ([Heard(e)] + Dids(out))) == Negotiating(cfg, log + [Heard(e)])
    ensures var adds := [Heard(e)] + Dids(out);
            forall k :: 0 <= k < |adds| && adds[k] == Did(NotifyWrite) ==> !Negotiating(cfg, log + adds[..k])
  {
    hide Negotiating;
    var heard, adds := log + [Heard(e)], [Heard(e)] + Dids(out);
    assert log + adds == heard + Dids(out);
    QuietKeeps(cfg, heard, Dids(out));
    forall k | 0 <= k < |adds| && adds[k] == Did(NotifyWrite)
      ensures !Negotiating(cfg, log + adds[..k])
    {
      assert log + adds[..k] == heard + Dids(out)[..k - 1];
      assert out[k - 1] == NotifyWrite;
      QuietKeeps(cfg, heard, Dids(out)[..k - 1]);
    }
  }

  lemma AddsOpening(cfg: Config, log: seq<Entry>, s: State, e: Event)
    requires Opens(e)
    ensures Negotiating(cfg, log + Adds(cfg, s, e)) == Step(cfg, s, e).state.pending
    ensures Did(NotifyWrite) !in Adds(cfg, s, e)
  {
    OpenOutput(cfg, s, e);
    hide Step, Negotiating, Settles;
    Hearing(cfg, log, e);
    assert Settles(cfg, e) by {
      SettlesOnOpen(cfg, e);
    }
    var out := Step(cfg, s, e).out;
    if out[1].EncryptionRequested? {
      HeardRequest(cfg, log, e, out);
    } else {
      HeardQuietly(cfg, log, e, out);
    }
  }

  lemma SettlesOnOpen(cfg: Config, e: Event)
    requires Opens(e)
    ensures Settles(cfg, e)
  {}

  lemma HeardRequest(cfg: Config, log: seq<Entry>, e: Event, out: seq<Effect>)
    requires |out| == 3 && out[1].EncryptionRequested? && !out[2].EncryptionRequested?
    ensures Negotiating(cfg, log + ([Heard(e)] + Dids(out))) == out[1].accepted
  {
    hide Negotiating;
    var dids := Dids(out);
    var before := log + [Heard(e)] + [dids[0]];
    Requested(cfg, before, dids[1]);
    QuietKeeps(cfg, before + [dids[1]], [dids[2]]);
    assert dids == [dids[0], dids[1], dids[2]];
    assert log + ([Heard(e)] + dids) == before + [dids[1]] + [dids[2]];
  }

  lemma Requested(cfg: Config, log: seq<Entry>, entry: Entry)
    requires entry.Did? && entry.effect.EncryptionRequested?
    ensures Negotiating(cfg, log + [entry]) == entry.effect.accepted
  {}

  lemma {:induction false} LogFollows(cfg: Config, es: seq<Event>)
    ensures Negotiating(cfg, Log(cfg, START, es)) == Run(cfg, START, es).pending
    ensures Safe(cfg, Log(cfg, START, es))
  {
    if es != [] {
      hide Step, Negotiating, Adds, Safe, Settles;
      var init, e := es[..|es| - 1], es[|es| - 1];
      var s, log := Run(cfg, START, init), Log(cfg, START, init);
      LogFollows(cfg, init);
      if Opens(e) {
        AddsOpening(cfg, log, s, e);
      } else {
        AddsQuietly(cfg, log, s, e);
      }
      SafeConcat(cfg, log, Adds(cfg, s, e));
    } else {
      assert Safe(cfg, []);
    }
  }

  /** In no run is the notification-enable write issued between a request for encryption
  that the stack took and whatever settles it. */
  lemma NeverWritesWhileNegotiating(cfg: Config, es: seq<Event>, j: nat)
    requires j < |Log(cfg, START, es)| && Log(cfg, START, es)[j] == Did(NotifyWrite)
    ensures !Negotiating(cfg, Log(cfg, START, es)[..j])
  {
    LogFollows(cfg, es);
    hide Log, Negotiating;
  }

  // ---------------------------------------------------------------------------
  // The deferred subscription
  // ---------------------------------------------------------------------------

  function Attempts(out: seq<Effect>): nat {
    multiset(out)[SubscribeAttempt]
  }

  // The subscriptions tried from the pump's authentication result, over a run.
  function AttemptsOnAuth(cfg: Config, s: State, es: seq<Event>): nat {
    if es == [] then 0
    else
      var init, e := es[..|es| - 1], es[|es| - 1];
      AttemptsOnAuth(cfg, s, init) +
      if e.AuthComplete? then Attempts(Step(cfg, Run(cfg, s, init), e).out) else 0
  }

  lemma AttemptOnce(o: Outcome)
    ensures Attempts(AttemptOutput(o)) == 1
  {}

  lemma AttemptsOfAuth(cfg: Config, s: State, e: Event)
    requires e.AuthComplete?
    ensures Attempts(Step(cfg, s, e).out) == if s.deferred && IsPumpAuth(cfg, e) && e.success then 1 else 0
  {
    AuthOutput(cfg, s, e.addr, e.success, e.failReason, e.authPeer);
    AttemptOnce(Attempt(cfg, e.authPeer));
    hide OnAuth, AttemptOutput, Attempt, IsPump;
  }

  // What an event does to a subscription that is waiting, or to the chance of one.
  lemma DeferredStep(cfg: Config, s: State, e: Event)
    ensures var n := Step(cfg, s, e);
            && (s.pending && !IsPumpAuth(cfg, e) ==> SubscribeAttempt !in n.out)
            && (Settles(cfg, e) ==> !n.state.deferred)
            && (!Settles(cfg, e) && s.deferred ==> n.state.deferred)
            && (!Settles(cfg, e) && !s.pending && !s.deferred ==> !n.state.deferred)
            && (!Settles(cfg, e) ==> n.state.pending == s.pending)
            && (Settles(cfg, e) && !Opens(e) ==> !n.state.pending)
  {
    hide OnSearchComplete, OnAuth, OnDisconnect, OnOpened, IsPump, AttemptOutput, Attempt;
    match e
    case SearchComplete(peer) => SearchOutput(cfg, s, peer);
    case AuthComplete(addr, success, reason, peer) => AuthOutput(cfg, s, addr, success, reason, peer);
    case GattDisconnect(reason) => DisconnectOutput(s, reason);
    case GattOpen(_, bonded, refused, accepted) =>
      if Opens(e) {
        OpenOutput(cfg, s, e);
        OpenClears(cfg, s, bonded, refused, accepted);
      }
    case _ =>
      PlainOutput(cfg, s, e);
      hide Step;
  }

  lemma OpenClears(cfg: Config, s: State, bonded: bool, refused: bool, accepted: bool)
    ensures !OnOpened(cfg, s, bonded, refused, accepted).state.deferred
  {
    hide ReleaseStall, Stalls.Step;
  }

  predicate NothingSettles(cfg: Config, es: seq<Event>) {
    forall i :: 0 <= i < |es| ==> !Settles(cfg, es[i])
  }

  predicate NothingOpens(es: seq<Event>) {
    forall i :: 0 <= i < |es| ==> !Opens(es[i])
  }

  // While it waits, nothing is tried at all.
  lemma {:induction false} DeferralWaits(cfg: Config, s: State, es: seq<Event>)
    requires s.deferred && s.pending && NothingSettles(cfg, es)
    ensures var t := Run(cfg, s, es); t.deferred && t.pending
    ensures SubscribeAttempt !in Done(cfg, s, es) && AttemptsOnAuth(cfg, s, es) == 0
  {
    if es == [] {
    } else {
      hide Step;
      var init, e := es[..|es| - 1], es[|es| - 1];
      DeferralWaits(cfg, s, init);
      assert !Settles(cfg, e);
      DeferredStep(cfg, Run(cfg, s, init), e);
      if e.AuthComplete? {
        AttemptsOfAuth(cfg, Run(cfg, s, init), e);
      }
    }
  }

  // With nothing waiting and no link to open, no authentication sets one off.
  lemma {:induction false} NothingLeftToTry(cfg: Config, s: State, es: seq<Event>)
    requires !s.deferred && !s.pending && NothingOpens(es)
    ensures var t := Run(cfg, s, es); !t.deferred && !t.pending
    ensures AttemptsOnAuth(cfg, s, es) == 0
  {
    if es == [] {
    } else {
      hide Step, Settles;
      var init, e := es[..|es| - 1], es[|es| - 1];
      NothingLeftToTry(cfg, s, init);
      DeferredStep(cfg, Run(cfg, s, init), e);
      if e.AuthComplete? {
        AttemptsOfAuth(cfg, Run(cfg, s, init), e);
      }
    }
  }

  lemma {:induction false} AttemptsConcat(cfg: Config, s: State, es: seq<Event>, fs: seq<Event>)
    ensures AttemptsOnAuth(cfg, s, es + fs) == AttemptsOnAuth(cfg, s, es) + AttemptsOnAuth(cfg, Run(cfg, s, es), fs)
  {
    if fs == [] {
      assert es + fs == es;
    } else {
      hide Step, Run;
      var init, e := fs[..|fs| - 1], fs[|fs| - 1];
      assert es + fs == es + init + [e];
      assert (es + fs)[..|es + fs| - 1] == es + init;
      RunConcat(cfg, s, es, init);
      AttemptsConcat(cfg, s, es, init);
    }
  }

  /** A deferred subscription, whatever happens around it: nothing is tried until the
  pump's authentication settles it; a success tries it once, and never again before
  another link has opened; a failure, a disconnect or a new open cancels it. */
  lemma DeferredOnceOrCancelled(cfg: Config, s: State, before: seq<Event>, e: Event, after: seq<Event>)
    requires s.deferred && s.pending && NothingSettles(cfg, before) && NothingOpens(after) && Settles(cfg, e)
    ensures SubscribeAttempt !in Done(cfg, s, before)
    ensures !Opens(e) ==>
              AttemptsOnAuth(cfg, s, before + [e] + after) == if e.AuthComplete? && e.success then 1 else 0
    ensures !Run(cfg, s, before + [e]).deferred
  {
    hide Step, Run, AttemptsOnAuth, Settles;
    DeferralWaits(cfg, s, before);
    var t := Run(cfg, s, before);
    DeferredStep(cfg, t, e);
    RunSnoc(cfg, s, before, e);
    if !Opens(e) {
      NothingLeftToTry(cfg, Run(cfg, s, before + [e]), after);
      AttemptsConcat(cfg, s, before, [e]);
      AttemptsConcat(cfg, s, before + [e], after);
      AttemptsOnOne(cfg, t, e);
    }
  }

  lemma AttemptsOnOne(cfg: Config, s: State, e: Event)
    requires s.deferred && Settles(cfg, e)
    ensures AttemptsOnAuth(cfg, s, [e]) == if e.AuthComplete? && e.success then 1 else 0
  {
    hide Step;
    assert [e][..0] == [];
    if e.AuthComplete? {
      AttemptsOfAuth(cfg, s, e);
    }
  }

  // ---------------------------------------------------------------------------
  // Timers
  // ---------------------------------------------------------------------------

  /** The entries at which the scheduler sequence moves on. */
  predicate Moves(entry: Entry) {
    (entry.Did? && entry.effect.Schedule?) || (entry.Heard? && entry.event.GattDisconnect?)
  }

  function Moved(log: seq<Entry>): nat {
    if log == [] then 0 else Moved(log[..|log| - 1]) + if Moves(log[|log| - 1]) then 1 else 0
  }

  lemma MovedSnoc(log: seq<Entry>, entry: Entry)
    ensures Moved(log + [entry]) == Moved(log) + if Moves(entry) then 1 else 0
  {
    assert (log + [entry])[..|log|] == log;
  }

  lemma {:induction false} MovedConcat(log: seq<Entry>, more: seq<Entry>)
    ensures Moved(log + more) == Moved(log) + Moved(more)
  {
    if more == [] {
      assert log + more == log;
    } else {
      var init := more[..|more| - 1];
      assert (log + more)[..|log + more| - 1] == log + init;
      MovedConcat(log, init);
    }
  }

  function Wrapped(n: nat): uint32 {
    n % TWO_32
  }

  lemma BumpIsNext(n: nat)
    ensures Bump(Wrapped(n)) == Wrapped(n + 1)
  {}

  predicate Schedules(out: seq<Effect>) {
    exists k :: 0 <= k < |out| && out[k].Schedule?
  }

  // An event that schedules does it last, once, with the sequence it leaves.
  predicate SchedulesLast(n: Next) {
    |n.out| > 0 && n.out[|n.out| - 1].Schedule? && n.out[|n.out| - 1].seqNo == n.state.sequence &&
    !Schedules(n.out[..|n.out| - 1])
  }

  lemma SearchSchedules(cfg: Config, s: State, peer: Peer)
    ensures var n := OnSearchComplete(cfg, s, peer);
            if Schedules(n.out) then SchedulesLast(n) && n.state.sequence == Bump(s.sequence)
            else n.state.sequence == s.sequence
  {
    hide Note, ReportSubscribe, OutcomeText;
    var n := OnSearchComplete(cfg, s, peer);
    if cfg.client.Some? && !peer.service && s.retries < MAX_DISCOVERY_RETRIES {
      assert n.out[0].Schedule?;
    }
  }

  lemma OpenSchedules(cfg: Config, s: State, bonded: bool, refused: bool, accepted: bool)
    ensures var n := OnOpened(cfg, s, bonded, refused, accepted);
            if Schedules(n.out) then SchedulesLast(n) && n.state.sequence == Bump(s.sequence)
            else n.state.sequence == s.sequence
  {
    hide Stalls.Step;
    var n := OnOpened(cfg, s, bonded, refused, accepted);
    if !refused {
      assert n.out[|n.out| - 1].Schedule?;
    }
  }

  lemma PlainSchedules(cfg: Config, s: State, e: Event)
    requires !e.GattOpen? && !e.SearchComplete?
    ensures var n := Step(cfg, s, e);
            !Schedules(n.out) && n.state.sequence == if e.GattDisconnect? then Bump(s.sequence) else s.sequence
  {
    hide OnDisconnect, OnAuth, Note, ReleaseStall, Stalls.Step, IsPump;
    match e
    case GattDisconnect(reason) =>
      DisconnectOutput(s, reason);
      DisconnectMoves(s, reason);
    case AuthComplete(addr, success, reason, peer) =>
      AuthOutput(cfg, s, addr, success, reason, peer);
      AuthMoves(cfg, s, addr, success, reason, peer);
    case _ =>
  }

  lemma DisconnectMoves(s: State, reason: uint16)
    ensures OnDisconnect(s, reason).state.sequence == Bump(s.sequence)
  {
    hide Note, DisconnectText, Stalls.Step, Stalls.Reports;
  }

  lemma AuthMoves(cfg: Config, s: State, addr: Address, success: bool, reason: byte, peer: Peer)
    ensures OnAuth(cfg, s, addr, success, reason, peer).state.sequence == s.sequence
  {
    hide Note, ReleaseStall, Subscribe, AuthText, Stalls.Step, IsPump;
  }

  lemma StepSchedules(cfg: Config, s: State, e: Event)
    ensures var n := Step(cfg, s, e);
            if Schedules(n.out) then SchedulesLast(n) && !e.GattDisconnect? && n.state.sequence == Bump(s.sequence)
            else n.state.sequence == if e.GattDisconnect? then Bump(s.sequence) else s.sequence
  {
    match e
    case SearchComplete(peer) =>
      SearchSchedules(cfg, s, peer);
      hide OnSearchComplete;
    case GattOpen(_, bonded, refused, accepted) =>
      OpenSchedules(cfg, s, bonded, refused, accepted);
      hide OnOpened;
    case _ =>
      PlainSchedules(cfg, s, e);
      hide Step;
  }

  lemma {:induction false} MovedNowhere(log: seq<Entry>)
    requires forall i :: 0 <= i < |log| ==> !Moves(log[i])
    ensures Moved(log) == 0
  {
    if log == [] {
    } else {
      MovedNowhere(log[..|log| - 1]);
    }
  }

  lemma MovedByOut(out: seq<Effect>)
    ensures !Schedules(out) ==> Moved(Dids(out)) == 0
    ensures |out| > 0 && out[|out| - 1].Schedule? && !Schedules(out[..|out| - 1]) ==> Moved(Dids(out)) == 1
  {
    var log := Dids(out);
    if !Schedules(out) {
      MovedNowhere(log);
    } else if out[|out| - 1].Schedule? && !Schedules(out[..|out| - 1]) {
      forall i | 0 <= i < |out| - 1
        ensures !Moves(log[i])
      {
        assert !out[..|out| - 1][i].Schedule?;
      }
      MovedNowhere(log[..|out| - 1]);
    }
  }

  // The sequence counts the moves, and a timer carries the count at its own entry.
  predicate Counted(s: State, log: seq<Entry>) {
    s.sequence == Wrapped(Moved(log))
  }

  predicate Captured(log: seq<Entry>) {
    forall j :: 0 <= j < |log| && log[j].Did? && log[j].effect.Schedule? ==>
                  log[j].effect.seqNo == Wrapped(Moved(log[..j + 1]))
  }

  lemma CapturedConcat(log: seq<Entry>, more: seq<Entry>)
    requires Captured(log)
    requires forall k :: 0 <= k < |more| && more[k].Did? && more[k].effect.Schedule? ==>
                           more[k].effect.seqNo == Wrapped(Moved(log + more[..k + 1]))
    ensures Captured(log + more)
  {
    forall j | 0 <= j < |log + more| && (log + more)[j].Did? && (log + more)[j].effect.Schedule?
      ensures (log + more)[j].effect.seqNo == Wrapped(Moved((log + more)[..j + 1]))
    {
      if j < |log| {
        assert (log + more)[..j + 1] == log[..j + 1];
      } else {
        assert (log + more)[..j + 1] == log + more[..j - |log| + 1];
      }
    }
  }

  lemma HeardMoves(log: seq<Entry>, e: Event, n: Next)
    requires Schedules(n.out) ==> SchedulesLast(n) && !e.GattDisconnect?
    ensures Moved(log + ([Heard(e)] + Dids(n.out))) ==
            Moved(log) + if Schedules(n.out) || e.GattDisconnect? then 1 else 0
  {
    hide Moved, Dids;
    MovedConcat(log, [Heard(e)] + Dids(n.out));
    MovedConcat([Heard(e)], Dids(n.out));
    MovedSnoc([], Heard(e));
    assert [] + [Heard(e)] == [Heard(e)];
    MovedNowhere([]);
    MovedByOut(n.out);
  }

  lemma ScheduledLast(e: Event, n: Next, k: nat)
    requires Schedules(n.out) ==> SchedulesLast(n)
    requires var adds := [Heard(e)] + Dids(n.out); k < |adds| && adds[k].Did? && adds[k].effect.Schedule?
    ensures k == |n.out| && n.out[k - 1].seqNo == n.state.sequence
  {
    assert n.out[k - 1].Schedule?;
    var init := n.out[..|n.out| - 1];
    assert forall i :: 0 <= i < |init| ==> init[i] == n.out[i] && !init[i].Schedule?;
  }

  lemma AddsMove(cfg: Config, log: seq<Entry>, s: State, e: Event)
    requires Counted(s, log)
    ensures Counted(Step(cfg, s, e).state, log + Adds(cfg, s, e))
    ensures forall k :: 0 <= k < |Adds(cfg, s, e)| && Adds(cfg, s, e)[k].Did? && Adds(cfg, s, e)[k].effect.Schedule? ==>
                          k == |Adds(cfg, s, e)| - 1 &&
                          Adds(cfg, s, e)[k].effect.seqNo == Step(cfg, s, e).state.sequence
  {
    hide Step, Moved, Dids, Schedules, SchedulesLast;
    var n := Step(cfg, s, e);
    StepSchedules(cfg, s, e);
    HeardMoves(log, e, n);
    BumpIsNext(Moved(log));
    forall k | 0 <= k < |Adds(cfg, s, e)| && Adds(cfg, s, e)[k].Did? && Adds(cfg, s, e)[k].effect.Schedule?
      ensures k == |Adds(cfg, s, e)| - 1 && Adds(cfg, s, e)[k].effect.seqNo == n.state.sequence
    {
      ScheduledLast(e, n, k);
    }
  }

  lemma {:induction false} SequenceCounts(cfg: Config, es: seq<Event>)
    ensures Counted(Run(cfg, START, es), Log(cfg, START, es))
    ensures Captured(Log(cfg, START, es))
  {
    if es == [] {
    } else {
      hide Step, Adds, Moved;
      var init, e := es[..|es| - 1], es[|es| - 1];
      var s, log := Run(cfg, START, init), Log(cfg, START, init);
      var adds := Adds(cfg, s, e);
      SequenceCounts(cfg, init);
      AddsMove(cfg, log, s, e);
      assert adds[..|adds|] == adds;
      CapturedConcat(log, adds);
    }
  }

  /** A discovery retry that fires acts exactly when the scheduler sequence has come back
  to where it was: not at all since then, or by a whole number of turns of its counter. */
  lemma RetryActsUnlessMoved(cfg: Config, es: seq<Event>, j: nat)
    requires j < |Log(cfg, START, es)|
    requires Log(cfg, START, es)[j].Did? && Log(cfg, START, es)[j].effect.Schedule?
    requires Log(cfg, START, es)[j].effect.kind.DISCOVERY_RETRY?
    ensures var log, s := Log(cfg, START, es), Run(cfg, START, es);
            Step(cfg, s, Timer(DISCOVERY_RETRY, log[j].effect.seqNo)).out ==
            if Moved(log[j + 1..]) % TWO_32 == 0 then [SearchService] else []
  {
    hide Log, Run, Moved, Step;
    var log, s := Log(cfg, START, es), Run(cfg, START, es);
    SequenceCounts(cfg, es);
    assert log == log[..j + 1] + log[j + 1..];
    MovedConcat(log[..j + 1], log[j + 1..]);
    SameTurn(Moved(log[..j + 1]), Moved(log[j + 1..]));
    TimerOutput(cfg, s, log[j].effect.seqNo);
  }

  lemma TimerOutput(cfg: Config, s: State, seqNo: uint32)
    ensures Step(cfg, s, Timer(DISCOVERY_RETRY, seqNo)).out == if seqNo == s.sequence then [SearchService] else []
  {}

  lemma SameTurn(a: nat, b: nat)
    ensures Wrapped(a + b) == Wrapped(a) <==> b % TWO_32 == 0
  {
    var q := (a + b) / TWO_32 - a / TWO_32;
    if (a + b) % TWO_32 == a % TWO_32 {
      assert b == q * TWO_32;
    }
  }

  /** So a retry overtaken by a disconnect, a new open or another retry does nothing,
  short of four thousand million of them. */
  lemma StaleRetryDoesNothing(cfg: Config, es: seq<Event>, j: nat, k: nat)
    requires j < k < |Log(cfg, START, es)| < TWO_32
    requires Log(cfg, START, es)[j].Did? && Log(cfg, START, es)[j].effect.Schedule?
    requires Log(cfg, START, es)[j].effect.kind.DISCOVERY_RETRY?
    requires Moves(Log(cfg, START, es)[k])
    ensures Step(cfg, Run(cfg, START, es), Timer(DISCOVERY_RETRY, Log(cfg, START, es)[j].effect.seqNo)).out == []
  {
    hide Log, Run, Moved, Step;
    RetryActsUnlessMoved(cfg, es, j);
    var later := Log(cfg, START, es)[j + 1..];
    MovedWithin(later, k - j - 1);
  }

  lemma {:induction false} MovedWithin(log: seq<Entry>, k: nat)
    requires k < |log| && Moves(log[k])
    ensures 0 < Moved(log) <= |log|
  {
    MovedBound(log);
    assert log == log[..k] + [log[k]] + log[k + 1..];
    MovedConcat(log[..k] + [log[k]], log[k + 1..]);
    MovedSnoc(log[..k], log[k]);
  }

  lemma {:induction false} MovedBound(log: seq<Entry>)
    ensures Moved(log) <= |log|
  {
    if log == [] {
    } else {
      MovedBound(log[..|log| - 1]);
    }
  }

  function Drops(n: nat): seq<Event> {
    if n == 0 then [] else Drops(n - 1) + [GattDisconnect(0x13)]
  }

  lemma DropMoves(cfg: Config, s: State)
    ensures Step(cfg, s, GattDisconnect(0x13)).state.sequence == Bump(s.sequence)
  {
    DisconnectMoves(s, 0x13);
    hide OnDisconnect;
  }

  lemma NoDrops(cfg: Config, s: State)
    ensures Run(cfg, s, Drops(0)).sequence == Wrapped(s.sequence)
  {}

  lemma OneMoreDrop(cfg: Config, s: State, n: nat, m: nat)
    requires Run(cfg, s, Drops(n)).sequence == Wrapped(m)
    ensures Run(cfg, s, Drops(n + 1)).sequence == Wrapped(m + 1)
  {
    var t := Run(cfg, s, Drops(n));
    RunSnoc(cfg, s, Drops(n), GattDisconnect(0x13));
    DropMoves(cfg, t);
    BumpIsNext(m);
    hide Run, Step, Bump, Wrapped;
  }

  lemma {:induction false} DropsMove(cfg: Config, s: State, n: nat)
    ensures Run(cfg, s, Drops(n)).sequence == Wrapped(s.sequence + n)
  {
    hide Run, Drops, Wrapped;
    if n == 0 {
      NoDrops(cfg, s);
    } else {
      DropsMove(cfg, s, n - 1);
      OneMoreDrop(cfg, s, n - 1, s.sequence + n - 1);
    }
  }

  /** The counter is 32 bits wide and does come round: after exactly that many drops the
  stale retry searches a link it was never scheduled on. */
  lemma RetryActsAfterAFullTurn(cfg: Config, s: State)
    ensures Step(cfg, Run(cfg, s, Drops(TWO_32)), Timer(DISCOVERY_RETRY, s.sequence)).out == [SearchService]
  {
    hide Drops, Run, Step;
    DropsMove(cfg, s, TWO_32);
    SameTurn(s.sequence, TWO_32);
    TimerOutput(cfg, Run(cfg, s, Drops(TWO_32)), s.sequence);
  }

  // ---------------------------------------------------------------------------
  // Discovery retries
  // ---------------------------------------------------------------------------

  predicate IsRetry(entry: Entry) {
    entry.Did? && entry.effect.Schedule? && entry.effect.kind.DISCOVERY_RETRY?
  }

  // A link begins, or is over.
  predicate IsEdge(entry: Entry) {
    entry.Heard? && (Opens(entry.event) || entry.event.GattDisconnect?)
  }

  /** The discovery retries scheduled on the present link. */
  function RetriesOnLink(log: seq<Entry>): nat {
    if log == [] then 0
    else
      var entry, init := log[|log| - 1], log[..|log| - 1];
      if IsEdge(entry) then 0 else RetriesOnLink(init) + if IsRetry(entry) then 1 else 0
  }

  lemma OneEntry(log: seq<Entry>, entry: Entry)
    ensures RetriesOnLink(log + [entry]) ==
            if IsEdge(entry) then 0 else RetriesOnLink(log) + if IsRetry(entry) then 1 else 0
  {
    assert (log + [entry])[..|log|] == log;
  }

  lemma {:induction false} NoRetries(log: seq<Entry>, out: seq<Effect>)
    requires forall k :: 0 <= k < |out| ==> !IsRetry(Did(out[k]))
    ensures RetriesOnLink(log + Dids(out)) == RetriesOnLink(log)
  {
    if out == [] {
      assert log + Dids(out) == log;
    } else {
      var init, last := out[..|out| - 1], Did(out[|out| - 1]);
      NoRetries(log, init);
      assert log + Dids(out) == log + Dids(init) + [last];
      OneEntry(log + Dids(init), last);
    }
  }

  predicate NoneIsRetry(out: seq<Effect>) {
    forall k :: 0 <= k < |out| ==> !IsRetry(Did(out[k]))
  }

  // What each handler does to the retry count, and what it schedules.
  lemma SearchCounts(cfg: Config, s: State, peer: Peer)
    ensures var n := OnSearchComplete(cfg, s, peer);
            if n.out == [Schedule(DISCOVERY_RETRY, n.state.sequence)] then n.state.retries == s.retries + 1
            else NoneIsRetry(n.out) && n.state.retries == s.retries
  {
    hide Note, ReportSubscribe, OutcomeText;
  }

  lemma OpenCounts(cfg: Config, s: State, bonded: bool, refused: bool, accepted: bool)
    ensures var n := OnOpened(cfg, s, bonded, refused, accepted);
            NoneIsRetry(n.out) && |n.out| > 1 && n.state.retries == 0
  {
    hide ReleaseStall, Stalls.Step;
  }

  lemma DisconnectCounts(s: State, reason: uint16)
    ensures var n := OnDisconnect(s, reason); NoneIsRetry(n.out) && n.state.retries == 0
  {
    hide Note, DisconnectText, Stalls.Step, Stalls.Reports;
  }

  lemma AuthCounts(cfg: Config, s: State, addr: Address, success: bool, reason: byte, peer: Peer)
    ensures var n := OnAuth(cfg, s, addr, success, reason, peer);
            NoneIsRetry(n.out) && n.state.retries == s.retries
  {
    AuthOutput(cfg, s, addr, success, reason, peer);
    hide Note, ReleaseStall, AuthText, Stalls.Step, IsPump;
  }

  lemma PlainCounts(cfg: Config, s: State, e: Event)
    requires IsPlain(e)
    ensures var n := Step(cfg, s, e); NoneIsRetry(n.out) && n.state.retries == s.retries
  {
    hide Note, ReleaseStall, Stalls.Step, IsPump;
  }

  // ... and so what any event does.
  lemma StepCountsRetries(cfg: Config, s: State, e: Event)
    ensures var n := Step(cfg, s, e);
            if n.out == [Schedule(DISCOVERY_RETRY, n.state.sequence)]
            then n.state.retries == s.retries + 1 && !IsEdge(Heard(e))
            else NoneIsRetry(n.out) && n.state.retries == if IsEdge(Heard(e)) then 0 else s.retries
  {
    hide OnSearchComplete, OnAuth, OnDisconnect, OnOpened;
    var out := Step(cfg, s, e).out;
    assert |out| == 1 && NoneIsRetry(out) ==> !IsRetry(Did(out[0]));
    match e
    case SearchComplete(peer) => SearchCounts(cfg, s, peer);
    case AuthComplete(addr, success, reason, peer) => AuthCounts(cfg, s, addr, success, reason, peer);
    case GattDisconnect(reason) => DisconnectCounts(s, reason);
    case GattOpen(_, bonded, refused, accepted) => OpenCounts(cfg, s, bonded, refused, accepted);
    case _ =>
      PlainCounts(cfg, s, e);
      hide Step;
  }

  lemma {:induction false} RetriesAreCounted(cfg: Config, es: seq<Event>)
    ensures RetriesOnLink(Log(cfg, START, es)) == Run(cfg, START, es).retries
  {
    if es == [] {
    } else {
      hide Step, RetriesOnLink, Dids, IsEdge, IsRetry;
      var init, e := es[..|es| - 1], es[|es| - 1];
      var s, log := Run(cfg, START, init), Log(cfg, START, init);
      RetriesAreCounted(cfg, init);
      StepCountsRetries(cfg, s, e);
      AddsRetries(cfg, log, s, e);
    }
  }

  lemma AddsRetries(cfg: Config, log: seq<Entry>, s: State, e: Event)
    requires RetriesOnLink(log) == s.retries
    ensures RetriesOnLink(log + Adds(cfg, s, e)) == Step(cfg, s, e).state.retries
  {
    StepCountsRetries(cfg, s, e);
    hide Step, RetriesOnLink;
    var n, heard := Step(cfg, s, e), log + [Heard(e)];
    OneEntry(log, Heard(e));
    assert log + Adds(cfg, s, e) == heard + Dids(n.out);
    if n.out == [Schedule(DISCOVERY_RETRY, n.state.sequence)] {
      OneEntry(heard, Did(n.out[0]));
      assert Dids(n.out) == [Did(n.out[0])];
    } else {
      NoRetries(heard, n.out);
    }
  }

  /** No link gets more than three discovery retries. */
  lemma AtMostThreeRetries(cfg: Config, es: seq<Event>)
    requires CanHappen(cfg, es)
    ensures RetriesOnLink(Log(cfg, START, es)) <= 3
  {
    RetriesAreCounted(cfg, es);
    HoldsAreHonest(cfg, es);
    hide Log, Run, RetriesOnLink;
  }
}
