/** The BLE connection manager: components/alpha_hwr/ble_connection_manager.cpp and .h.

State is what the manager's fields hold, Step is what one event does to them and what
it makes the manager do, and class BLEConnectionManager is the manager itself, one
method an event, proved against Step. What is true of whole runs is in ConnectionRuns.
*/
module ConnectionManager {
  import opened FailureHold
  import opened GapSecurity
  import opened Numbers
  import Stalls = PairingStall
  import opened Text

  const MAX_DISCOVERY_RETRIES: nat := 3
  const TWO_32: nat := 0x1_0000_0000

  // ---------------------------------------------------------------------------
  // The texts on the fault surface
  // ---------------------------------------------------------------------------

  const STALL_TEXT := "Pump not accepting pairing"
  const LOCAL_TEXT := "Local Host Terminated"

  // %02x
  function LowerHex(n: uint16): string {
    Hex(n, if n < 0x100 then 2 else if n < 0x1000 then 3 else 4)
  }

  function DisconnectName(reason: uint16): string {
    if reason == 0x01 then "L2CAP Failure"
    else if reason == 0x08 then "Connection Timeout"
    else if reason == 0x13 then "Remote Terminated"
    else if reason == 0x16 then LOCAL_TEXT
    else if reason == 0x22 then "LL Response Timeout"
    else if reason == 0x3e then "Failed To Establish"
    else if reason == 0x100 then "Connection Cancelled"
    else "Disconnected"
  }

  function AuthName(reason: byte): (name: string)
    ensures name != "" && name[0] != 'L'
  {
    if reason == 78 then "Passkey Entry Failed"
    else if reason == 79 then "OOB Data Not Available"
    else if reason == 80 then "Authentication Requirements Not Met"
    else if reason == 81 then "Confirm Value Mismatch"
    else if reason == 82 then "Pairing Not Supported"
    else if reason == 83 then "Encryption Key Size Too Small"
    else if reason == 84 then "Invalid SMP Command"
    else if reason == 85 then "Unspecified Error"
    else if reason == 86 then "Repeated Pairing Attempts"
    else if reason == 87 then "Invalid Parameters"
    else if reason == 88 then "DHKey Check Failed"
    else if reason == 89 then "Numeric Comparison Failed"
    else if reason == 90 then "BR/EDR Pairing In Progress"
    else if reason == 91 then "Cross-Transport Key Derivation Not Allowed"
    else if reason == 92 then "Internal Error"
    else if reason == 93 then "Unknown IO Capability"
    else if reason == 94 then "Pairing Initiation Failed"
    else if reason == 95 then "Confirmation Failed"
    else if reason == 96 then "Security Manager Busy"
    else if reason == 97 then "Encryption Start Failed"
    else if reason == 98 then "Pairing Already Started"
    else if reason == 99 then "Response Timeout"
    else if reason == 100 then "Diversifier Not Available"
    else if reason == 101 then "Unspecified Failure"
    else if reason == 102 then "Connection Timeout"
    else "Other"
  }

  function WithCode(name: string, code: uint16): string {
    name + " (0x" + LowerHex(code) + ")"
  }

  function DisconnectText(reason: uint16): string {
    WithCode(DisconnectName(reason), reason)
  }

  function AuthText(reason: byte): string {
    WithCode(AuthName(reason), reason)
  }

  predicate IsLocalTeardown(text: string) {
    LOCAL_TEXT <= text
  }

  // ---------------------------------------------------------------------------
  // Events, and what the manager does about them
  // ---------------------------------------------------------------------------

  // What the client's service table and the stack answer when a subscription is tried.
  datatype Peer = Peer(service: bool, characteristic: bool, registers: bool, writes: bool)

  // The three ways an open can complete; the first two are successes.
  datatype OpenStatus = GATT_OK | ALREADY_OPEN | OPEN_FAILED

  datatype TimerKind = POST_CONNECT | DISCOVERY_RETRY

  datatype Event =
      // refused: the component suspends the link from inside its connection callback;
      // accepted: the stack takes the encryption request.
    | GattOpen(status: OpenStatus, bonded: bool, refused: bool, accepted: bool)
    | SearchComplete(peer: Peer)
    | Notify(length: nat)
    | GattDisconnect(reason: uint16)
    | AuthComplete(addr: Address, success: bool, failReason: byte, authPeer: Peer)
    | SecurityReq(addr: Address)
    | NumericComparison(addr: Address)
      // Passkey, key and bond-removal events, which are only logged.
    | GapLogged(addr: Address)
    | NoteFailure(text: string, rank: Hold)
    | ForceDisconnect(text: string, rank: Hold)
    | SuspendLink
    | ClearLocalTeardown
    | SessionReady
    | PumpReady
    | Timer(kind: TimerKind, seqNo: uint32)

  datatype Effect =
    | ConnectionCallback
    | DisconnectionCallback
    | ServiceFoundCallback
    | SubscribedCallback
    | NotificationCallback
    | EncryptionRequested(accepted: bool)
    | SubscribeAttempt
    | RegisterForNotify
    | NotifyWrite
    | Schedule(kind: TimerKind, seqNo: uint32)
    | SearchService
    | DisconnectLink
    | SecurityReply(addr: Address, accept: bool)
    | ConfirmReply(addr: Address, accept: bool)
    | StallReport

  datatype Config = Config(pairingEnabled: bool, client: Option<Address>)

  datatype State = State(
    text: string, hold: Hold, pending: bool, deferred: bool, teardown: bool, retries: nat,
    sequence: uint32, bondedAtOpen: bool, lastReason: uint16, stall: Stalls.Stall)

  const START := State("", NONE, false, false, false, 0, 0, false, 0, Stalls.IDLE)

  datatype Next = Next(state: State, out: seq<Effect>)

  // gap_addr_is_pump_
  predicate IsPump(cfg: Config, addr: Address) {
    cfg.client.Some? && Matches(addr, cfg.client.value)
  }

  // An open is dispatched by the client itself, so there is one.
  predicate Possible(cfg: Config, e: Event) {
    e.GattOpen? && !e.status.OPEN_FAILED? ==> cfg.client.Some?
  }

  function Bump(n: uint32): uint32 {
    (n + 1) % TWO_32
  }

  // ---------------------------------------------------------------------------
  // One event
  // ---------------------------------------------------------------------------

  // Nothing but the fault surface differs.
  predicate SameLink(s: State, t: State) {
    t == s.(text := t.text, hold := t.hold)
  }

  function Note(s: State, text: string, rank: Hold): (n: State)
    ensures SameLink(s, n)
  {
    if Admits(s.hold, rank) then s.(text := text, hold := rank) else s
  }

  function Withdraw(s: State): State {
    s.(text := "", hold := NONE)
  }

  function Tell(s: State, e: Stalls.Event): State {
    s.(stall := Stalls.Step(s.stall, e))
  }

  // release_pairing_stall_hold_
  function ReleaseStall(s: State): (r: State)
    ensures SameLink(s, r)
  {
    if s.hold.PAIRING_STALL? && !Stalls.Stalled(s.stall) then Withdraw(s) else s
  }

  function ReportSubscribe(s: State, o: Outcome): (r: State)
    ensures SameLink(s, r)
  {
    if o.OK? then s else Note(s, OutcomeText(o), if Blocks(o) then SUBSCRIBE else NONE)
  }

  function Attempt(cfg: Config, peer: Peer): Outcome {
    if cfg.client.None? then NO_CLIENT
    else if !peer.service then NO_SERVICE
    else if !peer.characteristic then NO_CHARACTERISTIC
    else if !peer.registers then REGISTER_FAILED
    else if !peer.writes then CCCD_WRITE_FAILED
    else OK
  }

  function AttemptOutput(o: Outcome): seq<Effect> {
    match o
    case NO_CLIENT => [SubscribeAttempt]
    case NO_SERVICE => [SubscribeAttempt]
    case NO_CHARACTERISTIC => [SubscribeAttempt]
    case REGISTER_FAILED => [SubscribeAttempt, RegisterForNotify]
    case CCCD_WRITE_FAILED => [SubscribeAttempt, RegisterForNotify, NotifyWrite, SubscribedCallback]
    case OK => [SubscribeAttempt, RegisterForNotify, NotifyWrite, SubscribedCallback]
  }

  function Subscribe(cfg: Config, s: State, peer: Peer): (n: Next)
    ensures SameLink(s, n.state)
  {
    var o := Attempt(cfg, peer);
    Next(ReportSubscribe(s, o), AttemptOutput(o))
  }

  // The component is told of the connection, and may refuse it there and then.
  function CallComponent(s: State, refused: bool): (called: State)
    ensures called.bondedAtOpen == s.bondedAtOpen
  {
    if refused then Tell(s, Stalls.LocalTeardown).(teardown := true) else s
  }

  // The part of an open that runs whether or not the component wants the link.
  function Admit(s: State, bonded: bool, refused: bool): (admitted: State)
    ensures admitted.teardown == refused && admitted.bondedAtOpen == bonded && !admitted.pending
  {
    var called := CallComponent(s.(bondedAtOpen := bonded, teardown := false), refused);
    ReleaseStall(Tell(called.(retries := 0, pending := false, deferred := false), Stalls.Open(bonded)))
  }

  function AdmitOutput(refused: bool): seq<Effect> {
    if refused then [ConnectionCallback, DisconnectLink] else [ConnectionCallback]
  }

  function OnOpened(cfg: Config, s: State, bonded: bool, refused: bool, accepted: bool): Next {
    var admitted := Admit(s, bonded, refused);
    if refused then Next(admitted, AdmitOutput(refused))
    else
      var encrypts := cfg.pairingEnabled && bonded;
      var seqNo := Bump(admitted.sequence);
      Next(admitted.(pending := encrypts && accepted, sequence := seqNo),
           AdmitOutput(refused) +
           if encrypts then [EncryptionRequested(accepted), Schedule(POST_CONNECT, seqNo)]
           else [Schedule(POST_CONNECT, seqNo)])
  }

  function OnSearchComplete(cfg: Config, s: State, peer: Peer): Next {
    if cfg.client.None? then Next(ReportSubscribe(s, NO_CLIENT), [])
    else if !peer.service then
      if s.retries < MAX_DISCOVERY_RETRIES then
        var seqNo := Bump(s.sequence);
        Next(s.(retries := s.retries + 1, sequence := seqNo), [Schedule(DISCOVERY_RETRY, seqNo)])
      else Next(ReportSubscribe(s, NO_SERVICE), [])
    else if !peer.characteristic then Next(ReportSubscribe(s, NO_CHARACTERISTIC), [ServiceFoundCallback])
    else if s.pending then Next(s.(deferred := true), [ServiceFoundCallback])
    else
      var n := Subscribe(cfg, s, peer);
      Next(n.state, [ServiceFoundCallback] + n.out)
  }

  function OnNotify(s: State, length: nat): Next {
    if length == 0 then Next(s, [])
    else
      var heard := if ReleasedByData(s.hold) then Withdraw(s) else s;
      Next(ReleaseStall(Tell(heard, Stalls.Data)), [NotificationCallback])
  }

  function OnAuthSuccess(cfg: Config, s: State, peer: Peer): Next {
    var done := s.(pending := false);
    var unheld := if ReleasedByAuth(done.hold) then done.(hold := NONE) else done;
    var bonded := ReleaseStall(Tell(unheld, Stalls.BondEstablished));
    if bonded.deferred then Subscribe(cfg, bonded.(deferred := false), peer) else Next(bonded, [])
  }

  function OnAuthFailure(s: State, reason: byte): Next {
    Next(Note(s, AuthText(reason), AUTH).(pending := false, deferred := false),
         if s.pending then [DisconnectLink] else [])
  }

  // What the end of a link says about pairing, before anything else is made of it.
  function CloseCycle(s: State, reason: uint16): Next {
    var closed := Tell(s, Stalls.Disconnect(reason));
    Next(if Stalls.Stalled(closed.stall) then Note(closed, STALL_TEXT, PAIRING_STALL) else closed,
         if Stalls.Reports(s.stall, Stalls.Disconnect(reason)) then [StallReport] else [])
  }

  function ResetLink(s: State): State {
    s.(sequence := Bump(s.sequence), retries := 0, pending := false, deferred := false, teardown := false)
  }

  function OnDisconnect(s: State, reason: uint16): Next {
    var n := CloseCycle(s, reason);
    var routine := Note(n.state.(lastReason := reason), DisconnectText(reason), NONE);
    Next(ResetLink(routine), n.out + [DisconnectionCallback])
  }

  function OnSecurityReq(cfg: Config, s: State, addr: Address): Next {
    var heard := if IsPump(cfg, addr) then ReleaseStall(Tell(s, Stalls.SecurityRequest)) else s;
    Next(heard, if Answer(IsPump(cfg, addr), cfg.pairingEnabled).ACCEPT? then [SecurityReply(addr, true)] else [])
  }

  function OnNumericComparison(cfg: Config, addr: Address): seq<Effect> {
    match Answer(IsPump(cfg, addr), cfg.pairingEnabled)
    case ACCEPT => [ConfirmReply(addr, true)]
    case DECLINE => [ConfirmReply(addr, false)]
    case IGNORE => []
  }

  function Hangup(cfg: Config): seq<Effect> {
    if cfg.client.Some? then [DisconnectLink] else []
  }

  function OnAuth(cfg: Config, s: State, addr: Address, success: bool, failReason: byte, peer: Peer): Next {
    if !IsPump(cfg, addr) then Next(s, [])
    else if success then OnAuthSuccess(cfg, s, peer)
    else OnAuthFailure(s, failReason)
  }

  // clear_failure_if_local_teardown
  function ForgetLocalTeardown(s: State): State {
    if IsLocalTeardown(s.text) then Withdraw(s) else s
  }

  function OnForceDisconnect(cfg: Config, s: State, text: string, rank: Hold): Next {
    Next(Tell(Note(s, text, rank), Stalls.LocalTeardown), Hangup(cfg))
  }

  function OnSuspend(cfg: Config, s: State): Next {
    Next(Tell(s, Stalls.LocalTeardown).(teardown := true), Hangup(cfg))
  }

  function OnTimer(s: State, kind: TimerKind, seqNo: uint32): seq<Effect> {
    if seqNo == s.sequence && kind.DISCOVERY_RETRY? then [SearchService] else []
  }

  function Step(cfg: Config, s: State, e: Event): Next {
    match e
    case GattOpen(status, bonded, refused, accepted) =>
      if status.OPEN_FAILED? then Next(s, []) else OnOpened(cfg, s, bonded, refused, accepted)
    case SearchComplete(peer) => OnSearchComplete(cfg, s, peer)
    case Notify(length) => OnNotify(s, length)
    case GattDisconnect(reason) => OnDisconnect(s, reason)
    case AuthComplete(addr, success, failReason, peer) => OnAuth(cfg, s, addr, success, failReason, peer)
    case SecurityReq(addr) => OnSecurityReq(cfg, s, addr)
    case NumericComparison(addr) => Next(s, OnNumericComparison(cfg, addr))
    case GapLogged(addr) => Next(s, [])
    case NoteFailure(text, rank) => Next(Note(s, text, rank), [])
    case ForceDisconnect(text, rank) => OnForceDisconnect(cfg, s, text, rank)
    case SuspendLink => OnSuspend(cfg, s)
    case ClearLocalTeardown => Next(ForgetLocalTeardown(s), [])
    case SessionReady => Next(if ReleasedBySessionReady(s.hold) then Withdraw(s) else s, [])
    case PumpReady => Next(if ReleasedByPumpReady(s.hold) then Withdraw(s) else s, [])
    case Timer(kind, seqNo) => Next(s, OnTimer(s, kind, seqNo))
  }

  // ---------------------------------------------------------------------------
  // The manager
  // ---------------------------------------------------------------------------

  class BLEConnectionManager {
    const cfg: Config
    const pairingStall: Stalls.PairingStallDetector
    var lastFailure: string
    var failureHold: Hold
    var encryptionPending: bool
    var subscriptionDeferred: bool
    var teardownRequested: bool
    var discoveryRetryCount: nat
    var schedulerSequence: uint32
    var bondedAtOpen: bool
    var lastDisconnectReason: uint16
    // Everything asked of the stack and of the component, oldest first.
    ghost var done: seq<Effect>

    ghost function Now(): State
      reads this, pairingStall
    {
      State(lastFailure, failureHold, encryptionPending, subscriptionDeferred, teardownRequested,
            discoveryRetryCount, schedulerSequence, bondedAtOpen, lastDisconnectReason, pairingStall.State())
    }

    predicate Valid()
      reads this, pairingStall
    {
      pairingStall.Valid() && discoveryRetryCount <= MAX_DISCOVERY_RETRIES
    }

    // The state is now this one, and these effects are all that has been added.
    twostate predicate Became(n: Next)
      reads this, pairingStall
    {
      Now() == n.state && done == old(done) + n.out
    }

    constructor (config: Config)
      ensures Valid() && Now() == START && done == [] && cfg == config && fresh(pairingStall)
    {
      cfg := config;
      pairingStall := new Stalls.PairingStallDetector();
      lastFailure, failureHold := "", NONE;
      encryptionPending, subscriptionDeferred, teardownRequested := false, false, false;
      discoveryRetryCount, schedulerSequence := 0, 0;
      bondedAtOpen, lastDisconnectReason := false, 0;
      done := [];
    }

    method OnNoteFailure(reason: string, rank: Hold)
      modifies this
      ensures Now() == Note(old(Now()), reason, rank) && done == old(done)
    {
      if Admits(failureHold, rank) {
        lastFailure := reason;
        failureHold := rank;
      }
    }

    method ReleasePairingStallHold()
      modifies this
      ensures Now() == ReleaseStall(old(Now())) && done == old(done)
    {
      if failureHold == PAIRING_STALL && !pairingStall.IsStalled() {
        lastFailure := "";
        failureHold := NONE;
      }
    }

    method ReportSubscribeOutcome(outcome: Outcome)
      modifies this
      ensures Now() == ReportSubscribe(old(Now()), outcome) && done == old(done)
    {
      if outcome == OK {
        return;
      }
      var rank := if Blocks(outcome) then SUBSCRIBE else NONE;
      if Admits(failureHold, rank) {
        lastFailure := OutcomeText(outcome);
        failureHold := rank;
      }
    }

    method AttemptSubscribe(peer: Peer) returns (outcome: Outcome)
      modifies this`done
      ensures outcome == Attempt(cfg, peer)
      ensures done + (if Blocks(outcome) then [] else [SubscribedCallback]) == old(done) + AttemptOutput(outcome)
    {
      done := done + [SubscribeAttempt];
      if cfg.client.None? {
        return NO_CLIENT;
      }
      if !peer.service {
        return NO_SERVICE;
      }
      if !peer.characteristic {
        return NO_CHARACTERISTIC;
      }
      done := done + [RegisterForNotify];
      if !peer.registers {
        return REGISTER_FAILED;
      }
      done := done + [NotifyWrite];
      if !peer.writes {
        return CCCD_WRITE_FAILED;
      }
      return OK;
    }

    method SubscribeToNotifications(peer: Peer)
      modifies this
      ensures Became(Subscribe(cfg, old(Now()), peer))
    {
      var outcome := AttemptSubscribe(peer);
      ReportSubscribeOutcome(outcome);
      if Blocks(outcome) {
        return;
      }
      done := done + [SubscribedCallback];
    }

    method OnSuspendLink()
      modifies this, pairingStall
      ensures Became(OnSuspend(cfg, old(Now())))
      ensures old(Valid()) ==> Valid()
    {
      pairingStall.NoteLocalTeardown();
      teardownRequested := true;
      if cfg.client.Some? {
        done := done + [DisconnectLink];
      }
    }

    method OnForcedDisconnect(reason: string, rank: Hold)
      modifies this, pairingStall
      ensures Became(OnForceDisconnect(cfg, old(Now()), reason, rank))
      ensures old(Valid()) ==> Valid()
    {
      OnNoteFailure(reason, rank);
      pairingStall.NoteLocalTeardown();
      if cfg.client.Some? {
        done := done + [DisconnectLink];
      }
    }

    method OnClearLocalTeardown()
      modifies this
      ensures Became(Next(ForgetLocalTeardown(old(Now())), []))
    {
      if !IsLocalTeardown(lastFailure) {
        return;
      }
      lastFailure := "";
      failureHold := NONE;
    }

    method OnSessionReady()
      modifies this
      ensures Became(Step(cfg, old(Now()), SessionReady))
    {
      if ReleasedBySessionReady(failureHold) {
        lastFailure := "";
        failureHold := NONE;
      }
    }

    method OnPumpReady()
      modifies this
      ensures Became(Step(cfg, old(Now()), PumpReady))
    {
      if ReleasedByPumpReady(failureHold) {
        lastFailure := "";
        failureHold := NONE;
      }
    }

    method ConnectionCall(refused: bool)
      requires cfg.client.Some?
      modifies this, pairingStall
      ensures Became(Next(CallComponent(old(Now()), refused), AdmitOutput(refused)))
      ensures old(Valid()) ==> Valid()
    {
      hide Stalls.Step;
      done := done + [ConnectionCallback];
      if refused {
        OnSuspendLink();
      }
    }

    method AdmitConnection(bonded: bool, refused: bool)
      requires cfg.client.Some?
      modifies this, pairingStall
      ensures Became(Next(Admit(old(Now()), bonded, refused), AdmitOutput(refused)))
      ensures old(Valid()) ==> Valid()
    {
      hide Stalls.Step, CallComponent, ReleaseStall, AdmitOutput;
      bondedAtOpen := bonded;
      teardownRequested := false;
      ConnectionCall(refused);
      discoveryRetryCount := 0;
      encryptionPending := false;
      subscriptionDeferred := false;
      pairingStall.OnConnectionOpened(bondedAtOpen);
      ReleasePairingStallHold();
    }

    method HandleConnectionOpened(bonded: bool, refused: bool, accepted: bool)
      requires cfg.client.Some?
      modifies this, pairingStall
      ensures Became(OnOpened(cfg, old(Now()), bonded, refused, accepted))
      ensures old(Valid()) ==> Valid()
    {
      hide ReleaseStall;
      AdmitConnection(bonded, refused);
      if teardownRequested {
        return;
      }
      if cfg.pairingEnabled {
        if bondedAtOpen {
          done := done + [EncryptionRequested(accepted)];
          if accepted {
            encryptionPending := true;
          }
        }
      }
      schedulerSequence := Bump(schedulerSequence);
      done := done + [Schedule(POST_CONNECT, schedulerSequence)];
    }

    method HandleServiceDiscoveryComplete(peer: Peer)
      modifies this
      ensures Became(OnSearchComplete(cfg, old(Now()), peer))
      ensures old(Valid()) ==> Valid()
    {
      hide Stalls.Step, Stalls.Reports, AuthText, DisconnectText, OutcomeText;
      if cfg.client.Some? {
        if peer.service {
          done := done + [ServiceFoundCallback];
          if peer.characteristic {
            if encryptionPending {
              subscriptionDeferred := true;
            } else {
              SubscribeToNotifications(peer);
            }
          } else {
            ReportSubscribeOutcome(NO_CHARACTERISTIC);
          }
        } else if discoveryRetryCount < MAX_DISCOVERY_RETRIES {
          discoveryRetryCount := discoveryRetryCount + 1;
          schedulerSequence := Bump(schedulerSequence);
          done := done + [Schedule(DISCOVERY_RETRY, schedulerSequence)];
        } else {
          ReportSubscribeOutcome(NO_SERVICE);
        }
      } else {
        ReportSubscribeOutcome(NO_CLIENT);
      }
    }

    method HandleNotification(length: nat)
      modifies this, pairingStall
      ensures Became(OnNotify(old(Now()), length))
      ensures old(Valid()) ==> Valid()
    {
      if length > 0 {
        if ReleasedByData(failureHold) {
          lastFailure := "";
          failureHold := NONE;
        }
        pairingStall.NoteData();
        ReleasePairingStallHold();
        done := done + [NotificationCallback];
      }
    }

    method AuthSucceeded(peer: Peer)
      modifies this, pairingStall
      ensures Became(OnAuthSuccess(cfg, old(Now()), peer))
      ensures old(Valid()) ==> Valid()
    {
      hide Stalls.Step, Subscribe;
      encryptionPending := false;
      if ReleasedByAuth(failureHold) {
        failureHold := NONE;
      }
      pairingStall.NoteBondEstablished();
      ReleasePairingStallHold();
      if subscriptionDeferred {
        subscriptionDeferred := false;
        SubscribeToNotifications(peer);
      }
    }

    method AuthFailed(failReason: byte)
      modifies this
      ensures Became(OnAuthFailure(old(Now()), failReason))
      ensures old(Valid()) ==> Valid()
    {
      hide AuthText;
      if Admits(failureHold, AUTH) {
        lastFailure := AuthText(failReason);
        failureHold := AUTH;
      }
      var disconnectNeeded := encryptionPending;
      encryptionPending := false;
      subscriptionDeferred := false;
      if disconnectNeeded {
        done := done + [DisconnectLink];
      }
    }

    method HandleAuthComplete(addr: Address, success: bool, failReason: byte, peer: Peer)
      modifies this, pairingStall
      ensures Became(OnAuth(cfg, old(Now()), addr, success, failReason, peer))
      ensures old(Valid()) ==> Valid()
    {
      hide OnAuthSuccess, OnAuthFailure;
      if !IsPump(cfg, addr) {
        return;
      }
      if success {
        AuthSucceeded(peer);
      } else {
        AuthFailed(failReason);
      }
    }

    method CloseStallCycle(reason: uint16)
      requires Valid()
      modifies this, pairingStall
      ensures Valid() && Became(CloseCycle(old(Now()), reason))
    {
      hide Stalls.Step, Stalls.Reports;
      var reportStall := pairingStall.OnDisconnected(reason);
      if pairingStall.IsStalled() {
        if Admits(failureHold, PAIRING_STALL) {
          lastFailure := STALL_TEXT;
          failureHold := PAIRING_STALL;
        }
      }
      if reportStall {
        done := done + [StallReport];
      }
    }

    // What every disconnect records, and its text where nothing is held.
    method NoteDisconnect(reason: uint16)
      modifies this`lastDisconnectReason, this`lastFailure
      ensures Now() == Note(old(Now()).(lastReason := reason), DisconnectText(reason), NONE)
    {
      hide DisconnectText;
      lastDisconnectReason := reason;
      if Admits(failureHold, NONE) {
        lastFailure := DisconnectText(lastDisconnectReason);
      }
    }

    // The link is over: what was scheduled or pending on it goes with it.
    method EndLink()
      modifies this
      ensures Became(Next(ResetLink(old(Now())), [DisconnectionCallback]))
    {
      schedulerSequence := Bump(schedulerSequence);
      done := done + [DisconnectionCallback];
      discoveryRetryCount := 0;
      encryptionPending := false;
      subscriptionDeferred := false;
      teardownRequested := false;
    }

    method HandleDisconnect(reason: uint16)
      requires Valid()
      modifies this, pairingStall
      ensures Valid() && Became(OnDisconnect(old(Now()), reason))
    {
      hide DisconnectText, CloseCycle, Note;
      CloseStallCycle(reason);
      NoteDisconnect(reason);
      EndLink();
    }

    method HandleSecurityRequest(addr: Address)
      modifies this, pairingStall
      ensures Became(OnSecurityReq(cfg, old(Now()), addr))
      ensures old(Valid()) ==> Valid()
    {
      var fromPump := IsPump(cfg, addr);
      if fromPump {
        pairingStall.NoteSecurityRequest();
        ReleasePairingStallHold();
      }
      match Answer(fromPump, cfg.pairingEnabled)
      case ACCEPT =>
        done := done + [SecurityReply(addr, true)];
      case DECLINE =>
      case IGNORE =>
    }

    method HandleNumericComparison(addr: Address)
      modifies this`done
      ensures Became(Next(old(Now()), OnNumericComparison(cfg, addr)))
    {
      match Answer(IsPump(cfg, addr), cfg.pairingEnabled)
      case ACCEPT =>
        done := done + [ConfirmReply(addr, true)];
      case DECLINE =>
        done := done + [ConfirmReply(addr, false)];
      case IGNORE =>
    }

    method RunTimer(kind: TimerKind, seqNo: uint32)
      modifies this`done
      ensures Became(Next(old(Now()), OnTimer(old(Now()), kind, seqNo)))
    {
      if seqNo != schedulerSequence {
        return;
      }
      if kind == DISCOVERY_RETRY {
        done := done + [SearchService];
      }
    }

    // Either way an event can arrive, and nothing else, has happened since.
    twostate predicate Took(e: Event)
      reads this, pairingStall
    {
      Became(Step(cfg, old(Now()), e))
    }

    method HandleGattcEvent(e: Event)
      requires Valid() && Possible(cfg, e)
      requires e.GattOpen? || e.SearchComplete? || e.Notify? || e.GattDisconnect?
      modifies this, pairingStall
      ensures Valid() && Took(e)
    {
      match e
      case GattOpen(status, bonded, refused, accepted) =>
        if status == GATT_OK || status == ALREADY_OPEN {
          HandleConnectionOpened(bonded, refused, accepted);
        }
      case SearchComplete(peer) => HandleServiceDiscoveryComplete(peer);
      case Notify(length) => HandleNotification(length);
      case GattDisconnect(reason) => HandleDisconnect(reason);
    }

    method HandleGapEvent(e: Event)
      requires Valid()
      requires e.AuthComplete? || e.SecurityReq? || e.NumericComparison? || e.GapLogged?
      modifies this, pairingStall
      ensures Valid() && Took(e)
    {
      match e
      case AuthComplete(addr, success, failReason, peer) => HandleAuthComplete(addr, success, failReason, peer);
      case SecurityReq(addr) => HandleSecurityRequest(addr);
      case NumericComparison(addr) => HandleNumericComparison(addr);
      case GapLogged(addr) =>
    }
  }
}
