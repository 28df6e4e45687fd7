/** Which failure reason may be held over the routine disconnects of a reconnect loop
(components/alpha_hwr/failure_hold.h), and how a subscribe step can fail
(components/alpha_hwr/subscribe_outcome.h).
*/
module FailureHold {
  // In the order of declaration, which is the rank.
  datatype Hold = NONE | READY | DATA | PAIRING_STALL | SUBSCRIBE | AUTH

  function Rank(h: Hold): nat {
    match h
    case NONE => 0
    case READY => 1
    case DATA => 2
    case PAIRING_STALL => 3
    case SUBSCRIBE => 4
    case AUTH => 5
  }

  predicate Admits(held: Hold, incoming: Hold) {
    Rank(held) <= Rank(incoming)
  }

  /** A reason that names a cause outranks one that names a symptom, and one that was seen
  happen outranks one that was inferred. */
  const BY_GRAVITY: seq<Hold> := [NONE, READY, DATA, PAIRING_STALL, SUBSCRIBE, AUTH]

  lemma AdmitsByGravity(i: nat, j: nat)
    requires i < 6 && j < 6
    ensures Admits(BY_GRAVITY[i], BY_GRAVITY[j]) <==> i <= j
  {}

  predicate ReleasedByData(h: Hold) {
    h.DATA? || h.PAIRING_STALL? || h.SUBSCRIBE?
  }

  predicate ReleasedByAuth(h: Hold) {
    h.PAIRING_STALL? || h.AUTH?
  }

  predicate ReleasedByPumpReady(h: Hold) {
    h.READY?
  }

  predicate ReleasedBySessionReady(h: Hold) {
    h.PAIRING_STALL? || h.AUTH?
  }

  datatype Outcome = OK | NO_CLIENT | NO_SERVICE | NO_CHARACTERISTIC | REGISTER_FAILED | CCCD_WRITE_FAILED

  // The outcomes that leave the session short of ready, which are also those that hold.
  predicate Blocks(o: Outcome) {
    o.NO_CLIENT? || o.NO_SERVICE? || o.NO_CHARACTERISTIC? || o.REGISTER_FAILED?
  }

  function OutcomeText(o: Outcome): (text: string)
    ensures text != "" && text[0] == 'S'
  {
    match o
    case OK => "Subscribe: ok"
    case NO_CLIENT => "Subscribe: no BLE client"
    case NO_SERVICE => "Subscribe: service not found"
    case NO_CHARACTERISTIC => "Subscribe: characteristic not found"
    case REGISTER_FAILED => "Subscribe: register-for-notify failed"
    case CCCD_WRITE_FAILED => "Subscribe: CCCD write failed"
  }
}
