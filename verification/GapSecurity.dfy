/** Whose security traffic this is, and what to answer
(components/alpha_hwr/gap_security_policy.h). GAP events reach every BLE client on the
node, so each one is compared with the configured peer first.
*/
module GapSecurity {
  import opened Numbers

  const BD_ADDR_LEN: nat := 6

  type Address = a: seq<byte> | |a| == BD_ADDR_LEN witness seq(BD_ADDR_LEN, _ => 0)

  // How "no peer configured" is spelled.
  const UNSET: Address := [0, 0, 0, 0, 0, 0]

  predicate Matches(event: Address, peer: Address) {
    peer != UNSET && event == peer
  }

  method AddrIsSet(addr: array?<byte>) returns (isSet: bool)
    requires addr != null ==> addr.Length == BD_ADDR_LEN
    ensures isSet <==> addr != null && addr[..] != UNSET
  {
    if addr == null {
      return false;
    }
    for i := 0 to BD_ADDR_LEN
      invariant forall k :: 0 <= k < i ==> addr[k] == 0
    {
      if addr[i] != 0 {
        assert addr[..][i] != UNSET[i];
        return true;
      }
    }
    return false;
  }

  method AddrMatches(eventAddr: array?<byte>, peerAddr: array?<byte>) returns (same: bool)
    requires eventAddr != null ==> eventAddr.Length == BD_ADDR_LEN
    requires peerAddr != null ==> peerAddr.Length == BD_ADDR_LEN
    ensures same <==> eventAddr != null && peerAddr != null && peerAddr[..] != [0, 0, 0, 0, 0, 0] &&
                      eventAddr[..] == peerAddr[..]
    ensures same <==> eventAddr != null && peerAddr != null && Matches(eventAddr[..], peerAddr[..])
  {
    var isSet := AddrIsSet(peerAddr);
    if !isSet || eventAddr == null {
      return false;
    }
    for i := 0 to BD_ADDR_LEN
      invariant forall k :: 0 <= k < i ==> eventAddr[k] == peerAddr[k]
    {
      if eventAddr[i] != peerAddr[i] {
        assert eventAddr[..][i] != peerAddr[..][i];
        return false;
      }
    }
    assert eventAddr[..] == peerAddr[..];
    return true;
  }

  datatype Action = ACCEPT | DECLINE | IGNORE

  function Answer(addrIsOurs: bool, pairingEnabled: bool): Action {
    if !addrIsOurs then IGNORE else if pairingEnabled then ACCEPT else DECLINE
  }
}
