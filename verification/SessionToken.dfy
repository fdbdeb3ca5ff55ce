// Session tokens (Common/Net/SessionToken.h) and endpoints (Common/Net/EndpointKey.h).

module SessionToken {
  datatype SessionToken = SessionToken(high: nat, low: nat)

  const INVALID_SESSION_TOKEN := SessionToken(0, 0)

  predicate IsValidSessionToken(token: SessionToken) {
    token != INVALID_SESSION_TOKEN
  }

  /** An IPv4 address and a port. */
  datatype EndpointKey = EndpointKey(address: nat, port: nat)
}
