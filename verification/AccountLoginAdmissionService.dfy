// Who may hold an account (Server/Service/AccountLoginAdmissionService.cpp).

module AccountLoginAdmissionService {
  import opened GameIds
  import opened SessionToken
  import opened AuthenticatedAccountRegistry
  import opened PeerRoomManager
  import opened Wrappers

  datatype Request = Request(
    endpointKey: EndpointKey,
    accountId: int,
    persistentPlayerId: PersistentPlayerId,
    nickname: string,
    currentTime: int)

  datatype Status = Authenticated | ExistingSession | AlreadyLoggedIn | RegistrationFailed | TokenGenerationFailed

  datatype Result = Result(status: Status, sessionToken: SessionToken)

  function Refused(status: Status): Result {
    Result(status, INVALID_SESSION_TOKEN)
  }

  function AccountOf(request: Request, token: SessionToken): AuthenticatedAccount {
    AuthenticatedAccount(request.accountId, request.persistentPlayerId, token, request.nickname, request.currentTime)
  }

  /** The registry and the answer after a login, given the token drawn for it, if any, and the endpoint
      under which the registry happens to find the account, if any. */
  ghost function Applied(
      request: Request, token: Option<SessionToken>, found: Option<EndpointKey>, accounts: AccountTable, t: PeerTables)
    : (AccountTable, Result)
  {
    var e := request.endpointKey;
    if request.accountId <= 0 || request.persistentPlayerId.value <= 0 || request.nickname == "" then (accounts, Refused(RegistrationFailed))
    else if IsJoinedPeer(t, e) then
      var peer := t.peers[e];
      if peer.accountId != request.accountId then (accounts, Refused(AlreadyLoggedIn))
      else if !IsValidSessionToken(peer.sessionToken) || peer.persistentPlayerId != request.persistentPlayerId
      then (accounts, Refused(RegistrationFailed))
      else (accounts - {e}, Result(ExistingSession, peer.sessionToken))
    else if HasJoinedAccount(t, request.accountId) then (accounts, Refused(AlreadyLoggedIn))
    else if found.Some? && found.value != e then (accounts, Refused(AlreadyLoggedIn))
    else if e in accounts && accounts[e].accountId != request.accountId then (accounts, Refused(AlreadyLoggedIn))
    else if e in accounts && accounts[e].persistentPlayerId != request.persistentPlayerId then (accounts, Refused(RegistrationFailed))
    else if token.None? then (accounts, Refused(TokenGenerationFailed))
    else if !IsRegistrable(AccountOf(request, token.value)) then (accounts, Refused(RegistrationFailed))
    else (accounts[e := AccountOf(request, token.value)], Result(Authenticated, token.value))
  }

  // One owner per account.

  /** Persistent player ids are one-to-one with accounts. */
  type Directory = int -> PersistentPlayerId

  ghost predicate IsOneToOne(directory: Directory) {
    forall a, b :: a != b ==> directory(a) != directory(b)
  }

  predicate IsIdentified(
      directory: Directory, accountId: int, persistentPlayerId: PersistentPlayerId, token: SessionToken, nickname: string) {
    && accountId > 0 && persistentPlayerId.value > 0 && persistentPlayerId == directory(accountId)
    && IsValidSessionToken(token) && nickname != ""
  }

  /** No account is held twice: not by two peers, nor by two logins waiting to join, nor by one of each. */
  ghost predicate HasOneOwner(t: PeerTables, accounts: AccountTable, directory: Directory) {
    && (forall e :: e in t.peers ==>
          IsIdentified(directory, t.peers[e].accountId, t.peers[e].persistentPlayerId, t.peers[e].sessionToken, t.peers[e].nickname))
    && (forall e :: e in accounts ==>
          IsIdentified(directory, accounts[e].accountId, accounts[e].persistentPlayerId, accounts[e].sessionToken, accounts[e].nickname))
    && (forall e, f :: e in t.peers && f in t.peers && e != f ==> t.peers[e].accountId != t.peers[f].accountId)
    && (forall e, f :: e in accounts && f in accounts && e != f ==> accounts[e].accountId != accounts[f].accountId)
    && forall e, f :: e in t.peers && f in accounts ==> t.peers[e].accountId != accounts[f].accountId
  }

  /** Distinct peers have distinct persistent player ids. */
  lemma PeersHaveDistinctIds(t: PeerTables, accounts: AccountTable, directory: Directory, e: EndpointKey, f: EndpointKey)
    requires HasOneOwner(t, accounts, directory) && IsOneToOne(directory)
    requires e in t.peers && f in t.peers && e != f
    ensures t.peers[e].persistentPlayerId != t.peers[f].persistentPlayerId
  {
    assert t.peers[e].accountId != t.peers[f].accountId;
  }

  lemma AdmissionKeepsOneOwner(
      request: Request, token: Option<SessionToken>, found: Option<EndpointKey>, accounts: AccountTable, t: PeerTables, directory: Directory)
    requires HasOneOwner(t, accounts, directory) && TablesAgree(t)
    requires IsEndpointOf(accounts, request.accountId, found) && request.persistentPlayerId == directory(request.accountId)
    ensures HasOneOwner(t, Applied(request, token, found, accounts, t).0, directory)
  {
    var after, e := Applied(request, token, found, accounts, t).0, request.endpointKey;
    if Applied(request, token, found, accounts, t).1.status == Authenticated {
      forall f | f in accounts && f != e
        ensures accounts[f].accountId != request.accountId
      {
      }
      forall f | f in t.peers
        ensures t.peers[f].accountId != request.accountId
      {
        assert IsJoinedPeer(t, f);
      }
    }
  }

  /** A login is answered with a token only to the sole holder of the account: afterwards either the registry holds
      the account under the request's endpoint and no peer does, or the endpoint's own peer holds it and the registry does not. */
  lemma AdmittedIsSoleOwner(
      request: Request, token: Option<SessionToken>, found: Option<EndpointKey>, accounts: AccountTable, t: PeerTables, directory: Directory)
    requires HasOneOwner(t, accounts, directory) && TablesAgree(t)
    requires IsEndpointOf(accounts, request.accountId, found) && request.persistentPlayerId == directory(request.accountId)
    ensures var (after, result) := Applied(request, token, found, accounts, t);
            && (IsValidSessionToken(result.sessionToken) <==> result.status == Authenticated || result.status == ExistingSession)
            && (result.status == Authenticated ==>
                  && request.endpointKey in after && after[request.endpointKey].accountId == request.accountId
                  && forall e :: e in t.peers ==> t.peers[e].accountId != request.accountId)
            && (result.status == ExistingSession ==>
                  && request.endpointKey in t.peers && t.peers[request.endpointKey].accountId == request.accountId
                  && forall e :: e in after ==> after[e].accountId != request.accountId)
  {
    AdmissionKeepsOneOwner(request, token, found, accounts, t, directory);
    forall f | f in t.peers
      ensures IsJoinedPeer(t, f)
    {
    }
  }

  predicate IsComplete(request: Request) {
    request.accountId > 0 && request.persistentPlayerId.value > 0 && request.nickname != ""
  }

  /** Who is let in: a complete login to an account that no peer and no login waiting elsewhere holds, from an endpoint that neither has a
      peer nor waits for another account, if a valid token could be drawn; and a peer logging in again to its own account. */
  lemma LoginIsAnsweredExactly(
      request: Request, token: Option<SessionToken>, found: Option<EndpointKey>, accounts: AccountTable, t: PeerTables, directory: Directory)
    requires HasOneOwner(t, accounts, directory) && TablesAgree(t)
    requires IsEndpointOf(accounts, request.accountId, found) && request.persistentPlayerId == directory(request.accountId)
    ensures var (after, result), e, id := Applied(request, token, found, accounts, t), request.endpointKey, request.accountId;
            && (result.status == Authenticated <==>
                  && IsComplete(request) && token.Some? && IsValidSessionToken(token.value)
                  && e !in t.peers && (e in accounts ==> accounts[e].accountId == id)
                  && (forall f :: f in t.peers ==> t.peers[f].accountId != id)
                  && forall f :: f in accounts && f != e ==> accounts[f].accountId != id)
            && (result.status == ExistingSession <==> IsComplete(request) && e in t.peers && t.peers[e].accountId == id)
            && match result.status
               case Authenticated =>
                 && token.Some? && result.sessionToken == token.value
                 && after == accounts[e := AuthenticatedAccount(id, request.persistentPlayerId, token.value, request.nickname, request.currentTime)]
               case ExistingSession => e in t.peers && result.sessionToken == t.peers[e].sessionToken && after == accounts - {e}
               case _ => result.sessionToken == INVALID_SESSION_TOKEN && after == accounts
  {
    forall f | f in t.peers
      ensures IsJoinedPeer(t, f)
    {
    }
  }
}
