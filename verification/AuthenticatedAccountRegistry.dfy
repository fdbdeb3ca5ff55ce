// Accounts that have logged in but not joined yet, by endpoint (Server/Service/AuthenticatedAccountRegistry.cpp).

module AuthenticatedAccountRegistry {
  import opened GameIds
  import opened SessionToken
  import opened Wrappers

  datatype AuthenticatedAccount = AuthenticatedAccount(
    accountId: int,
    persistentPlayerId: PersistentPlayerId,
    sessionToken: SessionToken,
    nickname: string,
    authenticatedTime: int)

  type AccountTable = map<EndpointKey, AuthenticatedAccount>

  predicate IsRegistrable(account: AuthenticatedAccount) {
    && account.accountId > 0 && account.persistentPlayerId.value > 0
    && IsValidSessionToken(account.sessionToken) && account.nickname != ""
  }

  function Registered(accounts: AccountTable, e: EndpointKey, account: AuthenticatedAccount): AccountTable {
    if IsRegistrable(account) then accounts[e := account] else accounts
  }

  function FoundWithToken(accounts: AccountTable, e: EndpointKey, token: SessionToken): Option<AuthenticatedAccount> {
    if e in accounts && accounts[e].sessionToken == token then Some(accounts[e]) else None
  }

  /** `found` is an endpoint holding the account, or none if there is none; which one is left to the hash table. */
  ghost predicate IsEndpointOf(accounts: AccountTable, accountId: int, found: Option<EndpointKey>) {
    match found
    case Some(e) => accountId > 0 && e in accounts && accounts[e].accountId == accountId
    case None => accountId <= 0 || forall e :: e in accounts ==> accounts[e].accountId != accountId
  }

  /** A timeout that is not positive expires nothing. */
  function WithoutExpired(accounts: AccountTable, now: int, timeout: int): AccountTable {
    if timeout <= 0 then accounts
    else map e | e in accounts && now - accounts[e].authenticatedTime < timeout :: accounts[e]
  }

  class AuthenticatedAccountRegistry {
    var accountTable: AccountTable

    constructor ()
      ensures accountTable == map[]
    {
      accountTable := map[];
    }

    method Upsert(
        endpointKey: EndpointKey, accountId: int, persistentPlayerId: PersistentPlayerId, sessionToken: SessionToken,
        nickname: string, authenticatedTime: int)
      returns (registered: bool)
      modifies this
      ensures var account := AuthenticatedAccount(accountId, persistentPlayerId, sessionToken, nickname, authenticatedTime);
              registered == IsRegistrable(account) && accountTable == Registered(old(accountTable), endpointKey, account)
    {
      if accountId <= 0 || persistentPlayerId.value <= 0 || !IsValidSessionToken(sessionToken) || nickname == "" {
        return false;
      }
      accountTable := accountTable[endpointKey := AuthenticatedAccount(accountId, persistentPlayerId, sessionToken, nickname, authenticatedTime)];
      return true;
    }

    method Find(endpointKey: EndpointKey, sessionToken: SessionToken) returns (account: Option<AuthenticatedAccount>)
      ensures account == FoundWithToken(accountTable, endpointKey, sessionToken)
    {
      if endpointKey !in accountTable || accountTable[endpointKey].sessionToken != sessionToken {
        return None;
      }
      return Some(accountTable[endpointKey]);
    }

    method FindEndpointByAccountId(accountId: int) returns (found: Option<EndpointKey>)
      ensures IsEndpointOf(accountTable, accountId, found)
    {
      if accountId <= 0 {
        return None;
      }
      var unvisited := accountTable.Keys;
      while unvisited != {}
        invariant unvisited <= accountTable.Keys
        invariant forall e :: e in accountTable && e !in unvisited ==> accountTable[e].accountId != accountId
        decreases unvisited
      {
        var endpointKey :| endpointKey in unvisited;
        if accountTable[endpointKey].accountId == accountId {
          return Some(endpointKey);
        }
        unvisited := unvisited - {endpointKey};
      }
      return None;
    }

    method Remove(endpointKey: EndpointKey) returns (removed: bool)
      modifies this
      ensures removed == (endpointKey in old(accountTable)) && accountTable == old(accountTable) - {endpointKey}
    {
      removed := endpointKey in accountTable;
      accountTable := accountTable - {endpointKey};
    }

    method RemoveExpired(currentTime: int, timeout: int) returns (removedCount: nat)
      modifies this
      ensures accountTable == WithoutExpired(old(accountTable), currentTime, timeout)
      ensures removedCount == |old(accountTable)| - |accountTable|
    {
      if timeout <= 0 {
        return 0;
      }
      removedCount := 0;
      var unvisited := accountTable.Keys;
      while unvisited != {}
        invariant forall e :: e in unvisited ==> e in accountTable
        invariant forall e :: e in accountTable ==> e in old(accountTable) && accountTable[e] == old(accountTable)[e]
        invariant forall e :: e in old(accountTable) && e !in unvisited ==>
                    (e in accountTable <==> currentTime - old(accountTable)[e].authenticatedTime < timeout)
        invariant removedCount == |old(accountTable)| - |accountTable|
        decreases unvisited
      {
        var endpointKey :| endpointKey in unvisited;
        unvisited := unvisited - {endpointKey};
        if currentTime - accountTable[endpointKey].authenticatedTime < timeout {
          continue;
        }
        assert (accountTable - {endpointKey}).Keys == accountTable.Keys - {endpointKey};
        accountTable := accountTable - {endpointKey};
        removedCount := removedCount + 1;
      }
      assert accountTable == WithoutExpired(old(accountTable), currentTime, timeout);
    }

    method Clear()
      modifies this
      ensures accountTable == map[]
    {
      accountTable := map[];
    }
  }
}
