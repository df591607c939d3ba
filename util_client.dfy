/**
 * The older `get_token_ensure_refreshed` of src/util/client.rs: the same
 * refresh-if-expired, except that expiry is read from the client's token
 * cell, the stored token is changed with an UPDATE (which never creates a
 * user row), and only the client is returned.
 */
module UtilClient {
  import opened Common
  import opened Errors
  import opened Remote
  import opened Tokens

  /** Whether a client's token cell holds an expired token; an empty cell counts as not expired. */
  function IsExpired(cell: Option<Token>): (r: bool)
    ensures cell.None? ==> !r
    ensures cell.Some? ==> r == cell.value.expired
  {
    match cell
    case None => false
    case Some(t) => t.expired
  }

  /**
   * src/util/client.rs:47-87. `refetch` and `cacheWrite` are what the token
   * endpoint and the token cache answer; `json` is the token's serialisation.
   */
  method GetTokenEnsureRefreshed(userId: string, token: Token, account: Spotify, users: UserStore,
                                 refetch: Result<Option<Token>, ClientError>,
                                 cacheWrite: Result<(), ClientError>, json: Token -> string)
    returns (r: Result<SpotifyClient, Error>)
    modifies users
    ensures var outcome := RefreshOutcome(token.expired, refetch, cacheWrite, users.fault);
      && (outcome.Err? ==> r == Err(outcome.error) && users.tokens == old(users.tokens))
      && (outcome == Ok(None) ==>
            && r.Ok? && fresh(r.value)
            && r.value.kind == FromToken && r.value.token == Some(token) && r.value.account == account
            && users.tokens == old(users.tokens))
      && (outcome.Ok? && outcome.value.Some? ==>
            && r.Ok? && fresh(r.value)
            && r.value.kind == OAuthApp && r.value.token == outcome.value && r.value.account == account
            && users.tokens == (if userId in old(users.tokens)
                                then old(users.tokens)[userId := json(outcome.value.value)]
                                else old(users.tokens)))
  {
    var client := new SpotifyClient(FromToken, Some(token), account);
    var isExpired := IsExpired(client.token);
    if isExpired {
      client := new SpotifyClient(OAuthApp, None, account);
      client.token := Some(token);
      if refetch.Err? {
        return Err(Client(refetch.error));
      }
      if refetch.value.None? {
        return Err(Anyhow(CouldNotRefetch));
      }
      var refreshed := refetch.value.value;
      client.token := Some(refreshed);
      if cacheWrite.Err? {
        return Err(Client(cacheWrite.error));
      }
      var written := users.UpdateToken(userId, json(refreshed));
      if written.Err? {
        return Err(written.error);
      }
    }
    r := Ok(client);
  }
}
