/**
 * `get_token_ensure_refreshed` of src/api/client.rs: keep a token that has
 * not expired; otherwise refetch it with the app's credentials, write the
 * token cache and upsert the user's stored token, and hand back a client
 * holding the token in use together with that token.
 */
module ApiClient {
  import opened Common
  import opened Errors
  import opened Remote
  import opened Tokens

  /**
   * src/api/client.rs:47-76. `refetch` and `cacheWrite` are what the token
   * endpoint and the token cache answer; `json` is the token's serialisation.
   */
  method GetTokenEnsureRefreshed(userId: string, token: Token, account: Spotify, users: UserStore,
                                 refetch: Result<Option<Token>, ClientError>,
                                 cacheWrite: Result<(), ClientError>, json: Token -> string)
    returns (r: Result<(SpotifyClient, Token), Error>)
    modifies users
    ensures var outcome := RefreshOutcome(token.expired, refetch, cacheWrite, users.fault);
      && (outcome.Err? ==> r == Err(outcome.error) && users.tokens == old(users.tokens))
      && (outcome == Ok(None) ==>
            && r.Ok? && r.value.1 == token && fresh(r.value.0)
            && r.value.0.kind == FromToken && r.value.0.token == Some(token) && r.value.0.account == account
            && users.tokens == old(users.tokens))
      && (outcome.Ok? && outcome.value.Some? ==>
            && r.Ok? && r.value.1 == outcome.value.value && fresh(r.value.0)
            && r.value.0.kind == OAuthApp && r.value.0.token == outcome.value && r.value.0.account == account
            && users.tokens == old(users.tokens)[userId := json(outcome.value.value)])
  {
    var current := token;
    var client := new SpotifyClient(FromToken, Some(current), account);
    if current.expired {
      client := new SpotifyClient(OAuthApp, None, account);
      client.token := Some(current);
      if refetch.Err? {
        return Err(Client(refetch.error));
      }
      if refetch.value.None? {
        return Err(Anyhow(CouldNotRefetch));
      }
      current := refetch.value.value;
      client.token := Some(current);
      if cacheWrite.Err? {
        return Err(Client(cacheWrite.error));
      }
      var stored := users.UpsertUserToken(userId, json(current));
      if stored.Err? {
        return Err(stored.error);
      }
    }
    r := Ok((client, current));
  }
}
