/**
 * What the two token-refresh helpers (src/api/client.rs, src/util/client.rs)
 * share: the OAuth token as far as the core inspects it, the Spotify client
 * handle with its token cell, the `users` table that stores each user's
 * serialised token, and the decision of which token ends up in use.
 *
 * The token endpoint, the token cache file and the expiry clock belong to the
 * rspotify library: whether a token is expired is a field of the token, and
 * what the token endpoint and the cache write answer are parameters.
 */
module Tokens {
  import opened Common
  import opened Errors
  import opened Remote

  /** An rspotify `Token`; `expired` stands for what its `is_expired` answers. */
  datatype Token = Token(access: string, expired: bool)

  /** How a client was built: from a bare token, or with the app's OAuth credentials. */
  datatype ClientKind = FromToken | OAuthApp

  const CouldNotRefetch := "could not refetch token"

  /**
   * The result of a refresh-if-expired: `Ok(None)` when the token is kept,
   * `Ok(Some(t))` when `t` replaces it, or the error that ended the refresh.
   * The steps are: ask the token endpoint, write the token cache, store the
   * token for the user; `fault` is what the `users` table answers a write with.
   */
  function RefreshOutcome(expired: bool, refetch: Result<Option<Token>, ClientError>,
                          cacheWrite: Result<(), ClientError>, fault: Option<DbError>): (r: Result<Option<Token>, Error>)
    ensures r == Ok(None) <==> !expired
    ensures r.Ok? && r.value.Some? <==> expired && refetch.Ok? && refetch.value.Some? && cacheWrite.Ok? && fault.None?
    ensures r.Ok? && r.value.Some? ==> refetch == Ok(r.value)
    ensures expired && refetch == Ok(None) ==> r == Err(Anyhow(CouldNotRefetch))
    ensures expired && refetch.Ok? && refetch.value.Some? && cacheWrite.Err? ==> r == Err(Client(cacheWrite.error))
  {
    if !expired then Ok(None)
    else match refetch
      case Err(e) => Err(Client(e))
      case Ok(None) => Err(Anyhow(CouldNotRefetch))
      case Ok(Some(t)) =>
        match cacheWrite
        case Err(e) => Err(Client(e))
        case Ok(_) =>
          match fault
          case Some(f) => Err(Db(f))
          case None => Ok(Some(t))
  }

  /** An rspotify `AuthCodeSpotify`: how it was built, its token cell, and the account it acts on. */
  class SpotifyClient {
    const kind: ClientKind
    var token: Option<Token>
    const account: Spotify

    constructor(kind: ClientKind, token: Option<Token>, account: Spotify)
      ensures this.kind == kind && this.token == token && this.account == account
    {
      this.kind := kind;
      this.token := token;
      this.account := account;
    }
  }

  /**
   * The `users` table, keyed by user id and holding each user's serialised
   * token. A store whose `fault` is set answers every write with that error.
   */
  class UserStore {
    var tokens: map<string, string>
    const fault: Option<DbError>

    constructor(tokens: map<string, string>, fault: Option<DbError>)
      ensures this.tokens == tokens && this.fault == fault
    {
      this.tokens := tokens;
      this.fault := fault;
    }

    /** `upsert_user_token` (src/repo/user.rs:11-19): insert the row, or replace the user's token. */
    method UpsertUserToken(userId: string, token: string) returns (r: Result<(), Error>)
      modifies this
      ensures fault.Some? ==> r == Err(Db(fault.value)) && tokens == old(tokens)
      ensures fault.None? ==> r == Ok(()) && tokens == old(tokens)[userId := token]
    {
      if fault.Some? {
        return Err(Db(fault.value));
      }
      tokens := tokens[userId := token];
      r := Ok(());
    }

    /** `UPDATE users SET token = ? WHERE user_id = ?`: only an existing row changes. */
    method UpdateToken(userId: string, token: string) returns (r: Result<(), Error>)
      modifies this
      ensures fault.Some? ==> r == Err(Db(fault.value)) && tokens == old(tokens)
      ensures fault.None? ==> r == Ok(())
      ensures fault.None? && userId in old(tokens) ==> tokens == old(tokens)[userId := token]
      ensures fault.None? && userId !in old(tokens) ==> tokens == old(tokens)
    {
      if fault.Some? {
        return Err(Db(fault.value));
      }
      if userId in tokens {
        tokens := tokens[userId := token];
      }
      r := Ok(());
    }
  }
}
