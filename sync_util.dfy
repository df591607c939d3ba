/**
 * `sync_user_playlist` of src/sync/util.rs, the older copy of a user's
 * Liked Tracks into a playlist: refresh the token, parse the playlist id,
 * then the same read, diff, insert and delete steps as a transfer from the
 * Liked Tracks collection. It is proved to have exactly the effect of
 * `Transfer.Run` from `Saved` to the parsed playlist, once the refresh and
 * the parse have succeeded, and to touch the account not at all otherwise.
 */
module SyncUtil {
  import opened Common
  import opened Errors
  import opened PlaylistIds
  import opened Remote
  import opened Tokens
  import UtilClient
  import opened Transfer

  /**
   * src/sync/util.rs:11-70. The refresh inputs are those of
   * `UtilClient.GetTokenEnsureRefreshed`; `fromIdOrUri` is rspotify's
   * playlist id parser.
   */
  method SyncUserPlaylist(userId: string, playlistId: string, token: Token, account: Spotify, users: UserStore,
                          refetch: Result<Option<Token>, ClientError>, cacheWrite: Result<(), ClientError>,
                          json: Token -> string, fromIdOrUri: string -> Result<PlaylistId, Error>)
    returns (r: Result<bool, Error>, ghost inserted: seq<TrackId>)
    modifies users, account
    ensures var refresh := RefreshOutcome(token.expired, refetch, cacheWrite, users.fault);
      users.tokens ==
        if refresh.Ok? && refresh.value.Some? && userId in old(users.tokens)
        then old(users.tokens)[userId := json(refresh.value.value)]
        else old(users.tokens)
    ensures var refresh := RefreshOutcome(token.expired, refetch, cacheWrite, users.fault);
      && (refresh.Err? ==>
            r == Err(refresh.error) && account.library == old(account.library) && account.calls == old(account.calls))
      && (refresh.Ok? && fromIdOrUri(playlistId).Err? ==>
            && r == Err(fromIdOrUri(playlistId).error)
            && account.library == old(account.library) && account.calls == old(account.calls))
      && (refresh.Ok? && fromIdOrUri(playlistId).Ok? ==>
            var to := WithId(fromIdOrUri(playlistId).value);
            && Enumerates(inserted, Pending(old(account.library), Saved, to))
            && var o := Run(old(account.library), Saved, to, inserted);
               r == o.result && account.library == o.library && account.calls == old(account.calls) + o.calls)
  {
    inserted := [];
    var refreshed := UtilClient.GetTokenEnsureRefreshed(userId, token, account, users, refetch, cacheWrite, json);
    if refreshed.Err? {
      return Err(refreshed.error), inserted;
    }
    var client := refreshed.value;
    var parsed := fromIdOrUri(playlistId);
    if parsed.Err? {
      return Err(parsed.error), inserted;
    }
    r, inserted := CopySavedInto(client.account, parsed.value);
  }

  /**
   * src/sync/util.rs:22-69: the read, diff, insert and delete steps once the
   * client and the target playlist are known.
   */
  method CopySavedInto(account: Spotify, target: PlaylistId) returns (r: Result<bool, Error>, ghost inserted: seq<TrackId>)
    modifies account
    ensures Enumerates(inserted, Pending(old(account.library), Saved, WithId(target)))
    ensures var o := Run(old(account.library), Saved, WithId(target), inserted);
      r == o.result && account.library == o.library && account.calls == old(account.calls) + o.calls
  {
    ghost var l0 := account.library;
    ghost var c0 := account.calls;
    inserted := [];
    ghost var to := WithId(target);

    var saved := account.CurrentUserSavedTracks();
    if saved.Err? {
      return Err(Client(saved.error)), inserted;
    }
    var savedTrackIds := SavedTrackIds(saved.value);
    if savedTrackIds == {} {
      return Ok(false), inserted;
    }

    var items := account.PlaylistItems(target);
    if items.Err? {
      return Err(Client(items.error)), inserted;
    }
    var playlistTrackIds := PlaylistTrackIds(items.value);

    var idsToInsert := CollectIds(savedTrackIds - playlistTrackIds);
    EnumeratesEmpty(idsToInsert, savedTrackIds - playlistTrackIds);
    inserted := idsToInsert;
    ghost var done := [ReadSaved, ReadItems(target)];
    assert account.calls == c0 + done;
    assert Run(l0, Saved, to, inserted) == Copy(l0, Saved, target, savedTrackIds, inserted);
    if idsToInsert != [] {
      assert Run(l0, Saved, to, inserted) == Insert(l0, Saved, target, savedTrackIds, inserted, done);
      var added := account.Send(AddItems(target, idsToInsert));
      if added.Err? {
        return Err(Client(added.error)), inserted;
      }
      done := done + [AddItems(target, idsToInsert)];
      assert account.calls == c0 + done;
    }

    var deleted := account.Send(DeleteSaved(savedTrackIds));
    if deleted.Err? {
      return Err(Client(deleted.error)), inserted;
    }
    r := Ok(true);
  }
}
