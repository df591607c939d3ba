/**
 * The playlist helpers of src/api/util.rs: fetching the summaries of several
 * playlists in order, and probing whether the user may edit a playlist by
 * renaming it to its own name.
 */
module ApiUtil {
  import opened Common
  import opened Errors
  import opened PlaylistIds
  import opened Remote

  /** The summary fetches for `ids`, in order. */
  function PartialReads(ids: seq<PlaylistId>): (r: seq<Op>)
    ensures |r| == |ids|
    ensures forall k :: 0 <= k < |ids| ==> r[k] == ReadPartial(ids[k])
  {
    seq(|ids|, k requires 0 <= k < |ids| => ReadPartial(ids[k]))
  }

  /** `ids[i]` is the first id whose summary the service refuses. */
  predicate FirstFailure(l: Library, ids: seq<PlaylistId>, i: int) {
    && 0 <= i < |ids|
    && Partial(l, ids[i]).Err?
    && forall k :: 0 <= k < i ==> Partial(l, ids[k]).Ok?
  }

  /**
   * `get_playlists_by_ids` (src/api/util.rs:11-25): one summary per id, in
   * the order of `ids`; the first refused fetch ends the loop with its error.
   */
  method GetPlaylistsByIds(client: Spotify, ids: seq<PlaylistId>) returns (r: Result<seq<PlaylistPartial>, ClientError>)
    modifies client
    ensures client.library == old(client.library)
    ensures r.Ok? <==> forall k :: 0 <= k < |ids| ==> Partial(old(client.library), ids[k]).Ok?
    ensures r.Ok? ==> |r.value| == |ids|
    ensures r.Ok? ==> forall k :: 0 <= k < |ids| ==> r.value[k] == Partial(old(client.library), ids[k]).value
    ensures r.Ok? ==> client.calls == old(client.calls) + PartialReads(ids)
    ensures r.Err? ==> exists i :: FirstFailure(old(client.library), ids, i)
                                  && r.error == Partial(old(client.library), ids[i]).error
                                  && client.calls == old(client.calls) + PartialReads(ids[..i + 1])
  {
    ghost var l := client.library;
    var playlists := [];
    var i := 0;
    while i < |ids|
      invariant 0 <= i <= |ids|
      invariant client.library == l
      invariant forall k :: 0 <= k < i ==> Partial(l, ids[k]).Ok?
      invariant |playlists| == i
      invariant forall k :: 0 <= k < i ==> playlists[k] == Partial(l, ids[k]).value
      invariant client.calls == old(client.calls) + PartialReads(ids[..i])
    {
      var playlist := client.PlaylistPartialOf(ids[i]);
      assert PartialReads(ids[..i + 1]) == PartialReads(ids[..i]) + [ReadPartial(ids[i])];
      if playlist.Err? {
        assert FirstFailure(l, ids, i);
        return Err(playlist.error);
      }
      playlists := playlists + [playlist.value];
      i := i + 1;
    }
    assert ids[..i] == ids;
    r := Ok(playlists);
  }

  /**
   * The decision of `check_playlist_editable` (src/api/util.rs:28-53) from
   * the answers it gets: the summary fetch, and the rename to the same name.
   */
  function EditableDecision(fetched: Result<PlaylistPartial, ClientError>, userId: string,
                            rename: Result<(), ClientError>): (r: Result<bool, ClientError>)
    ensures fetched.Err? ==> r == Err(fetched.error)
    ensures fetched.Ok? && fetched.value.owner == userId ==> r == Ok(true)
    ensures fetched.Ok? && fetched.value.owner != userId ==>
      && (r == Ok(true) <==> rename.Ok?)
      && (r == Ok(false) <==> rename.Err? && rename.error.ApiError? && rename.error.status == ForbiddenStatus)
      && (r.Err? ==> rename.Err? && r.error == rename.error)
  {
    match fetched
    case Err(e) => Err(e)
    case Ok(playlist) =>
      if playlist.owner == userId then Ok(true)
      else match rename
        case Ok(_) => Ok(true)
        case Err(ApiError(status, _)) =>
          if status == ForbiddenStatus then Ok(false) else Err(rename.error)
        case Err(e) => Err(e)
  }

  /** The outcome of the editability probe against the account state `l`. */
  function Probe(l: Library, id: PlaylistId, userId: string): Result<bool, ClientError> {
    match Partial(l, id)
    case Err(e) => Err(e)
    case Ok(playlist) => EditableDecision(Ok(playlist), userId, Ack(l, UpdateName(id, playlist.name)))
  }

  /** The calls the probe makes: the rename is sent only for a playlist the user does not own. */
  function ProbeCalls(l: Library, id: PlaylistId, userId: string): seq<Op> {
    match Partial(l, id)
    case Err(_) => [ReadPartial(id)]
    case Ok(playlist) =>
      if playlist.owner == userId then [ReadPartial(id)] else [ReadPartial(id), UpdateName(id, playlist.name)]
  }

  /**
   * `check_playlist_editable` (src/api/util.rs:28-53). The probe renames the
   * playlist to the name it already has, so the account is left as it was.
   */
  method CheckPlaylistEditable(client: Spotify, id: PlaylistId, userId: string) returns (r: Result<bool, ClientError>)
    modifies client
    ensures r == Probe(old(client.library), id, userId)
    ensures client.library == old(client.library)
    ensures client.calls == old(client.calls) + ProbeCalls(old(client.library), id, userId)
  {
    var fetched := client.PlaylistPartialOf(id);
    if fetched.Err? {
      return Err(fetched.error);
    }
    var playlist := fetched.value;
    if playlist.owner == userId {
      return Ok(true);
    }
    SameNameChangesNothing(client.library, id);
    var res := client.Send(UpdateName(id, playlist.name));
    match res
    case Ok(_) =>
      r := Ok(true);
    case Err(ApiError(status, message)) =>
      if status == ForbiddenStatus {
        r := Ok(false);
      } else {
        return Err(res.error);
      }
    case Err(err) =>
      return Err(err);
  }

  /**
   * Against an account that refuses nothing else, the probe answers whether
   * the user owns the playlist or may edit it; for a playlist that does not
   * exist it answers the 502 the web layer reads as "does not exist".
   */
  lemma ProbeReflectsPermission(l: Library, id: PlaylistId, userId: string)
    requires l.failures == map[]
    ensures id in l.playlists ==> Probe(l, id, userId) == Ok(l.playlists[id].owner == userId || l.playlists[id].editable)
    ensures id !in l.playlists ==> Probe(l, id, userId).Err? && Probe(l, id, userId).error.ApiError?
                                   && Probe(l, id, userId).error.status == MissingPlaylistStatus
  {
    if id in l.playlists {
      var playlist := l.playlists[id];
      assert Partial(l, id) == Ok(PlaylistPartial(playlist.owner, playlist.name));
    }
  }
}
