/**
 * The user's Spotify account as the remote service sees it, and the calls the
 * core makes on it. The web API itself is not part of this model: each call
 * is specified by a pure function of the account state (its answer, and the
 * new state it leaves), and the class `Spotify` performs those calls one at a
 * time while logging them, so that the order of remote calls can be stated.
 *
 * Which calls fail is part of the state: `failures` names calls that the
 * service answers with an error (network errors, rate limits, ...), and
 * besides those a call on an unknown playlist answers 502, and a change to a
 * playlist the user may not edit answers 403.
 */
module Remote {
  import opened Common
  import opened Errors
  import opened PlaylistIds

  type TrackId = string

  /** What a playlist entry holds: a track (local files have no id) or a podcast episode. */
  datatype Playable = Track(id: Option<TrackId>) | Episode

  /** A playlist entry; the entry of a track that was taken down holds nothing. */
  datatype PlaylistItem = PlaylistItem(track: Option<Playable>)

  /** An entry of the user's Liked Tracks collection. */
  datatype SavedTrack = SavedTrack(id: Option<TrackId>)

  datatype Playlist = Playlist(owner: string, name: string, editable: bool, items: seq<PlaylistItem>)

  /** The playlist summary returned by a partial playlist fetch: owner id and name. */
  datatype PlaylistPartial = PlaylistPartial(owner: string, name: string)

  /** The remote calls the core makes. */
  datatype Op =
    | ReadSaved
    | ReadItems(playlist: PlaylistId)
    | ReadPartial(playlist: PlaylistId)
    | AddItems(playlist: PlaylistId, added: seq<TrackId>)
    | DeleteSaved(tracks: set<TrackId>)
    | RemoveOccurrences(playlist: PlaylistId, tracks: set<TrackId>)
    | UpdateName(playlist: PlaylistId, name: string)

  datatype Library = Library(
    saved: seq<SavedTrack>,
    playlists: map<PlaylistId, Playlist>,
    failures: map<Op, ClientError>)

  /** Status Spotify answers for a playlist that does not exist. */
  const MissingPlaylistStatus := 502
  /** Status Spotify answers for a change the user may not make. */
  const ForbiddenStatus := 403

  /** The track id of a playlist entry, if the entry is a track that has one. */
  function ItemTrackId(item: PlaylistItem): Option<TrackId> {
    match item.track
    case Some(Track(id)) => id
    case _ => None
  }

  /** The entry `playlist_add_items` appends for a track id. */
  function TrackItem(id: TrackId): PlaylistItem {
    PlaylistItem(Some(Track(Some(id))))
  }

  /** The entries appended for the ids `ids`, in the order given. */
  function TrackItems(ids: seq<TrackId>): (r: seq<PlaylistItem>)
    ensures |r| == |ids|
    ensures forall i :: 0 <= i < |ids| ==> r[i] == TrackItem(ids[i])
  {
    seq(|ids|, i requires 0 <= i < |ids| => TrackItem(ids[i]))
  }

  /** The saved tracks left after deleting the ids `ids`: tracks without an id stay. */
  function DropSaved(saved: seq<SavedTrack>, ids: set<TrackId>): (r: seq<SavedTrack>)
    ensures forall s :: s in r <==> s in saved && !(s.id.Some? && s.id.value in ids)
  {
    if saved == [] then []
    else
      var rest := DropSaved(saved[1..], ids);
      if saved[0].id.Some? && saved[0].id.value in ids then rest else [saved[0]] + rest
  }

  /** The entries left after removing every occurrence of the tracks `ids`. */
  function DropItems(items: seq<PlaylistItem>, ids: set<TrackId>): (r: seq<PlaylistItem>)
    ensures forall it :: it in r <==> it in items && !(ItemTrackId(it).Some? && ItemTrackId(it).value in ids)
  {
    if items == [] then []
    else
      var rest := DropItems(items[1..], ids);
      var id := ItemTrackId(items[0]);
      if id.Some? && id.value in ids then rest else [items[0]] + rest
  }

  /** The playlist a call is about, if any. */
  function Target(op: Op): Option<PlaylistId> {
    match op
    case ReadSaved => None
    case DeleteSaved(_) => None
    case ReadItems(p) => Some(p)
    case ReadPartial(p) => Some(p)
    case AddItems(p, _) => Some(p)
    case RemoveOccurrences(p, _) => Some(p)
    case UpdateName(p, _) => Some(p)
  }

  /** Calls that change a playlist. */
  predicate ChangesPlaylist(op: Op) {
    op.AddItems? || op.RemoveOccurrences? || op.UpdateName?
  }

  /** The error the service answers `op` with in state `l`, if any. */
  function Refusal(l: Library, op: Op): (r: Option<ClientError>)
    ensures r.None? ==> op !in l.failures
    ensures r.None? && Target(op).Some? ==> Target(op).value in l.playlists
    ensures r.None? && ChangesPlaylist(op) ==> l.playlists[Target(op).value].editable
  {
    if op in l.failures then Some(l.failures[op])
    else match Target(op)
      case None => None
      case Some(p) =>
        if p !in l.playlists then Some(ApiError(MissingPlaylistStatus, "Not found."))
        else if ChangesPlaylist(op) && !l.playlists[p].editable then Some(ApiError(ForbiddenStatus, "Forbidden."))
        else None
  }

  /** The state after the service carries out `op`, which it does not refuse. */
  function Apply(l: Library, op: Op): Library
    requires Refusal(l, op).None?
  {
    match op
    case ReadSaved => l
    case ReadItems(_) => l
    case ReadPartial(_) => l
    case AddItems(p, ids) =>
      l.(playlists := l.playlists[p := l.playlists[p].(items := l.playlists[p].items + TrackItems(ids))])
    case DeleteSaved(ids) => l.(saved := DropSaved(l.saved, ids))
    case RemoveOccurrences(p, ids) =>
      l.(playlists := l.playlists[p := l.playlists[p].(items := DropItems(l.playlists[p].items, ids))])
    case UpdateName(p, name) =>
      l.(playlists := l.playlists[p := l.playlists[p].(name := name)])
  }

  /** The state after `op` is sent: a refused call changes nothing. */
  function Next(l: Library, op: Op): Library {
    if Refusal(l, op).None? then Apply(l, op) else l
  }

  /** The answer to a call that returns nothing but success or an error. */
  function Ack(l: Library, op: Op): Result<(), ClientError> {
    match Refusal(l, op)
    case None => Ok(())
    case Some(e) => Err(e)
  }

  /** Answer to fetching the saved tracks (all pages). */
  function SavedTracks(l: Library): Result<seq<SavedTrack>, ClientError> {
    match Refusal(l, ReadSaved)
    case None => Ok(l.saved)
    case Some(e) => Err(e)
  }

  /** Answer to fetching a playlist's entries (all pages). */
  function Items(l: Library, p: PlaylistId): Result<seq<PlaylistItem>, ClientError> {
    match Refusal(l, ReadItems(p))
    case None => Ok(l.playlists[p].items)
    case Some(e) => Err(e)
  }

  /** Answer to fetching a playlist's summary. */
  function Partial(l: Library, p: PlaylistId): Result<PlaylistPartial, ClientError> {
    match Refusal(l, ReadPartial(p))
    case None => Ok(PlaylistPartial(l.playlists[p].owner, l.playlists[p].name))
    case Some(e) => Err(e)
  }

  /** Reading never changes the account. */
  lemma ReadsChangeNothing(l: Library, op: Op)
    requires op.ReadSaved? || op.ReadItems? || op.ReadPartial?
    ensures Next(l, op) == l
  {
  }

  /** The playlists a call may change: the one it is about, if any. */
  function Touched(op: Op): set<PlaylistId> {
    if Target(op).Some? then {Target(op).value} else {}
  }

  /** `after` has the playlists of `before`, and those outside `touched` are as they were. */
  predicate Untouched(before: Library, after: Library, touched: set<PlaylistId>) {
    && after.playlists.Keys == before.playlists.Keys
    && forall p :: p in before.playlists && p !in touched ==> after.playlists[p] == before.playlists[p]
  }

  /** A call creates and deletes no playlist and changes none but the one it is about. */
  lemma NextKeepsOthers(l: Library, op: Op)
    ensures Untouched(l, Next(l, op), Touched(op))
  {
  }

  /** Leaving playlists alone composes over consecutive changes. */
  lemma {:induction false} UntouchedTrans(a: Library, b: Library, c: Library, s: set<PlaylistId>, t: set<PlaylistId>)
    requires Untouched(a, b, s) && Untouched(b, c, t)
    ensures Untouched(a, c, s + t)
  {
    forall p | p in a.playlists && p !in s + t ensures c.playlists[p] == a.playlists[p] {
      assert b.playlists[p] == a.playlists[p];
    }
  }

  /**
   * Renaming a playlist to the name it already has leaves the account as it
   * was, whether or not the service refuses the call.
   */
  lemma SameNameChangesNothing(l: Library, p: PlaylistId)
    requires p in l.playlists
    ensures Next(l, UpdateName(p, l.playlists[p].name)) == l
  {
    var op := UpdateName(p, l.playlists[p].name);
    if Refusal(l, op).None? {
      assert l.playlists[p := l.playlists[p].(name := l.playlists[p].name)] == l.playlists;
    }
  }

  /**
   * The remote service as the core's clients see it: every call answers
   * according to the state, changes the state as `Next` says, and is logged.
   */
  class Spotify {
    var library: Library
    var calls: seq<Op>

    constructor(l: Library)
      ensures library == l && calls == []
    {
      library := l;
      calls := [];
    }

    /** `current_user_saved_tracks`, all pages collected. */
    method CurrentUserSavedTracks() returns (r: Result<seq<SavedTrack>, ClientError>)
      modifies this
      ensures r == SavedTracks(old(library))
      ensures library == old(library) && calls == old(calls) + [ReadSaved]
    {
      r := SavedTracks(library);
      calls := calls + [ReadSaved];
    }

    /** `playlist_items`, all pages collected. */
    method PlaylistItems(p: PlaylistId) returns (r: Result<seq<PlaylistItem>, ClientError>)
      modifies this
      ensures r == Items(old(library), p)
      ensures library == old(library) && calls == old(calls) + [ReadItems(p)]
    {
      r := Items(library, p);
      calls := calls + [ReadItems(p)];
    }

    /** `playlist_partial`: the playlist's owner and name. */
    method PlaylistPartialOf(p: PlaylistId) returns (r: Result<PlaylistPartial, ClientError>)
      modifies this
      ensures r == Partial(old(library), p)
      ensures library == old(library) && calls == old(calls) + [ReadPartial(p)]
    {
      r := Partial(library, p);
      calls := calls + [ReadPartial(p)];
    }

    /** Any call that answers only success or an error. */
    method Send(op: Op) returns (r: Result<(), ClientError>)
      modifies this
      ensures r == Ack(old(library), op)
      ensures library == Next(old(library), op) && calls == old(calls) + [op]
    {
      r := Ack(library, op);
      library := Next(library, op);
      calls := calls + [op];
    }
  }
}
