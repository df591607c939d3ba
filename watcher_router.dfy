/**
 * The watcher handlers of the web layer (src/web/router/watcher.rs).
 *
 * Creating a watcher runs a chain of guards before the insert: the two
 * endpoints must decode and differ; no watcher of the same source (of any
 * user) may remove tracks, and a new watcher that removes tracks must be the
 * only one of its source; the user must be able to edit a playlist source they
 * want to empty. Each guard is a pure decision over the values the handler
 * has at that point, and together they keep the table's `SourceExclusive`
 * invariant: a source that a removal-enabled watcher empties has no other
 * watcher. Because the Liked Tracks collection is stored as the same value
 * `_liked` for every user, that holds across users.
 */
module WatcherRouter {
  import opened Common
  import opened Errors
  import opened PlaylistIds
  import opened Playlists
  import opened WatcherModel
  import opened WatcherRepo
  import opened Remote
  import opened ApiUtil

  const SamePlaylistMessage := "Cannot create watcher that transfers between the same playlist."
  const RemovalExistsMessage := "A watcher with track removal enabled already exists for this playlist."
  const WatcherExistsMessage :=
    "A watcher already exists for this playlist. Disable track removal or remove the other watcher."
  const NoPermissionMessage :=
    "You do not have permission to edit the source playlist. You must disable track removal."
  const MissingSourceMessage := "Source playlist does not exist."
  const DuplicateMessage := "Watcher already exists for these playlists."

  /** Status Spotify answers for a playlist that cannot be found (Bad Gateway). */
  const BadGateway := 502

  /**
   * Lines 52-59: decode both endpoints, and refuse a watcher whose source and
   * target are the same playlist, however their values were written.
   */
  function ParseEndpoints(playlistFrom: string, playlistTo: string): (r: Result<(PlaylistType, PlaylistType), WebError>)
    ensures r.Ok? <==> TryFromValue(playlistFrom).Ok? && TryFromValue(playlistTo).Ok?
                       && TryFromValue(playlistFrom) != TryFromValue(playlistTo)
    ensures r.Ok? ==> r.value == (TryFromValue(playlistFrom).value, TryFromValue(playlistTo).value)
    ensures r.Ok? ==> WellFormed(r.value.0) && WellFormed(r.value.1)
    ensures TryFromValue(playlistFrom).Err? ==> r == Err(AppError(TryFromValue(playlistFrom).error))
    ensures TryFromValue(playlistFrom).Ok? && TryFromValue(playlistTo).Err? ==>
      r == Err(AppError(TryFromValue(playlistTo).error))
    ensures TryFromValue(playlistFrom).Ok? && TryFromValue(playlistFrom) == TryFromValue(playlistTo) ==>
      r == Err(InvalidFormData(SamePlaylistMessage))
  {
    TryFromValueCanonical(playlistFrom);
    TryFromValueCanonical(playlistTo);
    match TryFromValue(playlistFrom)
    case Err(e) => Err(AppError(e))
    case Ok(from) =>
      match TryFromValue(playlistTo)
      case Err(e) => Err(AppError(e))
      case Ok(to) => if to == from then Err(InvalidFormData(SamePlaylistMessage)) else Ok((from, to))
  }

  /** The watchers among `ws` that remove tracks from their source, in order. */
  function Removing(ws: seq<Watcher>): (r: seq<Watcher>)
    ensures forall w :: w in r <==> w in ws && w.shouldRemove
  {
    if ws == [] then []
    else (if ws[0].shouldRemove then [ws[0]] else []) + Removing(ws[1..])
  }

  /**
   * Lines 63-79: the verdict on the watchers that already read from the
   * source. `None` lets the creation go on.
   */
  function ExistingVerdict(existing: seq<Watcher>, shouldRemove: bool): (r: Option<WebError>)
    ensures r.None? <==> (forall w :: w in existing ==> !w.shouldRemove) && (shouldRemove ==> existing == [])
    ensures (exists w :: w in existing && w.shouldRemove) ==> r == Some(InvalidFormData(RemovalExistsMessage))
    ensures (forall w :: w in existing ==> !w.shouldRemove) && shouldRemove && existing != [] ==>
      r == Some(InvalidFormData(WatcherExistsMessage))
  {
    var mutable := Removing(existing);
    if mutable != [] then
      assert mutable[0] in mutable;
      Some(InvalidFormData(RemovalExistsMessage))
    else if shouldRemove && existing != [] then Some(InvalidFormData(WatcherExistsMessage))
    else None
  }

  /**
   * Lines 83-93: the verdict on the editability probe of a playlist source.
   * A source the user may not edit is refused only when the new watcher
   * would remove tracks from it; a 502 means the playlist does not exist.
   */
  function EditableVerdict(probe: Result<bool, ClientError>, shouldRemove: bool): (r: Option<WebError>)
    ensures r.None? <==> probe == Ok(true) || (probe == Ok(false) && !shouldRemove)
    ensures probe == Ok(false) && shouldRemove ==> r == Some(InvalidFormData(NoPermissionMessage))
    ensures probe.Err? && probe.error.ApiError? && probe.error.status == BadGateway ==>
      r == Some(InvalidFormData(MissingSourceMessage))
    ensures probe.Err? && !(probe.error.ApiError? && probe.error.status == BadGateway) ==>
      r == Some(WebClientError(probe.error))
  {
    match probe
    case Ok(editable) =>
      if !editable && shouldRemove then Some(InvalidFormData(NoPermissionMessage)) else None
    case Err(ApiError(status, _)) =>
      if status == BadGateway then Some(InvalidFormData(MissingSourceMessage)) else Some(WebClientError(probe.error))
    case Err(e) => Some(WebClientError(e))
  }

  /** Lines 96-110: a constraint violation on insert means the watcher already exists. */
  function InsertVerdict(created: Result<(), DbError>): (r: Result<(), WebError>)
    ensures r.Ok? <==> created.Ok?
    ensures created.Err? && created.error.SQLiteError? && created.error.sqlite.ConstraintViolation? ==>
      r == Err(InvalidFormData(DuplicateMessage))
    ensures created.Err? && !(created.error.SQLiteError? && created.error.sqlite.ConstraintViolation?) ==>
      r == Err(WebDbError(created.error))
  {
    match created
    case Ok(_) => Ok(())
    case Err(SQLiteError(ConstraintViolation(_))) => Err(InvalidFormData(DuplicateMessage))
    case Err(e) => Err(WebDbError(e))
  }

  /**
   * Lines 81-94 as a decision: the refusal the source check gives in account
   * state `l`. The Liked Tracks collection always passes; a playlist source
   * needs the user's id and then the editability probe's verdict.
   */
  function SourceRefusal(l: Library, from: PlaylistType, userUri: string, shouldRemove: bool,
                         userIdOf: string -> Result<string, WebError>): Option<WebError>
  {
    if from.Saved? then None
    else if userIdOf(userUri).Err? then Some(userIdOf(userUri).error)
    else EditableVerdict(Probe(l, from.id, userIdOf(userUri).value), shouldRemove)
  }

  /**
   * If no watcher read for a source removes tracks, no row of that source
   * does: the read decodes every row it selects, and a decoded watcher
   * removes tracks exactly when its row says so.
   */
  lemma {:induction false} NoRemovingRow(table: WatcherTable, from: PlaylistType)
    requires table.GetWatchersForPlaylist(from).Ok?
    requires ExistingVerdict(table.GetWatchersForPlaylist(from).value, false).None?
    ensures forall x :: x in table.rows && FromIs(x, ToValue(from)) ==> !RemovesTracks(x)
  {
    var ws := table.GetWatchersForPlaylist(from).value;
    forall x | x in table.rows && FromIs(x, ToValue(from)) ensures !RemovesTracks(x) {
      var i :| 0 <= i < |table.rows| && table.rows[i] == x;
      var w := DecodeWatcher(x, table.parseTime).value;
      DecodeReadsColumns(x, table.parseTime);
      assert w in ws;
    }
  }

  /**
   * The existing-watcher read selects by source value alone, and the Liked
   * Tracks collection is stored as `_liked` for every user: a removal-enabled
   * Liked Tracks watcher of one user refuses every other user's Liked Tracks
   * watcher, whether or not it would remove tracks.
   */
  lemma {:induction false} LikedRefusedAcrossUsers(table: WatcherTable, x: Row, other: string, userUri: string,
                                                   shouldRemove: bool)
    requires table.GetWatchersForPlaylist(Saved).Ok?
    requires x in table.rows && FromIs(x, ToValue(Saved)) && UserIs(x, other) && RemovesTracks(x)
    requires other != userUri
    ensures ExistingVerdict(table.GetWatchersForPlaylist(Saved).value, shouldRemove)
      == Some(InvalidFormData(RemovalExistsMessage))
  {
    var ws := table.GetWatchersForPlaylist(Saved).value;
    if ExistingVerdict(ws, false).None? {
      NoRemovingRow(table, Saved);
    }
  }

  /**
   * Appending a row keeps the sources exclusive when no row of its source
   * removes tracks, and, if the new row removes tracks, no row shares its source.
   */
  lemma {:induction false} AdmittedKeepsExclusive(rows: seq<Row>, row: Row)
    requires SourceExclusive(rows) && WellShaped(row)
    requires forall x :: x in rows && SameSource(x, row) ==> !RemovesTracks(x)
    requires RemovesTracks(row) ==> forall x :: x in rows ==> !SameSource(x, row)
    ensures SourceExclusive(rows + [row])
  {
    var after := rows + [row];
    forall x, y | x in after && y in after && x != y && SameSource(x, y) ensures !RemovesTracks(x) {
      if x == row {
        assert y in rows;
      } else if y == row {
        assert x in rows;
      }
    }
  }

  /**
   * `create_watcher` (src/web/router/watcher.rs:45-113). `userIdOf` is the
   * user-id parser of the API layer, which is not part of this model.
   */
  method CreateWatcher(table: WatcherTable, client: Spotify, userUri: string, playlistFrom: string, playlistTo: string,
                       shouldRemove: bool, interval: SyncInterval, now: int,
                       userIdOf: string -> Result<string, WebError>)
    returns (r: Result<(), WebError>)
    modifies table, client
    requires table.Valid()
    ensures table.Valid() && client.library == old(client.library)
    ensures old(SourceExclusive(table.rows)) ==> SourceExclusive(table.rows)
    ensures r.Err? ==> table.rows == old(table.rows)
    ensures ParseEndpoints(playlistFrom, playlistTo).Err? ==>
      r == Err(ParseEndpoints(playlistFrom, playlistTo).error) && client.calls == old(client.calls)
    ensures var parsed := ParseEndpoints(playlistFrom, playlistTo);
      parsed.Ok? ==>
        var existing := old(table.GetWatchersForPlaylist(parsed.value.0));
        && (existing.Err? ==> r == Err(WebDbError(existing.error)) && client.calls == old(client.calls))
        && (existing.Ok? && ExistingVerdict(existing.value, shouldRemove).Some? ==>
              r == Err(ExistingVerdict(existing.value, shouldRemove).value) && client.calls == old(client.calls))
    ensures r.Ok? ==>
      var parsed := ParseEndpoints(playlistFrom, playlistTo);
      var existing := old(table.GetWatchersForPlaylist(parsed.value.0));
      && parsed.Ok? && existing.Ok? && ExistingVerdict(existing.value, shouldRemove).None?
      && (parsed.value.0.Id? ==>
            && userIdOf(userUri).Ok?
            && EditableVerdict(Probe(old(client.library), parsed.value.0.id, userIdOf(userUri).value), shouldRemove).None?)
      && table.rows == old(table.rows) + [EncodeWatcher(
           NewWatcher(old(table.nextId), userUri, parsed.value.0, parsed.value.1, shouldRemove, interval, now),
           table.formatTime)]
    ensures var parsed := ParseEndpoints(playlistFrom, playlistTo);
      parsed.Ok? ==>
        var existing := old(table.GetWatchersForPlaylist(parsed.value.0));
        existing.Ok? && ExistingVerdict(existing.value, shouldRemove).None? ==>
          var refusal := SourceRefusal(old(client.library), parsed.value.0, userUri, shouldRemove, userIdOf);
          var taken := KeyTaken(old(table.rows), KeyOf(userUri, parsed.value.0, parsed.value.1));
          && (refusal.Some? ==> r == Err(refusal.value))
          && (refusal.None? && taken ==> r == Err(InvalidFormData(DuplicateMessage)))
          && (refusal.None? && !taken ==> r == Ok(()))
  {
    var parsed := ParseEndpoints(playlistFrom, playlistTo);
    if parsed.Err? {
      return Err(parsed.error);
    }
    var (from, to) := parsed.value;

    var existingWatchers := table.GetWatchersForPlaylist(from);
    if existingWatchers.Err? {
      return Err(WebDbError(existingWatchers.error));
    }
    var verdict := ExistingVerdict(existingWatchers.value, shouldRemove);
    if verdict.Some? {
      return Err(verdict.value);
    }
    NoRemovingRow(table, from);
    var refusal := CheckSource(client, from, userUri, shouldRemove, userIdOf);
    if refusal.Some? {
      return Err(refusal.value);
    }
    r := InsertAdmitted(table, userUri, from, to, shouldRemove, interval, now);
  }

  /**
   * Lines 81-94: a playlist source is probed for editability with the user's
   * id; the Liked Tracks collection always passes.
   */
  method CheckSource(client: Spotify, from: PlaylistType, userUri: string, shouldRemove: bool,
                     userIdOf: string -> Result<string, WebError>)
    returns (refusal: Option<WebError>)
    modifies client
    ensures client.library == old(client.library)
    ensures from.Saved? ==> refusal.None? && client.calls == old(client.calls)
    ensures from.Id? && userIdOf(userUri).Err? ==> refusal == Some(userIdOf(userUri).error)
    ensures from.Id? && userIdOf(userUri).Ok? ==>
      refusal == EditableVerdict(Probe(old(client.library), from.id, userIdOf(userUri).value), shouldRemove)
    ensures refusal == SourceRefusal(old(client.library), from, userUri, shouldRemove, userIdOf)
  {
    refusal := None;
    if from.Id? {
      var userId := userIdOf(userUri);
      if userId.Err? {
        return Some(userId.error);
      }
      var editable := CheckPlaylistEditable(client, from.id, userId.value);
      refusal := EditableVerdict(editable, shouldRemove);
    }
  }

  /**
   * Lines 96-110: the insert once every guard has passed. The guards are what
   * keep the sources exclusive: no row of the source removes tracks, and a
   * watcher that removes tracks finds no row of its source.
   */
  method InsertAdmitted(table: WatcherTable, userUri: string, from: PlaylistType, to: PlaylistType,
                        shouldRemove: bool, interval: SyncInterval, now: int)
    returns (r: Result<(), WebError>)
    modifies table
    requires table.Valid()
    requires forall x :: x in table.rows && FromIs(x, ToValue(from)) ==> !RemovesTracks(x)
    requires shouldRemove ==> forall x :: x in table.rows ==> !FromIs(x, ToValue(from))
    ensures table.Valid()
    ensures old(SourceExclusive(table.rows)) ==> SourceExclusive(table.rows)
    ensures r.Err? ==> table.rows == old(table.rows)
    ensures r.Ok? ==> table.rows == old(table.rows) + [EncodeWatcher(
      NewWatcher(old(table.nextId), userUri, from, to, shouldRemove, interval, now), table.formatTime)]
    ensures KeyTaken(old(table.rows), KeyOf(userUri, from, to)) ==> r == Err(InvalidFormData(DuplicateMessage))
    ensures !KeyTaken(old(table.rows), KeyOf(userUri, from, to)) ==> r == Ok(())
  {
    ghost var before := table.rows;
    ghost var exclusive := SourceExclusive(before);
    ghost var row := EncodeWatcher(NewWatcher(table.nextId, userUri, from, to, shouldRemove, interval, now), table.formatTime);
    var created := table.CreateWatcher(userUri, from, to, shouldRemove, interval, now);
    r := InsertVerdict(created);
    if created.Ok? && exclusive {
      assert table.rows == before + [row];
      AdmittedKeepsExclusive(before, row);
    }
  }

  /**
   * `delete_watcher` (src/web/router/watcher.rs:120-139): the watcher with
   * that id must belong to the user; then every watcher of the user with the
   * same source and target values goes.
   */
  method DeleteWatcher(table: WatcherTable, id: int, userUri: string) returns (r: Result<(), WebError>)
    modifies table
    requires table.Valid()
    ensures table.Valid() && (old(SourceExclusive(table.rows)) ==> SourceExclusive(table.rows))
    ensures var found := old(table.GetWatcherByIdAndUser(id, userUri));
      && (found.Err? ==> r == Err(WebDbError(found.error)) && table.rows == old(table.rows))
      && (found == Ok(None) ==> r == Err(NotFoundError) && table.rows == old(table.rows))
      && (found.Ok? && found.value.Some? ==>
            var w := found.value.value;
            && r == Ok(())
            && forall x :: x in table.rows <==> x in old(table.rows) && !KeyIs(x, KeyOf(userUri, w.playlistFrom, w.playlistTo)))
  {
    var found := table.GetWatcherByIdAndUser(id, userUri);
    if found.Err? {
      return Err(WebDbError(found.error));
    }
    if found.value.None? {
      return Err(NotFoundError);
    }
    var watcher := found.value.value;
    table.DeleteWatcherByUserAndPlaylists(userUri, watcher.playlistFrom, watcher.playlistTo);
    r := Ok(());
  }

  /**
   * `sync_watcher` (src/web/router/watcher.rs:141-161): the watcher with that
   * id must belong to the user. `syncWatcher` stands for the scheduler's
   * sync of one watcher, which is not part of this model; its count is the
   * number of tracks transferred.
   */
  method SyncWatcher(table: WatcherTable, id: int, userUri: string, syncWatcher: Watcher -> Result<nat, WebError>)
    returns (r: Result<nat, WebError>)
    ensures var found := table.GetWatcherByIdAndUser(id, userUri);
      && (found.Err? ==> r == Err(WebDbError(found.error)))
      && (found == Ok(None) ==> r == Err(NotFoundError))
      && (found.Ok? && found.value.Some? ==> r == syncWatcher(found.value.value))
  {
    var found := table.GetWatcherByIdAndUser(id, userUri);
    if found.Err? {
      return Err(WebDbError(found.error));
    }
    if found.value.None? {
      return Err(NotFoundError);
    }
    r := syncWatcher(found.value.value);
  }
}
