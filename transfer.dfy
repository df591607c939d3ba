/**
 * The transfer of a watcher (src/sync/transfer.rs): read the tracks of the
 * source, stop if there are none, read the tracks of the target, append the
 * source tracks the target lacks, then remove every source track from the
 * source. Track ids are handled as sets, so the order in which the missing
 * tracks are appended is whatever the set's iteration gives.
 *
 * `Run` is the whole transfer as a function of the account state; the method
 * `PlaylistTransfer.Transfer` performs it call by call against the remote
 * service and is proved to do exactly what `Run` says.
 */
module Transfer {
  import opened Common
  import opened Errors
  import opened PlaylistIds
  import opened Remote

  /** The endpoints of a transfer: the Liked Tracks collection, or a playlist. */
  datatype Endpoint = Saved | WithId(id: PlaylistId)

  const UnsupportedTransfer := "unsupported transfer type"

  /** The ids of the saved tracks, without duplicates; tracks without an id are dropped. */
  function SavedTrackIds(saved: seq<SavedTrack>): (r: set<TrackId>)
    ensures forall t :: t in r <==> SavedTrack(Some(t)) in saved
  {
    if saved == [] then {}
    else
      var first := if saved[0].id.Some? then {saved[0].id.value} else {};
      assert saved == [saved[0]] + saved[1..];
      first + SavedTrackIds(saved[1..])
  }

  /**
   * The ids of the tracks of a playlist, without duplicates; empty entries,
   * episodes and tracks without an id are dropped.
   */
  function PlaylistTrackIds(items: seq<PlaylistItem>): (r: set<TrackId>)
    ensures forall t :: t in r <==> TrackItem(t) in items
  {
    if items == [] then {}
    else
      var id := ItemTrackId(items[0]);
      var first := if id.Some? then {id.value} else {};
      assert items == [items[0]] + items[1..];
      first + PlaylistTrackIds(items[1..])
  }

  /** `get_playlist_track_ids`: the track ids of a playlist as the service reports them. */
  function PlaylistTracks(l: Library, p: PlaylistId): Result<set<TrackId>, Error> {
    match Items(l, p)
    case Ok(items) => Ok(PlaylistTrackIds(items))
    case Err(e) => Err(Client(e))
  }

  /** The track ids of a transfer's source. */
  function SourceTracks(l: Library, from: Endpoint): Result<set<TrackId>, Error> {
    match from
    case Saved =>
      (match SavedTracks(l)
       case Ok(saved) => Ok(SavedTrackIds(saved))
       case Err(e) => Err(Client(e)))
    case WithId(p) => PlaylistTracks(l, p)
  }

  /** The call that reads a source. */
  function SourceRead(from: Endpoint): Op {
    match from
    case Saved => ReadSaved
    case WithId(p) => ReadItems(p)
  }

  /** The call that takes the tracks `ids` out of a source. */
  function SourceRemoval(from: Endpoint, ids: set<TrackId>): Op {
    match from
    case Saved => DeleteSaved(ids)
    case WithId(p) => RemoveOccurrences(p, ids)
  }

  /** What a transfer answers, the state it leaves and the calls it makes. */
  datatype Outcome = Outcome(result: Result<bool, Error>, library: Library, calls: seq<Op>)

  /** The last call of a transfer: remove the source's tracks from the source. */
  function Removal(l: Library, op: Op, calls: seq<Op>): Outcome {
    match Ack(l, op)
    case Err(e) => Outcome(Err(Client(e)), l, calls + [op])
    case Ok(_) => Outcome(Ok(true), Next(l, op), calls + [op])
  }

  /**
   * The transfer from `from` to `to` in state `l`, where `order` is the order
   * in which the tracks to insert are sent (any enumeration of the difference).
   */
  function Run(l: Library, from: Endpoint, to: Endpoint, order: seq<TrackId>): Outcome {
    if to.Saved? then Outcome(Err(Anyhow(UnsupportedTransfer)), l, [])
    else
      match SourceTracks(l, from)
      case Err(e) => Outcome(Err(e), l, [SourceRead(from)])
      case Ok(source) =>
        if source == {} then Outcome(Ok(false), l, [SourceRead(from)])
        else Copy(l, from, to.id, source, order)
  }

  /** The transfer once the source has been read and holds the tracks `source`. */
  function Copy(l: Library, from: Endpoint, to: PlaylistId, source: set<TrackId>, order: seq<TrackId>): Outcome {
    var calls := [SourceRead(from), ReadItems(to)];
    match PlaylistTracks(l, to)
    case Err(e) => Outcome(Err(e), l, calls)
    case Ok(target) =>
      if source - target == {} then Removal(l, SourceRemoval(from, source), calls)
      else Insert(l, from, to, source, order, calls)
  }

  /** The transfer once it has found tracks to insert. */
  function Insert(l: Library, from: Endpoint, to: PlaylistId, source: set<TrackId>, order: seq<TrackId>, calls: seq<Op>): Outcome {
    var add := AddItems(to, order);
    match Ack(l, add)
    case Err(e) => Outcome(Err(Client(e)), l, calls + [add])
    case Ok(_) => Removal(Next(l, add), SourceRemoval(from, source), calls + [add])
  }

  /** The set of tracks a transfer inserts, once both reads have succeeded. */
  function Pending(l: Library, from: Endpoint, to: Endpoint): set<TrackId> {
    if to.WithId? && SourceTracks(l, from).Ok? && SourceTracks(l, from).value != {}
       && PlaylistTracks(l, to.id).Ok?
    then SourceTracks(l, from).value - PlaylistTracks(l, to.id).value
    else {}
  }

  /** Collecting a set into a vector: every element once, in the set's iteration order. */
  method CollectIds(s: set<TrackId>) returns (v: seq<TrackId>)
    ensures Enumerates(v, s)
  {
    v := [];
    var rest := s;
    while rest != {}
      invariant rest <= s
      invariant Elements(v) == s - rest
      invariant forall i, j :: 0 <= i < j < |v| ==> v[i] != v[j]
      decreases rest
    {
      var t :| t in rest;
      assert t !in Elements(v);
      assert Elements(v + [t]) == Elements(v) + {t};
      v := v + [t];
      rest := rest - {t};
    }
  }

  /** An enumeration of a set is empty exactly when the set is. */
  lemma EnumeratesEmpty(v: seq<TrackId>, s: set<TrackId>)
    requires Enumerates(v, s)
    ensures v == [] <==> s == {}
  {
    if v != [] {
      assert v[0] in Elements(v);
    }
  }

  /** Appending tracks adds exactly their ids to a playlist's id set. */
  lemma AppendedIds(items: seq<PlaylistItem>, order: seq<TrackId>)
    ensures PlaylistTrackIds(items + TrackItems(order)) == PlaylistTrackIds(items) + Elements(order)
  {
    forall t ensures t in PlaylistTrackIds(items + TrackItems(order)) <==> t in PlaylistTrackIds(items) + Elements(order) {
      if TrackItem(t) in TrackItems(order) {
        var i :| 0 <= i < |order| && TrackItems(order)[i] == TrackItem(t);
      }
      if t in order {
        var i :| 0 <= i < |order| && order[i] == t;
        assert TrackItems(order)[i] == TrackItem(t);
      }
    }
  }

  /** Removing all occurrences of `ids` takes exactly those ids out of a playlist's id set. */
  lemma DroppedIds(items: seq<PlaylistItem>, ids: set<TrackId>)
    ensures PlaylistTrackIds(DropItems(items, ids)) == PlaylistTrackIds(items) - ids
  {
  }

  /** Deleting `ids` from the saved tracks takes exactly those ids out of their id set. */
  lemma DroppedSavedIds(saved: seq<SavedTrack>, ids: set<TrackId>)
    ensures SavedTrackIds(DropSaved(saved, ids)) == SavedTrackIds(saved) - ids
  {
  }

  /** A transfer to the Liked Tracks collection is refused before any remote call. */
  lemma UnsupportedMakesNoCalls(l: Library, from: Endpoint, order: seq<TrackId>)
    ensures Run(l, from, Saved, order) == Outcome(Err(Anyhow(UnsupportedTransfer)), l, [])
  {
  }

  /**
   * A source without tracks ends the transfer with `false` after reading
   * the source only: the target is not read and nothing is written.
   */
  lemma EmptySourceStops(l: Library, from: Endpoint, to: Endpoint, order: seq<TrackId>)
    requires to.WithId? && SourceTracks(l, from) == Ok({})
    ensures Run(l, from, to, order) == Outcome(Ok(false), l, [SourceRead(from)])
  {
  }

  /** The service accepts every call a transfer from `from` to `to` makes. */
  predicate Serves(l: Library, from: Endpoint, to: Endpoint) {
    && to.WithId?
    && l.failures == map[]
    && to.id in l.playlists && l.playlists[to.id].editable
    && (from.WithId? ==> from.id in l.playlists && l.playlists[from.id].editable)
  }

  /**
   * The calls of a transfer the service accepts: both reads, the insertion of
   * exactly the source tracks the target lacks (skipped when there are none),
   * and the removal of the whole source set; the answer is `true`.
   */
  lemma TransferCalls(l: Library, from: Endpoint, to: Endpoint, order: seq<TrackId>)
    requires Serves(l, from, to) && Enumerates(order, Pending(l, from, to))
    requires SourceTracks(l, from).Ok? && SourceTracks(l, from).value != {}
    ensures PlaylistTracks(l, to.id).Ok?
    ensures var source, target := SourceTracks(l, from).value, PlaylistTracks(l, to.id).value;
      && Elements(order) == source - target
      && Run(l, from, to, order).result == Ok(true)
      && Run(l, from, to, order).calls
         == [SourceRead(from), ReadItems(to.id)]
            + (if source - target == {} then [] else [AddItems(to.id, order)])
            + [SourceRemoval(from, source)]
  {
    var source, target := SourceTracks(l, from).value, PlaylistTracks(l, to.id).value;
    EnumeratesEmpty(order, source - target);
    if source - target != {} {
      var after := Next(l, AddItems(to.id, order));
      assert after.failures == map[] && after.playlists.Keys == l.playlists.Keys;
      assert Ack(after, SourceRemoval(from, source)) == Ok(());
    }
  }

  /** The state a transfer the service accepts leaves, stated call by call. */
  lemma TransferState(l: Library, from: Endpoint, to: Endpoint, order: seq<TrackId>)
    requires Serves(l, from, to) && Enumerates(order, Pending(l, from, to))
    requires SourceTracks(l, from).Ok? && SourceTracks(l, from).value != {}
    ensures PlaylistTracks(l, to.id).Ok?
    ensures var source, target := SourceTracks(l, from).value, PlaylistTracks(l, to.id).value;
      var added := if source - target == {} then l else Next(l, AddItems(to.id, order));
      Run(l, from, to, order).library == Next(added, SourceRemoval(from, source))
  {
    var source, target := SourceTracks(l, from).value, PlaylistTracks(l, to.id).value;
    EnumeratesEmpty(order, source - target);
  }

  /** The removal call empties a source whose tracks it names, and keeps the service accepting calls. */
  lemma {:induction false} RemovalEmpties(m: Library, from: Endpoint, source: set<TrackId>)
    requires m.failures == map[] && (from.WithId? ==> from.id in m.playlists && m.playlists[from.id].editable)
    requires SourceTracks(m, from).Ok? && SourceTracks(m, from).value <= source
    ensures var after := Next(m, SourceRemoval(from, source));
      && after.failures == map[] && after.playlists.Keys == m.playlists.Keys
      && (forall p :: p in m.playlists ==> after.playlists[p].editable == m.playlists[p].editable)
      && SourceTracks(after, from) == Ok({})
  {
    var after := Next(m, SourceRemoval(from, source));
    match from
    case Saved =>
      assert after.saved == DropSaved(m.saved, source);
      assert SavedTracks(m) == Ok(m.saved);
      DroppedSavedIds(m.saved, source);
      assert SavedTrackIds(after.saved) == {};
      assert SavedTracks(after) == Ok(after.saved);
    case WithId(p) =>
      assert after.playlists[p].items == DropItems(m.playlists[p].items, source);
      assert Items(m, p) == Ok(m.playlists[p].items);
      DroppedIds(m.playlists[p].items, source);
      assert PlaylistTrackIds(after.playlists[p].items) == {};
      assert Items(after, p) == Ok(after.playlists[p].items);
  }

  /**
   * After a transfer the service accepts, the source holds none of the
   * tracks it held, including those the target already had, and the service
   * still accepts every call.
   */
  lemma {:induction false} TransferEmptiesSource(l: Library, from: Endpoint, to: Endpoint, order: seq<TrackId>)
    requires Serves(l, from, to) && Enumerates(order, Pending(l, from, to))
    requires SourceTracks(l, from).Ok? && SourceTracks(l, from).value != {}
    ensures Serves(Run(l, from, to, order).library, from, to)
    ensures SourceTracks(Run(l, from, to, order).library, from) == Ok({})
  {
    TransferState(l, from, to, order);
    var source, target := SourceTracks(l, from).value, PlaylistTracks(l, to.id).value;
    var added := if source - target == {} then l else Next(l, AddItems(to.id, order));
    assert added.failures == map[] && added.playlists.Keys == l.playlists.Keys;
    assert forall p :: p in l.playlists ==> added.playlists[p].editable == l.playlists[p].editable;
    if from.WithId? && from.id == to.id {
      assert source - target == {};
    }
    assert SourceTracks(added, from) == SourceTracks(l, from);
    RemovalEmpties(added, from, source);
  }

  /** An insertion the service accepts appends the tracks to that playlist and refuses nothing later. */
  lemma AcceptedAdd(l: Library, p: PlaylistId, ids: seq<TrackId>)
    requires l.failures == map[] && p in l.playlists && l.playlists[p].editable
    ensures var m := Next(l, AddItems(p, ids));
      && m.failures == map[] && p in m.playlists
      && m.playlists[p].items == l.playlists[p].items + TrackItems(ids)
  {
  }

  /** Removing a source's tracks leaves any other playlist as it was. */
  lemma {:induction false} RemovalKeepsTarget(m: Library, from: Endpoint, source: set<TrackId>, p: PlaylistId)
    requires m.failures == map[] && p in m.playlists && from != WithId(p)
    ensures var after := Next(m, SourceRemoval(from, source));
      after.failures == map[] && p in after.playlists && after.playlists[p] == m.playlists[p]
  {
    NextKeepsOthers(m, SourceRemoval(from, source));
  }

  /**
   * A transfer the service accepts between different endpoints appends the
   * missing tracks to the target, which ends holding the union of both sets.
   */
  lemma {:induction false} TransferFillsTarget(l: Library, from: Endpoint, to: Endpoint, order: seq<TrackId>)
    requires Serves(l, from, to) && Enumerates(order, Pending(l, from, to)) && from != to
    requires SourceTracks(l, from).Ok? && SourceTracks(l, from).value != {}
    ensures PlaylistTracks(l, to.id).Ok?
    ensures var after := Run(l, from, to, order).library;
      && to.id in after.playlists
      && after.playlists[to.id].items == l.playlists[to.id].items + TrackItems(order)
      && PlaylistTracks(after, to.id) == Ok(SourceTracks(l, from).value + PlaylistTracks(l, to.id).value)
  {
    TransferTargetItems(l, from, to, order);
    var source, target := SourceTracks(l, from).value, PlaylistTracks(l, to.id).value;
    assert Elements(order) == source - target;
    AppendedTargetIds(l, Run(l, from, to, order).library, to.id, order, source);
  }

  /** The target's entries after a transfer the service accepts: its old ones, then the inserted tracks. */
  lemma {:induction false} TransferTargetItems(l: Library, from: Endpoint, to: Endpoint, order: seq<TrackId>)
    requires Serves(l, from, to) && Enumerates(order, Pending(l, from, to)) && from != to
    requires SourceTracks(l, from).Ok? && SourceTracks(l, from).value != {}
    ensures PlaylistTracks(l, to.id).Ok?
    ensures var after := Run(l, from, to, order).library;
      && after.failures == map[] && to.id in after.playlists
      && after.playlists[to.id].items == l.playlists[to.id].items + TrackItems(order)
  {
    TransferState(l, from, to, order);
    var source, target := SourceTracks(l, from).value, PlaylistTracks(l, to.id).value;
    EnumeratesEmpty(order, source - target);
    var added := if source - target == {} then l else Next(l, AddItems(to.id, order));
    if source - target == {} {
      assert l.playlists[to.id].items + TrackItems(order) == l.playlists[to.id].items;
    } else {
      AcceptedAdd(l, to.id, order);
    }
    RemovalKeepsTarget(added, from, source, to.id);
  }

  /** Appending the tracks the target lacks leaves it holding the union of both sets. */
  lemma {:induction false} AppendedTargetIds(l: Library, after: Library, p: PlaylistId, order: seq<TrackId>,
                                             source: set<TrackId>)
    requires l.failures == map[] && after.failures == map[] && p in l.playlists && p in after.playlists
    requires after.playlists[p].items == l.playlists[p].items + TrackItems(order)
    requires PlaylistTracks(l, p).Ok? && Elements(order) == source - PlaylistTracks(l, p).value
    ensures PlaylistTracks(after, p) == Ok(source + PlaylistTracks(l, p).value)
  {
    var target := PlaylistTracks(l, p).value;
    AppendedIds(l.playlists[p].items, order);
    assert target == PlaylistTrackIds(l.playlists[p].items);
    assert PlaylistTrackIds(after.playlists[p].items) == target + (source - target);
    assert target + (source - target) == source + target;
    assert PlaylistTracks(after, p) == Ok(PlaylistTrackIds(after.playlists[p].items));
  }

  /**
   * A transfer changes no playlist other than its two endpoints, and creates
   * or deletes none.
   */
  lemma {:induction false} TransferLeavesOthers(l: Library, from: Endpoint, to: Endpoint, order: seq<TrackId>)
    requires to.WithId?
    ensures var after := Run(l, from, to, order).library;
      && after.playlists.Keys == l.playlists.Keys
      && forall p :: p in l.playlists && p != to.id && from != WithId(p) ==> after.playlists[p] == l.playlists[p]
  {
    if SourceTracks(l, from).Ok? && SourceTracks(l, from).value != {} {
      var source := SourceTracks(l, from).value;
      var rem := SourceRemoval(from, source);
      CopyUntouched(l, from, to.id, source, order);
      assert forall p :: p in Touched(rem) ==> from == WithId(p);
    }
  }

  /** The copy changes at most its target and the source playlist. */
  lemma {:induction false} CopyUntouched(l: Library, from: Endpoint, to: PlaylistId, source: set<TrackId>, order: seq<TrackId>)
    ensures Untouched(l, Copy(l, from, to, source, order).library, {to} + Touched(SourceRemoval(from, source)))
  {
    var rem := SourceRemoval(from, source);
    var calls := [SourceRead(from), ReadItems(to)];
    if PlaylistTracks(l, to).Ok? {
      var add := AddItems(to, order);
      if source - PlaylistTracks(l, to).value == {} {
        NextKeepsOthers(l, rem);
        assert Copy(l, from, to, source, order) == Removal(l, rem, calls);
      } else if Ack(l, add).Ok? {
        NextKeepsOthers(l, add);
        NextKeepsOthers(Next(l, add), rem);
        UntouchedTrans(l, Next(l, add), Copy(l, from, to, source, order).library, Touched(add), Touched(rem));
      }
    }
  }

  /**
   * Running a transfer again after one the service accepted changes nothing:
   * the source is now empty, so the second run stops after reading it.
   */
  lemma {:induction false} SecondRunIsNoOp(l: Library, from: Endpoint, to: Endpoint, order: seq<TrackId>, again: seq<TrackId>)
    requires Serves(l, from, to) && Enumerates(order, Pending(l, from, to))
    ensures var after := Run(l, from, to, order).library;
      Run(after, from, to, again) == Outcome(Ok(false), after, [SourceRead(from)])
  {
    var after := Run(l, from, to, order).library;
    if SourceTracks(l, from).value != {} {
      TransferEmptiesSource(l, from, to, order);
    } else {
      EmptySourceStops(l, from, to, order);
    }
  }

  /**
   * Nothing rejects a transfer from a playlist to itself: it inserts nothing
   * and removes every track of the playlist.
   */
  lemma {:induction false} SelfTransferEmpties(l: Library, p: PlaylistId, order: seq<TrackId>)
    requires Serves(l, WithId(p), WithId(p)) && Enumerates(order, Pending(l, WithId(p), WithId(p)))
    requires SourceTracks(l, WithId(p)).Ok? && SourceTracks(l, WithId(p)).value != {}
    ensures order == []
    ensures Run(l, WithId(p), WithId(p), order).result == Ok(true)
    ensures Run(l, WithId(p), WithId(p), order).calls
            == [ReadItems(p), ReadItems(p), RemoveOccurrences(p, SourceTracks(l, WithId(p)).value)]
    ensures PlaylistTracks(Run(l, WithId(p), WithId(p), order).library, p) == Ok({})
  {
    EnumeratesEmpty(order, Pending(l, WithId(p), WithId(p)));
    TransferCalls(l, WithId(p), WithId(p), order);
    TransferEmptiesSource(l, WithId(p), WithId(p), order);
  }

  class PlaylistTransfer {
    const client: Spotify

    constructor(client: Spotify)
      ensures this.client == client
    {
      this.client := client;
    }

    /** `get_saved_track_ids` (src/sync/transfer.rs:106-115). */
    method GetSavedTrackIds() returns (r: Result<set<TrackId>, Error>)
      modifies client
      ensures r == SourceTracks(old(client.library), Saved)
      ensures client.library == old(client.library) && client.calls == old(client.calls) + [ReadSaved]
    {
      var saved := client.CurrentUserSavedTracks();
      match saved
      case Err(e) => r := Err(Client(e));
      case Ok(tracks) => r := Ok(SavedTrackIds(tracks));
    }

    /** `get_playlist_track_ids` (src/sync/transfer.rs:117-135). */
    method GetPlaylistTrackIds(p: PlaylistId) returns (r: Result<set<TrackId>, Error>)
      modifies client
      ensures r == PlaylistTracks(old(client.library), p)
      ensures client.library == old(client.library) && client.calls == old(client.calls) + [ReadItems(p)]
    {
      var items := client.PlaylistItems(p);
      match items
      case Err(e) => r := Err(Client(e));
      case Ok(entries) => r := Ok(PlaylistTrackIds(entries));
    }

    /**
     * `transfer` (src/sync/transfer.rs:28-104). The ghost `inserted` is the
     * order in which the missing tracks were sent.
     */
    method Transfer(from: Endpoint, to: Endpoint) returns (r: Result<bool, Error>, ghost inserted: seq<TrackId>)
      modifies client
      ensures Enumerates(inserted, Pending(old(client.library), from, to))
      ensures var o := Run(old(client.library), from, to, inserted);
        r == o.result && client.library == o.library && client.calls == old(client.calls) + o.calls
    {
      match (from, to)
      case (Saved, WithId(playlistId)) =>
        r, inserted := TransferSaved(playlistId);
      case (WithId(fromId), WithId(toId)) =>
        r, inserted := TransferBetween(fromId, toId);
      case _ =>
        r, inserted := Err(Anyhow(UnsupportedTransfer)), [];
    }

    /** The arm of `transfer` from the Liked Tracks collection to a playlist (src/sync/transfer.rs:34-65). */
    method TransferSaved(playlistId: PlaylistId) returns (r: Result<bool, Error>, ghost inserted: seq<TrackId>)
      modifies client
      ensures Enumerates(inserted, Pending(old(client.library), Saved, WithId(playlistId)))
      ensures var o := Run(old(client.library), Saved, WithId(playlistId), inserted);
        r == o.result && client.library == o.library && client.calls == old(client.calls) + o.calls
    {
      ghost var from, to := Saved, WithId(playlistId);
      ghost var l0 := client.library;
      ghost var c0 := client.calls;
      inserted := [];
      var saved := GetSavedTrackIds();
      if saved.Err? {
        return Err(saved.error), inserted;
      }
      var savedTrackIds := saved.value;
      if savedTrackIds == {} {
        return Ok(false), inserted;
      }
      var current := GetPlaylistTrackIds(playlistId);
      if current.Err? {
        return Err(current.error), inserted;
      }
      var idsToInsert := CollectIds(savedTrackIds - current.value);
      EnumeratesEmpty(idsToInsert, savedTrackIds - current.value);
      inserted := idsToInsert;
      ghost var done := [SourceRead(from), ReadItems(playlistId)];
      assert client.calls == c0 + done;
      assert Run(l0, from, to, inserted) == Copy(l0, Saved, playlistId, savedTrackIds, inserted);
      if idsToInsert != [] {
        assert Run(l0, from, to, inserted) == Insert(l0, Saved, playlistId, savedTrackIds, inserted, [SourceRead(from), ReadItems(playlistId)]);
        var added := client.Send(AddItems(playlistId, idsToInsert));
        if added.Err? {
          return Err(Client(added.error)), inserted;
        }
        done := done + [AddItems(playlistId, idsToInsert)];
        assert client.calls == c0 + done;
      }
      var deleted := client.Send(DeleteSaved(savedTrackIds));
      if deleted.Err? {
        return Err(Client(deleted.error)), inserted;
      }
      r := Ok(true);
    }

    /** The arm of `transfer` between two playlists (src/sync/transfer.rs:66-101). */
    method TransferBetween(fromId: PlaylistId, toId: PlaylistId) returns (r: Result<bool, Error>, ghost inserted: seq<TrackId>)
      modifies client
      ensures Enumerates(inserted, Pending(old(client.library), WithId(fromId), WithId(toId)))
      ensures var o := Run(old(client.library), WithId(fromId), WithId(toId), inserted);
        r == o.result && client.library == o.library && client.calls == old(client.calls) + o.calls
    {
      ghost var from, to := WithId(fromId), WithId(toId);
      ghost var l0 := client.library;
      ghost var c0 := client.calls;
      inserted := [];
      var source := GetPlaylistTrackIds(fromId);
      if source.Err? {
        return Err(source.error), inserted;
      }
      var fromTrackIds := source.value;
      if fromTrackIds == {} {
        return Ok(false), inserted;
      }
      var target := GetPlaylistTrackIds(toId);
      if target.Err? {
        return Err(target.error), inserted;
      }
      var idsToInsert := CollectIds(fromTrackIds - target.value);
      EnumeratesEmpty(idsToInsert, fromTrackIds - target.value);
      inserted := idsToInsert;
      ghost var done := [SourceRead(from), ReadItems(toId)];
      assert client.calls == c0 + done;
      assert Run(l0, from, to, inserted) == Copy(l0, WithId(fromId), toId, fromTrackIds, inserted);
      if idsToInsert != [] {
        assert Run(l0, from, to, inserted) == Insert(l0, WithId(fromId), toId, fromTrackIds, inserted, [SourceRead(from), ReadItems(toId)]);
        var added := client.Send(AddItems(toId, idsToInsert));
        if added.Err? {
          return Err(Client(added.error)), inserted;
        }
        done := done + [AddItems(toId, idsToInsert)];
        assert client.calls == c0 + done;
      }
      var removed := client.Send(RemoveOccurrences(fromId, fromTrackIds));
      if removed.Err? {
        return Err(Client(removed.error)), inserted;
      }
      r := Ok(true);
    }
  }
}
