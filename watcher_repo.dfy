/**
 * The `watchers` table and its repository (src/db/repo/watcher.rs).
 *
 * The table is held as the sequence of its rows, each row the cells selected
 * in `COLUMNS` order, plus the next id the `AUTOINCREMENT` key hands out.
 * Queries are functions of the rows; statements are methods that replace
 * them. The unique key on (user_uri, playlist_from, playlist_to) comes from
 * the table definition (src/db/mod.rs:36).
 */
module WatcherRepo {
  import opened Common
  import opened Errors
  import opened PlaylistIds
  import opened Playlists
  import opened WatcherModel

  /** A row as the repository writes it: nine cells, with typed key cells. */
  predicate WellShaped(row: Row) {
    && |row| == |Columns|
    && row[IdColumn].Integer? && row[IdColumn].n >= 0
    && row[UserUriColumn].Text? && row[FromColumn].Text? && row[ToColumn].Text?
    && row[ShouldRemoveColumn].Integer?
  }

  /** The cells of the unique key (user_uri, playlist_from, playlist_to). */
  function Key(row: Row): (SqlValue, SqlValue, SqlValue)
    requires |row| > ToColumn
  {
    (row[UserUriColumn], row[FromColumn], row[ToColumn])
  }

  /** The key cells a watcher for these arguments is stored under. */
  function KeyOf(userUri: string, from: PlaylistType, to: PlaylistType): (SqlValue, SqlValue, SqlValue) {
    (Text(userUri), Text(ToValue(from)), Text(ToValue(to)))
  }

  /** The row's watcher removes tracks from its source. */
  predicate RemovesTracks(row: Row) {
    WellShaped(row) && row[ShouldRemoveColumn].n != 0
  }

  predicate NoDuplicates(rows: seq<Row>) {
    forall i, j :: 0 <= i < j < |rows| ==> rows[i] != rows[j]
  }

  /** The rows a `WHERE` clause keeps, in table order. */
  function Select(rows: seq<Row>, keep: Row -> bool): (r: seq<Row>)
    ensures |r| <= |rows|
    ensures forall x :: x in r <==> x in rows && keep(x)
    ensures NoDuplicates(rows) ==> NoDuplicates(r)
  {
    if rows == [] then []
    else (if keep(rows[0]) then [rows[0]] else []) + Select(rows[1..], keep)
  }

  /**
   * `query_and_then(.., try_from).collect::<DbResult<Vec<_>>>()`: every row
   * decoded, in order, or the error of the first row that does not decode.
   */
  function DecodeRows(rows: seq<Row>, parseTime: string -> Option<int>): (r: Result<seq<Watcher>, DbError>)
    ensures r.Ok? <==> forall i :: 0 <= i < |rows| ==> DecodeWatcher(rows[i], parseTime).Ok?
    ensures r.Ok? ==> |r.value| == |rows|
    ensures r.Ok? ==> forall i :: 0 <= i < |rows| ==> DecodeWatcher(rows[i], parseTime) == Ok(r.value[i])
    ensures r.Err? ==> exists i ::
      && 0 <= i < |rows| && DecodeWatcher(rows[i], parseTime) == Err(r.error)
      && forall j :: 0 <= j < i ==> DecodeWatcher(rows[j], parseTime).Ok?
  {
    if rows == [] then Ok([])
    else
      var first :- DecodeWatcher(rows[0], parseTime);
      var rest :- DecodeRows(rows[1..], parseTime);
      Ok([first] + rest)
  }

  /** No row decodes to the "no rows" error: that error only comes from the engine. */
  lemma DecodeNeverNoRows(rows: seq<Row>, parseTime: string -> Option<int>)
    ensures forall i :: 0 <= i < |rows| ==> DecodeWatcher(rows[i], parseTime) != Err(SQLiteError(QueryReturnedNoRows))
  {
  }

  predicate FromIs(row: Row, value: string) {
    |row| > FromColumn && row[FromColumn] == Text(value)
  }

  predicate UserIs(row: Row, userUri: string) {
    |row| > UserUriColumn && row[UserUriColumn] == Text(userUri)
  }

  predicate IdAndUserAre(row: Row, id: int, userUri: string) {
    |row| > UserUriColumn && row[IdColumn] == Integer(id) && row[UserUriColumn] == Text(userUri)
  }

  predicate KeyIs(row: Row, key: (SqlValue, SqlValue, SqlValue)) {
    |row| > ToColumn && Key(row) == key
  }

  /** Some row of `rows` is stored under `key`. */
  predicate KeyTaken(rows: seq<Row>, key: (SqlValue, SqlValue, SqlValue)) {
    exists i :: 0 <= i < |rows| && KeyIs(rows[i], key)
  }

  /**
   * Decoding the rows a `WHERE` clause keeps yields a watcher for each kept
   * row and for nothing else, none exactly when no row is kept, and on
   * failure the error of a kept row.
   */
  lemma SelectDecoded(rows: seq<Row>, keep: Row -> bool, parseTime: string -> Option<int>)
    ensures var r := DecodeRows(Select(rows, keep), parseTime);
      && (r.Ok? ==> forall w :: w in r.value <==>
            exists i :: 0 <= i < |rows| && keep(rows[i]) && DecodeWatcher(rows[i], parseTime) == Ok(w))
      && (r.Ok? ==> (|r.value| == 0 <==> forall i :: 0 <= i < |rows| ==> !keep(rows[i])))
      && (r.Ok? ==> forall i :: 0 <= i < |rows| && keep(rows[i]) ==> DecodeWatcher(rows[i], parseTime).Ok?)
      && (r.Err? ==>
            exists i :: 0 <= i < |rows| && keep(rows[i]) && DecodeWatcher(rows[i], parseTime) == Err(r.error))
  {
    var selected := Select(rows, keep);
    var r := DecodeRows(selected, parseTime);
    if r.Ok? {
      forall w | w in r.value
        ensures exists i :: 0 <= i < |rows| && keep(rows[i]) && DecodeWatcher(rows[i], parseTime) == Ok(w)
      {
        var k :| 0 <= k < |r.value| && r.value[k] == w;
        assert selected[k] in rows;
      }
      forall i | 0 <= i < |rows| && keep(rows[i])
        ensures DecodeWatcher(rows[i], parseTime).value in r.value
      {
        assert rows[i] in selected;
        var k :| 0 <= k < |selected| && selected[k] == rows[i];
        assert DecodeWatcher(rows[i], parseTime) == Ok(r.value[k]);
      }
      if |r.value| != 0 {
        assert selected[0] in rows;
      }
    } else {
      var k :| 0 <= k < |selected| && DecodeWatcher(selected[k], parseTime) == Err(r.error);
      assert selected[k] in rows;
    }
  }

  predicate SameSource(x: Row, y: Row) {
    |x| > FromColumn && |y| > FromColumn && x[FromColumn] == y[FromColumn]
  }

  /** Two rows differ in their ids and in their unique keys. */
  predicate Distinct(x: Row, y: Row) {
    |x| > ToColumn && |y| > ToColumn && x[IdColumn] != y[IdColumn] && Key(x) != Key(y)
  }

  /**
   * The table's integrity: every row well shaped with an id below the next
   * one, no two rows sharing an id or a unique key, no row stored twice.
   */
  ghost predicate RowsValid(rows: seq<Row>, nextId: nat) {
    && (forall x: Row :: x in rows ==> WellShaped(x) && x[IdColumn].n < nextId)
    && (forall x, y :: x in rows && y in rows && x != y ==> Distinct(x, y))
    && NoDuplicates(rows)
  }

  /**
   * A source value with a removal-enabled watcher has no other watcher,
   * whoever owns them.
   */
  ghost predicate SourceExclusive(rows: seq<Row>) {
    forall x, y :: x in rows && y in rows && x != y && SameSource(x, y) ==> !RemovesTracks(x)
  }

  /** A `DELETE ... WHERE` keeps the table's integrity and the exclusivity of sources. */
  lemma SelectKeepsInvariants(rows: seq<Row>, nextId: nat, keep: Row -> bool)
    requires RowsValid(rows, nextId)
    ensures RowsValid(Select(rows, keep), nextId)
    ensures SourceExclusive(rows) ==> SourceExclusive(Select(rows, keep))
  {
  }

  predicate IdIs(row: Row, id: int) {
    |row| > IdColumn && row[IdColumn] == Integer(id)
  }

  /** `SET next_sync_at = cell WHERE id = id`, applied to one row. */
  function UpdatedRow(row: Row, id: int, cell: SqlValue): Row {
    if IdIs(row, id) && |row| > NextSyncColumn then row[NextSyncColumn := cell] else row
  }

  lemma UpdatedRowKeeps(row: Row, id: int, cell: SqlValue)
    requires WellShaped(row)
    ensures var r := UpdatedRow(row, id, cell);
      WellShaped(r) && r[IdColumn] == row[IdColumn] && Key(r) == Key(row)
      && r[FromColumn] == row[FromColumn] && RemovesTracks(r) == RemovesTracks(row)
  {
  }

  /** Rewriting `next_sync_at` of some rows keeps ids, keys, shapes and removal flags. */
  lemma UpdateKeepsInvariants(before: seq<Row>, after: seq<Row>, nextId: nat, id: int, cell: SqlValue)
    requires RowsValid(before, nextId)
    requires |after| == |before|
    requires forall i :: 0 <= i < |before| ==> after[i] == UpdatedRow(before[i], id, cell)
    ensures RowsValid(after, nextId)
    ensures SourceExclusive(before) ==> SourceExclusive(after)
  {
    UpdatePointwise(before, after, nextId, id, cell);
    UpdateKeepsPairs(before, after, nextId, id, cell);
  }

  lemma UpdatedPair(a: Row, b: Row, id: int, cell: SqlValue)
    requires WellShaped(a) && WellShaped(b) && Distinct(a, b)
    ensures Distinct(UpdatedRow(a, id, cell), UpdatedRow(b, id, cell))
    ensures SameSource(UpdatedRow(a, id, cell), UpdatedRow(b, id, cell)) == SameSource(a, b)
    ensures RemovesTracks(UpdatedRow(a, id, cell)) == RemovesTracks(a)
  {
    UpdatedRowKeeps(a, id, cell);
    UpdatedRowKeeps(b, id, cell);
  }

  lemma UpdateKeepsPairs(before: seq<Row>, after: seq<Row>, nextId: nat, id: int, cell: SqlValue)
    requires RowsValid(before, nextId)
    requires |after| == |before|
    requires forall i :: 0 <= i < |before| ==> after[i] == UpdatedRow(before[i], id, cell)
    ensures forall x, y :: x in after && y in after && x != y ==> Distinct(x, y)
    ensures SourceExclusive(before) ==> SourceExclusive(after)
  {
    forall x, y | x in after && y in after && x != y
      ensures Distinct(x, y) && (SourceExclusive(before) && SameSource(x, y) ==> !RemovesTracks(x))
    {
      var i :| 0 <= i < |after| && after[i] == x;
      var j :| 0 <= j < |after| && after[j] == y;
      var a, b := before[i], before[j];
      assert a in before && b in before && a != b;
      UpdatedPair(a, b, id, cell);
    }
  }

  lemma UpdatePointwise(before: seq<Row>, after: seq<Row>, nextId: nat, id: int, cell: SqlValue)
    requires RowsValid(before, nextId)
    requires |after| == |before|
    requires forall i :: 0 <= i < |before| ==> after[i] == UpdatedRow(before[i], id, cell)
    ensures forall i :: 0 <= i < |before| ==>
      && WellShaped(before[i]) && WellShaped(after[i]) && after[i][IdColumn] == before[i][IdColumn] && Key(after[i]) == Key(before[i])
      && after[i][FromColumn] == before[i][FromColumn] && RemovesTracks(after[i]) == RemovesTracks(before[i])
    ensures forall x: Row :: x in after ==> WellShaped(x) && x[IdColumn].n < nextId
    ensures NoDuplicates(after)
  {
    forall i | 0 <= i < |before|
      ensures WellShaped(after[i]) && after[i][IdColumn] == before[i][IdColumn] && Key(after[i]) == Key(before[i])
      ensures after[i][FromColumn] == before[i][FromColumn] && RemovesTracks(after[i]) == RemovesTracks(before[i])
    {
      assert before[i] in before;
      UpdatedRowKeeps(before[i], id, cell);
    }
    forall x: Row | x in after ensures WellShaped(x) && x[IdColumn].n < nextId {
      var i :| 0 <= i < |after| && after[i] == x;
      assert before[i] in before;
    }
    forall i, j | 0 <= i < j < |after| ensures after[i] != after[j] {
      assert before[i] in before && before[j] in before;
    }
  }

  /** Appending a row with the next id and a fresh key keeps the table's integrity. */
  lemma AppendKeepsInvariants(rows: seq<Row>, nextId: nat, row: Row)
    requires RowsValid(rows, nextId)
    requires WellShaped(row) && row[IdColumn] == Integer(nextId)
    requires forall x :: x in rows ==> Key(x) != Key(row)
    ensures RowsValid(rows + [row], nextId + 1)
  {
    var after := rows + [row];
    forall x, y | x in after && y in after && x != y ensures Distinct(x, y) {
      if x != row && y != row {
        assert x in rows && y in rows;
      }
    }
    forall i, j | 0 <= i < j < |after| ensures after[i] != after[j] {
      if j == |rows| {
        assert after[i] in rows;
      }
    }
  }

  /** The error SQLite reports when an insert repeats the unique key. */
  const UniqueViolationText: string :=
    "UNIQUE constraint failed: watchers.user_uri, watchers.playlist_from, watchers.playlist_to"

  /**
   * The first decoded row, or `None`; a "no rows" error also reads as
   * `None` (src/db/repo/watcher.rs:78-85).
   */
  function FirstOrNone(decoded: Result<seq<Watcher>, DbError>): Result<Option<Watcher>, DbError> {
    match decoded
    case Ok(ws) => Ok(if |ws| == 0 then None else Some(ws[0]))
    case Err(SQLiteError(QueryReturnedNoRows)) => Ok(None)
    case Err(e) => Err(e)
  }

  lemma FirstMatchSpec(rows: seq<Row>, id: int, userUri: string, parseTime: string -> Option<int>)
    ensures var r := FirstOrNone(DecodeRows(Select(rows, row => IdAndUserAre(row, id, userUri)), parseTime));
      && (r == Ok(None) <==> forall i :: 0 <= i < |rows| ==> !IdAndUserAre(rows[i], id, userUri))
      && (r.Ok? && r.value.Some? ==> exists i ::
            && 0 <= i < |rows| && IdAndUserAre(rows[i], id, userUri) && DecodeWatcher(rows[i], parseTime) == Ok(r.value.value)
            && forall j :: 0 <= j < i ==> !IdAndUserAre(rows[j], id, userUri))
      && (r.Ok? && r.value.Some? ==> r.value.value.id == id && r.value.value.userUri == userUri)
      && (r.Err? ==>
            exists i :: 0 <= i < |rows| && IdAndUserAre(rows[i], id, userUri) && DecodeWatcher(rows[i], parseTime) == Err(r.error))
  {
    var keep := row => IdAndUserAre(row, id, userUri);
    var decoded := DecodeRows(Select(rows, keep), parseTime);
    SelectDecoded(rows, keep, parseTime);
    DecodeNeverNoRows(rows, parseTime);
    assert decoded != Err(SQLiteError(QueryReturnedNoRows));
    if decoded.Ok? && |decoded.value| > 0 {
      var selected := Select(rows, keep);
      var i := SelectHead(rows, keep);
      assert DecodeWatcher(selected[0], parseTime) == Ok(decoded.value[0]);
      DecodeReadsColumns(rows[i], parseTime);
    }
  }

  /** The first row a `WHERE` clause keeps is the first row of the table that satisfies it. */
  lemma {:induction false} SelectHead(rows: seq<Row>, keep: Row -> bool) returns (i: nat)
    requires Select(rows, keep) != []
    ensures i < |rows| && rows[i] == Select(rows, keep)[0] && keep(rows[i])
    ensures forall j :: 0 <= j < i ==> !keep(rows[j])
  {
    assert rows != [];
    if keep(rows[0]) {
      i := 0;
    } else {
      assert Select(rows, keep) == Select(rows[1..], keep);
      var k := SelectHead(rows[1..], keep);
      i := k + 1;
      forall j | 0 <= j < i ensures !keep(rows[j]) {
        if j > 0 {
          assert rows[j] == rows[1..][j - 1];
        }
      }
    }
  }

  /** The watcher a new row stores: no sync has happened or been scheduled yet. */
  function NewWatcher(id: nat, userUri: string, from: PlaylistType, to: PlaylistType, shouldRemove: bool,
                      interval: SyncInterval, now: int): Watcher {
    Watcher(id, userUri, from, to, shouldRemove, interval, None, None, now)
  }

  class WatcherTable {
    var rows: seq<Row>
    var nextId: nat
    /** The date library's RFC 3339 reader and writer. */
    const parseTime: string -> Option<int>
    const formatTime: int -> string

    /** The table's integrity, and a date library that reads back what it writes. */
    ghost predicate Valid()
      reads this
    {
      RowsValid(rows, nextId) && TimeCodec(parseTime, formatTime)
    }

    constructor(parseTime: string -> Option<int>, formatTime: int -> string)
      requires TimeCodec(parseTime, formatTime)
      ensures Valid() && SourceExclusive(rows)
      ensures rows == [] && nextId == 1
      ensures this.parseTime == parseTime && this.formatTime == formatTime
    {
      rows := [];
      nextId := 1;
      this.parseTime := parseTime;
      this.formatTime := formatTime;
    }

    /** `get_all_watchers` (src/db/repo/watcher.rs:21-28). */
    function GetAllWatchers(): (r: Result<seq<Watcher>, DbError>)
      reads this
      ensures r.Ok? ==> |r.value| == |rows|
      ensures r.Ok? ==> forall i :: 0 <= i < |rows| ==> DecodeWatcher(rows[i], parseTime) == Ok(r.value[i])
      ensures r.Err? <==> exists i :: 0 <= i < |rows| && DecodeWatcher(rows[i], parseTime).Err?
    {
      DecodeRows(rows, parseTime)
    }

    /**
     * `get_watchers_for_playlist` (src/db/repo/watcher.rs:31-44): the
     * watchers whose stored source value is `to_value(from)`, for every user.
     */
    function GetWatchersForPlaylist(from: PlaylistType): (r: Result<seq<Watcher>, DbError>)
      reads this
      ensures r.Ok? ==> forall w :: w in r.value <==>
        exists i :: 0 <= i < |rows| && FromIs(rows[i], ToValue(from)) && DecodeWatcher(rows[i], parseTime) == Ok(w)
      ensures r.Ok? ==> (|r.value| == 0 <==> forall i :: 0 <= i < |rows| ==> !FromIs(rows[i], ToValue(from)))
      ensures r.Ok? ==> forall i :: 0 <= i < |rows| && FromIs(rows[i], ToValue(from)) ==> DecodeWatcher(rows[i], parseTime).Ok?
      ensures r.Err? ==>
        exists i :: 0 <= i < |rows| && FromIs(rows[i], ToValue(from)) && DecodeWatcher(rows[i], parseTime) == Err(r.error)
    {
      var keep := row => FromIs(row, ToValue(from));
      SelectDecoded(rows, keep, parseTime);
      DecodeRows(Select(rows, keep), parseTime)
    }

    /** `get_watchers_by_user` (src/db/repo/watcher.rs:47-60): the watchers of one user. */
    function GetWatchersByUser(userUri: string): (r: Result<seq<Watcher>, DbError>)
      reads this
      ensures r.Ok? ==> forall w :: w in r.value <==>
        exists i :: 0 <= i < |rows| && UserIs(rows[i], userUri) && DecodeWatcher(rows[i], parseTime) == Ok(w)
      ensures r.Ok? ==> (|r.value| == 0 <==> forall i :: 0 <= i < |rows| ==> !UserIs(rows[i], userUri))
      ensures r.Err? ==>
        exists i :: 0 <= i < |rows| && UserIs(rows[i], userUri) && DecodeWatcher(rows[i], parseTime) == Err(r.error)
    {
      var keep := row => UserIs(row, userUri);
      SelectDecoded(rows, keep, parseTime);
      DecodeRows(Select(rows, keep), parseTime)
    }

    /**
     * `get_watcher_by_id_and_user` (src/db/repo/watcher.rs:63-86): the first
     * row with that id and owner, `None` when there is none.
     */
    function GetWatcherByIdAndUser(id: int, userUri: string): (r: Result<Option<Watcher>, DbError>)
      reads this
      ensures r == Ok(None) <==> forall i :: 0 <= i < |rows| ==> !IdAndUserAre(rows[i], id, userUri)
      ensures r.Ok? && r.value.Some? ==> exists i ::
        && 0 <= i < |rows| && IdAndUserAre(rows[i], id, userUri) && DecodeWatcher(rows[i], parseTime) == Ok(r.value.value)
        && forall j :: 0 <= j < i ==> !IdAndUserAre(rows[j], id, userUri)
      ensures r.Ok? && r.value.Some? ==> r.value.value.id == id && r.value.value.userUri == userUri
      ensures r.Err? ==>
        exists i :: 0 <= i < |rows| && IdAndUserAre(rows[i], id, userUri) && DecodeWatcher(rows[i], parseTime) == Err(r.error)
    {
      FirstMatchSpec(rows, id, userUri, parseTime);
      FirstOrNone(DecodeRows(Select(rows, row => IdAndUserAre(row, id, userUri)), parseTime))
    }

    /**
     * `update_watcher_next_sync_at` (src/db/repo/watcher.rs:89-101): the row
     * with that id gets the new time as its `next_sync_at`; nothing else changes.
     */
    method UpdateWatcherNextSyncAt(id: int, nextSyncAt: int)
      modifies this
      requires Valid()
      ensures Valid() && (old(SourceExclusive(rows)) ==> SourceExclusive(rows))
      ensures nextId == old(nextId) && |rows| == |old(rows)|
      ensures forall i :: 0 <= i < |rows| ==> rows[i] == UpdatedRow(old(rows)[i], id, Text(formatTime(nextSyncAt)))
      ensures forall i :: 0 <= i < |rows| && IdIs(old(rows)[i], id) && DecodeWatcher(old(rows)[i], parseTime).Ok? ==>
        DecodeWatcher(rows[i], parseTime) == Ok(DecodeWatcher(old(rows)[i], parseTime).value.(nextSyncAt := Some(nextSyncAt)))
    {
      var before := rows;
      var cell := Text(formatTime(nextSyncAt));
      rows := seq(|before|, i requires 0 <= i < |before| => UpdatedRow(before[i], id, cell));
      UpdateKeepsInvariants(before, rows, nextId, id, cell);
      forall i | 0 <= i < |rows| && IdIs(before[i], id) && DecodeWatcher(before[i], parseTime).Ok?
        ensures DecodeWatcher(rows[i], parseTime) == Ok(DecodeWatcher(before[i], parseTime).value.(nextSyncAt := Some(nextSyncAt)))
      {
        NextSyncRewrite(before[i], parseTime, formatTime(nextSyncAt));
      }
    }

    /**
     * `create_watcher` (src/db/repo/watcher.rs:104-119): a new row with the
     * next id, no sync times and the creation time, unless a row already has
     * the same (user, source, target) key, which the engine rejects.
     */
    method CreateWatcher(userUri: string, from: PlaylistType, to: PlaylistType, shouldRemove: bool,
                         interval: SyncInterval, now: int) returns (r: Result<(), DbError>)
      modifies this
      requires Valid()
      ensures Valid()
      ensures KeyTaken(old(rows), KeyOf(userUri, from, to)) ==>
        r == Err(SQLiteError(ConstraintViolation(UniqueViolationText))) && rows == old(rows) && nextId == old(nextId)
      ensures !KeyTaken(old(rows), KeyOf(userUri, from, to)) ==>
        && r == Ok(())
        && rows == old(rows) + [EncodeWatcher(NewWatcher(old(nextId), userUri, from, to, shouldRemove, interval, now), formatTime)]
        && nextId == old(nextId) + 1
      ensures r.Ok? && old(nextId) < U32Limit && WellFormed(from) && WellFormed(to) ==>
        DecodeWatcher(rows[|rows| - 1], parseTime) == Ok(NewWatcher(old(nextId), userUri, from, to, shouldRemove, interval, now))
    {
      if KeyTaken(rows, KeyOf(userUri, from, to)) {
        r := Err(SQLiteError(ConstraintViolation(UniqueViolationText)));
      } else {
        var w := NewWatcher(nextId, userUri, from, to, shouldRemove, interval, now);
        var row := EncodeWatcher(w, formatTime);
        forall x | x in rows ensures Key(x) != Key(row) {
          var i :| 0 <= i < |rows| && rows[i] == x;
          assert !KeyIs(rows[i], KeyOf(userUri, from, to));
        }
        AppendKeepsInvariants(rows, nextId, row);
        rows := rows + [row];
        nextId := nextId + 1;
        r := Ok(());
        if w.id < U32Limit && WellFormed(from) && WellFormed(to) {
          DecodeEncode(w, parseTime, formatTime);
        }
      }
    }

    /**
     * `delete_watcher_by_user_and_playlists` (src/db/repo/watcher.rs:122-135):
     * the rows with that (user, source, target) key go, all others stay.
     */
    method DeleteWatcherByUserAndPlaylists(userUri: string, from: PlaylistType, to: PlaylistType)
      modifies this
      requires Valid()
      ensures Valid() && (old(SourceExclusive(rows)) ==> SourceExclusive(rows))
      ensures nextId == old(nextId)
      ensures forall x :: x in rows <==> x in old(rows) && !KeyIs(x, KeyOf(userUri, from, to))
    {
      var keep := row => !KeyIs(row, KeyOf(userUri, from, to));
      SelectKeepsInvariants(rows, nextId, keep);
      rows := Select(rows, keep);
    }

    /** `delete_all_watchers_by_user` (src/db/repo/watcher.rs:138-146): that user's rows go, all others stay. */
    method DeleteAllWatchersByUser(userUri: string)
      modifies this
      requires Valid()
      ensures Valid() && (old(SourceExclusive(rows)) ==> SourceExclusive(rows))
      ensures nextId == old(nextId)
      ensures forall x :: x in rows <==> x in old(rows) && !UserIs(x, userUri)
    {
      var keep := row => !UserIs(row, userUri);
      SelectKeepsInvariants(rows, nextId, keep);
      rows := Select(rows, keep);
    }
  }
}
