/**
 * The stored watcher (src/db/model/watcher.rs): its sync interval codec and
 * the decoding of a `watchers` table row into a `Watcher`.
 *
 * A row is the list of SQLite values selected in `COLUMNS` order. Times are
 * integers; the RFC 3339 parser and printer of the date library are passed in
 * as functions, so the model says how the decoder uses them without
 * modelling the text format itself.
 */
module WatcherModel {
  import opened Common
  import opened Errors
  import opened PlaylistIds
  import opened Playlists

  // ---------------------------------------------------------------------
  // Sync interval

  datatype SyncInterval = Hour | Day | Week

  /** The `#[default]` interval (src/db/model/watcher.rs:41-48). */
  const DefaultInterval: SyncInterval := Hour

  /** `Display` (src/db/model/watcher.rs:50-58). */
  function IntervalToString(i: SyncInterval): string {
    match i
    case Hour => "hour"
    case Day => "day"
    case Week => "week"
  }

  /** `FromStr` (src/db/model/watcher.rs:60-71): exact, case-sensitive names only. */
  function IntervalFromStr(s: string): Result<SyncInterval, DbError> {
    if s == "hour" then Ok(Hour)
    else if s == "day" then Ok(Day)
    else if s == "week" then Ok(Week)
    else Err(InvalidSyncInterval(s))
  }

  const SecondsPerHour: nat := 3600

  /** The interval as a duration in seconds (src/db/model/watcher.rs:73-81). */
  function IntervalSeconds(i: SyncInterval): nat {
    match i
    case Hour => SecondsPerHour
    case Day => 24 * SecondsPerHour
    case Week => 7 * 24 * SecondsPerHour
  }

  /** Parsing the displayed name gives the interval back. */
  lemma IntervalRoundTrip(i: SyncInterval)
    ensures IntervalFromStr(IntervalToString(i)) == Ok(i)
  {
  }

  /**
   * Exactly the three displayed names parse; anything else (`"Hour"`, `""`)
   * fails with `InvalidSyncInterval` carrying the input.
   */
  lemma IntervalFromStrExact(s: string)
    ensures IntervalFromStr(s).Ok? <==> exists i :: IntervalToString(i) == s
    ensures IntervalFromStr(s).Ok? ==> IntervalToString(IntervalFromStr(s).value) == s
    ensures IntervalFromStr(s).Err? ==> IntervalFromStr(s).error == InvalidSyncInterval(s)
  {
    if IntervalFromStr(s).Ok? {
      assert IntervalToString(IntervalFromStr(s).value) == s;
    }
  }

  /** One hour, one day and one week, in strictly increasing order. */
  lemma IntervalDurations()
    ensures IntervalSeconds(Hour) == 60 * 60
    ensures IntervalSeconds(Day) == 24 * IntervalSeconds(Hour)
    ensures IntervalSeconds(Week) == 7 * IntervalSeconds(Day)
    ensures IntervalSeconds(Hour) < IntervalSeconds(Day) < IntervalSeconds(Week)
  {
  }

  // ---------------------------------------------------------------------
  // Rows

  /** The SQLite storage classes a `watchers` cell can hold. */
  datatype SqlValue = Null | Integer(n: int) | Text(s: string)

  type Row = seq<SqlValue>

  /** `COLUMNS` (src/db/model/watcher.rs:8): the selected columns, in order. */
  const Columns: seq<string> := ["id", "user_uri", "playlist_from", "playlist_to",
    "should_remove", "sync_interval", "last_sync_at", "next_sync_at", "created_at"]

  const IdColumn: nat := 0
  const UserUriColumn: nat := 1
  const FromColumn: nat := 2
  const ToColumn: nat := 3
  const ShouldRemoveColumn: nat := 4
  const IntervalColumn: nat := 5
  const LastSyncColumn: nat := 6
  const NextSyncColumn: nat := 7
  const CreatedAtColumn: nat := 8

  const U32Limit: int := 0x1_0000_0000

  /** `row.get::<_, u32>(i)`: an integer cell in range. */
  function GetU32(row: Row, i: nat): Result<nat, DbError> {
    if i >= |row| then Err(SQLiteError(InvalidColumnIndex(i)))
    else match row[i]
      case Integer(n) =>
        if 0 <= n < U32Limit then Ok(n) else Err(SQLiteError(IntegralValueOutOfRange(i, n)))
      case _ => Err(SQLiteError(InvalidColumnType(i)))
  }

  /** `row.get::<_, String>(i)`: a text cell; NULL is a type error. */
  function GetText(row: Row, i: nat): Result<string, DbError> {
    if i >= |row| then Err(SQLiteError(InvalidColumnIndex(i)))
    else match row[i]
      case Text(s) => Ok(s)
      case _ => Err(SQLiteError(InvalidColumnType(i)))
  }

  /** `row.get::<_, Option<String>>(i)`: NULL reads as `None`. */
  function GetOptionalText(row: Row, i: nat): Result<Option<string>, DbError> {
    if i >= |row| then Err(SQLiteError(InvalidColumnIndex(i)))
    else match row[i]
      case Null => Ok(None)
      case Text(s) => Ok(Some(s))
      case _ => Err(SQLiteError(InvalidColumnType(i)))
  }

  /** `row.get::<_, bool>(i)`: any non-zero integer is true. */
  function GetBool(row: Row, i: nat): Result<bool, DbError> {
    if i >= |row| then Err(SQLiteError(InvalidColumnIndex(i)))
    else match row[i]
      case Integer(n) => Ok(n != 0)
      case _ => Err(SQLiteError(InvalidColumnType(i)))
  }

  datatype Watcher = Watcher(
    id: nat,
    userUri: string,
    playlistFrom: PlaylistType,
    playlistTo: PlaylistType,
    shouldRemove: bool,
    syncInterval: SyncInterval,
    lastSyncAt: Option<int>,
    nextSyncAt: Option<int>,
    createdAt: int)

  /** A stored playlist value, with a parse failure reported as an invalid id. */
  function DecodePlaylist(value: string): Result<PlaylistType, DbError> {
    match TryFromValue(value)
    case Ok(p) => Ok(p)
    case Err(_) => Err(InvalidId(value))
  }

  /** The lenient reading of an optional time: text that does not parse is `None`. */
  function LenientTime(cell: Option<string>, parseTime: string -> Option<int>): Option<int> {
    match cell
    case None => None
    case Some(t) => parseTime(t)
  }

  /** The strict reading of a time: text that does not parse is an error. */
  function StrictTime(t: string, parseTime: string -> Option<int>): Result<int, DbError> {
    match parseTime(t)
    case Some(v) => Ok(v)
    case None => Err(DateParseError(t))
  }

  /**
   * `Watcher::try_from(&Row)` (src/db/model/watcher.rs:26-38): the fields are
   * read in column order and the first failure is the result.
   */
  function DecodeWatcher(row: Row, parseTime: string -> Option<int>): Result<Watcher, DbError> {
    var id :- GetU32(row, IdColumn);
    var userUri :- GetText(row, UserUriColumn);
    var fromText :- GetText(row, FromColumn);
    var from :- DecodePlaylist(fromText);
    var toText :- GetText(row, ToColumn);
    var to :- DecodePlaylist(toText);
    var shouldRemove :- GetBool(row, ShouldRemoveColumn);
    var intervalText :- GetText(row, IntervalColumn);
    var interval :- IntervalFromStr(intervalText);
    var last :- GetOptionalText(row, LastSyncColumn);
    var next :- GetOptionalText(row, NextSyncColumn);
    var createdText :- GetText(row, CreatedAtColumn);
    var created :- StrictTime(createdText, parseTime);
    Ok(Watcher(id, userUri, from, to, shouldRemove, interval,
      LenientTime(last, parseTime), LenientTime(next, parseTime), created))
  }

  /** The cell a time is stored in: its RFC 3339 text, or NULL. */
  function TimeCell(t: Option<int>, formatTime: int -> string): SqlValue {
    match t
    case None => Null
    case Some(v) => Text(formatTime(v))
  }

  /** The row that stores a watcher, in `COLUMNS` order. */
  function EncodeWatcher(w: Watcher, formatTime: int -> string): (row: Row)
    ensures |row| == |Columns|
  {
    [Integer(w.id), Text(w.userUri), Text(ToValue(w.playlistFrom)), Text(ToValue(w.playlistTo)),
     Integer(if w.shouldRemove then 1 else 0), Text(IntervalToString(w.syncInterval)),
     TimeCell(w.lastSyncAt, formatTime), TimeCell(w.nextSyncAt, formatTime),
     Text(formatTime(w.createdAt))]
  }

  /** The date library reads back every time it prints. */
  ghost predicate TimeCodec(parseTime: string -> Option<int>, formatTime: int -> string) {
    forall t :: parseTime(formatTime(t)) == Some(t)
  }

  /** A watcher that can be stored: a 32-bit id and well-formed endpoints. */
  predicate Storable(w: Watcher) {
    w.id < U32Limit && WellFormed(w.playlistFrom) && WellFormed(w.playlistTo)
  }

  /** Round trip: a storable watcher decodes back from the row that stores it. */
  lemma DecodeEncode(w: Watcher, parseTime: string -> Option<int>, formatTime: int -> string)
    requires Storable(w) && TimeCodec(parseTime, formatTime)
    ensures DecodeWatcher(EncodeWatcher(w, formatTime), parseTime) == Ok(w)
  {
    var row := EncodeWatcher(w, formatTime);
    TryFromToValue(w.playlistFrom);
    TryFromToValue(w.playlistTo);
    assert DecodePlaylist(ToValue(w.playlistFrom)) == Ok(w.playlistFrom);
    assert DecodePlaylist(ToValue(w.playlistTo)) == Ok(w.playlistTo);
    IntervalRoundTrip(w.syncInterval);
    assert GetText(row, IntervalColumn) == Ok(IntervalToString(w.syncInterval));
    assert StrictTime(formatTime(w.createdAt), parseTime) == Ok(w.createdAt);
    assert LenientTime(GetOptionalText(row, LastSyncColumn).value, parseTime) == w.lastSyncAt by {
      if w.lastSyncAt.Some? {
        assert parseTime(formatTime(w.lastSyncAt.value)) == Some(w.lastSyncAt.value);
      }
    }
    assert LenientTime(GetOptionalText(row, NextSyncColumn).value, parseTime) == w.nextSyncAt by {
      if w.nextSyncAt.Some? {
        assert parseTime(formatTime(w.nextSyncAt.value)) == Some(w.nextSyncAt.value);
      }
    }
  }

  /**
   * A decoded watcher is built from the cells at the positions `COLUMNS`
   * names, and only from those: the row has all nine columns, each field is
   * read from its own cell, and the row's length beyond them is ignored.
   */
  lemma DecodeReadsColumns(row: Row, parseTime: string -> Option<int>)
    requires DecodeWatcher(row, parseTime).Ok?
    ensures |row| >= |Columns|
    ensures DecodeWatcher(row[..|Columns|], parseTime) == DecodeWatcher(row, parseTime)
    ensures var w := DecodeWatcher(row, parseTime).value;
      && row[IdColumn] == Integer(w.id)
      && row[UserUriColumn] == Text(w.userUri)
      && row[FromColumn].Text? && TryFromValue(row[FromColumn].s) == Ok(w.playlistFrom)
      && row[ToColumn].Text? && TryFromValue(row[ToColumn].s) == Ok(w.playlistTo)
      && row[ShouldRemoveColumn].Integer? && w.shouldRemove == (row[ShouldRemoveColumn].n != 0)
      && row[IntervalColumn] == Text(IntervalToString(w.syncInterval))
      && row[CreatedAtColumn].Text? && parseTime(row[CreatedAtColumn].s) == Some(w.createdAt)
  {
    var w := DecodeWatcher(row, parseTime).value;
    IntervalFromStrExact(row[IntervalColumn].s);
  }

  /**
   * The optional times are read leniently: whatever text is stored in
   * `last_sync_at` and `next_sync_at`, a row that decodes still decodes, and
   * text that does not parse becomes `None`.
   */
  lemma LenientSyncTimes(row: Row, parseTime: string -> Option<int>, last: string, next: string)
    requires DecodeWatcher(row, parseTime).Ok?
    ensures DecodeWatcher(row[LastSyncColumn := Text(last)][NextSyncColumn := Text(next)], parseTime)
      == Ok(DecodeWatcher(row, parseTime).value.(lastSyncAt := parseTime(last), nextSyncAt := parseTime(next)))
  {
    DecodeReadsColumns(row, parseTime);
  }

  /** Rewriting the stored next sync time changes only that field of the decoded watcher. */
  lemma NextSyncRewrite(row: Row, parseTime: string -> Option<int>, next: string)
    requires DecodeWatcher(row, parseTime).Ok?
    ensures DecodeWatcher(row[NextSyncColumn := Text(next)], parseTime)
      == Ok(DecodeWatcher(row, parseTime).value.(nextSyncAt := parseTime(next)))
  {
    DecodeReadsColumns(row, parseTime);
  }

  /** The creation time is read strictly: text that does not parse fails the row. */
  lemma StrictCreatedAt(row: Row, parseTime: string -> Option<int>, created: string)
    requires DecodeWatcher(row, parseTime).Ok?
    requires parseTime(created).None?
    ensures DecodeWatcher(row[CreatedAtColumn := Text(created)], parseTime) == Err(DateParseError(created))
  {
    DecodeReadsColumns(row, parseTime);
  }

  /** An interval name that does not parse fails the row. */
  lemma InvalidIntervalFails(row: Row, parseTime: string -> Option<int>, interval: string)
    requires DecodeWatcher(row, parseTime).Ok?
    requires IntervalFromStr(interval).Err?
    ensures DecodeWatcher(row[IntervalColumn := Text(interval)], parseTime) == Err(InvalidSyncInterval(interval))
  {
    DecodeReadsColumns(row, parseTime);
  }

  /** A source or target value that does not decode fails the row. */
  lemma InvalidPlaylistFails(row: Row, parseTime: string -> Option<int>, value: string, column: nat)
    requires DecodeWatcher(row, parseTime).Ok?
    requires column == FromColumn || column == ToColumn
    requires TryFromValue(value).Err?
    ensures DecodeWatcher(row[column := Text(value)], parseTime) == Err(InvalidId(value))
  {
    DecodeReadsColumns(row, parseTime);
  }
}
