/**
 * The two pieces of logic in the configuration loader (src/config.rs): the
 * rewrite of environment variable names into configuration paths, and the
 * conversion of the configured log level into a tracing level filter.
 */
module Config {

  /** ASCII lowercasing of one character. */
  function LowerChar(c: char): char {
    if 'A' <= c <= 'Z' then (c as int - 'A' as int + 'a' as int) as char else c
  }

  /** `to_lowercase`, on ASCII text. */
  function ToLower(s: string): (r: string)
    ensures |r| == |s|
    ensures forall i :: 0 <= i < |s| ==> r[i] == LowerChar(s[i])
  {
    seq(|s|, i requires 0 <= i < |s| => LowerChar(s[i]))
  }

  /** The position of the first `c` in `s`, or `|s|` when there is none. */
  function FirstIndex(s: string, c: char): (i: nat)
    ensures i <= |s|
    ensures i < |s| ==> s[i] == c
    ensures forall j :: 0 <= j < i ==> s[j] != c
  {
    if s == [] then 0
    else if s[0] == c then 0
    else 1 + FirstIndex(s[1..], c)
  }

  /** `replacen(from, to, 1)` for one-character patterns: only the first `from` becomes `to`. */
  function ReplaceFirst(s: string, from: char, to: char): (r: string)
    ensures |r| == |s|
    ensures FirstIndex(s, from) < |s| ==> r[FirstIndex(s, from)] == to
    ensures forall j :: 0 <= j < |s| && j != FirstIndex(s, from) ==> r[j] == s[j]
  {
    if s == [] then []
    else if s[0] == from then [to] + s[1..]
    else [s[0]] + ReplaceFirst(s[1..], from, to)
  }

  /**
   * The key mapping given to `Env::raw().map` (src/config.rs:52): lowercase,
   * then the first underscore becomes a dot, so that `SPOTIFY_CLIENT_ID`
   * names `spotify.client_id`.
   */
  function EnvKey(key: string): string {
    ReplaceFirst(ToLower(key), '_', '.')
  }

  /**
   * The rewrite keeps the length; the first underscore becomes a dot and
   * every other character is the input's, lowercased, so a key without an
   * underscore is only lowercased and later underscores stay.
   */
  lemma {:induction false} EnvKeyShape(key: string)
    ensures |EnvKey(key)| == |key|
    ensures FirstIndex(key, '_') < |key| ==> EnvKey(key)[FirstIndex(key, '_')] == '.'
    ensures forall j :: 0 <= j < |key| && j != FirstIndex(key, '_') ==> EnvKey(key)[j] == LowerChar(key[j])
    ensures '_' !in key ==> EnvKey(key) == ToLower(key)
  {
    SameFirstUnderscore(key);
    if '_' !in key {
      assert forall j :: 0 <= j < |key| ==> key[j] != '_';
      assert EnvKey(key) == ToLower(key);
    }
  }

  /** Lowercasing moves no underscore. */
  lemma {:induction false} SameFirstUnderscore(key: string)
    ensures FirstIndex(ToLower(key), '_') == FirstIndex(key, '_')
  {
    var i := FirstIndex(key, '_');
    var low := ToLower(key);
    forall j | 0 <= j < i ensures low[j] != '_' {
      assert key[j] != '_';
    }
    if i < |key| {
      assert low[i] == '_';
    }
  }

  /** `LogLevel`, deserialised from its lowercase name. */
  datatype LogLevel = Trace | Debug | Info | Warn | Error

  /** tracing's `LevelFilter`, which can also switch logging off. */
  datatype LevelFilter = Off | ErrorFilter | WarnFilter | InfoFilter | DebugFilter | TraceFilter

  /** `From<LogLevel> for LevelFilter` (src/config.rs:69-79). */
  function ToLevelFilter(level: LogLevel): (r: LevelFilter)
    ensures r != Off
  {
    match level
    case Trace => TraceFilter
    case Debug => DebugFilter
    case Info => InfoFilter
    case Warn => WarnFilter
    case Error => ErrorFilter
  }

  /** How much a filter lets through: `Off` nothing, `TraceFilter` everything. */
  function Verbosity(f: LevelFilter): nat {
    match f
    case Off => 0
    case ErrorFilter => 1
    case WarnFilter => 2
    case InfoFilter => 3
    case DebugFilter => 4
    case TraceFilter => 5
  }

  /** How many levels a configured level enables, from `Error` (one) to `Trace` (all five). */
  function Enabled(level: LogLevel): nat {
    match level
    case Trace => 5
    case Debug => 4
    case Info => 3
    case Warn => 2
    case Error => 1
  }

  /**
   * The conversion is total and injective, never switches logging off, and
   * the filter lets through exactly the levels the configured level enables.
   */
  lemma ToLevelFilterFaithful(a: LogLevel, b: LogLevel)
    ensures ToLevelFilter(a) == ToLevelFilter(b) ==> a == b
    ensures Verbosity(ToLevelFilter(a)) == Enabled(a)
  {
  }
}
