/**
 * The two kinds of watcher endpoint (src/model/playlist.rs): the user's
 * "Liked Tracks" collection and a playlist with an id. They are stored as a
 * text value: the reserved word `_liked`, or the playlist's URI.
 */
module Playlists {
  import opened Common
  import opened Errors
  import opened PlaylistIds

  /** Stored value of the Liked Tracks collection (src/model/playlist.rs:6). */
  const LikedPlaylistValue: string := "_liked"

  datatype PlaylistType = Saved | Id(id: PlaylistId)

  /** Text shown to the user (src/model/playlist.rs:14-21). */
  function Display(p: PlaylistType): string {
    match p
    case Saved => "Liked Tracks"
    case Id(PlaylistId(value)) => value
  }

  /** `PlaylistType::to_value`: the text stored in the watcher table (src/model/playlist.rs:26-31). */
  function ToValue(p: PlaylistType): string {
    match p
    case Saved => LikedPlaylistValue
    case Id(id) => Uri(id)
  }

  /**
   * `PlaylistType::try_from_value` (src/model/playlist.rs:34-39): the reserved
   * word is recognised first; anything else goes through the id pattern search.
   */
  function TryFromValue(value: string): Result<PlaylistType, Error> {
    if value == LikedPlaylistValue then Ok(Saved)
    else
      var id :- Parse(value);
      Ok(Id(id))
  }

  /** A playlist type whose id, if any, is one the pattern can capture. */
  predicate WellFormed(p: PlaylistType) {
    p.Id? ==> IsValidIdText(p.id.value)
  }

  /** Only the Liked Tracks collection is stored as `_liked`; an id is stored as its URI. */
  lemma ToValueForms(p: PlaylistType)
    ensures ToValue(p) == LikedPlaylistValue <==> p.Saved?
    ensures p.Id? ==> ToValue(p) == UriPrefix + p.id.value
  {
    if p.Id? {
      assert |ToValue(p)| >= |UriPrefix| > |LikedPlaylistValue|;
    }
  }

  /** Round trip: every well-formed endpoint decodes back from its stored value. */
  lemma TryFromToValue(p: PlaylistType)
    requires WellFormed(p)
    ensures TryFromValue(ToValue(p)) == Ok(p)
  {
    ToValueForms(p);
    if p.Id? {
      ParseUri(p.id);
    }
  }

  /**
   * Any value other than `_liked` decodes exactly as the id search does: to
   * the captured id, or to `InvalidSpotifyId` carrying the value.
   */
  lemma TryFromValueOther(value: string)
    requires value != LikedPlaylistValue
    ensures Parse(value).Ok? ==> TryFromValue(value) == Ok(Id(Parse(value).value))
    ensures Parse(value).Err? ==> TryFromValue(value) == Err(InvalidSpotifyId(value))
  {
    ParseIsLeftmostMatch(value);
  }

  /**
   * Whatever decodes successfully is well formed, and its stored value
   * decodes to the same endpoint: `to_value` is the canonical encoding.
   */
  lemma TryFromValueCanonical(value: string)
    ensures TryFromValue(value).Ok? ==> WellFormed(TryFromValue(value).value)
    ensures TryFromValue(value).Ok? ==> TryFromValue(ToValue(TryFromValue(value).value)) == TryFromValue(value)
  {
    if TryFromValue(value).Ok? {
      ParseYieldsValidId(value);
      TryFromToValue(TryFromValue(value).value);
    }
  }

  /**
   * The display text is never the stored value, and the display text of a
   * well-formed id (the bare id, which has no colon) does not decode at all.
   */
  lemma DisplayIsNotValue(p: PlaylistType)
    requires WellFormed(p)
    ensures Display(p) != ToValue(p)
    ensures p.Id? ==> TryFromValue(Display(p)) == Err(InvalidSpotifyId(p.id.value))
  {
    if p.Id? {
      assert |ToValue(p)| == |UriPrefix| + |Display(p)|;
      forall k | 0 <= k < |p.id.value| ensures p.id.value[k] != ':' {
        assert IsAlnum(p.id.value[k]);
      }
      assert IsAlnum(p.id.value[0]) && !IsAlnum(LikedPlaylistValue[0]);
      ParseNeedsColon(p.id.value);
    }
  }
}
