/**
 * `getPublicImageUrl`: how a stored image path becomes the URL an `<img>`
 * shows.  The path is trimmed and unquoted; absolute `http(s)` URLs and
 * site-relative paths pass through; a storage key is turned into the public
 * object URL of the `tour-images` bucket, one percent-encoded segment per
 * `/`-separated piece, or handed to the storage client when one exists.
 */
module ImageUrl {
  import opened Ecma
  import UriComponent

  const Bucket := "tour-images"

  /** `NEXT_PUBLIC_SUPABASE_URL` and `NEXT_PUBLIC_SUPABASE_ANON_KEY`, an
      unset variable read as "". */
  datatype Config = Config(url: string, anonKey: string)

  /** The storage client is created only when both settings are non-empty. */
  predicate HasClient(cfg: Config) {
    cfg.url != "" && cfg.anonKey != ""
  }

  /** What an image path resolves to: a URL computed here, or a lookup of the
      cleaned key by the storage client, which this model does not see. */
  datatype ImageSource = Direct(url: string) | ClientLookup(key: string)

  // ---------------------------------------------------------------------------
  // Cleaning the path

  predicate IsQuote(c: char) {
    c == '"' || c == '\''
  }

  /** The regular-expression replace that removes one quote at the start and
      one at the end; a lone quote is removed once. */
  function StripQuotes(s: string): (r: string)
    ensures |s| - 2 <= |r| <= |s|
    ensures exists k | 0 <= k <= 1 :: OccursAt(s, r, k)
    ensures r != s ==> IsQuote(s[0]) || IsQuote(s[|s| - 1])
    ensures exists k | 0 <= k <= 1 ::
      && OccursAt(s, r, k) && |s| - 1 <= k + |r|
      && (k == 1 <==> s != [] && IsQuote(s[0]))
      && (k + |r| < |s| <==> k < |s| && IsQuote(s[|s| - 1]))
  {
    var k := if s != [] && IsQuote(s[0]) then 1 else 0;
    var front := s[k..];
    var r := if front != [] && IsQuote(front[|front| - 1]) then front[..|front| - 1] else front;
    assert OccursAt(s, r, k);
    r
  }

  /** The cleaned path: trimmed, then unquoted. */
  function SafePath(path: string): (r: string)
    ensures exists k | 0 <= k <= |path| :: OccursAt(path, r, k)
    ensures var s := Trim(path);
      exists k | 0 <= k <= 1 ::
        && OccursAt(s, r, k) && |s| - 1 <= k + |r|
        && (k == 1 <==> s != [] && IsQuote(s[0]))
        && (k + |r| < |s| <==> k < |s| && IsQuote(s[|s| - 1]))
  {
    TrimIsInfix(path);
    StripQuotesIsInfix(Trim(path));
    InfixOfInfix(path, Trim(path), StripQuotes(Trim(path)));
    StripQuotes(Trim(path))
  }

  lemma StripQuotesIsInfix(s: string)
    ensures exists j | 0 <= j <= |s| :: OccursAt(s, StripQuotes(s), j)
  {
    var j :| 0 <= j <= 1 && OccursAt(s, StripQuotes(s), j);
    assert j <= |s| - |StripQuotes(s)|;
  }

  /** An infix of an infix is an infix. */
  lemma InfixOfInfix(s: string, t: string, u: string)
    requires exists k | 0 <= k <= |s| :: OccursAt(s, t, k)
    requires exists j | 0 <= j <= |t| :: OccursAt(t, u, j)
    ensures exists k | 0 <= k <= |s| :: OccursAt(s, u, k)
  {
    var k :| 0 <= k <= |s| && OccursAt(s, t, k);
    var j :| 0 <= j <= |t| && OccursAt(t, u, j);
    assert forall x | 0 <= x < |t| :: t[x] == s[k..k + |t|][x] == s[k + x];
    assert s[k + j..k + j + |u|] == t[j..j + |u|];
    assert OccursAt(s, u, k + j);
  }

  /** Quoting a text and stripping the quotes gives the text back. */
  lemma StripQuotesOfQuoted(q: char, inner: string, q': char)
    requires IsQuote(q) && IsQuote(q')
    ensures StripQuotes([q] + inner + [q']) == inner
  {
    var s := [q] + inner + [q'];
    assert s[1..] == inner + [q'];
    assert (inner + [q'])[..|inner|] == inner;
  }

  /** A text that neither starts nor ends with a quote is left alone. */
  lemma StripQuotesUnquoted(s: string)
    requires s == [] || (!IsQuote(s[0]) && !IsQuote(s[|s| - 1]))
    ensures StripQuotes(s) == s
  {
  }

  /** Only the outermost quotes go: quotes inside a quoted text are kept. */
  lemma StripQuotesOnce(inner: string)
    ensures StripQuotes("\"" + "'" + inner + "'" + "\"") == "'" + inner + "'"
  {
    StripQuotesOfQuoted('"', "'" + inner + "'", '"');
    assert "\"" + "'" + inner + "'" + "\"" == ['"'] + ("'" + inner + "'") + ['"'];
  }

  /** A path already clean comes out of the cleaning unchanged. */
  lemma SafePathOfCleanPath(path: string)
    requires path == [] || (!IsWhitespace(path[0]) && !IsWhitespace(path[|path| - 1])
      && !IsQuote(path[0]) && !IsQuote(path[|path| - 1]))
    ensures SafePath(path) == path
  {
    TrimUnchanged(path);
  }

  /** Surrounding blanks and quotes around a clean key are all removed. */
  lemma SafePathOfQuotedKey(key: string, q: char)
    requires IsQuote(q) && key != []
    requires !IsWhitespace(key[0]) && !IsWhitespace(key[|key| - 1])
    ensures SafePath(" " + [q] + key + [q] + " ") == key
  {
    var quoted := [q] + key + [q];
    assert " " + [q] + key + [q] + " " == [' '] + quoted + [' '];
    TrimOfSpaced(quoted);
    TrimUnchanged(quoted);
    StripQuotesOfQuoted(q, key, q);
  }

  lemma TrimOfSpaced(s: string)
    requires s != [] && !IsWhitespace(s[0]) && !IsWhitespace(s[|s| - 1])
    ensures Trim([' '] + s + [' ']) == s
  {
    var t := [' '] + s + [' '];
    assert t[1..] == s + [' '];
    assert (s + [' '])[..|s|] == s;
    TrimUnchanged(s);
  }

  // ---------------------------------------------------------------------------
  // Pass-through

  predicate StartsWith(s: string, prefix: string) {
    |prefix| <= |s| && s[..|prefix|] == prefix
  }

  /** `^https?://` matched ignoring case, or a leading `/`. */
  predicate IsPassThrough(s: string) {
    || StartsWith(ToLower(s), "http://")
    || StartsWith(ToLower(s), "https://")
    || StartsWith(s, "/")
  }

  /** Whether a path passes through does not depend on the case of its
      letters. */
  lemma PassThroughIgnoresCase(s: string)
    ensures IsPassThrough(ToLower(s)) <==> IsPassThrough(s)
  {
    ToLowerIdempotent(s);
    if s != [] {
      assert ToLower(s)[0] == '/' <==> s[0] == '/';
    }
  }

  /** A scheme in capitals still passes through. */
  lemma UpperCaseSchemePasses(rest: string)
    ensures IsPassThrough("HTTPS://" + rest)
  {
    assert ToLower("HTTPS://" + rest)[..8] == "https://";
  }

  // ---------------------------------------------------------------------------
  // Public object URLs

  /** Each `/`-separated segment percent-encoded, the slashes kept. */
  function EncodePath(path: string): (r: string)
    ensures Split(r, '/') == Map(Split(path, '/'), UriComponent.Encode)
    ensures Count(r, '/') == Count(path, '/')
  {
    var segments := Map(Split(path, '/'), UriComponent.Encode);
    forall i | 0 <= i < |segments|
      ensures '/' !in segments[i]
    {
      EncodedHasNoSlash(Split(path, '/')[i]);
    }
    SplitJoin(segments, '/');
    Join(segments, "/")
  }

  lemma EncodedHasNoSlash(s: string)
    ensures '/' !in UriComponent.Encode(s)
  {
    var e := UriComponent.Encode(s);
    assert forall i :: 0 <= i < |e| ==> e[i] != '/';
  }

  /** Each segment decoded, `None` when one of them is not a valid
      encoding. */
  function DecodeSegments(segments: seq<string>): (r: Option<seq<string>>)
    ensures r.Some? ==> |r.value| == |segments|
  {
    if segments == [] then Some([])
    else match (UriComponent.Decode(segments[0]), DecodeSegments(segments[1..]))
      case (Some(first), Some(rest)) => Some([first] + rest)
      case _ => None
  }

  /** The inverse of `EncodePath`: split at the slashes, decode each
      segment, join again. */
  function DecodePath(encoded: string): Option<string> {
    match DecodeSegments(Split(encoded, '/'))
    case None => None
    case Some(segments) => Some(Join(segments, "/"))
  }

  lemma {:induction false} DecodeEncodedSegments(segments: seq<string>)
    ensures DecodeSegments(Map(segments, UriComponent.Encode)) == Some(segments)
  {
    if segments != [] {
      var encoded := Map(segments, UriComponent.Encode);
      assert encoded[1..] == Map(segments[1..], UriComponent.Encode);
      DecodeEncodedSegments(segments[1..]);
      UriComponent.DecodeEncode(segments[0]);
      assert [segments[0]] + segments[1..] == segments;
    }
  }

  /** Decoding the encoded path gives the path back, slashes included. */
  lemma DecodeEncodePath(path: string)
    ensures DecodePath(EncodePath(path)) == Some(path)
  {
    DecodeEncodedSegments(Split(path, '/'));
    JoinSplit(path, '/');
  }

  /** The fixed part of a public object URL after the project URL. */
  const ObjectPrefix := "/storage/v1/object/public/" + Bucket + "/"

  /** The object key a public URL under `base` names, if it is one. */
  function ObjectKey(base: string, url: string): Option<string> {
    if StartsWith(url, base + ObjectPrefix) then DecodePath(url[|base + ObjectPrefix|..]) else None
  }

  // ---------------------------------------------------------------------------
  // getPublicImageUrl

  /** A path that survives cleaning and does not pass through: a key in
      the bucket. */
  predicate IsStorageKey(path: Option<string>) {
    path.Some? && SafePath(path.value) != "" && !IsPassThrough(SafePath(path.value))
  }

  function GetPublicImageUrl(cfg: Config, path: Option<string>): (r: ImageSource)
    ensures path.None? || SafePath(path.value) == "" ==> r == Direct("")
    ensures path.Some? && SafePath(path.value) != "" && IsPassThrough(SafePath(path.value))
      ==> r == Direct(SafePath(path.value))
    ensures r.ClientLookup? <==> IsStorageKey(path) && HasClient(cfg)
    ensures r.ClientLookup? ==> r.key == SafePath(path.value)
    ensures IsStorageKey(path) && cfg.url == "" ==> r == Direct("")
    ensures IsStorageKey(path) && !HasClient(cfg) && cfg.url != "" ==>
      r.Direct? && ObjectKey(cfg.url, r.url) == Some(SafePath(path.value))
    ensures IsStorageKey(path) && !HasClient(cfg) && cfg.url != "" ==>
      r == Direct(cfg.url + ObjectPrefix + EncodePath(SafePath(path.value)))
  {
    if path.None? || path.value == "" then Direct("")
    else
      var safe := SafePath(path.value);
      if safe == "" then Direct("")
      else if IsPassThrough(safe) then Direct(safe)
      else if !HasClient(cfg) then
        if cfg.url == "" then Direct("")
        else
          var url := cfg.url + ObjectPrefix + EncodePath(safe);
          ObjectUrlNamesKey(cfg.url, safe);
          Direct(url)
      else ClientLookup(safe)
  }

  /** The public URL built for a key names that key again. */
  lemma ObjectUrlNamesKey(base: string, key: string)
    ensures ObjectKey(base, base + ObjectPrefix + EncodePath(key)) == Some(key)
  {
    var url := base + ObjectPrefix + EncodePath(key);
    assert url[..|base + ObjectPrefix|] == base + ObjectPrefix;
    assert url[|base + ObjectPrefix|..] == EncodePath(key);
    DecodeEncodePath(key);
  }
}
