/**
 * The admin catalog manager: forms that add tour types and locations, an
 * inline editor for a location's per-person prices, and an image upload that
 * fills in the location's image path.
 *
 * Price text is parsed by `ParsePrice`; `BuildPricePayload` collects the
 * parsed prices and names the first required duration without one.  The
 * component's state and its handlers form the class `Manager`; the writes it
 * makes to the catalog are returned to the caller, and the outcome of the
 * storage upload is a parameter.
 */
module AdminCatalog {
  import opened Ecma
  import opened Pricing
  import opened Catalog

  /** The text typed for each duration's price. */
  datatype PriceInputs = PriceInputs(full: string, half: string)

  function PriceInput(prices: PriceInputs, d: Duration): string {
    if d == Full then prices.full else prices.half
  }

  /** `emptyPriceInputs()`. */
  const EmptyPriceInputs := PriceInputs("", "")

  /** `ALL_DURATIONS`. */
  const AllDurations: seq<Duration> := [Full, Half]

  // ---------------------------------------------------------------------------
  // Prices

  /** `parsePrice`: blank text, text that is not a finite number and numbers
      that round below zero give no price; anything else is rounded to the
      nearest whole baht. */
  function ParsePrice(value: string): (r: Option<int>)
    ensures AllWhitespace(value) ==> r == None
    ensures ToFiniteNumber(value).None? ==> r == None
    ensures r.Some? ==> r.value >= 0 && r.value == Round(ToFiniteNumber(value).value)
    ensures !AllWhitespace(value) && ToFiniteNumber(value).Some? && Round(ToFiniteNumber(value).value) >= 0 ==> r.Some?
  {
    if Trim(value) == "" then None
    else match ToFiniteNumber(value)
      case None => None
      case Some(parsed) =>
        var rounded := Round(parsed);
        if rounded < 0 then None else Some(rounded)
  }

  /** A price shown as `String(n)` parses back to `n` when it is not
      negative, and to no price when it is. */
  lemma ParsePriceOfIntToString(n: int)
    ensures ParsePrice(IntToString(n)) == if n >= 0 then Some(n) else None
  {
    var s := IntToString(n);
    ToFiniteNumberOfIntToString(n);
    assert s[0] == '-' || IsDigit(s[0]);
    assert Trim(s) != [];
  }

  /** `String(NaN)` does not parse as a price. */
  lemma ParsePriceOfNaN()
    ensures ParsePrice("NaN") == None
  {
    TrimUnchanged("NaN");
    UnsignedDecimalOfNonNumeric("NaN");
  }

  /** `String(Infinity)` does not parse as a price. */
  lemma ParsePriceOfInfinity()
    ensures ParsePrice("Infinity") == None
  {
    var t := "Infinity";
    TrimUnchanged(t);
    assert t[0] == 'I';
    assert SignedDecimal(t) == None;
    assert ToFiniteNumber("Infinity") == None;
  }

  /** `String(-Infinity)` does not parse as a price. */
  lemma ParsePriceOfNegativeInfinity()
    ensures ParsePrice("-Infinity") == None
  {
    TrimUnchanged("-Infinity");
    assert "-Infinity"[1..] == "Infinity";
    assert SignedDecimal("-Infinity") == None;
    assert ToFiniteNumber("-Infinity") == None;
  }

  /** `payload` with the price of `d` added when its text parses. */
  function AddPrice(payload: map<Duration, int>, prices: PriceInputs, d: Duration): map<Duration, int> {
    var parsed := ParsePrice(PriceInput(prices, d));
    if parsed.Some? then payload[d := parsed.value] else payload
  }

  /** The payload after the first `k` durations of `ALL_DURATIONS`. */
  function PayloadUpTo(prices: PriceInputs, k: nat): map<Duration, int>
    requires k <= |AllDurations|
  {
    if k == 0 then map[] else AddPrice(PayloadUpTo(prices, k - 1), prices, AllDurations[k - 1])
  }

  /** The prices the payload holds: every duration whose text parses. */
  function PricePayload(prices: PriceInputs): (payload: map<Duration, int>)
    ensures Full in payload <==> ParsePrice(prices.full).Some?
    ensures Half in payload <==> ParsePrice(prices.half).Some?
    ensures Full in payload ==> payload[Full] == ParsePrice(prices.full).value
    ensures Half in payload ==> payload[Half] == ParsePrice(prices.half).value
    ensures forall d :: d in payload ==> payload[d] >= 0
  {
    var full := ParsePrice(prices.full);
    var half := ParsePrice(prices.half);
    var withFull := if full.Some? then map[Full := full.value] else map[];
    if half.Some? then withFull[Half := half.value] else withFull
  }

  /** Adding the durations one by one in `ALL_DURATIONS` order builds the
      whole payload. */
  lemma PayloadUpToAll(prices: PriceInputs)
    ensures PayloadUpTo(prices, |AllDurations|) == PricePayload(prices)
  {
    assert PayloadUpTo(prices, 1) == AddPrice(map[], prices, Full);
  }

  /** The first of `required` without a price in `payload`. */
  function FirstMissing(payload: map<Duration, int>, required: seq<Duration>): (r: Option<Duration>)
    ensures r.None? <==> forall i :: 0 <= i < |required| ==> required[i] in payload
    ensures r.Some? ==> r.value in required && r.value !in payload
    ensures r.Some? ==> exists k | 0 <= k < |required| :: required[k] == r.value && forall j | 0 <= j < k :: required[j] in payload
  {
    if required == [] then None
    else if required[0] !in payload then Some(required[0])
    else
      var rest := FirstMissing(payload, required[1..]);
      assert forall i :: 1 <= i < |required| ==> required[i] == required[1..][i - 1];
      if rest.Some? then
        assert exists k | 0 <= k < |required| :: required[k] == rest.value && forall j | 0 <= j < k :: required[j] in payload by {
          var k :| 0 <= k < |required[1..]| && required[1..][k] == rest.value && forall j | 0 <= j < k :: required[1..][j] in payload;
          assert required[k + 1] == rest.value;
        }
        rest
      else rest
  }

  function MissingPriceMessage(d: Duration): string {
    "Please provide a valid " + DurationName(d) + " price."
  }

  /** The error `buildPricePayload` reports, or "". */
  function PayloadError(payload: map<Duration, int>, required: seq<Duration>): (error: string)
    ensures error == "" <==> forall i :: 0 <= i < |required| ==> required[i] in payload
    ensures error != "" ==> exists k | 0 <= k < |required| ::
      required[k] !in payload && error == MissingPriceMessage(required[k]) && forall j | 0 <= j < k :: required[j] in payload
  {
    match FirstMissing(payload, required)
    case None => ""
    case Some(d) => MissingPriceMessage(d)
  }

  /** `buildPricePayload`. */
  method BuildPricePayload(prices: PriceInputs, required: seq<Duration>) returns (error: string, payload: map<Duration, int>)
    ensures payload == PricePayload(prices)
    ensures error == PayloadError(payload, required)
  {
    payload := CollectPrices(prices);
    error := FindMissingPrice(payload, required);
  }

  /** The first loop of `buildPricePayload`: every duration whose text
      parses, in `ALL_DURATIONS` order. */
  method CollectPrices(prices: PriceInputs) returns (payload: map<Duration, int>)
    ensures payload == PricePayload(prices)
  {
    payload := map[];
    for k := 0 to |AllDurations|
      invariant payload == PayloadUpTo(prices, k)
    {
      var d := AllDurations[k];
      var parsed := ParsePrice(PriceInput(prices, d));
      if parsed.Some? {
        payload := payload[d := parsed.value];
      }
    }
    PayloadUpToAll(prices);
  }

  /** The second loop of `buildPricePayload`: the message for the first
      required duration without a price. */
  method FindMissingPrice(payload: map<Duration, int>, required: seq<Duration>) returns (error: string)
    ensures error == PayloadError(payload, required)
  {
    for k := 0 to |required|
      invariant FirstMissing(payload, required) == FirstMissing(payload, required[k..])
    {
      if required[k] !in payload {
        return MissingPriceMessage(required[k]);
      }
      assert required[k..][1..] == required[k + 1..];
    }
    return "";
  }

  /** The durations whose price is required: the supported ones, or both
      when none are ticked. */
  function RequiredDurations(available: seq<Duration>): (r: seq<Duration>)
    ensures |r| > 0
    ensures forall d :: d in r <==> d in available || available == []
  {
    assert forall d: Duration :: d in AllDurations by {
      forall d: Duration ensures d in AllDurations {
        if d == Full { assert AllDurations[0] == d; } else { assert AllDurations[1] == d; }
      }
    }
    if |available| > 0 then available else AllDurations
  }

  // ---------------------------------------------------------------------------
  // The price editor

  /** The editor's text for a stored price: `String(price)` when a number is
      stored, "" otherwise. */
  function EditorInput(prices: map<Duration, Number>, d: Duration): string {
    if d in prices then NumberToString(prices[d]) else ""
  }

  function EditorInputs(prices: map<Duration, Number>): PriceInputs {
    PriceInputs(EditorInput(prices, Full), EditorInput(prices, Half))
  }

  lemma ParsePriceOfStoredNumber(x: Number)
    ensures ParsePrice(NumberToString(x)) == if x.Finite? && x.value >= 0 then Some(x.value) else None
  {
    match x
    case Finite(n) => ParsePriceOfIntToString(n);
    case NaN => ParsePriceOfNaN();
    case Infinity(negative) => if negative { ParsePriceOfNegativeInfinity(); } else { ParsePriceOfInfinity(); }
  }

  /** Opening the editor and saving it untouched keeps exactly the stored
      prices that are whole numbers of baht not below zero. */
  lemma EditorRoundTrip(prices: map<Duration, Number>)
    ensures var payload := PricePayload(EditorInputs(prices));
      && (Full in payload <==> Full in prices && prices[Full].Finite? && prices[Full].value >= 0)
      && (Half in payload <==> Half in prices && prices[Half].Finite? && prices[Half].value >= 0)
      && (Full in payload ==> payload[Full] == prices[Full].value)
      && (Half in payload ==> payload[Half] == prices[Half].value)
  {
    EditorPriceRoundTrip(prices, Full);
    EditorPriceRoundTrip(prices, Half);
  }

  /** One duration's editor text parses back to its stored price. */
  lemma EditorPriceRoundTrip(prices: map<Duration, Number>, d: Duration)
    ensures ParsePrice(EditorInput(prices, d))
         == if d in prices && prices[d].Finite? && prices[d].value >= 0 then Some(prices[d].value) else None
  {
    if d in prices {
      ParsePriceOfStoredNumber(prices[d]);
    } else {
      assert EditorInput(prices, d) == "";
    }
  }

  // ---------------------------------------------------------------------------
  // Slugs and upload paths

  predicate IsSlugChar(c: char) {
    ('a' <= c <= 'z') || ('0' <= c <= '9')
  }

  /** Runs of `[a-z0-9]` separated by single hyphens. */
  predicate IsSlugText(s: string) {
    && (forall i :: 0 <= i < |s| ==> IsSlugChar(s[i]) || s[i] == '-')
    && (forall i :: 0 <= i < |s| - 1 ==> !(s[i] == '-' && s[i + 1] == '-'))
  }

  /** The letters and digits of `s`, in order. */
  function SlugChars(s: string): seq<char> {
    if s == [] then [] else (if IsSlugChar(s[0]) then [s[0]] else []) + SlugChars(s[1..])
  }

  /** Skips a run of characters outside `[a-z0-9]`. */
  function SkipNonSlug(s: string): (r: string)
    ensures r == [] || IsSlugChar(r[0])
    ensures SlugChars(r) == SlugChars(s)
    ensures |r| <= |s|
  {
    if s == [] || IsSlugChar(s[0]) then s else SkipNonSlug(s[1..])
  }

  /** `.replace(/[^a-z0-9]+/g, "-")`: each maximal run of other characters
      becomes one hyphen. */
  function CollapseNonSlug(s: string): (r: string)
    ensures IsSlugText(r)
    ensures SlugChars(r) == SlugChars(s)
    ensures r == [] <==> s == []
    ensures r != [] ==> (r[0] == '-' <==> !IsSlugChar(s[0]))
    ensures Count(r, '-') == NonSlugRuns(s)
    decreases |s|
  {
    if s == [] then []
    else if IsSlugChar(s[0]) then
      var rest := CollapseNonSlug(s[1..]);
      var r := [s[0]] + rest;
      assert r[1..] == rest;
      r
    else
      var rest := CollapseNonSlug(SkipNonSlug(s[1..]));
      var r := "-" + rest;
      assert r[1..] == rest;
      RunStartsAfterSkip(s[1..]);
      r
  }

  /** The runs of characters outside `[a-z0-9]` that start in `s`, where
      `afterSlug` tells whether the character before `s` was a letter or
      digit (or `s` starts the text). */
  function RunStarts(s: string, afterSlug: bool): nat {
    if s == [] then 0
    else (if afterSlug && !IsSlugChar(s[0]) then 1 else 0) + RunStarts(s[1..], IsSlugChar(s[0]))
  }

  /** The number of maximal runs of characters outside `[a-z0-9]`. */
  function NonSlugRuns(s: string): nat {
    RunStarts(s, true)
  }

  lemma {:induction false} RunStartsAfterSkip(t: string)
    ensures RunStarts(t, false) == NonSlugRuns(SkipNonSlug(t))
  {
    if t != [] && !IsSlugChar(t[0]) {
      RunStartsAfterSkip(t[1..]);
    }
  }

  /** `SkipNonSlug` removes a prefix of characters outside `[a-z0-9]` and
      keeps the rest as it is. */
  lemma {:induction false} SkipNonSlugIsSuffix(s: string)
    ensures var r := SkipNonSlug(s);
      && |r| <= |s| && r == s[|s| - |r|..]
      && forall i :: 0 <= i < |s| - |r| ==> !IsSlugChar(s[i])
  {
    if s != [] && !IsSlugChar(s[0]) {
      SkipNonSlugIsSuffix(s[1..]);
      assert forall i :: 1 <= i < |s| ==> s[i] == s[1..][i - 1];
    }
  }

  /** Skipping a run in front of more text: the run is skipped within the
      first part, or the whole first part is skipped. */
  lemma {:induction false} SkipNonSlugAppend(a: string, b: string)
    ensures SkipNonSlug(a + b) == if SkipNonSlug(a) == [] then SkipNonSlug(b) else SkipNonSlug(a) + b
  {
    if a == [] {
      assert a + b == b;
    } else if !IsSlugChar(a[0]) {
      assert (a + b)[1..] == a[1..] + b;
      SkipNonSlugAppend(a[1..], b);
    }
  }

  /** Text made only of letters and digits passes `CollapseNonSlug` unchanged. */
  lemma {:induction false} CollapseNonSlugOfSlugChars(s: string)
    requires forall i :: 0 <= i < |s| ==> IsSlugChar(s[i])
    ensures CollapseNonSlug(s) == s
  {
    if s != [] {
      CollapseNonSlugOfSlugChars(s[1..]);
    }
  }

  /** A non-empty run of other characters becomes a single hyphen. */
  lemma CollapseNonSlugOfRun(s: string)
    requires s != [] && forall i :: 0 <= i < |s| ==> !IsSlugChar(s[i])
    ensures CollapseNonSlug(s) == "-"
  {
    SkipNonSlugIsSuffix(s[1..]);
  }

  /** `CollapseNonSlug` works piece by piece: cutting the text anywhere but
      inside a run of other characters cuts the result at the same place.
      With the two lemmas above this fixes the result of every text. */
  lemma {:induction false} CollapseNonSlugAppend(a: string, b: string)
    requires a == [] || b == [] || IsSlugChar(a[|a| - 1]) || IsSlugChar(b[0])
    ensures CollapseNonSlug(a + b) == CollapseNonSlug(a) + CollapseNonSlug(b)
    decreases |a|, 1
  {
    if a == [] {
      assert a + b == b;
    } else if b == [] {
      assert a + b == a;
    } else if IsSlugChar(a[0]) {
      assert (a + b)[1..] == a[1..] + b;
      CollapseNonSlugAppend(a[1..], b);
    } else {
      CollapseNonSlugAppendAfterRun(a, b);
    }
  }

  /** The case of `CollapseNonSlugAppend` where the first part starts with a
      run of other characters. */
  lemma {:induction false} CollapseNonSlugAppendAfterRun(a: string, b: string)
    requires a != [] && b != [] && !IsSlugChar(a[0])
    requires IsSlugChar(a[|a| - 1]) || IsSlugChar(b[0])
    ensures CollapseNonSlug(a + b) == CollapseNonSlug(a) + CollapseNonSlug(b)
    decreases |a|, 0
  {
    var t := SkipNonSlug(a[1..]);
    SkipNonSlugAppend(a[1..], b);
    CollapseNonSlugOfRunHead(a, b);
    if t == [] {
      SkippedWholeText(a, b);
      assert SkipNonSlug(a[1..] + b) == b;
      assert CollapseNonSlug(a) == "-";
    } else {
      SkipNonSlugIsSuffix(a[1..]);
      assert t[|t| - 1] == a[|a| - 1];
      assert SkipNonSlug(a[1..] + b) == t + b;
      CollapseNonSlugAppend(t, b);
      HyphenThenConcat(CollapseNonSlug(t), CollapseNonSlug(b));
    }
  }

  lemma HyphenThenConcat(x: string, y: string)
    ensures "-" + (x + y) == ("-" + x) + y
  {
  }

  /** One step of `CollapseNonSlug` on a text that starts with a run, alone
      and followed by more text. */
  lemma CollapseNonSlugOfRunHead(a: string, b: string)
    requires a != [] && !IsSlugChar(a[0])
    ensures CollapseNonSlug(a + b) == "-" + CollapseNonSlug(SkipNonSlug(a[1..] + b))
    ensures CollapseNonSlug(a) == "-" + CollapseNonSlug(SkipNonSlug(a[1..]))
  {
    assert (a + b)[1..] == a[1..] + b;
  }

  /** When the whole tail of `a` is skipped, `a` is one run, so the text
      after it starts with a letter or digit and is not skipped. */
  lemma SkippedWholeText(a: string, b: string)
    requires a != [] && b != [] && !IsSlugChar(a[0])
    requires IsSlugChar(a[|a| - 1]) || IsSlugChar(b[0])
    requires SkipNonSlug(a[1..]) == []
    ensures SkipNonSlug(b) == b
  {
    SkipNonSlugIsSuffix(a[1..]);
    if |a| > 1 {
      assert a[|a| - 1] == a[1..][|a| - 2];
    }
  }

  /** `.replace(/^-+/, "")`. */
  function DropLeadingHyphens(s: string): (r: string)
    ensures r == [] || r[0] != '-'
    ensures IsSlugText(s) ==> IsSlugText(r)
    ensures SlugChars(r) == SlugChars(s)
  {
    if s != [] && s[0] == '-' then DropLeadingHyphens(s[1..]) else s
  }

  /** `.replace(/^-+/, "")` removes exactly the leading hyphens: a prefix of
      hyphens goes and the rest is kept as it is. */
  lemma {:induction false} DropLeadingHyphensIsSuffix(s: string)
    ensures var r := DropLeadingHyphens(s);
      && |r| <= |s| && r == s[|s| - |r|..]
      && forall i :: 0 <= i < |s| - |r| ==> s[i] == '-'
  {
    if s != [] && s[0] == '-' {
      DropLeadingHyphensIsSuffix(s[1..]);
      assert forall i :: 1 <= i < |s| ==> s[i] == s[1..][i - 1];
    }
  }

  lemma {:induction false} SlugCharsAppend(a: string, b: string)
    ensures SlugChars(a + b) == SlugChars(a) + SlugChars(b)
  {
    if a == [] {
      assert a + b == b;
    } else {
      var head := if IsSlugChar(a[0]) then [a[0]] else [];
      assert (a + b)[0] == a[0];
      assert (a + b)[1..] == a[1..] + b;
      assert SlugChars(a + b) == head + SlugChars(a[1..] + b);
      SlugCharsAppend(a[1..], b);
      assert SlugChars(a) == head + SlugChars(a[1..]);
    }
  }

  /** `.replace(/-+$/, "")`. */
  function DropTrailingHyphens(s: string): (r: string)
    ensures r == [] || r[|r| - 1] != '-'
    ensures IsSlugText(s) ==> IsSlugText(r)
    ensures SlugChars(r) == SlugChars(s)
    ensures |r| <= |s| && r == s[..|r|]
  {
    if s != [] && s[|s| - 1] == '-' then
      var front := s[..|s| - 1];
      SlugCharsAppend(front, "-");
      assert s == front + "-";
      DropTrailingHyphens(front)
    else s
  }

  lemma {:induction false} SlugCharsOfPrefix(s: string, n: nat)
    requires n <= |s|
    ensures SlugChars(s[..n]) <= SlugChars(s)
  {
    if n > 0 {
      SlugCharsOfPrefix(s[1..], n - 1);
      assert s[..n][1..] == s[1..][..n - 1];
    }
  }

  const SlugLength := 60

  /** `slugify`: lower case, runs of other characters to one hyphen, no
      hyphen at either end, at most 60 characters. */
  function Slugify(value: string): (r: string)
    ensures |r| <= SlugLength
    ensures IsSlugText(r)
    ensures r == [] || r[0] != '-'
  {
    var stripped := DropTrailingHyphens(DropLeadingHyphens(CollapseNonSlug(ToLower(value))));
    if |stripped| <= SlugLength then stripped else stripped[..SlugLength]
  }

  /** The slug keeps the letters and digits of the lower-cased name in order
      (all of them unless it was cut at 60 characters), is empty exactly when
      the name has none, and ends in a hyphen only when it was cut. */
  lemma SlugifyKeepsAlphanumerics(value: string)
    ensures SlugChars(Slugify(value)) <= SlugChars(ToLower(value))
    ensures |Slugify(value)| < SlugLength ==> SlugChars(Slugify(value)) == SlugChars(ToLower(value))
    ensures Slugify(value) == [] <==> SlugChars(ToLower(value)) == []
    ensures Slugify(value) != [] && Slugify(value)[|Slugify(value)| - 1] == '-' ==> |Slugify(value)| == SlugLength
  {
    var stripped := DropTrailingHyphens(DropLeadingHyphens(CollapseNonSlug(ToLower(value))));
    StrippedKeepsAlphanumerics(value);
    var r := Slugify(value);
    if |stripped| > SlugLength {
      assert r == stripped[..SlugLength];
      CutKeepsAlphanumerics(stripped, SlugLength);
    } else {
      assert r == stripped;
    }
  }

  lemma CutKeepsAlphanumerics(s: string, n: nat)
    requires 0 < n <= |s| && IsSlugChar(s[0])
    ensures SlugChars(s[..n]) <= SlugChars(s) && SlugChars(s[..n]) != []
  {
    SlugCharsOfPrefix(s, n);
    assert SlugChars(s[..n])[0] == s[0];
  }

  /** Before the cut at 60 characters, the slug holds exactly the letters
      and digits of the lower-cased name and starts with one of them. */
  lemma StrippedKeepsAlphanumerics(value: string)
    ensures var stripped := DropTrailingHyphens(DropLeadingHyphens(CollapseNonSlug(ToLower(value))));
      && SlugChars(stripped) == SlugChars(ToLower(value))
      && (stripped == [] || IsSlugChar(stripped[0]))
      && (stripped == [] <==> SlugChars(ToLower(value)) == [])
  {
    var lead := DropLeadingHyphens(CollapseNonSlug(ToLower(value)));
    var stripped := DropTrailingHyphens(lead);
    if stripped != [] {
      assert stripped[0] == lead[0];
      assert SlugChars(stripped)[0] == stripped[0];
    }
  }

  /** The extension of an uploaded file: the text after its last dot, or
      "jpg" when that is empty. */
  function FileExtension(fileName: string): (ext: string)
    ensures ext != [] && '.' !in ext
    ensures fileName == [] || fileName[|fileName| - 1] == '.' ==> ext == "jpg"
    ensures fileName != [] && fileName[|fileName| - 1] != '.' ==>
      exists k | 0 <= k < |fileName| :: fileName[k..] == ext && (k == 0 || fileName[k - 1] == '.')
  {
    var last := LastPiece(fileName, '.');
    LastPieceIsSuffix(fileName, '.');
    LastPieceEmpty(fileName, '.');
    if last == [] then "jpg" else last
  }

  /** The slug of the location name, with "location" standing in for an
      empty name or an empty slug. */
  function UploadBaseName(name: string): (base: string)
    ensures base != [] && IsSlugText(base) && base[0] != '-'
    ensures var named := if name == [] then "location" else name;
      && (SlugChars(ToLower(named)) == [] ==> base == "location")
      && (SlugChars(ToLower(named)) != [] ==> SlugChars(base) != [] && SlugChars(base) <= SlugChars(ToLower(named)))
      && (SlugChars(ToLower(named)) != [] && |base| < SlugLength ==> SlugChars(base) == SlugChars(ToLower(named)))
  {
    LocationIsSlugText();
    var named := if name == [] then "location" else name;
    SlugifyKeepsAlphanumerics(named);
    var slug := Slugify(named);
    if slug == [] then "location" else slug
  }

  lemma LocationIsSlugText()
    ensures IsSlugText("location")
  {
  }

  /** The storage path of an uploaded image, stamped with the upload time
      in milliseconds. */
  function UploadPath(name: string, now: nat, fileName: string): (path: string)
  {
    var folder := "locations/";
    var file := UploadBaseName(name) + "-" + NatToString(now) + "." + FileExtension(fileName);
    folder + file
  }

  /** The path lies under `locations/` and keeps the file's extension. */
  lemma UploadPathKeepsExtension(name: string, now: nat, fileName: string)
    ensures var path := UploadPath(name, now, fileName);
      path[..10] == "locations/" && LastPiece(path, '.') == FileExtension(fileName)
  {
    var base := UploadBaseName(name);
    var digits := NatToString(now);
    assert '.' !in base by {
      forall i | 0 <= i < |base| ensures base[i] != '.' { assert IsSlugChar(base[i]) || base[i] == '-'; }
    }
    assert '.' !in digits by {
      forall i | 0 <= i < |digits| ensures digits[i] != '.' { assert IsDigit(digits[i]); }
    }
    LastPieceOfStampedName(base, digits, FileExtension(fileName));
  }

  /** The extension is the last piece of a stamped upload path whose name
      and stamp hold no dot. */
  lemma LastPieceOfStampedName(base: string, digits: string, ext: string)
    requires '.' !in base && '.' !in digits && '.' !in ext
    ensures LastPiece("locations/" + (base + "-" + digits + "." + ext), '.') == ext
  {
    var stem := "locations/" + base + "-" + digits;
    assert '.' !in stem;
    assert "locations/" + (base + "-" + digits + "." + ext) == stem + ['.'] + ext;
    LastPieceAfterSeparator(stem, ext, '.');
  }

  // ---------------------------------------------------------------------------
  // Form clean-up

  predicate NonEmpty(s: string) { s != [] }

  /** Text with no `,` and no whitespace at either end. */
  predicate IsCleanPiece(t: string) {
    t == [] || (',' !in t && !IsWhitespace(t[0]) && !IsWhitespace(t[|t| - 1]))
  }

  /** The highlights text split at commas, each piece trimmed, blanks
      dropped: what is kept is non-empty and clean, and every piece that is
      not blank is kept. */
  function Highlights(text: string): (r: seq<string>)
    ensures forall i :: 0 <= i < |r| ==> r[i] != [] && IsCleanPiece(r[i])
    ensures forall i :: 0 <= i < |Split(text, ',')| && !AllWhitespace(Split(text, ',')[i]) ==> Trim(Split(text, ',')[i]) in r
    ensures IsSubsequence(r, Map(Split(text, ','), Trim))
    ensures forall h :: h != [] ==> Count(r, h) == Count(Map(Split(text, ','), Trim), h)
  {
    var pieces := Split(text, ',');
    var trimmed := Map(pieces, Trim);
    TrimmedPiecesAreClean(pieces);
    NonBlankPiecesKept(pieces);
    FilterIsSubsequence(trimmed, NonEmpty);
    assert forall h :: h != [] ==> Count(Filter(trimmed, NonEmpty), h) == Count(trimmed, h) by {
      forall h | h != [] ensures Count(Filter(trimmed, NonEmpty), h) == Count(trimmed, h) {
        FilterCount(trimmed, NonEmpty, h);
      }
    }
    Filter(trimmed, NonEmpty)
  }

  /** Trimmed pieces that held no comma are clean, and so is everything the
      filter keeps of them. */
  lemma TrimmedPiecesAreClean(pieces: seq<string>)
    requires forall i :: 0 <= i < |pieces| ==> ',' !in pieces[i]
    ensures forall i :: 0 <= i < |Filter(Map(pieces, Trim), NonEmpty)| ==> IsCleanPiece(Filter(Map(pieces, Trim), NonEmpty)[i])
  {
    var trimmed := Map(pieces, Trim);
    forall i | 0 <= i < |trimmed|
      ensures IsCleanPiece(trimmed[i])
    {
      CleanPieceOfTrim(pieces[i]);
    }
    FilterKeepsProperty(trimmed, NonEmpty, IsCleanPiece);
  }

  /** A piece that is not blank survives the filter, trimmed. */
  lemma NonBlankPiecesKept(pieces: seq<string>)
    ensures forall i :: 0 <= i < |pieces| && !AllWhitespace(pieces[i]) ==> Trim(pieces[i]) in Filter(Map(pieces, Trim), NonEmpty)
  {
    var trimmed := Map(pieces, Trim);
    forall i | 0 <= i < |pieces| && !AllWhitespace(pieces[i])
      ensures Trim(pieces[i]) in Filter(trimmed, NonEmpty)
    {
      assert trimmed[i] == Trim(pieces[i]);
      assert NonEmpty(trimmed[i]);
    }
  }

  /** Trimming a piece without commas leaves a clean piece. */
  lemma CleanPieceOfTrim(piece: string)
    requires ',' !in piece
    ensures IsCleanPiece(Trim(piece))
  {
    TrimKeepsAbsent(piece, ',');
  }

  /** `Array.from(new Set(ids.filter(Boolean)))`: the non-empty ids, first
      occurrence first, each once. */
  function DistinctIds(ids: seq<string>): (r: seq<string>)
    ensures NoDuplicates(r)
    ensures forall i :: 0 <= i < |r| ==> r[i] != []
    ensures forall i :: 0 <= i < |ids| && ids[i] != [] ==> ids[i] in r
    ensures forall i :: 0 <= i < |r| ==> r[i] in ids
  {
    var kept := Filter(ids, NonEmpty);
    Dedup(kept)
  }

  /** The distinct ids keep the order in which each first occurs. */
  lemma DistinctIdsKeepsFirstOccurrenceOrder(ids: seq<string>)
    ensures var r := DistinctIds(ids);
      forall i, j :: 0 <= i < j < |r| ==> FirstIndex(ids, r[i]) < FirstIndex(ids, r[j])
  {
    var kept := Filter(ids, NonEmpty);
    var r := Dedup(kept);
    DedupKeepsFirstOccurrenceOrder(kept);
    forall i, j | 0 <= i < j < |r| ensures FirstIndex(ids, r[i]) < FirstIndex(ids, r[j]) {
      FilterKeepsFirstIndexOrder(ids, NonEmpty, r[i], r[j]);
    }
  }

  /** A checkbox in a list of ticked values: ticking appends the value,
      unticking removes every copy of it; other values keep their place. */
  function Toggle<T(==,!new)>(list: seq<T>, x: T, checked: bool): (r: seq<T>)
    ensures checked ==> x in r
    ensures !checked ==> x !in r
    ensures forall i :: 0 <= i < |list| && list[i] != x ==> list[i] in r
    ensures forall i :: 0 <= i < |r| && r[i] != x ==> r[i] in list
    ensures checked ==> |r| == |list| + 1 && r[..|list|] == list && r[|list|] == x
    ensures !checked ==> IsSubsequence(r, list) && forall y :: y != x ==> Count(r, y) == Count(list, y)
  {
    if checked then list + [x]
    else
      var keep := y => y != x;
      FilterIsSubsequence(list, keep);
      assert forall y :: y != x ==> Count(Filter(list, keep), y) == Count(list, y) by {
        forall y | y != x ensures Count(Filter(list, keep), y) == Count(list, y) {
          FilterCount(list, keep, y);
        }
      }
      Filter(list, keep)
  }

  // ---------------------------------------------------------------------------
  // Documents written

  datatype TourTypeForm = TourTypeForm(labelText: string, description: string)

  datatype LocationForm = LocationForm(
    name: string,
    area: string,
    imagePath: string,
    highlights: string,
    description: string,
    tourTypeIds: seq<string>,
    availableDurations: seq<Duration>,
    pricePerPerson: PriceInputs)

  datatype TourTypeDoc = TourTypeDoc(labelTh: string, labelEn: string, descriptionTh: string, descriptionEn: string)

  datatype LocationDoc = LocationDoc(
    nameTh: string, nameEn: string,
    areaTh: string, areaEn: string,
    imagePath: string,
    highlights: seq<string>,
    descriptionTh: string, descriptionEn: string,
    tourTypeIds: seq<string>,
    availableDurations: seq<Duration>,
    pricePerPerson: map<Duration, int>)

  /** A form submission's result: the message shown, or the document to
      write. */
  datatype Outcome<T> = Rejected(message: string) | Accepted(doc: T)

  const EmptyTourTypeForm := TourTypeForm("", "")

  /** The location form after a reset: every current tour type ticked, both
      durations ticked, no prices. */
  function EmptyLocationForm(tourTypeIds: seq<string>): (form: LocationForm)
    ensures form.name == form.area == form.imagePath == form.highlights == form.description == ""
    ensures form.tourTypeIds == tourTypeIds && form.availableDurations == AllDurations
    ensures form.pricePerPerson == EmptyPriceInputs
  {
    LocationForm("", "", "", "", "", tourTypeIds, AllDurations, EmptyPriceInputs)
  }

  const MissingTourTypeName := "Please provide a tour type name."
  const MissingLocationName := "Please provide a location name."

  /** What `handleAddTourType` writes: the label and description in both
      languages, as typed. */
  function NewTourType(form: TourTypeForm): (r: Outcome<TourTypeDoc>)
    ensures r.Rejected? <==> AllWhitespace(form.labelText)
    ensures r.Rejected? ==> r.message == MissingTourTypeName
    ensures r.Accepted? ==> r.doc.labelTh == r.doc.labelEn == form.labelText && r.doc.descriptionTh == r.doc.descriptionEn == form.description
  {
    if Trim(form.labelText) == "" then Rejected(MissingTourTypeName)
    else Accepted(TourTypeDoc(form.labelText, form.labelText, form.description, form.description))
  }

  /** The properties every location document the form writes has. */
  predicate WellFormedLocationDoc(doc: LocationDoc) {
    && doc.nameTh == doc.nameEn && !AllWhitespace(doc.nameEn)
    && doc.areaTh == doc.areaEn && doc.descriptionTh == doc.descriptionEn
    && (forall i :: 0 <= i < |doc.highlights| ==> doc.highlights[i] != [] && IsCleanPiece(doc.highlights[i]))
    && NoDuplicates(doc.tourTypeIds) && (forall i :: 0 <= i < |doc.tourTypeIds| ==> doc.tourTypeIds[i] != [])
    && NoDuplicates(doc.availableDurations)
    && (forall d :: d in RequiredDurations(doc.availableDurations) ==> d in doc.pricePerPerson)
    && (forall d :: d in doc.pricePerPerson ==> doc.pricePerPerson[d] >= 0)
  }

  /** What `handleAddLocation` writes, or why it refuses. */
  function NewLocation(form: LocationForm): (r: Outcome<LocationDoc>)
    ensures r.Rejected? <==>
      AllWhitespace(form.name)
      || exists d :: d in RequiredDurations(Dedup(form.availableDurations)) && d !in PricePayload(form.pricePerPerson)
    ensures AllWhitespace(form.name) ==> r == Rejected(MissingLocationName)
    ensures r.Accepted? ==> WellFormedLocationDoc(r.doc)
    ensures !AllWhitespace(form.name) && r.Rejected? ==>
      r.message == PayloadError(PricePayload(form.pricePerPerson), RequiredDurations(Dedup(form.availableDurations)))
    ensures r.Accepted? ==>
      && r.doc.nameEn == form.name && r.doc.areaEn == form.area && r.doc.descriptionEn == form.description
      && r.doc.imagePath == form.imagePath && r.doc.highlights == Highlights(form.highlights)
      && r.doc.tourTypeIds == DistinctIds(form.tourTypeIds) && r.doc.availableDurations == Dedup(form.availableDurations)
      && r.doc.pricePerPerson == PricePayload(form.pricePerPerson)
  {
    if Trim(form.name) == "" then Rejected(MissingLocationName)
    else
      var durations := Dedup(form.availableDurations);
      var payload := PricePayload(form.pricePerPerson);
      var error := PayloadError(payload, RequiredDurations(durations));
      if error != "" then Rejected(error)
      else
        Accepted(LocationDoc(form.name, form.name, form.area, form.area, form.imagePath,
          Highlights(form.highlights), form.description, form.description,
          DistinctIds(form.tourTypeIds), durations, payload))
  }

  /** The checks and clean-up of `handleAddLocation`, up to the write. */
  method PrepareLocation(form: LocationForm) returns (outcome: Outcome<LocationDoc>)
    ensures outcome == NewLocation(form)
  {
    if Trim(form.name) == "" {
      return Rejected(MissingLocationName);
    }
    var highlights := Highlights(form.highlights);
    var ids := DistinctIds(form.tourTypeIds);
    var durations := Dedup(form.availableDurations);
    var required := RequiredDurations(durations);
    var error, payload := BuildPricePayload(form.pricePerPerson, required);
    if error != "" {
      return Rejected(error);
    }
    return Accepted(LocationDoc(form.name, form.name, form.area, form.area, form.imagePath,
      highlights, form.description, form.description, ids, durations, payload));
  }

  // ---------------------------------------------------------------------------
  // The component

  datatype UploadStatus = UploadIdle | Uploading | UploadSucceeded | UploadFailed

  const TourTypeAdded := "Tour type added."
  const LocationAdded := "Location added."
  const PriceUpdated := "Location price updated."
  const StorageNotConfigured := "Supabase is not configured."
  const UploadSucceededMessage := "Upload successful. Image path updated."

  class Manager {
    var tourTypeIds: seq<string>
    var tourForm: TourTypeForm
    var locationForm: LocationForm
    var editingLocationId: Option<string>
    var editingPrices: PriceInputs
    var message: string
    var uploadStatus: UploadStatus
    var uploadMessage: string

    /** No price text lingers once the editor is closed, and the editor is
        only ever open for a location with an id. */
    ghost predicate Valid()
      reads this
    {
      && (editingLocationId.None? ==> editingPrices == EmptyPriceInputs)
      && (editingLocationId.Some? ==> editingLocationId.value != "")
    }

    constructor ()
      ensures Valid()
      ensures tourTypeIds == [] && tourForm == EmptyTourTypeForm && locationForm == EmptyLocationForm([])
      ensures editingLocationId == None && editingPrices == EmptyPriceInputs
      ensures message == "" && uploadStatus == UploadIdle && uploadMessage == ""
    {
      tourTypeIds := [];
      tourForm := EmptyTourTypeForm;
      locationForm := EmptyLocationForm([]);
      editingLocationId := None;
      editingPrices := EmptyPriceInputs;
      message := "";
      uploadStatus := UploadIdle;
      uploadMessage := "";
    }

    /** The catalog-load effect: an empty tour-type list falls back to the
        seed ids, and a location form with no tour type ticked gets all of
        them. */
    method LoadCatalog(loadedTourTypeIds: seq<string>)
      requires Valid()
      modifies this
      ensures Valid()
      ensures tourTypeIds == if |loadedTourTypeIds| > 0 then loadedTourTypeIds else SeedTourTypeIds
      ensures locationForm == if |old(locationForm.tourTypeIds)| > 0 then old(locationForm) else old(locationForm).(tourTypeIds := tourTypeIds)
      ensures tourForm == old(tourForm) && editingLocationId == old(editingLocationId) && editingPrices == old(editingPrices)
      ensures message == old(message) && uploadStatus == old(uploadStatus) && uploadMessage == old(uploadMessage)
    {
      tourTypeIds := if |loadedTourTypeIds| > 0 then loadedTourTypeIds else SeedTourTypeIds;
      if |locationForm.tourTypeIds| == 0 {
        locationForm := locationForm.(tourTypeIds := tourTypeIds);
      }
    }

    /** `handleAddTourType`; returns the document handed to the store, if
        any.  `stored` is whether the store accepted the write: a refused
        write ends the handler with the form kept and no message. */
    method HandleAddTourType(stored: bool) returns (written: Option<TourTypeDoc>)
      requires Valid()
      modifies this
      ensures Valid()
      ensures NewTourType(old(tourForm)).Rejected? ==>
        written == None && tourForm == old(tourForm) && message == NewTourType(old(tourForm)).message
      ensures NewTourType(old(tourForm)).Accepted? ==>
        && written == Some(NewTourType(old(tourForm)).doc)
        && (stored ==> tourForm == EmptyTourTypeForm && message == TourTypeAdded)
        && (!stored ==> tourForm == old(tourForm) && message == "")
      ensures tourTypeIds == old(tourTypeIds) && locationForm == old(locationForm)
      ensures editingLocationId == old(editingLocationId) && editingPrices == old(editingPrices)
      ensures uploadStatus == old(uploadStatus) && uploadMessage == old(uploadMessage)
    {
      message := "";
      if Trim(tourForm.labelText) == "" {
        message := MissingTourTypeName;
        return None;
      }
      written := Some(TourTypeDoc(tourForm.labelText, tourForm.labelText, tourForm.description, tourForm.description));
      if !stored {
        return;
      }
      tourForm := EmptyTourTypeForm;
      message := TourTypeAdded;
    }

    /** `handleAddLocation`: the outcome of the form; an accepted document
        is handed to the store and, once `stored`, the form is reset; a
        rejection leaves the form as it was and shows its message, and a
        refused write leaves it with no message. */
    method HandleAddLocation(stored: bool) returns (outcome: Outcome<LocationDoc>)
      requires Valid()
      modifies this
      ensures Valid()
      ensures outcome == NewLocation(old(locationForm))
      ensures outcome.Rejected? ==> locationForm == old(locationForm) && message == outcome.message
      ensures outcome.Accepted? && stored ==> locationForm == EmptyLocationForm(tourTypeIds) && message == LocationAdded
      ensures outcome.Accepted? && !stored ==> locationForm == old(locationForm) && message == ""
      ensures tourTypeIds == old(tourTypeIds) && tourForm == old(tourForm)
      ensures editingLocationId == old(editingLocationId) && editingPrices == old(editingPrices)
      ensures uploadStatus == old(uploadStatus) && uploadMessage == old(uploadMessage)
    {
      message := "";
      outcome := PrepareLocation(locationForm);
      if outcome.Rejected? {
        message := outcome.message;
        return;
      }
      if !stored {
        return;
      }
      locationForm := EmptyLocationForm(tourTypeIds);
      message := LocationAdded;
    }

    /** `handleStartEditPrice`: open the editor on the stored prices; a
        location without an id is ignored. */
    method HandleStartEditPrice(location: Location)
      requires Valid()
      modifies this
      ensures Valid()
      ensures location.id == "" ==>
        editingLocationId == old(editingLocationId) && editingPrices == old(editingPrices) && message == old(message)
      ensures location.id != "" ==>
        editingLocationId == Some(location.id) && editingPrices == EditorInputs(location.pricePerPerson) && message == ""
      ensures tourTypeIds == old(tourTypeIds) && tourForm == old(tourForm) && locationForm == old(locationForm)
      ensures uploadStatus == old(uploadStatus) && uploadMessage == old(uploadMessage)
    {
      if location.id == "" {
        return;
      }
      editingLocationId := Some(location.id);
      editingPrices := EditorInputs(location.pricePerPerson);
      message := "";
    }

    /** `handleCancelEditPrice`. */
    method HandleCancelEditPrice()
      requires Valid()
      modifies this
      ensures Valid()
      ensures editingLocationId == None && editingPrices == EmptyPriceInputs && message == ""
      ensures tourTypeIds == old(tourTypeIds) && tourForm == old(tourForm) && locationForm == old(locationForm)
      ensures uploadStatus == old(uploadStatus) && uploadMessage == old(uploadMessage)
    {
      editingLocationId := None;
      editingPrices := EmptyPriceInputs;
      message := "";
    }

    /** Typing in the price editor. */
    method EditPrice(d: Duration, text: string)
      requires Valid() && editingLocationId.Some?
      modifies this
      ensures Valid()
      ensures editingPrices == if d == Full then old(editingPrices).(full := text) else old(editingPrices).(half := text)
      ensures editingLocationId == old(editingLocationId) && message == old(message)
      ensures tourTypeIds == old(tourTypeIds) && tourForm == old(tourForm) && locationForm == old(locationForm)
      ensures uploadStatus == old(uploadStatus) && uploadMessage == old(uploadMessage)
    {
      editingPrices := if d == Full then editingPrices.(full := text) else editingPrices.(half := text);
    }

    /** `handleSaveEditPrice`; returns the price map handed to the store,
        if any.  A refused write (`stored` false) keeps the editor open with
        no message. */
    method HandleSaveEditPrice(location: Location, stored: bool) returns (update: Option<map<Duration, int>>)
      requires Valid()
      modifies this
      ensures Valid()
      ensures location.id == "" ==>
        update == None && editingLocationId == old(editingLocationId) && editingPrices == old(editingPrices) && message == old(message)
      ensures location.id != "" ==>
        var payload := PricePayload(old(editingPrices));
        var error := PayloadError(payload, RequiredDurations(location.availableDurations));
        && (error != "" ==>
              update == None && message == error && editingLocationId == old(editingLocationId) && editingPrices == old(editingPrices))
        && (error == "" ==> update == Some(payload))
        && (error == "" && stored ==>
              message == PriceUpdated && editingLocationId == None && editingPrices == EmptyPriceInputs)
        && (error == "" && !stored ==>
              message == "" && editingLocationId == old(editingLocationId) && editingPrices == old(editingPrices))
      ensures tourTypeIds == old(tourTypeIds) && tourForm == old(tourForm) && locationForm == old(locationForm)
      ensures uploadStatus == old(uploadStatus) && uploadMessage == old(uploadMessage)
    {
      if location.id == "" {
        return None;
      }
      message := "";
      var required := RequiredDurations(location.availableDurations);
      var error, payload := BuildPricePayload(editingPrices, required);
      update := FinishSaveEditPrice(error, payload, stored);
    }

    /** The end of `handleSaveEditPrice` once the payload is built: show the
        error, or hand the payload to the write and, when it is stored,
        close the editor. */
    method FinishSaveEditPrice(error: string, payload: map<Duration, int>, stored: bool)
      returns (update: Option<map<Duration, int>>)
      requires Valid()
      modifies this
      ensures Valid()
      ensures error != "" ==>
        update == None && message == error && editingLocationId == old(editingLocationId) && editingPrices == old(editingPrices)
      ensures error == "" ==> update == Some(payload)
      ensures error == "" && stored ==> message == PriceUpdated && editingLocationId == None && editingPrices == EmptyPriceInputs
      ensures error == "" && !stored ==>
        message == old(message) && editingLocationId == old(editingLocationId) && editingPrices == old(editingPrices)
      ensures tourTypeIds == old(tourTypeIds) && tourForm == old(tourForm) && locationForm == old(locationForm)
      ensures uploadStatus == old(uploadStatus) && uploadMessage == old(uploadMessage)
    {
      if error != "" {
        message := error;
        return None;
      }
      update := Some(payload);
      if !stored {
        return;
      }
      editingLocationId := None;
      editingPrices := EmptyPriceInputs;
      message := PriceUpdated;
    }

    /** A tour-type checkbox of the location form. */
    method ToggleTourType(id: string, checked: bool)
      requires Valid()
      modifies this
      ensures Valid()
      ensures locationForm == old(locationForm).(tourTypeIds := Toggle(old(locationForm.tourTypeIds), id, checked))
      ensures tourTypeIds == old(tourTypeIds) && tourForm == old(tourForm) && message == old(message)
      ensures editingLocationId == old(editingLocationId) && editingPrices == old(editingPrices)
      ensures uploadStatus == old(uploadStatus) && uploadMessage == old(uploadMessage)
    {
      locationForm := locationForm.(tourTypeIds := Toggle(locationForm.tourTypeIds, id, checked));
    }

    /** A duration checkbox of the location form. */
    method ToggleDuration(d: Duration, checked: bool)
      requires Valid()
      modifies this
      ensures Valid()
      ensures locationForm == old(locationForm).(availableDurations := Toggle(old(locationForm.availableDurations), d, checked))
      ensures tourTypeIds == old(tourTypeIds) && tourForm == old(tourForm) && message == old(message)
      ensures editingLocationId == old(editingLocationId) && editingPrices == old(editingPrices)
      ensures uploadStatus == old(uploadStatus) && uploadMessage == old(uploadMessage)
    {
      locationForm := locationForm.(availableDurations := Toggle(locationForm.availableDurations, d, checked));
    }

    /** `handleImageUpload`.  `storageConfigured` is whether the storage
        client exists, `now` the upload time and `uploadError` the storage
        service's error message, if it reports one.  Returns the path
        uploaded to, when the upload is attempted. */
    method HandleImageUpload(fileName: string, now: nat, storageConfigured: bool, uploadError: Option<string>)
      returns (path: Option<string>)
      requires Valid()
      modifies this
      ensures Valid()
      ensures !storageConfigured ==>
        path == None && uploadStatus == UploadFailed && uploadMessage == StorageNotConfigured && locationForm == old(locationForm)
      ensures storageConfigured ==> path == Some(UploadPath(old(locationForm.name), now, fileName))
      ensures storageConfigured && uploadError.Some? ==>
        uploadStatus == UploadFailed && uploadMessage == uploadError.value && locationForm == old(locationForm)
      ensures storageConfigured && uploadError.None? ==>
        uploadStatus == UploadSucceeded && uploadMessage == UploadSucceededMessage
        && locationForm == old(locationForm).(imagePath := path.value)
      ensures tourTypeIds == old(tourTypeIds) && tourForm == old(tourForm) && message == old(message)
      ensures editingLocationId == old(editingLocationId) && editingPrices == old(editingPrices)
    {
      uploadMessage := "";
      if !storageConfigured {
        uploadStatus := UploadFailed;
        uploadMessage := StorageNotConfigured;
        return None;
      }
      var target := UploadPath(locationForm.name, now, fileName);
      path := Some(target);
      uploadStatus := Uploading;
      uploadMessage := "Uploading...";
      if uploadError.Some? {
        uploadStatus := UploadFailed;
        uploadMessage := uploadError.value;
        return;
      }
      locationForm := locationForm.(imagePath := target);
      uploadStatus := UploadSucceeded;
      uploadMessage := UploadSucceededMessage;
    }
  }
}
