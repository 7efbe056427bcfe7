/**
 * The data-URL parser of utils/imageUtils.ts.  A base64 data URL (RFC 2397,
 * section 3) has the shape `data:<media type>;base64,<payload>`, though the RFC
 * also allows parameters and leaves the media type and `;base64` optional.
 * `parseDataUrl` splits any URL on `,`, demands exactly two pieces, takes the
 * media type from the first match of the regular expression `:(.*?);` in the
 * header, and falls back to `image/png`.
 */
module ImageUtils {
  import opened Wrappers

  const InvalidDataUrl := "Invalid data URL"
  const DefaultMimeType := "image/png"

  datatype ParsedImage = ParsedImage(data: string, mimeType: string)

  /** Number of occurrences of `c` in `s`. */
  function Count(s: string, c: char): nat
  {
    if s == [] then 0 else (if s[0] == c then 1 else 0) + Count(s[1..], c)
  }

  /** The pieces glued back together with `sep` between neighbours. */
  function Join(parts: seq<string>, sep: char): string
  {
    if |parts| <= 1 then (if parts == [] then "" else parts[0])
    else parts[0] + [sep] + Join(parts[1..], sep)
  }

  /**
   * JavaScript's `s.split(sep)` for a one-character separator: the maximal
   * separator-free pieces, one more than there are separators (so "" gives [""]).
   */
  function Split(s: string, sep: char): (parts: seq<string>)
    ensures |parts| == Count(s, sep) + 1
    ensures forall i :: 0 <= i < |parts| ==> sep !in parts[i]
    ensures Join(parts, sep) == s
  {
    if s == [] then [""]
    else
      var rest := Split(s[1..], sep);
      if s[0] == sep then [""] + rest
      else [[s[0]] + rest[0]] + rest[1..]
  }

  /** The characters that JavaScript's `.` does not match (without the `s` flag). */
  predicate IsLineTerminator(c: char)
  {
    c == '\n' || c == '\r' || c == '\U{2028}' || c == '\U{2029}'
  }

  /** Every character of `h[i..j]` is matched by `.` and differs from `;`. */
  ghost predicate CleanSpan(h: string, i: int, j: int)
    requires 0 <= i <= j <= |h|
  {
    forall k :: i <= k < j ==> h[k] != ';' && !IsLineTerminator(h[k])
  }

  /**
   * `:(.*?);` matches with its `:` at position p and its `;` at position q:
   * the lazy group extends from p + 1 to the first `;`, crossing no line break.
   */
  ghost predicate MatchesAt(h: string, p: int, q: int)
  {
    0 <= p < q < |h| && h[p] == ':' && h[q] == ';' && CleanSpan(h, p + 1, q)
  }

  /** The lazy `(.*?);` tail started at position k: the first `;` reached without crossing a line break. */
  function SemicolonFrom(h: string, k: nat): (r: Option<nat>)
    requires k <= |h|
    ensures r.Some? ==> k <= r.value < |h| && h[r.value] == ';' && CleanSpan(h, k, r.value)
    ensures r.None? ==> forall q :: k <= q < |h| && h[q] == ';' ==> !CleanSpan(h, k, q)
    decreases |h| - k
  {
    if k == |h| then None
    else if h[k] == ';' then Some(k)
    else if IsLineTerminator(h[k]) then None
    else SemicolonFrom(h, k + 1)
  }

  /** The leftmost match of `:(.*?);` that starts at or after `from`, as the positions of its `:` and `;`. */
  function FindMatch(h: string, from: nat): (r: Option<(nat, nat)>)
    requires from <= |h|
    ensures r.Some? ==> from <= r.value.0 && MatchesAt(h, r.value.0, r.value.1)
    ensures r.Some? ==> forall p, q :: from <= p < r.value.0 ==> !MatchesAt(h, p, q)
    ensures r.None? ==> forall p, q :: from <= p ==> !MatchesAt(h, p, q)
    decreases |h| - from
  {
    if from == |h| then None
    else if h[from] == ':' then
      match SemicolonFrom(h, from + 1)
      case Some(q) => Some((from, q))
      case None => FindMatch(h, from + 1)
    else FindMatch(h, from + 1)
  }

  /** Given its `:`, a match has only one possible `;`. */
  lemma MatchEndUnique(h: string, p: int, q: int, q': int)
    requires MatchesAt(h, p, q) && MatchesAt(h, p, q')
    ensures q == q'
  {
  }

  /** `header.match(/:(.*?);/)?.[1] || 'image/png'`: the group, unless there is no match or it is empty. */
  function MediaTypeOf(header: string): (m: string)
    ensures m != ""
    ensures (forall p, q :: !MatchesAt(header, p, q)) ==> m == DefaultMimeType
  {
    match FindMatch(header, 0)
    case None => DefaultMimeType
    case Some((p, q)) => if p + 1 == q then DefaultMimeType else header[p + 1..q]
  }

  /** `parseDataUrl`: exactly one comma, else the error `Invalid data URL`. */
  function ParseDataUrl(url: string): (r: Result<ParsedImage, string>)
    ensures r.Failure? <==> Count(url, ',') != 1
    ensures r.Failure? ==> r.error == InvalidDataUrl
    ensures r.Success? ==> r.value.mimeType != ""
  {
    var parts := Split(url, ',');
    if |parts| != 2 then Failure(InvalidDataUrl)
    else Success(ParsedImage(parts[1], MediaTypeOf(parts[0])))
  }

  // ---------------------------------------------------------------------------
  // Properties of the parser

  /** Splitting `a + sep + b` with both halves separator-free gives back exactly the halves. */
  lemma {:induction false} SplitOnce(a: string, b: string, sep: char)
    requires sep !in a && sep !in b
    ensures Split(a + [sep] + b, sep) == [a, b]
  {
    if a == [] {
      assert (a + [sep] + b)[1..] == b;
      SplitNone(b, sep);
    } else {
      assert (a + [sep] + b)[1..] == a[1..] + [sep] + b;
      SplitOnce(a[1..], b, sep);
      assert [a[0]] + a[1..] == a;
    }
  }

  /** A string free of the separator splits into itself. */
  lemma {:induction false} SplitNone(s: string, sep: char)
    requires sep !in s
    ensures Split(s, sep) == [s]
  {
    if s != [] {
      SplitNone(s[1..], sep);
      assert [s[0]] + s[1..] == s;
    }
  }

  /**
   * With one comma, the payload is exactly the text after it (undecoded, possibly
   * empty) and the media type is a function of the text before it alone.
   */
  lemma ParseOfParts(header: string, payload: string)
    requires ',' !in header && ',' !in payload
    ensures ParseDataUrl(header + "," + payload) == Success(ParsedImage(payload, MediaTypeOf(header)))
  {
    SplitOnce(header, payload, ',');
  }

  /** Every accepted URL is a header, one comma and a payload, each comma-free. */
  lemma AcceptedUrlHasParts(url: string)
    requires ParseDataUrl(url).Success?
    ensures exists i :: 0 <= i < |url| && url[i] == ',' && ',' !in url[..i] && ',' !in url[i + 1..] &&
                        ParseDataUrl(url) == Success(ParsedImage(url[i + 1..], MediaTypeOf(url[..i])))
  {
    var parts := Split(url, ',');
    assert Join(parts[1..], ',') == parts[1];
    assert url == parts[0] + [','] + parts[1];
    var i := |parts[0]|;
    assert url[..i] == parts[0] && url[i + 1..] == parts[1];
  }

  /** The media type is the group captured by the leftmost match, when that group is non-empty. */
  lemma MediaTypeOfMatch(h: string, p: int, q: int)
    requires MatchesAt(h, p, q)
    requires forall p', q' :: 0 <= p' < p ==> !MatchesAt(h, p', q')
    ensures MediaTypeOf(h) == if p + 1 == q then DefaultMimeType else h[p + 1..q]
  {
    var r := FindMatch(h, 0);
    assert r.Some? && r.value.0 == p;
    MatchEndUnique(h, p, q, r.value.1);
  }

  /** For the empty group, as in `data:;base64`, the media type is `image/png`. */
  lemma EmptyGroupDefaults(payload: string)
    requires ',' !in payload
    ensures ParseDataUrl("data:;base64" + "," + payload) == Success(ParsedImage(payload, DefaultMimeType))
  {
    var header := "data:;base64";
    EmptyGroupMatch();
    ParseOfParts(header, payload);
    MediaTypeOfMatch(header, 4, 5);
  }

  /** In `data:;base64` the leftmost match is the empty group between positions 4 and 5. */
  lemma EmptyGroupMatch()
    ensures MatchesAt("data:;base64", 4, 5)
    ensures forall p, q :: 0 <= p < 4 ==> !MatchesAt("data:;base64", p, q)
  {
    var header := "data:;base64";
    forall p, q | 0 <= p < 4 ensures !MatchesAt(header, p, q) {
      assert header[p] != ':';
    }
  }

  /** A media type that can stand between `data:` and `;base64`. */
  predicate IsWellFormedMediaType(m: string)
  {
    m != "" && ';' !in m && ',' !in m && forall i :: 0 <= i < |m| ==> !IsLineTerminator(m[i])
  }

  /** `image/png` may stand in a data URL's header. */
  lemma DefaultIsWellFormed()
    ensures IsWellFormedMediaType(DefaultMimeType)
  {
    forall i | 0 <= i < |DefaultMimeType| ensures !IsLineTerminator(DefaultMimeType[i]) {
    }
  }

  /** The header of a base64 data URL, `data:<m>;base64` (RFC 2397, section 3). */
  function Base64Header(m: string): string
  {
    "data:" + m + ";base64"
  }

  /** The data URL `data:<m>;base64,<payload>`. */
  function Base64DataUrl(m: string, payload: string): string
  {
    Base64Header(m) + "," + payload
  }

  /** The header of a well-formed media type has no comma. */
  lemma HeaderHasNoComma(m: string)
    requires IsWellFormedMediaType(m)
    ensures ',' !in Base64Header(m)
  {
    var h := Base64Header(m);
    forall i | 0 <= i < |h| ensures h[i] != ',' {
      if 5 <= i < 5 + |m| { assert h[i] == m[i - 5]; }
    }
  }

  /** In the header of a well-formed media type, the leftmost match spans exactly the media type. */
  lemma HeaderMatch(m: string)
    requires IsWellFormedMediaType(m)
    ensures MatchesAt(Base64Header(m), 4, 5 + |m|)
    ensures forall p, q :: 0 <= p < 4 ==> !MatchesAt(Base64Header(m), p, q)
    ensures Base64Header(m)[5..5 + |m|] == m
  {
    var h := Base64Header(m);
    var q := 5 + |m|;
    assert h[4] == ':' && h[q] == ';';
    forall k | 5 <= k < q ensures h[k] != ';' && !IsLineTerminator(h[k]) {
      assert h[k] == m[k - 5];
    }
    forall p, q' | 0 <= p < 4 ensures !MatchesAt(h, p, q') {
      assert h[p] != ':';
    }
  }

  /** Round trip: building a base64 data URL and parsing it gives back the payload and the media type. */
  lemma RoundTrip(m: string, payload: string)
    requires IsWellFormedMediaType(m) && ',' !in payload
    ensures ParseDataUrl(Base64DataUrl(m, payload)) == Success(ParsedImage(payload, m))
  {
    HeaderHasNoComma(m);
    ParseOfParts(Base64Header(m), payload);
    HeaderMatch(m);
    MediaTypeOfMatch(Base64Header(m), 4, 5 + |m|);
  }
}
