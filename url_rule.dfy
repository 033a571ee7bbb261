/** The profile-link rule `validate_url`: an absent link passes; a present one
    passes only when `urlparse` finds the scheme `http` or `https` and a
    non-empty network location, and it is then returned unchanged.

    `UrlSplit` stands in for `urllib.parse.urlparse` (Python 3.12's `urlsplit`)
    as far as the rule needs it: the clean-up of the input, the scheme and the
    network location, and the unbalanced-bracket `ValueError`. */
module UrlRule {
  import opened Wrappers
  import opened CharClasses

  /** Removed from anywhere in the input before parsing. */
  const UnsafeUrlChars: set<char> := {'\t', '\r', '\n'}
  /** The network location ends at the first of these. */
  const NetlocDelimiters: set<char> := {'/', '?', '#'}
  const WebSchemes: set<string> := {"http", "https"}

  /** Stripped from the front of the input: U+0000 to U+0020. */
  predicate IsC0ControlOrSpace(c: char) { c <= ' ' }

  predicate IsSchemeChar(c: char) {
    IsAsciiLetter(c) || IsAsciiDigit(c) || c == '+' || c == '-' || c == '.'
  }

  function LowerChar(c: char): char {
    if IsAsciiUpper(c) then (c as int + 32) as char else c
  }

  /** `str.lower()` on a scheme, whose characters are all ASCII. */
  function LowerAscii(s: string): (r: string)
    ensures |r| == |s|
    ensures forall i :: 0 <= i < |s| ==> r[i] == LowerChar(s[i])
  {
    LowerFrom(s, 0)
  }

  function LowerFrom(s: string, k: nat): (r: string)
    requires k <= |s|
    decreases |s| - k
    ensures |r| == |s| - k
    ensures forall i :: 0 <= i < |r| ==> r[i] == LowerChar(s[k + i])
  {
    if k == |s| then [] else [LowerChar(s[k])] + LowerFrom(s, k + 1)
  }

  lemma LowerAsciiKeeps(s: string)
    requires forall i :: 0 <= i < |s| ==> !IsAsciiUpper(s[i])
    ensures LowerAscii(s) == s
  {
  }

  /** `url.lstrip(...)` of the C0 controls and the space. */
  function StripLeading(s: string): (r: string)
    ensures |r| <= |s| && r == s[|s| - |r|..]
    ensures r == [] || !IsC0ControlOrSpace(r[0])
    ensures forall i :: 0 <= i < |s| - |r| ==> IsC0ControlOrSpace(s[i])
  {
    s[SkipLeading(s, 0)..]
  }

  /** The first index from `k` on that does not hold a C0 control or a space. */
  function SkipLeading(s: string, k: nat): (i: nat)
    requires k <= |s|
    decreases |s| - k
    ensures k <= i <= |s|
    ensures i < |s| ==> !IsC0ControlOrSpace(s[i])
    ensures forall j :: k <= j < i ==> IsC0ControlOrSpace(s[j])
  {
    if k < |s| && IsC0ControlOrSpace(s[k]) then SkipLeading(s, k + 1) else k
  }

  /** `url.replace(b, "")` for each unsafe character. */
  function RemoveUnsafe(s: string): (r: string)
    ensures |r| <= |s|
    ensures forall i :: 0 <= i < |r| ==> r[i] !in UnsafeUrlChars
    ensures (forall i :: 0 <= i < |s| ==> s[i] !in UnsafeUrlChars) ==> r == s
  {
    RemoveUnsafeFrom(s, 0)
  }

  function RemoveUnsafeFrom(s: string, k: nat): (r: string)
    requires k <= |s|
    decreases |s| - k
    ensures |r| <= |s| - k
    ensures forall i :: 0 <= i < |r| ==> r[i] !in UnsafeUrlChars
    ensures (forall i :: k <= i < |s| ==> s[i] !in UnsafeUrlChars) ==> r == s[k..]
  {
    if k == |s| then []
    else
      var rest := RemoveUnsafeFrom(s, k + 1);
      if s[k] in UnsafeUrlChars then rest
      else
        assert s[k..] == [s[k]] + s[k + 1..];
        [s[k]] + rest
  }

  function Sanitize(s: string): string {
    RemoveUnsafe(StripLeading(s))
  }

  /** The scheme step: a prefix before the first ':' that starts with an ASCII
      letter and holds only scheme characters is the (lower-cased) scheme;
      otherwise the scheme is empty and nothing is consumed. */
  function SplitScheme(v: string): (string, string) {
    var i := FirstIndexIn(v, {':'});
    if 0 < i < |v| && IsAsciiLetter(v[0]) && forall k :: 0 <= k < i ==> IsSchemeChar(v[k]) then
      (LowerAscii(v[..i]), v[i + 1..])
    else
      ("", v)
  }

  /** The network location: after a leading "//", up to the next '/', '?' or '#'. */
  function SplitNetloc(rest: string): string {
    if |rest| >= 2 && rest[..2] == "//" then
      var body := rest[2..];
      body[..FirstIndexIn(body, NetlocDelimiters)]
    else
      ""
  }

  datatype UrlParts = UrlParts(scheme: string, netloc: string)

  /** `None` stands for the `ValueError("Invalid IPv6 URL")` that `urlparse`
      raises when the network location has one square bracket without the other. */
  function UrlSplit(u: string): Option<UrlParts> {
    var (scheme, rest) := SplitScheme(Sanitize(u));
    var netloc := SplitNetloc(rest);
    if ('[' in netloc) != (']' in netloc) then None else Some(UrlParts(scheme, netloc))
  }

  predicate IsWebUrl(u: string) {
    var parts := UrlSplit(u);
    parts.Some? && parts.value.scheme in WebSchemes && parts.value.netloc != ""
  }

  datatype UrlError = InvalidUrl

  /** `validate_url`. */
  function ValidateUrl(url: Option<string>): (r: Result<Option<string>, UrlError>)
    ensures url.None? ==> r == Ok(None)
    ensures r.Ok? ==> r.value == url
    ensures url.Some? ==> (r.Ok? <==> IsWebUrl(url.value))
  {
    match url
    case None => Ok(None)
    case Some(u) => if IsWebUrl(u) then Ok(url) else Err(InvalidUrl)
  }

  /** What `urlparse` hands back: a scheme of legal scheme characters with
      no upper-case letter, and a network location free of '/', '?' and '#'
      whose square brackets come in pairs. */
  lemma UrlSplitParts(u: string)
    requires UrlSplit(u).Some?
    ensures var p := UrlSplit(u).value;
      && (forall i :: 0 <= i < |p.scheme| ==> IsSchemeChar(p.scheme[i]) && !IsAsciiUpper(p.scheme[i]))
      && (forall i :: 0 <= i < |p.netloc| ==> p.netloc[i] !in NetlocDelimiters)
      && (('[' in p.netloc) <==> (']' in p.netloc))
  {
    var v := Sanitize(u);
    var i := FirstIndexIn(v, {':'});
    if SplitScheme(v).0 != "" {
      var low := LowerAscii(v[..i]);
      forall k | 0 <= k < |low| ensures IsSchemeChar(low[k]) && !IsAsciiUpper(low[k]) {
        assert low[k] == LowerChar(v[..i][k]);
      }
    }
    var rest := SplitScheme(v).1;
    if |rest| >= 2 && rest[..2] == "//" {
      var body := rest[2..];
      var n := body[..FirstIndexIn(body, NetlocDelimiters)];
      forall k | 0 <= k < |n| ensures n[k] !in NetlocDelimiters {
        assert n[k] == body[k];
      }
    }
  }

  /** An absolute web link, read as text: a scheme spelling `http` or `https`
      in any case, "://", a non-empty host free of '/', '?' and '#' whose
      square brackets come in pairs, and a tail that is empty or starts at a
      delimiter. */
  predicate WebShape(scheme: string, host: string, tail: string) {
    && LowerAscii(scheme) in WebSchemes
    && host != []
    && (forall k :: 0 <= k < |host| ==> host[k] !in NetlocDelimiters)
    && (('[' in host) <==> (']' in host))
    && (tail == [] || tail[0] in NetlocDelimiters)
  }

  /** The pieces `WebShape` speaks of, cut out of a cleaned-up link. */
  function WebPieces(v: string): (string, string, string) {
    var i := FirstIndexIn(v, {':'});
    if i + 3 <= |v| then
      var body := v[i + 3..];
      var j := FirstIndexIn(body, NetlocDelimiters);
      (v[..i], body[..j], body[j..])
    else
      (v, "", "")
  }

  lemma WebSchemeChars(scheme: string)
    requires LowerAscii(scheme) in WebSchemes
    ensures 0 < |scheme| && IsAsciiLetter(scheme[0])
    ensures forall k :: 0 <= k < |scheme| ==> IsSchemeChar(scheme[k]) && scheme[k] != ':'
  {
    var low := LowerAscii(scheme);
    forall k | 0 <= k < |scheme|
      ensures IsAsciiLetter(scheme[k])
    {
      assert low[k] == LowerChar(scheme[k]);
      assert low[k] in "https";
    }
  }

  /** The scheme step reads back a legal scheme placed before a ':'. */
  lemma SplitSchemeOf(scheme: string, rest: string)
    requires 0 < |scheme| && IsAsciiLetter(scheme[0])
    requires forall k :: 0 <= k < |scheme| ==> IsSchemeChar(scheme[k])
    ensures SplitScheme(scheme + [':'] + rest) == (LowerAscii(scheme), rest)
  {
    var v := scheme + [':'] + rest;
    var n := |scheme|;
    FirstIndexInIs(v, {':'}, n);
    assert v[..n] == scheme;
    assert v[n + 1..] == rest;
  }

  /** The network-location step reads back a host placed after "//". */
  lemma SplitNetlocOf(host: string, tail: string)
    requires forall k :: 0 <= k < |host| ==> host[k] !in NetlocDelimiters
    requires tail == [] || tail[0] in NetlocDelimiters
    ensures SplitNetloc("//" + host + tail) == host
  {
    var rest := "//" + host + tail;
    assert rest[..2] == "//";
    var body := rest[2..];
    assert body == host + tail;
    FirstIndexInIs(body, NetlocDelimiters, |host|);
    assert body[..|host|] == host;
  }

  /** Every link of the web shape is accepted, and `urlparse` reads the shape's
      scheme (lower-cased) and host from it. */
  lemma WebShapeAccepted(u: string, scheme: string, host: string, tail: string)
    requires Sanitize(u) == scheme + "://" + host + tail
    requires WebShape(scheme, host, tail)
    ensures UrlSplit(u) == Some(UrlParts(LowerAscii(scheme), host))
    ensures ValidateUrl(Some(u)) == Ok(Some(u))
  {
    WebSchemeChars(scheme);
    var rest := "//" + host + tail;
    assert scheme + "://" + host + tail == scheme + [':'] + rest;
    SplitSchemeOf(scheme, rest);
    SplitNetlocOf(host, tail);
  }

  /** Cutting a string at a "://" found at `i`, and again `j` characters later. */
  lemma CutAt(v: string, i: nat, j: nat)
    requires i + 3 <= |v| && j <= |v| - i - 3
    requires v[i] == ':' && v[i + 1] == '/' && v[i + 2] == '/'
    ensures v == v[..i] + "://" + v[i + 3..][..j] + v[i + 3..][j..]
  {
    assert v[i..i + 3] == "://";
    assert v[i + 3..] == v[i + 3..][..j] + v[i + 3..][j..];
    assert v == v[..i] + v[i..i + 3] + v[i + 3..];
  }

  /** A scheme was found: it ends at the first ':'. */
  lemma SchemeFoundAt(v: string)
    requires SplitScheme(v).0 != ""
    ensures var i := FirstIndexIn(v, {':'});
      0 < i < |v| && v[i] == ':' && SplitScheme(v) == (LowerAscii(v[..i]), v[i + 1..])
  {
  }

  /** A network location was found: it follows "//" and ends at the first delimiter. */
  lemma NetlocFoundAt(rest: string)
    requires SplitNetloc(rest) != ""
    ensures |rest| >= 2 && rest[0] == '/' && rest[1] == '/'
    ensures SplitNetloc(rest) == rest[2..][..FirstIndexIn(rest[2..], NetlocDelimiters)]
  {
    assert rest[..2] == "//";
    assert rest[0] == rest[..2][0] && rest[1] == rest[..2][1];
  }

  /** The shape of a cleaned-up link whose scheme is a web scheme and whose
      network location is non-empty and has its brackets in pairs. */
  lemma WebPiecesShape(v: string)
    requires SplitScheme(v).0 in WebSchemes
    requires SplitNetloc(SplitScheme(v).1) != ""
    requires var n := SplitNetloc(SplitScheme(v).1); ('[' in n) <==> (']' in n)
    ensures var (scheme, host, tail) := WebPieces(v);
      && v == scheme + "://" + host + tail
      && WebShape(scheme, host, tail)
  {
    var i := FirstIndexIn(v, {':'});
    SchemeFoundAt(v);
    var rest := v[i + 1..];
    NetlocFoundAt(rest);
    assert v[i + 1] == rest[0] && v[i + 2] == rest[1];
    var body := v[i + 3..];
    assert rest[2..] == body;
    var j := FirstIndexIn(body, NetlocDelimiters);
    CutAt(v, i, j);
    assert WebPieces(v) == (v[..i], body[..j], body[j..]);
  }

  /** Conversely, every accepted link has the web shape once cleaned up. */
  lemma AcceptedUrlShape(u: string)
    requires ValidateUrl(Some(u)).Ok?
    ensures var (scheme, host, tail) := WebPieces(Sanitize(u));
      && Sanitize(u) == scheme + "://" + host + tail
      && WebShape(scheme, host, tail)
  {
    WebPiecesShape(Sanitize(u));
  }

  /** A link without a ':' after clean-up has no scheme and is rejected. */
  lemma NoSchemeSeparatorRejected(u: string)
    requires ':' !in Sanitize(u)
    ensures ValidateUrl(Some(u)) == Err(InvalidUrl)
  {
    var v := Sanitize(u);
    FirstIndexInIs(v, {':'}, |v|);
  }

  /** A link whose scheme, after clean-up, is not a web scheme is rejected. */
  lemma NonWebSchemeRejected(u: string)
    requires SplitScheme(Sanitize(u)).0 !in WebSchemes
    ensures ValidateUrl(Some(u)) == Err(InvalidUrl)
  {
  }

  /** A link with no "//" after its scheme has an empty network location and is rejected. */
  lemma NoAuthorityRejected(u: string)
    requires var rest := SplitScheme(Sanitize(u)).1; !(|rest| >= 2 && rest[..2] == "//")
    ensures ValidateUrl(Some(u)) == Err(InvalidUrl)
  {
  }

  /** Clean-up leaves alone a link that starts with a visible character and
      holds no tab, carriage return or line feed. */
  lemma SanitizeKeeps(u: string)
    requires u == [] || !IsC0ControlOrSpace(u[0])
    requires forall i :: 0 <= i < |u| ==> u[i] !in UnsafeUrlChars
    ensures Sanitize(u) == u
  {
  }

  /** In particular a link made of characters above the space is left as it is. */
  lemma VisibleKept(u: string)
    requires forall i :: 0 <= i < |u| ==> ' ' < u[i]
    ensures Sanitize(u) == u
  {
    SanitizeKeeps(u);
  }
}
