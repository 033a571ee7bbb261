/** The test suite's profile links, run through the model of `validate_url`.
    Each link is a parameter equal to the literal; the facts about one literal
    are proved in lemmas of their own, which keeps every proof small. */
module UrlRuleExamples {
  import opened Wrappers
  import opened CharClasses
  import opened UrlRule

  /** The hosts and paths of the accepted test links. */
  lemma ValidHostFacts(host: string, tail: string)
    requires host in {"valid.com", "example.com"}
    requires tail in {"/profile.jpg", "/profile.png", "/picture.jpg", "/photo.png"}
    ensures host != [] && forall k :: 0 <= k < |host| ==> host[k] !in NetlocDelimiters
    ensures '[' !in host && ']' !in host
    ensures tail[0] in NetlocDelimiters
  {
  }

  /** An http(s) test link has the web shape. */
  lemma TestLinkShape(scheme: string, host: string, tail: string)
    requires scheme in WebSchemes
    requires host in {"valid.com", "example.com"}
    requires tail in {"/profile.jpg", "/profile.png", "/picture.jpg", "/photo.png"}
    ensures WebShape(scheme, host, tail)
  {
    assert forall i :: 0 <= i < |scheme| ==> !IsAsciiUpper(scheme[i]);
    LowerAsciiKeeps(scheme);
    ValidHostFacts(host, tail);
  }

  /** A link of characters above the space made of a web scheme, "://" and
      a test host and path is accepted. */
  lemma TestLinkAccepted(u: string, scheme: string, host: string, tail: string)
    requires forall i :: 0 <= i < |u| ==> ' ' < u[i]
    requires u == scheme + "://" + host + tail
    requires scheme in WebSchemes
    requires host in {"valid.com", "example.com"}
    requires tail in {"/profile.jpg", "/profile.png", "/picture.jpg", "/photo.png"}
    ensures ValidateUrl(Some(u)) == Ok(Some(u))
  {
    VisibleKept(u);
    TestLinkShape(scheme, host, tail);
    WebShapeAccepted(u, scheme, host, tail);
  }

  lemma CleanJpg(u: string)
    requires u == "http://valid.com/profile.jpg"
    ensures forall i :: 0 <= i < |u| ==> ' ' < u[i]
    ensures u == "http" + "://" + "valid.com" + "/profile.jpg"
  {
  }

  lemma CleanPictureJpg(u: string)
    requires u == "http://example.com/picture.jpg"
    ensures forall i :: 0 <= i < |u| ==> ' ' < u[i]
    ensures u == "http" + "://" + "example.com" + "/picture.jpg"
  {
  }

  lemma CleanPng(u: string)
    requires u == "https://valid.com/profile.png"
    ensures forall i :: 0 <= i < |u| ==> ' ' < u[i]
    ensures u == "https" + "://" + "valid.com" + "/profile.png"
  {
  }

  lemma CleanPhotoPng(u: string)
    requires u == "https://example.com/photo.png"
    ensures forall i :: 0 <= i < |u| ==> ' ' < u[i]
    ensures u == "https" + "://" + "example.com" + "/photo.png"
  {
  }

  /** The http links of the tests are accepted and returned unchanged. */
  lemma AcceptsHttpLink(u: string)
    requires u in {"http://valid.com/profile.jpg", "http://example.com/picture.jpg"}
    ensures ValidateUrl(Some(u)) == Ok(Some(u))
  {
    var scheme := "http";
    if u == "http://valid.com/profile.jpg" {
      CleanJpg(u);
      var host, tail := "valid.com", "/profile.jpg";
      TestLinkAccepted(u, scheme, host, tail);
    } else {
      CleanPictureJpg(u);
      var host, tail := "example.com", "/picture.jpg";
      TestLinkAccepted(u, scheme, host, tail);
    }
  }

  /** The https links of the tests are accepted and returned unchanged. */
  lemma AcceptsHttpsLink(u: string)
    requires u in {"https://valid.com/profile.png", "https://example.com/photo.png"}
    ensures ValidateUrl(Some(u)) == Ok(Some(u))
  {
    var scheme := "https";
    if u == "https://valid.com/profile.png" {
      CleanPng(u);
      var host, tail := "valid.com", "/profile.png";
      TestLinkAccepted(u, scheme, host, tail);
    } else {
      CleanPhotoPng(u);
      var host, tail := "example.com", "/photo.png";
      TestLinkAccepted(u, scheme, host, tail);
    }
  }

  /** `ftp` and `http` are legal schemes already in lower case. */
  lemma LowerScheme(scheme: string)
    requires scheme in {"ftp", "http"}
    ensures 0 < |scheme| && IsAsciiLetter(scheme[0])
    ensures forall k :: 0 <= k < |scheme| ==> IsSchemeChar(scheme[k])
    ensures LowerAscii(scheme) == scheme
  {
    LowerAsciiKeeps(scheme);
  }

  /** A link of characters above the space whose first ':' ends a legal
      lower-case scheme: `urlparse` reads that scheme and the rest. */
  lemma SchemedLinkSplit(u: string, scheme: string, rest: string)
    requires forall i :: 0 <= i < |u| ==> ' ' < u[i]
    requires u == scheme + [':'] + rest
    requires scheme in {"ftp", "http"}
    ensures SplitScheme(Sanitize(u)) == (scheme, rest)
  {
    VisibleKept(u);
    LowerScheme(scheme);
    SplitSchemeOf(scheme, rest);
  }

  lemma CleanFtp(u: string)
    requires u == "ftp://invalid.com/profile.jpg"
    ensures forall i :: 0 <= i < |u| ==> ' ' < u[i]
    ensures u == "ftp" + ":" + "//invalid.com/profile.jpg"
  {
  }

  lemma CleanPictureFtp(u: string)
    requires u == "ftp://example.com/picture.jpg"
    ensures forall i :: 0 <= i < |u| ==> ' ' < u[i]
    ensures u == "ftp" + ":" + "//example.com/picture.jpg"
  {
  }

  /** A link of characters above the space with the scheme `ftp` is rejected. */
  lemma FtpLinkRejected(u: string, rest: string)
    requires forall i :: 0 <= i < |u| ==> ' ' < u[i]
    requires u == "ftp" + [':'] + rest
    ensures ValidateUrl(Some(u)) == Err(InvalidUrl)
  {
    var scheme := "ftp";
    SchemedLinkSplit(u, scheme, rest);
    NonWebSchemeRejected(u);
  }

  /** The ftp links of the tests are rejected: `ftp` is a legal scheme but
      not a web scheme. */
  lemma RejectsFtpLink(u: string)
    requires u in {"ftp://invalid.com/profile.jpg", "ftp://example.com/picture.jpg"}
    ensures ValidateUrl(Some(u)) == Err(InvalidUrl)
  {
    if u == "ftp://invalid.com/profile.jpg" {
      CleanFtp(u);
      FtpLinkRejected(u, "//invalid.com/profile.jpg");
    } else {
      CleanPictureFtp(u);
      FtpLinkRejected(u, "//example.com/picture.jpg");
    }
  }

  lemma CleanSingleSlash(u: string)
    requires u == "http:/example.com"
    ensures forall i :: 0 <= i < |u| ==> ' ' < u[i]
    ensures u == "http" + [':'] + "/example.com"
  {
  }

  /** "http:/example.com" is rejected: no "//" follows the scheme, so the
      network location is empty. */
  lemma RejectsSingleSlashLink(u: string)
    requires u == "http:/example.com"
    ensures ValidateUrl(Some(u)) == Err(InvalidUrl)
  {
    CleanSingleSlash(u);
    var scheme, rest := "http", "/example.com";
    SchemedLinkSplit(u, scheme, rest);
    assert rest[1] == 'e';
    NoAuthorityRejected(u);
  }

  /** A link of characters above the space without a ':' is rejected. */
  lemma NoColonLinkRejected(u: string)
    requires forall i :: 0 <= i < |u| ==> ' ' < u[i] && u[i] != ':'
    ensures ValidateUrl(Some(u)) == Err(InvalidUrl)
  {
    VisibleKept(u);
    assert ':' !in Sanitize(u);
    NoSchemeSeparatorRejected(u);
  }

  /** "http//invalid", "https//invalid" and "example.com/photo.png" are
      rejected: without a ':' there is no scheme. */
  lemma RejectsLinksWithoutScheme(u: string)
    requires u in {"http//invalid", "https//invalid", "example.com/photo.png"}
    ensures ValidateUrl(Some(u)) == Err(InvalidUrl)
  {
    NoColonLinkRejected(u);
  }
}
