/** Character classes the rules consult, and the `any` scan over a string.

    Python's `str.isupper`, `str.islower`, `str.isdigit` and the regex class `\w`
    are defined by Unicode tables. They are given to the rules as a `CharTable`;
    `AgreesOnAscii` fixes what every such table says about ASCII characters and
    leaves the rest of Unicode open. */
module CharClasses {

  predicate IsAscii(c: char) { (c as int) < 128 }
  predicate IsAsciiUpper(c: char) { 'A' <= c <= 'Z' }
  predicate IsAsciiLower(c: char) { 'a' <= c <= 'z' }
  predicate IsAsciiLetter(c: char) { IsAsciiUpper(c) || IsAsciiLower(c) }
  predicate IsAsciiDigit(c: char) { '0' <= c <= '9' }
  predicate IsAsciiWord(c: char) { IsAsciiLetter(c) || IsAsciiDigit(c) || c == '_' }

  /** The four character classes: `isupper`, `islower`, `isdigit` and regex `\w`. */
  datatype CharTable = CharTable(
    isUpper: char -> bool,
    isLower: char -> bool,
    isDigit: char -> bool,
    isWord: char -> bool)

  /** On ASCII the classes are the familiar ones. */
  ghost predicate AgreesOnAscii(t: CharTable) {
    && (forall c: char :: IsAscii(c) ==> (t.isUpper(c) <==> IsAsciiUpper(c)))
    && (forall c: char :: IsAscii(c) ==> (t.isLower(c) <==> IsAsciiLower(c)))
    && (forall c: char :: IsAscii(c) ==> (t.isDigit(c) <==> IsAsciiDigit(c)))
    && (forall c: char :: IsAscii(c) ==> (t.isWord(c) <==> IsAsciiWord(c)))
  }

  /** A table that knows only ASCII; it shows that `AgreesOnAscii` can be met. */
  const AsciiTable: CharTable := CharTable(IsAsciiUpper, IsAsciiLower, IsAsciiDigit, IsAsciiWord)

  lemma AsciiTableAgrees()
    ensures AgreesOnAscii(AsciiTable)
  {
  }

  /** Python's `any(p(c) for c in s)`. */
  function Any(s: string, p: char -> bool): (b: bool)
    ensures b <==> exists i :: 0 <= i < |s| && p(s[i])
  {
    AnyFrom(s, p, 0)
  }

  /** `any` over the characters of `s` from index `k` on. */
  function AnyFrom(s: string, p: char -> bool, k: nat): (b: bool)
    requires k <= |s|
    decreases |s| - k
    ensures b <==> exists i :: k <= i < |s| && p(s[i])
  {
    if k == |s| then false
    else p(s[k]) || AnyFrom(s, p, k + 1)
  }

  /** The first index of `s` holding a character of `cs`, or `|s|` when there is none:
      `s.find(c)` for a single character, and the least of several finds for a set. */
  function FirstIndexIn(s: string, cs: set<char>): (i: nat)
    ensures i <= |s|
    ensures i < |s| ==> s[i] in cs
    ensures forall j :: 0 <= j < i ==> s[j] !in cs
  {
    FindFrom(s, cs, 0)
  }

  /** `FirstIndexIn` for the search that starts at index `k`. */
  function FindFrom(s: string, cs: set<char>, k: nat): (i: nat)
    requires k <= |s|
    decreases |s| - k
    ensures k <= i <= |s|
    ensures i < |s| ==> s[i] in cs
    ensures forall j :: k <= j < i ==> s[j] !in cs
  {
    if k == |s| || s[k] in cs then k else FindFrom(s, cs, k + 1)
  }

  /** The contract of `FirstIndexIn` determines it. */
  lemma FirstIndexInIs(s: string, cs: set<char>, k: nat)
    requires k <= |s|
    requires k < |s| ==> s[k] in cs
    requires forall j :: 0 <= j < k ==> s[j] !in cs
    ensures FirstIndexIn(s, cs) == k
  {
  }
}
