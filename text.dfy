/**
 * The string operations the front ends apply to their arguments: Python's `str.strip()`,
 * `str.lower()`, `str.split(sep)` and the truth value of an optional argument.
 */
module Text {
  import opened Wrappers

  /** An optional command-line argument that Python treats as true: given and not empty. */
  predicate Given(arg: Option<string>) {
    arg.Some? && arg.value != ""
  }

  /** `str.isspace()` of one character: the Unicode whitespace Python strips by default. */
  predicate IsSpace(c: char) {
    ('\t' <= c <= '\r') || ('\U{1C}' <= c <= '\U{1F}') || c == ' ' || c == '\U{85}' || c == '\U{A0}' ||
    c == '\U{1680}' || ('\U{2000}' <= c <= '\U{200A}') || c == '\U{2028}' || c == '\U{2029}' ||
    c == '\U{202F}' || c == '\U{205F}' || c == '\U{3000}'
  }

  /** The first position at or after `i` that holds no whitespace, or `|s|`. */
  function SkipSpaces(s: string, i: nat): (j: nat)
    requires i <= |s|
    ensures i <= j <= |s| && (j == |s| || !IsSpace(s[j]))
    ensures forall k :: i <= k < j ==> IsSpace(s[k])
    decreases |s| - i
  {
    if i < |s| && IsSpace(s[i]) then SkipSpaces(s, i + 1) else i
  }

  /** The end of `s[i..j]` once the whitespace at its end is dropped. */
  function BackSpaces(s: string, i: nat, j: nat): (e: nat)
    requires i <= j <= |s|
    ensures i <= e <= j && (e == i || !IsSpace(s[e - 1]))
    ensures forall k :: e <= k < j ==> IsSpace(s[k])
  {
    if i < j && IsSpace(s[j - 1]) then BackSpaces(s, i, j - 1) else j
  }

  /**
   * `r` is the part of `s` from offset `i` on, with only whitespace before it and after it,
   * and neither starting nor ending with whitespace.
   */
  predicate StrippedAt(s: string, r: string, i: int) {
    0 <= i && i + |r| <= |s| && r == s[i..i + |r|] &&
    (forall k :: 0 <= k < i ==> IsSpace(s[k])) &&
    (forall k :: i + |r| <= k < |s| ==> IsSpace(s[k])) &&
    (r == [] || (!IsSpace(r[0]) && !IsSpace(r[|r| - 1])))
  }

  /**
   * `s.strip()`: the infix of `s` left after removing whitespace at both ends; it neither
   * starts nor ends with whitespace.
   */
  function Strip(s: string): (r: string)
    ensures exists i :: StrippedAt(s, r, i)
  {
    var i := SkipSpaces(s, 0);
    var e := BackSpaces(s, i, |s|);
    assert StrippedAt(s, s[i..e], i);
    s[i..e]
  }

  /** A stripped string is empty exactly when the original held only whitespace. */
  lemma StripEmpty(s: string)
    ensures Strip(s) == [] <==> forall k :: 0 <= k < |s| ==> IsSpace(s[k])
  {
    var i :| StrippedAt(s, Strip(s), i);
    if Strip(s) != [] {
      assert s[i] == Strip(s)[0];
    }
  }

  /** Stripping twice is stripping once. */
  lemma StripIdempotent(s: string)
    ensures Strip(Strip(s)) == Strip(s)
  {
    var r := Strip(s);
    var i := SkipSpaces(r, 0);
    assert i == 0;
    var e := BackSpaces(r, 0, |r|);
    assert e == |r|;
    assert r[0..|r|] == r;
  }

  /**
   * `str.lower()` on one character, for every character whose lower case is ASCII: the
   * letters A-Z and the Kelvin sign. Other characters are kept; Python maps some of them
   * to other non-ASCII text, so comparisons against ASCII strings come out the same.
   */
  function LowerChar(c: char): char {
    if 'A' <= c <= 'Z' then (c as int + 32) as char
    else if c == '\U{212A}' then 'k'
    else c
  }

  function Lower(s: string): (r: string)
    ensures |r| == |s|
  {
    seq(|s|, i requires 0 <= i < |s| => LowerChar(s[i]))
  }

  /** Lowering is idempotent, and leaves lower-case ASCII text alone. */
  lemma LowerIdempotent(s: string)
    ensures Lower(Lower(s)) == Lower(s)
    ensures (forall k :: 0 <= k < |s| ==> 'a' <= s[k] <= 'z' || s[k] == '_') ==> Lower(s) == s
  {
  }

  /**
   * `s.split(sep)`: the pieces between the occurrences of `sep`, one more than there are
   * occurrences (so the empty string gives one empty piece), none containing `sep`.
   */
  function Split(s: string, sep: char): (pieces: seq<string>)
    ensures |pieces| == multiset(s)[sep] + 1
    ensures forall k :: 0 <= k < |pieces| ==> sep !in pieces[k]
  {
    if s == [] then [[]]
    else
      assert s == [s[0]] + s[1..];
      var rest := Split(s[1..], sep);
      if s[0] == sep then [[]] + rest
      else [[s[0]] + rest[0]] + rest[1..]
  }

  /** `[p.strip() for p in pieces]`. */
  function StripAll(pieces: seq<string>): (r: seq<string>)
    ensures |r| == |pieces|
  {
    seq(|pieces|, k requires 0 <= k < |pieces| => Strip(pieces[k]))
  }

  /** Python's `a < b` on strings: lexicographic by code point, a proper prefix first. */
  predicate StrLess(a: string, b: string) {
    if a == [] then b != []
    else b != [] && (a[0] < b[0] || (a[0] == b[0] && StrLess(a[1..], b[1..])))
  }

  /** `sep.join(pieces)`. */
  function Join(pieces: seq<string>, sep: char): string {
    if pieces == [] then []
    else if |pieces| == 1 then pieces[0]
    else pieces[0] + [sep] + Join(pieces[1..], sep)
  }

  /** Joining the pieces with the separator gives back the split string. */
  lemma {:induction false} SplitJoin(s: string, sep: char)
    ensures Join(Split(s, sep), sep) == s
  {
    if s != [] {
      SplitJoin(s[1..], sep);
      if s[0] == sep {
        SplitJoinSeparator(s, sep);
      } else {
        SplitJoinOther(s, sep);
      }
    }
  }

  /** The step of `SplitJoin` for a string that starts with the separator. */
  lemma SplitJoinSeparator(s: string, sep: char)
    requires s != [] && s[0] == sep && Join(Split(s[1..], sep), sep) == s[1..]
    ensures Join(Split(s, sep), sep) == s
  {
    var rest := Split(s[1..], sep);
    assert Split(s, sep) == [[]] + rest;
    JoinCons([], rest, sep);
    assert s == [s[0]] + s[1..];
  }

  /** The step of `SplitJoin` for a string that starts with another character. */
  lemma SplitJoinOther(s: string, sep: char)
    requires s != [] && s[0] != sep && Join(Split(s[1..], sep), sep) == s[1..]
    ensures Join(Split(s, sep), sep) == s
  {
    var rest := Split(s[1..], sep);
    assert Split(s, sep) == [[s[0]] + rest[0]] + rest[1..];
    JoinPrepend(s[0], rest, sep);
    assert s == [s[0]] + s[1..];
  }

  /** Putting a character in front of the first piece puts it in front of the joined text. */
  lemma JoinPrepend(c: char, pieces: seq<string>, sep: char)
    requires pieces != []
    ensures Join([[c] + pieces[0]] + pieces[1..], sep) == [c] + Join(pieces, sep)
  {
    var q := [[c] + pieces[0]] + pieces[1..];
    assert q[0] == [c] + pieces[0] && q[1..] == pieces[1..];
    if |pieces| > 1 {
      assert Join(q, sep) == [c] + pieces[0] + [sep] + Join(pieces[1..], sep);
    }
  }

  lemma JoinCons(p: string, rest: seq<string>, sep: char)
    requires rest != []
    ensures Join([p] + rest, sep) == p + [sep] + Join(rest, sep)
  {
    assert ([p] + rest)[0] == p && ([p] + rest)[1..] == rest;
  }
}
