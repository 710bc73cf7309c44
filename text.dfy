/** Character classes, ASCII case folding and `String.Split(char)`, as the
    command parser uses them. Only the ASCII part of .NET's Unicode classes
    is modelled. */
module Text {

  /** `\s` of .NET regular expressions and the white space accepted around
      an integer by `int.Parse`, restricted to ASCII: tab, line feed,
      vertical tab, form feed, carriage return and space. */
  predicate IsSpace(c: char) {
    c == ' ' || '\t' <= c <= '\r'
  }

  predicate IsDigit(c: char) {
    '0' <= c <= '9'
  }

  predicate IsUpper(c: char) {
    'A' <= c <= 'Z'
  }

  predicate AllSpace(s: string) {
    forall i :: 0 <= i < |s| ==> IsSpace(s[i])
  }

  /** `\w` restricted to ASCII: letters, digits and the underscore. */
  predicate IsWordChar(c: char) {
    'a' <= c <= 'z' || IsUpper(c) || IsDigit(c) || c == '_'
  }

  /** `char.ToLower` restricted to ASCII: only `A`..`Z` change. */
  function LowerChar(c: char): (d: char)
    ensures IsSpace(d) <==> IsSpace(c)
    ensures IsWordChar(d) <==> IsWordChar(c)
    ensures IsDigit(d) <==> IsDigit(c)
    ensures !IsUpper(d)
    ensures IsUpper(c) ==> d as int == c as int + 32
    ensures !IsUpper(c) ==> d == c
  {
    if IsUpper(c) then (c as int + 32) as char else c
  }

  /** `string.ToLower()` restricted to ASCII. */
  function Lower(s: string): string {
    seq(|s|, i requires 0 <= i < |s| => LowerChar(s[i]))
  }

  lemma LowerIdempotent(s: string)
    ensures Lower(Lower(s)) == Lower(s)
  {
  }

  lemma LowerPrefix(s: string, k: nat)
    requires k <= |s|
    ensures Lower(s)[..k] == Lower(s[..k])
  {
  }

  /** The pieces of `Split`, put back together with the separator between
      them: the inverse of `Split`. */
  function Join(parts: seq<string>, sep: char): string
    requires |parts| >= 1
  {
    if |parts| == 1 then parts[0] else parts[0] + [sep] + Join(parts[1..], sep)
  }

  predicate NoneContains(parts: seq<string>, sep: char) {
    forall i :: 0 <= i < |parts| ==> sep !in parts[i]
  }

  /** `s.Split(sep)`: the maximal pieces of `s` between occurrences of
      `sep`. Two adjacent separators give an empty piece, and the empty
      string gives one empty piece. */
  function Split(s: string, sep: char): (parts: seq<string>)
    ensures |parts| >= 1
    ensures NoneContains(parts, sep)
    ensures Join(parts, sep) == s
    decreases |s|
  {
    if |s| == 0 then [""]
    else
      var tail := Split(s[1..], sep);
      if s[0] == sep then [""] + tail
      else [[s[0]] + tail[0]] + tail[1..]
  }

  /** In the join of two or more pieces, the first separator ends the first piece. */
  lemma FirstSeparator(parts: seq<string>, sep: char)
    requires |parts| >= 2 && NoneContains(parts, sep)
    ensures |parts[0]| < |Join(parts, sep)| && Join(parts, sep)[|parts[0]|] == sep
    ensures forall j :: 0 <= j < |parts[0]| ==> Join(parts, sep)[j] != sep
  {
    assert Join(parts, sep)[..|parts[0]|] == parts[0];
  }

  /** Joining is injective on separator-free pieces. */
  lemma {:induction false} JoinInjective(p: seq<string>, q: seq<string>, sep: char)
    requires |p| >= 1 && |q| >= 1
    requires NoneContains(p, sep) && NoneContains(q, sep)
    requires Join(p, sep) == Join(q, sep)
    ensures p == q
  {
    var s := Join(p, sep);
    if |p| > 1 && |q| > 1 {
      var n := |p[0]|;
      FirstSeparator(p, sep);
      FirstSeparator(q, sep);
      assert n == |q[0]|;
      assert p[0] == s[..n] == q[0];
      assert Join(p[1..], sep) == s[n + 1..] == Join(q[1..], sep);
      JoinInjective(p[1..], q[1..], sep);
    }
  }

  /** `Split` recovers every list of separator-free pieces from their join. */
  lemma SplitJoin(parts: seq<string>, sep: char)
    requires |parts| >= 1 && NoneContains(parts, sep)
    ensures Split(Join(parts, sep), sep) == parts
  {
    JoinInjective(Split(Join(parts, sep), sep), parts, sep);
  }

  /** The first piece of a split ends at the first separator. */
  lemma SplitFirstPiece(s: string, sep: char, k: nat)
    requires k < |s| && s[k] == sep
    requires forall j :: 0 <= j < k ==> s[j] != sep
    ensures Split(s, sep)[0] == s[..k]
  {
    var parts := Split(s, sep);
    if |parts| > 1 {
      FirstSeparator(parts, sep);
      assert |parts[0]| == k;
      assert s[..k] == Join(parts, sep)[..k] == parts[0];
    }
  }

  /** A line without the separator is a single piece. */
  lemma SplitWithoutSeparator(s: string, sep: char)
    requires sep !in s
    ensures Split(s, sep) == [s]
  {
    var parts := Split(s, sep);
    if |parts| > 1 {
      FirstSeparator(parts, sep);
    }
  }

  function LowerAll(parts: seq<string>): seq<string> {
    seq(|parts|, i requires 0 <= i < |parts| => Lower(parts[i]))
  }

  /** Lower-casing a line and then splitting it on a separator that is not
      a letter gives the lower-cased pieces of the original line. */
  lemma {:induction false} SplitLower(s: string, sep: char)
    requires !IsWordChar(sep)
    ensures Split(Lower(s), sep) == LowerAll(Split(s, sep))
    decreases |s|
  {
    if |s| > 0 {
      assert Lower(s)[1..] == Lower(s[1..]);
      SplitLower(s[1..], sep);
      var tail := Split(s[1..], sep);
      if s[0] != sep {
        assert Lower([s[0]] + tail[0]) == [LowerChar(s[0])] + Lower(tail[0]);
      }
    }
  }

  /** The length of the white space that starts `s`. */
  function LeadingSpace(s: string): (k: nat)
    ensures k <= |s| && AllSpace(s[..k])
    ensures k < |s| ==> !IsSpace(s[k])
  {
    if |s| > 0 && IsSpace(s[0]) then
      var k := 1 + LeadingSpace(s[1..]);
      assert s[..k] == [s[0]] + s[1..][..k - 1];
      k
    else 0
  }

  /** The index of the first white-space character of `s`, or `|s|`. */
  function FirstSpace(s: string): (k: nat)
    ensures k <= |s|
    ensures forall j :: 0 <= j < k ==> !IsSpace(s[j])
    ensures k < |s| ==> IsSpace(s[k])
  {
    if |s| == 0 || IsSpace(s[0]) then 0 else 1 + FirstSpace(s[1..])
  }

  lemma FirstSpaceUnique(s: string, k: nat)
    requires k <= |s|
    requires forall j :: 0 <= j < k ==> !IsSpace(s[j])
    requires k < |s| ==> IsSpace(s[k])
    ensures FirstSpace(s) == k
  {
  }

  lemma FirstSpaceLower(s: string)
    ensures FirstSpace(Lower(s)) == FirstSpace(s)
  {
    FirstSpaceUnique(Lower(s), FirstSpace(s));
  }
}
