/** `CommandParser.SyntaxCheck`: a line-shape check by regular expression,
    then per-command checks of the space-separated arguments. It reads
    nothing but the line, so it is a function. */
module Syntax {
  import opened Wrappers
  import opened Text
  import opened Int32Text
  import opened Commands

  predicate AllWord(s: string) {
    forall i :: 0 <= i < |s| ==> IsWordChar(s[i])
  }

  /** Only word and white-space characters. */
  predicate WordText(s: string) {
    forall i :: 0 <= i < |s| ==> IsWordChar(s[i]) || IsSpace(s[i])
  }

  /** `g` matches `\w+\s*`, with the word characters ending at `n`. */
  predicate GroupAt(g: string, n: nat) {
    1 <= n <= |g| && AllWord(g[..n]) && AllSpace(g[n..])
  }

  ghost predicate IsGroup(g: string) {
    exists n: nat :: GroupAt(g, n)
  }

  function Concat(gs: seq<string>): string {
    if gs == [] then [] else gs[0] + Concat(gs[1..])
  }

  /** `s` matches `(\w+\s*)*`. */
  ghost predicate Repeated(s: string) {
    exists gs: seq<string> :: (forall i :: 0 <= i < |gs| ==> IsGroup(gs[i])) && Concat(gs) == s
  }

  /** `line` matches `^(position|pen|draw|clear|reset|rectangle|circle|triangle|fill)\s+(\w+\s*)*$`
      ignoring case: the name ends at `k`, the white space at `m`. */
  ghost predicate RegexMatch(line: string) {
    exists k: nat, m: nat ::
      k < m <= |line| && Lower(line[..k]) in CommandNames && AllSpace(line[k..m]) && Repeated(line[m..])
  }

  /** The same check, computed: the text up to the first white space is a
      command name, there is white space, and nothing but word and white
      space characters follows it. */
  predicate Gate(line: string) {
    var k := FirstSpace(line);
    k < |line| && Lower(line[..k]) in CommandNames && WordText(line[k..])
  }

  /** `SyntaxCheck(command)`: `Pass` where the original returns, `Fail`
      where it throws. */
  function SyntaxCheck(command: string): Outcome<Error> {
    if !Gate(command) then Fail(InvalidSyntax)
    else
      var parts := Split(command, ' ');
      CheckParts(Lower(parts[0]), parts)
  }

  /** The per-command checks of `SyntaxCheck` on the space-separated parts
      of the line; an unknown first part is not checked. */
  function CheckParts(cmd: string, parts: seq<string>): Outcome<Error> {
    match cmd
    case "position" =>
      if |parts| < 3 || !IsInt(parts[1]) || !IsInt(parts[2]) then Fail(InvalidParameters(cmd)) else Pass
    case "pen" =>
      if |parts| < 2 || !IsValidColor(parts[1]) then Fail(InvalidParameters(cmd)) else Pass
    case "draw" =>
      if |parts| < 3 || !IsInt(parts[1]) || !IsInt(parts[2]) then Fail(InvalidParameters(cmd)) else Pass
    case "rectangle" =>
      if |parts| < 3 || !IsInt(parts[1]) || !IsInt(parts[2]) then Fail(InvalidParameters(cmd)) else Pass
    case "circle" =>
      if |parts| < 2 || !IsInt(parts[1]) then Fail(InvalidParameters(cmd)) else Pass
    case "fill" =>
      if |parts| < 2 || (Lower(parts[1]) != "on" && Lower(parts[1]) != "off") then Fail(InvalidParameters(cmd)) else Pass
    case "triangle" =>
      if |parts| < 7 || !IsInt(parts[1]) || !IsInt(parts[2])
         || !IsInt(parts[3]) || !IsInt(parts[4]) || !IsInt(parts[5])
         || !IsInt(parts[6])
      then Fail(InvalidParameters(cmd)) else Pass
    case _ => Pass
  }

  // ---------------------------------------------------------------------
  // The computed gate is the regular expression

  lemma NamesAreWords(name: string)
    requires name in CommandNames
    ensures |name| > 0 && AllWord(name) && Lower(name) == name
  {
  }

  /** A string with a character other than a word character names no command. */
  lemma NonWordIsNoName(s: string)
    ensures !AllWord(s) ==> s !in CommandNames
  {
    if s in CommandNames {
      NamesAreWords(s);
    }
  }

  /** Every concatenation of `\w+\s*` groups holds only word and white-space characters. */
  lemma {:induction false} ConcatIsWordText(gs: seq<string>)
    requires forall i :: 0 <= i < |gs| ==> IsGroup(gs[i])
    ensures WordText(Concat(gs))
  {
    if gs != [] {
      ConcatIsWordText(gs[1..]);
      var n: nat :| GroupAt(gs[0], n);
      assert gs[0] == gs[0][..n] + gs[0][n..];
      var s := Concat(gs);
      forall i | 0 <= i < |s| ensures IsWordChar(s[i]) || IsSpace(s[i]) {
        if i < n {
          assert s[i] == gs[0][..n][i];
        } else if i < |gs[0]| {
          assert s[i] == gs[0][n..][i - n];
        } else {
          assert s[i] == Concat(gs[1..])[i - |gs[0]|];
        }
      }
    }
  }

  /** Word text that starts with a word character begins with one `\w+\s*`
      group, after which the rest is again word text that is empty or
      starts with a word character. */
  lemma FirstGroup(s: string) returns (p: nat)
    requires WordText(s) && |s| > 0 && IsWordChar(s[0])
    ensures 0 < p <= |s| && IsGroup(s[..p])
    ensures WordText(s[p..]) && (p < |s| ==> IsWordChar(s[p]))
  {
    var n := FirstSpace(s);
    p := n + LeadingSpace(s[n..]);
    var g := s[..p];
    assert GroupAt(g, n) by {
      assert g[..n] == s[..n];
      assert g[n..] == s[n..][..p - n];
    }
    assert forall i :: 0 <= i < |s| - p ==> s[p..][i] == s[p + i];
    if p < |s| {
      assert s[p] == s[n..][p - n];
    }
  }

  /** Word text that is empty or starts with a word character splits
      into `\w+\s*` groups. */
  lemma {:induction false} WordTextIsRepeated(s: string)
    requires WordText(s) && (|s| > 0 ==> IsWordChar(s[0]))
    ensures Repeated(s)
    decreases |s|
  {
    if s == [] {
      assert Concat([]) == s;
    } else {
      var p := FirstGroup(s);
      var g, rest := s[..p], s[p..];
      WordTextIsRepeated(rest);
      var gs :| (forall i :: 0 <= i < |gs| ==> IsGroup(gs[i])) && Concat(gs) == rest;
      var all := [g] + gs;
      assert all[1..] == gs;
      assert Concat(all) == g + rest == s;
      assert forall i :: 0 <= i < |all| ==> IsGroup(all[i]);
    }
  }

  lemma GateImpliesRegex(line: string)
    requires Gate(line)
    ensures RegexMatch(line)
  {
    var k := FirstSpace(line);
    var m := k + LeadingSpace(line[k..]);
    var tail := line[m..];
    assert line[k..m] == line[k..][..m - k];
    assert WordText(tail) && (|tail| > 0 ==> IsWordChar(tail[0])) by {
      assert forall i :: 0 <= i < |tail| ==> tail[i] == line[k..][m - k + i];
    }
    WordTextIsRepeated(tail);
    assert k < m <= |line| && Lower(line[..k]) in CommandNames && AllSpace(line[k..m]) && Repeated(line[m..]);
  }

  lemma RegexImpliesGate(line: string)
    requires RegexMatch(line)
    ensures Gate(line)
  {
    var k: nat, m: nat :|
      k < m <= |line| && Lower(line[..k]) in CommandNames && AllSpace(line[k..m]) && Repeated(line[m..]);
    NamesAreWords(Lower(line[..k]));
    assert forall j :: 0 <= j < k ==> Lower(line[..k])[j] == LowerChar(line[j]);
    assert IsSpace(line[k..m][0]);
    FirstSpaceUnique(line, k);
    var gs :| (forall i :: 0 <= i < |gs| ==> IsGroup(gs[i])) && Concat(gs) == line[m..];
    ConcatIsWordText(gs);
    forall i | k <= i < |line| ensures IsWordChar(line[i]) || IsSpace(line[i]) {
      if i < m {
        assert line[i] == line[k..m][i - k];
      } else {
        assert line[i] == line[m..][i - m];
      }
    }
    assert WordText(line[k..]);
  }

  /** The computed gate accepts exactly the lines the regular expression matches. */
  lemma GateIsRegex(line: string)
    ensures Gate(line) <==> RegexMatch(line)
  {
    if Gate(line) {
      GateImpliesRegex(line);
    }
    if RegexMatch(line) {
      RegexImpliesGate(line);
    }
  }

  // ---------------------------------------------------------------------
  // What SyntaxCheck decides

  /** `SyntaxCheck` throws "Invalid command syntax" exactly for the lines
      the regular expression does not match. */
  lemma SyntaxCheckShape(line: string)
    ensures SyntaxCheck(line) == Fail(InvalidSyntax) <==> !RegexMatch(line)
  {
    GateIsRegex(line);
  }

  /** A line holding any character that is neither a word character nor
      white space (a minus sign, say) fails the line-shape check. */
  lemma NonWordCharRejected(line: string, k: nat)
    requires k < |line| && !IsWordChar(line[k]) && !IsSpace(line[k])
    ensures SyntaxCheck(line) == Fail(InvalidSyntax)
  {
    var n := FirstSpace(line);
    if k < n {
      assert Lower(line[..n])[k] == LowerChar(line[k]);
      NonWordIsNoName(Lower(line[..n]));
    } else {
      assert line[n..][k - n] == line[k];
    }
  }

  /** The per-command checks apply the checked signature of the command
      named by the first part, and let any other first part through. */
  lemma CheckPartsFollowsSignature(cmd: string, parts: seq<string>)
    requires |parts| >= 1
    ensures && (CheckParts(cmd, parts).Pass? <==> cmd !in CommandNames || ArgsMatch(CheckedSignature(cmd), parts[1..]))
            && (CheckParts(cmd, parts).Fail? ==> CheckParts(cmd, parts) == Fail(InvalidParameters(cmd)))
  {
  }

  /** Past the line-shape check, `SyntaxCheck` applies the checked signature
      of the command named by the first space-separated part, and lets any
      other first part through. */
  lemma SyntaxCheckFollowsSignature(line: string)
    requires Gate(line)
    ensures var parts := Split(line, ' '); var head := Lower(parts[0]);
      && (SyntaxCheck(line).Pass? <==> head !in CommandNames || ArgsMatch(CheckedSignature(head), parts[1..]))
      && (SyntaxCheck(line).Fail? ==> SyntaxCheck(line) == Fail(InvalidParameters(head)))
  {
    var parts := Split(line, ' ');
    CheckPartsFollowsSignature(Lower(parts[0]), parts);
  }

  /** Past the line-shape check, `clear` and `reset` fall to the default
      case and pass whatever follows them. */
  lemma ClearAndResetPassAnything(line: string)
    requires Gate(line) && Lower(Split(line, ' ')[0]) in {"clear", "reset"}
    ensures SyntaxCheck(line) == Pass
  {
    SyntaxCheckFollowsSignature(line);
  }

  /** The first space-separated part can be something other than a command
      name past the line-shape check only when the white space after the
      name is not a space (a tab, say); such a line passes `SyntaxCheck`. */
  lemma UnknownFirstPartPasses(line: string)
    requires Gate(line) && Lower(Split(line, ' ')[0]) !in CommandNames
    ensures line[FirstSpace(line)] != ' '
    ensures SyntaxCheck(line) == Pass
  {
    var k := FirstSpace(line);
    if line[k] == ' ' {
      SplitFirstPiece(line, ' ', k);
      assert false;
    }
  }

  lemma WordTextLower(s: string)
    ensures WordText(Lower(s)) <==> WordText(s)
  {
    assert forall i :: 0 <= i < |s| ==> Lower(s)[i] == LowerChar(s[i]);
  }

  /** The line-shape check ignores case. */
  lemma GateIgnoresCase(line: string)
    ensures Gate(Lower(line)) <==> Gate(line)
  {
    var k := FirstSpace(line);
    FirstSpaceLower(line);
    LowerPrefix(line, k);
    LowerIdempotent(line[..k]);
    assert Lower(line)[k..] == Lower(line[k..]);
    WordTextLower(line[k..]);
  }

  /** The per-command checks give the same verdict on lower-cased parts. */
  lemma CheckPartsIgnoresCase(cmd: string, parts: seq<string>)
    ensures CheckParts(cmd, LowerAll(parts)) == CheckParts(cmd, parts)
  {
    var lowered := LowerAll(parts);
    forall i | 0 <= i < |parts|
      ensures IsInt(lowered[i]) == IsInt(parts[i])
      ensures IsValidColor(lowered[i]) == IsValidColor(parts[i])
      ensures Lower(lowered[i]) == Lower(parts[i])
    {
      ParseIgnoresCase(parts[i]);
      LowerIdempotent(parts[i]);
    }
  }

  /** `SyntaxCheck` gives the same verdict on a line and on its lower-case
      form: command names, colours and `on`/`off` are case-insensitive. */
  lemma SyntaxCheckIgnoresCase(line: string)
    ensures SyntaxCheck(Lower(line)) == SyntaxCheck(line)
  {
    GateIgnoresCase(line);
    SplitLower(line, ' ');
    var parts := Split(line, ' ');
    LowerIdempotent(parts[0]);
    CheckPartsIgnoresCase(Lower(parts[0]), parts);
  }
}
