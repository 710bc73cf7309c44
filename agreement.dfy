/** What the syntax checker promises about the interpreter: a line that
    passes `SyntaxCheck` and names a command runs under `ExecuteCommand`,
    while the converse fails in several ways. */
module Agreement {
  import opened Wrappers
  import opened Text
  import opened Int32Text
  import opened Drawing
  import opened Commands
  import opened Syntax
  import opened Interpreter

  /** A line that passes `SyntaxCheck` runs under `ExecuteCommand` exactly
      when its first space-separated part names a command. When it does
      not, the name was followed by white space other than a space and
      `ExecuteCommand` throws "Invalid command". */
  lemma CheckedLineExecutes(line: string)
    requires SyntaxCheck(line) == Pass
    ensures var head := Lower(Split(line, ' ')[0]);
      && (ParseCommand(line).Ok? <==> head in CommandNames)
      && (head !in CommandNames ==>
            ParseCommand(line) == Err(InvalidCommand(head)) && line[FirstSpace(line)] != ' ')
  {
    var parts := Split(line, ' ');
    var head := Lower(parts[0]);
    SyntaxCheckFollowsSignature(line);
    ParseFollowsSignature(line);
    if head in CommandNames {
      CheckedImpliesExecuted(head, parts[1..]);
    } else {
      UnknownFirstPartPasses(line);
    }
  }

  /** A program whose every line passes `SyntaxCheck` with a command name
      in front runs to the end. */
  lemma CheckedProgramRuns(st: Canvas, commands: seq<string>)
    requires forall j :: 0 <= j < |commands| ==>
      SyntaxCheck(commands[j]) == Pass && Lower(Split(commands[j], ' ')[0]) in CommandNames
    ensures Run(st, commands).outcome == Pass
  {
    forall j | 0 <= j < |commands| ensures ParseCommand(commands[j]).Ok? {
      CheckedLineExecutes(commands[j]);
    }
    RunPasses(st, commands);
  }

  // ---------------------------------------------------------------------
  // Instructions written out as text

  /** The integer arguments of an instruction, in the order they are written. */
  function Ints(i: Instr): seq<Int32> {
    match i
    case Position(x, y) => [x, y]
    case Draw(x, y) => [x, y]
    case Rectangle(w, h) => [w, h]
    case Circle(r) => [r]
    case Triangle(a, b, c) => [a.x, a.y, b.x, b.y, c.x, c.y]
    case _ => []
  }

  function Numerals(ns: seq<Int32>): seq<string> {
    seq(|ns|, j requires 0 <= j < |ns| => Int32ToString(ns[j]))
  }

  function SwitchWord(mode: Option<bool>): string {
    match mode
    case Some(true) => "on"
    case Some(false) => "off"
    case None => "toggle"
  }

  /** The arguments of an instruction, as `ExecuteCommand` reads them. */
  function Args(i: Instr): seq<string> {
    match i
    case Position(x, y) => [Int32ToString(x), Int32ToString(y)]
    case Pen(c) => [ColorName(c)]
    case Draw(x, y) => [Int32ToString(x), Int32ToString(y)]
    case Clear() => []
    case Reset => []
    case Rectangle(w, h) => [Int32ToString(w), Int32ToString(h)]
    case Circle(r) => [Int32ToString(r)]
    case Triangle(a, b, c) =>
      [Int32ToString(a.x), Int32ToString(a.y), Int32ToString(b.x),
       Int32ToString(b.y), Int32ToString(c.x), Int32ToString(c.y)]
    case Fill(mode) => [SwitchWord(mode)]
  }

  function Words(i: Instr): seq<string> {
    [Name(i)] + Args(i)
  }

  /** The instruction as a program line: its name and its arguments,
      separated by single spaces. */
  function Format(i: Instr): string {
    Join(Words(i), ' ')
  }

  /** Every integer argument is zero or more. */
  predicate NonNegative(i: Instr) {
    forall j :: 0 <= j < |Ints(i)| ==> Ints(i)[j] >= 0
  }

  lemma LowerUnchanged(s: string)
    requires forall k :: 0 <= k < |s| ==> !IsUpper(s[k])
    ensures Lower(s) == s
  {
  }

  lemma NameIsLower(i: Instr)
    ensures Lower(Name(i)) == Name(i)
    ensures AllWord(Name(i)) && |Name(i)| > 0
  {
    NamesAreWords(Name(i));
  }

  lemma NumeralParses(n: Int32)
    ensures ParseIntArg(Int32ToString(n)) == Ok(n)
  {
    ParseToString(n, "", "");
    assert "" + Int32ToString(n) + "" == Int32ToString(n);
  }

  /** `int.Parse` reads a numeral back; a numeral is word text exactly
      when it has no minus sign. */
  lemma NumeralFacts(n: Int32)
    ensures ParseIntArg(Int32ToString(n)) == Ok(n)
    ensures ' ' !in Int32ToString(n)
    ensures WordText(Int32ToString(n)) <==> n >= 0
  {
    var s := Int32ToString(n);
    NumeralParses(n);
    if n < 0 {
      assert !IsWordChar(s[0]) && !IsSpace(s[0]);
    }
  }

  lemma NumeralsFacts(ns: seq<Int32>)
    ensures forall j :: 0 <= j < |ns| ==>
      ' ' !in Numerals(ns)[j] && Lower(Numerals(ns)[j]) == Numerals(ns)[j]
    ensures (forall j :: 0 <= j < |ns| ==> WordText(Numerals(ns)[j])) <==>
      (forall j :: 0 <= j < |ns| ==> ns[j] >= 0)
  {
    forall j | 0 <= j < |ns|
      ensures ' ' !in Numerals(ns)[j] && Lower(Numerals(ns)[j]) == Numerals(ns)[j]
      ensures WordText(Numerals(ns)[j]) <==> ns[j] >= 0
    {
      NumeralFacts(ns[j]);
      LowerUnchanged(Numerals(ns)[j]);
    }
  }

  lemma WordArgFacts(w: string)
    requires w in {"red", "green", "blue", "black", "on", "off", "toggle"}
    ensures ' ' !in w && Lower(w) == w && WordText(w)
  {
    LowerUnchanged(w);
  }

  /** The words of a formatted instruction hold no space, are already
      lower case, and after the name they are word text exactly when no
      integer argument is negative. */
  lemma ArgsFacts(i: Instr)
    ensures forall j :: 0 <= j < |Args(i)| ==> ' ' !in Args(i)[j] && Lower(Args(i)[j]) == Args(i)[j]
    ensures (forall j :: 0 <= j < |Args(i)| ==> WordText(Args(i)[j])) <==> NonNegative(i)
  {
    if i.Pen? {
      WordArgFacts(ColorName(i.color));
    } else if i.Fill? {
      WordArgFacts(SwitchWord(i.mode));
    } else {
      assert Args(i) == Numerals(Ints(i));
      NumeralsFacts(Ints(i));
    }
  }

  lemma SplitFormat(i: Instr)
    ensures Split(Format(i), ' ') == Words(i)
  {
    NameIsLower(i);
    ArgsFacts(i);
    var w := Words(i);
    forall j | 0 <= j < |w| ensures ' ' !in w[j] {
      if j == 0 {
        assert forall k :: 0 <= k < |Name(i)| ==> IsWordChar(Name(i)[k]);
      } else {
        assert w[j] == Args(i)[j - 1];
      }
    }
    SplitJoin(w, ' ');
  }

  lemma ParseTriangleWords(a: Point, b: Point, c: Point)
    ensures ParseParts("triangle", Words(Triangle(a, b, c))) == Ok(Triangle(a, b, c))
  {
    NumeralParses(a.x);
    NumeralParses(a.y);
    NumeralParses(b.x);
    NumeralParses(b.y);
    NumeralParses(c.x);
    NumeralParses(c.y);
  }

  /** The parts after the name parse back to the instruction's arguments. */
  lemma ParseWords(i: Instr)
    ensures ParseParts(Name(i), Words(i)) == Ok(i)
  {
    match i
    case Pen(c) =>
      WordArgFacts(ColorName(c));
      ParseColorName(c, ColorName(c));
    case Fill(mode) =>
      WordArgFacts(SwitchWord(mode));
    case Triangle(a, b, c) =>
      ParseTriangleWords(a, b, c);
    case Position(x, y) =>
      NumeralParses(x);
      NumeralParses(y);
    case Draw(x, y) =>
      NumeralParses(x);
      NumeralParses(y);
    case Rectangle(w, h) =>
      NumeralParses(w);
      NumeralParses(h);
    case Circle(r) =>
      NumeralParses(r);
    case Clear() =>
    case Reset =>
  }

  /** `ExecuteCommand` reads a formatted instruction back as that
      instruction, negative arguments included. */
  lemma FormatParses(i: Instr)
    ensures ParseCommand(Format(i)) == Ok(i)
  {
    SplitFormat(i);
    NameIsLower(i);
    ParseWords(i);
  }

  lemma WordTextConcat(a: string, b: string)
    ensures WordText(a + b) <==> WordText(a) && WordText(b)
  {
    assert forall k :: 0 <= k < |a| ==> (a + b)[k] == a[k];
    assert forall k :: 0 <= k < |b| ==> (a + b)[|a| + k] == b[k];
  }

  /** Words joined by spaces are word text exactly when every word is. */
  lemma {:induction false} JoinWordText(parts: seq<string>)
    requires |parts| >= 1
    ensures WordText(Join(parts, ' ')) <==> forall j :: 0 <= j < |parts| ==> WordText(parts[j])
  {
    if |parts| > 1 {
      JoinWordText(parts[1..]);
      WordTextConcat(parts[0] + [' '], Join(parts[1..], ' '));
      WordTextConcat(parts[0], [' ']);
      assert forall j :: 1 <= j < |parts| ==> parts[j] == parts[1..][j - 1];
    }
  }

  lemma ArgsEmpty(i: Instr)
    ensures Args(i) == [] <==> i.Clear? || i.Reset?
  {
    if !i.Pen? && !i.Fill? {
      assert |Args(i)| == |Ints(i)|;
    }
  }

  /** A word alone fails the line-shape check: `\s+` finds no
      white space. */
  lemma GateOfBareName(name: string)
    requires AllWord(name)
    ensures !Gate(name)
  {
    FirstSpaceUnique(name, |name|);
  }

  /** A command name followed by space-separated arguments passes the
      line-shape check exactly when every argument is word text. */
  lemma JoinFirst(name: string, args: seq<string>)
    requires |args| >= 1
    ensures Join([name] + args, ' ') == name + [' '] + Join(args, ' ')
  {
    assert ([name] + args)[1..] == args;
  }

  /** The white space after a word and the text after it. */
  lemma SplitAfterWord(name: string, rest: string)
    requires AllWord(name)
    ensures var line := name + [' '] + rest;
      && FirstSpace(line) == |name| && line[..|name|] == name
      && (WordText(line[|name|..]) <==> WordText(rest))
  {
    var line := name + [' '] + rest;
    assert forall j :: 0 <= j < |name| ==> line[j] == name[j];
    FirstSpaceUnique(line, |name|);
    assert line[|name|..] == [' '] + rest;
    WordTextConcat([' '], rest);
  }

  lemma GateOfNameAndArgs(name: string, args: seq<string>)
    requires AllWord(name) && Lower(name) in CommandNames && |args| >= 1
    ensures Gate(Join([name] + args, ' ')) <==> forall j :: 0 <= j < |args| ==> WordText(args[j])
  {
    JoinFirst(name, args);
    SplitAfterWord(name, Join(args, ' '));
    JoinWordText(args);
  }

  /** A formatted instruction passes the line-shape check exactly when it
      has arguments and none of them is negative: `\w` does not match a
      minus sign, and `\s+` demands white space after the name. */
  lemma FormatGate(i: Instr)
    ensures Gate(Format(i)) <==> !i.Clear? && !i.Reset? && NonNegative(i)
  {
    ArgsEmpty(i);
    ArgsFacts(i);
    NameIsLower(i);
    if Args(i) == [] {
      assert Format(i) == Name(i);
      GateOfBareName(Name(i));
    } else {
      GateOfNameAndArgs(Name(i), Args(i));
    }
  }

  lemma FormatCheckVerdict(i: Instr)
    ensures SyntaxCheck(Format(i)) == Fail(InvalidSyntax) <==> i.Clear? || i.Reset? || !NonNegative(i)
    ensures i == Fill(None) ==> SyntaxCheck(Format(i)) == Fail(InvalidParameters("fill"))
    ensures SyntaxCheck(Format(i)) == Pass <==>
      !i.Clear? && !i.Reset? && NonNegative(i) && i != Fill(None)
  {
    FormatGate(i);
    if Gate(Format(i)) {
      var name, words := Name(i), Words(i);
      assert SyntaxCheck(Format(i)) == CheckParts(name, words) by {
        SplitFormat(i);
        NameIsLower(i);
      }
      assert ArgsMatch(ExecutedSignature(name), words[1..]) by {
        ParseWords(i);
        ParsePartsFollowsSignature(name, words);
      }
      CheckPartsFollowsSignature(name, words);
      SignaturesDifferOnlyOnFill(name);
      if i.Fill? {
        WordArgFacts(SwitchWord(i.mode));
      }
    }
  }

  /** Which formatted instructions `SyntaxCheck` accepts, all of which
      `ExecuteCommand` carries out: it rejects `clear` and `reset`
      (nothing follows the name) and any negative argument as bad syntax,
      and a `fill` whose argument is neither `on` nor `off` as bad
      parameters. */
  lemma FormatChecked(i: Instr)
    ensures SyntaxCheck(Format(i)) == Fail(InvalidSyntax) <==> i.Clear? || i.Reset? || !NonNegative(i)
    ensures i == Fill(None) ==> SyntaxCheck(Format(i)) == Fail(InvalidParameters("fill"))
    ensures SyntaxCheck(Format(i)) == Pass <==>
      !i.Clear? && !i.Reset? && NonNegative(i) && i != Fill(None)
    ensures ParseCommand(Format(i)) == Ok(i)
  {
    FormatCheckVerdict(i);
    FormatParses(i);
  }

  // ---------------------------------------------------------------------
  // Lines the two disagree on

  /** A command name followed by a tab and a word passes `SyntaxCheck`,
      whose default case lets the unknown first part (the whole line)
      through, while `ExecuteCommand` throws "Invalid command" for it. */
  lemma TabSeparatedLine(name: string, arg: string)
    requires name in CommandNames && |arg| > 0 && AllWord(arg)
    ensures SyntaxCheck(name + "\t" + arg) == Pass
    ensures ParseCommand(name + "\t" + arg) == Err(InvalidCommand(Lower(name + "\t" + arg)))
  {
    var line := name + "\t" + arg;
    var n := |name|;
    NamesAreWords(name);
    assert line[n] == '\t' && line[..n] == name;
    assert forall k :: 0 <= k < n ==> line[k] == name[k];
    assert forall k :: n < k < |line| ==> line[k] == arg[k - n - 1];
    assert Gate(line) by {
      FirstSpaceUnique(line, n);
    }
    assert Split(line, ' ') == [line] by {
      SplitWithoutSeparator(line, ' ');
    }
    assert Lower(line) !in CommandNames by {
      assert !IsWordChar(Lower(line)[n]);
      NonWordIsNoName(Lower(line));
    }
    CheckPartsFollowsSignature(Lower(line), [line]);
    ParsePartsFollowsSignature(Lower(line), [line]);
  }
}
