/** `CommandParser.ExecuteCommand`, `ExecuteProgram` and `SetPenColor`:
    a specification that separates what a line means (`ParseCommand`)
    from what it does to the drawing state (`Apply`), and the class whose
    methods carry it out step by step on its fields and its surface. */
module Interpreter {
  import opened Wrappers
  import opened Text
  import opened Int32Text
  import opened Drawing
  import opened Commands

  /** A line the interpreter accepts, with its arguments decoded. */
  datatype Instr =
    | Position(x: Int32, y: Int32)
    | Pen(color: PenColor)
    | Draw(x: Int32, y: Int32)
    | Clear
    | Reset
    | Rectangle(width: Int32, height: Int32)
    | Circle(radius: Int32)
    | Triangle(a: Point, b: Point, c: Point)
    | Fill(mode: Option<bool>)  // None: an argument other than on/off

  /** The state a command reads and changes: the parser's `fillEnabled`
      and pen colour, and the calls made so far on its surface. */
  datatype Canvas = Canvas(fill: bool, pen: PenColor, log: seq<SurfaceOp>)

  /** `int.Parse(token)`. */
  function ParseIntArg(token: string): Result<Int32, Error> {
    match ParseInt32(token)
    case Some(v) => Ok(v)
    case None => Err(NotAnInteger)
  }

  /** What `ExecuteCommand(command)` does before it touches any state: the
      instruction it carries out, or the exception it throws. */
  function ParseCommand(command: string): Result<Instr, Error> {
    var parts := Split(command, ' ');
    ParseParts(Lower(parts[0]), parts)
  }

  /** The `switch` of `ExecuteCommand` on the lower-cased first part `cmd`. */
  function ParseParts(cmd: string, parts: seq<string>): Result<Instr, Error> {
    match cmd
    case "position" =>
      if |parts| < 3 then Err(WrongParameterCount(cmd))
      else
        var x :- ParseIntArg(parts[1]);
        var y :- ParseIntArg(parts[2]);
        Ok(Position(x, y))
    case "pen" =>
      if |parts| < 2 then Err(WrongParameterCount(cmd))
      else
        var c := ParseColor(parts[1]);
        if c.Some? then Ok(Pen(c.value)) else Err(InvalidPenColor)
    case "draw" =>
      if |parts| < 3 then Err(WrongParameterCount(cmd))
      else
        var x :- ParseIntArg(parts[1]);
        var y :- ParseIntArg(parts[2]);
        Ok(Draw(x, y))
    case "clear" => Ok(Instr.Clear)
    case "reset" => Ok(Reset)
    case "rectangle" =>
      if |parts| < 3 then Err(WrongParameterCount(cmd))
      else
        var w :- ParseIntArg(parts[1]);
        var h :- ParseIntArg(parts[2]);
        Ok(Rectangle(w, h))
    case "circle" =>
      if |parts| < 2 then Err(WrongParameterCount(cmd))
      else
        var r :- ParseIntArg(parts[1]);
        Ok(Circle(r))
    case "triangle" =>
      if |parts| < 7 then Err(WrongParameterCount(cmd))
      else
        var x1 :- ParseIntArg(parts[1]);
        var y1 :- ParseIntArg(parts[2]);
        var x2 :- ParseIntArg(parts[3]);
        var y2 :- ParseIntArg(parts[4]);
        var x3 :- ParseIntArg(parts[5]);
        var y3 :- ParseIntArg(parts[6]);
        Ok(Triangle(Point(x1, y1), Point(x2, y2), Point(x3, y3)))
    case "fill" =>
      if |parts| < 2 then Err(WrongParameterCount(cmd))
      else
        var arg := Lower(parts[1]);
        Ok(Fill(if arg == "on" then Some(true) else if arg == "off" then Some(false) else None))
    case _ => Err(InvalidCommand(cmd))
  }

  /** `radius * 2` in unchecked 32-bit arithmetic. */
  function Diameter(radius: Int32): Int32 {
    Wrap(2 * radius)
  }

  /** What carrying out `i` does to the state. */
  function Apply(st: Canvas, i: Instr): Canvas {
    match i
    case Position(x, y) => st.(log := st.log + [SurfaceOp.ResetTransform, SurfaceOp.TranslateTransform(x, y)])
    case Pen(c) => st.(pen := c)
    case Draw(x, y) =>
      st.(log := st.log + [
        if st.fill then FillRectangle(st.pen, x, y, 1, 1)
        else DrawLine(st.pen, Point(0, 0), Point(x, y))])
    case Clear() => st.(log := st.log + [SurfaceOp.Clear(White)])
    case Reset => st.(log := st.log + [SurfaceOp.ResetTransform])
    case Rectangle(w, h) =>
      st.(log := st.log + [
        if st.fill then FillRectangle(st.pen, 0, 0, w, h) else DrawRectangle(st.pen, 0, 0, w, h)])
    case Circle(r) =>
      var d := Diameter(r);
      st.(log := st.log + [
        if st.fill then FillEllipse(st.pen, 0, 0, d, d) else DrawEllipse(st.pen, 0, 0, d, d)])
    case Triangle(a, b, c) =>
      st.(log := st.log + [
        if st.fill then FillPolygon(st.pen, [a, b, c]) else DrawPolygon(st.pen, [a, b, c])])
    case Fill(mode) =>
      if mode.Some? then st.(fill := mode.value) else st
  }

  /** The state after a program, and whether it ran to the end or stopped
      at the first command that threw. */
  datatype RunResult = RunResult(final: Canvas, outcome: Outcome<Error>)

  /** `ExecuteProgram(commands)` from state `st`. */
  function Run(st: Canvas, commands: seq<string>): RunResult
    decreases |commands|
  {
    if commands == [] then RunResult(st, Pass)
    else
      match ParseCommand(commands[0])
      case Err(e) => RunResult(st, Fail(e))
      case Ok(i) => Run(Apply(st, i), commands[1..])
  }

  // ---------------------------------------------------------------------
  // Properties of the specification

  /** The lower-case command name of an instruction. */
  function Name(i: Instr): (name: string)
    ensures name in CommandNames
  {
    match i
    case Position(_, _) => "position"
    case Pen(_) => "pen"
    case Draw(_, _) => "draw"
    case Clear() => "clear"
    case Reset => "reset"
    case Rectangle(_, _) => "rectangle"
    case Circle(_) => "circle"
    case Triangle(_, _, _) => "triangle"
    case Fill(_) => "fill"
  }

  /** `ExecuteCommand` accepts a line exactly when its first part names a
      command and the arguments after it fit the command's signature; it
      throws "Invalid command" for an unknown name and "Invalid number of
      parameters" for too few parts. */
  lemma ParsePartsFollowsSignature(cmd: string, parts: seq<string>)
    requires |parts| >= 1
    ensures ParseParts(cmd, parts).Ok? <==> cmd in CommandNames && ArgsMatch(ExecutedSignature(cmd), parts[1..])
    ensures ParseParts(cmd, parts).Ok? ==> Name(ParseParts(cmd, parts).value) == cmd
    ensures cmd !in CommandNames ==> ParseParts(cmd, parts) == Err(InvalidCommand(cmd))
    ensures cmd in CommandNames && |parts| - 1 < |ExecutedSignature(cmd)| ==>
      ParseParts(cmd, parts) == Err(WrongParameterCount(cmd))
    ensures ParseParts(cmd, parts).Err? ==>
      ParseParts(cmd, parts).error in {WrongParameterCount(cmd), NotAnInteger, InvalidPenColor, InvalidCommand(cmd)}
  {
    if cmd == "pen" && |parts| >= 2 {
      ValidColorIffParses(parts[1]);
    }
  }

  /** The same, for a whole line split on spaces. */
  lemma ParseFollowsSignature(command: string)
    ensures var parts := Split(command, ' '); var head := Lower(parts[0]);
      && (ParseCommand(command).Ok? <==> head in CommandNames && ArgsMatch(ExecutedSignature(head), parts[1..]))
      && (ParseCommand(command).Ok? ==> Name(ParseCommand(command).value) == head)
      && (head !in CommandNames ==> ParseCommand(command) == Err(InvalidCommand(head)))
      && (head in CommandNames && |parts| - 1 < |ExecutedSignature(head)| ==>
            ParseCommand(command) == Err(WrongParameterCount(head)))
      && (ParseCommand(command).Err? ==>
            ParseCommand(command).error in {WrongParameterCount(head), NotAnInteger, InvalidPenColor, InvalidCommand(head)})
  {
    var parts := Split(command, ' ');
    ParsePartsFollowsSignature(Lower(parts[0]), parts);
  }

  lemma ParsePartsIgnoresCase(cmd: string, parts: seq<string>)
    ensures ParseParts(cmd, LowerAll(parts)) == ParseParts(cmd, parts)
  {
    var lowered := LowerAll(parts);
    forall i | 0 <= i < |parts|
      ensures ParseIntArg(lowered[i]) == ParseIntArg(parts[i])
      ensures ParseColor(lowered[i]) == ParseColor(parts[i])
      ensures Lower(lowered[i]) == Lower(parts[i])
    {
      ParseIgnoresCase(parts[i]);
      LowerIdempotent(parts[i]);
    }
  }

  /** `ExecuteCommand` does the same with a line and with its lower-case
      form. */
  lemma CommandIgnoresCase(command: string)
    ensures ParseCommand(Lower(command)) == ParseCommand(command)
  {
    SplitLower(command, ' ');
    var parts := Split(command, ' ');
    LowerIdempotent(parts[0]);
    ParsePartsIgnoresCase(Lower(parts[0]), parts);
  }

  /** After `position x y` the translation in force is `(x, y)`, whatever
      it was before. */
  lemma PositionSetsOrigin(st: Canvas, x: Int32, y: Int32)
    ensures Origin(Apply(st, Position(x, y)).log) == (x, y)
  {
    ResetThenTranslate(st.log, x, y);
  }

  /** After `reset` no translation is in force. */
  lemma ResetClearsOrigin(st: Canvas)
    ensures Origin(Apply(st, Reset).log) == (0, 0)
  {
  }

  predicate IsShape(op: SurfaceOp) {
    op.DrawLine? || op.DrawRectangle? || op.FillRectangle? || op.DrawEllipse? ||
    op.FillEllipse? || op.DrawPolygon? || op.FillPolygon?
  }

  predicate IsFilled(op: SurfaceOp) {
    op.FillRectangle? || op.FillEllipse? || op.FillPolygon?
  }

  function Ink(op: SurfaceOp): Color
    requires IsShape(op)
  {
    match op
    case DrawLine(c, _, _) => c
    case DrawRectangle(c, _, _, _, _) => c
    case FillRectangle(c, _, _, _, _) => c
    case DrawEllipse(c, _, _, _, _) => c
    case FillEllipse(c, _, _, _, _) => c
    case DrawPolygon(c, _) => c
    case FillPolygon(c, _) => c
  }

  /** `draw`, `rectangle`, `circle` and `triangle` each add one shape in
      the pen's colour, filled exactly when fill is on, and change nothing
      else: not the pen, not the fill flag, not the translation. */
  lemma ShapeFollowsPenAndFill(st: Canvas, i: Instr)
    requires i.Draw? || i.Rectangle? || i.Circle? || i.Triangle?
    ensures var after := Apply(st, i);
      && after.fill == st.fill && after.pen == st.pen
      && |after.log| == |st.log| + 1 && after.log[..|st.log|] == st.log
      && IsShape(after.log[|st.log|]) && Ink(after.log[|st.log|]) == st.pen
      && (IsFilled(after.log[|st.log|]) <==> st.fill)
      && Origin(after.log) == Origin(st.log)
  {
    var after := Apply(st, i);
    assert after.log == st.log + [after.log[|st.log|]];
    OriginKeptBy(st.log, after.log[|st.log|]);
  }

  /** Only `pen` changes the pen, only `fill` changes the fill flag, and
      neither of them draws. */
  lemma ApplyFrame(st: Canvas, i: Instr)
    ensures Apply(st, i).pen != st.pen ==> i.Pen?
    ensures Apply(st, i).fill != st.fill ==> i.Fill?
    ensures i.Pen? || i.Fill? <==> Apply(st, i).log == st.log
  {
  }

  /** Only `position` and `reset` move the origin. */
  lemma OriginMovesOnlyByPositionOrReset(st: Canvas, i: Instr)
    requires !i.Position? && !i.Reset?
    ensures Origin(Apply(st, i).log) == Origin(st.log)
  {
    var after := Apply(st, i);
    if after.log != st.log {
      assert after.log == st.log + [after.log[|st.log|]];
      OriginKeptBy(st.log, after.log[|st.log|]);
    }
  }

  /** The circle is drawn in a square of side twice the radius, taken
      modulo 2^32 as 32-bit multiplication does; for radii up to 2^30 in
      size that is the true diameter. */
  lemma CircleDiameter(st: Canvas, r: Int32)
    ensures var op := Apply(st, Circle(r)).log[|st.log|];
      && op.width == op.height
      && (op.width - 2 * r) % 0x1_0000_0000 == 0
      && (-0x4000_0000 <= r < 0x4000_0000 ==> op.width == 2 * r)
  {
  }

  /** Carrying out an instruction keeps what was drawn before. */
  lemma ApplyKeepsLog(st: Canvas, i: Instr)
    ensures |Apply(st, i).log| >= |st.log| && Apply(st, i).log[..|st.log|] == st.log
  {
  }

  /** Running `a + b` runs `a` and, unless `a` stopped at an error, then
      runs `b` from where `a` left off. */
  lemma {:induction false} RunAppend(st: Canvas, a: seq<string>, b: seq<string>)
    ensures Run(st, a + b) ==
      (var ra := Run(st, a); if ra.outcome.Fail? then ra else Run(ra.final, b))
    decreases |a|
  {
    if a != [] {
      assert (a + b)[0] == a[0] && (a + b)[1..] == a[1..] + b;
      if ParseCommand(a[0]).Ok? {
        RunAppend(Apply(st, ParseCommand(a[0]).value), a[1..], b);
      }
    } else {
      assert a + b == b;
    }
  }

  /** A program runs to the end exactly when every line of it is accepted. */
  lemma {:induction false} RunPasses(st: Canvas, commands: seq<string>)
    ensures Run(st, commands).outcome.Pass? <==>
      forall j :: 0 <= j < |commands| ==> ParseCommand(commands[j]).Ok?
    decreases |commands|
  {
    if commands != [] && ParseCommand(commands[0]).Ok? {
      RunPasses(Apply(st, ParseCommand(commands[0]).value), commands[1..]);
      assert forall j :: 1 <= j < |commands| ==> commands[j] == commands[1..][j - 1];
    }
  }

  /** A program stops at its first rejected line with that line's error,
      leaving the state the lines before it produced; later lines have no
      effect. */
  lemma RunStopsAtFirstError(st: Canvas, commands: seq<string>, k: nat)
    requires k < |commands| && ParseCommand(commands[k]).Err?
    requires forall j :: 0 <= j < k ==> ParseCommand(commands[j]).Ok?
    ensures Run(st, commands) ==
      RunResult(Run(st, commands[..k]).final, Fail(ParseCommand(commands[k]).error))
  {
    assert commands == commands[..k] + commands[k..];
    RunAppend(st, commands[..k], commands[k..]);
    RunPasses(st, commands[..k]);
  }

  /** Running a program keeps what was drawn before it, whether it runs
      to the end or stops at an error. */
  lemma {:induction false} RunKeepsLog(st: Canvas, commands: seq<string>)
    ensures var log := Run(st, commands).final.log; |log| >= |st.log| && log[..|st.log|] == st.log
    decreases |commands|
  {
    if commands != [] && ParseCommand(commands[0]).Ok? {
      var next := Apply(st, ParseCommand(commands[0]).value);
      ApplyKeepsLog(st, ParseCommand(commands[0]).value);
      RunKeepsLog(next, commands[1..]);
      var log := Run(st, commands).final.log;
      assert log[..|next.log|][..|st.log|] == log[..|st.log|];
    }
  }

  /** A command that ended in `r` took the state from `before` to `after`
      as `p` says: unchanged with `p`'s error, or by applying `p`'s
      instruction. */
  predicate Carried(before: Canvas, after: Canvas, p: Result<Instr, Error>, r: Outcome<Error>) {
    match p
    case Err(e) => r == Fail(e) && after == before
    case Ok(i) => r == Pass && after == Apply(before, i)
  }

  /** The parser object: its fill flag and pen colour, and the surface it
      was given. */
  class CommandParser {
    var fillEnabled: bool
    var penColor: PenColor
    const graphics: Surface

    ghost predicate Valid()
      reads this, graphics
    {
      graphics.Valid()
    }

    function State(): Canvas
      reads this, graphics
    {
      Canvas(fillEnabled, penColor, graphics.log)
    }

    constructor (graphics: Surface)
      requires graphics.Valid()
      ensures Valid() && this.graphics == graphics
      ensures State() == Canvas(false, Black, graphics.log)
    {
      this.graphics := graphics;
      fillEnabled := false;
      penColor := Black;
    }

    /** `SetPenColor(color)`: selects the named colour, or throws and
        changes nothing. */
    method SetPenColor(color: string) returns (r: Outcome<Error>)
      modifies this
      ensures r == Pass <==> IsValidColor(color)
      ensures r.Pass? ==> penColor == ParseColor(color).value && ColorName(penColor) == Lower(color)
      ensures r.Fail? ==> r == Fail(InvalidPenColor) && penColor == old(penColor)
      ensures fillEnabled == old(fillEnabled)
    {
      ValidColorIffParses(color);
      match Lower(color)
      case "red" => penColor := Red; r := Pass;
      case "green" => penColor := Green; r := Pass;
      case "blue" => penColor := Blue; r := Pass;
      case "black" => penColor := Black; r := Pass;
      case _ => r := Fail(InvalidPenColor);
    }

    /** `ExecuteCommand(command)`: throws, having changed nothing, when
        `ParseCommand` gives an error, and otherwise applies the
        instruction to the fields and the surface. */
    method ExecuteCommand(command: string) returns (r: Outcome<Error>)
      requires Valid()
      modifies this, graphics
      ensures Valid()
      ensures ParseCommand(command).Err? ==>
        r == Fail(ParseCommand(command).error) && State() == old(State())
      ensures ParseCommand(command).Ok? ==>
        r == Pass && State() == Apply(old(State()), ParseCommand(command).value)
    {
      var parts := Split(command, ' ');
      var cmd := Lower(parts[0]);
      assert ParseCommand(command) == ParseParts(cmd, parts);
      match cmd
      case "position" =>
        r := ExecutePosition(parts);
      case "pen" =>
        if |parts| < 2 {
          return Fail(WrongParameterCount(cmd));
        }
        r := SetPenColor(parts[1]);
      case "draw" =>
        r := ExecuteDraw(parts);
      case "clear" =>
        graphics.Clear(White);
        r := Pass;
      case "reset" =>
        graphics.ResetTransform();
        r := Pass;
      case "rectangle" =>
        r := ExecuteRectangle(parts);
      case "circle" =>
        r := ExecuteCircle(parts);
      case "triangle" =>
        r := ExecuteTriangle(parts);
      case "fill" =>
        if |parts| < 2 {
          return Fail(WrongParameterCount(cmd));
        }
        if Lower(parts[1]) == "on" {
          fillEnabled := true;
        } else if Lower(parts[1]) == "off" {
          fillEnabled := false;
        }
        r := Pass;
      case _ =>
        r := Fail(InvalidCommand(cmd));
    }

    /** The `position` case of `ExecuteCommand`. */
    method ExecutePosition(parts: seq<string>) returns (r: Outcome<Error>)
      requires Valid()
      modifies graphics
      ensures Valid()
      ensures Carried(old(State()), State(), ParseParts("position", parts), r)
    {
      if |parts| < 3 {
        return Fail(WrongParameterCount("position"));
      }
      var x := ParseIntArg(parts[1]);
      if x.Err? { return Fail(x.error); }
      var y := ParseIntArg(parts[2]);
      if y.Err? { return Fail(y.error); }
      graphics.ResetTransform();
      graphics.TranslateTransform(x.value, y.value);
      r := Pass;
    }

    /** The `draw` case of `ExecuteCommand`. */
    method ExecuteDraw(parts: seq<string>) returns (r: Outcome<Error>)
      requires Valid()
      modifies graphics
      ensures Valid()
      ensures Carried(old(State()), State(), ParseParts("draw", parts), r)
    {
      if |parts| < 3 {
        return Fail(WrongParameterCount("draw"));
      }
      var endX := ParseIntArg(parts[1]);
      if endX.Err? { return Fail(endX.error); }
      var endY := ParseIntArg(parts[2]);
      if endY.Err? { return Fail(endY.error); }
      if fillEnabled {
        graphics.FillRectangle(penColor, endX.value, endY.value, 1, 1);
      } else {
        graphics.DrawLine(penColor, 0, 0, endX.value, endY.value);
      }
      r := Pass;
    }

    /** The `rectangle` case of `ExecuteCommand`. */
    method ExecuteRectangle(parts: seq<string>) returns (r: Outcome<Error>)
      requires Valid()
      modifies graphics
      ensures Valid()
      ensures Carried(old(State()), State(), ParseParts("rectangle", parts), r)
    {
      if |parts| < 3 {
        return Fail(WrongParameterCount("rectangle"));
      }
      var width := ParseIntArg(parts[1]);
      if width.Err? { return Fail(width.error); }
      var height := ParseIntArg(parts[2]);
      if height.Err? { return Fail(height.error); }
      if fillEnabled {
        graphics.FillRectangle(penColor, 0, 0, width.value, height.value);
      } else {
        graphics.DrawRectangle(penColor, 0, 0, width.value, height.value);
      }
      r := Pass;
    }

    /** The `circle` case of `ExecuteCommand`. */
    method ExecuteCircle(parts: seq<string>) returns (r: Outcome<Error>)
      requires Valid()
      modifies graphics
      ensures Valid()
      ensures Carried(old(State()), State(), ParseParts("circle", parts), r)
    {
      if |parts| < 2 {
        return Fail(WrongParameterCount("circle"));
      }
      var radius := ParseIntArg(parts[1]);
      if radius.Err? { return Fail(radius.error); }
      var diameter := Wrap(radius.value as int * 2);
      if fillEnabled {
        graphics.FillEllipse(penColor, 0, 0, diameter, diameter);
      } else {
        graphics.DrawEllipse(penColor, 0, 0, diameter, diameter);
      }
      r := Pass;
    }

    /** The `triangle` case of `ExecuteCommand`. */
    method ExecuteTriangle(parts: seq<string>) returns (r: Outcome<Error>)
      requires Valid()
      modifies graphics
      ensures Valid()
      ensures Carried(old(State()), State(), ParseParts("triangle", parts), r)
    {
      if |parts| < 7 {
        return Fail(WrongParameterCount("triangle"));
      }
      var x1 := ParseIntArg(parts[1]);
      if x1.Err? { return Fail(x1.error); }
      var y1 := ParseIntArg(parts[2]);
      if y1.Err? { return Fail(y1.error); }
      var x2 := ParseIntArg(parts[3]);
      if x2.Err? { return Fail(x2.error); }
      var y2 := ParseIntArg(parts[4]);
      if y2.Err? { return Fail(y2.error); }
      var x3 := ParseIntArg(parts[5]);
      if x3.Err? { return Fail(x3.error); }
      var y3 := ParseIntArg(parts[6]);
      if y3.Err? { return Fail(y3.error); }
      var trianglePoints := [Point(x1.value, y1.value), Point(x2.value, y2.value), Point(x3.value, y3.value)];
      if fillEnabled {
        graphics.FillPolygon(penColor, trianglePoints);
      } else {
        graphics.DrawPolygon(penColor, trianglePoints);
      }
      r := Pass;
    }

    /** `ExecuteProgram(commands)`: the commands in order, up to the first
        that throws; what the earlier ones did stays done. */
    method ExecuteProgram(commands: seq<string>) returns (r: Outcome<Error>)
      requires Valid()
      modifies this, graphics
      ensures Valid()
      ensures State() == Run(old(State()), commands).final
      ensures r == Run(old(State()), commands).outcome
    {
      var i := 0;
      while i < |commands|
        invariant 0 <= i <= |commands|
        invariant Valid()
        invariant Run(old(State()), commands) == Run(State(), commands[i..])
      {
        assert commands[i..][1..] == commands[i + 1..];
        r := ExecuteCommand(commands[i]);
        if r.Fail? {
          return;
        }
        i := i + 1;
      }
      r := Pass;
    }
  }
}
