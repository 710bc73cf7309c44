/** The vocabulary the syntax checker and the interpreter share: command
    names, colour names, the errors they throw and, per command, the
    arguments each of them demands. */
module Commands {
  import opened Wrappers
  import opened Text
  import opened Int32Text
  import opened Drawing

  /** The nine commands, in lower case. */
  const CommandNames: set<string> :=
    {"position", "pen", "draw", "clear", "reset", "rectangle", "circle", "triangle", "fill"}

  /** What the parser throws. Messages are not modelled, except for the
      (lower-cased) command they name. */
  datatype Error =
    | InvalidSyntax                        // the line-shape check of SyntaxCheck
    | InvalidParameters(command: string)   // a per-command check of SyntaxCheck
    | WrongParameterCount(command: string) // too few parts in ExecuteCommand
    | NotAnInteger                         // int.Parse threw
    | InvalidPenColor                      // SetPenColor threw
    | InvalidCommand(command: string)      // ExecuteCommand met an unknown name

  function ColorName(c: PenColor): string {
    match c
    case Red => "red"
    case Green => "green"
    case Blue => "blue"
    case Black => "black"
  }

  /** The choice `SetPenColor` makes: the pen colour whose name is the
      lower-cased argument, if any. */
  function ParseColor(name: string): (r: Option<PenColor>)
    ensures r.Some? ==> Lower(name) == ColorName(r.value)
    ensures r.None? ==> forall c: PenColor :: Lower(name) != ColorName(c)
  {
    match Lower(name)
    case "red" => Some(Red)
    case "green" => Some(Green)
    case "blue" => Some(Blue)
    case "black" => Some(Black)
    case _ => None
  }

  /** `IsValidColor`: whether the lower-cased argument names a pen colour. */
  predicate IsValidColor(color: string) {
    match Lower(color)
    case "red" => true
    case "green" => true
    case "blue" => true
    case "black" => true
    case _ => false
  }

  /** `IsValidColor` accepts exactly the names `SetPenColor` accepts. */
  lemma ValidColorIffParses(color: string)
    ensures IsValidColor(color) <==> ParseColor(color).Some?
  {
  }

  /** Every pen colour is selected by its name, in any case. */
  lemma ParseColorName(c: PenColor, name: string)
    requires Lower(name) == ColorName(c)
    ensures ParseColor(name) == Some(c)
  {
  }

  /** What a command demands of one argument. */
  datatype ArgKind =
    | IntArg    // int.TryParse / int.Parse succeeds
    | ColorArg  // IsValidColor / SetPenColor succeeds
    | SwitchArg // "on" or "off", in any case
    | AnyArg    // present, whatever it is

  predicate Accepts(kind: ArgKind, token: string) {
    match kind
    case IntArg => IsInt(token)
    case ColorArg => IsValidColor(token)
    case SwitchArg => Lower(token) == "on" || Lower(token) == "off"
    case AnyArg => true
  }

  /** The arguments `SyntaxCheck` demands of each command; `clear` and
      `reset` fall to its default case and demand nothing. */
  function CheckedSignature(name: string): seq<ArgKind>
    requires name in CommandNames
  {
    match name
    case "position" => [IntArg, IntArg]
    case "pen" => [ColorArg]
    case "draw" => [IntArg, IntArg]
    case "rectangle" => [IntArg, IntArg]
    case "circle" => [IntArg]
    case "triangle" => [IntArg, IntArg, IntArg, IntArg, IntArg, IntArg]
    case "fill" => [SwitchArg]
    case _ => []
  }

  /** The arguments `ExecuteCommand` demands of each command: the same,
      except that `fill` takes any argument. */
  function ExecutedSignature(name: string): seq<ArgKind>
    requires name in CommandNames
  {
    match name
    case "position" => [IntArg, IntArg]
    case "pen" => [ColorArg]
    case "draw" => [IntArg, IntArg]
    case "rectangle" => [IntArg, IntArg]
    case "circle" => [IntArg]
    case "triangle" => [IntArg, IntArg, IntArg, IntArg, IntArg, IntArg]
    case "fill" => [AnyArg]
    case _ => []
  }

  /** At least as many arguments as the signature has, each of the
      demanded kind; extra trailing arguments are ignored. */
  predicate ArgsMatch(signature: seq<ArgKind>, args: seq<string>) {
    |args| >= |signature| && forall i :: 0 <= i < |signature| ==> Accepts(signature[i], args[i])
  }

  /** Whatever the syntax checker demands of a command's arguments, the
      interpreter demands no more. */
  lemma CheckedImpliesExecuted(name: string, args: seq<string>)
    requires name in CommandNames
    requires ArgsMatch(CheckedSignature(name), args)
    ensures ArgsMatch(ExecutedSignature(name), args)
  {
  }

  /** The two signatures differ only for `fill`. */
  lemma SignaturesDifferOnlyOnFill(name: string)
    requires name in CommandNames
    ensures name != "fill" <==> CheckedSignature(name) == ExecutedSignature(name)
  {
  }
}
