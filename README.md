# Drawing-command parser, modelled in Dafny

The program is a small drawing environment. Each line of a program is a command: `position x y`, `pen <colour>`, `draw x y`, `clear`, `reset`, `rectangle w h`, `circle r`, `triangle x1 y1 x2 y2 x3 y3` or `fill on|off`. The `CommandParser` class has two jobs:

- `SyntaxCheck` inspects one line. It either returns or throws. First a case-insensitive regular expression checks the shape of the line. Then per-command checks run on the space-separated parts.
- `ExecuteCommand` and `ExecuteProgram` carry lines out. They change the parser's fill flag and pen colour, and they make calls on a `Graphics` surface. `SetPenColor` and `IsValidColor` handle colour names.

This project models that class and the form's loop that checks a whole program:

- **Wrappers** (`wrappers.dfy`): `Option`, `Result` and `Outcome`. An exception becomes an `Err`/`Fail` value.
- **Text** (`text.dfy`) contains:
  - ASCII versions of `\s`, `\w` and `ToLower`;
  - `String.Split(' ')`, with `Join` as its inverse;
  - the position of the first white-space character.
- **Int32Text** (`int32.dfy`) contains:
  - `int.TryParse`/`int.Parse` under `NumberStyles.Integer`: white space around the number, an optional sign, ASCII digits, and the 32-bit range. It is a character-by-character scan, proved equal to `TokenValue`, which describes the accepted text by its shape;
  - `ToString` as a partner, to state round trips;
  - 32-bit wrap-around, for `radius * 2`.
- **Drawing** (`drawing.dfy`): the surface, as a `Surface` class. It records every call in a log and keeps the translation in force (`origin`). `Origin(log)` specifies that translation.
- **Commands** (`commands.dfy`) holds what the checker and the interpreter share:
  - the nine command names;
  - the error kinds;
  - colour names, `IsValidColor` and the colour choice of `SetPenColor`;
  - for each command, the argument signature that each side enforces.
- **Syntax** (`syntax.dfy`) contains:
  - `SyntaxCheck` as a function;
  - the regular expression, stated two ways: as a ghost predicate with the pattern's own structure (`RegexMatch`), and as a computable check (`Gate`);
  - the proof that the two are equivalent.
- **Interpreter** (`interpreter.dfy`):
  - `ParseCommand` gives the meaning of a line: an instruction, or the error `ExecuteCommand` throws.
  - `Apply` gives the instruction's effect on the state.
  - `Run` describes a whole program.
  - The `CommandParser` class has the fields `fillEnabled` and `penColor` and the surface `graphics`. Its methods `SetPenColor`, `ExecuteCommand` and `ExecuteProgram` change these step by step, as the original does, and are proved against those functions.
- **Agreement** (`agreement.dfy`): what passing `SyntaxCheck` tells about `ExecuteCommand`, and where the two disagree. `Format` writes an instruction back as a line, as a partner for the round trip.
- **Host** (`host.dfy`): `MainForm.SyntaxCheck`, the loop that checks every line of the program.

Where the checker and the interpreter disagree, the model keeps the code's behaviour:

- `clear` and `reset` alone fail the regular expression. It demands white space after the name. `ExecuteCommand` accepts both.
- A minus sign is not `\w`, so negative numbers fail `SyntaxCheck`. `int.Parse` accepts them.
- Take a line whose name is followed by a tab. The regular expression matches. But the first space-separated part runs from the name through the tab, so it names no command. `SyntaxCheck` reaches its default case and passes the line. `ExecuteCommand` throws "Invalid command" for it.
- `fill` with an argument other than `on` or `off` fails `SyntaxCheck`. `ExecuteCommand` treats it as a no-op.

## Model

| member | source | states |
|---|---|---|
| Text.LowerChar | Form1.cs:134 | Lower-casing sends each of `A`..`Z` to the letter 32 code points above it, its lower-case form, and leaves every other character unchanged. It keeps a character's class (white space, word character, digit) and never yields an upper-case letter |
| Text.Split | Form1.cs:133 | `Split(' ')` gives at least one part, no part contains the separator, and joining the parts with the separator gives the line back |
| Text.SplitJoin | Form1.cs:227 | Splitting the join of separator-free parts gives those parts back, so `Split` is exactly the inverse of `Join` |
| Text.JoinInjective | Form1.cs:227 | Two lists of separator-free parts with the same join are equal |
| Text.SplitFirstPiece | Form1.cs:227 | The first part ends at the first separator |
| Text.SplitWithoutSeparator | Form1.cs:227 | A line without the separator splits into itself alone |
| Text.SplitLower | Form1.cs:227-228 | Splitting a lower-cased line gives the lower-cased parts of the line |
| Text.FirstSpace | Form1.cs:224 | The index of the first white-space character, or the length when there is none |
| Text.FirstSpaceUnique | Form1.cs:224 | Any index with no white space before it and white space (or the end) at it is the first white-space index |
| Text.FirstSpaceLower | Form1.cs:224 | Lower-casing does not move the first white space |
| Text.LowerIdempotent | Form1.cs:228 | Lower-casing twice is lower-casing once |
| Text.LowerPrefix | Form1.cs:228 | Lower-casing commutes with taking a prefix |
| Int32Text.Wrap | Form1.cs:187 | The 32-bit result is congruent to the true value modulo 2^32, and equal to it when it fits |
| Int32Text.ParseToString | Form1.cs:141-142 | `int.Parse` reads back the decimal text of every 32-bit integer, negative ones included, with any white space around it |
| Int32Text.ParseIgnoresCase | Form1.cs:234 | `int.TryParse` gives the same result on a token and on its lower-case form |
| Int32Text.ScanAlphabet | Form1.cs:234 | A token that parses holds only white space, signs and digits |
| Int32Text.ParseIsTokenValue | Form1.cs:141-142 | `int.Parse` accepts exactly the text made of white space, an optional `-` or `+`, one or more digits and white space, whose signed value fits in 32 bits. It gives that value, and rejects every other string |
| Int32Text.ParseShape | Form1.cs:234 | White space, an optional sign, digits and white space parse to the signed value of the digits, or fail when that value lies outside the 32-bit range |
| Drawing.ResetThenTranslate | Form1.cs:143-144 | A reset followed by a translation by (dx, dy) leaves exactly (dx, dy) in force, whatever the log before |
| Drawing.OriginKeptBy | Form1.cs:153-205 | A call other than a reset or a translation leaves the translation in force unchanged |
| Drawing.Surface.constructor | Form1.cs:18 | A fresh surface has an empty log and no translation |
| Drawing.Surface.ResetTransform | Form1.cs:143 | Appends the reset to the log; afterwards no translation is in force |
| Drawing.Surface.TranslateTransform | Form1.cs:144 | Appends the translation to the log and adds it to the translation in force |
| Drawing.Surface.Clear | Form1.cs:165 | Appends the clear to the log; the translation is unchanged |
| Drawing.Surface.DrawLine | Form1.cs:161 | Appends the line to the log; the translation is unchanged |
| Drawing.Surface.DrawRectangle | Form1.cs:180 | Appends the rectangle outline to the log; the translation is unchanged |
| Drawing.Surface.FillRectangle | Form1.cs:159 | Appends the filled rectangle to the log; the translation is unchanged |
| Drawing.Surface.DrawEllipse | Form1.cs:191 | Appends the ellipse outline to the log; the translation is unchanged |
| Drawing.Surface.FillEllipse | Form1.cs:189 | Appends the filled ellipse to the log; the translation is unchanged |
| Drawing.Surface.DrawPolygon | Form1.cs:204 | Appends the polygon outline, with its points in order, to the log; the translation is unchanged |
| Drawing.Surface.FillPolygon | Form1.cs:202 | Appends the filled polygon, with its points in order, to the log; the translation is unchanged |
| Commands.ParseColor | Form1.cs:277-293 | `SetPenColor` selects the pen colour whose name is the lower-cased argument, and none exists when it selects none |
| Commands.ValidColorIffParses | Form1.cs:296-308 | `IsValidColor` holds exactly for the names `SetPenColor` accepts |
| Commands.ParseColorName | Form1.cs:277-290 | Every pen colour is selected by its name written in any case |
| Commands.CheckedImpliesExecuted | Form1.cs:231-271 | Arguments that meet the signature `SyntaxCheck` enforces meet the one `ExecuteCommand` enforces |
| Commands.SignaturesDifferOnlyOnFill | Form1.cs:258-261 | The two signatures are the same for every command except `fill` |
| Syntax.NamesAreWords | Form1.cs:224 | Every command name is a non-empty, lower-case run of word characters |
| Syntax.NonWordIsNoName | Form1.cs:224 | A string with a character that is not a word character names no command |
| Syntax.ConcatIsWordText | Form1.cs:224 | Text matched by `(\w+\s*)*` holds only word and white-space characters |
| Syntax.FirstGroup | Form1.cs:224 | Word text that starts with a word character begins with one `\w+\s*` group, and what follows is again such text |
| Syntax.WordTextIsRepeated | Form1.cs:224 | Word-and-space text that is empty or starts with a word character is matched by `(\w+\s*)*` |
| Syntax.GateImpliesRegex | Form1.cs:224 | A line that passes the computed check matches the regular expression |
| Syntax.RegexImpliesGate | Form1.cs:224 | A line that matches the regular expression passes the computed check |
| Syntax.GateIsRegex | Form1.cs:224 | The computed check accepts exactly the lines the case-insensitive regular expression matches |
| Syntax.SyntaxCheckShape | Form1.cs:224-225 | `SyntaxCheck` throws "Invalid command syntax" exactly for the lines the regular expression does not match |
| Syntax.NonWordCharRejected | Form1.cs:224-225 | A line with any character that is neither `\w` nor `\s` (a minus sign, say) fails with "Invalid command syntax" |
| Syntax.CheckPartsFollowsSignature | Form1.cs:231-272 | The per-command checks pass exactly when the first part names no command, or the remaining parts meet that command's checked signature; every failure is "Invalid parameters" for that command |
| Syntax.SyntaxCheckFollowsSignature | Form1.cs:227-272 | Past the regular expression, `SyntaxCheck` passes exactly when the lower-cased first space-separated part is not a command name, or the parts after it meet its signature; extra trailing parts are never rejected |
| Syntax.ClearAndResetPassAnything | Form1.cs:270-271 | Past the regular expression, `clear` and `reset` pass whatever follows them |
| Syntax.UnknownFirstPartPasses | Form1.cs:270-271 | Past the regular expression, a first part that names no command is possible only when the name is followed by white space other than a space, and such a line passes |
| Syntax.WordTextLower | Form1.cs:224 | Lower-casing neither creates nor removes characters outside `\w` and `\s` |
| Syntax.GateIgnoresCase | Form1.cs:224 | The regular-expression check gives the same verdict on a line and on its lower-case form |
| Syntax.CheckPartsIgnoresCase | Form1.cs:231-272 | The per-command checks give the same verdict on lower-cased parts |
| Syntax.SyntaxCheckIgnoresCase | Form1.cs:221-273 | `SyntaxCheck` gives the same verdict on a line and on its lower-case form |
| Interpreter.Name | Form1.cs:136-214 | Every instruction comes from one of the nine command names |
| Interpreter.ParsePartsFollowsSignature | Form1.cs:136-217 | `ExecuteCommand` accepts the parts exactly when the first names a command and the rest meet its executed signature, and then the instruction is that command; an unknown name throws "Invalid command" and too few parts throws "Invalid number of parameters". Any other throw is a bad integer or a bad pen colour |
| Interpreter.ParseFollowsSignature | Form1.cs:133-217 | The same, for a whole line split on spaces: accepted exactly when the lower-cased first part names a command and the rest meet its signature. An unknown name throws "Invalid command", too few parts throw "Invalid number of parameters", and any other throw is a bad integer or a bad pen colour |
| Interpreter.ParsePartsIgnoresCase | Form1.cs:136-217 | The interpreter gives the same instruction or error for lower-cased parts |
| Interpreter.CommandIgnoresCase | Form1.cs:133-217 | `ExecuteCommand` gives the same instruction or error for a line and for its lower-case form |
| Interpreter.PositionSetsOrigin | Form1.cs:138-145 | After `position x y` the translation in force is exactly (x, y), whatever it was before |
| Interpreter.ResetClearsOrigin | Form1.cs:168-170 | After `reset` no translation is in force |
| Interpreter.ApplyFrame | Form1.cs:136-214 | Only `pen` can change the pen colour and only `fill` the fill flag; exactly these two leave the surface untouched |
| Interpreter.ShapeFollowsPenAndFill | Form1.cs:153-205 | `draw`, `rectangle`, `circle` and `triangle` add exactly one shape. It is in the pen's colour and is filled exactly when fill is on. Pen, fill flag and translation do not change |
| Interpreter.OriginMovesOnlyByPositionOrReset | Form1.cs:136-214 | Every other command leaves the translation in force unchanged |
| Interpreter.CircleDiameter | Form1.cs:183-192 | The circle's width and height are equal, congruent to twice the radius modulo 2^32, and exactly twice the radius when that fits in 32 bits |
| Interpreter.ApplyKeepsLog | Form1.cs:136-214 | Carrying out an instruction keeps every earlier call on the surface |
| Interpreter.RunAppend | Form1.cs:123-129 | Running two programs one after the other is running their concatenation, unless the first stops at an error |
| Interpreter.RunPasses | Form1.cs:123-129 | A program runs to the end exactly when every line of it is accepted |
| Interpreter.RunStopsAtFirstError | Form1.cs:123-129 | A program stops at its first rejected line with that line's error, in the state the earlier lines produced; later lines have no effect |
| Interpreter.RunKeepsLog | Form1.cs:123-129 | The effects of the lines that ran stay on the surface, also when a later line throws |
| Interpreter.CommandParser.constructor | Form1.cs:113-118 | A new parser has fill off and a black pen |
| Interpreter.CommandParser.SetPenColor | Form1.cs:275-294 | Succeeds exactly when `IsValidColor` holds, and then sets the pen to the colour the argument names. Otherwise it throws and leaves the pen unchanged. The fill flag never changes |
| Interpreter.CommandParser.ExecuteCommand | Form1.cs:131-219 | When `ParseCommand` gives an error, it throws that error and changes nothing. Otherwise the fields and the surface become what `Apply` gives for the instruction. The surface's translation stays consistent with its log |
| Interpreter.CommandParser.ExecutePosition | Form1.cs:138-145 | The `position` case of `ExecuteCommand`, with the same contract |
| Interpreter.CommandParser.ExecuteDraw | Form1.cs:153-162 | The `draw` case of `ExecuteCommand`, with the same contract |
| Interpreter.CommandParser.ExecuteRectangle | Form1.cs:172-181 | The `rectangle` case of `ExecuteCommand`, with the same contract |
| Interpreter.CommandParser.ExecuteCircle | Form1.cs:183-192 | The `circle` case of `ExecuteCommand`, with the same contract |
| Interpreter.CommandParser.ExecuteTriangle | Form1.cs:194-205 | The `triangle` case of `ExecuteCommand`, with the same contract |
| Interpreter.CommandParser.ExecuteProgram | Form1.cs:123-129 | The final state and the outcome are those of `Run`: the lines in order, up to the first that throws |
| Agreement.CheckedLineExecutes | Form1.cs:131-273 | A line that passes `SyntaxCheck` runs under `ExecuteCommand` exactly when its first space-separated part names a command. Otherwise the name was followed by a non-space white-space character and `ExecuteCommand` throws "Invalid command" |
| Agreement.CheckedProgramRuns | Form1.cs:123-129 | A program runs to the end when each of its lines passes `SyntaxCheck` and has a command name as its first space-separated part |
| Agreement.NumeralParses | Form1.cs:141-142 | `int.Parse` reads back the decimal text of an integer |
| Agreement.NumeralFacts | Form1.cs:224 | Decimal text has no space, and is `\w` text exactly when the integer is not negative |
| Agreement.SplitFormat | Form1.cs:133 | A formatted instruction splits on spaces into its name and its arguments |
| Agreement.ParseWords | Form1.cs:136-217 | The interpreter reads an instruction's name and arguments back as that instruction |
| Agreement.FormatParses | Form1.cs:131-219 | `ExecuteCommand` reads every formatted instruction back as that instruction, negative arguments and `clear`/`reset` included |
| Agreement.GateOfBareName | Form1.cs:224 | A command name alone fails the regular expression |
| Agreement.GateOfNameAndArgs | Form1.cs:224 | A command name followed by space-separated arguments matches the regular expression exactly when every argument is word and white-space text |
| Agreement.FormatGate | Form1.cs:224 | A formatted instruction matches the regular expression exactly when it has arguments and none is negative |
| Agreement.FormatChecked | Form1.cs:221-273 | `SyntaxCheck` rejects formatted `clear`, `reset` and any negative argument as bad syntax, and `fill` with another argument as bad parameters. It accepts every other formatted instruction. `ExecuteCommand` reads every formatted instruction, rejected ones included, back as that instruction |
| Agreement.TabSeparatedLine | Form1.cs:216-217 | A command name, a tab and a word pass `SyntaxCheck` but make `ExecuteCommand` throw "Invalid command" |
| Host.SyntaxCheckProgram | Form1.cs:36-42 | The program passes exactly when every line passes `SyntaxCheck`. Otherwise the error is that of the first failing line, and every line before it passes |

## Left out

- The form's event handlers, message boxes, and opening and saving programs (Form1.cs:15-34, 44-96). These are UI and file I/O. Only the checking loop `MainForm.SyntaxCheck` is modelled.
- Rendering. `Graphics`, `Pen` and `Brush` are reduced to a log of calls, with the colour each call uses. Pixels, line widths and the panel are not modelled.
- `TranslateTransform` takes floating-point offsets. The model keeps the integer offsets the commands pass.
- `panelSize` and `Size` are not modelled: they are stored and never read.
- Unicode classes and culture-sensitive case mapping. `\s`, `\w` and `ToLower` are modelled on ASCII only. Only `A`..`Z` change case, `\s` is tab to carriage return plus space, and `\w` is letters, digits and `_`.
- Parts of `int.Parse` under `NumberStyles.Integer`: trailing NUL characters, and culture-specific sign symbols.
- Exception types and message texts. The model has one error kind per cause, carrying at most the lower-cased command name.
- Null arguments: a Dafny string cannot be null.
- The regular expression's `$` can also match before a final line feed. This needs no separate case: `\s` already absorbs that line feed in every match.
- UnitTest1.cs is not part of this model. Its table expects `clear ` and `reset test` to fail `SyntaxCheck`. The code passes both, which `Syntax.ClearAndResetPassAnything` states.
- `SyntaxCheck` never throws "Invalid command". The regular expression rejects an unknown name as bad syntax, and a first part that names no command passes.
- The cases of `ExecuteCommand` that parse integers are split into one method per command, so that each proof stays small. Within each case, parsing and drawing happen in the original's order.
