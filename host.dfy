/** `MainForm.SyntaxCheck`: the form checks every line of the program it
    holds and reports the first failure. */
module Host {
  import opened Wrappers
  import opened Commands
  import opened Syntax

  /** Checks `programCommands` in order and stops at the first line that
      `SyntaxCheck` rejects, with that line's error. */
  method SyntaxCheckProgram(programCommands: seq<string>) returns (r: Outcome<Error>)
    ensures r.Pass? <==> forall j :: 0 <= j < |programCommands| ==> SyntaxCheck(programCommands[j]) == Pass
    ensures r.Fail? ==>
      exists k :: 0 <= k < |programCommands| && SyntaxCheck(programCommands[k]) == r &&
                  forall j :: 0 <= j < k ==> SyntaxCheck(programCommands[j]) == Pass
  {
    var i := 0;
    while i < |programCommands|
      invariant 0 <= i <= |programCommands|
      invariant forall j :: 0 <= j < i ==> SyntaxCheck(programCommands[j]) == Pass
    {
      r := SyntaxCheck(programCommands[i]);
      if r.Fail? {
        return;
      }
      i := i + 1;
    }
    r := Pass;
  }
}
