/** How the REPL loop treats its commands, blank lines and modes. */
module DriverFacts {
  import opened Results
  import Lexer
  import Parser
  import Compiler
  import Environment
  import Vm
  import Interpreter
  import VmFacts
  import opened Driver

  /** `:interp` and `:vm` change the mode and nothing else. */
  lemma ModeCommands(r: Repl, raw: string, fuel: nat)
    ensures CleanLine(raw) == ":interp" ==> Handle(r, raw, fuel) == (r.(mode := Interpreting), ModeSwitched(Interpreting))
    ensures CleanLine(raw) == ":vm" ==> Handle(r, raw, fuel) == (r.(mode := Compiling), ModeSwitched(Compiling))
  {
  }

  /** A line runs in the mode the REPL is in, and only that mode's
      variables can change. */
  lemma ModesSeparate(r: Repl, raw: string, fuel: nat)
    ensures var (r1, reply) := Handle(r, raw, fuel);
      && (r.mode == Compiling ==> !reply.Interpreted? && r1.interpEnv == r.interpEnv)
      && (r.mode == Interpreting ==> !reply.Executed? && !reply.CompileFailed? && r1.vmEnv == r.vmEnv)
  {
    hide Lexer.Tokenize, Parser.Parse, Compiler.Compile, Vm.RunProgram, Interpreter.Interpret;
  }

  /** `exit` or `:exit`, once its line ending is gone, ends the session
      there. */
  lemma ExitEnds(r: Repl, lines: seq<string>, fuel: nat)
    requires |lines| > 0 && IsExit(CleanLine(lines[0]))
    ensures Session(r, lines, fuel) == [Goodbye]
  {
  }

  /** A blank line is skipped: the session goes on from the same state. */
  lemma BlankSkipped(r: Repl, lines: seq<string>, fuel: nat)
    requires |lines| > 0 && CleanLine(lines[0]) == ""
    ensures Session(r, lines, fuel) == [Blank] + Session(r, lines[1..], fuel)
  {
  }

  /** A parse error is reported and the session goes on from the same
      state. */
  lemma ParseErrorContinues(r: Repl, lines: seq<string>, fuel: nat)
    requires |lines| > 0 && Handle(r, lines[0], fuel).1.ParseFailed?
    ensures Handle(r, lines[0], fuel).0 == r
    ensures Session(r, lines, fuel) == [Handle(r, lines[0], fuel).1] + Session(r, lines[1..], fuel)
  {
  }

  /** A line that does not end the program is answered, and the session
      goes on with the next line from the state that line left. */
  lemma SessionStep(r: Repl, lines: seq<string>, fuel: nat)
    requires |lines| > 0 && !Ends(Handle(r, lines[0], fuel).1)
    ensures Session(r, lines, fuel)
         == [Handle(r, lines[0], fuel).1] + Session(Handle(r, lines[0], fuel).0, lines[1..], fuel)
  {
    hide Lexer.Tokenize, Parser.Parse, Compiler.Compile, Vm.RunProgram, Interpreter.Interpret, Handle;
  }

  /** The loop reads every line unless a reply ends the program, and then
      that reply is the last. */
  lemma {:induction false} SessionStops(r: Repl, lines: seq<string>, fuel: nat)
    ensures var replies := Session(r, lines, fuel);
      |replies| == |lines| || (|replies| > 0 && Ends(replies[|replies| - 1]))
    decreases |lines|
  {
    hide Lexer.Tokenize, Parser.Parse, Compiler.Compile, Vm.RunProgram, Interpreter.Interpret, Handle;
    if |lines| > 0 && !Ends(Handle(r, lines[0], fuel).1) {
      var (r1, reply) := Handle(r, lines[0], fuel);
      SessionStep(r, lines, fuel);
      SessionStops(r1, lines[1..], fuel);
    }
  }

  /** The REPL starts in VM mode and stays there until a line reads
      `:interp`: until then no line is interpreted. */
  lemma {:induction false} CompiledUntilInterp(r: Repl, lines: seq<string>, fuel: nat)
    requires r.mode == Compiling
    requires forall k | 0 <= k < |lines| :: CleanLine(lines[k]) != ":interp"
    ensures forall k | 0 <= k < |Session(r, lines, fuel)| :: !Session(r, lines, fuel)[k].Interpreted?
    decreases |lines|
  {
    hide Lexer.Tokenize, Parser.Parse, Compiler.Compile, Vm.RunProgram, Interpreter.Interpret, Handle;
    if |lines| > 0 {
      var (r1, reply) := Handle(r, lines[0], fuel);
      ModesSeparate(r, lines[0], fuel);
      if !Ends(reply) {
        assert r1.mode == Compiling by {
          if reply.ModeSwitched? {
            ModeCommands(r, lines[0], fuel);
          }
        }
        CompiledUntilInterp(r1, lines[1..], fuel);
        assert forall k | 0 <= k < |lines[1..]| :: CleanLine(lines[1..][k]) != ":interp";
      }
    }
  }

  /** From the start, in particular. */
  lemma StartsCompiling(lines: seq<string>, fuel: nat)
    requires forall k | 0 <= k < |lines| :: CleanLine(lines[k]) != ":interp"
    ensures forall k | 0 <= k < |Session(Start, lines, fuel)| :: !Session(Start, lines, fuel)[k].Interpreted?
  {
    CompiledUntilInterp(Start, lines, fuel);
  }

  // ---------------------------------------------------------------------
  // The file runner
  // ---------------------------------------------------------------------

  /** The text, once cleaned, lexes, parses and compiles. */
  predicate Runnable(src: string) {
    && Lexer.Tokenize(src).Ok?
    && Parser.Valid(Lexer.Tokenize(src).value)
    && Parser.Parse(Lexer.Tokenize(src).value).Ok?
    && Compiler.Compile(Parser.Parse(Lexer.Tokenize(src).value).value).Ok?
  }

  /** A file runs exactly when its cleaned text lexes, parses and
      compiles; it then runs that program's bytecode from an empty
      environment, and a run that stops early stops on a run-time fault
      or for want of fuel, never on a fault of the code itself. */
  lemma FileRuns(text: string, fuel: nat)
    ensures Lexer.Tokenize(CleanSource(text)).Ok? ==> Parser.Valid(Lexer.Tokenize(CleanSource(text)).value)
    ensures RunFile(text, fuel).Ok? <==> Runnable(CleanSource(text))
    ensures Runnable(CleanSource(text)) ==>
      var bc := Compiler.Compile(Parser.Parse(Lexer.Tokenize(CleanSource(text)).value).value).value;
      RunFile(text, fuel) == Ok(Vm.RunProgram(bc, Environment.NewEnvironment(None), fuel))
    ensures RunFile(text, fuel).Ok? && RunFile(text, fuel).value.fault.Some? ==>
      var f := RunFile(text, fuel).value.fault.value;
      VmFacts.RuntimeFault(f) || f == Vm.OutOfFuel
  {
    var src := CleanSource(text);
    if Lexer.Tokenize(src).Ok? {
      TokenizeFacts.TokenizeShape(src);
      var toks := Lexer.Tokenize(src).value;
      if Parser.Parse(toks).Ok? && Compiler.Compile(Parser.Parse(toks).value).Ok? {
        VmFacts.CompiledProgram(Parser.Parse(toks).value, Environment.NewEnvironment(None), fuel);
      }
    }
  }
}
