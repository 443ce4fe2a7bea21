/** The two front ends. The file runner reads a source file, strips its
    trailing white space, and sends it through the lexer, the parser, the
    compiler and the VM. The REPL reads one line at a time, strips its line
    ending, and either obeys a command or runs the line as a program in the
    current mode: compiled and run on the VM (the start mode) or
    interpreted. Each mode keeps its own variables from line to line.

    The C programs exit on a lexing error, a compile error, a VM fault and
    an interpreter failure; a REPL parse error is reported and the next
    line read. Reading the file or the terminal is left to the caller: the
    runner takes the file's text and the REPL the lines it reads. */
module Driver {
  import opened Results
  import opened Lexer
  import TokenizeFacts
  import opened Ast
  import opened Parser
  import opened Compiler
  import opened Environment
  import Vm
  import Interpreter

  // ---------------------------------------------------------------------
  // Trimming
  // ---------------------------------------------------------------------

  /** The C string a buffer holds: everything before the first `'\0'`. */
  function CString(s: string): (r: string)
    ensures r <= s && '\0' !in r
    ensures '\0' !in s ==> r == s
    ensures |r| < |s| ==> s[|r|] == '\0'
  {
    if |s| == 0 || s[0] == '\0' then "" else [s[0]] + CString(s[1..])
  }

  /** s without the longest tail of characters `strip` holds for. */
  function TrimEnd(s: string, strip: char -> bool): (r: string)
    ensures r <= s
    ensures |r| == 0 || !strip(r[|r| - 1])
    ensures forall i | |r| <= i < |s| :: strip(s[i])
  {
    if |s| == 0 || !strip(s[|s| - 1]) then s else TrimEnd(s[..|s| - 1], strip)
  }

  /** Trimming again removes nothing. */
  lemma TrimEndIdempotent(s: string, strip: char -> bool)
    ensures TrimEnd(TrimEnd(s, strip), strip) == TrimEnd(s, strip)
  {
  }

  /** The characters `clean_source` strips. */
  predicate IsSourceBlank(c: char) {
    c == ' ' || c == '\n' || c == '\r' || c == '\t'
  }

  /** The characters `clean_line` strips. */
  predicate IsLineEnd(c: char) {
    c == '\n' || c == '\r'
  }

  /** `clean_source`: the text without trailing spaces, tabs and line
      breaks. */
  function CleanSource(src: string): (r: string)
    ensures r <= CString(src) && '\0' !in r
    ensures |r| == 0 || !IsSourceBlank(r[|r| - 1])
    ensures forall i | |r| <= i < |CString(src)| :: IsSourceBlank(CString(src)[i])
  {
    TrimEnd(CString(src), IsSourceBlank)
  }

  /** `clean_line`: the line without its trailing line breaks; spaces and
      tabs stay. */
  function CleanLine(line: string): (r: string)
    ensures r <= CString(line) && '\0' !in r
    ensures |r| == 0 || !IsLineEnd(r[|r| - 1])
    ensures forall i | |r| <= i < |CString(line)| :: IsLineEnd(CString(line)[i])
  {
    TrimEnd(CString(line), IsLineEnd)
  }

  /** Cleaning a cleaned text changes nothing. */
  lemma CleanIdempotent(s: string)
    ensures CleanSource(CleanSource(s)) == CleanSource(s)
    ensures CleanLine(CleanLine(s)) == CleanLine(s)
  {
    TrimEndIdempotent(CString(s), IsSourceBlank);
    TrimEndIdempotent(CString(s), IsLineEnd);
  }

  /** Only line breaks go: a line whose text ends in a space or tab keeps
      it, whatever line breaks follow. */
  lemma {:induction false} CleanLineKeepsBlanks(text: string, ends: string)
    requires '\0' !in text && '\0' !in ends
    requires |text| > 0 && !IsLineEnd(text[|text| - 1])
    requires forall i | 0 <= i < |ends| :: IsLineEnd(ends[i])
    ensures CleanLine(text + ends) == text
    decreases |ends|
  {
    if |ends| == 0 {
      assert text + ends == text;
    } else {
      var s := text + ends;
      assert s[..|s| - 1] == text + ends[..|ends| - 1];
      CleanLineKeepsBlanks(text, ends[..|ends| - 1]);
    }
  }

  // ---------------------------------------------------------------------
  // The file runner
  // ---------------------------------------------------------------------

  /** Why a run of a file stopped early. */
  datatype RunError =
    | Unlexable(lex: LexError)
    | Unparsable(parse: ParseError)
    | Uncompilable(compile: CompileError)

  /** `main`: clean the text, tokenize, parse, compile and run it from a
      fresh VM environment. */
  function RunFile(text: string, fuel: nat): (r: Result<Vm.Outcome, RunError>)
    ensures r.Ok? ==> Tokenize(CleanSource(text)).Ok?
  {
    var src := CleanSource(text);
    match Tokenize(src)
    case Err(e) => Err(Unlexable(e))
    case Ok(toks) =>
      TokenizeFacts.TokenizeShape(src);
      match Parse(toks)
      case Err(e) => Err(Unparsable(e))
      case Ok(ss) =>
        match Compile(ss)
        case Err(e) => Err(Uncompilable(e))
        case Ok(bc) => Ok(Vm.RunProgram(bc, NewEnvironment(None), fuel))
  }

  // ---------------------------------------------------------------------
  // The REPL
  // ---------------------------------------------------------------------

  datatype Mode = Interpreting | Compiling

  /** The mode and the variables of each mode. */
  datatype Repl = Repl(mode: Mode, vmEnv: Env, interpEnv: Env)

  /** The REPL before its first line: VM mode, nothing defined. */
  const Start := Repl(Compiling, NewEnvironment(None), NewEnvironment(None))

  /** What the REPL does with one line. */
  datatype Reply =
    | Goodbye
    | HelpShown
    | ModeSwitched(mode: Mode)
    | Blank
    | LexFailed(lex: LexError)
    | ParseFailed(parse: ParseError)
    | Interpreted(result: Interpreter.Outcome)
    | CompileFailed(compile: CompileError)
    | Executed(outcome: Vm.Outcome)

  /** The replies after which the C program has exited. */
  predicate Ends(reply: Reply) {
    || reply.Goodbye? || reply.LexFailed? || reply.CompileFailed?
    || (reply.Interpreted? && reply.result.failure.Some?)
    || (reply.Executed? && reply.outcome.fault.Some?)
  }

  predicate IsExit(line: string) {
    line == ":exit" || line == "exit"
  }

  /** One pass of the REPL loop on the line read. */
  function Handle(r: Repl, raw: string, fuel: nat): (res: (Repl, Reply))
    ensures res.1 == Goodbye <==> IsExit(CleanLine(raw))
    ensures res.1 == Blank <==> CleanLine(raw) == ""
    ensures res.1.ModeSwitched? <==> CleanLine(raw) in {":interp", ":vm"}
    ensures res.0.mode != r.mode ==> res.1.ModeSwitched?
  {
    var line := CleanLine(raw);
    if IsExit(line) then (r, Goodbye)
    else if line == ":help" then (r, HelpShown)
    else if line == ":interp" then (r.(mode := Interpreting), ModeSwitched(Interpreting))
    else if line == ":vm" then (r.(mode := Compiling), ModeSwitched(Compiling))
    else if line == "" then (r, Blank)
    else
      match Tokenize(line)
      case Err(e) => (r, LexFailed(e))
      case Ok(toks) =>
        TokenizeFacts.TokenizeShape(line);
        match Parse(toks)
        case Err(e) => (r, ParseFailed(e))
        case Ok(ss) =>
          if r.mode == Interpreting then
            var o := Interpreter.Interpret(r.interpEnv, ss, fuel);
            (r.(interpEnv := o.st.env), Interpreted(o))
          else
            match Compile(ss)
            case Err(e) => (r, CompileFailed(e))
            case Ok(bc) =>
              var o := Vm.RunProgram(bc, r.vmEnv, fuel);
              (r.(vmEnv := o.m.env), Executed(o))
  }

  /** The replies to the lines read, up to the first that ends the
      program or the end of input. */
  function Session(r: Repl, lines: seq<string>, fuel: nat): (replies: seq<Reply>)
    ensures |replies| <= |lines|
    ensures forall k | 0 <= k < |replies| - 1 :: !Ends(replies[k])
    ensures |lines| > 0 ==> |replies| > 0 && replies[0] == Handle(r, lines[0], fuel).1
    decreases |lines|
  {
    hide Handle;
    if |lines| == 0 then []
    else
      var (r1, reply) := Handle(r, lines[0], fuel);
      if Ends(reply) then [reply] else [reply] + Session(r1, lines[1..], fuel)
  }
}
