/** The three stages one after another: scan the source text, parse the
    tokens, generate code for the program.  The scanner's output is exactly
    the kind of token list the parser and the generator's correctness
    theorem expect, so the whole chain is correct: whatever source text it
    accepts, the code it produces exits with the status the parsed program
    means. */
module Pipeline {
  import opened Wrappers
  import opened Tokens
  import opened Tokenizer
  import opened TokenizerFacts
  import opened Parser
  import opened ParserFacts
  import opened Generator
  import opened Semantics
  import opened Machine
  import opened GeneratorFacts
  import opened Correctness

  /** The stage that refused the input, with its diagnostic. */
  datatype CompileError =
    | LexFailed(lex: LexError)
    | ParseFailed(parse: ParseError)
    | GenFailed(gen: GenError)

  /** Source text to the generator's lines, stopping at the first stage that
      refuses the input. */
  function Compile(src: string): Result<seq<Line>, CompileError> {
    match Tokenize(src)
    case Err(e) => Err(LexFailed(e))
    case Ok(ts) =>
      match ParseProgram(ts)
      case Err(e) => Err(ParseFailed(e))
      case Ok(p) =>
        match GenProgram(p)
        case Err(e) => Err(GenFailed(e))
        case Ok(code) => Ok(code)
  }

  // ---------------------------------------------------------------------
  // What the scanner hands on
  // ---------------------------------------------------------------------

  /** Every integer literal token carries a decimal numeral. */
  predicate LiteralTokensAreNumerals(ts: seq<Token>) {
    forall k :: 0 <= k < |ts| && ts[k].kind == IntLit ==>
      ts[k].value.Some? && IsNumeral(ts[k].value.value)
  }

  /** The scanner's output: keywords and punctuation carry no text, and
      integer literals are numerals. */
  lemma {:induction false} WellFormedIsPlain(ts: seq<Token>)
    requires WellFormed(ts)
    ensures PlainPunctuation(ts) && LiteralTokensAreNumerals(ts)
    decreases |ts|
  {
    if ts != [] {
      var n := if ts[0].kind == DoubleQuotes then 3 else 1;
      WellFormedIsPlain(ts[n..]);
      forall k | 0 <= k < |ts|
        ensures !HasPayload(ts[k].kind) ==> ts[k].value == None
        ensures ts[k].kind == IntLit ==> ts[k].value.Some? && IsNumeral(ts[k].value.value)
      {
        if k >= n {
          assert ts[k] == ts[n..][k - n];
        }
      }
    }
  }

  /** A parsed program's literals are the literal tokens it was read from. */
  lemma {:induction false} SpelledLiterals(stmts: seq<Stmt>, ts: seq<Token>)
    requires SpellsAll(stmts, ts) && LiteralTokensAreNumerals(ts)
    ensures LiteralsAreNumerals(stmts)
    decreases |stmts|
  {
    if stmts != [] {
      assert LiteralTokensAreNumerals(ts[5..]) by {
        forall k | 0 <= k < |ts[5..]| ensures ts[5..][k] == ts[k + 5] {}
      }
      SpelledLiterals(stmts[1..], ts[5..]);
      var w := ts[..5];
      var e := stmts[0].expr;
      if e.IntLitExpr? {
        var at := if stmts[0].ExitStmt? then 2 else 3;
        assert w[at] == ExprToken(e) && ts[at] == w[at];
      }
      forall k | 0 <= k < |stmts| && stmts[k].expr.IntLitExpr?
        ensures stmts[k].expr.intLit.value.Some? && IsNumeral(stmts[k].expr.intLit.value.value)
      {
        if k > 0 {
          assert stmts[k] == stmts[1..][k - 1];
        }
      }
    }
  }

  /** Each loop turn of the scanner emits at most three tokens and consumes at
      least one character, so the scanner emits at most three tokens per
      character. */
  lemma {:induction false} TokenCount(src: string, i: nat)
    requires i <= |src| && TokenizeFrom(src, i).Ok?
    ensures |TokenizeFrom(src, i).value| <= 3 * (|src| - i)
    decreases |src| - i
  {
    if i < |src| {
      var s := Step(src, i).value;
      TokenCount(src, s.next);
      assert TokenizeFrom(src, i).value == s.emitted + TokenizeFrom(src, s.next).value;
    }
  }

  // ---------------------------------------------------------------------
  // The whole chain
  // ---------------------------------------------------------------------

  /** Whatever source text the three stages accept, the scanner and the
      parser read a program that obeys the scope rules and whose literals are
      numerals, and the generated code, run from any machine state, exits
      with the status that program means.  The only bound is that the text
      has fewer than 2^61 - 1 characters, so that the stack offsets the
      generator computes do not wrap. */
  lemma CompileCorrect(src: string, code: seq<Line>, m: MState)
    requires Compile(src) == Ok(code)
    requires |src| + 1 < Size64 / 8
    ensures Tokenize(src).Ok? && ParseProgram(Tokenize(src).value).Ok?
    ensures var p := ParseProgram(Tokenize(src).value).value;
      && FirstError(p.stmts, {}).None? && LiteralsAreNumerals(p.stmts)
      && Run(code, m) == Exited(Meaning(p.stmts))
  {
    var ts := Tokenize(src).value;
    var p := ParseProgram(ts).value;
    WellFormedIsPlain(ts);
    SpelledLiterals(p.stmts, ts);
    TokenCount(src, 0);
    SpellingLength(p.stmts, ts);
    GenProgramCorrect(p, code, m);
  }

  /** The chain's errors are the stages' errors: the scanner's diagnostic if
      it stops, else the parser's, else the first scope error of the parsed
      program. */
  lemma CompileErrors(src: string)
    ensures Tokenize(src).Err? ==> Compile(src) == Err(LexFailed(Tokenize(src).error))
    ensures Tokenize(src).Ok? && ParseProgram(Tokenize(src).value).Err? ==>
      Compile(src) == Err(ParseFailed(ParseProgram(Tokenize(src).value).error))
    ensures Tokenize(src).Ok? && ParseProgram(Tokenize(src).value).Ok? ==>
      var p := ParseProgram(Tokenize(src).value).value;
      && (Compile(src).Ok? <==> FirstError(p.stmts, {}).None?)
      && (FirstError(p.stmts, {}).Some? ==> Compile(src) == Err(GenFailed(FirstError(p.stmts, {}).value)))
  {
    if Tokenize(src).Ok? && ParseProgram(Tokenize(src).value).Ok? {
      GenProgramErrors(ParseProgram(Tokenize(src).value).value);
    }
  }

  /** Printing a program as source text and compiling that text is the same
      as generating code for the program, when the program's tokens are ones
      the scanner can produce. */
  lemma CompileRendered(stmts: seq<Stmt>)
    requires AllShaped(stmts) && WellFormed(Unparse(stmts))
    ensures Compile(Render(Unparse(stmts))) == (match GenProgram(Program(stmts))
                                                case Ok(code) => Ok(code)
                                                case Err(e) => Err(GenFailed(e)))
  {
    RenderRoundTrip(Unparse(stmts));
    ParseUnparse(stmts);
  }
}
