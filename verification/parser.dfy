/** The recursive-descent parser of `src/parser.hpp`: a program is a flat
    list of statements, each either `bye ( expr ) ;` or
    `hope ident = expr ;`, and an expression is a single integer literal or
    identifier token.  A syntax error stops the C++ parser with a message;
    here it is an `Err` naming that message. */
module Parser {
  import opened Wrappers
  import opened Tokens

  // ---------------------------------------------------------------------
  // Syntax tree
  // ---------------------------------------------------------------------

  /** `NodeExpr`: the token of an integer literal or of an identifier. */
  datatype Expr = IntLitExpr(intLit: Token) | IdentExpr(ident: Token)

  /** `NodeStmt`: `NodeStmtExit` or `NodeStmtHope`. */
  datatype Stmt = ExitStmt(expr: Expr) | HopeStmt(ident: Token, expr: Expr)

  /** `NodeProgram`. */
  datatype Program = Program(stmts: seq<Stmt>)

  /** The five diagnostics of the parser. */
  datatype ParseError =
    | ExitExprExpected     // "Unexpected token encountered during parsing"
    | CloseParenExpected   // "expecting close parenthesis ')'"
    | SemiExpected         // "expecting semicolon ';'"
    | HopeExprExpected     // "Invalid Expression after 'hope'"
    | InvalidStatement     // "Invalid Statement encountered during parsing"

  /** The outcome of `parse_stmt` when it does not stop the process: no
      statement starts here, or a statement ending before `next`. */
  datatype StmtParse = NoStmt | Parsed(stmt: Stmt, next: nat)

  // ---------------------------------------------------------------------
  // Statement spellings: the reference the parser is checked against
  // ---------------------------------------------------------------------

  /** The token an expression was read from. */
  function ExprToken(e: Expr): Token {
    match e
    case IntLitExpr(t) => t
    case IdentExpr(t) => t
  }

  /** An expression whose token has the tag of its alternative. */
  predicate ExprShaped(e: Expr) {
    match e
    case IntLitExpr(t) => t.kind == IntLit
    case IdentExpr(t) => t.kind == Ident
  }

  /** A statement whose tokens have the tags its grammar rule names. */
  predicate StmtShaped(s: Stmt) {
    match s
    case ExitStmt(e) => ExprShaped(e)
    case HopeStmt(id, e) => id.kind == Ident && ExprShaped(e)
  }

  /** The five tokens `w` spell the statement `s`: the keywords and the
      punctuation have the right tags, and the identifier and the expression
      are the very tokens the statement holds. */
  predicate Spells(s: Stmt, w: seq<Token>) {
    && |w| == 5
    && StmtShaped(s)
    && match s
       case ExitStmt(e) =>
         w[0].kind == Bye && w[1].kind == OpenParen && w[2] == ExprToken(e)
         && w[3].kind == CloseParen && w[4].kind == Semi
       case HopeStmt(id, e) =>
         w[0].kind == Hope && w[1] == id && w[2].kind == Eq && w[3] == ExprToken(e)
         && w[4].kind == Semi
  }

  /** The tokens `w` are the statements `stmts` spelled one after another. */
  predicate SpellsAll(stmts: seq<Stmt>, w: seq<Token>)
    decreases |stmts|
  {
    if stmts == [] then w == []
    else |w| >= 5 && Spells(stmts[0], w[..5]) && SpellsAll(stmts[1..], w[5..])
  }

  // ---------------------------------------------------------------------
  // The parser
  // ---------------------------------------------------------------------

  /** `peek(offset)`: the token `offset` places after the cursor, if any. */
  function Peek(ts: seq<Token>, pos: nat, offset: nat): (r: Option<Token>)
    ensures r.None? <==> pos + offset >= |ts|
    ensures r.Some? ==> r.value == ts[pos + offset]
  {
    if pos + offset >= |ts| then None else Some(ts[pos + offset])
  }

  /** `peek(offset)` holds a token tagged `k`. */
  predicate PeekIs(ts: seq<Token>, pos: nat, offset: nat, k: TokenType) {
    match Peek(ts, pos, offset)
    case Some(t) => t.kind == k
    case None => false
  }

  /** `parse_expr` at the cursor `pos`; on success it consumes one token. */
  function ParseExpr(ts: seq<Token>, pos: nat): (r: Option<Expr>)
    ensures r.Some? <==> pos < |ts| && (ts[pos].kind == IntLit || ts[pos].kind == Ident)
    ensures r.Some? ==> ExprShaped(r.value) && ExprToken(r.value) == ts[pos]
  {
    if PeekIs(ts, pos, 0, IntLit) then Some(IntLitExpr(ts[pos]))
    else if PeekIs(ts, pos, 0, Ident) then Some(IdentExpr(ts[pos]))
    else None
  }

  /** The lookahead that selects the `bye` rule. */
  predicate ExitAhead(ts: seq<Token>, pos: nat) {
    PeekIs(ts, pos, 0, Bye) && PeekIs(ts, pos, 1, OpenParen)
  }

  /** The lookahead that selects the `hope` rule. */
  predicate HopeAhead(ts: seq<Token>, pos: nat) {
    PeekIs(ts, pos, 0, Hope) && PeekIs(ts, pos, 1, Ident) && PeekIs(ts, pos, 2, Eq)
  }

  /** Some statement is spelled by the tokens `w`. */
  ghost predicate SpellsSome(w: seq<Token>) {
    exists s :: Spells(s, w)
  }

  /** Some statement is spelled by the five tokens at `pos`. */
  ghost predicate StmtAt(ts: seq<Token>, pos: nat) {
    pos + 5 <= |ts| && SpellsSome(ts[pos..pos + 5])
  }

  /** The `bye` rule after its lookahead: expression, `)`, `;`, each checked
      in that order. */
  function ParseExit(ts: seq<Token>, pos: nat): (r: Result<StmtParse, ParseError>)
    requires ExitAhead(ts, pos)
    ensures r.Ok? ==> r.value.Parsed? && r.value.next == pos + 5 <= |ts|
    ensures r.Ok? ==> r.value.stmt.ExitStmt? && Spells(r.value.stmt, ts[pos..pos + 5])
    ensures r == Err(ExitExprExpected) <==> ParseExpr(ts, pos + 2).None?
    ensures r == Err(CloseParenExpected) <==>
      ParseExpr(ts, pos + 2).Some? && !PeekIs(ts, pos, 3, CloseParen)
    ensures r == Err(SemiExpected) <==>
      ParseExpr(ts, pos + 2).Some? && PeekIs(ts, pos, 3, CloseParen) && !PeekIs(ts, pos, 4, Semi)
    ensures r.Err? ==> r.error in {ExitExprExpected, CloseParenExpected, SemiExpected}
  {
    match ParseExpr(ts, pos + 2)
    case None => Err(ExitExprExpected)
    case Some(e) =>
      if !PeekIs(ts, pos, 3, CloseParen) then Err(CloseParenExpected)
      else if !PeekIs(ts, pos, 4, Semi) then Err(SemiExpected)
      else Ok(Parsed(ExitStmt(e), pos + 5))
  }

  /** The `hope` rule after its lookahead: expression, then `;`. */
  function ParseHope(ts: seq<Token>, pos: nat): (r: Result<StmtParse, ParseError>)
    requires HopeAhead(ts, pos)
    ensures r.Ok? ==> r.value.Parsed? && r.value.next == pos + 5 <= |ts|
    ensures r.Ok? ==> r.value.stmt.HopeStmt? && Spells(r.value.stmt, ts[pos..pos + 5])
    ensures r == Err(HopeExprExpected) <==> ParseExpr(ts, pos + 3).None?
    ensures r == Err(SemiExpected) <==> ParseExpr(ts, pos + 3).Some? && !PeekIs(ts, pos, 4, Semi)
    ensures r.Err? ==> r.error in {HopeExprExpected, SemiExpected}
  {
    match ParseExpr(ts, pos + 3)
    case None => Err(HopeExprExpected)
    case Some(e) =>
      if !PeekIs(ts, pos, 4, Semi) then Err(SemiExpected)
      else Ok(Parsed(HopeStmt(ts[pos + 1], e), pos + 5))
  }

  /** The `bye` rule fails exactly when the five tokens at `pos` spell no
      statement. */
  lemma ExitFailsIffNoStmt(ts: seq<Token>, pos: nat)
    requires ExitAhead(ts, pos)
    ensures ParseExit(ts, pos).Err? <==> !StmtAt(ts, pos)
  {
    if StmtAt(ts, pos) {
      var s :| Spells(s, ts[pos..pos + 5]);
      assert ts[pos + 2] == ts[pos..pos + 5][2];
      assert ts[pos + 3] == ts[pos..pos + 5][3];
      assert ts[pos + 4] == ts[pos..pos + 5][4];
    }
  }

  /** The `hope` rule fails exactly when the five tokens at `pos` spell no
      statement. */
  lemma HopeFailsIffNoStmt(ts: seq<Token>, pos: nat)
    requires HopeAhead(ts, pos)
    ensures ParseHope(ts, pos).Err? <==> !StmtAt(ts, pos)
  {
    if StmtAt(ts, pos) {
      var s :| Spells(s, ts[pos..pos + 5]);
      assert ts[pos + 3] == ts[pos..pos + 5][3];
      assert ts[pos + 4] == ts[pos..pos + 5][4];
    }
  }

  /** `parse_stmt` at the cursor `pos`: no statement when neither rule's
      lookahead matches; otherwise exactly the statement the five tokens at
      `pos` spell, or the error of the rule that was chosen. */
  function ParseStmt(ts: seq<Token>, pos: nat): (r: Result<StmtParse, ParseError>)
    ensures r == Ok(NoStmt) <==> !ExitAhead(ts, pos) && !HopeAhead(ts, pos)
    ensures r.Ok? && r.value.Parsed? ==>
      r.value.next == pos + 5 <= |ts| && Spells(r.value.stmt, ts[pos..pos + 5])
    ensures r.Err? <==> (ExitAhead(ts, pos) || HopeAhead(ts, pos)) && !StmtAt(ts, pos)
  {
    if ExitAhead(ts, pos) then
      ExitFailsIffNoStmt(ts, pos);
      ParseExit(ts, pos)
    else if HopeAhead(ts, pos) then
      HopeFailsIffNoStmt(ts, pos);
      ParseHope(ts, pos)
    else Ok(NoStmt)
  }

  /** The `while(peek().has_value())` loop of `parse_prog` from the cursor
      `pos`: statements are read until the tokens run out. */
  function ParseFrom(ts: seq<Token>, pos: nat): (r: Result<seq<Stmt>, ParseError>)
    requires pos <= |ts|
    ensures r.Ok? ==> SpellsAll(r.value, ts[pos..])
    decreases |ts| - pos
  {
    if pos == |ts| then Ok([])
    else
      match ParseStmt(ts, pos)
      case Err(e) => Err(e)
      case Ok(NoStmt) => Err(InvalidStatement)
      case Ok(Parsed(s, next)) =>
        match ParseFrom(ts, next)
        case Err(e) => Err(e)
        case Ok(rest) =>
          assert ts[pos..][..5] == ts[pos..next];
          assert ts[pos..][5..] == ts[next..];
          Ok([s] + rest)
  }

  /** `parse_prog`. */
  function ParseProgram(ts: seq<Token>): (r: Result<Program, ParseError>)
    ensures r.Ok? ==> SpellsAll(r.value.stmts, ts)
  {
    assert ts[0..] == ts;
    match ParseFrom(ts, 0)
    case Ok(stmts) => Ok(Program(stmts))
    case Err(e) => Err(e)
  }
}
