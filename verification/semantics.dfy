/** What a program of the language means, independently of the code the
    generator emits for it: the scope rules a program must obey (each name
    declared once, before it is read) and the exit status it ends with. */
module Semantics {
  import opened Wrappers
  import opened Tokens
  import opened Tokenizer
  import opened Parser
  import opened Numerals
  import opened Generator

  // ---------------------------------------------------------------------
  // Scope rules
  // ---------------------------------------------------------------------

  /** The first scope error of an expression, given the declared names. */
  function ExprError(e: Expr, declared: set<string>): Option<GenError> {
    match ExprToken(e).value
    case None => Some(MissingValue)
    case Some(name) =>
      if e.IdentExpr? && name !in declared then Some(UndeclaredVariable(name)) else None
  }

  /** The first scope error of a statement list, in program order: a `hope`
      must name a fresh variable, and its initializer sees only the names
      declared before it. */
  function FirstError(stmts: seq<Stmt>, declared: set<string>): Option<GenError>
    decreases |stmts|
  {
    if stmts == [] then None
    else
      match stmts[0]
      case ExitStmt(e) =>
        if ExprError(e, declared).Some? then ExprError(e, declared)
        else FirstError(stmts[1..], declared)
      case HopeStmt(id, e) =>
        match id.value
        case None => Some(MissingValue)
        case Some(name) =>
          if name in declared then Some(AlreadyDeclared(name))
          else if ExprError(e, declared).Some? then ExprError(e, declared)
          else FirstError(stmts[1..], declared + {name})
  }

  /** The names the `hope` statements declare, in order. */
  function DeclaredNames(stmts: seq<Stmt>): seq<string>
    decreases |stmts|
  {
    if stmts == [] then []
    else
      match stmts[0]
      case HopeStmt(Token(_, Some(name)), _) => [name] + DeclaredNames(stmts[1..])
      case _ => DeclaredNames(stmts[1..])
  }

  /** Every integer literal's text is a decimal numeral, as it is for every
      literal the scanner produces. */
  predicate LiteralsAreNumerals(stmts: seq<Stmt>) {
    forall k :: 0 <= k < |stmts| && stmts[k].expr.IntLitExpr? ==>
      stmts[k].expr.intLit.value.Some? && IsNumeral(stmts[k].expr.intLit.value.value)
  }

  /** The first statement's literal, and those of the rest. */
  lemma LiteralsSplit(stmts: seq<Stmt>)
    requires stmts != [] && LiteralsAreNumerals(stmts)
    ensures stmts[0].expr.IntLitExpr? ==> IsNumeral(stmts[0].expr.intLit.value.value)
    ensures LiteralsAreNumerals(stmts[1..])
  {
    forall k | 0 <= k < |stmts[1..]| ensures stmts[1..][k] == stmts[k + 1] {}
  }

  // ---------------------------------------------------------------------
  // Meaning
  // ---------------------------------------------------------------------

  type Env = map<string, int>

  /** The value of an expression. */
  function Eval(e: Expr, env: Env): int
    requires ExprError(e, env.Keys).None?
    requires e.IntLitExpr? ==> IsNumeral(e.intLit.value.value)
  {
    match e
    case IntLitExpr(t) => NumeralValue(t.value.value)
    case IdentExpr(t) => env[t.value.value]
  }

  /** The exit status the operating system reports for `exit(v)`: the low
      eight bits of `v`. */
  function ExitStatus(v: int): (s: nat)
    ensures s < 256
  {
    v % 256
  }

  /** Where running some statements leads: on past them with the variables
      `env`, or out of the program with an exit status. */
  datatype SrcOutcome = Finished(env: Env) | ExitedWith(status: nat)

  /** Runs the statements in order from the variables `env`: `hope` binds a
      new variable to its initializer's value, `bye` ends the program. */
  function RunStmts(stmts: seq<Stmt>, env: Env): (r: SrcOutcome)
    requires FirstError(stmts, env.Keys).None? && LiteralsAreNumerals(stmts)
    ensures r.ExitedWith? ==> r.status < 256
    ensures r.Finished? ==> r.env.Keys == env.Keys + set x | x in DeclaredNames(stmts)
    decreases |stmts|
  {
    if stmts == [] then Finished(env)
    else
      LiteralsSplit(stmts);
      match stmts[0]
      case ExitStmt(e) => ExitedWith(ExitStatus(Eval(e, env)))
      case HopeStmt(id, e) =>
        var name := id.value.value;
        var env' := env[name := Eval(e, env)];
        assert env'.Keys == env.Keys + {name};
        RunStmts(stmts[1..], env')
  }

  /** The exit status of a whole program: that of its first `bye`, or 0 when
      it runs off its end. */
  function Meaning(stmts: seq<Stmt>): (status: nat)
    requires FirstError(stmts, {}).None? && LiteralsAreNumerals(stmts)
    ensures status < 256
  {
    var e: Env := map[];
    assert e.Keys == {};
    match RunStmts(stmts, e)
    case ExitedWith(s) => s
    case Finished(_) => 0
  }
}
