/** Properties of the generator: it refuses exactly the programs that break
    the scope rules, with the first such error; it gives the i-th declared
    variable the i-th stack slot; and the declaration order of `hope` as
    written gives a result different from the corrected one only for a
    program with a `hope` that reads the variable it declares. */
module GeneratorFacts {
  import opened Wrappers
  import opened Tokens
  import opened Parser
  import opened Generator
  import opened Semantics
  import opened Machine

  /** The error of a generator result, if any. */
  function ErrorOf<T>(r: Result<T, GenError>): Option<GenError> {
    match r
    case Ok(_) => None
    case Err(e) => Some(e)
  }

  // ---------------------------------------------------------------------
  // Errors: the generator checks exactly the scope rules
  // ---------------------------------------------------------------------

  /** An expression is refused exactly when it breaks the scope rules for
      the variables in the map, and with that error. */
  lemma GenExprErrors(e: Expr, st: GenState)
    ensures ErrorOf(GenExpr(e, st)) == ExprError(e, st.vars.Keys)
  {
  }

  /** The generator's statement loop stops on the first scope error of the
      statements, and on nothing else. */
  lemma {:induction false} GenStmtsErrors(stmts: seq<Stmt>, st: GenState)
    ensures ErrorOf(GenStmts(stmts, st, false)) == FirstError(stmts, st.vars.Keys)
    decreases |stmts|
  {
    if stmts != [] {
      var r := GenStmt(stmts[0], st, false);
      match stmts[0]
      case ExitStmt(e) =>
        GenExprErrors(e, st);
        if r.Ok? {
          GenStmtsErrors(stmts[1..], r.value);
        }
      case HopeStmt(id, e) =>
        GenExprErrors(e, st);
        if r.Ok? {
          assert r.value.vars.Keys == st.vars.Keys + {id.value.value};
          GenStmtsErrors(stmts[1..], r.value);
        }
    }
  }

  /** `gen_program` succeeds exactly on programs that obey the scope rules,
      and otherwise reports their first violation. */
  lemma GenProgramErrors(p: Program)
    ensures ErrorOf(GenProgram(p)) == FirstError(p.stmts, {})
  {
    assert Start.vars.Keys == {};
    GenStmtsErrors(p.stmts, Start);
  }

  // ---------------------------------------------------------------------
  // Stack slots
  // ---------------------------------------------------------------------

  /** After the statement loop, each variable declared by the statements
      sits in the slot numbered by its declaration order, counted from the
      stack size before the loop; older variables keep their slots; and the
      stack has grown by one cell per `hope`. */
  lemma {:induction false} GenStmtsSlots(stmts: seq<Stmt>, st: GenState, asWritten: bool, st': GenState)
    requires GenStmts(stmts, st, asWritten) == Ok(st')
    ensures st'.stackSize == st.stackSize + VarCount(stmts)
    ensures |DeclaredNames(stmts)| == VarCount(stmts)
    ensures forall i :: 0 <= i < |DeclaredNames(stmts)| ==>
      DeclaredNames(stmts)[i] in st'.vars && st'.vars[DeclaredNames(stmts)[i]] == st.stackSize + i
    ensures forall x :: x in st.vars ==> x in st'.vars && st'.vars[x] == st.vars[x]
    ensures st'.vars.Keys == st.vars.Keys + set x | x in DeclaredNames(stmts)
    decreases |stmts|
  {
    if stmts != [] {
      var st1 := GenStmt(stmts[0], st, asWritten).value;
      GenStmtsSlots(stmts[1..], st1, asWritten, st');
      var names := DeclaredNames(stmts);
      var rest := DeclaredNames(stmts[1..]);
      match stmts[0]
      case ExitStmt(_) =>
        assert names == rest;
      case HopeStmt(id, _) =>
        var name := id.value.value;
        assert names == [name] + rest;
        HopeSlots(name, rest, st, st1, st');
    }
  }

  /** The slot step for a `hope` that declared `name` and moved from `st` to
      `st1`, followed by statements declaring `rest` that ended in `st'`. */
  lemma HopeSlots(name: string, rest: seq<string>, st: GenState, st1: GenState, st': GenState)
    requires name !in st.vars && st1.vars == st.vars[name := st.stackSize]
    requires st1.stackSize == st.stackSize + 1
    requires forall i :: 0 <= i < |rest| ==> rest[i] in st'.vars && st'.vars[rest[i]] == st1.stackSize + i
    requires forall x :: x in st1.vars ==> x in st'.vars && st'.vars[x] == st1.vars[x]
    requires st'.vars.Keys == st1.vars.Keys + set x | x in rest
    ensures forall i :: 0 <= i < |[name] + rest| ==>
      ([name] + rest)[i] in st'.vars && st'.vars[([name] + rest)[i]] == st.stackSize + i
    ensures forall x :: x in st.vars ==> x in st'.vars && st'.vars[x] == st.vars[x]
    ensures st'.vars.Keys == st.vars.Keys + set x | x in [name] + rest
  {
    var names := [name] + rest;
    assert (set x | x in names) == {name} + set x | x in rest;
    forall i | 0 <= i < |names|
      ensures names[i] in st'.vars && st'.vars[names[i]] == st.stackSize + i
    {
      if i > 0 {
        assert names[i] == rest[i - 1];
      }
    }
  }

  /** After `gen_program`'s statement loop, in either declaration order of
      `hope`, the stack holds one cell per variable, which is also the count
      its unused first pass computes, and the i-th declared variable is in
      slot i. */
  lemma ProgramSlots(p: Program, asWritten: bool, st: GenState)
    requires GenStmts(p.stmts, Start, asWritten) == Ok(st)
    ensures st.stackSize == VarCount(p.stmts) == |DeclaredNames(p.stmts)|
    ensures st.vars.Keys == set x | x in DeclaredNames(p.stmts)
    ensures forall i :: 0 <= i < |DeclaredNames(p.stmts)| ==> st.vars[DeclaredNames(p.stmts)[i]] == i
  {
    GenStmtsSlots(p.stmts, Start, asWritten, st);
  }

  // ---------------------------------------------------------------------
  // The declaration order of `hope`
  // ---------------------------------------------------------------------

  /** `hope x = x;`: a declaration whose initializer is the variable it
      declares. */
  predicate SelfRead(s: Stmt) {
    s.HopeStmt? && s.expr.IdentExpr? && s.expr.ident.value == s.ident.value
  }

  /** Declaring a name that the expression does not read changes nothing in
      the expression's code, nor in its error. */
  lemma GenExprIgnoresOtherName(e: Expr, st: GenState, name: string, slot: nat)
    requires !(e.IdentExpr? && e.ident.value == Some(name))
    ensures GenExpr(e, st.(vars := st.vars[name := slot])) ==
      match GenExpr(e, st)
      case Ok(st1) => Ok(st1.(vars := st.vars[name := slot]))
      case Err(err) => Err(err)
  {
  }

  /** The two declaration orders treat every statement but a self-reading
      `hope` alike. */
  lemma GenStmtAgrees(s: Stmt, st: GenState)
    requires !SelfRead(s)
    ensures GenStmt(s, st, true) == GenStmt(s, st, false)
  {
    if s.HopeStmt? && s.ident.value.Some? && s.ident.value.value !in st.vars {
      GenExprIgnoresOtherName(s.expr, st, s.ident.value.value, st.stackSize);
    }
  }

  /** The generator as written and the corrected one give the same result,
      code or error, unless some `hope` reads the variable it declares. */
  lemma {:induction false} AgreeWithoutSelfRead(stmts: seq<Stmt>, st: GenState)
    ensures GenStmts(stmts, st, true) != GenStmts(stmts, st, false) ==>
      exists k :: 0 <= k < |stmts| && SelfRead(stmts[k])
    decreases |stmts|
  {
    if stmts != [] && !SelfRead(stmts[0]) {
      GenStmtAgrees(stmts[0], st);
      var r := GenStmt(stmts[0], st, false);
      if r.Ok? {
        AgreeWithoutSelfRead(stmts[1..], r.value);
        if GenStmts(stmts[1..], r.value, true) != GenStmts(stmts[1..], r.value, false) {
          var k :| 0 <= k < |stmts[1..]| && SelfRead(stmts[1..][k]);
          assert SelfRead(stmts[k + 1]);
        }
      }
    }
  }

  /** The same holds for whole programs. */
  lemma AgreeWithoutSelfReadOnProgram(p: Program)
    ensures GenProgramAsWritten(p) != GenProgram(p) ==>
      exists k :: 0 <= k < |p.stmts| && SelfRead(p.stmts[k])
  {
    AgreeWithoutSelfRead(p.stmts, Start);
  }

  /** Wherever the corrected generator accepts the statements, the generator
      as written accepts them too and emits the same code. */
  lemma {:induction false} AsWrittenAgrees(stmts: seq<Stmt>, st: GenState)
    requires GenStmts(stmts, st, false).Ok?
    ensures GenStmts(stmts, st, true) == GenStmts(stmts, st, false)
    decreases |stmts|
  {
    if stmts != [] {
      if stmts[0].HopeStmt? {
        GenExprIgnoresOtherName(stmts[0].expr, st, stmts[0].ident.value.value, st.stackSize);
      }
      var st1 := GenStmt(stmts[0], st, false).value;
      assert GenStmt(stmts[0], st, true) == Ok(st1);
      AsWrittenAgrees(stmts[1..], st1);
    }
  }

  /** The same holds for whole programs. */
  lemma AsWrittenAgreesOnProgram(p: Program)
    requires GenProgram(p).Ok?
    ensures GenProgramAsWritten(p) == GenProgram(p)
  {
    AsWrittenAgrees(p.stmts, Start);
  }

  /** `hope x = x;`: as written, `x` is read from slot 0 while nothing has
      been pushed, and the `size_t` offset `(0 - 0 - 1) * 8` wraps to
      2^64 - 8.  With 64-bit address arithmetic `[rsp + 2^64 - 8]` is
      `[rsp - 8]`, the cell just below the top of the stack, which the
      program never pushed; the reference machine has no address wrap and
      is stuck on that read.  The corrected generator refuses the program
      because `x` is not yet declared when its initializer is generated. */
  lemma SelfReference(m: MState)
    requires |m.stack| < Size64 / 8 - 1
    ensures
      var x := Token(Ident, Some("x"));
      var p := Program([HopeStmt(x, IdentExpr(x))]);
      && GenProgram(p) == Err(UndeclaredVariable("x"))
      && GenProgramAsWritten(p) == Ok([GlobalStart, StartLabel, Push(StackSlot(Size64 - 8))] + ExitZero)
      && Run(GenProgramAsWritten(p).value, m) == Stuck
  {
    var x := Token(Ident, Some("x"));
    var s := HopeStmt(x, IdentExpr(x));
    var p := Program([s]);
    assert SlotOffset(0, 0) == Size64 - 8;
    var st1 := GenState(map["x" := 0], 1, [GlobalStart, StartLabel, Push(StackSlot(Size64 - 8))]);
    var declared := Start.(vars := Start.vars["x" := 0]);
    assert declared.vars == map["x" := 0] && declared.vars["x"] == 0;
    assert Start.code + [Push(StackSlot(Size64 - 8))] == st1.code;
    assert PushLine(declared, StackSlot(Size64 - 8)) == st1;
    assert GenExpr(IdentExpr(x), declared) == Ok(st1);
    assert GenStmt(s, Start, true) == Ok(st1);
    assert GenStmts([s][1..], st1, true) == Ok(st1);
    assert GenStmts(p.stmts, Start, true) == Ok(st1);
    assert GenStmt(s, Start, false) == Err(UndeclaredVariable("x"));
    var code := [GlobalStart, StartLabel, Push(StackSlot(Size64 - 8))] + ExitZero;
    assert !ReadsCell(m, Size64 - 8);
    assert Run(code[2..], m) == Stuck;
    assert Run(code[1..], m) == Stuck;
  }
}
