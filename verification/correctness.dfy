/** The generator is correct: the code it emits for a program, run on the
    reference machine from any starting stack, exits with the status the
    program means. */
module Correctness {
  import opened Wrappers
  import opened Tokens
  import opened Tokenizer
  import opened Parser
  import opened Numerals
  import opened Generator
  import opened Semantics
  import opened Machine
  import opened GeneratorFacts

  /** The machine state `m` matches the generator state `st` and the
      variables `env`: above the cells `base` that were on the stack before
      the program started, the stack holds exactly the cells the generator
      has counted, and each variable's slot holds its value. */
  predicate Holds(st: GenState, env: Env, base: seq<int>, m: MState) {
    && |m.stack| == |base| + st.stackSize
    && m.stack[..|base|] == base
    && st.vars.Keys == env.Keys
    && forall x :: x in st.vars ==> st.vars[x] < st.stackSize && m.stack[|base| + st.vars[x]] == env[x]
  }

  /** The code an operation appended to the generator's output. */
  function Added(before: GenState, after: GenState): seq<Line>
    requires |before.code| <= |after.code|
  {
    after.code[|before.code|..]
  }

  /** The code of two operations in a row is the first's code, then the
      second's. */
  lemma AddedSplit(a: GenState, b: GenState, c: GenState)
    requires |a.code| <= |b.code| <= |c.code|
    requires b.code[..|a.code|] == a.code && c.code[..|b.code|] == b.code
    ensures Added(a, c) == Added(a, b) + Added(b, c)
  {
    assert c.code[..|a.code|] == c.code[..|b.code|][..|a.code|];
  }

  /** An expression's code pushes the expression's value and touches no
      other cell. */
  lemma ExprCorrect(e: Expr, st: GenState, st1: GenState, env: Env, base: seq<int>, m: MState)
    requires Holds(st, env, base, m) && st.stackSize + 1 < Size64 / 8
    requires ExprError(e, env.Keys).None? && (e.IntLitExpr? ==> IsNumeral(e.intLit.value.value))
    requires GenExpr(e, st) == Ok(st1)
    ensures Run(Added(st, st1), m).Running?
    ensures Run(Added(st, st1), m).m.stack == m.stack + [Eval(e, env)]
  {
    match e
    case IntLitExpr(t) =>
      var text := t.value.value;
      assert Added(st, st1) == [MovImm(Rax, text), Push(FromReg(Rax))];
      var m1 := Set(m, Rax, NumeralValue(text));
      assert Run(Added(st, st1), m) == Run([Push(FromReg(Rax))], m1);
    case IdentExpr(t) =>
      var loc := st.vars[t.value.value];
      var off := SlotOffset(st.stackSize, loc);
      assert off == (st.stackSize - loc - 1) * 8;
      assert off / 8 == st.stackSize - loc - 1;
      assert Added(st, st1) == [Push(StackSlot(off))];
      assert |m.stack| - 1 - off / 8 == |base| + loc;
  }

  /** The immediate `60` (the number of the `exit` system call). */
  lemma Sixty()
    ensures IsNumeral("60") && NumeralValue("60") == 60
  {
    assert "60"[..1] == "6";
  }

  /** The code after a `bye` expression: `mov rax, 60`, the value popped
      into rdi, `syscall` end the program with the value's low eight bits. */
  lemma ExitTail(m: MState)
    requires m.stack != []
    ensures Run([MovImm(Rax, "60"), Pop(Rdi), Syscall], m) == Exited(ExitStatus(m.stack[|m.stack| - 1]))
  {
    var tail := [MovImm(Rax, "60"), Pop(Rdi), Syscall];
    Sixty();
    var m2 := Set(m, Rax, 60);
    assert Exec(tail[0], m) == Running(m2);
    var m3 := Set(m2.(stack := m.stack[..|m.stack| - 1]), Rdi, m.stack[|m.stack| - 1]);
    assert Exec(tail[1], m2) == Running(m3);
    assert Run(tail[2..], m3) == Exited(ExitStatus(m.stack[|m.stack| - 1]));
    assert tail[1..][1..] == tail[2..];
  }

  /** `bye ( e ) ;` ends the program with the low eight bits of `e`'s
      value. */
  lemma ExitCorrect(e: Expr, st: GenState, st': GenState, env: Env, base: seq<int>, m: MState)
    requires Holds(st, env, base, m) && st.stackSize + 1 < Size64 / 8
    requires ExprError(e, env.Keys).None? && (e.IntLitExpr? ==> IsNumeral(e.intLit.value.value))
    requires GenExit(e, st) == Ok(st')
    ensures Run(Added(st, st'), m) == Exited(ExitStatus(Eval(e, env)))
  {
    var st1 := GenExpr(e, st).value;
    ExprCorrect(e, st, st1, env, base, m);
    var m1 := Run(Added(st, st1), m).m;
    var tail := [MovImm(Rax, "60"), Pop(Rdi), Syscall];
    assert st'.code == st1.code + tail;
    assert Added(st, st') == Added(st, st1) + tail;
    RunThen(Added(st, st1), tail, m, m1);
    ExitTail(m1);
  }

  /** `hope x = e ;` pushes `e`'s value into the new slot of `x`. */
  lemma HopeCorrect(id: Token, e: Expr, st: GenState, st': GenState, env: Env, base: seq<int>, m: MState)
    requires Holds(st, env, base, m) && st.stackSize + 1 < Size64 / 8
    requires ExprError(e, env.Keys).None? && (e.IntLitExpr? ==> IsNumeral(e.intLit.value.value))
    requires GenHope(id, e, st) == Ok(st')
    ensures Run(Added(st, st'), m).Running?
    ensures Holds(st', env[id.value.value := Eval(e, env)], base, Run(Added(st, st'), m).m)
  {
    var name := id.value.value;
    var v := Eval(e, env);
    var st1 := GenExpr(e, st).value;
    ExprCorrect(e, st, st1, env, base, m);
    assert Added(st, st') == Added(st, st1);
    var m1 := Run(Added(st, st'), m).m;
    assert m1.stack[..|base|] == m.stack[..|base|];
    forall x | x in st'.vars
      ensures st'.vars[x] < st'.stackSize && m1.stack[|base| + st'.vars[x]] == env[name := v][x]
    {
      if x != name {
        assert m1.stack[|base| + st.vars[x]] == m.stack[|base| + st.vars[x]];
      }
    }
  }

  /** A program whose first statement is a `bye` ends with that statement,
      in the source and in the code. */
  lemma ExitFirst(stmts: seq<Stmt>, st: GenState, st': GenState, env: Env, base: seq<int>, m: MState)
    requires stmts != [] && stmts[0].ExitStmt?
    requires Holds(st, env, base, m) && st.stackSize + 1 < Size64 / 8
    requires FirstError(stmts, env.Keys).None? && LiteralsAreNumerals(stmts)
    requires GenStmts(stmts, st, false) == Ok(st')
    ensures RunStmts(stmts, env).ExitedWith?
    ensures Run(Added(st, st'), m) == Exited(RunStmts(stmts, env).status)
  {
    var st1 := GenStmt(stmts[0], st, false).value;
    assert GenStmts(stmts[1..], st1, false) == Ok(st');
    AddedSplit(st, st1, st');
    LiteralsSplit(stmts);
    ExitCorrect(stmts[0].expr, st, st1, env, base, m);
    RunStopped(Added(st, st1), Added(st1, st'), m);
  }

  /** A program whose first statement is a `hope` goes on, in the source and
      in the code, to the rest of the statements with the new variable
      bound. */
  lemma HopeFirst(stmts: seq<Stmt>, st: GenState, st': GenState, env: Env, base: seq<int>, m: MState)
    returns (st1: GenState, env1: Env, m1: MState)
    requires stmts != [] && stmts[0].HopeStmt?
    requires Holds(st, env, base, m) && st.stackSize + |stmts| + 1 < Size64 / 8
    requires FirstError(stmts, env.Keys).None? && LiteralsAreNumerals(stmts)
    requires GenStmts(stmts, st, false) == Ok(st')
    ensures Holds(st1, env1, base, m1) && st1.stackSize + |stmts[1..]| + 1 < Size64 / 8
    ensures FirstError(stmts[1..], env1.Keys).None? && LiteralsAreNumerals(stmts[1..])
    ensures GenStmts(stmts[1..], st1, false) == Ok(st')
    ensures RunStmts(stmts, env) == RunStmts(stmts[1..], env1)
    ensures Run(Added(st, st'), m) == Run(Added(st1, st'), m1)
  {
    var id, e := stmts[0].ident, stmts[0].expr;
    st1 := GenStmt(stmts[0], st, false).value;
    assert GenStmts(stmts[1..], st1, false) == Ok(st');
    AddedSplit(st, st1, st');
    LiteralsSplit(stmts);
    HopeCorrect(id, e, st, st1, env, base, m);
    m1 := Run(Added(st, st1), m).m;
    env1 := env[id.value.value := Eval(e, env)];
    assert env1.Keys == env.Keys + {id.value.value};
    RunThen(Added(st, st1), Added(st1, st'), m, m1);
  }

  /** One generated statement after another: the code runs past the
      statements with the machine matching the variables the source run ends
      with, or ends the program with the source's exit status. */
  lemma {:induction false} StmtsCorrect(stmts: seq<Stmt>, st: GenState, st': GenState, env: Env,
                                        base: seq<int>, m: MState)
    requires Holds(st, env, base, m) && st.stackSize + |stmts| + 1 < Size64 / 8
    requires FirstError(stmts, env.Keys).None? && LiteralsAreNumerals(stmts)
    requires GenStmts(stmts, st, false) == Ok(st')
    ensures RunStmts(stmts, env).ExitedWith? ==>
      Run(Added(st, st'), m) == Exited(RunStmts(stmts, env).status)
    ensures RunStmts(stmts, env).Finished? ==>
      Run(Added(st, st'), m).Running? && Holds(st', RunStmts(stmts, env).env, base, Run(Added(st, st'), m).m)
    decreases |stmts|
  {
    if stmts == [] {
      assert Added(st, st') == [];
    } else if stmts[0].ExitStmt? {
      ExitFirst(stmts, st, st', env, base, m);
    } else {
      var st1, env1, m1 := HopeFirst(stmts, st, st', env, base, m);
      StmtsCorrect(stmts[1..], st1, st', env1, base, m1);
    }
  }

  /** The closing `exit(0)` ends any running program with status 0. */
  lemma ExitZeroExits(m: MState)
    ensures Run(ExitZero, m) == Exited(0)
  {
    Sixty();
    assert NumeralValue("0") == 0;
    var m2 := Set(m, Rax, 60);
    assert Run(ExitZero, m) == Run(ExitZero[1..], m2);
    var m3 := Set(m2, Rdi, 0);
    assert Run(ExitZero[1..], m2) == Run(ExitZero[2..], m3);
  }

  /** A whole program's code: the header does nothing, then the statements
      run, then `exit(0)` ends the program if they did not. */
  lemma ProgramRun(body: seq<Line>, m: MState)
    ensures Run(Start.code + (body + ExitZero), m)
         == (if Run(body, m).Running? then Exited(0) else Run(body, m))
  {
    assert Run(Start.code, m) == Running(m);
    RunThen(Start.code, body + ExitZero, m, m);
    RunAppend(body, ExitZero, m);
    if Run(body, m).Running? {
      ExitZeroExits(Run(body, m).m);
    }
  }

  /** The statements of a program, from the empty map and the machine's
      starting stack. */
  lemma BodyCorrect(p: Program, st': GenState, m: MState)
    requires GenStmts(p.stmts, Start, false) == Ok(st')
    requires FirstError(p.stmts, {}).None? && LiteralsAreNumerals(p.stmts)
    requires |p.stmts| + 1 < Size64 / 8
    ensures !Run(Added(Start, st'), m).Running? ==> Run(Added(Start, st'), m) == Exited(Meaning(p.stmts))
    ensures Run(Added(Start, st'), m).Running? ==> Meaning(p.stmts) == 0
  {
    var env: Env := map[];
    assert env.Keys == {};
    assert Holds(Start, env, m.stack, m);
    StmtsCorrect(p.stmts, Start, st', env, m.stack, m);
  }

  /** The generator is correct: when `gen_program` accepts a program whose
      literals are numerals (as the scanner's always are), the program obeys
      the scope rules, and its code, run from any machine state, exits with
      the status the program means. */
  lemma GenProgramCorrect(p: Program, code: seq<Line>, m: MState)
    requires GenProgram(p) == Ok(code) && LiteralsAreNumerals(p.stmts)
    requires |p.stmts| + 1 < Size64 / 8
    ensures FirstError(p.stmts, {}).None?
    ensures Run(code, m) == Exited(Meaning(p.stmts))
  {
    GenProgramErrors(p);
    var st' := GenStmts(p.stmts, Start, false).value;
    BodyCorrect(p, st', m);
    assert st'.code == Start.code + Added(Start, st');
    assert code == Start.code + (Added(Start, st') + ExitZero);
    ProgramRun(Added(Start, st'), m);
  }

  /** The generator as written is correct on every program in which no
      `hope` reads the variable it declares: there it emits what the
      corrected generator emits. */
  lemma GenProgramAsWrittenCorrect(p: Program, code: seq<Line>, m: MState)
    requires GenProgramAsWritten(p) == Ok(code) && LiteralsAreNumerals(p.stmts)
    requires forall k :: 0 <= k < |p.stmts| ==> !SelfRead(p.stmts[k])
    requires |p.stmts| + 1 < Size64 / 8
    ensures FirstError(p.stmts, {}).None?
    ensures Run(code, m) == Exited(Meaning(p.stmts))
  {
    AgreeWithoutSelfReadOnProgram(p);
    GenProgramCorrect(p, code, m);
  }
}
