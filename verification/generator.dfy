/** The code generator of `src/generation.hpp`: it walks the statements once,
    keeps a map from variable names to stack slots and a count of the 8-byte
    cells it has pushed, and emits x86-64 assembly for a program that keeps
    every variable on the stack and leaves through the `exit` system call.

    An emitted line is a `Line` value; `AsmText` spells the lines as the
    generator's stream does.  The map, the count and the emitted lines form a
    `GenState`, threaded through the functions below in place of the C++
    object's fields. */
module Generator {
  import opened Wrappers
  import opened Tokens
  import opened Parser
  import opened Tokenizer
  import opened Numerals

  // ---------------------------------------------------------------------
  // Assembly
  // ---------------------------------------------------------------------

  datatype Reg = Rax | Rdi

  /** The operand of a `push`: a register, or the stack cell `offset` bytes
      above the stack pointer (`QWORD [rsp + offset]`). */
  datatype Source = FromReg(reg: Reg) | StackSlot(offset: nat)

  datatype Line =
    | GlobalStart                      // global _start
    | StartLabel                       // _start:
    | MovImm(dst: Reg, imm: string)    // mov dst, imm
    | Push(src: Source)                // push src
    | Pop(dst: Reg)                    // pop dst
    | Syscall                          // syscall

  function RegName(r: Reg): string {
    match r
    case Rax => "rax"
    case Rdi => "rdi"
  }

  /** The text of one line.  The stack-slot operand is built in a stream of
      its own that already ends in a newline, so that `push` line is
      followed by an empty line. */
  function LineText(l: Line): (r: string)
    ensures |r| > 4 && r[|r| - 1] == '\n'
    ensures l.GlobalStart? || l.StartLabel? <==> r[0] != ' '
    ensures !l.GlobalStart? && !l.StartLabel? ==> r[..4] == "    "
  {
    match l
    case GlobalStart => "global _start\n"
    case StartLabel => "_start:\n"
    case MovImm(r, imm) => "    mov " + RegName(r) + ", " + imm + "\n"
    case Push(FromReg(r)) => "    push " + RegName(r) + "\n"
    case Push(StackSlot(off)) => "    push QWORD [rsp + " + Decimal(off) + "]\n" + "\n"
    case Pop(r) => "    pop " + RegName(r) + "\n"
    case Syscall => "    syscall\n"
  }

  /** The text of a stack-slot `push` names its offset as a numeral the
      assembler reads back as that offset: of all numerals without a leading
      zero, exactly the one whose value is the offset makes up the line. */
  lemma SlotOperandText(off: nat, d: string)
    requires IsNumeral(d) && (|d| > 1 ==> d[0] != '0')
    ensures LineText(Push(StackSlot(off))) == "    push QWORD [rsp + " + d + "]\n\n" <==> NumeralValue(d) == off
  {
    var pre, post := "    push QWORD [rsp + ", "]\n\n";
    var line := LineText(Push(StackSlot(off)));
    assert line == pre + Decimal(off) + post;
    if line == pre + d + post {
      assert |d| == |Decimal(off)|;
      assert d == line[|pre|..|pre| + |d|] == Decimal(off);
      DecimalRoundTrip(off);
    }
    if NumeralValue(d) == off {
      NumeralRoundTrip(d);
    }
  }

  /** A non-empty text whose last character is a newline. */
  predicate EndsLine(t: string) {
    |t| > 0 && t[|t| - 1] == '\n'
  }

  /** Strings written one after the other. */
  function Concat(ss: seq<string>): (r: string)
    ensures (forall k :: 0 <= k < |ss| ==> EndsLine(ss[k])) ==>
      |r| >= |ss| && (ss != [] ==> r[|r| - 1] == '\n')
    decreases |ss|
  {
    if ss == [] then "" else Concat(ss[..|ss| - 1]) + ss[|ss| - 1]
  }

  /** Writing two runs of strings one after the other writes their
      concatenations one after the other. */
  lemma {:induction false} ConcatAppend(a: seq<string>, b: seq<string>)
    ensures Concat(a + b) == Concat(a) + Concat(b)
    decreases |b|
  {
    if b == [] {
      assert a + b == a;
    } else {
      var b' := b[..|b| - 1];
      assert (a + b)[..|a + b| - 1] == a + b';
      ConcatAppend(a, b');
    }
  }

  /** The contents of `asm_code` after the lines were written in order. */
  function AsmText(lines: seq<Line>): (r: string)
    ensures |r| >= |lines|
    ensures lines != [] ==> r[|r| - 1] == '\n'
  {
    var ts := seq(|lines|, k requires 0 <= k < |lines| => LineText(lines[k]));
    assert forall k :: 0 <= k < |ts| ==> EndsLine(ts[k]);
    Concat(ts)
  }

  /** The text of a run of lines written after another is the second run's
      text appended to the first's. */
  lemma AsmTextAppend(a: seq<Line>, b: seq<Line>)
    ensures AsmText(a + b) == AsmText(a) + AsmText(b)
  {
    var ta := seq(|a|, k requires 0 <= k < |a| => LineText(a[k]));
    var tb := seq(|b|, k requires 0 <= k < |b| => LineText(b[k]));
    assert seq(|a + b|, k requires 0 <= k < |a + b| => LineText((a + b)[k])) == ta + tb;
    ConcatAppend(ta, tb);
  }

  /** The text `gen_program` writes before the statements. */
  const HeaderText := "global _start\n_start:\n"

  /** The text `gen_program` writes after the statements. */
  const FooterText := "    mov rax, 60\n    mov rdi, 0\n    syscall\n"

  // ---------------------------------------------------------------------
  // Generator state
  // ---------------------------------------------------------------------

  /** `m_vars` (name to `stack_loc`), `m_stack_size` and the lines written to
      `asm_code` so far. */
  datatype GenState = GenState(vars: map<string, nat>, stackSize: nat, code: seq<Line>)

  /** Why generation stops.  `MissingValue` is reading the text of an
      identifier or literal token that carries none (`value.value()` on an
      empty optional). */
  datatype GenError =
    | UndeclaredVariable(name: string)   // "Undeclared variable: "
    | AlreadyDeclared(name: string)      // "Variable already declared: "
    | MissingValue

  /** `size_t` holds values modulo 2^64. */
  const Size64: nat := 0x1_0000_0000_0000_0000

  function Wrap64(x: int): (r: nat)
    ensures r < Size64
    ensures 0 <= x < Size64 ==> r == x
    ensures x < 0 && 0 <= x + Size64 ==> r == x + Size64
  {
    x % Size64
  }

  /** The state after `gen_program` has written its two header lines: no
      variables, nothing pushed. */
  const Start := GenState(map[], 0, [GlobalStart, StartLabel])

  /** Writes one line without touching the stack count. */
  function Emit(st: GenState, l: Line): (r: GenState)
    ensures r.vars == st.vars && r.stackSize == st.stackSize && r.code == st.code + [l]
  {
    st.(code := st.code + [l])
  }

  /** `push`: the line, and one more cell on the stack. */
  function PushLine(st: GenState, src: Source): (r: GenState)
    ensures r.vars == st.vars && r.stackSize == st.stackSize + 1
    ensures r.code == st.code + [Push(src)]
  {
    st.(code := st.code + [Push(src)], stackSize := st.stackSize + 1)
  }

  /** `pop`: the line, and one cell fewer.  The generator pops only right
      after an expression has pushed its value. */
  function PopLine(st: GenState, r: Reg): (r': GenState)
    requires st.stackSize > 0
    ensures r'.vars == st.vars && r'.stackSize + 1 == st.stackSize
    ensures r'.code == st.code + [Pop(r)]
  {
    st.(code := st.code + [Pop(r)], stackSize := st.stackSize - 1)
  }

  /** The text of an identifier or literal token. */
  function TokenText(t: Token): (r: Result<string, GenError>)
    ensures r.Ok? <==> t.value.Some?
    ensures r.Ok? ==> r.value == t.value.value
    ensures r.Err? ==> r.error == MissingValue
  {
    match t.value
    case Some(s) => Ok(s)
    case None => Err(MissingValue)
  }

  /** The byte offset from the stack pointer to the slot `loc` when
      `stackSize` cells are on the stack, computed in `size_t` as
      `(m_stack_size - stack_loc - 1) * 8`. */
  function SlotOffset(stackSize: nat, loc: nat): (off: nat)
    ensures loc < stackSize && stackSize < Size64 / 8 ==> off == (stackSize - loc - 1) * 8
  {
    Wrap64(Wrap64(stackSize - loc - 1) * 8)
  }

  // ---------------------------------------------------------------------
  // Expressions and statements
  // ---------------------------------------------------------------------

  /** `gen_expr`: a literal is loaded into `rax` and pushed; a variable's
      slot is pushed again.  Either way one cell more is on the stack and the
      variables are unchanged. */
  function GenExpr(e: Expr, st: GenState): (r: Result<GenState, GenError>)
    ensures r.Ok? ==> r.value.vars == st.vars && r.value.stackSize == st.stackSize + 1
    ensures r.Ok? ==> |r.value.code| > |st.code| && r.value.code[..|st.code|] == st.code
    ensures r.Err? <==>
      ExprToken(e).value.None? || (e.IdentExpr? && ExprToken(e).value.value !in st.vars)
  {
    match e
    case IntLitExpr(t) =>
      var text :- TokenText(t);
      Ok(PushLine(Emit(st, MovImm(Rax, text)), FromReg(Rax)))
    case IdentExpr(t) =>
      var name :- TokenText(t);
      if name !in st.vars then Err(UndeclaredVariable(name))
      else Ok(PushLine(st, StackSlot(SlotOffset(st.stackSize, st.vars[name]))))
  }

  /** `bye ( e ) ;`: the value of `e` is pushed, then popped into `rdi`
      for the `exit` system call (number 60).  The stack count is what it
      was before. */
  function GenExit(e: Expr, st: GenState): (r: Result<GenState, GenError>)
    ensures r.Ok? ==> r.value.vars == st.vars && r.value.stackSize == st.stackSize
    ensures r.Ok? ==> |r.value.code| > |st.code| && r.value.code[..|st.code|] == st.code
    ensures r.Err? <==> GenExpr(e, st).Err?
  {
    var st1 :- GenExpr(e, st);
    Ok(Emit(PopLine(Emit(st1, MovImm(Rax, "60")), Rdi), Syscall))
  }

  /** `hope x = e ;`: a name declared before is refused; otherwise the value
      of `e` is pushed and the new cell becomes `x`'s slot.  The initializer
      is evaluated before `x` is declared, so a mention of `x` in it is an
      undeclared variable. */
  function GenHope(id: Token, e: Expr, st: GenState): (r: Result<GenState, GenError>)
    ensures r.Ok? ==> id.value.Some? && id.value.value !in st.vars
    ensures r.Ok? ==> r.value.vars == st.vars[id.value.value := st.stackSize]
    ensures r.Ok? ==> r.value.stackSize == st.stackSize + 1
    ensures r.Ok? ==> |r.value.code| > |st.code| && r.value.code[..|st.code|] == st.code
  {
    var name :- TokenText(id);
    if name in st.vars then Err(AlreadyDeclared(name))
    else
      var st1 :- GenExpr(e, st);
      Ok(st1.(vars := st1.vars[name := st.stackSize]))
  }

  /** `hope x = e ;` as `generation.hpp` writes it: `x` is entered into the
      map with the current stack count BEFORE `e` is generated, so `e` can
      read `x`'s slot although nothing has been pushed there. */
  function GenHopeAsWritten(id: Token, e: Expr, st: GenState): (r: Result<GenState, GenError>)
    ensures r.Ok? ==> id.value.Some? && id.value.value !in st.vars
    ensures r.Ok? ==> r.value.vars == st.vars[id.value.value := st.stackSize]
    ensures r.Ok? ==> r.value.stackSize == st.stackSize + 1
    ensures r.Ok? ==> |r.value.code| > |st.code| && r.value.code[..|st.code|] == st.code
  {
    var name :- TokenText(id);
    if name in st.vars then Err(AlreadyDeclared(name))
    else GenExpr(e, st.(vars := st.vars[name := st.stackSize]))
  }

  /** `gen_stmt`; `asWritten` selects the declaration order of `hope`. */
  function GenStmt(s: Stmt, st: GenState, asWritten: bool): (r: Result<GenState, GenError>)
    ensures r.Ok? ==> |r.value.code| > |st.code| && r.value.code[..|st.code|] == st.code
    ensures r.Ok? && s.ExitStmt? ==> r.value.vars == st.vars && r.value.stackSize == st.stackSize
    ensures r.Ok? && s.HopeStmt? ==>
      && s.ident.value.Some? && s.ident.value.value !in st.vars
      && r.value.vars == st.vars[s.ident.value.value := st.stackSize]
      && r.value.stackSize == st.stackSize + 1
  {
    match s
    case ExitStmt(e) => GenExit(e, st)
    case HopeStmt(id, e) => if asWritten then GenHopeAsWritten(id, e, st) else GenHope(id, e, st)
  }

  /** The statement loop of `gen_program`. */
  function GenStmts(stmts: seq<Stmt>, st: GenState, asWritten: bool): (r: Result<GenState, GenError>)
    ensures r.Ok? ==> |r.value.code| >= |st.code| && r.value.code[..|st.code|] == st.code
    ensures r.Ok? ==> st.vars.Keys <= r.value.vars.Keys && st.stackSize <= r.value.stackSize
    decreases |stmts|
  {
    if stmts == [] then Ok(st)
    else
      var st1 :- GenStmt(stmts[0], st, asWritten);
      var st2 :- GenStmts(stmts[1..], st1, asWritten);
      assert st2.code[..|st.code|] == st2.code[..|st1.code|][..|st.code|];
      Ok(st2)
  }

  /** The first pass of `gen_program`: the number of `hope` statements.  The
      count is computed and then never used. */
  function VarCount(stmts: seq<Stmt>): (r: nat)
    ensures r <= |stmts|
    ensures r == 0 <==> forall k :: 0 <= k < |stmts| ==> !stmts[k].HopeStmt?
    decreases |stmts|
  {
    if stmts == [] then 0
    else (if stmts[0].HopeStmt? then 1 else 0) + VarCount(stmts[1..])
  }

  /** The three lines that end every program: `exit(0)`. */
  const ExitZero := [MovImm(Rax, "60"), MovImm(Rdi, "0"), Syscall]

  /** `gen_program`, with `asWritten` selecting the declaration order of
      `hope`: the header, the statements' code, then `exit(0)`. */
  function GenLines(p: Program, asWritten: bool): (r: Result<seq<Line>, GenError>)
    ensures r.Ok? ==> |r.value| >= 5 && r.value[..2] == [GlobalStart, StartLabel]
    ensures r.Ok? ==> r.value[|r.value| - 3..] == ExitZero
  {
    var st :- GenStmts(p.stmts, Start, asWritten);
    assert st.code[..2] == [GlobalStart, StartLabel];
    Ok(st.code + ExitZero)
  }

  /** `gen_program` with `hope` declaring after its initializer. */
  function GenProgram(p: Program): (r: Result<seq<Line>, GenError>)
    ensures r.Ok? ==> |r.value| >= 5 && r.value[..2] == [GlobalStart, StartLabel]
    ensures r.Ok? ==> r.value[|r.value| - 3..] == ExitZero
  {
    GenLines(p, false)
  }

  /** `gen_program` exactly as `generation.hpp` writes it. */
  function GenProgramAsWritten(p: Program): (r: Result<seq<Line>, GenError>)
    ensures r.Ok? ==> |r.value| >= 5 && r.value[..2] == [GlobalStart, StartLabel]
    ensures r.Ok? ==> r.value[|r.value| - 3..] == ExitZero
  {
    GenLines(p, true)
  }

  /** One line's run spells that line. */
  lemma AsmTextOne(l: Line)
    ensures AsmText([l]) == LineText(l)
  {
    var ts := [LineText(l)];
    assert seq(1, k requires 0 <= k < 1 => LineText([l][k])) == ts;
    assert ts[..0] == [];
    assert Concat(ts) == Concat(ts[..0]) + ts[0];
  }

  /** The two header lines spell `HeaderText`. */
  lemma HeaderLines()
    ensures AsmText([GlobalStart, StartLabel]) == HeaderText
  {
    assert [GlobalStart, StartLabel] == [GlobalStart] + [StartLabel];
    AsmTextAppend([GlobalStart], [StartLabel]);
    AsmTextOne(GlobalStart);
    AsmTextOne(StartLabel);
  }

  lemma ExitNumberText()
    ensures LineText(MovImm(Rax, "60")) == "    mov rax, 60\n"
  {
  }

  lemma ExitStatusText()
    ensures LineText(MovImm(Rdi, "0")) == "    mov rdi, 0\n"
  {
  }

  /** The texts of the three closing lines. */
  lemma FooterSpelling()
    ensures LineText(MovImm(Rax, "60")) + LineText(MovImm(Rdi, "0")) + LineText(Syscall) == FooterText
  {
    ExitNumberText();
    ExitStatusText();
  }

  /** The three closing lines spell `FooterText`. */
  lemma FooterLines()
    ensures AsmText(ExitZero) == FooterText
  {
    var a, b, c := MovImm(Rax, "60"), MovImm(Rdi, "0"), Syscall;
    assert ExitZero == [a, b] + [c];
    assert [a, b] == [a] + [b];
    AsmTextAppend([a, b], [c]);
    AsmTextAppend([a], [b]);
    AsmTextOne(a);
    AsmTextOne(b);
    AsmTextOne(c);
    FooterSpelling();
  }

  /** The text of lines that open with the header and close with `exit(0)`
      opens with `HeaderText` and closes with `FooterText`. */
  lemma AssemblyFrame(lines: seq<Line>)
    requires |lines| >= 5 && lines[..2] == [GlobalStart, StartLabel] && lines[|lines| - 3..] == ExitZero
    ensures |AsmText(lines)| >= |HeaderText| + |FooterText|
    ensures AsmText(lines)[..|HeaderText|] == HeaderText
    ensures AsmText(lines)[|AsmText(lines)| - |FooterText|..] == FooterText
  {
    var n := |lines|;
    var head, body := lines[..2], lines[2..n - 3];
    assert lines == head + body + ExitZero;
    AsmTextAppend(head, body);
    AsmTextAppend(head + body, ExitZero);
    HeaderLines();
    FooterLines();
    Framed(HeaderText, AsmText(body), FooterText);
  }

  /** The outer parts of a text built from three parts. */
  lemma Framed(a: string, b: string, c: string)
    ensures |a + b + c| >= |a| + |c|
    ensures (a + b + c)[..|a|] == a && (a + b + c)[|a + b + c| - |c|..] == c
  {
  }

  /** The string `gen_program` returns. */
  function Assembly(p: Program): (r: Result<string, GenError>)
    ensures r.Ok? <==> GenProgram(p).Ok?
    ensures r.Ok? ==> |r.value| >= |HeaderText| + |FooterText|
    ensures r.Ok? ==> r.value[..|HeaderText|] == HeaderText
    ensures r.Ok? ==> r.value[|r.value| - |FooterText|..] == FooterText
  {
    var lines :- GenProgram(p);
    AssemblyFrame(lines);
    Ok(AsmText(lines))
  }
}
