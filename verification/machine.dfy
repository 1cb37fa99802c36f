/** A reference machine for the emitted assembly: the two registers the
    generator uses, a stack of 64-bit cells, and the `exit` system call.  It
    gives the generator's output a meaning to be checked against the meaning
    of the source program. */
module Machine {
  import opened Tokenizer
  import opened Numerals
  import opened Generator

  /** Registers and the stack; the last element of `stack` is the cell at
      `rsp`. */
  datatype MState = MState(rax: int, rdi: int, stack: seq<int>)

  /** After a line: still running, ended by `exit` with a status, or stuck on
      an instruction whose effect the model leaves undefined (a pop from an
      empty stack, a read outside the cells on the stack, a system call other
      than `exit`, an immediate the assembler would not accept). */
  datatype Outcome = Running(m: MState) | Exited(status: nat) | Stuck

  function Get(m: MState, r: Reg): int {
    match r
    case Rax => m.rax
    case Rdi => m.rdi
  }

  function Set(m: MState, r: Reg, v: int): (m': MState)
    ensures Get(m', r) == v && m'.stack == m.stack
  {
    match r
    case Rax => m.(rax := v)
    case Rdi => m.(rdi := v)
  }

  /** The cell `offset` bytes above the stack pointer, when it is a cell on
      the stack. */
  predicate ReadsCell(m: MState, offset: nat) {
    offset % 8 == 0 && offset / 8 < |m.stack|
  }

  /** One instruction. */
  function Exec(l: Line, m: MState): (o: Outcome)
    ensures o.Exited? <==> l == Syscall && m.rax == 60
    ensures o.Exited? ==> o.status == m.rdi % 256
  {
    match l
    case GlobalStart => Running(m)
    case StartLabel => Running(m)
    case MovImm(r, imm) =>
      if IsNumeral(imm) then Running(Set(m, r, NumeralValue(imm))) else Stuck
    case Push(FromReg(r)) => Running(m.(stack := m.stack + [Get(m, r)]))
    case Push(StackSlot(off)) =>
      if ReadsCell(m, off) then Running(m.(stack := m.stack + [m.stack[|m.stack| - 1 - off / 8]]))
      else Stuck
    case Pop(r) =>
      if m.stack == [] then Stuck
      else Running(Set(m.(stack := m.stack[..|m.stack| - 1]), r, m.stack[|m.stack| - 1]))
    case Syscall =>
      // `exit`: the status is the low eight bits of rdi
      if m.rax == 60 then Exited(m.rdi % 256) else Stuck
  }

  /** Runs the lines in order until one ends or sticks the program. */
  function Run(code: seq<Line>, m: MState): Outcome
    decreases |code|
  {
    if code == [] then Running(m)
    else
      match Exec(code[0], m)
      case Running(m') => Run(code[1..], m')
      case o => o
  }

  /** Running two pieces of code one after the other. */
  lemma {:induction false} RunAppend(a: seq<Line>, b: seq<Line>, m: MState)
    ensures Run(a + b, m) == (match Run(a, m) case Running(m') => Run(b, m') case o => o)
    decreases |a|
  {
    if a == [] {
      assert a + b == b;
    } else {
      assert (a + b)[0] == a[0];
      assert (a + b)[1..] == a[1..] + b;
      match Exec(a[0], m)
      case Running(m') => RunAppend(a[1..], b, m');
      case _ =>
    }
  }

  /** Once the program has stopped, what follows is never reached. */
  lemma RunStopped(a: seq<Line>, b: seq<Line>, m: MState)
    requires !Run(a, m).Running?
    ensures Run(a + b, m) == Run(a, m)
  {
    RunAppend(a, b, m);
  }

  /** Running code that went on to the state `m'`, then more code. */
  lemma RunThen(a: seq<Line>, b: seq<Line>, m: MState, m': MState)
    requires Run(a, m) == Running(m')
    ensures Run(a + b, m) == Run(b, m')
  {
    RunAppend(a, b, m);
  }
}
