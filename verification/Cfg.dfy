/** Basic blocks, and the machine that runs them.

    A block is a growing list of instructions. Nothing in the representation stops a second
    terminator from being appended, exactly as in LLVM, so that "at most one, at the end" is
    something to prove. Every branch reads the value of the condition evaluated last: the emitted
    code never evaluates another one in between.
  */
module Cfg {
  import opened Options
  import opened Ast

  datatype Instr =
    | Exec(op: nat)
    | Eval(cond: nat)
    | Imm(v: int)
    | Br(to: nat)
    | CondBr(yes: nat, no: nat)
    | CmpBr(k: int, yes: nat, no: nat)
    | SwitchBr(table: seq<(int, nat)>, dflt: nat)
    | Ret
    | Unreachable
  {
    predicate IsTerminator() {
      !Exec? && !Eval? && !Imm?
    }
  }

  /** `tag` records what the block was made for. */
  datatype Block = Block(tag: Tag, code: seq<Instr>)

  predicate Terminated(code: seq<Instr>) {
    code != [] && code[|code| - 1].IsTerminator()
  }

  /** No instruction follows a terminator. */
  predicate WellTerminated(code: seq<Instr>) {
    forall i :: 0 <= i < |code| - 1 ==> !code[i].IsTerminator()
  }

  /** What the opaque operations and conditions do to the program's state. */
  datatype Meaning<!S> = Meaning(exec: (nat, S) -> S, eval: (nat, S) -> (int, S))

  datatype Machine<S> = Machine(block: nat, pc: nat, st: S, val: int)

  function Lookup(table: seq<(int, nat)>, v: int, dflt: nat): nat {
    if table == [] then dflt
    else if table[0].0 == v then table[0].1
    else Lookup(table[1..], v, dflt)
  }

  function MachineStep<S>(m: Meaning<S>, blocks: seq<Block>, c: Machine<S>): Option<Machine<S>> {
    if c.block < |blocks| && c.pc < |blocks[c.block].code| then
      match blocks[c.block].code[c.pc]
      case Exec(op) => Some(c.(pc := c.pc + 1, st := m.exec(op, c.st)))
      case Eval(e) => var r := m.eval(e, c.st); Some(c.(pc := c.pc + 1, st := r.1, val := r.0))
      case Imm(v) => Some(c.(pc := c.pc + 1, val := v))
      case Br(to) => Some(c.(block := to, pc := 0))
      case CondBr(yes, no) => Some(c.(block := if c.val != 0 then yes else no, pc := 0))
      case CmpBr(k, yes, no) => Some(c.(block := if c.val == k then yes else no, pc := 0))
      case SwitchBr(table, dflt) => Some(c.(block := Lookup(table, c.val, dflt), pc := 0))
      case Ret => None
      case Unreachable => None
    else None
  }

  function MachineRun<S>(m: Meaning<S>, blocks: seq<Block>, c: Machine<S>, n: nat): Option<Machine<S>>
    decreases n
  {
    if n == 0 then Some(c)
    else match MachineStep(m, blocks, c)
      case None => None
      case Some(d) => MachineRun(m, blocks, d, n - 1)
  }

  lemma {:induction false} MachineRunCompose<S>(m: Meaning<S>, blocks: seq<Block>, c: Machine<S>, n1: nat, n2: nat)
    requires MachineRun(m, blocks, c, n1).Some?
    ensures MachineRun(m, blocks, c, n1 + n2) == MachineRun(m, blocks, MachineRun(m, blocks, c, n1).value, n2)
    decreases n1
  {
    if n1 > 0 {
      MachineRunCompose(m, blocks, MachineStep(m, blocks, c).value, n1 - 1, n2);
    }
  }
}
