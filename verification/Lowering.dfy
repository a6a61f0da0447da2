/** The code generator's state, and what lowering one statement does to it. */
module Lowering {
  import opened Options
  import opened Ast
  import opened Cfg

  /** One entry of the break/continue stack; a switch has no continue target. */
  datatype LoopTarget = LoopTarget(breakTo: nat, continueTo: Option<nat>)

  datatype Binding = Binding(id: nat, block: Option<nat>)

  /** `frames` is the chain of switch frames, innermost first. `loops` grows at its end. */
  datatype Gen = Gen(
    blocks: seq<Block>,
    cur: nat,
    loops: seq<LoopTarget>,
    frames: seq<seq<Binding>>,
    labels: map<string, nat>,
    defined: set<string>)

  const START := Gen([Block(Plain, [])], 0, [], [], map[], {})

  // ----- builder operations -----

  predicate CurTerminated(g: Gen) {
    g.cur < |g.blocks| && Terminated(g.blocks[g.cur].code)
  }

  predicate Live(g: Gen) {
    g.cur < |g.blocks| && !Terminated(g.blocks[g.cur].code)
  }

  function Emit(g: Gen, i: Instr): Gen {
    if g.cur < |g.blocks|
    then g.(blocks := g.blocks[g.cur := g.blocks[g.cur].(code := g.blocks[g.cur].code + [i])])
    else g
  }

  function Append(g: Gen, tag: Tag): Gen {
    g.(blocks := g.blocks + [Block(tag, [])])
  }

  function Position(g: Gen, b: nat): Gen {
    g.(cur := b)
  }

  /** Branch to `b` unless the current block already ends in a terminator. */
  function Fall(g: Gen, b: nat): Gen {
    if Live(g) then Emit(g, Br(b)) else g
  }

  function PushLoop(g: Gen, breakTo: nat, continueTo: Option<nat>): Gen {
    g.(loops := g.loops + [LoopTarget(breakTo, continueTo)])
  }

  function PopLoop(g: Gen): Gen {
    if g.loops == [] then g else g.(loops := g.loops[..|g.loops| - 1])
  }

  function BreakTarget(loops: seq<LoopTarget>): Option<nat> {
    if loops == [] then None else Some(loops[|loops| - 1].breakTo)
  }

  /** The innermost entry that has a continue target, skipping switches. */
  function ContinueTarget(loops: seq<LoopTarget>): Option<nat> {
    if loops == [] then None
    else if loops[|loops| - 1].continueTo.Some? then loops[|loops| - 1].continueTo
    else ContinueTarget(loops[..|loops| - 1])
  }

  function FindInFrame(frame: seq<Binding>, id: nat): Option<Binding> {
    if frame == [] then None
    else if frame[0].id == id then Some(frame[0])
    else FindInFrame(frame[1..], id)
  }

  /** The binding of a case node, searched from the innermost switch outwards. */
  function FindBinding(frames: seq<seq<Binding>>, id: nat): Option<Binding> {
    if frames == [] then None
    else if FindInFrame(frames[0], id).Some? then FindInFrame(frames[0], id)
    else FindBinding(frames[1..], id)
  }

  /** The block for `id`, or none when the node is unbound or has no block. */
  function CaseBlock(frames: seq<seq<Binding>>, id: nat): Option<nat> {
    match FindBinding(frames, id)
    case None => None
    case Some(b) => b.block
  }

  /** Makes the label's block on first use. */
  function EnsureLabel(g: Gen, name: string): Gen {
    if name in g.labels then g
    else Append(g, ForLabel(name)).(labels := g.labels[name := |g.blocks|])
  }

  // ----- statements -----

  predicate ShouldEmit(g: Gen, s: Stmt) {
    !CurTerminated(g) || CanReopen(s)
  }

  function Lower(g: Gen, s: Stmt): Gen
    decreases s
  {
    match s
    case Simple(op) => Emit(g, Exec(op))
    case Return(op) => Emit(Emit(g, Exec(op)), Ret)
    case Compound(body) => LowerAll(g, body)
    case If(cond, thn, els) =>
      var g0 := FreshIfTerminated(g);
      var n := |g0.blocks|;
      (match els
       case None => IfJoin(Lower(IfOpen(g0, cond, false), thn), n + 1)
       case Some(e) => IfJoin(Lower(IfElse(Lower(IfOpen(g0, cond, true), thn), n), e), n + 2))
    case While(cond, body, isDo) =>
      var n := |g.blocks|;
      if isDo then DoClose(Lower(DoOpen(g), body), n, cond)
      else WhileClose(Lower(WhileOpen(g, cond), body), n)
    case For(init, test, inc, body) =>
      ForClose(Lower(ForOpen(g, init, test), body), |g.blocks|, inc)
    case Break =>
      (match BreakTarget(g.loops) case None => g case Some(b) => Emit(g, Br(b)))
    case Continue =>
      (match ContinueTarget(g.loops) case None => g case Some(b) => Emit(g, Br(b)))
    case Switch(cond, integral, body) =>
      SwitchClose(LowerTop(SwitchOpen(g, cond, integral, CollectAll(body)), body), |g.blocks|)
    case Case(id, _, body) =>
      (match CaseBlock(g.frames, id)
       case None => g
       case Some(b) => LowerAll(Enter(g, b), body))
    case Label(name, labelled) =>
      var g0 := LabelOpen(g, name);
      (match labelled case None => g0 case Some(b) => Lower(g0, b))
    case Goto(name) => GotoLabel(g, name)
  }

  /** A statement list: what follows a terminator is skipped unless it opens a block of its own. */
  function LowerAll(g: Gen, ss: Stmts): Gen
    decreases ss
  {
    match ss
    case Nil => g
    case Cons(s, rest) => LowerAll(if ShouldEmit(g, s) then Lower(g, s) else g, rest)
  }

  /** The body of a switch: a statement that holds a case of this switch is never skipped. */
  function LowerTop(g: Gen, ss: Stmts): Gen
    decreases ss
  {
    match ss
    case Nil => g
    case Cons(s, rest) => LowerTop(if ShouldEmit(g, s) || ContainsOwnedCase(s) then Lower(g, s) else g, rest)
  }

  // ----- if -----

  function FreshIfTerminated(g: Gen): Gen {
    if CurTerminated(g) then Position(Append(g, Plain), |g.blocks|) else g
  }

  function IfOpen(g: Gen, cond: nat, hasElse: bool): Gen {
    var n := |g.blocks|;
    var g1 := Append(Append(Emit(g, Eval(cond)), Plain), Plain);
    var g2 := if hasElse then Append(g1, Plain) else g1;
    Position(Emit(g2, CondBr(n, n + 1)), n)
  }

  function IfElse(g: Gen, n: nat): Gen {
    Position(Fall(g, n + 2), n + 1)
  }

  function IfJoin(g: Gen, merge: nat): Gen {
    Position(Fall(g, merge), merge)
  }

  // ----- loops: condition, body, (increment,) end -----

  function WhileOpen(g: Gen, cond: nat): Gen {
    var n := |g.blocks|;
    var g1 := Fall(Append(Append(Append(g, Plain), Plain), Plain), n);
    PushLoop(Position(Emit(Emit(Position(g1, n), Eval(cond)), CondBr(n + 1, n + 2)), n + 1), n + 2, Some(n))
  }

  function WhileClose(g: Gen, n: nat): Gen {
    Position(Fall(PopLoop(g), n), n + 2)
  }

  function DoOpen(g: Gen): Gen {
    var n := |g.blocks|;
    var g1 := Fall(Append(Append(Append(g, Plain), Plain), Plain), n + 1);
    PushLoop(Position(g1, n + 1), n + 2, Some(n))
  }

  function DoClose(g: Gen, n: nat, cond: nat): Gen {
    var g1 := Position(Fall(PopLoop(g), n), n);
    Position(Emit(Emit(g1, Eval(cond)), CondBr(n + 1, n + 2)), n + 2)
  }

  function ForInit(g: Gen, init: Option<nat>): Gen {
    match init
    case None => g
    case Some(op) => Emit(FreshIfTerminated(g), Exec(op))
  }

  function TestInstr(test: Option<nat>): Instr {
    match test case None => Imm(1) case Some(e) => Eval(e)
  }

  function ForOpen(g: Gen, init: Option<nat>, test: Option<nat>): Gen {
    var n := |g.blocks|;
    var g1 := Append(Append(Append(Append(g, Plain), Plain), Plain), Plain);
    var g2 := Position(Fall(ForInit(g1, init), n), n);
    PushLoop(Position(Emit(Emit(g2, TestInstr(test)), CondBr(n + 1, n + 3)), n + 1), n + 3, Some(n + 2))
  }

  function ForClose(g: Gen, n: nat, inc: Option<nat>): Gen {
    var g1 := Position(Fall(PopLoop(g), n + 2), n + 2);
    var g2 := (match inc case None => g1 case Some(op) => Emit(g1, Exec(op)));
    Position(Fall(g2, n), n + 3)
  }

  // ----- switch: end, one block per constant, then the default's -----

  function Constants(cs: seq<CaseInfo>): seq<CaseInfo> {
    if cs == [] then []
    else (if cs[0].value.Some? then [cs[0]] else []) + Constants(cs[1..])
  }

  /** The first default of the list. */
  function Default(cs: seq<CaseInfo>): Option<nat> {
    if cs == [] then None
    else if cs[0].value.None? then Some(cs[0].id)
    else Default(cs[1..])
  }

  function Bindings(cs: seq<CaseInfo>, next: nat, dflt: Option<nat>): seq<Binding> {
    if cs == [] then []
    else if cs[0].value.Some? then [Binding(cs[0].id, Some(next))] + Bindings(cs[1..], next + 1, dflt)
    else [Binding(cs[0].id, dflt)] + Bindings(cs[1..], next, None)
  }

  function Table(ks: seq<CaseInfo>, next: nat): seq<(int, nat)>
    requires forall i :: 0 <= i < |ks| ==> ks[i].value.Some?
  {
    if ks == [] then [] else [(ks[0].value.value, next)] + Table(ks[1..], next + 1)
  }

  function AppendCases(g: Gen, ks: seq<CaseInfo>): Gen
    decreases |ks|
  {
    if ks == [] then g else AppendCases(Append(g, ForCase(ks[0].id)), ks[1..])
  }

  function Min(t: seq<(int, nat)>): int
    requires t != []
  {
    if |t| == 1 then t[0].0 else var r := Min(t[..|t| - 1]); if t[|t| - 1].0 < r then t[|t| - 1].0 else r
  }

  function Max(t: seq<(int, nat)>): int
    requires t != []
  {
    if |t| == 1 then t[0].0 else var r := Max(t[..|t| - 1]); if t[|t| - 1].0 > r then t[|t| - 1].0 else r
  }

  /** A signed 64-bit result, wrapped the way two's complement does. */
  function Wrap64(x: int): int {
    (x + 0x8000_0000_0000_0000) % 0x1_0000_0000_0000_0000 - 0x8000_0000_0000_0000
  }

  /** One `switch` instruction when the constants fill at least half of their span. */
  predicate Dense(t: seq<(int, nat)>, integral: bool) {
    t != [] && integral &&
    var span := Wrap64(Max(t) - Min(t) + 1);
    0 < span <= 2 * |t|
  }

  ghost predicate Least(t: seq<(int, nat)>, i: nat) {
    i < |t| && forall k :: 0 <= k < |t| ==> t[i].0 <= t[k].0
  }

  ghost predicate Greatest(t: seq<(int, nat)>, i: nat) {
    i < |t| && forall k :: 0 <= k < |t| ==> t[k].0 <= t[i].0
  }

  lemma {:induction false} MinIsLeast(t: seq<(int, nat)>) returns (i: nat)
    requires t != []
    ensures Least(t, i) && t[i].0 == Min(t)
    decreases |t|
  {
    i := |t| - 1;
    if |t| > 1 {
      var j := MinIsLeast(t[..|t| - 1]);
      if t[j].0 <= t[i].0 { i := j; }
    }
  }

  lemma {:induction false} MaxIsGreatest(t: seq<(int, nat)>) returns (i: nat)
    requires t != []
    ensures Greatest(t, i) && t[i].0 == Max(t)
    decreases |t|
  {
    i := |t| - 1;
    if |t| > 1 {
      var j := MaxIsGreatest(t[..|t| - 1]);
      if t[j].0 >= t[i].0 { i := j; }
    }
  }

  /** For 64-bit constants: the dense form is taken exactly when the span from the least constant to the
      greatest is a positive 64-bit number and at most twice as long as the table. */
  lemma {:induction false} DenseIff(t: seq<(int, nat)>, integral: bool)
    requires forall k :: 0 <= k < |t| ==> -0x8000_0000_0000_0000 <= t[k].0 < 0x8000_0000_0000_0000
    ensures Dense(t, integral) <==>
      integral && exists i: nat, j: nat ::
        Least(t, i) && Greatest(t, j) &&
        t[j].0 - t[i].0 < 0x7fff_ffff_ffff_ffff && t[j].0 - t[i].0 < 2 * |t|
  {
    if t != [] {
      var lo := MinIsLeast(t);
      var hi := MaxIsGreatest(t);
      assert t[lo].0 <= t[hi].0;
      assert Least(t, lo) && Greatest(t, hi) && Wrap64(Max(t) - Min(t) + 1) ==
             if t[hi].0 - t[lo].0 < 0x7fff_ffff_ffff_ffff then t[hi].0 - t[lo].0 + 1
             else t[hi].0 - t[lo].0 + 1 - 0x1_0000_0000_0000_0000;
    }
  }

  function CompareChain(g: Gen, t: seq<(int, nat)>, dflt: nat): Gen
    decreases |t|
  {
    if t == [] then Emit(g, Br(dflt))
    else
      var n := |g.blocks|;
      CompareChain(Position(Emit(Append(g, Plain), CmpBr(t[0].0, t[0].1, n)), n), t[1..], dflt)
  }

  lemma {:induction false} ConstantsHaveValues(cs: seq<CaseInfo>)
    ensures forall i :: 0 <= i < |Constants(cs)| ==> Constants(cs)[i].value.Some?
  {
    if cs != [] { ConstantsHaveValues(cs[1..]); }
  }

  function SwitchTable(cs: seq<CaseInfo>, end: nat): seq<(int, nat)> {
    ConstantsHaveValues(cs);
    Table(Constants(cs), end + 1)
  }

  function SwitchDefault(cs: seq<CaseInfo>, end: nat): nat {
    if Default(cs).Some? then end + 1 + |Constants(cs)| else end
  }

  function SwitchFrame(cs: seq<CaseInfo>, end: nat): seq<Binding> {
    Bindings(cs, end + 1, if Default(cs).Some? then Some(end + 1 + |Constants(cs)|) else None)
  }

  function SwitchBlocks(g: Gen, cs: seq<CaseInfo>): Gen {
    var g1 := AppendCases(Append(g, Plain), Constants(cs));
    match Default(cs) case None => g1 case Some(id) => Append(g1, ForCase(id))
  }

  function Dispatch(g: Gen, t: seq<(int, nat)>, integral: bool, dflt: nat): Gen {
    if Dense(t, integral) then Emit(g, SwitchBr(t, dflt)) else CompareChain(g, t, dflt)
  }

  function SwitchOpen(g: Gen, cond: nat, integral: bool, cs: seq<CaseInfo>): Gen {
    var end := |g.blocks|;
    var g1 := SwitchBlocks(Emit(g, Eval(cond)), cs);
    var g2 := PushLoop(g1.(frames := [SwitchFrame(cs, end)] + g1.frames), end, None);
    Dispatch(g2, SwitchTable(cs, end), integral, SwitchDefault(cs, end))
  }

  function PopFrame(g: Gen): Gen {
    if g.frames == [] then g else g.(frames := g.frames[1..])
  }

  function SwitchClose(g: Gen, end: nat): Gen {
    Position(PopFrame(PopLoop(Fall(g, end))), end)
  }

  // ----- labels, cases, goto -----

  /** Falls into `b` from whatever block came before, and goes on there. */
  function Enter(g: Gen, b: nat): Gen {
    Position(if g.cur != b then Fall(g, b) else g, b)
  }

  function LabelOpen(g: Gen, name: string): Gen {
    var g1 := EnsureLabel(g, name);
    var g2 := g1.(defined := g1.defined + {name});
    Enter(g2, g1.labels[name])
  }

  /** After the branch come a sink that is never reached and an open block for what follows. */
  function GotoLabel(g: Gen, name: string): Gen {
    var g1 := EnsureLabel(g, name);
    var g2 := Emit(g1, Br(g1.labels[name]));
    var n := |g2.blocks|;
    var g3 := Emit(Position(Append(g2, Plain), n), Unreachable);
    Position(Append(g3, Plain), n + 1)
  }
}
