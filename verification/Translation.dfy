/** What it means for a set of blocks to contain the translation of a statement.

    The relation speaks about finished blocks only: no builder, no stacks. `p` is where control
    enters (or `Dead`), `q` where it leaves, `brk` and `cnt` the blocks that `break` and `continue`
    go to; they are passed down the statement text, so they are the lexically nearest ones.
  */
module Translation {
  import opened Options
  import opened Ast
  import opened Cfg
  import opened Lowering
  import opened WellFormed
  import opened LoweringKeeps

  datatype Point = Dead | At(b: nat, pc: nat)

  predicate Code(blocks: seq<Block>, b: nat, pc: nat, i: Instr) {
    b < |blocks| && pc < |blocks[b].code| && blocks[b].code[pc] == i
  }

  predicate Codes(blocks: seq<Block>, b: nat, pc: nat, code: seq<Instr>) {
    forall i :: 0 <= i < |code| ==> Code(blocks, b, pc + i, code[i])
  }

  /** Control standing at `p` branches to block `to`. */
  predicate Flow(blocks: seq<Block>, p: Point, to: nat) {
    p.At? ==> Code(blocks, p.b, p.pc, Br(to))
  }

  predicate Tagged(blocks: seq<Block>, b: nat, t: Tag) {
    b < |blocks| && blocks[b].tag == t
  }

  predicate LoopTest(blocks: seq<Block>, b: nat, test: Instr, yes: nat, no: nat) {
    Code(blocks, b, 0, test) && Code(blocks, b, 1, CondBr(yes, no))
  }

  predicate Chain(blocks: seq<Block>, b: nat, pc: nat, table: seq<(int, nat)>, dflt: nat)
    decreases |table|
  {
    if table == [] then Code(blocks, b, pc, Br(dflt))
    else
      && b < |blocks| && pc < |blocks[b].code| && blocks[b].code[pc].CmpBr?
      && var i := blocks[b].code[pc];
      i.k == table[0].0 && i.yes == table[0].1 && Chain(blocks, i.no, 0, table[1..], dflt)
  }

  predicate Dispatches(blocks: seq<Block>, b: nat, pc: nat, table: seq<(int, nat)>, dflt: nat) {
    Code(blocks, b, pc, SwitchBr(table, dflt)) || Chain(blocks, b, pc, table, dflt)
  }

  ghost predicate Tr(
    blocks: seq<Block>, lost: set<Tag>, s: Stmt, p: Point, q: Point, brk: Option<nat>, cnt: Option<nat>)
    decreases s
  {
    match s
    case Simple(op) => p.At? && Code(blocks, p.b, p.pc, Exec(op)) && q == At(p.b, p.pc + 1)
    case Return(op) => p.At? && Codes(blocks, p.b, p.pc, [Exec(op), Ret]) && q == Dead
    case Break => p.At? && brk.Some? && Code(blocks, p.b, p.pc, Br(brk.value)) && q == Dead
    case Continue => p.At? && cnt.Some? && Code(blocks, p.b, p.pc, Br(cnt.value)) && q == Dead
    case Goto(name) =>
      p.At? && q.At? && exists to: nat :: Tagged(blocks, to, ForLabel(name)) && Code(blocks, p.b, p.pc, Br(to))
    case Compound(body) => TrAll(blocks, lost, body, p, q, brk, cnt)
    case If(cond, thn, els) =>
      q.At? && q.pc == 0 &&
      (match els
       case None =>
         exists tb: nat, m ::
           && Tr(blocks, lost, thn, At(tb, 0), m, brk, cnt) && Flow(blocks, m, q.b)
           && (p.At? ==> Codes(blocks, p.b, p.pc, [Eval(cond), CondBr(tb, q.b)]))
       case Some(e) =>
         exists tb: nat, m1, eb: nat, m2 ::
           && Tr(blocks, lost, thn, At(tb, 0), m1, brk, cnt) && Flow(blocks, m1, q.b)
           && Tr(blocks, lost, e, At(eb, 0), m2, brk, cnt) && Flow(blocks, m2, q.b)
           && (p.At? ==> Codes(blocks, p.b, p.pc, [Eval(cond), CondBr(tb, eb)])))
    case While(cond, body, isDo) =>
      q.At? && q.pc == 0 &&
      exists cb: nat, bb: nat, m ::
        && Tr(blocks, lost, body, At(bb, 0), m, Some(q.b), Some(cb)) && Flow(blocks, m, cb)
        && LoopTest(blocks, cb, Eval(cond), bb, q.b)
        && Flow(blocks, p, if isDo then bb else cb)
    case For(init, test, inc, body) =>
      q.At? && q.pc == 0 &&
      exists cb: nat, bb: nat, ib: nat, m ::
        && Tr(blocks, lost, body, At(bb, 0), m, Some(q.b), Some(ib)) && Flow(blocks, m, ib)
        && LoopTest(blocks, cb, TestInstr(test), bb, q.b)
        && Codes(blocks, ib, 0, OpThenBranch(inc, cb))
        && (p.At? ==> Codes(blocks, p.b, p.pc, OpThenBranch(init, cb)))
    case Switch(cond, _, body) =>
      var cs := CollectAll(body);
      && p.At? && q.At? && q.pc == 0
      && Code(blocks, p.b, p.pc, Eval(cond))
      && Dispatches(blocks, p.b, p.pc + 1, SwitchTable(cs, q.b), SwitchDefault(cs, q.b))
      && SwitchLayout(blocks, cs, q.b)
      && exists m :: TrTop(blocks, lost, body, Dead, m, Some(q.b), cnt) && Flow(blocks, m, q.b)
    case Case(id, _, body) =>
      exists b: nat ::
        Tagged(blocks, b, ForCase(id)) && Flow(blocks, p, b) && TrAll(blocks, lost, body, At(b, 0), q, brk, cnt)
    case Label(name, labelled) =>
      exists b: nat ::
        && Tagged(blocks, b, ForLabel(name)) && Flow(blocks, p, b)
        && (match labelled case None => q == At(b, 0) case Some(l) => Tr(blocks, lost, l, At(b, 0), q, brk, cnt))
  }

  ghost predicate TrAll(
    blocks: seq<Block>, lost: set<Tag>, ss: Stmts, p: Point, q: Point, brk: Option<nat>, cnt: Option<nat>)
    decreases ss
  {
    match ss
    case Nil => p == q
    case Cons(s, rest) =>
      if p.At? || CanReopen(s)
      then exists m :: Tr(blocks, lost, s, p, m, brk, cnt) && TrAll(blocks, lost, rest, m, q, brk, cnt)
      else Open(s) <= lost && TrAll(blocks, lost, rest, p, q, brk, cnt)
  }

  ghost predicate TrTop(
    blocks: seq<Block>, lost: set<Tag>, ss: Stmts, p: Point, q: Point, brk: Option<nat>, cnt: Option<nat>)
    decreases ss
  {
    match ss
    case Nil => p == q
    case Cons(s, rest) =>
      if p.At? || CanReopen(s) || ContainsOwnedCase(s)
      then exists m :: Tr(blocks, lost, s, p, m, brk, cnt) && TrTop(blocks, lost, rest, m, q, brk, cnt)
      else Open(s) <= lost && TrTop(blocks, lost, rest, p, q, brk, cnt)
  }

  // ----- lowering produces it -----

  /** Where the builder stands. */
  function Here(g: Gen): Point {
    if Live(g) then At(g.cur, |g.blocks[g.cur].code|) else Dead
  }

  lemma {:induction false} CodeStays(a: seq<Block>, blocks: seq<Block>, b: nat, pc: nat, i: Instr)
    requires Extends(a, blocks) && Code(a, b, pc, i)
    ensures Code(blocks, b, pc, i)
  {
    assert a[b].code <= blocks[b].code;
  }

  /** Code appended to `g`'s current block, seen in the finished blocks. */
  lemma {:induction false} AppendedCode(g: Gen, h: Gen, blocks: seq<Block>, code: seq<Instr>)
    requires Live(g) && g.cur < |h.blocks| && Extends(h.blocks, blocks)
    requires h.blocks[g.cur].code == g.blocks[g.cur].code + code
    ensures Codes(blocks, Here(g).b, Here(g).pc, code)
  {
    forall i | 0 <= i < |code| ensures Code(blocks, Here(g).b, Here(g).pc + i, code[i]) {
      CodeStays(h.blocks, blocks, g.cur, |g.blocks[g.cur].code| + i, code[i]);
    }
  }

  lemma {:induction false} WholeCode(h: Gen, blocks: seq<Block>, b: nat)
    requires b < |h.blocks| && Extends(h.blocks, blocks)
    ensures Codes(blocks, b, 0, h.blocks[b].code)
  {
    forall i | 0 <= i < |h.blocks[b].code| ensures Code(blocks, b, 0 + i, h.blocks[b].code[i]) {
      CodeStays(h.blocks, blocks, b, i, h.blocks[b].code[i]);
    }
  }

  lemma {:induction false} FlowAfter(g: Gen, h: Gen, blocks: seq<Block>, to: nat)
    requires Extends(h.blocks, blocks)
    requires Live(g) ==> g.cur < |h.blocks| && h.blocks[g.cur].code == g.blocks[g.cur].code + [Br(to)]
    ensures Flow(blocks, Here(g), to)
  {
    if Live(g) {
      AppendedCode(g, h, blocks, [Br(to)]);
      assert Code(blocks, Here(g).b, Here(g).pc + 0, [Br(to)][0]);
    }
  }

  lemma {:induction false} EarlierExtends(g: Gen, h: Gen, nested: set<Tag>, blocks: seq<Block>)
    requires Step(g, h, nested) && Extends(h.blocks, blocks)
    ensures Extends(g.blocks, blocks)
  {
    ExtendsTrans(g.blocks, h.blocks, blocks);
  }

  lemma {:induction false} StepBlocks(g: Gen, h: Gen, nested: set<Tag>)
    requires Step(g, h, nested)
    ensures |g.blocks| <= |h.blocks|
  {}

  lemma {:induction false} ReadyApart(g: Gen, done: set<Tag>, targets: set<Tag>, open: set<Tag>, t: Tag)
    requires Ready(g, done, targets, open) && t in targets
    ensures t !in done
  {}

  lemma {:induction false} LayoutStays(a: seq<Block>, blocks: seq<Block>, cs: seq<CaseInfo>, end: nat)
    requires SwitchLayout(a, cs, end) && Extends(a, blocks)
    ensures SwitchLayout(blocks, cs, end)
  {
    hide Constants, Default;
    forall j | 0 <= j < |Constants(cs)|
      ensures end + 1 + j < |blocks| && blocks[end + 1 + j].tag == ForCase(Constants(cs)[j].id)
    {
      var c := Constants(cs)[j];
      assert end + 1 + j < |a| && a[end + 1 + j].tag == ForCase(c.id);
      assert blocks[end + 1 + j].tag == a[end + 1 + j].tag;
    }
    if Default(cs).Some? {
      var d := end + 1 + |Constants(cs)|;
      assert d < |a| && a[d].tag == ForCase(Default(cs).value);
      assert blocks[d].tag == a[d].tag;
    }
  }

  /** The blocks made by lowering a statement, and whatever grows out of them, contain its
      translation, up to the targets in `lost`, which cover those the skipping rule passes over. */
  lemma {:induction false} LowerTranslates(
    g: Gen, s: Stmt, joins: set<nat>, done: set<Tag>, blocks: seq<Block>, lost: set<Tag>)
    requires Fits(g, joins, done, Targets(s), Open(s)) && Unique(s) && ScopedIn(s, g.loops)
    requires Live(g) || CanReopen(s) || ContainsOwnedCase(s)
    requires Lost(s, Live(g)) <= lost && Extends(Lower(g, s).blocks, blocks)
    ensures Tr(blocks, lost, s, Here(g), Here(Lower(g, s)), BreakTarget(g.loops), ContinueTarget(g.loops))
    decreases s, 1
  {
    hide BlocksOk, UniqueTags, LabelsOk, Ready, Extends, Codes, Code, Flow, LoopTest, Dispatches, SwitchLayout;
    hide TrAll, TrTop;
    match s
    case Simple(_) => LeafTranslates(g, s, joins, done, blocks, lost);
    case Return(_) => LeafTranslates(g, s, joins, done, blocks, lost);
    case Break => LeafTranslates(g, s, joins, done, blocks, lost);
    case Continue => LeafTranslates(g, s, joins, done, blocks, lost);
    case Goto(_) => GotoTranslates(g, s, joins, done, blocks, lost);
    case Compound(body) => LowerAllTranslates(g, body, joins, done, blocks, lost);
    case If(_, _, els) =>
      if els.Some? {
        IfElseTranslates(g, s, joins, done, blocks, lost);
      } else {
        IfTranslates(g, s, joins, done, blocks, lost);
      }
    case While(_, _, isDo) =>
      if isDo {
        DoTranslates(g, s, joins, done, blocks, lost);
      } else {
        WhileTranslates(g, s, joins, done, blocks, lost);
      }
    case For(_, _, _, _) => ForTranslates(g, s, joins, done, blocks, lost);
    case Switch(_, _, _) => SwitchTranslates(g, s, joins, done, blocks, lost);
    case Case(_, _, _) => CaseTranslates(g, s, joins, done, blocks, lost);
    case Label(_, _) => LabelTranslates(g, s, joins, done, blocks, lost);
  }

  lemma {:induction false} LeafTranslates(
    g: Gen, s: Stmt, joins: set<nat>, done: set<Tag>, blocks: seq<Block>, lost: set<Tag>)
    requires s.Simple? || s.Return? || s.Break? || s.Continue?
    requires Inv(g, joins, done) && ScopedIn(s, g.loops) && Live(g) && Extends(Lower(g, s).blocks, blocks)
    ensures Tr(blocks, lost, s, Here(g), Here(Lower(g, s)), BreakTarget(g.loops), ContinueTarget(g.loops))
  {
    hide BlocksOk, UniqueTags, LabelsOk;
    var h := Lower(g, s);
    var p := Here(g);
    match s
    case Simple(op) =>
      AppendedCode(g, h, blocks, [Exec(op)]);
      assert Code(blocks, p.b, p.pc + 0, [Exec(op)][0]);
    case Return(op) =>
      assert h.blocks[g.cur].code == g.blocks[g.cur].code + [Exec(op), Ret];
      AppendedCode(g, h, blocks, [Exec(op), Ret]);
    case Break => FlowAfter(g, h, blocks, BreakTarget(g.loops).value);
    case Continue => FlowAfter(g, h, blocks, ContinueTarget(g.loops).value);
  }

  lemma {:induction false} GotoTranslates(
    g: Gen, s: Stmt, joins: set<nat>, done: set<Tag>, blocks: seq<Block>, lost: set<Tag>)
    requires s.Goto?
    requires Inv(g, joins, done) && Live(g) && Extends(Lower(g, s).blocks, blocks)
    ensures Tr(blocks, lost, s, Here(g), Here(Lower(g, s)), BreakTarget(g.loops), ContinueTarget(g.loops))
  {
    hide BlocksOk, UniqueTags, LabelsOk, GotoLabel;
    var h := Lower(g, s);
    GotoKeeps(g, s.name, joins, done);
    FlowAfter(g, h, blocks, h.labels[s.name]);
    assert Tagged(blocks, h.labels[s.name], ForLabel(s.name));
  }

  /** The first statement of a list and the state in which the rest is lowered. */
  lemma {:induction false} HeadTranslates(g: Gen, s: Stmt, rest: Stmts, emit: bool, joins: set<nat>, done: set<Tag>)
    returns (h: Gen, done': set<Tag>)
    requires Fits(g, joins, done, Targets(s) + TargetsAll(rest), Open(s) + OpenAll(rest))
    requires Unique(s) && Targets(s) !! TargetsAll(rest) && ScopedIn(s, g.loops)
    requires emit ==> Live(g) || CanReopen(s) || ContainsOwnedCase(s)
    ensures h == if emit then Lower(g, s) else g
    ensures Fits(h, joins, done', TargetsAll(rest), OpenAll(rest)) && h.loops == g.loops
    ensures Live(h) == if emit then Ends(s, Live(g)) else Live(g)
    ensures Fits(g, joins, done, Targets(s), Open(s))
  {
    hide BlocksOk, UniqueTags, LabelsOk, Step, Made, Lower;
    h := HeadKeeps(g, s, rest, emit, joins, done);
    done' := done + (if emit then DoneBy(s, Live(g)) else Nested(s));
    OpenWithinTargets(s);
    OpenAllWithinTargets(rest);
  }

  lemma {:induction false} LowerAllTranslates(
    g: Gen, ss: Stmts, joins: set<nat>, done: set<Tag>, blocks: seq<Block>, lost: set<Tag>)
    requires Fits(g, joins, done, TargetsAll(ss), OpenAll(ss)) && UniqueAll(ss) && ScopedAllIn(ss, g.loops)
    requires LostAll(ss, Live(g)) <= lost && Extends(LowerAll(g, ss).blocks, blocks)
    ensures TrAll(blocks, lost, ss, Here(g), Here(LowerAll(g, ss)), BreakTarget(g.loops), ContinueTarget(g.loops))
    decreases ss
  {
    if ss.Cons? {
      hide Tr, Inv, Step, Ready, Made, Lower, Extends, Lost, Ends, Unique, Targets, Open;
      var s, rest := ss.head, ss.tail;
      var emit := Live(g) || CanReopen(s);
      InvCur(g, joins, done);
      var h, done' := HeadTranslates(g, s, rest, emit, joins, done);
      assert LowerAll(g, ss) == LowerAll(h, rest);
      LowerAllKeeps(h, rest, joins, done');
      EarlierExtends(h, LowerAll(g, ss), NestedAll(rest), blocks);
      LowerAllTranslates(h, rest, joins, done', blocks, lost);
      if emit { LowerTranslates(g, s, joins, done, blocks, lost); }
    }
  }

  lemma {:induction false} LowerTopTranslates(
    g: Gen, ss: Stmts, joins: set<nat>, done: set<Tag>, blocks: seq<Block>, lost: set<Tag>)
    requires Fits(g, joins, done, TargetsAll(ss), OpenAll(ss)) && UniqueAll(ss) && ScopedAllIn(ss, g.loops)
    requires LostTop(ss, Live(g)) <= lost && Extends(LowerTop(g, ss).blocks, blocks)
    ensures TrTop(blocks, lost, ss, Here(g), Here(LowerTop(g, ss)), BreakTarget(g.loops), ContinueTarget(g.loops))
    decreases ss
  {
    if ss.Cons? {
      hide Tr, Inv, Step, Ready, Made, Lower, Extends, Lost, Ends, Unique, Targets, Open;
      var s, rest := ss.head, ss.tail;
      var emit := Live(g) || CanReopen(s) || ContainsOwnedCase(s);
      InvCur(g, joins, done);
      var h, done' := HeadTranslates(g, s, rest, emit, joins, done);
      assert LowerTop(g, ss) == LowerTop(h, rest);
      LowerTopKeeps(h, rest, joins, done');
      EarlierExtends(h, LowerTop(g, ss), NestedAll(rest), blocks);
      LowerTopTranslates(h, rest, joins, done', blocks, lost);
      if emit { LowerTranslates(g, s, joins, done, blocks, lost); }
    }
  }

  lemma {:induction false} InvCur(g: Gen, joins: set<nat>, done: set<Tag>)
    requires Inv(g, joins, done)
    ensures Live(g) == !CurTerminated(g)
  {}

  lemma {:induction false} WhileTranslates(
    g: Gen, s: Stmt, joins: set<nat>, done: set<Tag>, blocks: seq<Block>, lost: set<Tag>)
    requires s.While? && !s.isDo
    requires Fits(g, joins, done, Targets(s), Open(s)) && Unique(s) && ScopedIn(s, g.loops)
    requires Lost(s, Live(g)) <= lost && Extends(Lower(g, s).blocks, blocks)
    ensures Tr(blocks, lost, s, Here(g), Here(Lower(g, s)), BreakTarget(g.loops), ContinueTarget(g.loops))
    decreases s, 0
  {
    hide BlocksOk, UniqueTags, LabelsOk, Step, Ready, Lower, Codes, LoopTest, Code;
    var m := WhileParts(g, s, joins, done, blocks, lost);
  }

  lemma {:induction false} WhileParts(
    g: Gen, s: Stmt, joins: set<nat>, done: set<Tag>, blocks: seq<Block>, lost: set<Tag>)
    returns (m: Point)
    requires s.While? && !s.isDo
    requires Fits(g, joins, done, Targets(s), Open(s)) && Unique(s) && ScopedIn(s, g.loops)
    requires Lost(s, Live(g)) <= lost && Extends(Lower(g, s).blocks, blocks)
    ensures var n := |g.blocks|;
      && Tr(blocks, lost, s.body1, At(n + 1, 0), m, Some(n + 2), Some(n)) && Flow(blocks, m, n)
      && LoopTest(blocks, n, Eval(s.cond), n + 1, n + 2) && Flow(blocks, Here(g), n)
      && Here(Lower(g, s)) == At(n + 2, 0)
    decreases s, 0, 0
  {
    hide Tr, BlocksOk, UniqueTags, LabelsOk, Step, Ready, Made, WhileOpen, WhileClose, Lower, Lost;
    WhileUnfolds(g, s);
    var n := |g.blocks|;
    WhileOpenKeeps(g, s.cond, joins, done);
    WhileOpened(g, s, joins, done);
    var g1 := WhileOpen(g, s.cond);
    LowerKeeps(g1, s.body1, joins + {n + 2}, done);
    var g2 := Lower(g1, s.body1);
    JoinsAbove(g, joins, done, n + 2);
    WhileCloseKeeps(g2, n, joins, done + DoneBy(s, Live(g)));
    var h := WhileClose(g2, n);
    EarlierExtends(PopLoop(g2), h, {}, blocks);
    StepBlocks(PopLoop(g2), h, {});
    EarlierExtends(g1, g2, Nested(s), blocks);
    LowerTranslates(g1, s.body1, joins + {n + 2}, done, blocks, lost);
    FlowAfter(g2, h, blocks, n);
    FlowAfter(g, g1, blocks, n);
    LoopTestCode(g1, blocks, n, Eval(s.cond), n + 1, n + 2);
    m := Here(g2);
    assert Here(g1) == At(n + 1, 0) && Here(h) == At(n + 2, 0);
  }

  lemma {:induction false} LoopTestCode(h: Gen, blocks: seq<Block>, b: nat, test: Instr, yes: nat, no: nat)
    requires b < |h.blocks| && Extends(h.blocks, blocks) && h.blocks[b].code == [test, CondBr(yes, no)]
    ensures LoopTest(blocks, b, test, yes, no)
  {
    WholeCode(h, blocks, b);
    assert Code(blocks, b, 0 + 0, h.blocks[b].code[0]) && Code(blocks, b, 0 + 1, h.blocks[b].code[1]);
  }

  lemma {:induction false} DoTranslates(
    g: Gen, s: Stmt, joins: set<nat>, done: set<Tag>, blocks: seq<Block>, lost: set<Tag>)
    requires s.While? && s.isDo
    requires Fits(g, joins, done, Targets(s), Open(s)) && Unique(s) && ScopedIn(s, g.loops)
    requires Lost(s, Live(g)) <= lost && Extends(Lower(g, s).blocks, blocks)
    ensures Tr(blocks, lost, s, Here(g), Here(Lower(g, s)), BreakTarget(g.loops), ContinueTarget(g.loops))
    decreases s, 0
  {
    hide BlocksOk, UniqueTags, LabelsOk, Step, Ready, Lower, Codes, LoopTest, Code;
    var m := DoParts(g, s, joins, done, blocks, lost);
  }

  lemma {:induction false} DoParts(g: Gen, s: Stmt, joins: set<nat>, done: set<Tag>, blocks: seq<Block>, lost: set<Tag>)
    returns (m: Point)
    requires s.While? && s.isDo
    requires Fits(g, joins, done, Targets(s), Open(s)) && Unique(s) && ScopedIn(s, g.loops)
    requires Lost(s, Live(g)) <= lost && Extends(Lower(g, s).blocks, blocks)
    ensures var n := |g.blocks|;
      && Tr(blocks, lost, s.body1, At(n + 1, 0), m, Some(n + 2), Some(n)) && Flow(blocks, m, n)
      && LoopTest(blocks, n, Eval(s.cond), n + 1, n + 2) && Flow(blocks, Here(g), n + 1)
      && Here(Lower(g, s)) == At(n + 2, 0)
    decreases s, 0, 0
  {
    hide Tr, BlocksOk, UniqueTags, LabelsOk, Step, Ready, Made, DoOpen, DoClose, Lower, Lost;
    WhileUnfolds(g, s);
    var n := |g.blocks|;
    DoOpenKeeps(g, joins, done);
    DoOpened(g, s, joins, done);
    var g1 := DoOpen(g);
    LowerKeeps(g1, s.body1, joins + {n, n + 2}, done);
    var g2 := Lower(g1, s.body1);
    JoinsAbove(g, joins, done, n);
    JoinsAbove(g, joins, done, n + 2);
    DoCloseKeeps(g2, n, s.cond, joins, done + DoneBy(s, Live(g)));
    var h := DoClose(g2, n, s.cond);
    EarlierExtends(PopLoop(g2), h, {}, blocks);
    StepBlocks(PopLoop(g2), h, {});
    EarlierExtends(g1, g2, Nested(s), blocks);
    LowerTranslates(g1, s.body1, joins + {n, n + 2}, done, blocks, lost);
    FlowAfter(g2, h, blocks, n);
    FlowAfter(g, g1, blocks, n + 1);
    LoopTestCode(h, blocks, n, Eval(s.cond), n + 1, n + 2);
    m := Here(g2);
    assert Here(g1) == At(n + 1, 0) && Here(h) == At(n + 2, 0);
  }

  lemma {:induction false} ForTranslates(
    g: Gen, s: Stmt, joins: set<nat>, done: set<Tag>, blocks: seq<Block>, lost: set<Tag>)
    requires s.For?
    requires Fits(g, joins, done, Targets(s), Open(s)) && Unique(s) && ScopedIn(s, g.loops)
    requires Lost(s, Live(g)) <= lost && Extends(Lower(g, s).blocks, blocks)
    ensures Tr(blocks, lost, s, Here(g), Here(Lower(g, s)), BreakTarget(g.loops), ContinueTarget(g.loops))
    decreases s, 0
  {
    hide BlocksOk, UniqueTags, LabelsOk, Step, Ready, Lower, Codes, LoopTest, Code, OpThenBranch;
    var m := ForParts(g, s, joins, done, blocks, lost);
  }

  lemma {:induction false} ForParts(
    g: Gen, s: Stmt, joins: set<nat>, done: set<Tag>, blocks: seq<Block>, lost: set<Tag>)
    returns (m: Point)
    requires s.For?
    requires Fits(g, joins, done, Targets(s), Open(s)) && Unique(s) && ScopedIn(s, g.loops)
    requires Lost(s, Live(g)) <= lost && Extends(Lower(g, s).blocks, blocks)
    ensures var n := |g.blocks|;
      && Tr(blocks, lost, s.body2, At(n + 1, 0), m, Some(n + 3), Some(n + 2)) && Flow(blocks, m, n + 2)
      && LoopTest(blocks, n, TestInstr(s.test), n + 1, n + 3)
      && Codes(blocks, n + 2, 0, OpThenBranch(s.inc, n))
      && (Live(g) ==> Codes(blocks, Here(g).b, Here(g).pc, OpThenBranch(s.init, n)))
      && Here(Lower(g, s)) == At(n + 3, 0)
    decreases s, 0, 0
  {
    hide Tr, BlocksOk, UniqueTags, LabelsOk, Step, Ready, Made, ForOpen, ForClose, OpThenBranch, Codes, Lower, Lost;
    ForUnfolds(g, s);
    var n := |g.blocks|;
    ForOpenKeeps(g, s.init, s.test, joins, done);
    ForOpened(g, s, joins, done);
    var g1 := ForOpen(g, s.init, s.test);
    LowerKeeps(g1, s.body2, joins + {n + 2, n + 3}, done);
    var g2 := Lower(g1, s.body2);
    JoinsAbove(g, joins, done, n + 2);
    JoinsAbove(g, joins, done, n + 3);
    ForCloseKeeps(g2, n, s.inc, joins, done + DoneBy(s, Live(g)));
    var h := ForClose(g2, n, s.inc);
    EarlierExtends(PopLoop(g2), h, {}, blocks);
    StepBlocks(PopLoop(g2), h, {});
    EarlierExtends(g1, g2, Nested(s), blocks);
    LowerTranslates(g1, s.body2, joins + {n + 2, n + 3}, done, blocks, lost);
    FlowAfter(g2, h, blocks, n + 2);
    if Live(g) { AppendedCode(g, g1, blocks, OpThenBranch(s.init, n)); }
    LoopTestCode(g1, blocks, n, TestInstr(s.test), n + 1, n + 3);
    WholeCode(h, blocks, n + 2);
    m := Here(g2);
    assert Here(g1) == At(n + 1, 0) && Here(h) == At(n + 3, 0);
  }

  lemma {:induction false} IfTranslates(
    g: Gen, s: Stmt, joins: set<nat>, done: set<Tag>, blocks: seq<Block>, lost: set<Tag>)
    requires s.If? && s.els.None?
    requires Fits(g, joins, done, Targets(s), Open(s)) && Unique(s) && ScopedIn(s, g.loops)
    requires Lost(s, Live(g)) <= lost && Extends(Lower(g, s).blocks, blocks)
    ensures Tr(blocks, lost, s, Here(g), Here(Lower(g, s)), BreakTarget(g.loops), ContinueTarget(g.loops))
    decreases s, 0
  {
    hide BlocksOk, UniqueTags, LabelsOk, Step, Ready, Lower, Codes, LoopTest, Code;
    var m := IfParts(g, s, joins, done, blocks, lost);
  }

  lemma {:induction false} IfParts(g: Gen, s: Stmt, joins: set<nat>, done: set<Tag>, blocks: seq<Block>, lost: set<Tag>)
    returns (m: Point)
    requires s.If? && s.els.None?
    requires Fits(g, joins, done, Targets(s), Open(s)) && Unique(s) && ScopedIn(s, g.loops)
    requires Lost(s, Live(g)) <= lost && Extends(Lower(g, s).blocks, blocks)
    ensures var n := |FreshIfTerminated(g).blocks|;
      && Tr(blocks, lost, s.thn, At(n, 0), m, BreakTarget(g.loops), ContinueTarget(g.loops)) && Flow(blocks, m, n + 1)
      && (Live(g) ==> Codes(blocks, Here(g).b, Here(g).pc, [Eval(s.cond), CondBr(n, n + 1)]))
      && Here(Lower(g, s)) == At(n + 1, 0)
    decreases s, 0, 0
  {
    hide Tr, BlocksOk, UniqueTags, LabelsOk, Step, Ready, Made, IfOpen, Codes, Flow, Extends;
    hide FreshIfTerminated, Lower, Lost, Inv;
    var n := |FreshIfTerminated(g).blocks|;
    IfUnfolds(g, s);
    IfOpened(g, s, joins, done);
    var g1 := IfOpen(FreshIfTerminated(g), s.cond, false);
    LowerKeeps(g1, s.thn, joins + {n + 1}, done);
    var g2 := Lower(g1, s.thn);
    JoinKeeps(g2, n + 1, n + 1, joins + {n + 1}, done + DoneBy(s.thn, true));
    var h := IfJoin(g2, n + 1);
    EarlierExtends(g2, h, {}, blocks);
    EarlierExtends(g1, g2, Nested(s.thn), blocks);
    IfEntry(g, s, joins, done, blocks);
    LowerTranslates(g1, s.thn, joins + {n + 1}, done, blocks, lost);
    FlowAfter(g2, h, blocks, n + 1);
    m := Here(g2);
  }

  /** The test and its branch at the end of the block before, and the empty block of the first arm. */
  lemma {:induction false} IfEntry(g: Gen, s: Stmt, joins: set<nat>, done: set<Tag>, blocks: seq<Block>)
    requires s.If? && Inv(g, joins, done)
    requires Extends(IfOpen(FreshIfTerminated(g), s.cond, s.els.Some?).blocks, blocks)
    ensures var n := |FreshIfTerminated(g).blocks|;
      && (Live(g) ==> Codes(blocks, Here(g).b, Here(g).pc, [Eval(s.cond), CondBr(n, n + 1)]))
      && Here(IfOpen(FreshIfTerminated(g), s.cond, s.els.Some?)) == At(n, 0)
  {
    hide BlocksOk, UniqueTags, LabelsOk, Step, Ready, Made, IfOpen, Codes, Extends;
    FreshIfTerminatedKeeps(g, joins, done);
    var g0 := FreshIfTerminated(g);
    var n := |g0.blocks|;
    IfOpenKeeps(g0, s.cond, s.els.Some?, joins, done);
    AppendedCode(g0, IfOpen(g0, s.cond, s.els.Some?), blocks, [Eval(s.cond), CondBr(n, n + 1)]);
  }

  lemma {:induction false} IfElseTranslates(
    g: Gen, s: Stmt, joins: set<nat>, done: set<Tag>, blocks: seq<Block>, lost: set<Tag>)
    requires s.If? && s.els.Some?
    requires Fits(g, joins, done, Targets(s), Open(s)) && Unique(s) && ScopedIn(s, g.loops)
    requires Lost(s, Live(g)) <= lost && Extends(Lower(g, s).blocks, blocks)
    ensures Tr(blocks, lost, s, Here(g), Here(Lower(g, s)), BreakTarget(g.loops), ContinueTarget(g.loops))
    decreases s, 0
  {
    hide BlocksOk, UniqueTags, LabelsOk, Step, Ready, Lower, Codes;
    var m1, m2 := IfElseParts(g, s, joins, done, blocks, lost);
  }

  lemma {:induction false} IfElseParts(
    g: Gen, s: Stmt, joins: set<nat>, done: set<Tag>, blocks: seq<Block>, lost: set<Tag>)
    returns (m1: Point, m2: Point)
    requires s.If? && s.els.Some?
    requires Fits(g, joins, done, Targets(s), Open(s)) && Unique(s) && ScopedIn(s, g.loops)
    requires Lost(s, Live(g)) <= lost && Extends(Lower(g, s).blocks, blocks)
    ensures var n := |FreshIfTerminated(g).blocks|;
      && Tr(blocks, lost, s.thn, At(n, 0), m1, BreakTarget(g.loops), ContinueTarget(g.loops)) && Flow(blocks, m1, n + 2)
      && Tr(blocks, lost, s.els.value, At(n + 1, 0), m2, BreakTarget(g.loops), ContinueTarget(g.loops))
      && Flow(blocks, m2, n + 2)
      && (Live(g) ==> Codes(blocks, Here(g).b, Here(g).pc, [Eval(s.cond), CondBr(n, n + 1)]))
      && Here(Lower(g, s)) == At(n + 2, 0)
    decreases s, 0, 1
  {
    hide Tr, BlocksOk, UniqueTags, LabelsOk, Step, Ready, Made, IfOpen, IfElse, Codes, Flow, Extends, Inv;
    hide Lower, Lost, FreshIfTerminated;
    IfElseUnfolds(g, s);
    var g0 := FreshIfTerminated(g);
    var n, e := |g0.blocks|, s.els.value;
    var g3 := ElseOpened(g, s, joins, done);
    var done1 := done + DoneBy(s.thn, true);
    LowerKeeps(g3, e, joins + {n + 2}, done1);
    var g4 := Lower(g3, e);
    JoinKeeps(g4, n + 2, n + 2, joins + {n + 2}, done1 + DoneBy(e, true));
    var h := IfJoin(g4, n + 2);
    EarlierExtends(g4, h, {}, blocks);
    EarlierExtends(g3, g4, Nested(e), blocks);
    LowerTranslates(g3, e, joins + {n + 2}, done1, blocks, lost);
    FlowAfter(g4, h, blocks, n + 2);
    m1 := ThenTranslates(g, s, joins, done, blocks, lost);
    m2 := Here(g4);
  }

  lemma {:induction false} ThenTranslates(
    g: Gen, s: Stmt, joins: set<nat>, done: set<Tag>, blocks: seq<Block>, lost: set<Tag>)
    returns (m: Point)
    requires s.If? && s.els.Some?
    requires Fits(g, joins, done, Targets(s), Open(s)) && Unique(s) && ScopedIn(s, g.loops)
    requires Lost(s.thn, true) <= lost
    requires var g0 := FreshIfTerminated(g);
      Extends(IfElse(Lower(IfOpen(g0, s.cond, true), s.thn), |g0.blocks|).blocks, blocks)
    ensures var g0 := FreshIfTerminated(g);
      var n := |g0.blocks|;
      && Tr(blocks, lost, s.thn, At(n, 0), m, BreakTarget(g.loops), ContinueTarget(g.loops)) && Flow(blocks, m, n + 2)
      && (Live(g) ==> Codes(blocks, Here(g).b, Here(g).pc, [Eval(s.cond), CondBr(n, n + 1)]))
      && Here(IfElse(Lower(IfOpen(g0, s.cond, true), s.thn), n)) == At(n + 1, 0)
    decreases s, 0, 0
  {
    hide Tr, BlocksOk, UniqueTags, LabelsOk, Step, Ready, Made, IfOpen, Codes, Flow, Extends, FreshIfTerminated, Lower;
    var n := |FreshIfTerminated(g).blocks|;
    IfOpened(g, s, joins, done);
    var g1 := IfOpen(FreshIfTerminated(g), s.cond, true);
    LowerKeeps(g1, s.thn, joins + {n + 1, n + 2}, done);
    var g2 := Lower(g1, s.thn);
    JoinKeeps(g2, n + 2, n + 1, joins + {n + 1, n + 2}, done + DoneBy(s.thn, true));
    var g3 := IfElse(g2, n);
    EarlierExtends(g2, g3, {}, blocks);
    EarlierExtends(g1, g2, Nested(s.thn), blocks);
    IfEntry(g, s, joins, done, blocks);
    LowerTranslates(g1, s.thn, joins + {n + 1, n + 2}, done, blocks, lost);
    m := Here(g2);
    FlowAfter(g2, g3, blocks, n + 2);
  }

  lemma {:induction false} ChainTranslates(
    g: Gen, t: seq<(int, nat)>, dflt: nat, joins: set<nat>, done: set<Tag>, blocks: seq<Block>)
    requires Inv(g, joins, done) && Live(g) && Extends(CompareChain(g, t, dflt).blocks, blocks)
    ensures Chain(blocks, Here(g).b, Here(g).pc, t, dflt)
    decreases |t|
  {
    hide BlocksOk, UniqueTags, LabelsOk;
    if t == [] {
      FlowAfter(g, CompareChain(g, t, dflt), blocks, dflt);
    } else {
      var n := |g.blocks|;
      AppendKeeps(g, joins, done);
      var g1 := Append(g, Plain);
      var i := CmpBr(t[0].0, t[0].1, n);
      EmitKeeps(g1, i, joins + {n}, done);
      var g2 := Emit(g1, i);
      PositionKeeps(g2, n, joins + {n}, done);
      assert joins + {n} - {n} == joins;
      var g3 := Position(g2, n);
      CompareChainKeeps(g3, t[1..], dflt, joins, done);
      EarlierExtends(g3, CompareChain(g, t, dflt), {}, blocks);
      ChainTranslates(g3, t[1..], dflt, joins, done, blocks);
      assert Here(g3) == At(n, 0);
      AppendedCode(g, g2, blocks, [i]);
      assert Code(blocks, Here(g).b, Here(g).pc + 0, [i][0]);
    }
  }

  lemma {:induction false} DispatchTranslates(
    g: Gen, t: seq<(int, nat)>, integral: bool, dflt: nat, joins: set<nat>, done: set<Tag>, blocks: seq<Block>)
    requires Inv(g, joins, done) && Live(g) && Extends(Dispatch(g, t, integral, dflt).blocks, blocks)
    ensures Dispatches(blocks, Here(g).b, Here(g).pc, t, dflt)
  {
    hide BlocksOk, UniqueTags, LabelsOk;
    if Dense(t, integral) {
      AppendedCode(g, Emit(g, SwitchBr(t, dflt)), blocks, [SwitchBr(t, dflt)]);
      assert Code(blocks, Here(g).b, Here(g).pc + 0, [SwitchBr(t, dflt)][0]);
    } else {
      ChainTranslates(g, t, dflt, joins, done, blocks);
    }
  }

  /** The condition, the dispatch code and the case blocks of a switch. */
  lemma {:induction false} SwitchHeadTranslates(g: Gen, s: Stmt, joins: set<nat>, done: set<Tag>, blocks: seq<Block>)
    requires s.Switch? && Live(g)
    requires Fits(g, joins, done, Targets(s), Open(s)) && Unique(s) && ScopedIn(s, g.loops)
    requires Extends(SwitchOpen(g, s.cond, s.integral, CollectAll(s.cases)).blocks, blocks)
    ensures var cs, end, p := CollectAll(s.cases), |g.blocks|, Here(g);
      && Code(blocks, p.b, p.pc, Eval(s.cond))
      && Dispatches(blocks, p.b, p.pc + 1, SwitchTable(cs, end), SwitchDefault(cs, end))
      && SwitchLayout(blocks, cs, end)
  {
    hide BlocksOk, UniqueTags, LabelsOk, SwitchTable, SwitchDefault;
    var cs, end := CollectAll(s.cases), |g.blocks|;
    CollectAllOwned(s.cases);
    CasesDistinct(s.cases);
    OpenAllWithinTargets(s.cases);
    forall t | t in CaseTags(cs) ensures t !in done && TagFree(g, t) { assert t in OpenAll(s.cases); }
    SwitchReadyKeeps(g, s.cond, cs, joins, done);
    var g1 := SwitchReady(g, s.cond, cs);
    var h := SwitchOpen(g, s.cond, s.integral, cs);
    DispatchKeeps(g1, SwitchTable(cs, end), s.integral, SwitchDefault(cs, end), joins + {end}, done);
    EarlierExtends(g1, h, {}, blocks);
    LayoutStays(g1.blocks, blocks, cs, end);
    DispatchTranslates(g1, SwitchTable(cs, end), s.integral, SwitchDefault(cs, end), joins + {end}, done, blocks);
    AppendedCode(g, g1, blocks, [Eval(s.cond)]);
    assert Code(blocks, Here(g).b, Here(g).pc + 0, [Eval(s.cond)][0]);
  }

  lemma {:induction false} SwitchTranslates(
    g: Gen, s: Stmt, joins: set<nat>, done: set<Tag>, blocks: seq<Block>, lost: set<Tag>)
    requires s.Switch? && Live(g)
    requires Fits(g, joins, done, Targets(s), Open(s)) && Unique(s) && ScopedIn(s, g.loops)
    requires Lost(s, Live(g)) <= lost && Extends(Lower(g, s).blocks, blocks)
    ensures Tr(blocks, lost, s, Here(g), Here(Lower(g, s)), BreakTarget(g.loops), ContinueTarget(g.loops))
    decreases s, 0
  {
    hide BlocksOk, UniqueTags, LabelsOk, Step, Ready, Lower, Codes, LoopTest, Code;
    hide Dispatches, SwitchLayout, SwitchTable, SwitchDefault;
    var m := SwitchParts(g, s, joins, done, blocks, lost);
  }

  lemma {:induction false} SwitchParts(
    g: Gen, s: Stmt, joins: set<nat>, done: set<Tag>, blocks: seq<Block>, lost: set<Tag>)
    returns (m: Point)
    requires s.Switch? && Live(g)
    requires Fits(g, joins, done, Targets(s), Open(s)) && Unique(s) && ScopedIn(s, g.loops)
    requires Lost(s, Live(g)) <= lost && Extends(Lower(g, s).blocks, blocks)
    ensures var cs, end, p := CollectAll(s.cases), |g.blocks|, Here(g);
      && Code(blocks, p.b, p.pc, Eval(s.cond))
      && Dispatches(blocks, p.b, p.pc + 1, SwitchTable(cs, end), SwitchDefault(cs, end))
      && SwitchLayout(blocks, cs, end)
      && TrTop(blocks, lost, s.cases, Dead, m, Some(end), ContinueTarget(g.loops)) && Flow(blocks, m, end)
      && Here(Lower(g, s)) == At(end, 0)
    decreases s, 0, 0
  {
    hide Tr, TrTop, BlocksOk, UniqueTags, LabelsOk, Step, Ready, Made, SwitchOpen, SwitchClose, SwitchTable;
    hide SwitchDefault, Dispatches, SwitchLayout, Lower, Lost, LowerTop, LostTop;
    SwitchUnfolds(g, s);
    var end := |g.blocks|;
    SwitchBodyReady(g, s, joins, done);
    var g1 := SwitchOpen(g, s.cond, s.integral, CollectAll(s.cases));
    LowerTopKeeps(g1, s.cases, joins + {end}, done);
    var g2 := LowerTop(g1, s.cases);
    JoinsAbove(g, joins, done, end);
    SwitchCloseKeeps(g2, end, joins, done + DoneBy(s, Live(g)));
    var h := SwitchClose(g2, end);
    EarlierExtends(g2, h, {}, blocks);
    EarlierExtends(g1, g2, NestedAll(s.cases), blocks);
    SwitchHeadTranslates(g, s, joins, done, blocks);
    LowerTopTranslates(g1, s.cases, joins + {end}, done, blocks, lost);
    ContinueThroughSwitch(g.loops, end);
    FlowAfter(g2, h, blocks, end);
    m := Here(g2);
    assert Here(h) == At(end, 0);
  }

  lemma {:induction false} CaseTranslates(
    g: Gen, s: Stmt, joins: set<nat>, done: set<Tag>, blocks: seq<Block>, lost: set<Tag>)
    requires s.Case?
    requires Fits(g, joins, done, Targets(s), Open(s)) && Unique(s) && ScopedIn(s, g.loops)
    requires Lost(s, Live(g)) <= lost && Extends(Lower(g, s).blocks, blocks)
    ensures Tr(blocks, lost, s, Here(g), Here(Lower(g, s)), BreakTarget(g.loops), ContinueTarget(g.loops))
    decreases s, 0
  {
    hide BlocksOk, UniqueTags, LabelsOk, Step, Ready, Made, Enter;
    CaseOpened(g, s, joins, done);
    var to := CaseBlock(g.frames, s.id).value;
    var g1 := Enter(g, to);
    LowerAllKeeps(g1, s.caseBody, joins, done + {ForCase(s.id)});
    EarlierExtends(g1, Lower(g, s), NestedAll(s.caseBody), blocks);
    LowerAllTranslates(g1, s.caseBody, joins, done + {ForCase(s.id)}, blocks, lost);
    StepBlocks(g, g1, {});
    FlowAfter(g, g1, blocks, to);
    assert Tagged(blocks, to, ForCase(s.id));
    assert Here(g1) == At(to, 0);
  }

  lemma {:induction false} LabelTranslates(
    g: Gen, s: Stmt, joins: set<nat>, done: set<Tag>, blocks: seq<Block>, lost: set<Tag>)
    requires s.Label?
    requires Fits(g, joins, done, Targets(s), Open(s)) && Unique(s) && ScopedIn(s, g.loops)
    requires Lost(s, Live(g)) <= lost && Extends(Lower(g, s).blocks, blocks)
    ensures Tr(blocks, lost, s, Here(g), Here(Lower(g, s)), BreakTarget(g.loops), ContinueTarget(g.loops))
    decreases s, 0
  {
    hide BlocksOk, UniqueTags, LabelsOk, Step, Ready, Made, LabelOpen;
    assert ForLabel(s.name) !in done by { ReadyApart(g, done, Targets(s), Open(s), ForLabel(s.name)); }
    LabelOpenKeeps(g, s.name, joins, done);
    var g1 := LabelOpen(g, s.name);
    if s.labelled.Some? {
      LabelOpened(g, s, joins, done);
      LowerKeeps(g1, s.labelled.value, joins, done + {ForLabel(s.name)});
      EarlierExtends(g1, Lower(g, s), Nested(s.labelled.value), blocks);
      LowerTranslates(g1, s.labelled.value, joins, done + {ForLabel(s.name)}, blocks, lost);
    }
    StepBlocks(g, g1, {});
    FlowAfter(g, g1, blocks, g1.cur);
    assert Tagged(blocks, g1.cur, ForLabel(s.name));
    assert Here(g1) == At(g1.cur, 0);
  }
}
