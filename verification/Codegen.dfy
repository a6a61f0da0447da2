/** The code generator itself: one object whose methods append blocks and instructions, move the
    builder, and push and pop the loop stack and the switch frames. Every method is proved to leave
    exactly the state that module `Lowering` specifies. */
module Codegen {
  import opened Options
  import opened Ast
  import opened Cfg
  import opened Lowering

  class CodegenContext {
    var blocks: seq<Block>
    var cur: nat
    var loopStack: seq<LoopTarget>
    var switchFrames: seq<seq<Binding>>
    var labels: map<string, nat>
    var defined: set<string>

    function View(): Gen
      reads this
    {
      Gen(blocks, cur, loopStack, switchFrames, labels, defined)
    }

    constructor ()
      ensures View() == START
    {
      blocks, cur, loopStack, switchFrames, labels, defined := [Block(Plain, [])], 0, [], [], map[], {};
    }

    // ----- builder -----

    method AppendBasicBlock(tag: Tag) returns (b: nat)
      modifies this
      ensures View() == Append(old(View()), tag) && b == old(|blocks|)
    {
      b := |blocks|;
      blocks := blocks + [Block(tag, [])];
    }

    method Build(i: Instr)
      modifies this
      ensures View() == Emit(old(View()), i)
    {
      if cur < |blocks| {
        blocks := blocks[cur := blocks[cur].(code := blocks[cur].code + [i])];
      }
    }

    method PositionAtEnd(b: nat)
      modifies this
      ensures View() == Position(old(View()), b)
    {
      cur := b;
    }

    predicate BlockTerminated()
      reads this
      ensures BlockTerminated() == CurTerminated(View())
    {
      cur < |blocks| && Terminated(blocks[cur].code)
    }

    method BranchIfOpen(b: nat)
      modifies this
      ensures View() == Fall(old(View()), b)
    {
      if cur < |blocks| && !BlockTerminated() {
        Build(Br(b));
      }
    }

    // ----- loop stack -----

    method LoopPush(breakTo: nat, continueTo: Option<nat>)
      modifies this
      ensures View() == PushLoop(old(View()), breakTo, continueTo)
    {
      loopStack := loopStack + [LoopTarget(breakTo, continueTo)];
    }

    method LoopPop()
      modifies this
      ensures View() == PopLoop(old(View()))
    {
      if |loopStack| != 0 {
        loopStack := loopStack[..|loopStack| - 1];
      }
    }

    method LoopPeek() returns (t: Option<nat>)
      ensures t == BreakTarget(loopStack)
    {
      if |loopStack| == 0 { return None; }
      return Some(loopStack[|loopStack| - 1].breakTo);
    }

    /** Searches downwards from the top for an entry with a continue target. */
    method LoopPeekForContinue() returns (t: Option<nat>)
      ensures t == ContinueTarget(loopStack)
    {
      var i := |loopStack|;
      assert loopStack[..i] == loopStack;
      while i > 0
        invariant 0 <= i <= |loopStack|
        invariant ContinueTarget(loopStack) == ContinueTarget(loopStack[..i])
      {
        assert loopStack[..i][..i - 1] == loopStack[..i - 1];
        if loopStack[i - 1].continueTo.Some? { return loopStack[i - 1].continueTo; }
        i := i - 1;
      }
      t := None;
    }

    // ----- labels and case bindings -----

    method EnsureLabelBlock(name: string) returns (b: nat)
      modifies this
      ensures View() == EnsureLabel(old(View()), name) && name in labels && b == labels[name]
    {
      if name !in labels {
        b := AppendBasicBlock(ForLabel(name));
        labels := labels[name := b];
      }
      b := labels[name];
    }

    method FindSwitchCaseBinding(id: nat) returns (r: Option<Binding>)
      ensures r == FindBinding(switchFrames, id)
    {
      var f := 0;
      while f < |switchFrames|
        invariant 0 <= f <= |switchFrames|
        invariant FindBinding(switchFrames, id) == FindBinding(switchFrames[f..], id)
      {
        var frame := switchFrames[f];
        var i := 0;
        while i < |frame|
          invariant 0 <= i <= |frame|
          invariant FindInFrame(frame, id) == FindInFrame(frame[i..], id)
        {
          if frame[i].id == id { return Some(frame[i]); }
          assert frame[i..][1..] == frame[i + 1..];
          i := i + 1;
        }
        assert switchFrames[f..][1..] == switchFrames[f + 1..];
        f := f + 1;
      }
      r := None;
    }

    // ----- statements -----

    method CodegenNode(s: Stmt)
      modifies this
      ensures View() == Lower(old(View()), s)
      decreases s, 1
    {
      match s
      case Simple(op) => Build(Exec(op));
      case Return(op) => Build(Exec(op)); Build(Ret);
      case Compound(body) => CodegenStatementList(body);
      case If(_, _, _) => CodegenIfStatement(s);
      case While(_, _, _) => CodegenWhileLoop(s);
      case For(_, _, _, _) => CodegenForLoop(s);
      case Break =>
        var t := LoopPeek();
        if t.Some? { Build(Br(t.value)); }
      case Continue =>
        var t := LoopPeekForContinue();
        if t.Some? { Build(Br(t.value)); }
      case Switch(_, _, _) => CodegenSwitch(s);
      case Case(_, _, _) => CodegenCase(s);
      case Label(_, _) => CodegenLabel(s);
      case Goto(name) => CodegenGoto(name);
    }

    method CodegenStatementList(ss: Stmts)
      modifies this
      ensures View() == LowerAll(old(View()), ss)
      decreases ss
    {
      var rest := ss;
      while rest.Cons?
        invariant rest == ss || rest < ss
        invariant LowerAll(View(), rest) == LowerAll(old(View()), ss)
        decreases rest
      {
        if !BlockTerminated() || CanReopen(rest.head) {
          CodegenNode(rest.head);
        }
        rest := rest.tail;
      }
    }

    method CodegenIfStatement(s: Stmt)
      requires s.If?
      modifies this
      ensures View() == Lower(old(View()), s)
      decreases s, 0
    {
      hide IfOpen, FreshIfTerminated, Fall;
      EnsureOpenBlock();
      var thenB := OpenIf(s.cond, s.els.Some?);
      CodegenNode(s.thn);
      if s.els.Some? {
        BranchIfOpen(thenB + 2);
        PositionAtEnd(thenB + 1);
        CodegenNode(s.els.value);
        BranchIfOpen(thenB + 2);
        PositionAtEnd(thenB + 2);
      } else {
        BranchIfOpen(thenB + 1);
        PositionAtEnd(thenB + 1);
      }
    }

    /** Goes on in a new block when the current one is terminated. */
    method EnsureOpenBlock()
      modifies this
      ensures View() == FreshIfTerminated(old(View()))
    {
      if BlockTerminated() {
        var entry := AppendBasicBlock(Plain);
        PositionAtEnd(entry);
      }
    }

    /** Blocks for the branches and the join, and the branch on the condition. */
    method OpenIf(cond: nat, hasElse: bool) returns (thenB: nat)
      modifies this
      ensures View() == IfOpen(old(View()), cond, hasElse) && thenB == old(|blocks|)
    {
      Build(Eval(cond));
      thenB := AppendBasicBlock(Plain);
      var elseB := thenB;
      if hasElse { elseB := AppendBasicBlock(Plain); }
      var mergeB := AppendBasicBlock(Plain);
      Build(CondBr(thenB, if hasElse then elseB else mergeB));
      PositionAtEnd(thenB);
    }

    method CodegenWhileLoop(s: Stmt)
      requires s.While?
      modifies this
      ensures View() == Lower(old(View()), s)
      decreases s, 0
    {
      hide WhileOpen, WhileClose, DoOpen, DoClose;
      if !s.isDo {
        var condB := OpenWhile(s.cond);
        CodegenNode(s.body1);
        CloseWhile(condB);
      } else {
        var condB := OpenDo();
        CodegenNode(s.body1);
        CloseDo(condB, s.cond);
      }
    }

    method OpenWhile(cond: nat) returns (condB: nat)
      modifies this
      ensures View() == WhileOpen(old(View()), cond) && condB == old(|blocks|)
    {
      condB := AppendBasicBlock(Plain);
      var bodyB := AppendBasicBlock(Plain);
      var afterB := AppendBasicBlock(Plain);
      BranchIfOpen(condB);
      PositionAtEnd(condB);
      Build(Eval(cond));
      Build(CondBr(bodyB, afterB));
      PositionAtEnd(bodyB);
      LoopPush(afterB, Some(condB));
    }

    method CloseWhile(n: nat)
      modifies this
      ensures View() == WhileClose(old(View()), n)
    {
      LoopPop();
      BranchIfOpen(n);
      PositionAtEnd(n + 2);
    }

    method OpenDo() returns (condB: nat)
      modifies this
      ensures View() == DoOpen(old(View())) && condB == old(|blocks|)
    {
      condB := AppendBasicBlock(Plain);
      var bodyB := AppendBasicBlock(Plain);
      var afterB := AppendBasicBlock(Plain);
      BranchIfOpen(bodyB);
      PositionAtEnd(bodyB);
      LoopPush(afterB, Some(condB));
    }

    method CloseDo(n: nat, cond: nat)
      modifies this
      ensures View() == DoClose(old(View()), n, cond)
    {
      hide Emit, Fall, PopLoop, Position;
      LoopPop();
      BranchIfOpen(n);
      PositionAtEnd(n);
      Build(Eval(cond));
      Build(CondBr(n + 1, n + 2));
      PositionAtEnd(n + 2);
    }

    method CodegenForLoop(s: Stmt)
      requires s.For?
      modifies this
      ensures View() == Lower(old(View()), s)
      decreases s, 0
    {
      hide ForOpen, ForClose;
      var n := OpenFor(s.init, s.test);
      CodegenNode(s.body2);
      CloseFor(n, s.inc);
    }

    method OpenFor(init: Option<nat>, test: Option<nat>) returns (condB: nat)
      modifies this
      ensures View() == ForOpen(old(View()), init, test) && condB == old(|blocks|)
    {
      condB := AppendBasicBlock(Plain);
      var bodyB := AppendBasicBlock(Plain);
      var incB := AppendBasicBlock(Plain);
      var afterB := AppendBasicBlock(Plain);
      BuildForInit(init);
      hide ForInit, CurTerminated, Emit, Append, Fall, Position;
      BranchIfOpen(condB);
      PositionAtEnd(condB);
      Build(if test.Some? then Eval(test.value) else Imm(1));
      Build(CondBr(bodyB, afterB));
      PositionAtEnd(bodyB);
      LoopPush(afterB, Some(incB));
    }

    method BuildForInit(init: Option<nat>)
      modifies this
      ensures View() == ForInit(old(View()), init)
    {
      if init.Some? {
        EnsureOpenBlock();
        Build(Exec(init.value));
      }
    }

    method CloseFor(n: nat, inc: Option<nat>)
      modifies this
      ensures View() == ForClose(old(View()), n, inc)
    {
      hide Emit, Fall, PopLoop, Position;
      LoopPop();
      BranchIfOpen(n + 2);
      PositionAtEnd(n + 2);
      if inc.Some? { Build(Exec(inc.value)); }
      BranchIfOpen(n);
      PositionAtEnd(n + 3);
    }

    method CodegenCase(s: Stmt)
      requires s.Case?
      modifies this
      ensures View() == Lower(old(View()), s)
      decreases s, 0
    {
      var binding := FindSwitchCaseBinding(s.id);
      if binding.None? || binding.value.block.None? { return; }
      var b := binding.value.block.value;
      if cur != b { BranchIfOpen(b); }
      PositionAtEnd(b);
      CodegenStatementList(s.caseBody);
    }

    method CodegenLabel(s: Stmt)
      requires s.Label?
      modifies this
      ensures View() == Lower(old(View()), s)
      decreases s, 0
    {
      var b := EnsureLabelBlock(s.name);
      defined := defined + {s.name};
      if cur != b { BranchIfOpen(b); }
      PositionAtEnd(b);
      if s.labelled.Some? { CodegenNode(s.labelled.value); }
    }

    method CodegenGoto(name: string)
      modifies this
      ensures View() == GotoLabel(old(View()), name)
    {
      var b := EnsureLabelBlock(name);
      Build(Br(b));
      var sink := AppendBasicBlock(Plain);
      PositionAtEnd(sink);
      Build(Unreachable);
      var cont := AppendBasicBlock(Plain);
      PositionAtEnd(cont);
    }

    // ----- switch -----

    method CodegenSwitch(s: Stmt)
      requires s.Switch?
      modifies this
      ensures View() == Lower(old(View()), s)
      decreases s, 0
    {
      hide SwitchOpen, SwitchClose;
      var cases := CollectSwitchCases(s.cases);
      var end := OpenSwitch(s.cond, s.integral, cases);
      CodegenSwitchBody(s.cases);
      CloseSwitch(end);
    }

    method OpenSwitch(cond: nat, integral: bool, cases: seq<CaseInfo>) returns (end: nat)
      modifies this
      ensures View() == SwitchOpen(old(View()), cond, integral, cases) && end == old(|blocks|)
    {
      Build(Eval(cond));
      var dflt;
      end, dflt := BuildSwitchBlocks(cases);
      var entries := CaseEntries(cases, end + 1);
      hide Emit, Dispatch, SwitchBlocks, Table, Constants, Bindings, Default;
      switchFrames := [Bindings(cases, end + 1, if Default(cases).Some? then Some(dflt) else None)] + switchFrames;
      LoopPush(end, None);
      BuildDispatch(entries, integral, dflt);
    }

    /** The end block, one block per constant, and the default's block when there is one. */
    method BuildSwitchBlocks(cases: seq<CaseInfo>) returns (end: nat, dflt: nat)
      modifies this
      ensures View() == SwitchBlocks(old(View()), cases)
      ensures end == old(|blocks|) && dflt == SwitchDefault(cases, end)
    {
      end := AppendBasicBlock(Plain);
      AppendCaseBlocks(Constants(cases));
      dflt := end;
      if Default(cases).Some? { dflt := AppendBasicBlock(ForCase(Default(cases).value)); }
    }

    method CloseSwitch(end: nat)
      modifies this
      ensures View() == SwitchClose(old(View()), end)
    {
      BranchIfOpen(end);
      LoopPop();
      if switchFrames != [] { switchFrames := switchFrames[1..]; }
      PositionAtEnd(end);
    }

    method CodegenSwitchBody(ss: Stmts)
      modifies this
      ensures View() == LowerTop(old(View()), ss)
      decreases ss
    {
      var rest := ss;
      while rest.Cons?
        invariant rest == ss || rest < ss
        invariant LowerTop(View(), rest) == LowerTop(old(View()), ss)
        decreases rest
      {
        if !BlockTerminated() || CanReopen(rest.head) || ContainsOwnedCase(rest.head) {
          CodegenNode(rest.head);
        }
        rest := rest.tail;
      }
    }

    method AppendCaseBlocks(ks: seq<CaseInfo>)
      modifies this
      ensures View() == AppendCases(old(View()), ks) && |blocks| == old(|blocks|) + |ks|
    {
      var i := 0;
      while i < |ks|
        invariant 0 <= i <= |ks| && |blocks| == old(|blocks|) + i
        invariant AppendCases(View(), ks[i..]) == AppendCases(old(View()), ks)
      {
        var b := AppendBasicBlock(ForCase(ks[i].id));
        assert ks[i..][1..] == ks[i + 1..];
        i := i + 1;
      }
    }

    /** One switch instruction for dense constants, else a chain of comparisons. */
    method BuildDispatch(t: seq<(int, nat)>, integral: bool, dflt: nat)
      modifies this
      ensures View() == Dispatch(old(View()), t, integral, dflt)
    {
      var dense := IsDense(t, integral);
      if dense {
        Build(SwitchBr(t, dflt));
      } else {
        var i := 0;
        while i < |t|
          invariant 0 <= i <= |t|
          invariant CompareChain(View(), t[i..], dflt) == CompareChain(old(View()), t, dflt)
        {
          var next := AppendBasicBlock(Plain);
          Build(CmpBr(t[i].0, t[i].1, next));
          PositionAtEnd(next);
          assert t[i..][1..] == t[i + 1..];
          i := i + 1;
        }
        Build(Br(dflt));
      }
    }
  }

  /** The case nodes of a switch body in source order, added one by one to a list. */
  method CollectSwitchCases(ss: Stmts) returns (list: seq<CaseInfo>)
    ensures list == CollectAll(ss)
  {
    list := CollectList(ss, []);
  }

  method CollectList(ss: Stmts, list: seq<CaseInfo>) returns (r: seq<CaseInfo>)
    ensures r == list + CollectAll(ss)
    decreases ss
  {
    r := list;
    var rest := ss;
    while rest.Cons?
      invariant rest == ss || rest < ss
      invariant r + CollectAll(rest) == list + CollectAll(ss)
      decreases rest
    {
      var before, cs := r, CollectAll(rest.tail);
      r := CollectNode(rest.head, r);
      assert before + (Collect(rest.head) + cs) == r + cs;
      rest := rest.tail;
    }
  }

  method CollectNode(s: Stmt, list: seq<CaseInfo>) returns (r: seq<CaseInfo>)
    ensures r == list + Collect(s)
    decreases s
  {
    r := list;
    match s
    case Case(id, value, body) =>
      r := CollectList(body, r + [CaseInfo(id, value)]);
    case Compound(body) => r := CollectList(body, r);
    case If(_, thn, els) =>
      r := CollectNode(thn, r);
      if els.Some? { r := CollectNode(els.value, r); }
    case While(_, body, _) => r := CollectNode(body, r);
    case For(_, _, _, body) => r := CollectNode(body, r);
    case Label(_, labelled) => if labelled.Some? { r := CollectNode(labelled.value, r); }
    case _ =>
  }

  /** The constants with the numbers their blocks will get. */
  method CaseEntries(cs: seq<CaseInfo>, next: nat) returns (t: seq<(int, nat)>)
    ensures (forall i :: 0 <= i < |Constants(cs)| ==> Constants(cs)[i].value.Some?) && t == Table(Constants(cs), next)
  {
    hide Constants;
    ConstantsHaveValues(cs);
    var ks := Constants(cs);
    t := [];
    var i := 0;
    while i < |ks|
      invariant 0 <= i <= |ks|
      invariant t + Table(ks[i..], next + i) == Table(ks, next)
    {
      t := t + [(ks[i].value.value, next + i)];
      assert ks[i..][1..] == ks[i + 1..];
      i := i + 1;
    }
  }

  method IsDense(t: seq<(int, nat)>, integral: bool) returns (dense: bool)
    ensures dense == Dense(t, integral)
  {
    dense := false;
    if |t| > 0 {
      var lo, hi, i := t[0].0, t[0].0, 1;
      while i < |t|
        invariant 1 <= i <= |t|
        invariant lo == Min(t[..i]) && hi == Max(t[..i])
      {
        assert t[..i + 1][..i] == t[..i];
        if t[i].0 < lo { lo := t[i].0; }
        if t[i].0 > hi { hi := t[i].0; }
        i := i + 1;
      }
      assert t[..i] == t;
      var span := Wrap64(hi - lo + 1);
      dense := integral && span > 0 && span <= 2 * |t|;
    }
  }
}
