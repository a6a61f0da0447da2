/** Every statement's lowering keeps the invariant of module `WellFormed`. */
module LoweringKeeps {
  import opened Options
  import opened Ast
  import opened Cfg
  import opened Lowering
  import opened WellFormed

  /** What lowering a statement with jump targets `targets` (`open` of them reachable from outside)
      owes its caller. */
  ghost predicate Kept(g: Gen, h: Gen, joins: set<nat>, done: set<Tag>, nested: set<Tag>) {
    && Inv(h, joins, done)
    && Step(g, h, nested)
    && h.loops == g.loops
    && h.frames == g.frames
  }

  /** `h` grew out of `g`, making blocks for no cases outside `nested`. */
  ghost predicate Step(g: Gen, h: Gen, nested: set<Tag>) {
    Grows(g, h) && NewCasesIn(g, h, nested)
  }

  lemma {:induction false} StepTrans(g: Gen, h: Gen, k: Gen, a: set<Tag>, b: set<Tag>, c: set<Tag>)
    requires Step(g, h, a) && Step(h, k, b) && a <= c && b <= c
    ensures Step(g, k, c)
  {
    GrowsTrans(g, h, k);
    NewCasesTrans(g, h, k, a, b);
  }

  lemma {:induction false} StepSame(g: Gen, h: Gen, k: Gen, a: set<Tag>)
    requires Step(g, h, a) && k.blocks == h.blocks && k.labels == h.labels
    ensures Step(g, k, a)
  {}

  lemma {:induction false} GrowsTrans(g: Gen, h: Gen, k: Gen)
    requires Grows(g, h) && Grows(h, k)
    ensures Grows(g, k)
  {
    ExtendsTrans(g.blocks, h.blocks, k.blocks);
  }

  lemma {:induction false} NewCasesTrans(g: Gen, h: Gen, k: Gen, a: set<Tag>, b: set<Tag>)
    requires Grows(g, h) && Grows(h, k) && NewCasesIn(g, h, a) && NewCasesIn(h, k, b)
    ensures NewCasesIn(g, k, a + b)
  {
    forall i | |g.blocks| <= i < |k.blocks| && k.blocks[i].tag.ForCase? ensures k.blocks[i].tag in a + b {
      if i < |h.blocks| { assert h.blocks[i].tag == k.blocks[i].tag; }
    }
  }

  lemma {:induction false} ReadyAfter(
    g: Gen, h: Gen, done: set<Tag>, done': set<Tag>, nested: set<Tag>, targets: set<Tag>, open: set<Tag>)
    requires Ready(g, done, targets, open) && Step(g, h, nested)
    requires h.frames == g.frames && targets !! nested && targets !! done'
    ensures Ready(h, done', targets, open)
  {
    forall t | t in targets && t.ForCase? && t !in open ensures TagFree(h, t) {
      assert TagFree(g, t);
      forall b | 0 <= b < |h.blocks| ensures h.blocks[b].tag != t {
        if b < |g.blocks| { assert h.blocks[b].tag == g.blocks[b].tag; }
      }
    }
    forall t | t in open && t.ForCase? ensures Bound(h, t) { assert Bound(g, t); }
  }

  /** Counting targets that have no block as opened changes nothing. */
  lemma {:induction false} DoneMore(g: Gen, joins: set<nat>, done: set<Tag>, more: set<Tag>)
    requires Inv(g, joins, done)
    requires forall t :: t in more ==> t.ForCase? && TagFree(g, t)
    ensures Inv(g, joins, done + more)
  {
    forall b | 0 <= b < |g.blocks|
      ensures Pending(g, joins, done + more, b) == Pending(g, joins, done, b)
    {
    }
  }

  // ----- if -----

  lemma {:induction false} IfOpenKeeps(g: Gen, cond: nat, hasElse: bool, joins: set<nat>, done: set<Tag>)
    requires Inv(g, joins, done) && Live(g)
    ensures var h, n := IfOpen(g, cond, hasElse), |g.blocks|;
      && Kept(g, h, joins + (if hasElse then {n + 1, n + 2} else {n + 1}), done, {})
      && Live(h) && h.cur == n && |h.blocks| == n + (if hasElse then 3 else 2)
      && h.blocks[n].code == []
      && h.blocks[g.cur].code == g.blocks[g.cur].code + [Eval(cond), CondBr(n, n + 1)]
  {
    hide BlocksOk, UniqueTags, LabelsOk, Extends, Append;
    var n := |g.blocks|;
    EmitKeeps(g, Eval(cond), joins, done);
    var g0 := Emit(g, Eval(cond));
    var j3 := joins + (if hasElse then {n, n + 1, n + 2} else {n, n + 1});
    var g3 := IfBlocks(g0, hasElse, joins, done);
    EmitKeeps(g3, CondBr(n, n + 1), j3, done);
    var g4 := Emit(g3, CondBr(n, n + 1));
    PositionKeeps(g4, n, j3, done);
    assert j3 - {n} == joins + (if hasElse then {n + 1, n + 2} else {n + 1});
    GrowsTrans(g, g0, g3);
    GrowsTrans(g, g3, g4);
  }

  lemma {:induction false} IfBlocks(g: Gen, hasElse: bool, joins: set<nat>, done: set<Tag>) returns (h: Gen)
    requires Inv(g, joins, done)
    ensures h == if hasElse then Append(Append(Append(g, Plain), Plain), Plain) else Append(Append(g, Plain), Plain)
    ensures var n := |g.blocks|;
      && Kept(g, h, joins + (if hasElse then {n, n + 1, n + 2} else {n, n + 1}), done, {})
      && |h.blocks| == n + (if hasElse then 3 else 2) && h == g.(blocks := h.blocks)
      && (forall b :: 0 <= b < n ==> h.blocks[b] == g.blocks[b])
  {
    hide BlocksOk, UniqueTags, LabelsOk;
    var n := |g.blocks|;
    if hasElse {
      ThreeBlocks(g, joins, done);
      h := Append(Append(Append(g, Plain), Plain), Plain);
    } else {
      AppendKeeps(g, joins, done);
      AppendKeeps(Append(g, Plain), joins + {n}, done);
      assert joins + {n} + {n + 1} == joins + {n, n + 1};
      h := Append(Append(g, Plain), Plain);
    }
  }

  /** Ends one branch and opens a reserved block. */
  lemma {:induction false} JoinKeeps(g: Gen, to: nat, at: nat, joins: set<nat>, done: set<Tag>)
    requires Inv(g, joins, done) && at in joins
    ensures var h := Position(Fall(g, to), at);
      Kept(g, h, joins - {at}, done, {}) && Live(h) && h.cur == at && h.blocks[at].code == [] &&
      |h.blocks| == |g.blocks| && (Live(g) ==> h.blocks[g.cur].code == g.blocks[g.cur].code + [Br(to)])
  {
    hide BlocksOk, UniqueTags, LabelsOk;
    FallKeeps(g, to, joins, done);
    PositionKeeps(Fall(g, to), at, joins, done);
  }

  // ----- loops -----

  lemma {:induction false} ThreeBlocks(g: Gen, joins: set<nat>, done: set<Tag>)
    requires Inv(g, joins, done)
    ensures var h, n := Append(Append(Append(g, Plain), Plain), Plain), |g.blocks|;
      Kept(g, h, joins + {n, n + 1, n + 2}, done, {}) && |h.blocks| == n + 3 && h.cur == g.cur &&
      (forall b :: 0 <= b < n ==> h.blocks[b] == g.blocks[b])
  {
    hide BlocksOk, UniqueTags, LabelsOk;
    var n := |g.blocks|;
    AppendKeeps(g, joins, done);
    AppendKeeps(Append(g, Plain), joins + {n}, done);
    AppendKeeps(Append(Append(g, Plain), Plain), joins + {n} + {n + 1}, done);
    assert joins + {n} + {n + 1} + {n + 2} == joins + {n, n + 1, n + 2};
  }

  lemma {:induction false} StacksAside(g: Gen, h: Gen, joins: set<nat>, done: set<Tag>)
    requires Inv(g, joins, done) && h == g.(loops := h.loops, frames := h.frames)
    ensures Inv(h, joins, done)
  {
    assert forall b :: 0 <= b < |g.blocks| ==> Pending(h, joins, done, b) == Pending(g, joins, done, b);
  }

  /** Fills the loop's test block and goes on at `at`. */
  lemma {:induction false} TestKeeps(g: Gen, test: Instr, yes: nat, no: nat, at: nat, joins: set<nat>, done: set<Tag>)
    requires Inv(g, joins, done) && Live(g) && at in joins && !test.IsTerminator() && g.blocks[g.cur].code == []
    ensures var h := Position(Emit(Emit(g, test), CondBr(yes, no)), at);
      && Kept(g, h, joins - {at}, done, {}) && Live(h) && h.cur == at && |h.blocks| == |g.blocks|
      && h.blocks[at].code == [] && h.blocks[g.cur].code == [test, CondBr(yes, no)]
      && (forall b :: 0 <= b < |g.blocks| && b != g.cur ==> h.blocks[b] == g.blocks[b])
  {
    hide BlocksOk, UniqueTags, LabelsOk;
    EmitKeeps(g, test, joins, done);
    var g1 := Emit(g, test);
    EmitKeeps(g1, CondBr(yes, no), joins, done);
    var g2 := Emit(g1, CondBr(yes, no));
    PositionKeeps(g2, at, joins, done);
    GrowsTrans(g, g1, g2);
  }

  lemma {:induction false} WhileOpenKeeps(g: Gen, cond: nat, joins: set<nat>, done: set<Tag>)
    requires Inv(g, joins, done)
    ensures var h, n := WhileOpen(g, cond), |g.blocks|;
      && Kept(g, h.(loops := g.loops), joins + {n + 2}, done, {})
      && Live(h) && h.cur == n + 1 && |h.blocks| == n + 3 && h.blocks[n + 1].code == []
      && h.blocks[n].code == [Eval(cond), CondBr(n + 1, n + 2)]
      && (Live(g) ==> h.blocks[g.cur].code == g.blocks[g.cur].code + [Br(n)])
      && h.loops == g.loops + [LoopTarget(n + 2, Some(n))]
  {
    hide BlocksOk, UniqueTags, LabelsOk;
    var n := |g.blocks|;
    ThreeBlocks(g, joins, done);
    var g1 := Append(Append(Append(g, Plain), Plain), Plain);
    var j := joins + {n, n + 1, n + 2};
    JoinKeeps(g1, n, n, j, done);
    var g2 := Position(Fall(g1, n), n);
    TestKeeps(g2, Eval(cond), n + 1, n + 2, n + 1, j - {n}, done);
    var g3 := Position(Emit(Emit(g2, Eval(cond)), CondBr(n + 1, n + 2)), n + 1);
    assert j - {n} - {n + 1} == joins + {n + 2};
    GrowsTrans(g, g1, g2);
    GrowsTrans(g, g2, g3);
    StacksAside(g3, WhileOpen(g, cond).(loops := g.loops), joins + {n + 2}, done);
  }

  lemma {:induction false} DoOpenKeeps(g: Gen, joins: set<nat>, done: set<Tag>)
    requires Inv(g, joins, done)
    ensures var h, n := DoOpen(g), |g.blocks|;
      && Kept(g, h.(loops := g.loops), joins + {n, n + 2}, done, {})
      && Live(h) && h.cur == n + 1 && |h.blocks| == n + 3 && h.blocks[n + 1].code == []
      && (Live(g) ==> h.blocks[g.cur].code == g.blocks[g.cur].code + [Br(n + 1)])
      && h.loops == g.loops + [LoopTarget(n + 2, Some(n))]
  {
    hide BlocksOk, UniqueTags, LabelsOk;
    var n := |g.blocks|;
    ThreeBlocks(g, joins, done);
    var g1 := Append(Append(Append(g, Plain), Plain), Plain);
    var j := joins + {n, n + 1, n + 2};
    JoinKeeps(g1, n + 1, n + 1, j, done);
    assert j - {n + 1} == joins + {n, n + 2};
    assert Inv(Position(Fall(g1, n + 1), n + 1).(loops := g.loops), joins + {n, n + 2}, done);
  }

  lemma {:induction false} DoCloseKeeps(g: Gen, n: nat, cond: nat, joins: set<nat>, done: set<Tag>)
    requires Inv(g, joins + {n, n + 2}, done) && n !in joins && n + 2 !in joins && g.loops != []
    ensures var h := DoClose(g, n, cond);
      && Kept(PopLoop(g), h, joins, done, {})
      && Live(h) && h.cur == n + 2 && h.blocks[n + 2].code == []
      && h.blocks[n].code == [Eval(cond), CondBr(n + 1, n + 2)]
      && (Live(g) ==> h.blocks[g.cur].code == g.blocks[g.cur].code + [Br(n)])
  {
    hide BlocksOk, UniqueTags, LabelsOk;
    var p := PopLoop(g);
    var j := joins + {n, n + 2};
    StacksAside(g, p, j, done);
    JoinKeeps(p, n, n, j, done);
    var g1 := Position(Fall(p, n), n);
    TestKeeps(g1, Eval(cond), n + 1, n + 2, n + 2, j - {n}, done);
    GrowsTrans(p, g1, DoClose(g, n, cond));
    assert j - {n} - {n + 2} == joins;
  }

  lemma {:induction false} ForInitKeeps(g: Gen, init: Option<nat>, joins: set<nat>, done: set<Tag>)
    requires Inv(g, joins, done)
    ensures var h := ForInit(g, init);
      && Kept(g, h, joins, done, {})
      && (init.None? ==> h == g)
      && (init.Some? ==> Live(h))
      && (init.Some? && Live(g) ==> h == Emit(g, Exec(init.value)))
  {
    hide BlocksOk, UniqueTags, LabelsOk;
    if init.Some? {
      FreshIfTerminatedKeeps(g, joins, done);
      var f := FreshIfTerminated(g);
      EmitKeeps(f, Exec(init.value), joins, done);
      GrowsTrans(g, f, Emit(f, Exec(init.value)));
    }
  }

  /** The initializer or the increment of a loop, if any, and the branch to its test. */
  function OpThenBranch(op: Option<nat>, n: nat): seq<Instr> {
    (match op case None => [] case Some(i) => [Exec(i)]) + [Br(n)]
  }

  lemma {:induction false} ForOpenKeeps(g: Gen, init: Option<nat>, test: Option<nat>, joins: set<nat>, done: set<Tag>)
    requires Inv(g, joins, done)
    ensures var h, n := ForOpen(g, init, test), |g.blocks|;
      && Kept(g, h.(loops := g.loops), joins + {n + 2, n + 3}, done, {})
      && Live(h) && h.cur == n + 1 && |h.blocks| >= n + 4 && h.blocks[n + 1].code == []
      && h.blocks[n].code == [TestInstr(test), CondBr(n + 1, n + 3)]
      && (Live(g) ==> h.blocks[g.cur].code == g.blocks[g.cur].code + OpThenBranch(init, n))
      && h.loops == g.loops + [LoopTarget(n + 3, Some(n + 2))]
  {
    hide BlocksOk, UniqueTags, LabelsOk, Extends, Append, Fall, ForInit, OpThenBranch;
    var n := |g.blocks|;
    var j := joins + {n, n + 1, n + 2, n + 3};
    var g2 := ForStart(g, init, joins, done);
    TestKeeps(g2, TestInstr(test), n + 1, n + 3, n + 1, j - {n}, done);
    var g3 := Position(Emit(Emit(g2, TestInstr(test)), CondBr(n + 1, n + 3)), n + 1);
    assert j - {n} - {n + 1} == joins + {n + 2, n + 3};
    GrowsTrans(g, g2, g3);
    StacksAside(g3, ForOpen(g, init, test).(loops := g.loops), joins + {n + 2, n + 3}, done);
  }

  /** The initializer runs in the current block, which then falls into the test block. */
  lemma {:induction false} ForStart(g: Gen, init: Option<nat>, joins: set<nat>, done: set<Tag>) returns (h: Gen)
    requires Inv(g, joins, done)
    ensures var n := |g.blocks|;
      && h == Position(Fall(ForInit(Append(Append(Append(Append(g, Plain), Plain), Plain), Plain), init), n), n)
      && Kept(g, h, joins + {n, n + 1, n + 2, n + 3} - {n}, done, {})
      && Live(h) && h.cur == n && |h.blocks| >= n + 4 && h.blocks[n].code == []
      && (Live(g) ==> h.blocks[g.cur].code == g.blocks[g.cur].code + OpThenBranch(init, n))
  {
    hide BlocksOk, UniqueTags, LabelsOk;
    var n := |g.blocks|;
    ThreeBlocks(g, joins, done);
    var g0 := Append(Append(Append(g, Plain), Plain), Plain);
    AppendKeeps(g0, joins + {n, n + 1, n + 2}, done);
    var g1 := Append(g0, Plain);
    var j := joins + {n, n + 1, n + 2, n + 3};
    assert joins + {n, n + 1, n + 2} + {n + 3} == j;
    GrowsTrans(g, g0, g1);
    ForInitKeeps(g1, init, j, done);
    var g2 := ForInit(g1, init);
    GrowsTrans(g, g1, g2);
    JoinKeeps(g2, n, n, j, done);
    h := Position(Fall(g2, n), n);
    GrowsTrans(g, g2, h);
    if Live(g) && init.Some? {
      assert h.blocks[g.cur].code == (g.blocks[g.cur].code + [Exec(init.value)]) + [Br(n)];
    }
  }

  lemma {:induction false} ForCloseKeeps(g: Gen, n: nat, inc: Option<nat>, joins: set<nat>, done: set<Tag>)
    requires Inv(g, joins + {n + 2, n + 3}, done) && n + 2 !in joins && n + 3 !in joins && g.loops != []
    ensures var h := ForClose(g, n, inc);
      && Kept(PopLoop(g), h, joins, done, {})
      && Live(h) && h.cur == n + 3 && h.blocks[n + 3].code == []
      && h.blocks[n + 2].code == OpThenBranch(inc, n)
      && (Live(g) ==> h.blocks[g.cur].code == g.blocks[g.cur].code + [Br(n + 2)])
  {
    hide BlocksOk, UniqueTags, LabelsOk;
    var p := PopLoop(g);
    var j := joins + {n + 2, n + 3};
    StacksAside(g, p, j, done);
    JoinKeeps(p, n + 2, n + 2, j, done);
    var g1 := Position(Fall(p, n + 2), n + 2);
    if inc.Some? { EmitKeeps(g1, Exec(inc.value), j - {n + 2}, done); }
    var g2 := (match inc case None => g1 case Some(op) => Emit(g1, Exec(op)));
    JoinKeeps(g2, n, n + 3, j - {n + 2}, done);
    assert j - {n + 2} - {n + 3} == joins;
    if Live(g) { assert ForClose(g, n, inc).blocks[g.cur] == g1.blocks[g.cur]; }
  }

  // ----- switch -----

  lemma {:induction false} AppendCasesKeeps(g: Gen, ks: seq<CaseInfo>, joins: set<nat>, done: set<Tag>)
    requires Inv(g, joins, done) && DistinctIds(ks)
    requires forall i :: 0 <= i < |ks| ==> ForCase(ks[i].id) !in done && TagFree(g, ForCase(ks[i].id))
    ensures var h := AppendCases(g, ks);
      && Inv(h, joins, done) && h == g.(blocks := h.blocks)
      && |h.blocks| == |g.blocks| + |ks|
      && (forall b :: 0 <= b < |g.blocks| ==> h.blocks[b] == g.blocks[b])
      && (forall i :: 0 <= i < |ks| ==> h.blocks[|g.blocks| + i] == Block(ForCase(ks[i].id), []))
    decreases |ks|
  {
    hide BlocksOk, UniqueTags, LabelsOk;
    if ks != [] {
      var t := ForCase(ks[0].id);
      AppendTagKeeps(g, t, Append(g, t), joins, done);
      forall i | 0 <= i < |ks[1..]| ensures TagFree(Append(g, t), ForCase(ks[1..][i].id)) {
        assert TagFree(g, ForCase(ks[i + 1].id)) && ks[0].id != ks[i + 1].id;
      }
      AppendCasesKeeps(Append(g, t), ks[1..], joins, done);
      var h := AppendCases(g, ks);
      forall i | 0 <= i < |ks| ensures h.blocks[|g.blocks| + i] == Block(ForCase(ks[i].id), []) {
        if i > 0 { assert ks[1..][i - 1] == ks[i]; }
      }
    }
  }

  lemma {:induction false} ConstantsDistinct(cs: seq<CaseInfo>)
    requires DistinctIds(cs)
    ensures DistinctIds(Constants(cs))
    ensures forall j :: 0 <= j < |Constants(cs)| ==> ForCase(Constants(cs)[j].id) in CaseTags(cs)
  {
    var ks := Constants(cs);
    forall a, b | 0 <= a < b < |ks| ensures ks[a].id != ks[b].id {
      var i := ConstantsFrom(cs, a);
      var j := ConstantsFrom(cs, b);
      if i < j { assert cs[i].id != cs[j].id; }
      if j < i { assert cs[j].id != cs[i].id; }
    }
    forall j | 0 <= j < |ks| ensures ForCase(ks[j].id) in CaseTags(cs) {
      var i := ConstantsFrom(cs, j);
    }
  }

  /** One block per case node, under the numbers the bindings give. */
  ghost predicate SwitchLayout(blocks: seq<Block>, cs: seq<CaseInfo>, end: nat) {
    && (forall j :: 0 <= j < |Constants(cs)| ==>
          end + 1 + j < |blocks| && blocks[end + 1 + j].tag == ForCase(Constants(cs)[j].id))
    && (Default(cs).Some? ==>
          end + 1 + |Constants(cs)| < |blocks| &&
          blocks[end + 1 + |Constants(cs)|].tag == ForCase(Default(cs).value))
  }

  lemma {:induction false} DefaultNotConstant(cs: seq<CaseInfo>, j: nat)
    requires DistinctIds(cs) && Default(cs).Some? && j < |Constants(cs)|
    ensures Constants(cs)[j].id != Default(cs).value
    ensures ForCase(Default(cs).value) in CaseTags(cs)
  {
    var i := DefaultIsNode(cs);
    var k := ConstantsFrom(cs, j);
    assert k != i;
  }

  lemma {:induction false} DefaultTag(cs: seq<CaseInfo>)
    requires Default(cs).Some?
    ensures ForCase(Default(cs).value) in CaseTags(cs)
  {
    var i := DefaultIsNode(cs);
  }

  /** The end block and the constants' blocks. */
  lemma {:induction false} ConstantBlocksKeep(g: Gen, cs: seq<CaseInfo>, joins: set<nat>, done: set<Tag>)
    requires Inv(g, joins, done) && DistinctIds(cs)
    requires forall t :: t in CaseTags(cs) ==> t !in done && TagFree(g, t)
    ensures var h, end := AppendCases(Append(g, Plain), Constants(cs)), |g.blocks|;
      && Inv(h, joins + {end}, done) && h == g.(blocks := h.blocks)
      && |h.blocks| == end + 1 + |Constants(cs)|
      && (forall b :: 0 <= b < end ==> h.blocks[b] == g.blocks[b])
      && h.blocks[end].tag == Plain
      && (forall j :: 0 <= j < |Constants(cs)| ==> h.blocks[end + 1 + j].tag == ForCase(Constants(cs)[j].id))
  {
    hide BlocksOk, UniqueTags, LabelsOk;
    var ks := Constants(cs);
    AppendKeeps(g, joins, done);
    var g1 := Append(g, Plain);
    ConstantsDistinct(cs);
    forall i | 0 <= i < |ks| ensures TagFree(g1, ForCase(ks[i].id)) { assert TagFree(g, ForCase(ks[i].id)); }
    AppendCasesKeeps(g1, ks, joins + {|g.blocks|}, done);
    var h := AppendCases(g1, ks);
    forall b | 0 <= b < |g.blocks| ensures h.blocks[b] == g.blocks[b] { assert h.blocks[b] == g1.blocks[b]; }
  }

  lemma {:induction false} SwitchBlocksKeeps(g: Gen, cs: seq<CaseInfo>, joins: set<nat>, done: set<Tag>)
    requires Inv(g, joins, done) && DistinctIds(cs) && DistinctCases(cs)
    requires forall t :: t in CaseTags(cs) ==> t !in done && TagFree(g, t)
    ensures var h, end := SwitchBlocks(g, cs), |g.blocks|;
      && Inv(h, joins + {end}, done) && h == g.(blocks := h.blocks)
      && |h.blocks| == end + 1 + |Constants(cs)| + (if Default(cs).Some? then 1 else 0)
      && (forall b :: 0 <= b < end ==> h.blocks[b] == g.blocks[b])
      && h.blocks[end].tag == Plain
      && SwitchLayout(h.blocks, cs, end)
  {
    hide BlocksOk, UniqueTags, LabelsOk, Constants, Default;
    var end := |g.blocks|;
    ConstantBlocksKeep(g, cs, joins, done);
    var g2 := AppendCases(Append(g, Plain), Constants(cs));
    if Default(cs).Some? {
      var t := ForCase(Default(cs).value);
      DefaultTag(cs);
      forall b | 0 <= b < |g2.blocks| ensures g2.blocks[b].tag != t {
        assert TagFree(g, t);
        if b > end {
          DefaultNotConstant(cs, b - end - 1);
          assert g2.blocks[end + 1 + (b - end - 1)].tag == ForCase(Constants(cs)[b - end - 1].id);
        }
      }
      AppendTagKeeps(g2, t, SwitchBlocks(g, cs), joins + {end}, done);
    }
  }

  lemma {:induction false} SwitchBlocksNew(g: Gen, h: Gen, cs: seq<CaseInfo>, end: nat)
    requires |g.blocks| == end && DistinctIds(cs)
    requires |h.blocks| == end + 1 + |Constants(cs)| + (if Default(cs).Some? then 1 else 0)
    requires h.blocks[end].tag == Plain && SwitchLayout(h.blocks, cs, end)
    ensures NewCasesIn(g, h, CaseTags(cs))
  {
    ConstantsDistinct(cs);
    if Default(cs).Some? { DefaultTag(cs); }
    forall b | end <= b < |h.blocks| && h.blocks[b].tag.ForCase? ensures h.blocks[b].tag in CaseTags(cs) {
      if end < b <= end + |Constants(cs)| {
        var j := b - end - 1;
        assert h.blocks[end + 1 + j].tag == ForCase(Constants(cs)[j].id);
      }
    }
  }

  lemma {:induction false} CompareChainKeeps(g: Gen, t: seq<(int, nat)>, dflt: nat, joins: set<nat>, done: set<Tag>)
    requires Inv(g, joins, done) && Live(g)
    ensures Kept(g, CompareChain(g, t, dflt), joins, done, {}) && !Live(CompareChain(g, t, dflt))
    decreases |t|
  {
    hide BlocksOk, UniqueTags, LabelsOk;
    if t == [] {
      EmitKeeps(g, Br(dflt), joins, done);
    } else {
      var n := |g.blocks|;
      AppendKeeps(g, joins, done);
      var g1 := Append(g, Plain);
      EmitKeeps(g1, CmpBr(t[0].0, t[0].1, n), joins + {n}, done);
      var g2 := Emit(g1, CmpBr(t[0].0, t[0].1, n));
      PositionKeeps(g2, n, joins + {n}, done);
      assert joins + {n} - {n} == joins;
      var g3 := Position(g2, n);
      GrowsTrans(g, g1, g2);
      CompareChainKeeps(g3, t[1..], dflt, joins, done);
      GrowsTrans(g, g3, CompareChain(g, t, dflt));
    }
  }

  lemma {:induction false} DispatchKeeps(
    g: Gen, t: seq<(int, nat)>, integral: bool, dflt: nat, joins: set<nat>, done: set<Tag>)
    requires Inv(g, joins, done) && Live(g)
    ensures Kept(g, Dispatch(g, t, integral, dflt), joins, done, {}) && !Live(Dispatch(g, t, integral, dflt))
  {
    hide BlocksOk, UniqueTags, LabelsOk;
    if Dense(t, integral) { EmitKeeps(g, SwitchBr(t, dflt), joins, done); }
    else { CompareChainKeeps(g, t, dflt, joins, done); }
  }

  /** The state in which the dispatch code is emitted. */
  function SwitchReady(g: Gen, cond: nat, cs: seq<CaseInfo>): Gen {
    var end := |g.blocks|;
    var g1 := SwitchBlocks(Emit(g, Eval(cond)), cs);
    PushLoop(g1.(frames := [SwitchFrame(cs, end)] + g1.frames), end, None)
  }

  lemma {:induction false} SwitchReadyKeeps(g: Gen, cond: nat, cs: seq<CaseInfo>, joins: set<nat>, done: set<Tag>)
    requires Inv(g, joins, done) && Live(g) && DistinctIds(cs) && DistinctCases(cs)
    requires forall t :: t in CaseTags(cs) ==> t !in done && TagFree(g, t)
    ensures var h, end := SwitchReady(g, cond, cs), |g.blocks|;
      && Inv(h, joins + {end}, done) && Grows(g, h) && NewCasesIn(g, h, CaseTags(cs))
      && Live(h) && h.cur == g.cur && h.blocks[g.cur].code == g.blocks[g.cur].code + [Eval(cond)]
      && h.loops == g.loops + [LoopTarget(end, None)]
      && h.frames == [SwitchFrame(cs, end)] + g.frames
      && |h.blocks| > end
      && SwitchLayout(h.blocks, cs, end)
  {
    hide BlocksOk, UniqueTags, LabelsOk;
    EmitKeeps(g, Eval(cond), joins, done);
    var g0 := Emit(g, Eval(cond));
    forall t | t in CaseTags(cs) ensures TagFree(g0, t) { assert TagFree(g, t); }
    SwitchBlocksKeeps(g0, cs, joins, done);
    var g1 := SwitchBlocks(g0, cs);
    SwitchBlocksNew(g0, g1, cs, |g.blocks|);
    GrowsTrans(g, g0, g1);
    StacksAside(g1, SwitchReady(g, cond, cs), joins + {|g.blocks|}, done);
  }

  lemma {:induction false} SwitchBound(g: Gen, h: Gen, cs: seq<CaseInfo>, end: nat)
    requires DistinctIds(cs) && DistinctCases(cs)
    requires h.frames == [SwitchFrame(cs, end)] + g.frames
    requires SwitchLayout(h.blocks, cs, end)
    ensures forall t :: t in CaseTags(cs) ==> Bound(h, t)
  {
    forall t | t in CaseTags(cs) ensures Bound(h, t) {
      var i :| 0 <= i < |cs| && t == ForCase(cs[i].id);
      var d := if Default(cs).Some? then Some(end + 1 + |Constants(cs)|) else None;
      BindingsFind(cs, end + 1, d, i);
      assert h.frames[0] == SwitchFrame(cs, end);
      if cs[i].value.Some? {
        ConstantsIndex(cs, i);
      } else {
        NoDefault(cs, i);
        var k := DefaultIsNode(cs);
        assert k == i;
      }
    }
  }

  lemma {:induction false} SwitchOpenKeeps(
    g: Gen, cond: nat, integral: bool, cs: seq<CaseInfo>, joins: set<nat>, done: set<Tag>)
    requires Inv(g, joins, done) && Live(g) && DistinctIds(cs) && DistinctCases(cs)
    requires forall t :: t in CaseTags(cs) ==> t !in done && TagFree(g, t)
    ensures var h, end := SwitchOpen(g, cond, integral, cs), |g.blocks|;
      && Inv(h, joins + {end}, done) && Grows(g, h) && NewCasesIn(g, h, CaseTags(cs)) && !Live(h)
      && h.loops == g.loops + [LoopTarget(end, None)]
      && h.frames == [SwitchFrame(cs, end)] + g.frames
      && (forall t :: t in CaseTags(cs) ==> Bound(h, t))
      && |h.blocks| > end
  {
    hide BlocksOk, UniqueTags, LabelsOk;
    var end := |g.blocks|;
    SwitchReadyKeeps(g, cond, cs, joins, done);
    var g1 := SwitchReady(g, cond, cs);
    DispatchKeeps(g1, SwitchTable(cs, end), integral, SwitchDefault(cs, end), joins + {end}, done);
    var h := SwitchOpen(g, cond, integral, cs);
    GrowsTrans(g, g1, h);
    NewCasesTrans(g, g1, h, CaseTags(cs), {});
    assert CaseTags(cs) + {} == CaseTags(cs);
    SwitchBound(g, g1, cs, end);
    forall t | t in CaseTags(cs) ensures Bound(h, t) { assert Bound(g1, t); }
  }

  lemma {:induction false} SwitchCloseKeeps(g: Gen, end: nat, joins: set<nat>, done: set<Tag>)
    requires Inv(g, joins + {end}, done) && end !in joins && g.loops != [] && g.frames != []
    ensures var h := SwitchClose(g, end);
      && Inv(h, joins, done) && Step(g, h, {}) && |h.blocks| == |g.blocks|
      && Live(h) && h.cur == end && h.blocks[end].code == []
      && h.loops == g.loops[..|g.loops| - 1] && h.frames == g.frames[1..]
      && (Live(g) ==> h.blocks[g.cur].code == g.blocks[g.cur].code + [Br(end)])
  {
    hide BlocksOk, UniqueTags, LabelsOk;
    FallKeeps(g, end, joins + {end}, done);
    var f := Fall(g, end);
    var p := PopFrame(PopLoop(f));
    StacksAside(f, p, joins + {end}, done);
    PositionKeeps(p, end, joins + {end}, done);
    assert joins + {end} - {end} == joins;
  }

  // ----- labels and goto -----

  lemma {:induction false} EnsureLabelKeeps(g: Gen, name: string, joins: set<nat>, done: set<Tag>)
    requires Inv(g, joins, done)
    ensures var h := EnsureLabel(g, name);
      && Kept(g, h, joins, done, {}) && name in h.labels && h.labels[name] < |h.blocks|
      && h.blocks[h.labels[name]].tag == ForLabel(name)
      && h.cur == g.cur && h.blocks[g.cur] == g.blocks[g.cur] && h.defined == g.defined
  {
    if name !in g.labels {
      assert TagFree(g, ForLabel(name));
      assert ForLabel(name) !in done by { assert name !in g.defined; }
      AppendTagKeeps(g, ForLabel(name), EnsureLabel(g, name), joins, done);
    }
  }

  lemma {:induction false} LabelOpenKeeps(g: Gen, name: string, joins: set<nat>, done: set<Tag>)
    requires Inv(g, joins, done) && ForLabel(name) !in done
    ensures var h := LabelOpen(g, name);
      && Kept(g, h, joins, done + {ForLabel(name)}, {}) && Live(h)
      && h.blocks[h.cur] == Block(ForLabel(name), [])
      && (Live(g) ==> h.blocks[g.cur].code == g.blocks[g.cur].code + [Br(h.cur)])
  {
    hide BlocksOk, UniqueTags, LabelsOk;
    EnsureLabelKeeps(g, name, joins, done);
    var g1 := EnsureLabel(g, name);
    EnterKeeps(g1, g1.labels[name], LabelOpen(g, name), joins, done);
    GrowsTrans(g, g1, LabelOpen(g, name));
  }

  lemma {:induction false} GotoKeeps(g: Gen, name: string, joins: set<nat>, done: set<Tag>)
    requires Inv(g, joins, done) && Live(g)
    ensures var h := GotoLabel(g, name);
      && Kept(g, h, joins, done, {}) && Live(h) && h.blocks[h.cur].code == []
      && name in h.labels && h.labels[name] < |h.blocks| && h.blocks[h.labels[name]].tag == ForLabel(name)
      && h.blocks[g.cur].code == g.blocks[g.cur].code + [Br(h.labels[name])]
  {
    hide BlocksOk, UniqueTags, LabelsOk, Extends, Position;
    EnsureLabelKeeps(g, name, joins, done);
    var g1 := EnsureLabel(g, name);
    EmitKeeps(g1, Br(g1.labels[name]), joins, done);
    var g2 := Emit(g1, Br(g1.labels[name]));
    GrowsTrans(g, g1, g2);
    SinkKeeps(g2, joins, done);
    GrowsTrans(g, g2, GotoLabel(g, name));
  }

  /** After a terminated block: a block that ends at once, and an open one. */
  lemma {:induction false} SinkKeeps(g: Gen, joins: set<nat>, done: set<Tag>)
    requires Inv(g, joins, done) && !Live(g)
    ensures var n := |g.blocks|;
      var h := Position(Append(Emit(Position(Append(g, Plain), n), Unreachable), Plain), n + 1);
      && Inv(h, joins, done) && Grows(g, h) && Live(h) && h.blocks[h.cur].code == []
      && h == g.(blocks := h.blocks, cur := h.cur) && |h.blocks| == n + 2
      && h.blocks[n].tag == Plain && h.blocks[n + 1].tag == Plain
      && (forall b :: 0 <= b < n ==> h.blocks[b] == g.blocks[b])
  {
    hide BlocksOk, UniqueTags, LabelsOk, Extends;
    var n := |g.blocks|;
    AppendKeeps(g, joins, done);
    PositionKeeps(Append(g, Plain), n, joins + {n}, done);
    assert joins + {n} - {n} == joins;
    var g3 := Position(Append(g, Plain), n);
    EmitKeeps(g3, Unreachable, joins, done);
    var g4 := Emit(g3, Unreachable);
    GrowsTrans(g, g3, g4);
    AppendKeeps(g4, joins, done);
    PositionKeeps(Append(g4, Plain), n + 1, joins + {n + 1}, done);
    assert joins + {n + 1} - {n + 1} == joins;
    GrowsTrans(g, g4, Position(Append(g4, Plain), n + 1));
  }

  // ----- every statement -----

  lemma {:induction false} ContinueThroughSwitch(loops: seq<LoopTarget>, end: nat)
    ensures ContinueTarget(loops + [LoopTarget(end, None)]) == ContinueTarget(loops)
  {
    assert (loops + [LoopTarget(end, None)])[..|loops|] == loops;
  }

  ghost predicate Fits(g: Gen, joins: set<nat>, done: set<Tag>, targets: set<Tag>, open: set<Tag>) {
    Inv(g, joins, done) && Ready(g, done, targets, open)
  }

  ghost predicate ScopedIn(s: Stmt, loops: seq<LoopTarget>) {
    Scoped(s, BreakTarget(loops).Some?, ContinueTarget(loops).Some?)
  }

  ghost predicate ScopedAllIn(ss: Stmts, loops: seq<LoopTarget>) {
    ScopedAll(ss, BreakTarget(loops).Some?, ContinueTarget(loops).Some?)
  }

  /** The targets lowering opens. */
  function DoneBy(s: Stmt, live: bool): set<Tag> { Targets(s) - Lost(s, live) }
  function DoneByAll(ss: Stmts, live: bool): set<Tag> { TargetsAll(ss) - LostAll(ss, live) }
  function DoneByTop(ss: Stmts, live: bool): set<Tag> { TargetsAll(ss) - LostTop(ss, live) }

  /** The cases of the switches inside a statement. */
  function Nested(s: Stmt): set<Tag> { Targets(s) - Open(s) }
  function NestedAll(ss: Stmts): set<Tag> { TargetsAll(ss) - OpenAll(ss) }

  /** Every case in `tags` has its block. */
  ghost predicate Made(g: Gen, tags: set<Tag>) {
    forall t :: t in tags && t.ForCase? ==> !TagFree(g, t)
  }

  lemma {:induction false} MadeStep(g: Gen, h: Gen, nested: set<Tag>, tags: set<Tag>)
    requires Made(g, tags) && Step(g, h, nested)
    ensures Made(h, tags)
  {
    forall t | t in tags && t.ForCase? ensures !TagFree(h, t) {
      assert !TagFree(g, t);
      var b :| 0 <= b < |g.blocks| && g.blocks[b].tag == t;
      assert h.blocks[b].tag == t;
    }
  }

  /** Opening code, a statement, the stacks popped, closing code. */
  lemma {:induction false} Sandwich(g: Gen, g1: Gen, g2: Gen, p: Gen, h: Gen, nested: set<Tag>, lost: set<Tag>)
    requires Step(g, g1, {}) && Step(g1, g2, nested) && Step(p, h, {}) && Made(g2, lost)
    requires p.blocks == g2.blocks && p.labels == g2.labels
    ensures Step(g, h, nested) && Made(h, lost)
  {
    StepTrans(g, g1, p, {}, nested, nested);
    StepTrans(g, p, h, nested, {}, nested);
    MadeStep(p, h, {}, lost);
  }

  lemma {:induction false} ReadyOpen(g: Gen, h: Gen, done: set<Tag>, targets: set<Tag>, open: set<Tag>)
    requires Ready(g, done, targets, open) && Step(g, h, {}) && h.frames == g.frames
    ensures Ready(h, done, targets, open)
  {
    ReadyAfter(g, h, done, done, {}, targets, open);
  }

  lemma {:induction false} MadeUnion(g: Gen, a: set<Tag>, b: set<Tag>)
    requires Made(g, a) && Made(g, b)
    ensures Made(g, a + b)
  {}

  lemma {:induction false} JoinsAbove(g: Gen, joins: set<nat>, done: set<Tag>, n: nat)
    requires Inv(g, joins, done) && |g.blocks| <= n
    ensures n !in joins
  {}

  /** Lowering any statement keeps the invariant: reserved blocks stay reserved, the loop stack and
      the switch frames come back as they were, and exactly the targets that are not lost get opened. */
  lemma {:induction false} LowerKeeps(g: Gen, s: Stmt, joins: set<nat>, done: set<Tag>)
    requires Fits(g, joins, done, Targets(s), Open(s)) && Unique(s) && ScopedIn(s, g.loops)
    requires Live(g) || CanReopen(s) || ContainsOwnedCase(s)
    ensures Kept(g, Lower(g, s), joins, done + DoneBy(s, Live(g)), Nested(s))
    ensures Live(Lower(g, s)) == Ends(s, Live(g)) && Made(Lower(g, s), Lost(s, Live(g)))
    decreases s, 1
  {
    match s
    case Simple(_) => LowerLeafKeeps(g, s, joins, done);
    case Return(_) => LowerLeafKeeps(g, s, joins, done);
    case Break => LowerLeafKeeps(g, s, joins, done);
    case Continue => LowerLeafKeeps(g, s, joins, done);
    case Goto(_) => LowerLeafKeeps(g, s, joins, done);
    case Compound(body) => LowerAllKeeps(g, body, joins, done);
    case If(_, _, els) =>
      if els.Some? { LowerIfElseKeeps(g, s, joins, done); } else { LowerIfKeeps(g, s, joins, done); }
    case While(_, _, isDo) =>
      if isDo { LowerDoKeeps(g, s, joins, done); } else { LowerWhileKeeps(g, s, joins, done); }
    case For(_, _, _, _) => LowerForKeeps(g, s, joins, done);
    case Switch(_, _, _) => LowerSwitchKeeps(g, s, joins, done);
    case Case(_, _, _) => LowerCaseKeeps(g, s, joins, done);
    case Label(_, _) => LowerLabelKeeps(g, s, joins, done);
  }

  lemma {:induction false} LowerLeafKeeps(g: Gen, s: Stmt, joins: set<nat>, done: set<Tag>)
    requires s.Simple? || s.Return? || s.Break? || s.Continue? || s.Goto?
    requires Inv(g, joins, done) && ScopedIn(s, g.loops) && Live(g)
    ensures Kept(g, Lower(g, s), joins, done + DoneBy(s, Live(g)), Nested(s))
    ensures Live(Lower(g, s)) == Ends(s, Live(g)) && Made(Lower(g, s), Lost(s, Live(g)))
  {
    hide BlocksOk, UniqueTags, LabelsOk, GotoLabel;
    assert done + DoneBy(s, Live(g)) == done;
    match s
    case Simple(op) => EmitKeeps(g, Exec(op), joins, done);
    case Return(op) =>
      EmitKeeps(g, Exec(op), joins, done);
      EmitKeeps(Emit(g, Exec(op)), Ret, joins, done);
      GrowsTrans(g, Emit(g, Exec(op)), Lower(g, s));
    case Break => EmitKeeps(g, Br(BreakTarget(g.loops).value), joins, done);
    case Continue => EmitKeeps(g, Br(ContinueTarget(g.loops).value), joins, done);
    case Goto(name) => GotoKeeps(g, name, joins, done);
  }

  lemma {:induction false} LowerAllKeeps(g: Gen, ss: Stmts, joins: set<nat>, done: set<Tag>)
    requires Fits(g, joins, done, TargetsAll(ss), OpenAll(ss)) && UniqueAll(ss) && ScopedAllIn(ss, g.loops)
    ensures Kept(g, LowerAll(g, ss), joins, done + DoneByAll(ss, Live(g)), NestedAll(ss))
    ensures Live(LowerAll(g, ss)) == EndsAll(ss, Live(g)) && Made(LowerAll(g, ss), LostAll(ss, Live(g)))
    decreases ss
  {
    if ss.Cons? {
      hide BlocksOk, UniqueTags, LabelsOk, Step, Ready, Made;
      var s, rest, live := ss.head, ss.tail, Live(g);
      var emit := live || CanReopen(s);
      assert emit == ShouldEmit(g, s);
      var h := HeadKeeps(g, s, rest, emit, joins, done);
      var live' := if emit then Ends(s, live) else live;
      var done' := done + (if emit then DoneBy(s, live) else Nested(s));
      LowerAllKeeps(h, rest, joins, done');
      HeadSets(s, rest, live);
      LostAllWithinTargets(rest, live');
      DoneSplit(done, Targets(s), if emit then Lost(s, live) else Open(s), TargetsAll(rest), LostAll(rest, live'));
      StepTrans(g, h, LowerAll(g, ss), Nested(s), NestedAll(rest), NestedAll(ss));
      MadeStep(h, LowerAll(g, ss), NestedAll(rest), if emit then Lost(s, live) else Open(s));
      MadeUnion(LowerAll(g, ss), if emit then Lost(s, live) else Open(s), LostAll(rest, live'));
    } else {
      assert done + {} == done;
    }
  }

  lemma {:induction false} LowerTopKeeps(g: Gen, ss: Stmts, joins: set<nat>, done: set<Tag>)
    requires Fits(g, joins, done, TargetsAll(ss), OpenAll(ss)) && UniqueAll(ss) && ScopedAllIn(ss, g.loops)
    ensures Kept(g, LowerTop(g, ss), joins, done + DoneByTop(ss, Live(g)), NestedAll(ss))
    ensures Live(LowerTop(g, ss)) == EndsTop(ss, Live(g)) && Made(LowerTop(g, ss), LostTop(ss, Live(g)))
    decreases ss
  {
    if ss.Cons? {
      hide BlocksOk, UniqueTags, LabelsOk, Step, Ready, Made;
      var s, rest, live := ss.head, ss.tail, Live(g);
      var emit := live || CanReopen(s) || ContainsOwnedCase(s);
      var h := HeadKeeps(g, s, rest, emit, joins, done);
      var live' := if emit then Ends(s, live) else live;
      var done' := done + (if emit then DoneBy(s, live) else Nested(s));
      LowerTopKeeps(h, rest, joins, done');
      HeadSets(s, rest, live);
      LostTopWithinTargets(rest, live');
      DoneSplit(done, Targets(s), if emit then Lost(s, live) else Open(s), TargetsAll(rest), LostTop(rest, live'));
      StepTrans(g, h, LowerTop(g, ss), Nested(s), NestedAll(rest), NestedAll(ss));
      MadeStep(h, LowerTop(g, ss), NestedAll(rest), if emit then Lost(s, live) else Open(s));
      MadeUnion(LowerTop(g, ss), if emit then Lost(s, live) else Open(s), LostTop(rest, live'));
    } else {
      assert done + {} == done;
    }
  }

  lemma {:induction false} DoneSplit(done: set<Tag>, t1: set<Tag>, l1: set<Tag>, t2: set<Tag>, l2: set<Tag>)
    requires l1 <= t1 && l2 <= t2 && t1 !! t2
    ensures done + ((t1 + t2) - (l1 + l2)) == done + (t1 - l1) + (t2 - l2)
  {}

  lemma {:induction false} HeadSets(s: Stmt, rest: Stmts, live: bool)
    requires Targets(s) !! TargetsAll(rest)
    ensures Lost(s, live) <= Targets(s) && Open(s) <= Targets(s) && OpenAll(rest) <= TargetsAll(rest)
    ensures Nested(s) <= NestedAll(Cons(s, rest)) && NestedAll(rest) <= NestedAll(Cons(s, rest))
  {
    OpenWithinTargets(s);
    LostWithinTargets(s, live);
    OpenAllWithinTargets(rest);
  }

  /** The first statement of a list, lowered or skipped, leaves the rest ready. */
  lemma {:induction false} HeadKeeps(g: Gen, s: Stmt, rest: Stmts, emit: bool, joins: set<nat>, done: set<Tag>)
    returns (h: Gen)
    requires Fits(g, joins, done, Targets(s) + TargetsAll(rest), Open(s) + OpenAll(rest))
    requires Unique(s) && Targets(s) !! TargetsAll(rest) && ScopedIn(s, g.loops)
    requires emit ==> Live(g) || CanReopen(s) || ContainsOwnedCase(s)
    ensures h == if emit then Lower(g, s) else g
    ensures var done' := done + (if emit then DoneBy(s, Live(g)) else Nested(s));
      Kept(g, h, joins, done', Nested(s)) && Fits(h, joins, done', TargetsAll(rest), OpenAll(rest))
    ensures Live(h) == if emit then Ends(s, Live(g)) else Live(g)
    ensures Made(h, if emit then Lost(s, Live(g)) else Open(s))
    decreases s, 2
  {
    hide BlocksOk, UniqueTags, LabelsOk;
    OpenWithinTargets(s);
    OpenAllWithinTargets(rest);
    if emit {
      h := Lower(g, s);
      LowerKeeps(g, s, joins, done);
      ReadyAfter(g, h, done, done + DoneBy(s, Live(g)), Nested(s), TargetsAll(rest), OpenAll(rest));
    } else {
      h := g;
      DoneMore(g, joins, done, Nested(s));
      assert forall t :: t in Open(s) && t.ForCase? ==> Bound(g, t);
    }
  }

  /** The condition is evaluated in an open block and the then-branch is ready. */
  lemma {:induction false} IfOpened(g: Gen, s: Stmt, joins: set<nat>, done: set<Tag>)
    requires s.If?
    requires Fits(g, joins, done, Targets(s), Open(s)) && Unique(s) && ScopedIn(s, g.loops)
    ensures var g0 := FreshIfTerminated(g);
      var n, hasElse := |g0.blocks|, s.els.Some?;
      var g1 := IfOpen(g0, s.cond, hasElse);
      && Kept(g, g1, joins + (if hasElse then {n + 1, n + 2} else {n + 1}), done, {})
      && Ready(g1, done, Targets(s.thn), Open(s.thn)) && Live(g1) && n >= |g.blocks|
  {
    hide BlocksOk, UniqueTags, LabelsOk;
    FreshIfTerminatedKeeps(g, joins, done);
    var g0 := FreshIfTerminated(g);
    IfOpenKeeps(g0, s.cond, s.els.Some?, joins, done);
    var g1 := IfOpen(g0, s.cond, s.els.Some?);
    StepTrans(g, g0, g1, {}, {}, {});
    if s.els.Some? { OpenWithinTargets(s.thn); OpenWithinTargets(s.els.value); }
    ReadyAfter(g, g1, done, done, {}, Targets(s.thn), Open(s.thn));
  }

  lemma {:induction false} IfUnfolds(g: Gen, s: Stmt)
    requires s.If? && s.els.None?
    ensures var g0 := FreshIfTerminated(g);
      Lower(g, s) == IfJoin(Lower(IfOpen(g0, s.cond, false), s.thn), |g0.blocks| + 1)
    ensures Lost(s, Live(g)) == Lost(s.thn, true) && Nested(s) == Nested(s.thn)
    ensures DoneBy(s, Live(g)) == DoneBy(s.thn, true)
  {
    hide IfOpen, FreshIfTerminated, IfJoin;
  }

  lemma {:induction false} LowerIfKeeps(g: Gen, s: Stmt, joins: set<nat>, done: set<Tag>)
    requires s.If? && s.els.None?
    requires Fits(g, joins, done, Targets(s), Open(s)) && Unique(s) && ScopedIn(s, g.loops)
    ensures Kept(g, Lower(g, s), joins, done + DoneBy(s, Live(g)), Nested(s)) && Live(Lower(g, s))
    ensures Made(Lower(g, s), Lost(s, Live(g)))
    decreases s, 0
  {
    hide BlocksOk, UniqueTags, LabelsOk, Step, Ready, Made, IfOpen, Inv, Lower, Lost, FreshIfTerminated;
    IfUnfolds(g, s);
    IfOpened(g, s, joins, done);
    var g0 := FreshIfTerminated(g);
    var n := |g0.blocks|;
    var g1 := IfOpen(g0, s.cond, false);
    LowerKeeps(g1, s.thn, joins + {n + 1}, done);
    var g2 := Lower(g1, s.thn);
    JoinKeeps(g2, n + 1, n + 1, joins + {n + 1}, done + DoneBy(s.thn, true));
    JoinsAbove(g, joins, done, n + 1);
    assert joins + {n + 1} - {n + 1} == joins;
    Sandwich(g, g1, g2, g2, Lower(g, s), Nested(s), Lost(s, Live(g)));
  }

  lemma {:induction false} IfElseUnfolds(g: Gen, s: Stmt)
    requires s.If? && s.els.Some?
    ensures var g0 := FreshIfTerminated(g);
      var n := |g0.blocks|;
      Lower(g, s) == IfJoin(Lower(IfElse(Lower(IfOpen(g0, s.cond, true), s.thn), n), s.els.value), n + 2)
    ensures Lost(s, Live(g)) == Lost(s.thn, true) + Lost(s.els.value, true)
  {
    hide IfOpen, IfElse, FreshIfTerminated, IfJoin;
  }

  lemma {:induction false} IfElseSets(s: Stmt, live: bool)
    requires s.If? && s.els.Some? && Unique(s)
    ensures Nested(s.thn) <= Nested(s) && Nested(s.els.value) <= Nested(s)
    ensures DoneBy(s.thn, true) + DoneBy(s.els.value, true) == DoneBy(s, live)
  {
    OpenWithinTargets(s.thn);
    OpenWithinTargets(s.els.value);
    LostWithinTargets(s.thn, true);
    LostWithinTargets(s.els.value, true);
  }

  /** A loop's lowering and what it does to jump targets, in terms of its body. */
  lemma {:induction false} WhileUnfolds(g: Gen, s: Stmt)
    requires s.While?
    ensures Lower(g, s) == if s.isDo then DoClose(Lower(DoOpen(g), s.body1), |g.blocks|, s.cond)
      else WhileClose(Lower(WhileOpen(g, s.cond), s.body1), |g.blocks|)
    ensures Lost(s, Live(g)) == Lost(s.body1, true) && Nested(s) == Nested(s.body1)
    ensures DoneBy(s, Live(g)) == DoneBy(s.body1, true)
  {
    hide DoOpen, DoClose, WhileOpen, WhileClose;
  }

  lemma {:induction false} SwitchUnfolds(g: Gen, s: Stmt)
    requires s.Switch?
    ensures Lower(g, s) ==
      SwitchClose(LowerTop(SwitchOpen(g, s.cond, s.integral, CollectAll(s.cases)), s.cases), |g.blocks|)
    ensures Lost(s, Live(g)) == LostTop(s.cases, false)
  {
    hide SwitchOpen, SwitchClose, LowerTop, LostTop;
  }

  lemma {:induction false} ForUnfolds(g: Gen, s: Stmt)
    requires s.For?
    ensures Lower(g, s) == ForClose(Lower(ForOpen(g, s.init, s.test), s.body2), |g.blocks|, s.inc)
    ensures Lost(s, Live(g)) == Lost(s.body2, true) && Nested(s) == Nested(s.body2)
    ensures DoneBy(s, Live(g)) == DoneBy(s.body2, true)
  {
    hide ForOpen, ForClose;
  }

  lemma {:induction false} LowerIfElseKeeps(g: Gen, s: Stmt, joins: set<nat>, done: set<Tag>)
    requires s.If? && s.els.Some?
    requires Fits(g, joins, done, Targets(s), Open(s)) && Unique(s) && ScopedIn(s, g.loops)
    ensures Kept(g, Lower(g, s), joins, done + DoneBy(s, Live(g)), Nested(s)) && Live(Lower(g, s))
    ensures Made(Lower(g, s), Lost(s, Live(g)))
    decreases s, 0
  {
    hide BlocksOk, UniqueTags, LabelsOk, Step, Ready, Made, IfOpen, IfElse, Inv, Lower, Lost;
    hide FreshIfTerminated, DoneBy, Nested;
    IfElseUnfolds(g, s);
    IfElseSets(s, Live(g));
    var g0 := FreshIfTerminated(g);
    var n, e := |g0.blocks|, s.els.value;
    var g3 := ElseOpened(g, s, joins, done);
    var done1 := done + DoneBy(s.thn, true);
    LowerKeeps(g3, e, joins + {n + 2}, done1);
    var g4 := Lower(g3, e);
    JoinKeeps(g4, n + 2, n + 2, joins + {n + 2}, done1 + DoneBy(e, true));
    JoinsAbove(g0, joins, done, n + 2);
    assert joins + {n + 2} - {n + 2} == joins;
    assert done1 + DoneBy(e, true) == done + DoneBy(s, Live(g));
    var h := IfJoin(g4, n + 2);
    StepTrans(g, g3, g4, Nested(s.thn), Nested(e), Nested(s));
    StepTrans(g, g4, h, Nested(s), {}, Nested(s));
    MadeStep(g3, g4, Nested(e), Lost(s.thn, true));
    MadeUnion(g4, Lost(s.thn, true), Lost(e, true));
    MadeStep(g4, h, {}, Lost(s, Live(g)));
  }

  /** The then-branch is done and the else-branch is ready. */
  lemma {:induction false} ElseOpened(g: Gen, s: Stmt, joins: set<nat>, done: set<Tag>) returns (g3: Gen)
    requires s.If? && s.els.Some?
    requires Fits(g, joins, done, Targets(s), Open(s)) && Unique(s) && ScopedIn(s, g.loops)
    ensures var g0 := FreshIfTerminated(g);
      var n, done1 := |g0.blocks|, done + DoneBy(s.thn, true);
      && g3 == IfElse(Lower(IfOpen(g0, s.cond, true), s.thn), n)
      && Kept(g, g3, joins + {n + 2}, done1, Nested(s.thn)) && Live(g3)
      && Ready(g3, done1, Targets(s.els.value), Open(s.els.value)) && Made(g3, Lost(s.thn, true))
      && Inv(g0, joins, done)
    decreases s, 0, 0
  {
    hide BlocksOk, UniqueTags, LabelsOk, Step, Ready, Made, IfOpen, Lower, Lost, FreshIfTerminated;
    FreshIfTerminatedKeeps(g, joins, done);
    IfOpened(g, s, joins, done);
    var g0 := FreshIfTerminated(g);
    var n, e := |g0.blocks|, s.els.value;
    var g1 := IfOpen(g0, s.cond, true);
    LowerKeeps(g1, s.thn, joins + {n + 1, n + 2}, done);
    var g2 := Lower(g1, s.thn);
    var done1 := done + DoneBy(s.thn, true);
    JoinKeeps(g2, n + 2, n + 1, joins + {n + 1, n + 2}, done1);
    g3 := IfElse(g2, n);
    JoinsAbove(g0, joins, done, n + 1);
    assert joins + {n + 1, n + 2} - {n + 1} == joins + {n + 2};
    Sandwich(g, g1, g2, g2, g3, Nested(s.thn), Lost(s.thn, true));
    ElseReady(g, g3, s, done);
  }

  lemma {:induction false} ElseReady(g: Gen, g3: Gen, s: Stmt, done: set<Tag>)
    requires s.If? && s.els.Some? && Unique(s) && Ready(g, done, Targets(s), Open(s))
    requires Step(g, g3, Nested(s.thn)) && g3.frames == g.frames
    ensures Ready(g3, done + DoneBy(s.thn, true), Targets(s.els.value), Open(s.els.value))
  {
    var e := s.els.value;
    OpenWithinTargets(s.thn);
    OpenWithinTargets(e);
    ReadyAfter(g, g3, done, done + DoneBy(s.thn, true), Nested(s.thn), Targets(e), Open(e));
  }

  /** Inside a loop body: `breakTo` and `continueTo` on top of the stack, `js` newly reserved. */
  ghost predicate BodyReady(
    g: Gen, g1: Gen, body: Stmt, joins: set<nat>, done: set<Tag>, breakTo: nat, continueTo: nat)
  {
    && Fits(g1, joins, done, Targets(body), Open(body)) && ScopedIn(body, g1.loops)
    && Live(g1) && Step(g, g1, {})
    && g1.loops == g.loops + [LoopTarget(breakTo, Some(continueTo))] && g1.frames == g.frames
  }

  lemma {:induction false} BodyOpened(
    g: Gen, g1: Gen, body: Stmt, joins: set<nat>, js: set<nat>, done: set<Tag>, breakTo: nat, continueTo: nat)
    requires Fits(g, joins, done, Targets(body), Open(body)) && Scoped(body, true, true)
    requires Kept(g, g1.(loops := g.loops), js, done, {}) && Live(g1)
    requires g1.loops == g.loops + [LoopTarget(breakTo, Some(continueTo))]
    ensures BodyReady(g, g1, body, js, done, breakTo, continueTo)
  {
    hide BlocksOk, UniqueTags, LabelsOk, Step, Ready;
    StacksAside(g1.(loops := g.loops), g1, js, done);
    StepSame(g, g1.(loops := g.loops), g1, {});
    ReadyOpen(g, g1, done, Targets(body), Open(body));
  }

  lemma {:induction false} WhileOpened(g: Gen, s: Stmt, joins: set<nat>, done: set<Tag>)
    requires s.While? && !s.isDo
    requires Fits(g, joins, done, Targets(s), Open(s)) && ScopedIn(s, g.loops)
    ensures var n := |g.blocks|;
      BodyReady(g, WhileOpen(g, s.cond), s.body1, joins + {n + 2}, done, n + 2, n)
  {
    hide BlocksOk, UniqueTags, LabelsOk, Step, Ready, WhileOpen;
    var n := |g.blocks|;
    WhileOpenKeeps(g, s.cond, joins, done);
    BodyOpened(g, WhileOpen(g, s.cond), s.body1, joins, joins + {n + 2}, done, n + 2, n);
  }

  lemma {:induction false} DoOpened(g: Gen, s: Stmt, joins: set<nat>, done: set<Tag>)
    requires s.While? && s.isDo
    requires Fits(g, joins, done, Targets(s), Open(s)) && ScopedIn(s, g.loops)
    ensures var n := |g.blocks|;
      BodyReady(g, DoOpen(g), s.body1, joins + {n, n + 2}, done, n + 2, n)
  {
    hide BlocksOk, UniqueTags, LabelsOk, Step, Ready, DoOpen;
    var n := |g.blocks|;
    DoOpenKeeps(g, joins, done);
    BodyOpened(g, DoOpen(g), s.body1, joins, joins + {n, n + 2}, done, n + 2, n);
  }

  lemma {:induction false} ForOpened(g: Gen, s: Stmt, joins: set<nat>, done: set<Tag>)
    requires s.For?
    requires Fits(g, joins, done, Targets(s), Open(s)) && ScopedIn(s, g.loops)
    ensures var n := |g.blocks|;
      BodyReady(g, ForOpen(g, s.init, s.test), s.body2, joins + {n + 2, n + 3}, done, n + 3, n + 2)
  {
    hide BlocksOk, UniqueTags, LabelsOk, Step, Ready, ForOpen;
    var n := |g.blocks|;
    ForOpenKeeps(g, s.init, s.test, joins, done);
    BodyOpened(g, ForOpen(g, s.init, s.test), s.body2, joins, joins + {n + 2, n + 3}, done, n + 3, n + 2);
  }

  lemma {:induction false} WhileCloseKeeps(g: Gen, n: nat, joins: set<nat>, done: set<Tag>)
    requires Inv(g, joins + {n + 2}, done) && n + 2 !in joins && g.loops != []
    ensures var h := WhileClose(g, n);
      && Kept(PopLoop(g), h, joins, done, {})
      && Live(h) && h.cur == n + 2 && h.blocks[n + 2].code == []
      && (Live(g) ==> h.blocks[g.cur].code == g.blocks[g.cur].code + [Br(n)])
  {
    hide BlocksOk, UniqueTags, LabelsOk;
    StacksAside(g, PopLoop(g), joins + {n + 2}, done);
    JoinKeeps(PopLoop(g), n, n + 2, joins + {n + 2}, done);
    assert joins + {n + 2} - {n + 2} == joins;
  }

  lemma {:induction false} LowerWhileKeeps(g: Gen, s: Stmt, joins: set<nat>, done: set<Tag>)
    requires s.While? && !s.isDo
    requires Fits(g, joins, done, Targets(s), Open(s)) && Unique(s) && ScopedIn(s, g.loops)
    ensures Kept(g, Lower(g, s), joins, done + DoneBy(s, Live(g)), Nested(s)) && Live(Lower(g, s))
    ensures Made(Lower(g, s), Lost(s, Live(g)))
    decreases s, 0
  {
    hide BlocksOk, UniqueTags, LabelsOk, Step, Ready, Made, WhileOpen, WhileClose;
    var n := |g.blocks|;
    WhileOpened(g, s, joins, done);
    var g1 := WhileOpen(g, s.cond);
    LowerKeeps(g1, s.body1, joins + {n + 2}, done);
    var g2 := Lower(g1, s.body1);
    JoinsAbove(g, joins, done, n + 2);
    WhileCloseKeeps(g2, n, joins, done + DoneBy(s, Live(g)));
    Sandwich(g, g1, g2, PopLoop(g2), Lower(g, s), Nested(s), Lost(s, Live(g)));
  }

  lemma {:induction false} LowerDoKeeps(g: Gen, s: Stmt, joins: set<nat>, done: set<Tag>)
    requires s.While? && s.isDo
    requires Fits(g, joins, done, Targets(s), Open(s)) && Unique(s) && ScopedIn(s, g.loops)
    ensures Kept(g, Lower(g, s), joins, done + DoneBy(s, Live(g)), Nested(s)) && Live(Lower(g, s))
    ensures Made(Lower(g, s), Lost(s, Live(g)))
    decreases s, 0
  {
    hide BlocksOk, UniqueTags, LabelsOk, Step, Ready, Made, DoOpen, DoClose;
    var n := |g.blocks|;
    DoOpened(g, s, joins, done);
    var g1 := DoOpen(g);
    LowerKeeps(g1, s.body1, joins + {n, n + 2}, done);
    var g2 := Lower(g1, s.body1);
    JoinsAbove(g, joins, done, n);
    JoinsAbove(g, joins, done, n + 2);
    DoCloseKeeps(g2, n, s.cond, joins, done + DoneBy(s, Live(g)));
    Sandwich(g, g1, g2, PopLoop(g2), Lower(g, s), Nested(s), Lost(s, Live(g)));
  }

  lemma {:induction false} LowerForKeeps(g: Gen, s: Stmt, joins: set<nat>, done: set<Tag>)
    requires s.For?
    requires Fits(g, joins, done, Targets(s), Open(s)) && Unique(s) && ScopedIn(s, g.loops)
    ensures Kept(g, Lower(g, s), joins, done + DoneBy(s, Live(g)), Nested(s)) && Live(Lower(g, s))
    ensures Made(Lower(g, s), Lost(s, Live(g)))
    decreases s, 0
  {
    hide BlocksOk, UniqueTags, LabelsOk, Step, Ready, Made, ForOpen, ForClose;
    var n := |g.blocks|;
    ForOpened(g, s, joins, done);
    var g1 := ForOpen(g, s.init, s.test);
    LowerKeeps(g1, s.body2, joins + {n + 2, n + 3}, done);
    var g2 := Lower(g1, s.body2);
    JoinsAbove(g, joins, done, n + 2);
    JoinsAbove(g, joins, done, n + 3);
    ForCloseKeeps(g2, n, s.inc, joins, done + DoneBy(s, Live(g)));
    Sandwich(g, g1, g2, PopLoop(g2), Lower(g, s), Nested(s), Lost(s, Live(g)));
  }

  /** Everything the body of a switch needs is in place once the switch is open. */
  lemma {:induction false} SwitchBodyReady(g: Gen, s: Stmt, joins: set<nat>, done: set<Tag>)
    requires s.Switch? && Live(g)
    requires Fits(g, joins, done, Targets(s), Open(s)) && Unique(s) && ScopedIn(s, g.loops)
    ensures var g1, end := SwitchOpen(g, s.cond, s.integral, CollectAll(s.cases)), |g.blocks|;
      && Fits(g1, joins + {end}, done, TargetsAll(s.cases), OpenAll(s.cases)) && !Live(g1)
      && ScopedAllIn(s.cases, g1.loops)
      && Step(g, g1, CaseTags(CollectAll(s.cases)))
      && g1.loops == g.loops + [LoopTarget(end, None)]
      && g1.frames == [SwitchFrame(CollectAll(s.cases), end)] + g.frames
      && |g1.blocks| > end
  {
    hide BlocksOk, UniqueTags, LabelsOk;
    var cs := CollectAll(s.cases);
    CollectAllOwned(s.cases);
    CasesDistinct(s.cases);
    OpenAllWithinTargets(s.cases);
    forall t | t in CaseTags(cs) ensures t !in done && TagFree(g, t) { assert t in OpenAll(s.cases); }
    SwitchOpenKeeps(g, s.cond, s.integral, cs, joins, done);
    var g1 := SwitchOpen(g, s.cond, s.integral, cs);
    ContinueThroughSwitch(g.loops, |g.blocks|);
    forall t | t in TargetsAll(s.cases) && t.ForCase? && t !in OpenAll(s.cases) ensures TagFree(g1, t) {
      assert TagFree(g, t) && t !in CaseTags(cs);
      forall b | 0 <= b < |g1.blocks| ensures g1.blocks[b].tag != t {
        if b < |g.blocks| { assert g1.blocks[b].tag == g.blocks[b].tag; }
      }
    }
  }

  lemma {:induction false} LowerSwitchKeeps(g: Gen, s: Stmt, joins: set<nat>, done: set<Tag>)
    requires s.Switch? && Live(g)
    requires Fits(g, joins, done, Targets(s), Open(s)) && Unique(s) && ScopedIn(s, g.loops)
    ensures Kept(g, Lower(g, s), joins, done + DoneBy(s, Live(g)), Nested(s)) && Live(Lower(g, s))
    ensures Made(Lower(g, s), Lost(s, Live(g)))
    decreases s, 0
  {
    hide BlocksOk, UniqueTags, LabelsOk, Step, Ready, Made, SwitchOpen;
    var end := |g.blocks|;
    var cs := CollectAll(s.cases);
    SwitchBodyReady(g, s, joins, done);
    var g1 := SwitchOpen(g, s.cond, s.integral, cs);
    LowerTopKeeps(g1, s.cases, joins + {end}, done);
    var g2 := LowerTop(g1, s.cases);
    JoinsAbove(g, joins, done, end);
    SwitchCloseKeeps(g2, end, joins, done + DoneBy(s, Live(g)));
    CollectAllOwned(s.cases);
    OpenAllWithinTargets(s.cases);
    StepTrans(g, g1, g2, CaseTags(cs), NestedAll(s.cases), Nested(s));
    StepTrans(g, g2, Lower(g, s), Nested(s), {}, Nested(s));
    MadeStep(g2, Lower(g, s), {}, Lost(s, Live(g)));
  }

  lemma {:induction false} CaseOpened(g: Gen, s: Stmt, joins: set<nat>, done: set<Tag>)
    requires s.Case?
    requires Fits(g, joins, done, Targets(s), Open(s)) && Unique(s) && ScopedIn(s, g.loops)
    ensures CaseBlock(g.frames, s.id).Some?
    ensures var to := CaseBlock(g.frames, s.id).value;
      var g1, done1 := Enter(g, to), done + {ForCase(s.id)};
      && Kept(g, g1, joins, done1, {}) && Ready(g1, done1, TargetsAll(s.caseBody), OpenAll(s.caseBody))
      && Live(g1) && g1.cur == to && g1.blocks[to] == Block(ForCase(s.id), [])
      && (Live(g) ==> g1.blocks[g.cur].code == g.blocks[g.cur].code + [Br(to)])
  {
    hide BlocksOk, UniqueTags, LabelsOk;
    var t := ForCase(s.id);
    assert Bound(g, t);
    var to := CaseBlock(g.frames, s.id).value;
    EnterKeeps(g, to, Enter(g, to), joins, done);
    OpenAllWithinTargets(s.caseBody);
    ReadyAfter(g, Enter(g, to), done, done + {t}, {}, TargetsAll(s.caseBody), OpenAll(s.caseBody));
  }

  lemma {:induction false} LowerCaseKeeps(g: Gen, s: Stmt, joins: set<nat>, done: set<Tag>)
    requires s.Case?
    requires Fits(g, joins, done, Targets(s), Open(s)) && Unique(s) && ScopedIn(s, g.loops)
    ensures Kept(g, Lower(g, s), joins, done + DoneBy(s, Live(g)), Nested(s))
    ensures Live(Lower(g, s)) == Ends(s, Live(g)) && Made(Lower(g, s), Lost(s, Live(g)))
    decreases s, 0
  {
    hide BlocksOk, UniqueTags, LabelsOk, Step, Ready, Made, Enter;
    CaseOpened(g, s, joins, done);
    var t := ForCase(s.id);
    var g1 := Enter(g, CaseBlock(g.frames, s.id).value);
    LowerAllKeeps(g1, s.caseBody, joins, done + {t});
    OpenAllWithinTargets(s.caseBody);
    LostAllWithinTargets(s.caseBody, true);
    StepTrans(g, g1, Lower(g, s), {}, NestedAll(s.caseBody), Nested(s));
    assert done + {t} + DoneByAll(s.caseBody, true) == done + DoneBy(s, Live(g));
  }

  lemma {:induction false} LabelOpened(g: Gen, s: Stmt, joins: set<nat>, done: set<Tag>)
    requires s.Label? && s.labelled.Some?
    requires Fits(g, joins, done, Targets(s), Open(s)) && Unique(s) && ScopedIn(s, g.loops)
    ensures var g1, done1 := LabelOpen(g, s.name), done + {ForLabel(s.name)};
      && Kept(g, g1, joins, done1, {}) && Live(g1)
      && Ready(g1, done1, Targets(s.labelled.value), Open(s.labelled.value))
  {
    hide BlocksOk, UniqueTags, LabelsOk, LabelOpen;
    LabelOpenKeeps(g, s.name, joins, done);
    OpenWithinTargets(s.labelled.value);
    ReadyAfter(g, LabelOpen(g, s.name), done, done + {ForLabel(s.name)}, {},
               Targets(s.labelled.value), Open(s.labelled.value));
  }

  lemma {:induction false} LowerLabelKeeps(g: Gen, s: Stmt, joins: set<nat>, done: set<Tag>)
    requires s.Label?
    requires Fits(g, joins, done, Targets(s), Open(s)) && Unique(s) && ScopedIn(s, g.loops)
    ensures Kept(g, Lower(g, s), joins, done + DoneBy(s, Live(g)), Nested(s))
    ensures Live(Lower(g, s)) == Ends(s, Live(g)) && Made(Lower(g, s), Lost(s, Live(g)))
    decreases s, 0
  {
    hide BlocksOk, UniqueTags, LabelsOk, LabelOpen;
    var t := ForLabel(s.name);
    var g1 := LabelOpen(g, s.name);
    if s.labelled.Some? {
      hide Step, Ready, Made;
      var b := s.labelled.value;
      LabelOpened(g, s, joins, done);
      LowerKeeps(g1, b, joins, done + {t});
      OpenWithinTargets(b);
      LostWithinTargets(b, true);
      StepTrans(g, g1, Lower(g, s), {}, Nested(b), Nested(s));
      assert done + {t} + DoneBy(b, true) == done + DoneBy(s, Live(g));
    } else {
      LabelOpenKeeps(g, s.name, joins, done);
      assert {t} - {} == {t};
    }
  }
}
