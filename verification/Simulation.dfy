/** The emitted blocks do what the statement means, for every run, terminating or not. */
module Simulation {
  import opened Options
  import opened Ast
  import opened Cfg
  import opened Lowering
  import opened WellFormed
  import opened LoweringKeeps
  import opened Translation
  import opened SourceSemantics

  /** The finished blocks, and where the whole statement leaves to. */
  datatype Env = Env(blocks: seq<Block>, lost: set<Tag>, exit: Point, brk: Option<nat>, cnt: Option<nat>)

  /** Control standing at `q` is at the start of block `b` or branches there. */
  predicate Reaches(blocks: seq<Block>, q: Point, b: nat) {
    q == At(b, 0) || Flow(blocks, q, b)
  }

  /** `q` itself, or the start of the join block that `q` branches to. */
  predicate FlowsTo(blocks: seq<Block>, q: Point, q': Point) {
    q' == q || (q'.At? && q'.pc == 0 && Flow(blocks, q, q'.b))
  }

  /** Point `q` is where the code for the continuation `k` starts. */
  ghost predicate MatchK(e: Env, k: Cont, q: Point, brk: Option<nat>, cnt: Option<nat>)
    decreases k
  {
    match k
    case KStop => q == e.exit && brk == e.brk && cnt == e.cnt
    case KSeq(rest, k') =>
      exists q', m ::
        FlowsTo(e.blocks, q, q') && TrAll(e.blocks, e.lost, rest, q', m, brk, cnt) && MatchK(e, k', m, brk, cnt)
    case KWhile(cond, body, k') =>
      && brk.Some? && cnt.Some? && Reaches(e.blocks, q, cnt.value)
      && (exists bb: nat, m ::
            && Tr(e.blocks, e.lost, body, At(bb, 0), m, brk, cnt) && Flow(e.blocks, m, cnt.value)
            && LoopTest(e.blocks, cnt.value, Eval(cond), bb, brk.value))
      && (exists brk', cnt' :: MatchK(e, k', At(brk.value, 0), brk', cnt'))
    case KFor(test, inc, body, k') =>
      && brk.Some? && cnt.Some? && Reaches(e.blocks, q, cnt.value)
      && (exists cb: nat, bb: nat, m ::
            && Tr(e.blocks, e.lost, body, At(bb, 0), m, brk, cnt) && Flow(e.blocks, m, cnt.value)
            && LoopTest(e.blocks, cb, TestInstr(test), bb, brk.value)
            && Codes(e.blocks, cnt.value, 0, OpThenBranch(inc, cb)))
      && (exists brk', cnt' :: MatchK(e, k', At(brk.value, 0), brk', cnt'))
    case KSwitch(rest, k') =>
      && brk.Some?
      && (exists m :: TrTop(e.blocks, e.lost, rest, q, m, brk, cnt) && Flow(e.blocks, m, brk.value))
      && (exists brk' :: MatchK(e, k', At(brk.value, 0), brk', cnt))
  }

  ghost predicate Match(e: Env, focus: Stmts, k: Cont, p: Point) {
    p.At? && exists q, brk, cnt :: TrAll(e.blocks, e.lost, focus, p, q, brk, cnt) && MatchK(e, k, q, brk, cnt)
  }

  // ----- machine runs -----

  function M<S>(p: Point, st: S, v: int): Machine<S>
    requires p.At?
  {
    Machine(p.b, p.pc, st, v)
  }

  ghost predicate Runs<S>(
    m: Meaning<S>, blocks: seq<Block>, p: Point, st: S, v: int, n: nat, p': Point, st': S, v': int)
  {
    p.At? && p'.At? && MachineRun(m, blocks, M(p, st, v), n) == Some(M(p', st', v'))
  }

  lemma {:induction false} RunsTrans<S>(
    m: Meaning<S>, blocks: seq<Block>, p: Point, st: S, v: int, n: nat, p': Point, st': S, v': int, n': nat,
    p'': Point, st'': S, v'': int)
    requires Runs(m, blocks, p, st, v, n, p', st', v') && Runs(m, blocks, p', st', v', n', p'', st'', v'')
    ensures Runs(m, blocks, p, st, v, n + n', p'', st'', v'')
  {
    MachineRunCompose(m, blocks, M(p, st, v), n, n');
  }

  lemma {:induction false} RunOne<S>(m: Meaning<S>, blocks: seq<Block>, p: Point, st: S, v: int)
    requires p.At? && MachineStep(m, blocks, M(p, st, v)).Some?
    ensures MachineRun(m, blocks, M(p, st, v), 1) == MachineStep(m, blocks, M(p, st, v))
  {
    assert MachineRun(m, blocks, MachineStep(m, blocks, M(p, st, v)).value, 0) == MachineStep(m, blocks, M(p, st, v));
  }

  lemma {:induction false} RunBranch<S>(m: Meaning<S>, blocks: seq<Block>, p: Point, to: nat, st: S, v: int)
    requires p.At? && Flow(blocks, p, to)
    ensures Runs(m, blocks, p, st, v, 1, At(to, 0), st, v)
  {
    RunOne(m, blocks, p, st, v);
  }

  lemma {:induction false} RunReach<S>(
    m: Meaning<S>, blocks: seq<Block>, p: Point, to: nat, st: S, v: int) returns (n: nat)
    requires p.At? && Reaches(blocks, p, to)
    ensures Runs(m, blocks, p, st, v, n, At(to, 0), st, v)
  {
    if p == At(to, 0) { n := 0; } else { n := 1; RunBranch(m, blocks, p, to, st, v); }
  }

  /** A test followed by the branch on it. */
  lemma {:induction false} RunTest<S>(
    m: Meaning<S>, blocks: seq<Block>, b: nat, pc: nat, test: Option<nat>, yes: nat, no: nat, st: S, v: int)
    requires Code(blocks, b, pc, TestInstr(test)) && Code(blocks, b, pc + 1, CondBr(yes, no))
    ensures var r := Test(m, test, st);
      Runs(m, blocks, At(b, pc), st, v, 2, At(if r.0 != 0 then yes else no, 0), r.1, r.0)
  {
    var r := Test(m, test, st);
    RunOne(m, blocks, At(b, pc), st, v);
    RunOne(m, blocks, At(b, pc + 1), r.1, r.0);
    RunsTrans(m, blocks, At(b, pc), st, v, 1, At(b, pc + 1), r.1, r.0, 1,
              At(if r.0 != 0 then yes else no, 0), r.1, r.0);
  }

  /** An optional operation followed by a branch. */
  lemma {:induction false} RunThenBranch<S>(
    m: Meaning<S>, blocks: seq<Block>, p: Point, op: Option<nat>, to: nat, st: S, v: int)
    returns (n: nat)
    requires p.At? && Codes(blocks, p.b, p.pc, OpThenBranch(op, to))
    ensures n > 0 && Runs(m, blocks, p, st, v, n, At(to, 0), Perform(m, op, st), v)
  {
    var code := OpThenBranch(op, to);
    assert Code(blocks, p.b, p.pc + 0, code[0]);
    if op.Some? {
      assert code == [Exec(op.value), Br(to)];
      assert Code(blocks, p.b, p.pc + 1, code[1]);
      var st' := m.exec(op.value, st);
      RunOne(m, blocks, p, st, v);
      RunBranch(m, blocks, At(p.b, p.pc + 1), to, st', v);
      RunsTrans(m, blocks, p, st, v, 1, At(p.b, p.pc + 1), st', v, 1, At(to, 0), st', v);
      n := 2;
    } else {
      assert code == [Br(to)];
      RunBranch(m, blocks, p, to, st, v);
      n := 1;
    }
  }

  // ----- switch dispatch -----

  /** The dense instruction and the compare chain send every value to the same block. */
  lemma {:induction false} DispatchRuns<S>(
    m: Meaning<S>, blocks: seq<Block>, b: nat, pc: nat, t: seq<(int, nat)>, dflt: nat, st: S, v: int)
    returns (n: nat)
    requires Dispatches(blocks, b, pc, t, dflt)
    ensures n > 0 && Runs(m, blocks, At(b, pc), st, v, n, At(Lookup(t, v, dflt), 0), st, v)
    decreases |t|
  {
    if Code(blocks, b, pc, SwitchBr(t, dflt)) {
      RunOne(m, blocks, At(b, pc), st, v);
      n := 1;
    } else if t == [] {
      RunBranch(m, blocks, At(b, pc), dflt, st, v);
      n := 1;
    } else {
      RunOne(m, blocks, At(b, pc), st, v);
      var i := blocks[b].code[pc];
      if v == i.k {
        n := 1;
      } else {
        var n' := DispatchRuns(m, blocks, i.no, 0, t[1..], dflt, st, v);
        RunsTrans(m, blocks, At(b, pc), st, v, 1, At(i.no, 0), st, v, n', At(Lookup(t, v, dflt), 0), st, v);
        n := 1 + n';
      }
    }
  }

  /** The first case of the list with the constant `want`. */
  function First(cs: seq<CaseInfo>, want: Option<int>): Option<nat> {
    if cs == [] then None
    else if cs[0].value == want then Some(cs[0].id)
    else First(cs[1..], want)
  }

  lemma {:induction false} FirstConcat(a: seq<CaseInfo>, b: seq<CaseInfo>, want: Option<int>)
    ensures First(a + b, want) == if First(a, want).Some? then First(a, want) else First(b, want)
    decreases |a|
  {
    if a == [] {
      assert a + b == b;
    } else {
      assert (a + b)[1..] == a[1..] + b;
      FirstConcat(a[1..], b, want);
    }
  }

  /** Searching the text for a constant finds what searching the collected list finds. */
  lemma {:induction false} CaseOfIsFirst(s: Stmt, want: Option<int>)
    ensures CaseOf(s, want) == First(Collect(s), want)
  {
    match s
    case Case(id, value, body) =>
      CaseOfAllIsFirst(body, want);
      FirstConcat([CaseInfo(id, value)], CollectAll(body), want);
    case Compound(body) => CaseOfAllIsFirst(body, want);
    case If(_, thn, els) =>
      CaseOfIsFirst(thn, want);
      if els.Some? {
        CaseOfIsFirst(els.value, want);
        FirstConcat(Collect(thn), Collect(els.value), want);
      } else {
        assert Collect(s) == Collect(thn);
      }
    case While(_, body, _) => CaseOfIsFirst(body, want);
    case For(_, _, _, body) => CaseOfIsFirst(body, want);
    case Label(_, labelled) => if labelled.Some? { CaseOfIsFirst(labelled.value, want); }
    case _ =>
  }

  lemma {:induction false} CaseOfAllIsFirst(ss: Stmts, want: Option<int>)
    ensures CaseOfAll(ss, want) == First(CollectAll(ss), want)
  {
    if ss.Cons? {
      CaseOfIsFirst(ss.head, want);
      CaseOfAllIsFirst(ss.tail, want);
      FirstConcat(Collect(ss.head), CollectAll(ss.tail), want);
    }
  }

  lemma {:induction false} TableLookup(ks: seq<CaseInfo>, next: nat, v: int, dflt: nat)
    requires forall i :: 0 <= i < |ks| ==> ks[i].value.Some?
    ensures First(ks, Some(v)).None? ==> Lookup(Table(ks, next), v, dflt) == dflt
    ensures First(ks, Some(v)).Some? ==>
      exists j :: 0 <= j < |ks| && Lookup(Table(ks, next), v, dflt) == next + j && ks[j].id == First(ks, Some(v)).value
    decreases |ks|
  {
    if ks != [] {
      assert Table(ks, next)[1..] == Table(ks[1..], next + 1);
      if ks[0].value == Some(v) {
        assert next + 0 == next && ks[0].id == First(ks, Some(v)).value;
      } else {
        TableLookup(ks[1..], next + 1, v, dflt);
        if First(ks, Some(v)).Some? {
          var j :| 0 <= j < |ks[1..]| && Lookup(Table(ks[1..], next + 1), v, dflt) == next + 1 + j &&
            ks[1..][j].id == First(ks[1..], Some(v)).value;
          assert ks[j + 1] == ks[1..][j];
        }
      }
    }
  }

  lemma {:induction false} FirstConstant(cs: seq<CaseInfo>, v: int)
    ensures First(Constants(cs), Some(v)) == First(cs, Some(v))
    ensures First(cs, None) == Default(cs)
    decreases |cs|
  {
    if cs != [] {
      FirstConstant(cs[1..], v);
      if cs[0].value.Some? { assert Constants(cs)[1..] == Constants(cs[1..]); }
      else { assert Constants(cs) == Constants(cs[1..]); }
    }
  }

  /** Dispatch goes to the chosen case's own block, or to the end of the switch. */
  lemma {:induction false} ChosenBlock(blocks: seq<Block>, body: Stmts, end: nat, v: int)
    requires SwitchLayout(blocks, CollectAll(body), end)
    ensures var cs := CollectAll(body);
      var to := Lookup(SwitchTable(cs, end), v, SwitchDefault(cs, end));
      match Chosen(body, v) case None => to == end case Some(id) => Tagged(blocks, to, ForCase(id))
  {
    var cs := CollectAll(body);
    CaseOfAllIsFirst(body, Some(v));
    CaseOfAllIsFirst(body, None);
    FirstConstant(cs, v);
    ConstantsHaveValues(cs);
    TableLookup(Constants(cs), end + 1, v, SwitchDefault(cs, end));
  }

  // ----- jumping to a target -----

  lemma {:induction false} FindMisses(s: Stmt, t: Tag, k: Cont)
    requires t !in Open(s) && t != Plain
    ensures Find(s, t, k) == None
    decreases s
  {
    match s
    case Compound(body) => FindAllMisses(body, t, k);
    case If(_, thn, els) =>
      FindMisses(thn, t, KSeq(Nil, k));
      if els.Some? { FindMisses(els.value, t, KSeq(Nil, k)); }
    case While(cond, body, _) => FindMisses(body, t, KWhile(cond, body, k));
    case For(_, test, inc, body) => FindMisses(body, t, KFor(test, inc, body, k));
    case Switch(_, _, body) => if !t.ForCase? { FindTopMisses(body, t, k); }
    case Case(_, _, body) => FindAllMisses(body, t, k);
    case Label(_, labelled) => if labelled.Some? { FindMisses(labelled.value, t, k); }
    case _ =>
  }

  lemma {:induction false} FindAllMisses(ss: Stmts, t: Tag, k: Cont)
    requires t !in OpenAll(ss) && t != Plain
    ensures FindAll(ss, t, k) == None
    decreases ss
  {
    if ss.Cons? {
      FindMisses(ss.head, t, KSeq(ss.tail, k));
      FindAllMisses(ss.tail, t, k);
    }
  }

  lemma {:induction false} FindTopMisses(ss: Stmts, t: Tag, k: Cont)
    requires t.ForLabel? && t !in OpenAll(ss)
    ensures FindTop(ss, t, k) == None
    decreases ss
  {
    if ss.Cons? {
      FindMisses(ss.head, t, KSwitch(ss.tail, k));
      FindTopMisses(ss.tail, t, k);
    }
  }

  /** Whatever the search for a target returns is translated at the target's block. */
  lemma {:induction false} FindMatches(
    e: Env, s: Stmt, t: Tag, k: Cont, p: Point, q: Point, brk: Option<nat>, cnt: Option<nat>)
    returns (b: nat)
    requires Tr(e.blocks, e.lost, s, p, q, brk, cnt) && MatchK(e, k, q, brk, cnt)
    requires Find(s, t, k).Some? && t != Plain && t !in e.lost
    ensures Tagged(e.blocks, b, t)
    ensures var r := Find(s, t, k).value; Match(e, r.0, r.1, At(b, 0))
    decreases s, 1
  {
    hide MatchK, Match, TrAll, TrTop, Codes, Code, Flow, LoopTest, Dispatches, SwitchLayout, Tagged;
    match s
    case Compound(body) => b := FindAllMatches(e, body, t, k, p, q, brk, cnt);
    case If(_, _, _) => b := FindIfMatches(e, s, t, k, p, q, brk, cnt);
    case While(_, _, _) => b := FindWhileMatches(e, s, t, k, p, q, brk, cnt);
    case For(_, _, _, _) => b := FindForMatches(e, s, t, k, p, q, brk, cnt);
    case Switch(_, _, _) => b := FindSwitchMatches(e, s, t, k, p, q, brk, cnt);
    case Case(_, _, _) => b := FindCaseMatches(e, s, t, k, p, q, brk, cnt);
    case Label(_, _) => b := FindLabelMatches(e, s, t, k, p, q, brk, cnt);
  }

  lemma {:induction false} FindWhileMatches(
    e: Env, s: Stmt, t: Tag, k: Cont, p: Point, q: Point, brk: Option<nat>, cnt: Option<nat>)
    returns (b: nat)
    requires s.While?
    requires Tr(e.blocks, e.lost, s, p, q, brk, cnt) && MatchK(e, k, q, brk, cnt)
    requires Find(s, t, k).Some? && t != Plain && t !in e.lost
    ensures Tagged(e.blocks, b, t)
    ensures var r := Find(s, t, k).value; Match(e, r.0, r.1, At(b, 0))
    decreases s, 0
  {
    var k' := KWhile(s.cond, s.body1, k);
    var cb: nat, bb: nat, m :|
      && Tr(e.blocks, e.lost, s.body1, At(bb, 0), m, Some(q.b), Some(cb)) && Flow(e.blocks, m, cb)
      && LoopTest(e.blocks, cb, Eval(s.cond), bb, q.b);
    assert MatchK(e, k', m, Some(q.b), Some(cb));
    b := FindMatches(e, s.body1, t, k', At(bb, 0), m, Some(q.b), Some(cb));
  }

  lemma {:induction false} FindForMatches(
    e: Env, s: Stmt, t: Tag, k: Cont, p: Point, q: Point, brk: Option<nat>, cnt: Option<nat>)
    returns (b: nat)
    requires s.For?
    requires Tr(e.blocks, e.lost, s, p, q, brk, cnt) && MatchK(e, k, q, brk, cnt)
    requires Find(s, t, k).Some? && t != Plain && t !in e.lost
    ensures Tagged(e.blocks, b, t)
    ensures var r := Find(s, t, k).value; Match(e, r.0, r.1, At(b, 0))
    decreases s, 0
  {
    var k' := KFor(s.test, s.inc, s.body2, k);
    var cb: nat, bb: nat, ib: nat, m :|
      && Tr(e.blocks, e.lost, s.body2, At(bb, 0), m, Some(q.b), Some(ib)) && Flow(e.blocks, m, ib)
      && LoopTest(e.blocks, cb, TestInstr(s.test), bb, q.b)
      && Codes(e.blocks, ib, 0, OpThenBranch(s.inc, cb));
    assert MatchK(e, k', m, Some(q.b), Some(ib));
    b := FindMatches(e, s.body2, t, k', At(bb, 0), m, Some(q.b), Some(ib));
  }

  lemma {:induction false} FindSwitchMatches(
    e: Env, s: Stmt, t: Tag, k: Cont, p: Point, q: Point, brk: Option<nat>, cnt: Option<nat>)
    returns (b: nat)
    requires s.Switch?
    requires Tr(e.blocks, e.lost, s, p, q, brk, cnt) && MatchK(e, k, q, brk, cnt)
    requires Find(s, t, k).Some? && t != Plain && t !in e.lost
    ensures Tagged(e.blocks, b, t)
    ensures var r := Find(s, t, k).value; Match(e, r.0, r.1, At(b, 0))
    decreases s, 0
  {
    var m :| TrTop(e.blocks, e.lost, s.cases, Dead, m, Some(q.b), cnt) && Flow(e.blocks, m, q.b);
    b := FindTopMatches(e, s.cases, t, k, Dead, m, q.b, brk, cnt);
  }

  lemma {:induction false} FindCaseMatches(
    e: Env, s: Stmt, t: Tag, k: Cont, p: Point, q: Point, brk: Option<nat>, cnt: Option<nat>)
    returns (b: nat)
    requires s.Case?
    requires Tr(e.blocks, e.lost, s, p, q, brk, cnt) && MatchK(e, k, q, brk, cnt)
    requires Find(s, t, k).Some? && t != Plain && t !in e.lost
    ensures Tagged(e.blocks, b, t)
    ensures var r := Find(s, t, k).value; Match(e, r.0, r.1, At(b, 0))
    decreases s, 0
  {
    b :| Tagged(e.blocks, b, ForCase(s.id)) && Flow(e.blocks, p, b) &&
      TrAll(e.blocks, e.lost, s.caseBody, At(b, 0), q, brk, cnt);
    if t != ForCase(s.id) { b := FindAllMatches(e, s.caseBody, t, k, At(b, 0), q, brk, cnt); }
  }

  lemma {:induction false} FindIfMatches(
    e: Env, s: Stmt, t: Tag, k: Cont, p: Point, q: Point, brk: Option<nat>, cnt: Option<nat>)
    returns (b: nat)
    requires s.If?
    requires Tr(e.blocks, e.lost, s, p, q, brk, cnt) && MatchK(e, k, q, brk, cnt)
    requires Find(s, t, k).Some? && t != Plain && t !in e.lost
    ensures Tagged(e.blocks, b, t)
    ensures var r := Find(s, t, k).value; Match(e, r.0, r.1, At(b, 0))
    decreases s, 0, 1
  {
    if s.els.Some? {
      b := FindIfElseMatches(e, s, t, k, p, q, brk, cnt);
    } else {
      hide MatchK, Match, Codes, Flow;
      var k' := KSeq(Nil, k);
      var tb: nat, m :| Tr(e.blocks, e.lost, s.thn, At(tb, 0), m, brk, cnt) && Flow(e.blocks, m, q.b);
      BranchMatches(e, k, m, q, brk, cnt);
      b := FindMatches(e, s.thn, t, k', At(tb, 0), m, brk, cnt);
    }
  }

  lemma {:induction false} FindIfElseMatches(
    e: Env, s: Stmt, t: Tag, k: Cont, p: Point, q: Point, brk: Option<nat>, cnt: Option<nat>)
    returns (b: nat)
    requires s.If? && s.els.Some?
    requires Tr(e.blocks, e.lost, s, p, q, brk, cnt) && MatchK(e, k, q, brk, cnt)
    requires Find(s, t, k).Some? && t != Plain && t !in e.lost
    ensures Tagged(e.blocks, b, t)
    ensures var r := Find(s, t, k).value; Match(e, r.0, r.1, At(b, 0))
    decreases s, 0, 0
  {
    hide MatchK, Match, Codes, Flow, Tagged;
    var k' := KSeq(Nil, k);
    var tb: nat, m1, eb: nat, m2 :|
      && Tr(e.blocks, e.lost, s.thn, At(tb, 0), m1, brk, cnt) && Flow(e.blocks, m1, q.b)
      && Tr(e.blocks, e.lost, s.els.value, At(eb, 0), m2, brk, cnt) && Flow(e.blocks, m2, q.b);
    BranchMatches(e, k, m1, q, brk, cnt);
    BranchMatches(e, k, m2, q, brk, cnt);
    if Find(s.thn, t, k').Some? {
      b := FindMatches(e, s.thn, t, k', At(tb, 0), m1, brk, cnt);
    } else {
      b := FindMatches(e, s.els.value, t, k', At(eb, 0), m2, brk, cnt);
    }
  }

  /** The end of a branch continues at the join block. */
  lemma {:induction false} BranchMatches(e: Env, k: Cont, m: Point, q: Point, brk: Option<nat>, cnt: Option<nat>)
    requires MatchK(e, k, q, brk, cnt) && q.At? && q.pc == 0 && Flow(e.blocks, m, q.b)
    ensures MatchK(e, KSeq(Nil, k), m, brk, cnt)
  {
    assert FlowsTo(e.blocks, m, q) && TrAll(e.blocks, e.lost, Nil, q, q, brk, cnt);
  }

  lemma {:induction false} FindLabelMatches(
    e: Env, s: Stmt, t: Tag, k: Cont, p: Point, q: Point, brk: Option<nat>, cnt: Option<nat>)
    returns (b: nat)
    requires s.Label?
    requires Tr(e.blocks, e.lost, s, p, q, brk, cnt) && MatchK(e, k, q, brk, cnt)
    requires Find(s, t, k).Some? && t != Plain && t !in e.lost
    ensures Tagged(e.blocks, b, t)
    ensures var r := Find(s, t, k).value; Match(e, r.0, r.1, At(b, 0))
    decreases s, 0
  {
    b :| Tagged(e.blocks, b, ForLabel(s.name)) && Flow(e.blocks, p, b) &&
      (match s.labelled case None => q == At(b, 0) case Some(l) => Tr(e.blocks, e.lost, l, At(b, 0), q, brk, cnt));
    if t != ForLabel(s.name) {
      b := FindMatches(e, s.labelled.value, t, k, At(b, 0), q, brk, cnt);
    } else {
      OptionalMatches(e, s.labelled, k, At(b, 0), q, brk, cnt);
    }
  }

  lemma {:induction false} OptionalMatches(
    e: Env, s: Option<Stmt>, k: Cont, p: Point, q: Point, brk: Option<nat>, cnt: Option<nat>)
    requires p.At? && MatchK(e, k, q, brk, cnt)
    requires match s case None => q == p case Some(l) => Tr(e.blocks, e.lost, l, p, q, brk, cnt)
    ensures Match(e, Optional(s), k, p)
  {
    if s.Some? {
      assert TrAll(e.blocks, e.lost, Nil, q, q, brk, cnt);
      assert TrAll(e.blocks, e.lost, Optional(s), p, q, brk, cnt);
    } else {
      assert TrAll(e.blocks, e.lost, Nil, p, q, brk, cnt);
    }
  }

  lemma {:induction false} FindAllMatches(
    e: Env, ss: Stmts, t: Tag, k: Cont, p: Point, q: Point, brk: Option<nat>, cnt: Option<nat>)
    returns (b: nat)
    requires TrAll(e.blocks, e.lost, ss, p, q, brk, cnt) && MatchK(e, k, q, brk, cnt)
    requires FindAll(ss, t, k).Some? && t != Plain && t !in e.lost
    ensures Tagged(e.blocks, b, t)
    ensures var r := FindAll(ss, t, k).value; Match(e, r.0, r.1, At(b, 0))
    decreases ss
  {
    var s, rest := ss.head, ss.tail;
    if p.At? || CanReopen(s) {
      var m :| Tr(e.blocks, e.lost, s, p, m, brk, cnt) && TrAll(e.blocks, e.lost, rest, m, q, brk, cnt);
      assert FlowsTo(e.blocks, m, m);
      assert MatchK(e, KSeq(rest, k), m, brk, cnt);
      if Find(s, t, KSeq(rest, k)).Some? {
        b := FindMatches(e, s, t, KSeq(rest, k), p, m, brk, cnt);
      } else {
        b := FindAllMatches(e, rest, t, k, m, q, brk, cnt);
      }
    } else {
      FindMisses(s, t, KSeq(rest, k));
      b := FindAllMatches(e, rest, t, k, p, q, brk, cnt);
    }
  }

  /** After a statement of a switch body come the others, then the end of the switch. */
  lemma {:induction false} TopMatches(
    e: Env, rest: Stmts, k: Cont, from: Point, m: Point, end: nat, brk: Option<nat>, cnt: Option<nat>)
    requires TrTop(e.blocks, e.lost, rest, from, m, Some(end), cnt) && Flow(e.blocks, m, end)
    requires MatchK(e, k, At(end, 0), brk, cnt)
    ensures MatchK(e, KSwitch(rest, k), from, Some(end), cnt)
  {
    hide TrTop, Flow;
  }

  lemma {:induction false} FindTopMatches(
    e: Env, ss: Stmts, t: Tag, k: Cont, p: Point, m: Point, end: nat, brk: Option<nat>, cnt: Option<nat>)
    returns (b: nat)
    requires TrTop(e.blocks, e.lost, ss, p, m, Some(end), cnt) && Flow(e.blocks, m, end)
    requires MatchK(e, k, At(end, 0), brk, cnt) && FindTop(ss, t, k).Some? && t != Plain && t !in e.lost
    ensures Tagged(e.blocks, b, t)
    ensures var r := FindTop(ss, t, k).value; Match(e, r.0, r.1, At(b, 0))
    decreases ss
  {
    hide Match, MatchK, Tr, TrAll, Flow;
    var s, rest := ss.head, ss.tail;
    if p.At? || CanReopen(s) || ContainsOwnedCase(s) {
      var m' :| Tr(e.blocks, e.lost, s, p, m', Some(end), cnt) && TrTop(e.blocks, e.lost, rest, m', m, Some(end), cnt);
      TopMatches(e, rest, k, m', m, end, brk, cnt);
      if Find(s, t, KSwitch(rest, k)).Some? {
        b := FindMatches(e, s, t, KSwitch(rest, k), p, m', Some(end), cnt);
      } else {
        b := FindTopMatches(e, rest, t, k, m', m, end, brk, cnt);
      }
    } else {
      FindMisses(s, t, KSwitch(rest, k));
      b := FindTopMatches(e, rest, t, k, p, m, end, brk, cnt);
    }
  }

  // ----- jumping out -----

  lemma {:induction false} BreakMatches(e: Env, k: Cont, q: Point, brk: Option<nat>, cnt: Option<nat>)
    requires MatchK(e, k, q, brk, cnt) && brk.Some?
    ensures match AfterBreak(k) case None => brk == e.brk case Some(k') => Match(e, Nil, k', At(brk.value, 0))
    decreases k
  {
    match k
    case KStop =>
    case KSeq(rest, k') =>
      var q', m :|
        FlowsTo(e.blocks, q, q') && TrAll(e.blocks, e.lost, rest, q', m, brk, cnt) && MatchK(e, k', m, brk, cnt);
      BreakMatches(e, k', m, brk, cnt);
    case KWhile(_, _, k') =>
      var brk', cnt' :| MatchK(e, k', At(brk.value, 0), brk', cnt');
      assert TrAll(e.blocks, e.lost, Nil, At(brk.value, 0), At(brk.value, 0), brk', cnt');
    case KFor(_, _, _, k') =>
      var brk', cnt' :| MatchK(e, k', At(brk.value, 0), brk', cnt');
      assert TrAll(e.blocks, e.lost, Nil, At(brk.value, 0), At(brk.value, 0), brk', cnt');
    case KSwitch(_, k') =>
      var brk' :| MatchK(e, k', At(brk.value, 0), brk', cnt);
      assert TrAll(e.blocks, e.lost, Nil, At(brk.value, 0), At(brk.value, 0), brk', cnt);
  }

  lemma {:induction false} ContinueMatches(e: Env, k: Cont, q: Point, brk: Option<nat>, cnt: Option<nat>)
    requires MatchK(e, k, q, brk, cnt) && cnt.Some?
    ensures match AfterContinue(k) case None => cnt == e.cnt case Some(k') => Match(e, Nil, k', At(cnt.value, 0))
    decreases k
  {
    var at := At(cnt.value, 0);
    match k
    case KStop =>
    case KSeq(rest, k') =>
      var q', m :|
        FlowsTo(e.blocks, q, q') && TrAll(e.blocks, e.lost, rest, q', m, brk, cnt) && MatchK(e, k', m, brk, cnt);
      ContinueMatches(e, k', m, brk, cnt);
    case KWhile(_, _, _) =>
      assert TrAll(e.blocks, e.lost, Nil, at, at, brk, cnt) && MatchK(e, k, at, brk, cnt);
    case KFor(_, _, _, _) =>
      assert TrAll(e.blocks, e.lost, Nil, at, at, brk, cnt) && MatchK(e, k, at, brk, cnt);
    case KSwitch(_, k') =>
      var brk' :| MatchK(e, k', At(brk.value, 0), brk', cnt);
      ContinueMatches(e, k', At(brk.value, 0), brk', cnt);
  }

  // ----- one source step, zero or more machine steps -----

  /** Control is at the code of `s`, which leads to `at`, where the code of `rest` starts. */
  ghost predicate Entered(
    e: Env, s: Stmt, rest: Stmts, k: Cont, p: Point, at: Point, q: Point, brk: Option<nat>, cnt: Option<nat>)
  {
    && p.At? && Tr(e.blocks, e.lost, s, p, at, brk, cnt)
    && TrAll(e.blocks, e.lost, rest, at, q, brk, cnt) && MatchK(e, k, q, brk, cnt)
  }

  ghost predicate Simulated<S>(
    m: Meaning<S>, e: Env, p: Point, st: S, v: int, d: Config<S>, n: nat, p': Point, v': int)
  {
    Runs(m, e.blocks, p, st, v, n, p', d.st, v') && Match(e, d.focus, d.k, p')
  }

  lemma {:induction false} SeqMatches(
    e: Env, rest: Stmts, k: Cont, from: Point, at: Point, q: Point, brk: Option<nat>, cnt: Option<nat>)
    requires TrAll(e.blocks, e.lost, rest, at, q, brk, cnt) && MatchK(e, k, q, brk, cnt) && FlowsTo(e.blocks, from, at)
    ensures MatchK(e, KSeq(rest, k), from, brk, cnt)
  {}

  lemma {:induction false} NilMatches(e: Env, k: Cont, p: Point, brk: Option<nat>, cnt: Option<nat>)
    requires p.At? && MatchK(e, k, p, brk, cnt)
    ensures Match(e, Nil, k, p)
  {
    assert TrAll(e.blocks, e.lost, Nil, p, p, brk, cnt);
  }

  lemma {:induction false} OneMatches(e: Env, s: Stmt, k: Cont, p: Point, q: Point, brk: Option<nat>, cnt: Option<nat>)
    requires p.At? && Tr(e.blocks, e.lost, s, p, q, brk, cnt) && MatchK(e, k, q, brk, cnt)
    ensures Match(e, One(s), k, p)
  {
    OptionalMatches(e, Some(s), k, p, q, brk, cnt);
  }

  lemma {:induction false} SimpleSim<S>(
    m: Meaning<S>, e: Env, root: Stmt, s: Stmt, rest: Stmts, k: Cont, st: S, p: Point, at: Point, q: Point,
    brk: Option<nat>, cnt: Option<nat>, v: int)
    returns (n: nat, p': Point, v': int)
    requires s.Simple?
    requires Entered(e, s, rest, k, p, at, q, brk, cnt) && StmtStep(m, root, s, KSeq(rest, k), st).Next?
    ensures n > 0 && Simulated(m, e, p, st, v, StmtStep(m, root, s, KSeq(rest, k), st).c, n, p', v')
  {
    RunOne(m, e.blocks, p, st, v);
    SeqMatches(e, rest, k, at, at, q, brk, cnt);
    NilMatches(e, KSeq(rest, k), at, brk, cnt);
    n, p', v' := 1, at, v;
  }

  lemma {:induction false} IfSim<S>(
    m: Meaning<S>, e: Env, root: Stmt, s: Stmt, rest: Stmts, k: Cont, st: S, p: Point, at: Point, q: Point,
    brk: Option<nat>, cnt: Option<nat>, v: int)
    returns (n: nat, p': Point, v': int)
    requires s.If?
    requires Entered(e, s, rest, k, p, at, q, brk, cnt) && StmtStep(m, root, s, KSeq(rest, k), st).Next?
    ensures n > 0 && Simulated(m, e, p, st, v, StmtStep(m, root, s, KSeq(rest, k), st).c, n, p', v')
  {
    var k' := KSeq(rest, k);
    SeqMatches(e, rest, k, at, at, q, brk, cnt);
    var b := if m.eval(s.cond, st).0 != 0 then Some(s.thn) else s.els;
    var to, m' := IfBranch(m, e, s, st, p, at, brk, cnt, v);
    if b.Some? {
      SeqMatches(e, rest, k, m', at, q, brk, cnt);
      OneMatches(e, b.value, k', At(to, 0), m', brk, cnt);
    } else {
      NilMatches(e, k', at, brk, cnt);
    }
    n, p', v' := 2, At(to, 0), m.eval(s.cond, st).0;
  }

  /** The branch taken, its first block, and where it ends. */
  lemma {:induction false} IfBranch<S>(
    m: Meaning<S>, e: Env, s: Stmt, st: S, p: Point, at: Point, brk: Option<nat>, cnt: Option<nat>, v: int)
    returns (to: nat, m': Point)
    requires s.If? && p.At? && Tr(e.blocks, e.lost, s, p, at, brk, cnt)
    ensures var r := m.eval(s.cond, st);
      var b := if r.0 != 0 then Some(s.thn) else s.els;
      && Runs(m, e.blocks, p, st, v, 2, At(to, 0), r.1, r.0)
      && (match b
          case None => at == At(to, 0)
          case Some(s') => Tr(e.blocks, e.lost, s', At(to, 0), m', brk, cnt) && FlowsTo(e.blocks, m', at))
  {
    var r := m.eval(s.cond, st);
    if s.els.Some? {
      var tb: nat, m1, eb: nat, m2 :|
        && Tr(e.blocks, e.lost, s.thn, At(tb, 0), m1, brk, cnt) && Flow(e.blocks, m1, at.b)
        && Tr(e.blocks, e.lost, s.els.value, At(eb, 0), m2, brk, cnt) && Flow(e.blocks, m2, at.b)
        && Codes(e.blocks, p.b, p.pc, [Eval(s.cond), CondBr(tb, eb)]);
      RunIf(m, e.blocks, p, s.cond, tb, eb, st, v);
      to, m' := if r.0 != 0 then tb else eb, if r.0 != 0 then m1 else m2;
    } else {
      var tb: nat, m1 :|
        && Tr(e.blocks, e.lost, s.thn, At(tb, 0), m1, brk, cnt) && Flow(e.blocks, m1, at.b)
        && Codes(e.blocks, p.b, p.pc, [Eval(s.cond), CondBr(tb, at.b)]);
      RunIf(m, e.blocks, p, s.cond, tb, at.b, st, v);
      to, m' := if r.0 != 0 then tb else at.b, m1;
    }
  }

  lemma {:induction false} RunIf<S>(
    m: Meaning<S>, blocks: seq<Block>, p: Point, cond: nat, yes: nat, no: nat, st: S, v: int)
    requires p.At? && Codes(blocks, p.b, p.pc, [Eval(cond), CondBr(yes, no)])
    ensures var r := m.eval(cond, st);
      Runs(m, blocks, p, st, v, 2, At(if r.0 != 0 then yes else no, 0), r.1, r.0)
  {
    var code := [Eval(cond), CondBr(yes, no)];
    assert Code(blocks, p.b, p.pc + 0, code[0]) && Code(blocks, p.b, p.pc + 1, code[1]);
    RunTest(m, blocks, p.b, p.pc, Some(cond), yes, no, st, v);
  }

  lemma {:induction false} WhileSim<S>(
    m: Meaning<S>, e: Env, root: Stmt, s: Stmt, rest: Stmts, k: Cont, st: S, p: Point, at: Point, q: Point,
    brk: Option<nat>, cnt: Option<nat>, v: int)
    returns (n: nat, p': Point, v': int)
    requires s.While?
    requires Entered(e, s, rest, k, p, at, q, brk, cnt) && StmtStep(m, root, s, KSeq(rest, k), st).Next?
    ensures n > 0 && Simulated(m, e, p, st, v, StmtStep(m, root, s, KSeq(rest, k), st).c, n, p', v')
  {
    var k' := KWhile(s.cond, s.body1, KSeq(rest, k));
    SeqMatches(e, rest, k, at, at, q, brk, cnt);
    var cb: nat, bb: nat, m' :|
      && Tr(e.blocks, e.lost, s.body1, At(bb, 0), m', Some(at.b), Some(cb)) && Flow(e.blocks, m', cb)
      && LoopTest(e.blocks, cb, Eval(s.cond), bb, at.b)
      && Flow(e.blocks, p, if s.isDo then bb else cb);
    var to := if s.isDo then bb else cb;
    RunBranch(m, e.blocks, p, to, st, v);
    if s.isDo {
      assert MatchK(e, k', m', Some(at.b), Some(cb));
      OneMatches(e, s.body1, k', At(bb, 0), m', Some(at.b), Some(cb));
    } else {
      assert MatchK(e, k', At(cb, 0), Some(at.b), Some(cb));
      NilMatches(e, k', At(cb, 0), Some(at.b), Some(cb));
    }
    n, p', v' := 1, At(to, 0), v;
  }

  lemma {:induction false} ForSim<S>(
    m: Meaning<S>, e: Env, root: Stmt, s: Stmt, rest: Stmts, k: Cont, st: S, p: Point, at: Point, q: Point,
    brk: Option<nat>, cnt: Option<nat>, v: int)
    returns (n: nat, p': Point, v': int)
    requires s.For?
    requires Entered(e, s, rest, k, p, at, q, brk, cnt) && StmtStep(m, root, s, KSeq(rest, k), st).Next?
    ensures n > 0 && Simulated(m, e, p, st, v, StmtStep(m, root, s, KSeq(rest, k), st).c, n, p', v')
  {
    SeqMatches(e, rest, k, at, at, q, brk, cnt);
    var cb: nat, bb: nat, ib: nat, m' :|
      && Tr(e.blocks, e.lost, s.body2, At(bb, 0), m', Some(at.b), Some(ib)) && Flow(e.blocks, m', ib)
      && LoopTest(e.blocks, cb, TestInstr(s.test), bb, at.b)
      && Codes(e.blocks, ib, 0, OpThenBranch(s.inc, cb))
      && Codes(e.blocks, p.b, p.pc, OpThenBranch(s.init, cb));
    n, p', v' := ForTested(m, e, p, s.init, s.test, cb, bb, at.b, st, v);
    ForMatches(e, s.test, s.inc, s.body2, KSeq(rest, k), cb, bb, ib, at.b, m', brk, cnt);
  }

  /** The initializer or the increment, then the test. */
  lemma {:induction false} ForTested<S>(
    m: Meaning<S>, e: Env, p: Point, op: Option<nat>, test: Option<nat>, cb: nat, bb: nat, end: nat, st: S,
    v: int)
    returns (n: nat, p': Point, v': int)
    requires p.At? && Codes(e.blocks, p.b, p.pc, OpThenBranch(op, cb))
    requires LoopTest(e.blocks, cb, TestInstr(test), bb, end)
    ensures var r := Test(m, test, Perform(m, op, st));
      n > 0 && p' == At(if r.0 != 0 then bb else end, 0) && Runs(m, e.blocks, p, st, v, n, p', r.1, v')
  {
    var st1 := Perform(m, op, st);
    var r := Test(m, test, st1);
    var n1 := RunThenBranch(m, e.blocks, p, op, cb, st, v);
    RunTest(m, e.blocks, cb, 0, test, bb, end, st1, v);
    p', v' := At(if r.0 != 0 then bb else end, 0), r.0;
    RunsTrans(m, e.blocks, p, st, v, n1, At(cb, 0), st1, v, 2, p', r.1, v');
    n := n1 + 2;
  }

  lemma {:induction false} ForMatches(
    e: Env, test: Option<nat>, inc: Option<nat>, body: Stmt, k: Cont, cb: nat, bb: nat, ib: nat, end: nat,
    m': Point, brk: Option<nat>, cnt: Option<nat>)
    requires Tr(e.blocks, e.lost, body, At(bb, 0), m', Some(end), Some(ib)) && Flow(e.blocks, m', ib)
    requires LoopTest(e.blocks, cb, TestInstr(test), bb, end) && Codes(e.blocks, ib, 0, OpThenBranch(inc, cb))
    requires MatchK(e, k, At(end, 0), brk, cnt)
    ensures Match(e, One(body), KFor(test, inc, body, k), At(bb, 0)) && Match(e, Nil, k, At(end, 0))
  {
    var k' := KFor(test, inc, body, k);
    assert MatchK(e, k', m', Some(end), Some(ib));
    OneMatches(e, body, k', At(bb, 0), m', Some(end), Some(ib));
    NilMatches(e, k, At(end, 0), brk, cnt);
  }

  lemma {:induction false} JumpOutSim<S>(
    m: Meaning<S>, e: Env, root: Stmt, s: Stmt, rest: Stmts, k: Cont, st: S, p: Point, at: Point, q: Point,
    brk: Option<nat>, cnt: Option<nat>, v: int)
    returns (n: nat, p': Point, v': int)
    requires s.Break? || s.Continue?
    requires Entered(e, s, rest, k, p, at, q, brk, cnt) && StmtStep(m, root, s, KSeq(rest, k), st).Next?
    ensures n > 0 && Simulated(m, e, p, st, v, StmtStep(m, root, s, KSeq(rest, k), st).c, n, p', v')
  {
    SeqMatches(e, rest, k, at, at, q, brk, cnt);
    var to := if s.Break? then brk.value else cnt.value;
    RunBranch(m, e.blocks, p, to, st, v);
    if s.Break? {
      BreakMatches(e, KSeq(rest, k), at, brk, cnt);
    } else {
      ContinueMatches(e, KSeq(rest, k), at, brk, cnt);
    }
    n, p', v' := 1, At(to, 0), v;
  }

  lemma {:induction false} SwitchSim<S>(
    m: Meaning<S>, e: Env, root: Stmt, s: Stmt, rest: Stmts, k: Cont, st: S, p: Point, at: Point, q: Point,
    brk: Option<nat>, cnt: Option<nat>, v: int)
    returns (n: nat, p': Point, v': int)
    requires s.Switch? && UniqueTags(e.blocks)
    requires Entered(e, s, rest, k, p, at, q, brk, cnt) && StmtStep(m, root, s, KSeq(rest, k), st).Next?
    requires !JumpsInto(m, Config(Cons(s, rest), k, st), e.lost)
    ensures n > 0 && Simulated(m, e, p, st, v, StmtStep(m, root, s, KSeq(rest, k), st).c, n, p', v')
  {
    hide MatchK, Match, TrAll, TrTop, Dispatches, SwitchLayout, SwitchTable, SwitchDefault, FindTop;
    var k' := KSeq(rest, k);
    SeqMatches(e, rest, k, at, at, q, brk, cnt);
    var to;
    n, to, v' := DispatchSim(m, e, s, st, p, at, brk, cnt, v);
    p' := At(to, 0);
    if Chosen(s.cases, v').Some? {
      var m' :| TrTop(e.blocks, e.lost, s.cases, Dead, m', Some(at.b), cnt) && Flow(e.blocks, m', at.b);
      var b := FindTopMatches(e, s.cases, ForCase(Chosen(s.cases, v').value), k', Dead, m', at.b, brk, cnt);
      assert b == to;
    } else {
      NilMatches(e, k', at, brk, cnt);
    }
  }

  lemma {:induction false} LabelSim<S>(
    m: Meaning<S>, e: Env, root: Stmt, s: Stmt, rest: Stmts, k: Cont, st: S, p: Point, at: Point, q: Point,
    brk: Option<nat>, cnt: Option<nat>, v: int)
    returns (n: nat, p': Point, v': int)
    requires s.Label?
    requires Entered(e, s, rest, k, p, at, q, brk, cnt) && StmtStep(m, root, s, KSeq(rest, k), st).Next?
    ensures n > 0 && Simulated(m, e, p, st, v, StmtStep(m, root, s, KSeq(rest, k), st).c, n, p', v')
  {
    SeqMatches(e, rest, k, at, at, q, brk, cnt);
    var b: nat :| Tagged(e.blocks, b, ForLabel(s.name)) && Flow(e.blocks, p, b) &&
      (match s.labelled case None => at == At(b, 0) case Some(l) => Tr(e.blocks, e.lost, l, At(b, 0), at, brk, cnt));
    OptionalMatches(e, s.labelled, KSeq(rest, k), At(b, 0), at, brk, cnt);
    RunBranch(m, e.blocks, p, b, st, v);
    n, p', v' := 1, At(b, 0), v;
  }

  lemma {:induction false} CaseSim<S>(
    m: Meaning<S>, e: Env, root: Stmt, s: Stmt, rest: Stmts, k: Cont, st: S, p: Point, at: Point, q: Point,
    brk: Option<nat>, cnt: Option<nat>, v: int)
    returns (n: nat, p': Point, v': int)
    requires s.Case?
    requires Entered(e, s, rest, k, p, at, q, brk, cnt) && StmtStep(m, root, s, KSeq(rest, k), st).Next?
    ensures n > 0 && Simulated(m, e, p, st, v, StmtStep(m, root, s, KSeq(rest, k), st).c, n, p', v')
  {
    SeqMatches(e, rest, k, at, at, q, brk, cnt);
    var b: nat :| Tagged(e.blocks, b, ForCase(s.id)) && Flow(e.blocks, p, b) &&
      TrAll(e.blocks, e.lost, s.caseBody, At(b, 0), at, brk, cnt);
    RunBranch(m, e.blocks, p, b, st, v);
    n, p', v' := 1, At(b, 0), v;
  }

  lemma {:induction false} GotoSim<S>(
    m: Meaning<S>, e: Env, root: Stmt, s: Stmt, rest: Stmts, k: Cont, st: S, p: Point, at: Point, q: Point,
    brk: Option<nat>, cnt: Option<nat>, v: int)
    returns (n: nat, p': Point, v': int)
    requires s.Goto? && UniqueTags(e.blocks) && RootTranslated(e, root)
    requires Entered(e, s, rest, k, p, at, q, brk, cnt) && StmtStep(m, root, s, KSeq(rest, k), st).Next?
    requires !JumpsInto(m, Config(Cons(s, rest), k, st), e.lost)
    ensures n > 0 && Simulated(m, e, p, st, v, StmtStep(m, root, s, KSeq(rest, k), st).c, n, p', v')
  {
    hide MatchK, Match, TrAll, TrTop, Find, FindTop, Chosen;
    StopMatches(e);
    var to: nat :| Tagged(e.blocks, to, ForLabel(s.name)) && Code(e.blocks, p.b, p.pc, Br(to));
    RunBranch(m, e.blocks, p, to, st, v);
    var p0 :| Tr(e.blocks, e.lost, root, p0, e.exit, e.brk, e.cnt);
    var b := FindMatches(e, root, ForLabel(s.name), KStop, p0, e.exit, e.brk, e.cnt);
    assert b == to;
    n, p', v' := 1, At(to, 0), v;
  }

  lemma {:induction false} StopMatches(e: Env)
    ensures MatchK(e, KStop, e.exit, e.brk, e.cnt)
  {}

  ghost predicate RootTranslated(e: Env, root: Stmt) {
    exists p0 :: Tr(e.blocks, e.lost, root, p0, e.exit, e.brk, e.cnt)
  }

  // ----- going on after the focus is finished -----

  /** Bounds how many steps in a row the machine can stand still. */
  function Size(s: Stmt): nat {
    match s case Compound(body) => 1 + SizeAll(body) case _ => 0
  }

  function SizeAll(ss: Stmts): nat {
    match ss case Nil => 0 case Cons(s, rest) => 1 + Size(s) + SizeAll(rest)
  }

  function SizeTop(ss: Stmts): nat {
    match ss case Nil => 0 case Cons(s, rest) => 2 + Size(s) + SizeTop(rest)
  }

  function SizeK(k: Cont): nat {
    match k
    case KStop => 0
    case KSeq(rest, k') => 1 + SizeAll(rest) + SizeK(k')
    case KWhile(_, _, k') => SizeK(k')
    case KFor(_, _, _, k') => SizeK(k')
    case KSwitch(rest, k') => 1 + SizeTop(rest) + SizeK(k')
  }

  function Rank<S>(c: Config<S>): nat {
    SizeAll(c.focus) + SizeK(c.k)
  }

  lemma {:induction false} ResumeSim<S>(
    m: Meaning<S>, e: Env, k: Cont, st: S, p: Point, brk: Option<nat>, cnt: Option<nat>, v: int)
    returns (n: nat, p': Point, v': int)
    requires p.At? && MatchK(e, k, p, brk, cnt) && ResumeStep(m, k, st).Next?
    ensures Simulated(m, e, p, st, v, ResumeStep(m, k, st).c, n, p', v')
    ensures n > 0 || Rank(ResumeStep(m, k, st).c) < SizeK(k)
  {
    match k
    case KSeq(rest, k') =>
      var q', m' :|
        FlowsTo(e.blocks, p, q') && TrAll(e.blocks, e.lost, rest, q', m', brk, cnt) && MatchK(e, k', m', brk, cnt);
      if q' == p {
        n, p', v' := 0, p, v;
      } else {
        RunBranch(m, e.blocks, p, q'.b, st, v);
        n, p', v' := 1, q', v;
      }
    case KWhile(_, _, _) => n, p', v' := ResumeWhileSim(m, e, k, st, p, brk, cnt, v);
    case KFor(_, _, _, _) => n, p', v' := ResumeForSim(m, e, k, st, p, brk, cnt, v);
    case KSwitch(_, _) => n, p', v' := ResumeSwitchSim(m, e, k, st, p, brk, cnt, v);
  }

  lemma {:induction false} ResumeWhileSim<S>(
    m: Meaning<S>, e: Env, k: Cont, st: S, p: Point, brk: Option<nat>, cnt: Option<nat>, v: int)
    returns (n: nat, p': Point, v': int)
    requires p.At? && MatchK(e, k, p, brk, cnt) && k.KWhile?
    ensures n > 0 && Simulated(m, e, p, st, v, ResumeStep(m, k, st).c, n, p', v')
  {
    hide Tr, TrAll, TrTop, Match;
    var bb: nat, m' :|
      && Tr(e.blocks, e.lost, k.body, At(bb, 0), m', brk, cnt) && Flow(e.blocks, m', cnt.value)
      && LoopTest(e.blocks, cnt.value, Eval(k.cond), bb, brk.value);
    var brk', cnt' :| MatchK(e, k.k, At(brk.value, 0), brk', cnt');
    var r := m.eval(k.cond, st);
    var n1 := RunReach(m, e.blocks, p, cnt.value, st, v);
    RunTest(m, e.blocks, cnt.value, 0, Some(k.cond), bb, brk.value, st, v);
    p', v' := At(if r.0 != 0 then bb else brk.value, 0), r.0;
    RunsTrans(m, e.blocks, p, st, v, n1, At(cnt.value, 0), st, v, 2, p', r.1, v');
    n := n1 + 2;
    if r.0 != 0 {
      assert MatchK(e, k, m', brk, cnt);
      OneMatches(e, k.body, k, p', m', brk, cnt);
    } else {
      NilMatches(e, k.k, p', brk', cnt');
    }
  }

  lemma {:induction false} ResumeForSim<S>(
    m: Meaning<S>, e: Env, k: Cont, st: S, p: Point, brk: Option<nat>, cnt: Option<nat>, v: int)
    returns (n: nat, p': Point, v': int)
    requires p.At? && MatchK(e, k, p, brk, cnt) && k.KFor?
    ensures n > 0 && Simulated(m, e, p, st, v, ResumeStep(m, k, st).c, n, p', v')
  {
    hide Tr, TrAll, TrTop, Match;
    var cb: nat, bb: nat, m' :|
      && Tr(e.blocks, e.lost, k.body, At(bb, 0), m', brk, cnt) && Flow(e.blocks, m', cnt.value)
      && LoopTest(e.blocks, cb, TestInstr(k.test), bb, brk.value)
      && Codes(e.blocks, cnt.value, 0, OpThenBranch(k.inc, cb));
    var brk', cnt' :| MatchK(e, k.k, At(brk.value, 0), brk', cnt');
    var ib := At(cnt.value, 0);
    var n1 := RunReach(m, e.blocks, p, cnt.value, st, v);
    var n2;
    n2, p', v' := ForTested(m, e, ib, k.inc, k.test, cb, bb, brk.value, st, v);
    var d := ResumeStep(m, k, st).c;
    RunsTrans(m, e.blocks, p, st, v, n1, ib, st, v, n2, p', d.st, v');
    n := n1 + n2;
    ForMatches(e, k.test, k.inc, k.body, k.k, cb, bb, cnt.value, brk.value, m', brk', cnt');
  }

  lemma {:induction false} ResumeSwitchSim<S>(
    m: Meaning<S>, e: Env, k: Cont, st: S, p: Point, brk: Option<nat>, cnt: Option<nat>, v: int)
    returns (n: nat, p': Point, v': int)
    requires p.At? && MatchK(e, k, p, brk, cnt) && k.KSwitch?
    ensures Simulated(m, e, p, st, v, ResumeStep(m, k, st).c, n, p', v')
    ensures n > 0 || Rank(ResumeStep(m, k, st).c) < SizeK(k)
  {
    var m' :| TrTop(e.blocks, e.lost, k.rest, p, m', brk, cnt) && Flow(e.blocks, m', brk.value);
    var brk' :| MatchK(e, k.k, At(brk.value, 0), brk', cnt);
    if k.rest == Nil {
      RunBranch(m, e.blocks, p, brk.value, st, v);
      NilMatches(e, k.k, At(brk.value, 0), brk', cnt);
      n, p', v' := 1, At(brk.value, 0), v;
    } else {
      var s, rest := k.rest.head, k.rest.tail;
      assert TrTop(e.blocks, e.lost, Cons(s, rest), p, m', brk, cnt);
      var m'' :| Tr(e.blocks, e.lost, s, p, m'', brk, cnt) && TrTop(e.blocks, e.lost, rest, m'', m', brk, cnt);
      assert MatchK(e, KSwitch(rest, k.k), m'', brk, cnt);
      OneMatches(e, s, KSwitch(rest, k.k), p, m'', brk, cnt);
      n, p', v' := 0, p, v;
      assert SizeAll(One(s)) == 1 + Size(s) by { assert SizeAll(Nil) == 0; }
    }
  }

  // ----- any step -----

  /** The blocks contain the translation of the whole statement, and each target's block is unique. */
  ghost predicate Compiled(e: Env, root: Stmt) {
    UniqueTags(e.blocks) && RootTranslated(e, root)
  }

  lemma {:induction false} StmtSim<S>(
    m: Meaning<S>, e: Env, root: Stmt, s: Stmt, rest: Stmts, k: Cont, st: S, p: Point, at: Point, q: Point,
    brk: Option<nat>, cnt: Option<nat>, v: int)
    returns (n: nat, p': Point, v': int)
    requires Compiled(e, root)
    requires Entered(e, s, rest, k, p, at, q, brk, cnt) && StmtStep(m, root, s, KSeq(rest, k), st).Next?
    requires !JumpsInto(m, Config(Cons(s, rest), k, st), e.lost)
    ensures var d := StmtStep(m, root, s, KSeq(rest, k), st).c;
      Simulated(m, e, p, st, v, d, n, p', v') && (n > 0 || Rank(d) < SizeAll(Cons(s, rest)) + SizeK(k))
  {
    hide Tr, TrAll, MatchK, Simulated, Runs;
    match s
    case Simple(_) => n, p', v' := SimpleSim(m, e, root, s, rest, k, st, p, at, q, brk, cnt, v);
    case Compound(body) => n, p', v' := CompoundSim(m, e, root, s, rest, k, st, p, at, q, brk, cnt, v);
    case If(_, _, _) => n, p', v' := IfSim(m, e, root, s, rest, k, st, p, at, q, brk, cnt, v);
    case While(_, _, _) => n, p', v' := WhileSim(m, e, root, s, rest, k, st, p, at, q, brk, cnt, v);
    case For(_, _, _, _) => n, p', v' := ForSim(m, e, root, s, rest, k, st, p, at, q, brk, cnt, v);
    case Break => n, p', v' := JumpOutSim(m, e, root, s, rest, k, st, p, at, q, brk, cnt, v);
    case Continue => n, p', v' := JumpOutSim(m, e, root, s, rest, k, st, p, at, q, brk, cnt, v);
    case Switch(_, _, _) => n, p', v' := SwitchSim(m, e, root, s, rest, k, st, p, at, q, brk, cnt, v);
    case Case(_, _, _) => n, p', v' := CaseSim(m, e, root, s, rest, k, st, p, at, q, brk, cnt, v);
    case Label(_, _) => n, p', v' := LabelSim(m, e, root, s, rest, k, st, p, at, q, brk, cnt, v);
    case Goto(_) => n, p', v' := GotoSim(m, e, root, s, rest, k, st, p, at, q, brk, cnt, v);
  }

  lemma {:induction false} CompoundSim<S>(
    m: Meaning<S>, e: Env, root: Stmt, s: Stmt, rest: Stmts, k: Cont, st: S, p: Point, at: Point, q: Point,
    brk: Option<nat>, cnt: Option<nat>, v: int)
    returns (n: nat, p': Point, v': int)
    requires s.Compound? && Entered(e, s, rest, k, p, at, q, brk, cnt)
    ensures var d := StmtStep(m, root, s, KSeq(rest, k), st).c;
      Simulated(m, e, p, st, v, d, n, p', v') && Rank(d) < SizeAll(Cons(s, rest)) + SizeK(k)
  {
    hide MatchK, TrAll, Find, FindTop, Chosen;
    SeqMatches(e, rest, k, at, at, q, brk, cnt);
    n, p', v' := 0, p, v;
  }

  /** Every step of the source is matched by machine steps to the same state, and the machine cannot
      stand still forever. */
  lemma {:induction false} StepSim<S>(m: Meaning<S>, e: Env, root: Stmt, c: Config<S>, p: Point, v: int)
    returns (n: nat, p': Point, v': int)
    requires Compiled(e, root) && Match(e, c.focus, c.k, p) && SourceStep(m, root, c).Next?
    requires !JumpsInto(m, c, e.lost)
    ensures var d := SourceStep(m, root, c).c;
      Simulated(m, e, p, c.st, v, d, n, p', v') && (n > 0 || Rank(d) < Rank(c))
  {
    var q, brk, cnt :| TrAll(e.blocks, e.lost, c.focus, p, q, brk, cnt) && MatchK(e, c.k, q, brk, cnt);
    if c.focus == Nil {
      n, p', v' := ResumeSim(m, e, c.k, c.st, p, brk, cnt, v);
    } else {
      var s, rest := c.focus.head, c.focus.tail;
      assert TrAll(e.blocks, e.lost, Cons(s, rest), p, q, brk, cnt);
      var at :| Tr(e.blocks, e.lost, s, p, at, brk, cnt) && TrAll(e.blocks, e.lost, rest, at, q, brk, cnt);
      n, p', v' := StmtSim(m, e, root, s, rest, c.k, c.st, p, at, q, brk, cnt, v);
    }
  }

  // ----- whole runs -----

  /** Where the machine stands when the statement has ended in the given way. */
  predicate Landed(e: Env, how: Exit, p: Point) {
    match how
    case Normal => p == e.exit
    case Broke => e.brk.Some? && p == At(e.brk.value, 0)
    case Continued => e.cnt.Some? && p == At(e.cnt.value, 0)
    case Returned => p.At? && Code(e.blocks, p.b, p.pc, Ret)
  }

  /** The last source step. */
  lemma {:induction false} DoneSim<S>(
    m: Meaning<S>, e: Env, root: Stmt, c: Config<S>, p: Point, v: int) returns (n: nat, p': Point)
    requires Match(e, c.focus, c.k, p) && SourceStep(m, root, c).Done?
    ensures var o := SourceStep(m, root, c); Runs(m, e.blocks, p, c.st, v, n, p', o.st, v) && Landed(e, o.how, p')
  {
    var q, brk, cnt :| TrAll(e.blocks, e.lost, c.focus, p, q, brk, cnt) && MatchK(e, c.k, q, brk, cnt);
    if c.focus == Nil {
      n, p' := 0, p;
    } else {
      var s, rest := c.focus.head, c.focus.tail;
      assert TrAll(e.blocks, e.lost, Cons(s, rest), p, q, brk, cnt);
      var at :| Tr(e.blocks, e.lost, s, p, at, brk, cnt) && TrAll(e.blocks, e.lost, rest, at, q, brk, cnt);
      SeqMatches(e, rest, c.k, at, at, q, brk, cnt);
      n, p' := LeaveSim(m, e, root, s, KSeq(rest, c.k), c.st, p, at, brk, cnt, v);
    }
  }

  lemma {:induction false} LeaveSim<S>(
    m: Meaning<S>, e: Env, root: Stmt, s: Stmt, k: Cont, st: S, p: Point, at: Point, brk: Option<nat>,
    cnt: Option<nat>, v: int)
    returns (n: nat, p': Point)
    requires p.At? && Tr(e.blocks, e.lost, s, p, at, brk, cnt) && MatchK(e, k, at, brk, cnt)
    requires StmtStep(m, root, s, k, st).Done?
    ensures var o := StmtStep(m, root, s, k, st); Runs(m, e.blocks, p, st, v, n, p', o.st, v) && Landed(e, o.how, p')
  {
    hide MatchK, Match, TrAll, TrTop, AfterBreak, AfterContinue;
    assert s.Return? || s.Break? || s.Continue?;
    n := 1;
    if s.Return? {
      assert Code(e.blocks, p.b, p.pc + 0, [Exec(s.op), Ret][0]) && Code(e.blocks, p.b, p.pc + 1, [Exec(s.op), Ret][1]);
      RunOne(m, e.blocks, p, st, v);
      p' := At(p.b, p.pc + 1);
    } else if s.Break? {
      BreakMatches(e, k, at, brk, cnt);
      RunBranch(m, e.blocks, p, brk.value, st, v);
      p' := At(brk.value, 0);
    } else {
      ContinueMatches(e, k, at, brk, cnt);
      RunBranch(m, e.blocks, p, cnt.value, st, v);
      p' := At(cnt.value, 0);
    }
  }

  /** A source run that ends, and does not jump to a lost target, takes the machine to the matching
      place with the same state. */
  lemma {:induction false} TerminatingRun<S>(m: Meaning<S>, e: Env, root: Stmt, c: Config<S>, p: Point, v: int, k: nat)
    returns (n: nat, p': Point, v': int)
    requires Compiled(e, root) && Match(e, c.focus, c.k, p) && SourceRun(m, root, c, k).Done?
    requires Avoids(m, root, c, e.lost, k)
    ensures var o := SourceRun(m, root, c, k); Runs(m, e.blocks, p, c.st, v, n, p', o.st, v') && Landed(e, o.how, p')
    decreases k
  {
    hide Match, Compiled, SourceStep, MachineStep, MachineRun, JumpsInto, Landed;
    if SourceStep(m, root, c).Next? {
      var d := SourceStep(m, root, c).c;
      var n1, p1, v1 := StepSim(m, e, root, c, p, v);
      var n2;
      n2, p', v' := TerminatingRun(m, e, root, d, p1, v1, k - 1);
      var o := SourceRun(m, root, c, k);
      RunsTrans(m, e.blocks, p, c.st, v, n1, p1, d.st, v1, n2, p', o.st, v');
      n := n1 + n2;
    } else {
      n, p' := DoneSim(m, e, root, c, p, v);
      v' := v;
    }
  }

  ghost predicate NeverEnds<S(!new)>(m: Meaning<S>, root: Stmt, c: Config<S>) {
    forall k :: SourceRun(m, root, c, k).Next?
  }

  ghost predicate AlwaysAvoids<S(!new)>(m: Meaning<S>, root: Stmt, c: Config<S>, tags: set<Tag>) {
    forall k :: Avoids(m, root, c, tags, k)
  }

  lemma {:induction false} NeverEndsNext<S(!new)>(m: Meaning<S>, root: Stmt, c: Config<S>, tags: set<Tag>)
    requires NeverEnds(m, root, c) && AlwaysAvoids(m, root, c, tags)
    ensures SourceStep(m, root, c).Next? && NeverEnds(m, root, SourceStep(m, root, c).c)
    ensures !JumpsInto(m, c, tags) && AlwaysAvoids(m, root, SourceStep(m, root, c).c, tags)
  {
    hide JumpsInto;
    assert SourceRun(m, root, c, 1).Next? && Avoids(m, root, c, tags, 1);
    forall k: nat
      ensures SourceRun(m, root, SourceStep(m, root, c).c, k).Next?
      ensures Avoids(m, root, SourceStep(m, root, c).c, tags, k)
    {
      assert SourceRun(m, root, c, k + 1).Next? && Avoids(m, root, c, tags, k + 1);
    }
  }

  /** A source run that never ends, and never jumps to a lost target, keeps the machine running. */
  lemma {:induction false} DivergingRun<S(!new)>(
    m: Meaning<S>, e: Env, root: Stmt, c: Config<S>, p: Point, v: int, n: nat)
    requires Compiled(e, root) && Match(e, c.focus, c.k, p)
    requires NeverEnds(m, root, c) && AlwaysAvoids(m, root, c, e.lost)
    ensures MachineRun(m, e.blocks, M(p, c.st, v), n).Some?
    decreases n, Rank(c)
  {
    hide Match, Compiled, NeverEnds, AlwaysAvoids, SourceStep, MachineStep, MachineRun, JumpsInto;
    NeverEndsNext(m, root, c, e.lost);
    var d := SourceStep(m, root, c).c;
    var n1, p1, v1 := StepSim(m, e, root, c, p, v);
    if n1 < n {
      DivergingRun(m, e, root, d, p1, v1, n - n1);
      MachineRunCompose(m, e.blocks, M(p, c.st, v), n1, n - n1);
    } else {
      RunPrefix(m, e.blocks, M(p, c.st, v), n, n1);
    }
  }

  // ----- jumps to a lost target -----

  /** A jump takes the machine to the start of the target's block, whether or not anything was put
      there. */
  lemma {:induction false} JumpSim<S>(m: Meaning<S>, e: Env, c: Config<S>, p: Point, v: int)
    returns (n: nat, b: nat, v': int)
    requires Match(e, c.focus, c.k, p) && JumpsTo(m, c).Some?
    ensures Tagged(e.blocks, b, JumpsTo(m, c).value) && JumpsTo(m, c).value != Plain
    ensures Runs(m, e.blocks, p, c.st, v, n, At(b, 0), JumpState(m, c), v')
  {
    hide MatchK, Dispatches;
    var q, brk, cnt :| TrAll(e.blocks, e.lost, c.focus, p, q, brk, cnt) && MatchK(e, c.k, q, brk, cnt);
    var s, rest := c.focus.head, c.focus.tail;
    assert TrAll(e.blocks, e.lost, Cons(s, rest), p, q, brk, cnt);
    var at :| Tr(e.blocks, e.lost, s, p, at, brk, cnt) && TrAll(e.blocks, e.lost, rest, at, q, brk, cnt);
    if s.Goto? {
      b :| Tagged(e.blocks, b, ForLabel(s.name)) && Code(e.blocks, p.b, p.pc, Br(b));
      RunBranch(m, e.blocks, p, b, c.st, v);
      n, v' := 1, v;
    } else {
      n, b, v' := DispatchSim(m, e, s, c.st, p, at, brk, cnt, v);
    }
  }

  /** The condition and the dispatch of a switch. */
  lemma {:induction false} DispatchSim<S>(
    m: Meaning<S>, e: Env, s: Stmt, st: S, p: Point, at: Point, brk: Option<nat>, cnt: Option<nat>, v: int)
    returns (n: nat, to: nat, v': int)
    requires s.Switch? && Tr(e.blocks, e.lost, s, p, at, brk, cnt)
    ensures var r := m.eval(s.cond, st);
      && n > 0 && v' == r.0 && Runs(m, e.blocks, p, st, v, n, At(to, 0), r.1, v')
      && match Chosen(s.cases, r.0)
         case None => to == at.b
         case Some(id) => Tagged(e.blocks, to, ForCase(id))
  {
    hide TrTop, SwitchTable, SwitchDefault, SwitchLayout, Dispatches;
    var cs, end := CollectAll(s.cases), at.b;
    var r := m.eval(s.cond, st);
    RunOne(m, e.blocks, p, st, v);
    to := Lookup(SwitchTable(cs, end), r.0, SwitchDefault(cs, end));
    var n1 := DispatchRuns(m, e.blocks, p.b, p.pc + 1, SwitchTable(cs, end), SwitchDefault(cs, end), r.1, r.0);
    RunsTrans(m, e.blocks, p, st, v, 1, At(p.b, p.pc + 1), r.1, r.0, n1, At(to, 0), r.1, r.0);
    n, v' := 1 + n1, r.0;
    ChosenBlock(e.blocks, s.cases, end, r.0);
  }

  /** A source run that jumps to a lost target takes the machine to that target's block. */
  lemma {:induction false} LostRun<S>(m: Meaning<S>, e: Env, root: Stmt, c: Config<S>, p: Point, v: int, k: nat)
    returns (n: nat, b: nat, st': S, v': int)
    requires Compiled(e, root) && Match(e, c.focus, c.k, p) && !Avoids(m, root, c, e.lost, k)
    ensures b < |e.blocks| && e.blocks[b].tag in e.lost - {Plain}
    ensures Runs(m, e.blocks, p, c.st, v, n, At(b, 0), st', v')
    decreases k
  {
    hide Match, Compiled, SourceStep, MachineStep, MachineRun, JumpsTo, JumpState;
    if JumpsInto(m, c, e.lost) {
      n, b, v' := JumpSim(m, e, c, p, v);
      st' := JumpState(m, c);
    } else {
      var d := SourceStep(m, root, c).c;
      var n1, p1, v1 := StepSim(m, e, root, c, p, v);
      var n2;
      n2, b, st', v' := LostRun(m, e, root, d, p1, v1, k - 1);
      RunsTrans(m, e.blocks, p, c.st, v, n1, p1, d.st, v1, n2, At(b, 0), st', v');
      n := n1 + n2;
    }
  }

  lemma {:induction false} RunPrefix<S>(m: Meaning<S>, blocks: seq<Block>, c: Machine<S>, n: nat, n': nat)
    requires n <= n' && MachineRun(m, blocks, c, n').Some?
    ensures MachineRun(m, blocks, c, n).Some?
    decreases n
  {
    if n > 0 { RunPrefix(m, blocks, MachineStep(m, blocks, c).value, n - 1, n' - 1); }
  }

  // ----- runs that go wrong -----

  /** Every target open to a jump is found. */
  lemma {:induction false} FindHits(s: Stmt, t: Tag, k: Cont)
    requires t in Open(s)
    ensures Find(s, t, k).Some?
    decreases s
  {
    match s
    case Compound(body) => FindAllHits(body, t, k);
    case If(_, thn, els) =>
      if t in Open(thn) { FindHits(thn, t, KSeq(Nil, k)); } else { FindHits(els.value, t, KSeq(Nil, k)); }
    case While(cond, body, _) => FindHits(body, t, KWhile(cond, body, k));
    case For(_, test, inc, body) => FindHits(body, t, KFor(test, inc, body, k));
    case Switch(_, _, body) => FindTopHits(body, t, k);
    case Case(id, _, body) => if t != ForCase(id) { FindAllHits(body, t, k); }
    case Label(name, labelled) => if t != ForLabel(name) { FindHits(labelled.value, t, k); }
  }

  lemma {:induction false} FindAllHits(ss: Stmts, t: Tag, k: Cont)
    requires t in OpenAll(ss)
    ensures FindAll(ss, t, k).Some?
    decreases ss
  {
    if t in Open(ss.head) { FindHits(ss.head, t, KSeq(ss.tail, k)); } else { FindAllHits(ss.tail, t, k); }
  }

  lemma {:induction false} FindTopHits(ss: Stmts, t: Tag, k: Cont)
    requires t in OpenAll(ss)
    ensures FindTop(ss, t, k).Some?
    decreases ss
  {
    if t in Open(ss.head) { FindHits(ss.head, t, KSwitch(ss.tail, k)); } else { FindTopHits(ss.tail, t, k); }
  }

  /** The search for a constant stops at a case that a jump can reach. */
  lemma {:induction false} CaseOfIsOpen(s: Stmt, want: Option<int>)
    requires CaseOf(s, want).Some?
    ensures ForCase(CaseOf(s, want).value) in Open(s)
  {
    match s
    case Case(id, value, body) => if value != want { CaseOfAllIsOpen(body, want); }
    case Compound(body) => CaseOfAllIsOpen(body, want);
    case If(_, thn, els) =>
      if CaseOf(thn, want).Some? { CaseOfIsOpen(thn, want); } else { CaseOfIsOpen(els.value, want); }
    case While(_, body, _) => CaseOfIsOpen(body, want);
    case For(_, _, _, body) => CaseOfIsOpen(body, want);
    case Label(_, labelled) => CaseOfIsOpen(labelled.value, want);
  }

  lemma {:induction false} CaseOfAllIsOpen(ss: Stmts, want: Option<int>)
    requires CaseOfAll(ss, want).Some?
    ensures ForCase(CaseOfAll(ss, want).value) in OpenAll(ss)
  {
    if CaseOf(ss.head, want).Some? { CaseOfIsOpen(ss.head, want); } else { CaseOfAllIsOpen(ss.tail, want); }
  }

  /** The only step that goes wrong is a `goto` to a label that the text does not have. */
  lemma {:induction false} WrongIsMissingLabel<S>(m: Meaning<S>, root: Stmt, c: Config<S>)
    requires SourceStep(m, root, c).Wrong?
    ensures JumpsTo(m, c).Some? && JumpsTo(m, c).value.ForLabel? && JumpsTo(m, c).value !in Open(root)
  {
    hide Find, FindTop, Open, OpenAll, CaseOfAll;
    var s := c.focus.head;
    if s.Switch? {
      var v := m.eval(s.cond, c.st).0;
      if Chosen(s.cases, v).Some? {
        CaseOfAllIsOpen(s.cases, if CaseOfAll(s.cases, Some(v)).Some? then Some(v) else None);
        FindTopHits(s.cases, ForCase(Chosen(s.cases, v).value), KSeq(c.focus.tail, c.k));
      }
    } else if ForLabel(s.name) in Open(root) {
      FindHits(root, ForLabel(s.name), KStop);
    }
  }

  /** A source run that goes wrong takes the machine to the block of a label that the text does not
      have. */
  lemma {:induction false} WrongRun<S>(m: Meaning<S>, e: Env, root: Stmt, c: Config<S>, p: Point, v: int, k: nat)
    returns (n: nat, b: nat, st': S, v': int)
    requires Compiled(e, root) && Match(e, c.focus, c.k, p) && SourceRun(m, root, c, k).Wrong?
    requires Avoids(m, root, c, e.lost, k)
    ensures b < |e.blocks| && e.blocks[b].tag.ForLabel? && e.blocks[b].tag !in Open(root)
    ensures Runs(m, e.blocks, p, c.st, v, n, At(b, 0), st', v')
    decreases k
  {
    hide Match, Compiled, SourceStep, MachineStep, MachineRun, JumpsTo, JumpState, JumpsInto, Open;
    if SourceStep(m, root, c).Wrong? {
      WrongIsMissingLabel(m, root, c);
      n, b, v' := JumpSim(m, e, c, p, v);
      st' := JumpState(m, c);
    } else {
      var d := SourceStep(m, root, c).c;
      var n1, p1, v1 := StepSim(m, e, root, c, p, v);
      var n2;
      n2, b, st', v' := WrongRun(m, e, root, d, p1, v1, k - 1);
      RunsTrans(m, e.blocks, p, c.st, v, n1, p1, d.st, v1, n2, At(b, 0), st', v');
      n := n1 + n2;
    }
  }

  /** Anywhere inside a function: if the run of `s` ends normally, by break, by continue or by return,
      the emitted code run from the builder's position reaches respectively the builder's final
      position, the break block, the continue block or a return, with the same state, unless the run
      jumps to a target that the skipping rule passes over. */
  lemma {:induction false} LoweringPreservesRuns<S>(
    m: Meaning<S>, g: Gen, s: Stmt, joins: set<nat>, done: set<Tag>, blocks: seq<Block>, st: S, v: int, k: nat)
    returns (n: nat, p': Point, v': int)
    requires Fits(g, joins, done, Targets(s), Open(s)) && Unique(s) && ScopedIn(s, g.loops) && Live(g)
    requires Extends(Lower(g, s).blocks, blocks) && UniqueTags(blocks)
    requires SourceRun(m, s, Config(One(s), KStop, st), k).Done?
    requires Avoids(m, s, Config(One(s), KStop, st), Lost(s, true), k)
    ensures var o := SourceRun(m, s, Config(One(s), KStop, st), k);
      var e := Env(blocks, Lost(s, true), Here(Lower(g, s)), BreakTarget(g.loops), ContinueTarget(g.loops));
      Runs(m, blocks, Here(g), st, v, n, p', o.st, v') && Landed(e, o.how, p')
  {
    var e := Env(blocks, Lost(s, true), Here(Lower(g, s)), BreakTarget(g.loops), ContinueTarget(g.loops));
    LowerTranslates(g, s, joins, done, blocks, e.lost);
    OneMatches(e, s, KStop, Here(g), e.exit, e.brk, e.cnt);
    n, p', v' := TerminatingRun(m, e, s, Config(One(s), KStop, st), Here(g), v, k);
  }
}
