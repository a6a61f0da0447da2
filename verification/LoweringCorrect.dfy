/** Function bodies as a whole: the generated graph behaves as the source does. */
module LoweringCorrect {
  import opened Options
  import opened Ast
  import opened Cfg
  import opened Lowering
  import opened WellFormed
  import opened LoweringKeeps
  import opened CfgShape
  import opened Translation
  import opened SourceSemantics
  import opened Simulation

  ghost function BodyEnv(s: Stmt): Env {
    Env(Lower(START, s).blocks, Lost(s, true), Here(Lower(START, s)), None, None)
  }

  function Start<S>(s: Stmt, st: S): Config<S> {
    Config(One(s), KStop, st)
  }

  lemma {:induction false} BodyCompiled(s: Stmt)
    requires FunctionBody(s)
    ensures Compiled(BodyEnv(s), s) && Match(BodyEnv(s), One(s), KStop, At(0, 0))
  {
    hide Lower, Lost, Ends, Targets, Open, Unique, Scoped, BlocksOk, LabelsOk, Made, Tr, Match;
    var h := Kept0(s);
    var e := BodyEnv(s);
    StartFits(s);
    LowerTranslates(START, s, {}, {}, h.blocks, e.lost);
    OneMatches(e, s, KStop, At(0, 0), e.exit, None, None);
  }

  /** A run of the body that falls off its end or returns drives the graph from its entry to the
      builder's final block or to a return instruction, with the same state, if it never jumps to a
      target that the skipping rule passes over. */
  lemma {:induction false} BodyTerminates<S>(m: Meaning<S>, s: Stmt, st: S, v: int, k: nat)
    returns (n: nat, p': Point, v': int)
    requires FunctionBody(s) && SourceRun(m, s, Start(s, st), k).Done?
    requires Avoids(m, s, Start(s, st), Lost(s, true), k)
    ensures var o, h := SourceRun(m, s, Start(s, st), k), Lower(START, s);
      && p'.At? && MachineRun(m, h.blocks, Machine(0, 0, st, v), n) == Some(Machine(p'.b, p'.pc, o.st, v'))
      && (o.how == Normal || o.how == Returned)
      && (o.how == Normal ==> Live(h) && p' == At(h.cur, |h.blocks[h.cur].code|))
      && (o.how == Returned ==> Code(h.blocks, p'.b, p'.pc, Ret))
  {
    BodyCompiled(s);
    n, p', v' := TerminatingRun(m, BodyEnv(s), s, Start(s, st), At(0, 0), v, k);
  }

  /** A run of the body that never ends and never jumps to such a target keeps the graph running
      forever. */
  lemma {:induction false} BodyDiverges<S(!new)>(m: Meaning<S>, s: Stmt, st: S, v: int)
    requires FunctionBody(s) && NeverEnds(m, s, Start(s, st)) && AlwaysAvoids(m, s, Start(s, st), Lost(s, true))
    ensures forall n :: MachineRun(m, Lower(START, s).blocks, Machine(0, 0, st, v), n).Some?
  {
    BodyCompiled(s);
    forall n: nat ensures MachineRun(m, Lower(START, s).blocks, Machine(0, 0, st, v), n).Some? {
      DivergingRun(m, BodyEnv(s), s, Start(s, st), At(0, 0), v, n);
    }
  }

  // ----- runs that jump to a lost target -----

  /** The machine is in the block of a target that was passed over. */
  predicate InLost<S>(s: Stmt, c: Machine<S>) {
    var blocks := Lower(START, s).blocks;
    c.block < |blocks| && blocks[c.block].tag in Lost(s, true) - {Plain}
  }

  /** A run of the body that jumps to a lost target drives the graph into that target's empty block,
      where it can go no further. */
  lemma {:induction false} BodyLoses<S>(m: Meaning<S>, s: Stmt, st: S, v: int, k: nat)
    returns (n: nat, c: Machine<S>)
    requires FunctionBody(s) && !Avoids(m, s, Start(s, st), Lost(s, true), k)
    ensures var h := Lower(START, s);
      && MachineRun(m, h.blocks, Machine(0, 0, st, v), n) == Some(c)
      && InLost(s, c) && h.blocks[c.block].code == [] && c.block != h.cur
      && MachineStep(m, h.blocks, c) == None
  {
    hide Lower, Lost, Avoids;
    BodyCompiled(s);
    var b, st', v';
    n, b, st', v' := LostRun(m, BodyEnv(s), s, Start(s, st), At(0, 0), v, k);
    c := Machine(b, 0, st', v');
    LostBlockIsEmpty(s, b);
  }

  /** The run stops where no step is possible. */
  lemma {:induction false} RunsNoFurther<S>(m: Meaning<S>, blocks: seq<Block>, c: Machine<S>, n: nat, end: nat)
    requires MachineRun(m, blocks, c, n).Some? && MachineRun(m, blocks, c, end).Some?
    requires MachineStep(m, blocks, MachineRun(m, blocks, c, end).value) == None
    ensures n <= end
    decreases n
  {
    if n > 0 && end > 0 { RunsNoFurther(m, blocks, MachineStep(m, blocks, c).value, n - 1, end - 1); }
  }

  lemma {:induction false} StepsBefore<S>(m: Meaning<S>, blocks: seq<Block>, c: Machine<S>, n: nat, end: nat)
    requires n < end && MachineRun(m, blocks, c, n).Some? && MachineRun(m, blocks, c, end).Some?
    ensures MachineStep(m, blocks, MachineRun(m, blocks, c, n).value).Some?
    decreases n
  {
    if n > 0 { StepsBefore(m, blocks, MachineStep(m, blocks, c).value, n - 1, end - 1); }
  }

  /** A run of the body that goes wrong, by a `goto` to a label the body does not have, drives the graph
      into that label's empty block. */
  lemma {:induction false} BodyGoesWrong<S>(m: Meaning<S>, s: Stmt, st: S, v: int, k: nat)
    returns (n: nat, c: Machine<S>)
    requires FunctionBody(s) && SourceRun(m, s, Start(s, st), k).Wrong?
    requires Avoids(m, s, Start(s, st), Lost(s, true), k)
    ensures var h := Lower(START, s);
      && MachineRun(m, h.blocks, Machine(0, 0, st, v), n) == Some(c)
      && c.block < |h.blocks| && h.blocks[c.block].tag.ForLabel? && h.blocks[c.block].tag !in Open(s)
      && !InLost(s, c) && MachineStep(m, h.blocks, c) == None
  {
    hide Lower, Lost, Avoids, SourceRun, Open;
    BodyCompiled(s);
    var b, st', v';
    n, b, st', v' := WrongRun(m, BodyEnv(s), s, Start(s, st), At(0, 0), v, k);
    c := Machine(b, 0, st', v');
    MissingBlockIsEmpty(s, b);
  }

  /** If the machine comes to a stop outside the lost blocks, it never was in one. */
  lemma {:induction false} NeverInLost<S>(m: Meaning<S>, s: Stmt, start: Machine<S>, end: nat, n: nat)
    requires FunctionBody(s) && MachineRun(m, Lower(START, s).blocks, start, end).Some?
    requires MachineRun(m, Lower(START, s).blocks, start, n).Some?
    requires var c := MachineRun(m, Lower(START, s).blocks, start, end).value;
      MachineStep(m, Lower(START, s).blocks, c) == None && !InLost(s, c)
    ensures !InLost(s, MachineRun(m, Lower(START, s).blocks, start, n).value)
  {
    hide Lower, Lost, MachineRun, MachineStep, InLost;
    var blocks := Lower(START, s).blocks;
    RunsNoFurther(m, blocks, start, n, end);
    if n < end {
      StepsBefore(m, blocks, start, n, end);
      StepsOutsideLost(m, s, MachineRun(m, blocks, start, n).value);
    }
  }

  lemma {:induction false} StepsOutsideLost<S>(m: Meaning<S>, s: Stmt, c: Machine<S>)
    requires FunctionBody(s) && MachineStep(m, Lower(START, s).blocks, c).Some?
    ensures !InLost(s, c)
  {
    hide Lower, Lost;
    if InLost(s, c) { LostBlockIsEmpty(s, c.block); }
  }

  /** Where a run lands is not a lost block. */
  lemma {:induction false} LandsOutsideLost<S>(m: Meaning<S>, s: Stmt, st: S, v: int, k: nat)
    returns (end: nat, c: Machine<S>)
    requires FunctionBody(s) && SourceRun(m, s, Start(s, st), k).Done?
    requires Avoids(m, s, Start(s, st), Lost(s, true), k)
    ensures MachineRun(m, Lower(START, s).blocks, Machine(0, 0, st, v), end) == Some(c)
    ensures MachineStep(m, Lower(START, s).blocks, c) == None && !InLost(s, c)
  {
    hide Lower, Lost, Avoids, SourceRun, MachineRun;
    var p, v';
    end, p, v' := BodyTerminates(m, s, st, v, k);
    c := MachineRun(m, Lower(START, s).blocks, Machine(0, 0, st, v), end).value;
    if InLost(s, c) { LostBlockIsEmpty(s, c.block); }
  }

  ghost predicate StopsInLost<S(!new)>(m: Meaning<S>, s: Stmt, st: S, v: int) {
    exists n ::
      var r := MachineRun(m, Lower(START, s).blocks, Machine(0, 0, st, v), n);
      r.Some? && InLost(s, r.value)
  }

  /** For every body and every run: the graph stops in the empty block of a lost target exactly when the
      source run jumps to one. */
  lemma {:induction false} StopsInLostIff<S(!new)>(m: Meaning<S>, s: Stmt, st: S, v: int)
    requires FunctionBody(s)
    ensures StopsInLost(m, s, st, v) <==> !AlwaysAvoids(m, s, Start(s, st), Lost(s, true))
  {
    hide Lower, Lost, Avoids, SourceRun, MachineRun, MachineStep, InLost;
    var blocks, start := Lower(START, s).blocks, Machine(0, 0, st, v);
    if AlwaysAvoids(m, s, Start(s, st), Lost(s, true)) {
      forall n: nat | MachineRun(m, blocks, start, n).Some?
        ensures !InLost(s, MachineRun(m, blocks, start, n).value)
      {
        NotInLost(m, s, st, v, n);
      }
    } else {
      var k :| !Avoids(m, s, Start(s, st), Lost(s, true), k);
      var n, c := BodyLoses(m, s, st, v, k);
      assert MachineRun(m, blocks, start, n).Some?;
    }
  }

  lemma {:induction false} NotInLost<S(!new)>(m: Meaning<S>, s: Stmt, st: S, v: int, n: nat)
    requires FunctionBody(s) && AlwaysAvoids(m, s, Start(s, st), Lost(s, true))
    requires MachineRun(m, Lower(START, s).blocks, Machine(0, 0, st, v), n).Some?
    ensures !InLost(s, MachineRun(m, Lower(START, s).blocks, Machine(0, 0, st, v), n).value)
  {
    hide Lower, Lost, Avoids, SourceRun, MachineRun, MachineStep, InLost;
    var blocks, start := Lower(START, s).blocks, Machine(0, 0, st, v);
    if NeverEnds(m, s, Start(s, st)) {
      BodyDiverges(m, s, st, v);
      StepsBefore(m, blocks, start, n, n + 1);
      StepsOutsideLost(m, s, MachineRun(m, blocks, start, n).value);
    } else {
      var k :| !SourceRun(m, s, Start(s, st), k).Next?;
      var end, c;
      if SourceRun(m, s, Start(s, st), k).Done? {
        end, c := LandsOutsideLost(m, s, st, v, k);
      } else {
        end, c := BodyGoesWrong(m, s, st, v, k);
      }
      NeverInLost(m, s, start, end, n);
    }
  }

  lemma {:induction false} NothingToAvoid<S>(m: Meaning<S>, root: Stmt, c: Config<S>, n: nat)
    ensures Avoids(m, root, c, {}, n)
    decreases n
  {
    if n > 0 && SourceStep(m, root, c).Next? { NothingToAvoid(m, root, SourceStep(m, root, c).c, n - 1); }
  }

  /** In a body whose targets all stand directly in statement lists no run is ever lost. */
  lemma {:induction false} DirectIsNeverLost<S(!new)>(m: Meaning<S>, s: Stmt, st: S, v: int)
    requires FunctionBody(s) && Direct(s)
    ensures AlwaysAvoids(m, s, Start(s, st), Lost(s, true)) && !StopsInLost(m, s, st, v)
  {
    hide Lower, Lost, Direct, MachineRun, InLost;
    DirectLosesNothing(s, true);
    forall k: nat ensures Avoids(m, s, Start(s, st), Lost(s, true), k) {
      NothingToAvoid(m, s, Start(s, st), k);
    }
    StopsInLostIff(m, s, st, v);
  }

  /** `switch (c) { case a: break; { case b: ; } }` with the condition equal to `b` stops in the empty
      block of the second case. */
  lemma {:induction false} BuriedCaseStops<S>(
    mg: Meaning<S>, c: nat, m: nat, a: int, n: nat, b: int, st: S, v: int)
    returns (steps: nat, end: Machine<S>)
    requires m != n && a != b && mg.eval(c, st).0 == b
    ensures var s := Switch(c, true, Cons(Outer(m, a, Inner(n, b)), Nil));
      var blocks := Lower(START, s).blocks;
      && MachineRun(mg, blocks, Machine(0, 0, st, v), steps) == Some(end)
      && end.block < |blocks| && blocks[end.block].code == [] && MachineStep(mg, blocks, end) == None
  {
    hide Lower;
    var s := Switch(c, true, Cons(Outer(m, a, Inner(n, b)), Nil));
    BuriedCaseIsLost(c, m, a, n, b);
    assert Chosen(s.cases, b) == Some(n) by {
      assert CaseOf(Case(n, Some(b), Nil), Some(b)) == Some(n);
      assert CaseOf(Inner(n, b), Some(b)) == Some(n);
      assert CaseOfAll(Cons(Inner(n, b), Nil), Some(b)) == Some(n);
      assert CaseOfAll(Cons(Break, Cons(Inner(n, b), Nil)), Some(b)) == Some(n);
      assert CaseOf(Outer(m, a, Inner(n, b)), Some(b)) == Some(n);
    }
    assert JumpsTo(mg, Start(s, st)) == Some(ForCase(n));
    assert !Avoids(mg, s, Start(s, st), Lost(s, true), 1);
    steps, end := BodyLoses(mg, s, st, v, 1);
  }
}
