/** What a statement means: the behaviour sections 6.8.4 to 6.8.6 of ISO/IEC 9899:1999 give to
    selection, iteration and jump statements, as small steps over an explicit continuation.

    Nothing here mentions blocks. Jumps into the middle of statements (goto, and case labels nested
    in other statements) are found by searching the text for the target and rebuilding the
    continuation on the way down.
  */
module SourceSemantics {
  import opened Options
  import opened Ast
  import opened Cfg

  /** What remains to be done after the statements in focus. */
  datatype Cont =
    | KStop
    | KSeq(rest: Stmts, k: Cont)
    | KWhile(cond: nat, body: Stmt, k: Cont)
    | KFor(test: Option<nat>, inc: Option<nat>, body: Stmt, k: Cont)
    | KSwitch(rest: Stmts, k: Cont)

  datatype Config<S> = Config(focus: Stmts, k: Cont, st: S)

  /** How a statement can end, seen from outside it. */
  datatype Exit = Normal | Broke | Continued | Returned

  datatype Outcome<S> = Next(c: Config<S>) | Done(how: Exit, st: S) | Wrong

  function One(s: Stmt): Stmts {
    Cons(s, Nil)
  }

  function Optional(s: Option<Stmt>): Stmts {
    match s case None => Nil case Some(b) => One(b)
  }

  // ----- finding a jump target -----

  function Find(s: Stmt, t: Tag, k: Cont): Option<(Stmts, Cont)>
    decreases s
  {
    match s
    case Compound(body) => FindAll(body, t, k)
    case If(_, thn, els) =>
      (match Find(thn, t, KSeq(Nil, k))
       case Some(r) => Some(r)
       case None => (match els case None => None case Some(e) => Find(e, t, KSeq(Nil, k))))
    case While(cond, body, _) => Find(body, t, KWhile(cond, body, k))
    case For(_, test, inc, body) => Find(body, t, KFor(test, inc, body, k))
    case Switch(_, _, body) => if t.ForCase? then None else FindTop(body, t, k)
    case Case(id, _, body) => if t == ForCase(id) then Some((body, k)) else FindAll(body, t, k)
    case Label(name, labelled) =>
      if t == ForLabel(name) then Some((Optional(labelled), k))
      else (match labelled case None => None case Some(b) => Find(b, t, k))
    case _ => None
  }

  function FindAll(ss: Stmts, t: Tag, k: Cont): Option<(Stmts, Cont)>
    decreases ss
  {
    match ss
    case Nil => None
    case Cons(s, rest) =>
      (match Find(s, t, KSeq(rest, k)) case Some(r) => Some(r) case None => FindAll(rest, t, k))
  }

  /** The same inside the body of a switch, where `break` leaves the switch. */
  function FindTop(ss: Stmts, t: Tag, k: Cont): Option<(Stmts, Cont)>
    decreases ss
  {
    match ss
    case Nil => None
    case Cons(s, rest) =>
      (match Find(s, t, KSwitch(rest, k)) case Some(r) => Some(r) case None => FindTop(rest, t, k))
  }

  // ----- jumps out -----

  /** What is left after `break`; nothing when the break leaves the whole statement. */
  function AfterBreak(k: Cont): Option<Cont> {
    match k
    case KStop => None
    case KSeq(_, k') => AfterBreak(k')
    case KWhile(_, _, k') => Some(k')
    case KFor(_, _, _, k') => Some(k')
    case KSwitch(_, k') => Some(k')
  }

  /** `continue` goes to the test of the nearest loop (its increment first), past any switch. */
  function AfterContinue(k: Cont): Option<Cont> {
    match k
    case KStop => None
    case KSeq(_, k') => AfterContinue(k')
    case KWhile(_, _, _) => Some(k)
    case KFor(_, _, _, _) => Some(k)
    case KSwitch(_, k') => AfterContinue(k')
  }

  // ----- choosing a case -----

  /** The case labelled with the constant `want`, or the `default` when `want` is no constant. */
  function CaseOf(s: Stmt, want: Option<int>): Option<nat> {
    match s
    case Case(id, value, body) => if value == want then Some(id) else CaseOfAll(body, want)
    case Compound(body) => CaseOfAll(body, want)
    case If(_, thn, els) =>
      (match CaseOf(thn, want)
       case Some(id) => Some(id)
       case None => (match els case None => None case Some(e) => CaseOf(e, want)))
    case While(_, body, _) => CaseOf(body, want)
    case For(_, _, _, body) => CaseOf(body, want)
    case Label(_, labelled) => (match labelled case None => None case Some(b) => CaseOf(b, want))
    case _ => None
  }

  function CaseOfAll(ss: Stmts, want: Option<int>): Option<nat> {
    match ss
    case Nil => None
    case Cons(s, rest) => (match CaseOf(s, want) case Some(id) => Some(id) case None => CaseOfAll(rest, want))
  }

  /** The case whose constant equals the condition, else the default. */
  function Chosen(body: Stmts, v: int): Option<nat> {
    match CaseOfAll(body, Some(v))
    case Some(id) => Some(id)
    case None => CaseOfAll(body, None)
  }

  // ----- one step -----

  function Test<S>(m: Meaning<S>, test: Option<nat>, st: S): (int, S) {
    match test case None => (1, st) case Some(e) => m.eval(e, st)
  }

  function Perform<S>(m: Meaning<S>, op: Option<nat>, st: S): S {
    match op case None => st case Some(i) => m.exec(i, st)
  }

  function SourceStep<S>(m: Meaning<S>, root: Stmt, c: Config<S>): Outcome<S> {
    match c.focus
    case Nil => ResumeStep(m, c.k, c.st)
    case Cons(s, rest) => StmtStep(m, root, s, KSeq(rest, c.k), c.st)
  }

  /** The statements in focus are finished. */
  function ResumeStep<S>(m: Meaning<S>, k: Cont, st: S): Outcome<S> {
    match k
    case KStop => Done(Normal, st)
    case KSeq(rest, k') => Next(Config(rest, k', st))
    case KWhile(cond, body, k') =>
      var r := m.eval(cond, st);
      if r.0 != 0 then Next(Config(One(body), k, r.1)) else Next(Config(Nil, k', r.1))
    case KFor(test, inc, body, k') =>
      var r := Test(m, test, Perform(m, inc, st));
      if r.0 != 0 then Next(Config(One(body), k, r.1)) else Next(Config(Nil, k', r.1))
    case KSwitch(rest, k') =>
      (match rest
       case Nil => Next(Config(Nil, k', st))
       case Cons(s, rest') => Next(Config(One(s), KSwitch(rest', k'), st)))
  }

  function StmtStep<S>(m: Meaning<S>, root: Stmt, s: Stmt, k: Cont, st: S): Outcome<S> {
    match s
    case Simple(op) => Next(Config(Nil, k, m.exec(op, st)))
    case Compound(body) => Next(Config(body, k, st))
    case If(cond, thn, els) =>
      var r := m.eval(cond, st);
      Next(Config(if r.0 != 0 then One(thn) else Optional(els), k, r.1))
    case While(cond, body, isDo) =>
      Next(Config(if isDo then One(body) else Nil, KWhile(cond, body, k), st))
    case For(init, test, inc, body) =>
      var r := Test(m, test, Perform(m, init, st));
      if r.0 != 0 then Next(Config(One(body), KFor(test, inc, body, k), r.1)) else Next(Config(Nil, k, r.1))
    case Break => (match AfterBreak(k) case None => Done(Broke, st) case Some(k') => Next(Config(Nil, k', st)))
    case Continue =>
      (match AfterContinue(k) case None => Done(Continued, st) case Some(k') => Next(Config(Nil, k', st)))
    case Return(op) => Done(Returned, m.exec(op, st))
    case Switch(cond, _, body) =>
      var r := m.eval(cond, st);
      (match Chosen(body, r.0)
       case None => Next(Config(Nil, k, r.1))
       case Some(id) =>
         match FindTop(body, ForCase(id), k)
         case None => Wrong
         case Some(at) => Next(Config(at.0, at.1, r.1)))
    case Case(_, _, body) => Next(Config(body, k, st))
    case Label(_, labelled) => Next(Config(Optional(labelled), k, st))
    case Goto(name) =>
      (match Find(root, ForLabel(name), KStop)
       case None => Wrong
       case Some(at) => Next(Config(at.0, at.1, st)))
  }

  /** The outcome after at most `n` steps. */
  function SourceRun<S>(m: Meaning<S>, root: Stmt, c: Config<S>, n: nat): Outcome<S>
    decreases n
  {
    if n == 0 then Next(c)
    else match SourceStep(m, root, c)
      case Next(d) => SourceRun(m, root, d, n - 1)
      case other => other
  }

  // ----- jumps to a target -----

  /** The label or case that the next step jumps to, if it is a `goto` or a switch that chooses one. */
  function JumpsTo<S>(m: Meaning<S>, c: Config<S>): Option<Tag> {
    match c.focus
    case Nil => None
    case Cons(s, _) =>
      match s
      case Goto(name) => Some(ForLabel(name))
      case Switch(cond, _, body) =>
        (match Chosen(body, m.eval(cond, c.st).0) case None => None case Some(id) => Some(ForCase(id)))
      case _ => None
  }

  /** The state in which such a jump arrives. */
  function JumpState<S>(m: Meaning<S>, c: Config<S>): S {
    match c.focus
    case Nil => c.st
    case Cons(s, _) => if s.Switch? then m.eval(s.cond, c.st).1 else c.st
  }

  predicate JumpsInto<S>(m: Meaning<S>, c: Config<S>, tags: set<Tag>) {
    JumpsTo(m, c).Some? && JumpsTo(m, c).value in tags
  }

  /** None of the first `n` steps jumps to one of `tags`. */
  predicate Avoids<S>(m: Meaning<S>, root: Stmt, c: Config<S>, tags: set<Tag>, n: nat)
    decreases n
  {
    n == 0 || (!JumpsInto(m, c, tags) &&
      match SourceStep(m, root, c)
      case Next(d) => Avoids(m, root, d, tags, n - 1)
      case _ => true)
  }
}
