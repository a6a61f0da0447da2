/** Statements of one C function body, as the parser hands them to the code generator.

    Expressions, declarations and conditions are opaque: a `nat` names one, and a `Meaning`
    (module `SourceSemantics`) says what it does. A `case` node carries an identity because the
    code generator compares case nodes by pointer.
  */
module Ast {
  import opened Options

  datatype Stmt =
    | Simple(op: nat)
    | Compound(body: Stmts)
    | If(cond: nat, thn: Stmt, els: Option<Stmt>)
    | While(cond: nat, body1: Stmt, isDo: bool)
    | For(init: Option<nat>, test: Option<nat>, inc: Option<nat>, body2: Stmt)
    | Break
    | Continue
    | Return(op: nat)
    | Switch(cond: nat, integral: bool, cases: Stmts)
    | Case(id: nat, value: Option<int>, caseBody: Stmts)
    | Label(name: string, labelled: Option<Stmt>)
    | Goto(name: string)

  datatype Stmts = Nil | Cons(head: Stmt, tail: Stmts)

  /** What a jump can aim at: a named label or one `case`/`default` node. `Plain` is no target. */
  datatype Tag = Plain | ForLabel(name: string) | ForCase(id: nat)

  datatype CaseInfo = CaseInfo(id: nat, value: Option<int>)

  /** Only these two statement kinds move the builder to a block of their own first. */
  predicate CanReopen(s: Stmt) {
    s.Label? || s.Case?
  }

  /** The cases owned by the switch whose body `s` belongs to, in source order. A nested switch
      owns its own. */
  function Collect(s: Stmt): seq<CaseInfo> {
    match s
    case Case(id, value, body) => [CaseInfo(id, value)] + CollectAll(body)
    case Compound(body) => CollectAll(body)
    case If(_, thn, els) => Collect(thn) + (match els case None => [] case Some(e) => Collect(e))
    case While(_, body, _) => Collect(body)
    case For(_, _, _, body) => Collect(body)
    case Label(_, labelled) => (match labelled case None => [] case Some(b) => Collect(b))
    case _ => []
  }

  function CollectAll(ss: Stmts): seq<CaseInfo> {
    match ss
    case Nil => []
    case Cons(s, rest) => Collect(s) + CollectAll(rest)
  }

  /** The read-only search the code generator uses to decide whether a dead statement of a switch
      body must still be lowered. */
  predicate ContainsOwnedCase(s: Stmt) {
    match s
    case Case(_, _, _) => true
    case Compound(body) => AnyContainsOwnedCase(body)
    case If(_, thn, els) =>
      ContainsOwnedCase(thn) || (match els case None => false case Some(e) => ContainsOwnedCase(e))
    case While(_, body, _) => ContainsOwnedCase(body)
    case For(_, _, _, body) => ContainsOwnedCase(body)
    case Label(_, labelled) => (match labelled case None => false case Some(b) => ContainsOwnedCase(b))
    case _ => false
  }

  predicate AnyContainsOwnedCase(ss: Stmts) {
    match ss
    case Nil => false
    case Cons(s, rest) => ContainsOwnedCase(s) || AnyContainsOwnedCase(rest)
  }

  /** Case collection finds something exactly when the read-only search says it would. */
  lemma {:induction false} CollectIffContains(s: Stmt)
    ensures Collect(s) != [] <==> ContainsOwnedCase(s)
  {
    match s
    case Compound(body) => CollectAllIffAnyContains(body);
    case If(_, thn, els) =>
      CollectIffContains(thn);
      if els.Some? { CollectIffContains(els.value); }
    case While(_, body, _) => CollectIffContains(body);
    case For(_, _, _, body) => CollectIffContains(body);
    case Label(_, labelled) => if labelled.Some? { CollectIffContains(labelled.value); }
    case _ =>
  }

  lemma {:induction false} CollectAllIffAnyContains(ss: Stmts)
    ensures CollectAll(ss) != [] <==> AnyContainsOwnedCase(ss)
  {
    if ss.Cons? {
      CollectIffContains(ss.head);
      CollectAllIffAnyContains(ss.tail);
    }
  }

  /** Every jump target in `s`, at any depth and whichever switch owns it. */
  function Targets(s: Stmt): set<Tag> {
    match s
    case Case(id, _, body) => {ForCase(id)} + TargetsAll(body)
    case Compound(body) => TargetsAll(body)
    case If(_, thn, els) => Targets(thn) + (match els case None => {} case Some(e) => Targets(e))
    case While(_, body, _) => Targets(body)
    case For(_, _, _, body) => Targets(body)
    case Switch(_, _, body) => TargetsAll(body)
    case Label(name, labelled) =>
      {ForLabel(name)} + (match labelled case None => {} case Some(b) => Targets(b))
    case _ => {}
  }

  function TargetsAll(ss: Stmts): set<Tag> {
    match ss
    case Nil => {}
    case Cons(s, rest) => Targets(s) + TargetsAll(rest)
  }

  /** The targets of `s` a jump from outside `s` can reach: its labels and its owned cases. */
  function Open(s: Stmt): set<Tag> {
    match s
    case Case(id, _, body) => {ForCase(id)} + OpenAll(body)
    case Compound(body) => OpenAll(body)
    case If(_, thn, els) => Open(thn) + (match els case None => {} case Some(e) => Open(e))
    case While(_, body, _) => Open(body)
    case For(_, _, _, body) => Open(body)
    case Switch(_, _, body) => set t | t in OpenAll(body) && t.ForLabel?
    case Label(name, labelled) =>
      {ForLabel(name)} + (match labelled case None => {} case Some(b) => Open(b))
    case _ => {}
  }

  function OpenAll(ss: Stmts): set<Tag> {
    match ss
    case Nil => {}
    case Cons(s, rest) => Open(s) + OpenAll(rest)
  }

  /** No label name and no case node occurs twice. */
  predicate Unique(s: Stmt) {
    match s
    case Case(id, _, body) => ForCase(id) !in TargetsAll(body) && UniqueAll(body)
    case Compound(body) => UniqueAll(body)
    case If(_, thn, els) =>
      Unique(thn) && (match els case None => true case Some(e) => Unique(e) && Targets(thn) !! Targets(e))
    case While(_, body, _) => Unique(body)
    case For(_, _, _, body) => Unique(body)
    case Switch(_, _, body) => UniqueAll(body)
    case Label(name, labelled) =>
      (match labelled case None => true case Some(b) => ForLabel(name) !in Targets(b) && Unique(b))
    case _ => true
  }

  predicate UniqueAll(ss: Stmts) {
    match ss
    case Nil => true
    case Cons(s, rest) => Unique(s) && UniqueAll(rest) && Targets(s) !! TargetsAll(rest)
  }

  /** The switch whose body `s` belongs to owns the node `id`, whose constant is `value`; a `default`
      has none. */
  predicate Owns(s: Stmt, id: nat, value: Option<int>) {
    match s
    case Case(i, v, body) => (i == id && v == value) || OwnsAll(body, id, value)
    case Compound(body) => OwnsAll(body, id, value)
    case If(_, thn, els) =>
      Owns(thn, id, value) || (match els case None => false case Some(e) => Owns(e, id, value))
    case While(_, body, _) => Owns(body, id, value)
    case For(_, _, _, body) => Owns(body, id, value)
    case Label(_, labelled) => (match labelled case None => false case Some(b) => Owns(b, id, value))
    case _ => false
  }

  predicate OwnsAll(ss: Stmts, id: nat, value: Option<int>) {
    match ss
    case Nil => false
    case Cons(s, rest) => Owns(s, id, value) || OwnsAll(rest, id, value)
  }

  /** C's constraints on one switch: distinct constants and at most one default. */
  ghost predicate OneEach(body: Stmts) {
    forall i, j, v :: OwnsAll(body, i, v) && OwnsAll(body, j, v) ==> i == j
  }

  /** `break` and `continue` occur only where the context offers a target, and every switch in `s`
      meets C's constraints. */
  ghost predicate Scoped(s: Stmt, canBreak: bool, canContinue: bool) {
    match s
    case Break => canBreak
    case Continue => canContinue
    case Case(_, _, body) => ScopedAll(body, canBreak, canContinue)
    case Compound(body) => ScopedAll(body, canBreak, canContinue)
    case If(_, thn, els) =>
      Scoped(thn, canBreak, canContinue) &&
      (match els case None => true case Some(e) => Scoped(e, canBreak, canContinue))
    case While(_, body, _) => Scoped(body, true, true)
    case For(_, _, _, body) => Scoped(body, true, true)
    case Switch(_, _, body) => ScopedAll(body, true, canContinue) && OneEach(body)
    case Label(_, labelled) =>
      (match labelled case None => true case Some(b) => Scoped(b, canBreak, canContinue))
    case _ => true
  }

  ghost predicate ScopedAll(ss: Stmts, canBreak: bool, canContinue: bool) {
    match ss
    case Nil => true
    case Cons(s, rest) => Scoped(s, canBreak, canContinue) && ScopedAll(rest, canBreak, canContinue)
  }
}
