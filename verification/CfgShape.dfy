/** The shape of the control-flow graph of a whole function body. */
module CfgShape {
  import opened Options
  import opened Ast
  import opened Cfg
  import opened Lowering
  import opened WellFormed
  import opened LoweringKeeps

  /** What semantic analysis guarantees of a function body: no duplicate labels, no stray `break`,
      `continue` or `case`, and distinct constants in every switch. */
  ghost predicate FunctionBody(s: Stmt) {
    Unique(s) && Scoped(s, false, false) && !ContainsOwnedCase(s)
  }

  /** Blocks a finished lowering of `s` leaves without a terminator besides the one the builder is on. */
  predicate LeftOpen(h: Gen, s: Stmt, b: nat)
    requires b < |h.blocks|
  {
    match h.blocks[b].tag
    case Plain => false
    case ForLabel(name) => name !in h.defined
    case ForCase(_) => h.blocks[b].tag in Lost(s, true)
  }

  /** No block gets an instruction after a terminator; every block is terminated except the one the
      builder is left on, blocks of labels that were referenced but not defined, and blocks of cases
      the skipping rule passed over; those two kinds are still empty. */
  lemma {:induction false} FunctionBodyShape(s: Stmt)
    requires FunctionBody(s)
    ensures var h := Lower(START, s);
      forall b :: 0 <= b < |h.blocks| ==>
        && WellTerminated(h.blocks[b].code)
        && (Terminated(h.blocks[b].code) <==> !LeftOpen(h, s, b) && !(b == h.cur && Ends(s, true)))
        && (LeftOpen(h, s, b) ==> h.blocks[b].code == [])
    ensures var h := Lower(START, s);
      h.loops == [] && h.frames == [] && h.defined == set t | t in DoneBy(s, true) && t.ForLabel? :: t.name
  {
    var h := Kept0(s);
    OpenWithinTargets(s);
    forall b | 0 <= b < |h.blocks|
      ensures Pending(h, {}, DoneBy(s, true), b) == LeftOpen(h, s, b)
    {
      var t := h.blocks[b].tag;
      if t.ForCase? { assert t in Nested(s); }
      if t.ForLabel? { assert t.name in h.defined <==> t in DoneBy(s, true); }
    }
  }

  lemma {:induction false} StartFits(s: Stmt)
    requires FunctionBody(s)
    ensures Fits(START, {}, {}, Targets(s), Open(s)) && ScopedIn(s, START.loops) && Live(START)
  {
    hide Lower, Lost, Scoped, Unique, Targets, Open, Collect, ContainsOwnedCase;
    CollectIffContains(s);
    CollectOwned(s);
    assert forall t :: t in Open(s) && t.ForCase? ==> t in CaseTags([]);
  }

  lemma {:induction false} Kept0(s: Stmt) returns (h: Gen)
    requires FunctionBody(s)
    ensures h == Lower(START, s) && Kept(START, h, {}, DoneBy(s, true), Nested(s))
    ensures Live(h) == Ends(s, true) && Made(h, Lost(s, true))
    ensures forall b :: 0 <= b < |h.blocks| && h.blocks[b].tag.ForCase? ==> h.blocks[b].tag in Nested(s)
  {
    hide Lower, Lost, Ends, Targets, Open, Unique, Scoped, BlocksOk, UniqueTags, LabelsOk, Made;
    h := Lower(START, s);
    StartFits(s);
    LowerKeeps(START, s, {}, {});
    assert {} + DoneBy(s, true) == DoneBy(s, true);
    assert h.blocks[0].tag == START.blocks[0].tag;
  }

  /** The block of a case that was passed over exists, is empty, and is not the builder's. */
  lemma {:induction false} LostCaseIsEmpty(s: Stmt, t: Tag) returns (b: nat)
    requires FunctionBody(s) && t in Lost(s, true) && t.ForCase?
    ensures var h := Lower(START, s); b < |h.blocks| && h.blocks[b] == Block(t, []) && b != h.cur
  {
    var h := Kept0(s);
    assert !TagFree(h, t);
    b :| 0 <= b < |h.blocks| && h.blocks[b].tag == t;
    LostWithinTargets(s, true);
    assert Pending(h, {}, DoneBy(s, true), b);
  }

  /** The block of any target that was passed over, if there is one, is empty and not the builder's. */
  lemma {:induction false} LostBlockIsEmpty(s: Stmt, b: nat)
    requires FunctionBody(s) && b < |Lower(START, s).blocks|
    requires Lower(START, s).blocks[b].tag in Lost(s, true) - {Plain}
    ensures Lower(START, s).blocks[b].code == [] && b != Lower(START, s).cur
  {
    hide Lower, Lost, Ends, Targets;
    var h := Kept0(s);
    assert Pending(h, {}, DoneBy(s, true), b);
  }

  /** So is the block of a label that the text does not have. */
  lemma {:induction false} MissingBlockIsEmpty(s: Stmt, b: nat)
    requires FunctionBody(s) && b < |Lower(START, s).blocks|
    requires Lower(START, s).blocks[b].tag.ForLabel? && Lower(START, s).blocks[b].tag !in Open(s)
    ensures Lower(START, s).blocks[b].code == [] && Lower(START, s).blocks[b].tag !in Lost(s, true)
  {
    hide Lower, Lost, Ends, Targets, Open;
    var h := Kept0(s);
    OpenWithinTargets(s);
    LostWithinTargets(s, true);
    assert Pending(h, {}, DoneBy(s, true), b);
  }

  /** The blocks of all cases get filled exactly when the skipping rule passes over none of them. */
  lemma {:induction false} CasesFilledIff(s: Stmt)
    requires FunctionBody(s)
    ensures var h := Lower(START, s);
      (forall b :: 0 <= b < |h.blocks| && h.blocks[b].tag.ForCase? ==> Terminated(h.blocks[b].code) || b == h.cur)
      <==> (forall t :: t in Lost(s, true) ==> !t.ForCase?)
  {
    FunctionBodyShape(s);
    if t :| t in Lost(s, true) && t.ForCase? {
      var b := LostCaseIsEmpty(s, t);
    }
  }

  /** Each label and each case of `s` stands directly in a statement list, or heads a branch, a loop
      body or a labelled statement, or is a case of the switch whose body the list is. */
  ghost predicate Direct(s: Stmt) {
    match s
    case Case(_, _, body) => DirectAll(body)
    case Compound(body) => DirectAll(body)
    case If(_, thn, els) => Direct(thn) && (match els case None => true case Some(e) => Direct(e))
    case While(_, body, _) => Direct(body)
    case For(_, _, _, body) => Direct(body)
    case Switch(_, _, body) => DirectTop(body)
    case Label(_, labelled) => (match labelled case None => true case Some(b) => Direct(b))
    case _ => true
  }

  ghost predicate DirectAll(ss: Stmts) {
    match ss
    case Nil => true
    case Cons(s, rest) => (s.Label? || s.Case? || Open(s) == {}) && Direct(s) && DirectAll(rest)
  }

  ghost predicate DirectTop(ss: Stmts) {
    match ss
    case Nil => true
    case Cons(s, rest) =>
      && (s.Label? || s.Case? || (exists id, v :: Owns(s, id, v)) || Open(s) == {})
      && Direct(s) && DirectTop(rest)
  }

  /** In a body of that form the skipping rule passes over nothing. */
  lemma {:induction false} DirectLosesNothing(s: Stmt, live: bool)
    requires Direct(s)
    ensures Lost(s, live) == {}
  {
    match s
    case Compound(body) => DirectAllLosesNothing(body, live);
    case Case(_, _, body) => DirectAllLosesNothing(body, true);
    case If(_, thn, els) =>
      DirectLosesNothing(thn, true);
      if els.Some? { DirectLosesNothing(els.value, true); }
    case While(_, body, _) => DirectLosesNothing(body, true);
    case For(_, _, _, body) => DirectLosesNothing(body, true);
    case Switch(_, _, body) => DirectTopLosesNothing(body, false);
    case Label(_, labelled) => if labelled.Some? { DirectLosesNothing(labelled.value, true); }
    case _ =>
  }

  lemma {:induction false} DirectAllLosesNothing(ss: Stmts, live: bool)
    requires DirectAll(ss)
    ensures LostAll(ss, live) == {}
  {
    if ss.Cons? {
      DirectLosesNothing(ss.head, live);
      DirectAllLosesNothing(ss.tail, Ends(ss.head, live));
      DirectAllLosesNothing(ss.tail, live);
    }
  }

  lemma {:induction false} DirectTopLosesNothing(ss: Stmts, live: bool)
    requires DirectTop(ss)
    ensures LostTop(ss, live) == {}
  {
    if ss.Cons? {
      DirectLosesNothing(ss.head, live);
      DirectTopLosesNothing(ss.tail, Ends(ss.head, live));
      DirectTopLosesNothing(ss.tail, live);
      if id, v :| Owns(ss.head, id, v) {
        CollectIffOwns(ss.head, id, v);
        CollectIffContains(ss.head);
      }
    }
  }

  // `switch (c) { case a: break; { case b: ; } }`, the two case nodes being `m` and `n`
  function Inner(n: nat, b: int): Stmt {
    Compound(Cons(Case(n, Some(b), Nil), Nil))
  }

  function Outer(m: nat, a: int, inner: Stmt): Stmt {
    Case(m, Some(a), Cons(Break, Cons(inner, Nil)))
  }

  lemma {:induction false} BuriedOwns(m: nat, a: int, n: nat, b: int)
    requires a != b
    ensures OneEach(Cons(Outer(m, a, Inner(n, b)), Nil))
  {
    var leaf, inner := Case(n, Some(b), Nil), Inner(n, b);
    var outer := Outer(m, a, inner);
    forall i, v ensures OwnsAll(Cons(outer, Nil), i, v) <==> (i == m && v == Some(a)) || (i == n && v == Some(b)) {
      assert Owns(leaf, i, v) <==> i == n && v == Some(b);
      assert Owns(inner, i, v) <==> Owns(leaf, i, v);
      assert OwnsAll(Cons(inner, Nil), i, v) <==> Owns(inner, i, v);
      assert OwnsAll(Cons(Break, Cons(inner, Nil)), i, v) <==> Owns(inner, i, v);
    }
  }

  /** A case buried in a statement that follows `break` is passed over and its block stays empty. */
  lemma {:induction false} BuriedCaseIsLost(c: nat, m: nat, a: int, n: nat, b: int)
    requires m != n && a != b
    ensures var s := Switch(c, true, Cons(Outer(m, a, Inner(n, b)), Nil));
      && FunctionBody(s) && ForCase(n) in Lost(s, true)
      && CollectAll(s.cases) == [CaseInfo(m, Some(a)), CaseInfo(n, Some(b))]
      && exists i :: 0 <= i < |Lower(START, s).blocks| && Lower(START, s).blocks[i] == Block(ForCase(n), [])
  {
    var leaf := Case(n, Some(b), Nil);
    var inner := Inner(n, b);
    var outer := Outer(m, a, inner);
    var s := Switch(c, true, Cons(outer, Nil));
    assert CollectAll(Cons(outer, Nil)) == [CaseInfo(m, Some(a)), CaseInfo(n, Some(b))] by {
      hide Lower;
      assert Collect(leaf) == [CaseInfo(n, Some(b))];
      assert Collect(inner) == [CaseInfo(n, Some(b))];
      assert CollectAll(Cons(inner, Nil)) == [CaseInfo(n, Some(b))];
      assert CollectAll(Cons(Break, Cons(inner, Nil))) == [CaseInfo(n, Some(b))];
    }
    assert FunctionBody(s) by {
      hide Lower;
      assert Targets(leaf) == {ForCase(n)};
      assert TargetsAll(Cons(leaf, Nil)) == {ForCase(n)};
      assert Targets(inner) == {ForCase(n)};
      assert TargetsAll(Cons(inner, Nil)) == {ForCase(n)};
      assert TargetsAll(Cons(Break, Cons(inner, Nil))) == {ForCase(n)};
      assert Unique(leaf);
      assert UniqueAll(Cons(leaf, Nil));
      assert UniqueAll(Cons(inner, Nil));
      assert UniqueAll(Cons(Break, Cons(inner, Nil)));
      assert UniqueAll(Cons(outer, Nil));
      assert Scoped(leaf, true, false);
      assert ScopedAll(Cons(leaf, Nil), true, false);
      assert ScopedAll(Cons(inner, Nil), true, false);
      assert ScopedAll(Cons(Break, Cons(inner, Nil)), true, false);
      assert ScopedAll(Cons(outer, Nil), true, false);
      BuriedOwns(m, a, n, b);
    }
    assert ForCase(n) in Lost(s, true) by {
      hide Lower;
      assert Open(leaf) == {ForCase(n)};
      assert OpenAll(Cons(leaf, Nil)) == {ForCase(n)};
      assert Open(inner) == {ForCase(n)};
      assert LostAll(Cons(inner, Nil), false) == {ForCase(n)};
      assert LostAll(Cons(Break, Cons(inner, Nil)), true) == {ForCase(n)};
      assert Lost(outer, false) == {ForCase(n)};
    }
    var i := LostCaseIsEmpty(s, ForCase(n));
  }
}
