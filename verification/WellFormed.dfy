/** Lowering never adds a second terminator to a block and leaves exactly the expected blocks open. */
module WellFormed {
  import opened Options
  import opened Ast
  import opened Cfg
  import opened Lowering

  // ----- what the statement text alone decides -----

  /** Is the builder on an open block after lowering `s`, given whether it was before? */
  predicate Ends(s: Stmt, live: bool) {
    match s
    case Break => false
    case Continue => false
    case Return(_) => false
    case Compound(body) => EndsAll(body, live)
    case Case(_, _, body) => EndsAll(body, true)
    case Label(_, labelled) => (match labelled case None => true case Some(b) => Ends(b, true))
    case _ => true
  }

  predicate EndsAll(ss: Stmts, live: bool) {
    match ss
    case Nil => live
    case Cons(s, rest) => EndsAll(rest, if live || s.Label? || s.Case? then Ends(s, live) else live)
  }

  predicate EndsTop(ss: Stmts, live: bool) {
    match ss
    case Nil => live
    case Cons(s, rest) =>
      EndsTop(rest, if live || s.Label? || s.Case? || ContainsOwnedCase(s) then Ends(s, live) else live)
  }

  /** The jump targets of `s` that the statement-skipping rule passes over, so that their blocks are
      never done: targets nested in a statement that follows a terminator. */
  function Lost(s: Stmt, live: bool): set<Tag> {
    match s
    case Compound(body) => LostAll(body, live)
    case Case(_, _, body) => LostAll(body, true)
    case If(_, thn, els) => Lost(thn, true) + (match els case None => {} case Some(e) => Lost(e, true))
    case While(_, body, _) => Lost(body, true)
    case For(_, _, _, body) => Lost(body, true)
    case Switch(_, _, body) => LostTop(body, false)
    case Label(_, labelled) => (match labelled case None => {} case Some(b) => Lost(b, true))
    case _ => {}
  }

  function LostAll(ss: Stmts, live: bool): set<Tag> {
    match ss
    case Nil => {}
    case Cons(s, rest) =>
      if live || s.Label? || s.Case? then Lost(s, live) + LostAll(rest, Ends(s, live))
      else Open(s) + LostAll(rest, live)
  }

  function LostTop(ss: Stmts, live: bool): set<Tag> {
    match ss
    case Nil => {}
    case Cons(s, rest) =>
      if live || s.Label? || s.Case? || ContainsOwnedCase(s) then Lost(s, live) + LostTop(rest, Ends(s, live))
      else Open(s) + LostTop(rest, live)
  }

  // ----- the invariant -----

  /** A block made but not yet done: a join block reserved by an enclosing statement (`joins`), or
      the block of a label or case not among the `done` ones. */
  predicate Pending(g: Gen, joins: set<nat>, done: set<Tag>, b: nat)
    requires b < |g.blocks|
  {
    if g.blocks[b].tag == Plain then b in joins else g.blocks[b].tag !in done
  }

  ghost predicate BlocksOk(g: Gen, joins: set<nat>, done: set<Tag>) {
    forall b :: 0 <= b < |g.blocks| ==>
      && WellTerminated(g.blocks[b].code)
      && (Pending(g, joins, done, b) ==> g.blocks[b].code == [] && b != g.cur)
      && (!Pending(g, joins, done, b) && b != g.cur ==> Terminated(g.blocks[b].code))
  }

  ghost predicate UniqueTags(blocks: seq<Block>) {
    forall b, c :: 0 <= b < c < |blocks| && blocks[b].tag != Plain ==> blocks[b].tag != blocks[c].tag
  }

  ghost predicate LabelsOk(g: Gen, done: set<Tag>) {
    && (forall n :: n in g.labels ==> g.labels[n] < |g.blocks| && g.blocks[g.labels[n]].tag == ForLabel(n))
    && (forall b :: 0 <= b < |g.blocks| && g.blocks[b].tag.ForLabel? ==> g.blocks[b].tag.name in g.labels)
    && (forall n :: n in g.defined <==> ForLabel(n) in done)
    && (forall n :: n in g.defined ==> n in g.labels)
  }

  ghost predicate Inv(g: Gen, joins: set<nat>, done: set<Tag>) {
    && g.cur < |g.blocks|
    && BlocksOk(g, joins, done)
    && UniqueTags(g.blocks)
    && LabelsOk(g, done)
    && Plain !in done
    && (forall b :: b in joins ==> b < |g.blocks| && g.blocks[b].tag == Plain)
  }

  /** Blocks only grow, at their ends; tags and label blocks never change. */
  ghost predicate Extends(blocks: seq<Block>, blocks': seq<Block>) {
    && |blocks| <= |blocks'|
    && forall b :: 0 <= b < |blocks| ==> blocks'[b].tag == blocks[b].tag && blocks[b].code <= blocks'[b].code
  }

  ghost predicate Grows(g: Gen, h: Gen) {
    && Extends(g.blocks, h.blocks)
    && (forall n :: n in g.labels ==> n in h.labels && h.labels[n] == g.labels[n])
  }

  /** The new blocks of `h` carry no case tag outside `tags`. */
  ghost predicate NewCasesIn(g: Gen, h: Gen, tags: set<Tag>) {
    forall b :: |g.blocks| <= b < |h.blocks| && h.blocks[b].tag.ForCase? ==> h.blocks[b].tag in tags
  }

  predicate Bound(g: Gen, t: Tag)
    requires t.ForCase?
  {
    match CaseBlock(g.frames, t.id)
    case None => false
    case Some(b) => b < |g.blocks| && g.blocks[b].tag == t
  }

  ghost predicate TagFree(g: Gen, t: Tag) {
    forall b :: 0 <= b < |g.blocks| ==> g.blocks[b].tag != t
  }

  /** The targets of a statement about to be lowered (`targets`, of which `open` are reachable from
      outside it): none done yet, its own cases bound, cases of switches inside it not yet made. */
  ghost predicate Ready(g: Gen, done: set<Tag>, targets: set<Tag>, open: set<Tag>) {
    && targets !! done
    && (forall t :: t in open && t.ForCase? ==> Bound(g, t))
    && (forall t :: t in targets && t.ForCase? && t !in open ==> TagFree(g, t))
  }

  // ----- builder operations keep it -----

  lemma {:induction false} ExtendsTrans(a: seq<Block>, b: seq<Block>, c: seq<Block>)
    requires Extends(a, b) && Extends(b, c)
    ensures Extends(a, c)
  {
    forall i | 0 <= i < |a| ensures a[i].code <= c[i].code {
      assert a[i].code <= b[i].code <= c[i].code;
    }
  }

  lemma {:induction false} EmitKeeps(g: Gen, i: Instr, joins: set<nat>, done: set<Tag>)
    requires Inv(g, joins, done) && Live(g)
    ensures Inv(Emit(g, i), joins, done) && Grows(g, Emit(g, i))
    ensures Live(Emit(g, i)) <==> !i.IsTerminator()
  {
    var h := Emit(g, i);
    assert forall b :: 0 <= b < |g.blocks| ==> h.blocks[b].tag == g.blocks[b].tag;
    assert forall b :: 0 <= b < |g.blocks| && b != g.cur ==> h.blocks[b] == g.blocks[b];
    assert forall b :: 0 <= b < |g.blocks| ==> Pending(h, joins, done, b) == Pending(g, joins, done, b);
  }

  lemma {:induction false} FallKeeps(g: Gen, to: nat, joins: set<nat>, done: set<Tag>)
    requires Inv(g, joins, done)
    ensures Inv(Fall(g, to), joins, done) && Grows(g, Fall(g, to)) && !Live(Fall(g, to))
    ensures |Fall(g, to).blocks| == |g.blocks|
  {
    if Live(g) { EmitKeeps(g, Br(to), joins, done); }
  }

  lemma {:induction false} AppendKeeps(g: Gen, joins: set<nat>, done: set<Tag>)
    requires Inv(g, joins, done)
    ensures Inv(Append(g, Plain), joins + {|g.blocks|}, done) && Grows(g, Append(g, Plain))
  {
    var h := Append(g, Plain);
    assert forall b :: 0 <= b < |g.blocks| ==> h.blocks[b] == g.blocks[b];
    assert forall b :: 0 <= b < |g.blocks| ==>
      Pending(h, joins + {|g.blocks|}, done, b) == Pending(g, joins, done, b);
  }

  lemma {:induction false} AppendTagKeeps(g: Gen, t: Tag, h: Gen, joins: set<nat>, done: set<Tag>)
    requires Inv(g, joins, done) && t != Plain && t !in done && TagFree(g, t)
    requires h == if t.ForLabel? then Append(g, t).(labels := g.labels[t.name := |g.blocks|]) else Append(g, t)
    ensures Inv(h, joins, done) && Grows(g, h)
  {
    hide BlocksOk, UniqueTags, LabelsOk;
    TagStaysUnique(g.blocks, t);
    LabelsStay(g, t, h, done);
    BlocksStay(g, t, h, joins, done);
    assert forall b :: 0 <= b < |g.blocks| ==> h.blocks[b] == g.blocks[b];
  }

  lemma {:induction false} TagStaysUnique(blocks: seq<Block>, t: Tag)
    requires UniqueTags(blocks) && forall b :: 0 <= b < |blocks| ==> blocks[b].tag != t
    ensures UniqueTags(blocks + [Block(t, [])])
  {}

  lemma {:induction false} LabelsStay(g: Gen, t: Tag, h: Gen, done: set<Tag>)
    requires LabelsOk(g, done) && t != Plain && t !in done && TagFree(g, t)
    requires h == if t.ForLabel? then Append(g, t).(labels := g.labels[t.name := |g.blocks|]) else Append(g, t)
    ensures LabelsOk(h, done) && (forall n :: n in g.labels ==> n in h.labels && h.labels[n] == g.labels[n])
  {
    assert forall b :: 0 <= b < |g.blocks| ==> h.blocks[b] == g.blocks[b];
  }

  lemma {:induction false} BlocksStay(g: Gen, t: Tag, h: Gen, joins: set<nat>, done: set<Tag>)
    requires BlocksOk(g, joins, done) && g.cur < |g.blocks| && t != Plain && t !in done
    requires h.blocks == Append(g, t).blocks && h.cur == g.cur
    ensures BlocksOk(h, joins, done)
  {
    assert forall b :: 0 <= b < |g.blocks| ==> h.blocks[b] == g.blocks[b];
    assert forall b :: 0 <= b < |g.blocks| ==> Pending(h, joins, done, b) == Pending(g, joins, done, b);
  }

  lemma {:induction false} PositionKeeps(g: Gen, to: nat, joins: set<nat>, done: set<Tag>)
    requires Inv(g, joins, done) && !Live(g) && to in joins
    ensures Inv(Position(g, to), joins - {to}, done)
    ensures Live(Position(g, to)) && g.blocks[to].code == []
  {
    var h := Position(g, to);
    assert Pending(g, joins, done, to);
    forall b | 0 <= b < |g.blocks| && b != to
      ensures Pending(h, joins - {to}, done, b) == Pending(g, joins, done, b)
    {}
  }

  /** Opening the block of a label or a case. */
  lemma {:induction false} EnterKeeps(g: Gen, to: nat, h: Gen, joins: set<nat>, done: set<Tag>)
    requires Inv(g, joins, done) && to < |g.blocks|
    requires var t := g.blocks[to].tag; t != Plain && t !in done
    requires var t := g.blocks[to].tag;
      h == Enter(if t.ForLabel? then g.(defined := g.defined + {t.name}) else g, to)
    ensures Inv(h, joins, done + {g.blocks[to].tag}) && Grows(g, h)
    ensures Live(h) && h.cur == to && h.blocks[to].code == []
    ensures h.loops == g.loops && h.frames == g.frames && |h.blocks| == |g.blocks|
    ensures Live(g) ==> g.cur != to && h.blocks[g.cur].code == g.blocks[g.cur].code + [Br(to)]
  {
    assert Pending(g, joins, done, to);
    FallKeeps(g, to, joins, done);
    OpenKeeps(Fall(g, to), to, h, joins, done);
  }

  lemma {:induction false} OpenKeeps(f: Gen, to: nat, h: Gen, joins: set<nat>, done: set<Tag>)
    requires Inv(f, joins, done) && to < |f.blocks| && !Live(f)
    requires var t := f.blocks[to].tag; t != Plain && t !in done
    requires var t := f.blocks[to].tag;
      h == f.(cur := to, defined := if t.ForLabel? then f.defined + {t.name} else f.defined)
    ensures Inv(h, joins, done + {f.blocks[to].tag})
    ensures Live(h) && f.blocks[to].code == []
  {
    var t := f.blocks[to].tag;
    assert Pending(f, joins, done, to);
    forall b | 0 <= b < |f.blocks| && b != to
      ensures Pending(h, joins, done + {t}, b) == Pending(f, joins, done, b)
    {
      assert f.blocks[b].tag == Plain || f.blocks[b].tag != t;
    }
    assert LabelsOk(h, done + {t});
  }

  lemma {:induction false} FreshIfTerminatedKeeps(g: Gen, joins: set<nat>, done: set<Tag>)
    requires Inv(g, joins, done)
    ensures var h := FreshIfTerminated(g);
      Inv(h, joins, done) && Grows(g, h) && Live(h) && NewCasesIn(g, h, {}) &&
      h.loops == g.loops && h.frames == g.frames
  {
    if CurTerminated(g) {
      AppendKeeps(g, joins, done);
      PositionKeeps(Append(g, Plain), |g.blocks|, joins + {|g.blocks|}, done);
      assert joins + {|g.blocks|} - {|g.blocks|} == joins;
    }
  }

  // ----- facts about the statement functions -----

  lemma {:induction false} OpenWithinTargets(s: Stmt)
    ensures Open(s) <= Targets(s)
    ensures forall t :: t in Targets(s) && t.ForLabel? ==> t in Open(s)
    ensures Plain !in Targets(s)
  {
    match s
    case Case(_, _, body) => OpenAllWithinTargets(body);
    case Compound(body) => OpenAllWithinTargets(body);
    case If(_, thn, els) =>
      OpenWithinTargets(thn);
      if els.Some? { OpenWithinTargets(els.value); }
    case While(_, body, _) => OpenWithinTargets(body);
    case For(_, _, _, body) => OpenWithinTargets(body);
    case Switch(_, _, body) => OpenAllWithinTargets(body);
    case Label(_, labelled) => if labelled.Some? { OpenWithinTargets(labelled.value); }
    case _ =>
  }

  lemma {:induction false} OpenAllWithinTargets(ss: Stmts)
    ensures OpenAll(ss) <= TargetsAll(ss)
    ensures forall t :: t in TargetsAll(ss) && t.ForLabel? ==> t in OpenAll(ss)
    ensures Plain !in TargetsAll(ss)
  {
    if ss.Cons? {
      OpenWithinTargets(ss.head);
      OpenAllWithinTargets(ss.tail);
    }
  }

  lemma {:induction false} LostWithinTargets(s: Stmt, live: bool)
    ensures Lost(s, live) <= Targets(s)
  {
    match s
    case Compound(body) => LostAllWithinTargets(body, live);
    case Case(_, _, body) => LostAllWithinTargets(body, true);
    case If(_, thn, els) =>
      LostWithinTargets(thn, true);
      if els.Some? { LostWithinTargets(els.value, true); }
    case While(_, body, _) => LostWithinTargets(body, true);
    case For(_, _, _, body) => LostWithinTargets(body, true);
    case Switch(_, _, body) => LostTopWithinTargets(body, false);
    case Label(_, labelled) => if labelled.Some? { LostWithinTargets(labelled.value, true); }
    case _ =>
  }

  lemma {:induction false} LostAllWithinTargets(ss: Stmts, live: bool)
    ensures LostAll(ss, live) <= TargetsAll(ss)
  {
    if ss.Cons? {
      LostWithinTargets(ss.head, live);
      OpenWithinTargets(ss.head);
      LostAllWithinTargets(ss.tail, Ends(ss.head, live));
      LostAllWithinTargets(ss.tail, live);
    }
  }

  lemma {:induction false} LostTopWithinTargets(ss: Stmts, live: bool)
    ensures LostTop(ss, live) <= TargetsAll(ss)
  {
    if ss.Cons? {
      LostWithinTargets(ss.head, live);
      OpenWithinTargets(ss.head);
      LostTopWithinTargets(ss.tail, Ends(ss.head, live));
      LostTopWithinTargets(ss.tail, live);
    }
  }

  // ----- cases of one switch -----

  ghost function CaseTags(cs: seq<CaseInfo>): set<Tag> {
    set i | 0 <= i < |cs| :: ForCase(cs[i].id)
  }

  ghost predicate DistinctIds(cs: seq<CaseInfo>) {
    forall i, j :: 0 <= i < j < |cs| ==> cs[i].id != cs[j].id
  }

  lemma {:induction false} CaseTagsConcat(a: seq<CaseInfo>, b: seq<CaseInfo>)
    ensures CaseTags(a + b) == CaseTags(a) + CaseTags(b)
    ensures DistinctIds(a) && DistinctIds(b) && CaseTags(a) !! CaseTags(b) ==> DistinctIds(a + b)
  {
    forall t | t in CaseTags(a) + CaseTags(b) ensures t in CaseTags(a + b) {
      if t in CaseTags(a) {
        var i :| 0 <= i < |a| && t == ForCase(a[i].id);
        assert (a + b)[i] == a[i];
      } else {
        var i :| 0 <= i < |b| && t == ForCase(b[i].id);
        assert (a + b)[|a| + i] == b[i];
      }
    }
    if DistinctIds(a) && DistinctIds(b) && CaseTags(a) !! CaseTags(b) {
      forall i, j | 0 <= i < j < |a + b| ensures (a + b)[i].id != (a + b)[j].id {
        if i < |a| <= j {
          assert ForCase(a[i].id) in CaseTags(a);
          assert ForCase(b[j - |a|].id) in CaseTags(b);
        }
      }
    }
  }

  ghost predicate DistinctCases(cs: seq<CaseInfo>) {
    forall i, j :: 0 <= i < j < |cs| ==> cs[i].value != cs[j].value
  }

  /** Collection returns exactly the cases the switch owns, each with its constant. */
  lemma {:induction false} CollectIffOwns(s: Stmt, id: nat, value: Option<int>)
    ensures CaseInfo(id, value) in Collect(s) <==> Owns(s, id, value)
  {
    match s
    case Case(_, _, body) => CollectAllIffOwns(body, id, value);
    case Compound(body) => CollectAllIffOwns(body, id, value);
    case If(_, thn, els) =>
      CollectIffOwns(thn, id, value);
      if els.Some? { CollectIffOwns(els.value, id, value); }
    case While(_, body, _) => CollectIffOwns(body, id, value);
    case For(_, _, _, body) => CollectIffOwns(body, id, value);
    case Label(_, labelled) => if labelled.Some? { CollectIffOwns(labelled.value, id, value); }
    case _ =>
  }

  lemma {:induction false} CollectAllIffOwns(ss: Stmts, id: nat, value: Option<int>)
    ensures CaseInfo(id, value) in CollectAll(ss) <==> OwnsAll(ss, id, value)
  {
    if ss.Cons? {
      CollectIffOwns(ss.head, id, value);
      CollectAllIffOwns(ss.tail, id, value);
    }
  }

  /** The case node `i` stands before the case node `j` in `s`. */
  predicate Precedes(s: Stmt, i: nat, j: nat) {
    match s
    case Case(id, _, body) => (id == i && ForCase(j) in OpenAll(body)) || PrecedesAll(body, i, j)
    case Compound(body) => PrecedesAll(body, i, j)
    case If(_, thn, els) =>
      Precedes(thn, i, j) ||
      (match els
       case None => false
       case Some(e) => (ForCase(i) in Open(thn) && ForCase(j) in Open(e)) || Precedes(e, i, j))
    case While(_, body, _) => Precedes(body, i, j)
    case For(_, _, _, body) => Precedes(body, i, j)
    case Label(_, labelled) => (match labelled case None => false case Some(b) => Precedes(b, i, j))
    case _ => false
  }

  predicate PrecedesAll(ss: Stmts, i: nat, j: nat) {
    match ss
    case Nil => false
    case Cons(s, rest) =>
      Precedes(s, i, j) || (ForCase(i) in Open(s) && ForCase(j) in OpenAll(rest)) || PrecedesAll(rest, i, j)
  }

  ghost predicate InOrder(cs: seq<CaseInfo>, s: Stmt) {
    forall a, b :: 0 <= a < b < |cs| ==> Precedes(s, cs[a].id, cs[b].id)
  }

  ghost predicate AllInOrder(cs: seq<CaseInfo>, ss: Stmts) {
    forall a, b :: 0 <= a < b < |cs| ==> PrecedesAll(ss, cs[a].id, cs[b].id)
  }

  /** Collection follows the source order. */
  lemma {:induction false} CollectInOrder(s: Stmt)
    ensures InOrder(Collect(s), s)
  {
    match s
    case Case(id, value, body) =>
      CollectAllInOrder(body);
      ListedIsOpen(CollectAll(body), body);
    case Compound(body) => CollectAllInOrder(body);
    case If(_, thn, els) =>
      CollectInOrder(thn);
      if els.Some? {
        CollectInOrder(els.value);
        CollectOwned(thn);
        CollectOwned(els.value);
        var xs, ys := Collect(thn), Collect(els.value);
        var all := xs + ys;
        forall a, b | 0 <= a < b < |all| ensures Precedes(s, all[a].id, all[b].id) {
          if a < |xs| <= b {
            assert ForCase(xs[a].id) in CaseTags(xs) && ForCase(ys[b - |xs|].id) in CaseTags(ys);
          }
        }
      }
    case While(_, body, _) => CollectInOrder(body);
    case For(_, _, _, body) => CollectInOrder(body);
    case Label(_, labelled) => if labelled.Some? { CollectInOrder(labelled.value); }
    case _ =>
  }

  lemma {:induction false} CollectAllInOrder(ss: Stmts)
    ensures AllInOrder(CollectAll(ss), ss)
  {
    if ss.Cons? {
      CollectInOrder(ss.head);
      CollectAllInOrder(ss.tail);
      CollectOwned(ss.head);
      CollectAllOwned(ss.tail);
      var xs, ys := Collect(ss.head), CollectAll(ss.tail);
      var all := xs + ys;
      forall a, b | 0 <= a < b < |all| ensures PrecedesAll(ss, all[a].id, all[b].id) {
        if a < |xs| <= b {
          assert ForCase(xs[a].id) in CaseTags(xs) && ForCase(ys[b - |xs|].id) in CaseTags(ys);
        }
      }
    }
  }

  lemma {:induction false} ListedIsOpen(cs: seq<CaseInfo>, ss: Stmts)
    requires cs == CollectAll(ss)
    ensures forall i :: 0 <= i < |cs| ==> ForCase(cs[i].id) in OpenAll(ss)
  {
    CollectAllOwned(ss);
    forall i | 0 <= i < |cs| ensures ForCase(cs[i].id) in OpenAll(ss) { assert ForCase(cs[i].id) in CaseTags(cs); }
  }

  /** The text's constraints on one switch, read off the collected list. */
  lemma {:induction false} CasesDistinct(body: Stmts)
    requires UniqueAll(body) && OneEach(body)
    ensures DistinctIds(CollectAll(body)) && DistinctCases(CollectAll(body))
  {
    var cs := CollectAll(body);
    CollectAllOwned(body);
    forall i, j | 0 <= i < j < |cs| ensures cs[i].value != cs[j].value {
      assert cs[i] in cs && cs[j] in cs;
      CollectAllIffOwns(body, cs[i].id, cs[i].value);
      CollectAllIffOwns(body, cs[j].id, cs[j].value);
    }
  }

  /** The collected nodes are the open case targets, each once. */
  lemma {:induction false} CollectOwned(s: Stmt)
    ensures CaseTags(Collect(s)) == set t | t in Open(s) && t.ForCase?
    ensures Unique(s) ==> DistinctIds(Collect(s))
  {
    OpenWithinTargets(s);
    match s
    case Case(id, value, body) =>
      CollectAllOwned(body);
      OpenAllWithinTargets(body);
      CaseTagsConcat([CaseInfo(id, value)], CollectAll(body));
      assert CaseTags([CaseInfo(id, value)]) == {ForCase(id)} by {
        assert [CaseInfo(id, value)][0].id == id;
      }
    case Compound(body) => CollectAllOwned(body);
    case If(_, thn, els) =>
      CollectOwned(thn);
      OpenWithinTargets(thn);
      if els.Some? {
        CollectOwned(els.value);
        OpenWithinTargets(els.value);
        CaseTagsConcat(Collect(thn), Collect(els.value));
      } else {
        assert Collect(s) == Collect(thn);
      }
    case While(_, body, _) => CollectOwned(body);
    case For(_, _, _, body) => CollectOwned(body);
    case Label(_, labelled) => if labelled.Some? { CollectOwned(labelled.value); }
    case _ =>
  }

  lemma {:induction false} CollectAllOwned(ss: Stmts)
    ensures CaseTags(CollectAll(ss)) == set t | t in OpenAll(ss) && t.ForCase?
    ensures UniqueAll(ss) ==> DistinctIds(CollectAll(ss))
  {
    if ss.Cons? {
      CollectOwned(ss.head);
      CollectAllOwned(ss.tail);
      OpenWithinTargets(ss.head);
      OpenAllWithinTargets(ss.tail);
      CaseTagsConcat(Collect(ss.head), CollectAll(ss.tail));
    }
  }

  /** The block number a case node gets: constants in order, then the default. */
  function CaseNumber(cs: seq<CaseInfo>, i: nat, next: nat, dflt: Option<nat>): Option<nat>
    requires i < |cs|
  {
    if cs[i].value.Some? then Some(next + |Constants(cs[..i])|) else dflt
  }

  lemma {:induction false} ConstantsStep(cs: seq<CaseInfo>, i: nat)
    requires 0 < i <= |cs|
    ensures Constants(cs[..i]) == (if cs[0].value.Some? then [cs[0]] else []) + Constants(cs[1..][..i - 1])
  {
    assert cs[..i][1..] == cs[1..][..i - 1];
  }

  lemma {:induction false} BindingsFind(cs: seq<CaseInfo>, next: nat, dflt: Option<nat>, i: nat)
    requires i < |cs| && DistinctIds(cs) && DistinctCases(cs)
    ensures FindInFrame(Bindings(cs, next, dflt), cs[i].id) ==
            Some(Binding(cs[i].id, CaseNumber(cs, i, next, dflt)))
    decreases |cs|
  {
    if i > 0 {
      ConstantsStep(cs, i);
      assert cs[1..][i - 1] == cs[i] && cs[0].id != cs[i].id && cs[0].value != cs[i].value;
      BindingsFind(cs[1..], if cs[0].value.Some? then next + 1 else next,
                   if cs[0].value.Some? then dflt else None, i - 1);
      var b := Bindings(cs, next, dflt);
      assert b[1..] == Bindings(cs[1..], if cs[0].value.Some? then next + 1 else next,
                                if cs[0].value.Some? then dflt else None);
    }
  }

  lemma {:induction false} ConstantsIndex(cs: seq<CaseInfo>, i: nat)
    requires i < |cs| && cs[i].value.Some?
    ensures |Constants(cs[..i])| < |Constants(cs)|
    ensures Constants(cs)[|Constants(cs[..i])|] == cs[i]
    decreases |cs|
  {
    if i > 0 {
      ConstantsStep(cs, i);
      assert cs[1..][i - 1] == cs[i];
      ConstantsIndex(cs[1..], i - 1);
    }
  }

  lemma {:induction false} ConstantsFrom(cs: seq<CaseInfo>, j: nat) returns (i: nat)
    requires j < |Constants(cs)|
    ensures i < |cs| && cs[i].value.Some? && cs[i] == Constants(cs)[j] && j == |Constants(cs[..i])|
    decreases |cs|
  {
    if cs[0].value.Some? && j == 0 {
      i := 0;
    } else {
      var k := ConstantsFrom(cs[1..], if cs[0].value.Some? then j - 1 else j);
      i := k + 1;
      ConstantsStep(cs, i);
    }
  }

  lemma {:induction false} DefaultIsNode(cs: seq<CaseInfo>) returns (i: nat)
    requires Default(cs).Some?
    ensures i < |cs| && cs[i].value.None? && cs[i].id == Default(cs).value
    decreases |cs|
  {
    if cs[0].value.None? { i := 0; } else { var k := DefaultIsNode(cs[1..]); i := k + 1; }
  }

  lemma {:induction false} NoDefault(cs: seq<CaseInfo>, i: nat)
    requires i < |cs| && cs[i].value.None?
    ensures Default(cs).Some?
    decreases |cs|
  {
    if i > 0 { NoDefault(cs[1..], i - 1); }
  }
}
