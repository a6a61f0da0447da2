/** Linking each symbol to its parent: of the symbols of the parent's name and kind around it, the one
    with the least span measure. */
module Parents {
  import opened Options

  const UINT64MAX: nat := 0xFFFF_FFFF_FFFF_FFFF
  const COLUMNS: nat := 0x10_0000

  /** `stableId` and `parentStableId` are 0 when missing, and `file` and `parentName` are empty. */
  datatype Symbol = Symbol(
    name: Option<string>, kind: nat, file: Option<string>,
    startLine: int, startCol: int, endLine: int, endCol: int,
    stableId: nat, parentName: string, parentKind: nat, parentStableId: nat)

  const UNKNOWNKIND: nat := 0

  predicate SpanKnown(s: Symbol) {
    s.startLine > 0 && s.startCol > 0 && s.endLine > 0 && s.endCol > 0 &&
    s.endLine >= s.startLine && !(s.endLine == s.startLine && s.endCol < s.startCol)
  }

  predicate Contains(p: Symbol, c: Symbol) {
    SpanKnown(p) && SpanKnown(c) &&
    !(c.startLine < p.startLine) && !(c.startLine == p.startLine && c.startCol < p.startCol) &&
    !(c.endLine > p.endLine) && !(c.endLine == p.endLine && c.endCol > p.endCol)
  }

  function Measure(s: Symbol): nat {
    if !SpanKnown(s) then UINT64MAX
    else
      (s.endLine - s.startLine) * COLUMNS + Columns(s)
  }

  /** The part of the measure below the line count: the start column of a longer span does not
      enter. */
  function Columns(s: Symbol): int {
    if s.endLine == s.startLine then s.endCol - s.startCol else s.endCol
  }

  predicate SameFile(a: Symbol, b: Symbol) {
    a.file.Some? && a.file == b.file
  }

  /** A symbol that could be the parent by identity, kind, name and file. */
  predicate Candidate(syms: seq<Symbol>, i: nat, j: nat)
    requires i < |syms| && j < |syms|
  {
    var child, cand := syms[i], syms[j];
    i != j && cand.stableId != 0 && cand.kind == child.parentKind && cand.name == Some(child.parentName) &&
    (child.file.Some? && child.file.value != "" ==> SameFile(cand, child))
  }

  /** A candidate with both spans known that is not around the child. */
  predicate Outside(syms: seq<Symbol>, i: nat, j: nat)
    requires i < |syms| && j < |syms|
  {
    SpanKnown(syms[j]) && SpanKnown(syms[i]) && !Contains(syms[j], syms[i])
  }

  /** The candidate among the first `n`, outside or not as asked, that has the least measure; the
      lowest index among equals. */
  predicate Least(syms: seq<Symbol>, i: nat, outside: bool, n: nat, r: Option<nat>)
    requires i < |syms| && n <= |syms|
  {
    (r.None? ==> forall j :: 0 <= j < n && Candidate(syms, i, j) ==> Outside(syms, i, j) != outside) &&
    (r.Some? ==>
      r.value < n && Candidate(syms, i, r.value) && Outside(syms, i, r.value) == outside &&
      (forall j :: 0 <= j < n && Candidate(syms, i, j) && Outside(syms, i, j) == outside ==>
        Measure(syms[r.value]) <= Measure(syms[j]) && (Measure(syms[r.value]) == Measure(syms[j]) ==> r.value <= j)))
  }

  predicate Wants(s: Symbol) {
    s.parentStableId == 0 && s.parentName != "" && s.parentKind != UNKNOWNKIND
  }

  /** The symbol a child is linked to: the least candidate around it or of unknown span, else the
      least one outside. */
  predicate Choice(syms: seq<Symbol>, i: nat, r: Option<nat>)
    requires i < |syms|
  {
    if exists j :: 0 <= j < |syms| && Candidate(syms, i, j) && !Outside(syms, i, j)
    then r.Some? && Least(syms, i, false, |syms|, r)
    else Least(syms, i, true, |syms|, r)
  }

  /** One pass over all symbols with a best and a fallback candidate. */
  method ChooseParent(syms: seq<Symbol>, i: nat) returns (r: Option<nat>)
    requires i < |syms|
    ensures Choice(syms, i, r)
  {
    var best: Option<nat>, bestMeasure := None, UINT64MAX;
    var fallback: Option<nat>, fallbackMeasure := None, UINT64MAX;
    for j := 0 to |syms|
      invariant Least(syms, i, false, j, best) && Least(syms, i, true, j, fallback)
      invariant best.Some? ==> bestMeasure == Measure(syms[best.value])
      invariant fallback.Some? ==> fallbackMeasure == Measure(syms[fallback.value])
    {
      if !Candidate(syms, i, j) { continue; }
      var measure := Measure(syms[j]);
      if SpanKnown(syms[j]) && SpanKnown(syms[i]) && !Contains(syms[j], syms[i]) {
        if fallback.None? || measure < fallbackMeasure {
          fallback, fallbackMeasure := Some(j), measure;
        }
        continue;
      }
      if best.None? || measure < bestMeasure {
        best, bestMeasure := Some(j), measure;
      }
    }
    if best.None? { return fallback; }
    return best;
  }

  /** The choice is unique. */
  lemma {:induction false} ChoiceIsUnique(syms: seq<Symbol>, i: nat, a: Option<nat>, b: Option<nat>)
    requires i < |syms| && Choice(syms, i, a) && Choice(syms, i, b)
    ensures a == b
  {
    if a.Some? && b.Some? {
      assert Candidate(syms, i, a.value) && Candidate(syms, i, b.value);
    }
  }

  // ----- what the tests mean -----

  /** A place in a file: line and column. */
  predicate NotAfter(line: int, col: int, line': int, col': int) {
    line < line' || (line == line' && col <= col')
  }

  /** Both ends are known, and in order. */
  predicate Located(s: Symbol) {
    s.startLine > 0 && s.startCol > 0 && s.endLine > 0 && s.endCol > 0 &&
    NotAfter(s.startLine, s.startCol, s.endLine, s.endCol)
  }

  /** One span is around another if it starts no later and ends no earlier. */
  lemma {:induction false} ContainsIff(p: Symbol, c: Symbol)
    ensures Contains(p, c) <==>
      && Located(p) && Located(c)
      && NotAfter(p.startLine, p.startCol, c.startLine, c.startCol)
      && NotAfter(c.endLine, c.endCol, p.endLine, p.endCol)
  {}

  /** `q` has an identity, and is of the name, the kind and, if `c` has one, the file that `c` asks for. */
  predicate Answers(c: Symbol, q: Symbol) {
    q.stableId > 0 && q.name == Some(c.parentName) && q.kind == c.parentKind &&
    (c.file in {None, Some("")} || q.file == c.file)
  }

  /** No parent is chosen exactly if no other symbol answers. */
  lemma {:induction false} NoParentIff(syms: seq<Symbol>, i: nat)
    requires i < |syms|
    ensures Choice(syms, i, None) <==> forall j :: 0 <= j < |syms| && j != i ==> !Answers(syms[i], syms[j])
  {
    forall j | 0 <= j < |syms| ensures Candidate(syms, i, j) <==> j != i && Answers(syms[i], syms[j]) {}
    if Choice(syms, i, None) {
      forall j | 0 <= j < |syms| ensures !Candidate(syms, i, j) {
        assert Outside(syms, i, j) || !Outside(syms, i, j);
      }
    }
  }

  /** A parent that is chosen answers, and is around the child or of unknown place if any that answers
      is. */
  lemma {:induction false} ParentAnswers(syms: seq<Symbol>, i: nat, p: nat)
    requires i < |syms| && Choice(syms, i, Some(p))
    ensures p < |syms| && p != i && Answers(syms[i], syms[p])
    ensures Located(syms[i]) && Located(syms[p]) && !Contains(syms[p], syms[i]) ==>
      forall q :: 0 <= q < |syms| && q != i && Answers(syms[i], syms[q]) ==>
        Located(syms[q]) && !Contains(syms[q], syms[i])
  {
    forall j | 0 <= j < |syms| ensures Candidate(syms, i, j) <==> j != i && Answers(syms[i], syms[j]) {}
  }

  /** The fields the choice looks at. */
  predicate SameButLinks(a: seq<Symbol>, b: seq<Symbol>) {
    |a| == |b| && forall k :: 0 <= k < |a| ==> a[k].(parentStableId := 0) == b[k].(parentStableId := 0)
  }

  lemma {:induction false} ChoiceIgnoresLinks(a: seq<Symbol>, b: seq<Symbol>, i: nat, r: Option<nat>)
    requires i < |a| && SameButLinks(a, b)
    ensures Choice(a, i, r) <==> Choice(b, i, r)
  {
    forall k | 0 <= k < |a|
      ensures Candidate(a, i, k) == Candidate(b, i, k) && Outside(a, i, k) == Outside(b, i, k)
      ensures Measure(a[k]) == Measure(b[k])
    {
      SameView(a[k], b[k]);
      SameView(a[i], b[i]);
    }
  }

  lemma {:induction false} SameView(a: Symbol, b: Symbol)
    requires a.(parentStableId := 0) == b.(parentStableId := 0)
    ensures a.name == b.name && a.kind == b.kind && a.file == b.file && a.stableId == b.stableId
    ensures a.startLine == b.startLine && a.startCol == b.startCol && a.endLine == b.endLine && a.endCol == b.endCol
    ensures a.parentName == b.parentName && a.parentKind == b.parentKind
  {
    var c := a.(parentStableId := 0);
    assert c.name == a.name && c.name == b.name;
    assert c.kind == a.kind && c.startLine == a.startLine;
  }

  /** What a symbol looks like afterwards. */
  predicate Resolved(before: seq<Symbol>, i: nat, now: Symbol)
    requires i < |before|
  {
    if before[i].parentStableId != 0 || before[i].parentName == "" || before[i].parentKind == UNKNOWNKIND
    then now == before[i]
    else
      (now == before[i] && Choice(before, i, None)) ||
      exists p :: 0 <= p < |before| && Choice(before, i, Some(p)) &&
        now == before[i].(parentStableId := before[p].stableId)
  }

  /** Writes the links in place; links already written do not influence later ones. */
  method ResolveParents(a: array<Symbol>)
    modifies a
    ensures forall i :: 0 <= i < a.Length ==> Resolved(old(a[..]), i, a[i])
  {
    hide Choice, Candidate, Least;
    ghost var before := a[..];
    for i := 0 to a.Length
      invariant SameButLinks(before, a[..])
      invariant forall k :: 0 <= k < i ==> Resolved(before, k, a[k])
      invariant forall k :: i <= k < a.Length ==> a[k] == before[k]
    {
      assert Wants(a[i]) == Wants(before[i]);
      if !Wants(a[i]) { continue; }
      var r := ChooseParent(a[..], i);
      ChoiceIgnoresLinks(before, a[..], i, r);
      if r.Some? {
        ChoiceInRange(before, i, r.value);
        SameView(before[r.value], a[r.value]);
        a[i] := a[i].(parentStableId := a[r.value].stableId);
      }
    }
  }

  lemma {:induction false} ChoiceInRange(syms: seq<Symbol>, i: nat, p: nat)
    requires i < |syms| && Choice(syms, i, Some(p))
    ensures p < |syms|
  {}

  // ----- the measure -----

  /** A span inside another measures no more, whatever the other is, exactly when its columns exceed
      `2^20` by one at most. */
  lemma {:induction false} MeasureIsMonotoneIff(c: Symbol)
    requires SpanKnown(c)
    ensures (forall p :: Contains(p, c) ==> Measure(c) <= Measure(p)) <==> Columns(c) <= COLUMNS + 1
  {
    if Columns(c) <= COLUMNS + 1 {
      forall p | Contains(p, c) ensures Measure(c) <= Measure(p) { MeasureGrows(p, c); }
    } else {
      var p := c.(endLine := c.endLine + 1, endCol := 1);
      assert Contains(p, c) && Measure(c) > Measure(p);
    }
  }

  lemma {:induction false} MeasureGrows(p: Symbol, c: Symbol)
    requires Contains(p, c) && Columns(c) <= COLUMNS + 1
    ensures Measure(c) <= Measure(p)
  {
    var lc, lp := c.endLine - c.startLine, p.endLine - p.startLine;
    if lc < lp {
      assert lp * COLUMNS >= (lc + 1) * COLUMNS;
    }
  }

  /** Columns fit the twenty bits the measure gives them, and lines fit an `int`. */
  predicate NarrowSpan(s: Symbol) {
    s.endCol < COLUMNS && s.endLine < 0x8000_0000
  }

  lemma {:induction false} MeasureIsBounded(s: Symbol)
    requires SpanKnown(s) && NarrowSpan(s)
    ensures Measure(s) < UINT64MAX
  {}

  // ----- what the linked parent is -----

  /** A candidate around the child. */
  predicate Around(syms: seq<Symbol>, i: nat, j: nat)
    requires i < |syms| && j < |syms|
  {
    Candidate(syms, i, j) && Contains(syms[j], syms[i])
  }

  ghost predicate Narrow(syms: seq<Symbol>) {
    forall k :: 0 <= k < |syms| ==> NarrowSpan(syms[k])
  }

  /** If some candidate is around the child, the linked parent is around it and measures least. */
  lemma {:induction false} ParentMeasuresLeast(syms: seq<Symbol>, i: nat, p: nat, q: nat)
    requires i < |syms| && p < |syms| && q < |syms| && Choice(syms, i, Some(p)) && Narrow(syms)
    requires Around(syms, i, q)
    ensures Around(syms, i, p) && Measure(syms[p]) <= Measure(syms[q])
    ensures Measure(syms[p]) == Measure(syms[q]) ==> p <= q
  {
    assert !Outside(syms, i, q);
    MeasureIsBounded(syms[q]);
  }

  /** `a` lies in `b` and is not the same span. */
  predicate StrictlyIn(a: Symbol, b: Symbol) {
    Contains(b, a) && !Contains(a, b)
  }

  /** Two spans of several lines that differ in their start columns only, which the measure ignores. */
  predicate StartsLater(a: Symbol, b: Symbol) {
    a.startLine == b.startLine && a.endLine == b.endLine && a.endCol == b.endCol &&
    b.startLine < b.endLine && a.startCol > b.startCol
  }

  /** Of the candidates around the child, the least, and the first of those. */
  predicate LeastAround(syms: seq<Symbol>, i: nat, j: nat)
    requires i < |syms| && j < |syms|
  {
    Around(syms, i, j) &&
    forall q :: 0 <= q < |syms| && Around(syms, i, q) ==>
      Measure(syms[j]) <= Measure(syms[q]) && (Measure(syms[j]) == Measure(syms[q]) ==> j <= q)
  }

  /** Some candidate around the child differs from the least of them by a later start column alone, on a
      span of several lines. */
  predicate Shadowed(syms: seq<Symbol>, i: nat)
    requires i < |syms|
  {
    exists j, q :: 0 <= j < |syms| && 0 <= q < |syms| &&
      LeastAround(syms, i, j) && Around(syms, i, q) && StartsLater(syms[q], syms[j])
  }

  /** The linked parent is innermost, with no candidate around the child strictly inside it, exactly
      when the least candidate around the child is not shadowed. */
  lemma {:induction false} ParentIsInnermostIff(syms: seq<Symbol>, i: nat, p: nat)
    requires i < |syms| && p < |syms| && Choice(syms, i, Some(p)) && Narrow(syms)
    requires exists q :: 0 <= q < |syms| && Around(syms, i, q)
    ensures (forall q :: 0 <= q < |syms| && Around(syms, i, q) ==> !StrictlyIn(syms[q], syms[p]))
      <==> !Shadowed(syms, i)
  {
    hide Choice, Candidate, Measure;
    forall q | 0 <= q < |syms| && Around(syms, i, q)
      ensures StrictlyIn(syms[q], syms[p]) <==> StartsLater(syms[q], syms[p])
      ensures Around(syms, i, p) && Measure(syms[p]) <= Measure(syms[q])
      ensures Measure(syms[p]) == Measure(syms[q]) ==> p <= q
    {
      ParentMeasuresLeast(syms, i, p, q);
      InsideAndNoLess(syms[q], syms[p]);
    }
    assert LeastAround(syms, i, p);
    forall j | 0 <= j < |syms| && LeastAround(syms, i, j) ensures j == p {}
  }

  /** A narrow span strictly inside another that measures no less starts later and is otherwise
      equal. */
  lemma {:induction false} InsideAndNoLess(a: Symbol, b: Symbol)
    requires SpanKnown(a) && SpanKnown(b) && NarrowSpan(a) && Measure(b) <= Measure(a)
    ensures StrictlyIn(a, b) <==> StartsLater(a, b)
  {}

  function Named(line: int, col: int, endLine: int, endCol: int, name: string, parent: string): Symbol {
    Symbol(Some(name), 1, None, line, col, endLine, endCol, 1, parent, 1, 0)
  }

  /** A child and two spans around it that end together: the outer one, which starts three columns
      earlier, is linked although the other lies strictly inside it. */
  lemma {:induction false} OuterParentIsLinked(child: Symbol, p: Symbol, q: Symbol)
    requires child == Named(2, 1, 2, 3, "c", "f") && p == Named(1, 1, 3, 5, "f", "") && q == Named(1, 4, 3, 5, "f", "")
    ensures Choice([child, p, q], 0, Some(1)) && Around([child, p, q], 0, 2) && StrictlyIn(q, p)
  {
    var syms := [child, p, q];
    assert syms[0] == child && syms[1] == p && syms[2] == q;
    assert Candidate(syms, 0, 1) && Candidate(syms, 0, 2) && !Outside(syms, 0, 1) && !Outside(syms, 0, 2);
    assert Measure(p) == Measure(q);
    assert Least(syms, 0, false, 3, Some(1));
  }

  /** A candidate outside the child is used only when every candidate is outside it. */
  lemma {:induction false} FallbackIsLast(syms: seq<Symbol>, i: nat, p: nat, q: nat)
    requires i < |syms| && p < |syms| && q < |syms| && Choice(syms, i, Some(p))
    requires Outside(syms, i, p) && Candidate(syms, i, q)
    ensures Outside(syms, i, q)
  {}
}
