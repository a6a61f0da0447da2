/** The code generator's chain of scopes: names bound in nested blocks. */
module Scopes {
  import opened Options

  datatype Named = Named(name: string, value: nat)

  /** Innermost scope first; a scope lists its names in order of first insertion. */
  type Chain = seq<seq<Named>>

  datatype Op = Push | Pop | Insert(name: string, value: nat)

  function Find(scope: seq<Named>, name: string): Option<nat> {
    if scope == [] then None
    else if scope[0].name == name then Some(scope[0].value)
    else Find(scope[1..], name)
  }

  function Lookup(chain: Chain, name: string): Option<nat> {
    if chain == [] then None
    else if Find(chain[0], name).Some? then Find(chain[0], name)
    else Lookup(chain[1..], name)
  }

  /** Overwrites the name's entry or appends one. */
  function Bind(scope: seq<Named>, name: string, value: nat): seq<Named> {
    if scope == [] then [Named(name, value)]
    else if scope[0].name == name then [Named(name, value)] + scope[1..]
    else [scope[0]] + Bind(scope[1..], name, value)
  }

  function Apply(chain: Chain, op: Op): Chain {
    match op
    case Push => [[]] + chain
    case Pop => if chain == [] then chain else chain[1..]
    case Insert(name, value) => if chain == [] then chain else [Bind(chain[0], name, value)] + chain[1..]
  }

  function Run(ops: seq<Op>, n: nat): Chain
    requires n <= |ops|
  {
    if n == 0 then [] else Apply(Run(ops, n - 1), ops[n - 1])
  }

  /** Blocks are closed after they were opened, and names are bound inside some block. */
  predicate Nested(ops: seq<Op>) {
    forall n :: 0 <= n < |ops| && !ops[n].Push? ==> Run(ops, n) != []
  }

  // ----- the same from the text alone -----

  /** The last binding of `name` before operation `n` in a block still open, read backwards; `closed`
      is the number of blocks that were left on the way and not yet passed over. */
  function Visible(ops: seq<Op>, n: nat, name: string, closed: nat): Option<nat>
    requires n <= |ops|
  {
    if n == 0 then None
    else
      match ops[n - 1]
      case Pop => Visible(ops, n - 1, name, closed + 1)
      case Push => Visible(ops, n - 1, name, if closed > 0 then closed - 1 else 0)
      case Insert(x, v) => if closed == 0 && x == name then Some(v) else Visible(ops, n - 1, name, closed)
  }

  lemma {:induction false} BindFinds(scope: seq<Named>, name: string, value: nat, other: string)
    ensures Find(Bind(scope, name, value), other) == if other == name then Some(value) else Find(scope, other)
  {
    if scope != [] && scope[0].name != name {
      BindFinds(scope[1..], name, value, other);
      assert ([scope[0]] + Bind(scope[1..], name, value))[1..] == Bind(scope[1..], name, value);
    }
  }

  lemma {:induction false} PushLookup(before: Chain, name: string, closed: nat)
    requires closed <= |before| + 1
    ensures Lookup(Apply(before, Push)[closed..], name) == Lookup(before[if closed > 0 then closed - 1 else 0..], name)
  {
    var now := Apply(before, Push);
    if closed > 0 {
      assert now[closed..] == before[closed - 1..];
    } else {
      assert now[0..] == now && now[1..] == before && before[0..] == before;
    }
  }

  lemma {:induction false} InsertLookup(before: Chain, x: string, v: nat, name: string, closed: nat)
    requires before != [] && closed <= |before|
    ensures Lookup(Apply(before, Insert(x, v))[closed..], name)
      == if closed == 0 && x == name then Some(v) else Lookup(before[closed..], name)
  {
    var now := Apply(before, Insert(x, v));
    if closed > 0 {
      assert now[closed..] == before[closed..];
    } else {
      BindFinds(before[0], x, v, name);
      assert now[0..] == now && now[1..] == before[1..] && before[0..] == before;
    }
  }

  /** Looking a name up finds the last binding made in a block that is still open. */
  lemma {:induction false} LookupIsVisible(ops: seq<Op>, n: nat, name: string, closed: nat)
    requires Nested(ops) && n <= |ops| && closed <= |Run(ops, n)|
    ensures Lookup(Run(ops, n)[closed..], name) == Visible(ops, n, name, closed)
    decreases n
  {
    hide Lookup, Find, Bind, Nested;
    if n == 0 {
      NothingBound(name);
    } else {
      var before := Run(ops, n - 1);
      InsideBlock(ops, n - 1);
      match ops[n - 1]
      case Push =>
        LookupIsVisible(ops, n - 1, name, if closed > 0 then closed - 1 else 0);
        PushLookup(before, name, closed);
      case Pop =>
        LookupIsVisible(ops, n - 1, name, closed + 1);
        assert before[1..][closed..] == before[closed + 1..];
      case Insert(x, v) =>
        LookupIsVisible(ops, n - 1, name, closed);
        InsertLookup(before, x, v, name, closed);
    }
  }

  lemma {:induction false} InsideBlock(ops: seq<Op>, n: nat)
    requires Nested(ops) && n < |ops|
    ensures !ops[n].Push? ==> Run(ops, n) != []
  {}

  lemma {:induction false} NothingBound(name: string)
    ensures Lookup([], name) == None
  {}

  predicate Balanced(ops: seq<Op>, n: nat, m: nat)
    requires n <= m <= |ops|
  {
    Depth(ops, n, m) == Some(0)
  }

  /** Blocks opened and still open between operations `n` and `m`; none if one opened earlier was
      closed. */
  function Depth(ops: seq<Op>, n: nat, m: nat): Option<nat>
    requires n <= m <= |ops|
    decreases m
  {
    if m == n then Some(0)
    else
      match Depth(ops, n, m - 1)
      case None => None
      case Some(d) =>
        match ops[m - 1]
        case Push => Some(d + 1)
        case Pop => if d == 0 then None else Some(d - 1)
        case Insert(_, _) => if d == 0 then None else Some(d)
  }

  lemma {:induction false} InnerDoesNotTouchOuter(ops: seq<Op>, n: nat, m: nat)
    requires n <= m <= |ops| && Depth(ops, n, m).Some?
    ensures var d := Depth(ops, n, m).value; d <= |Run(ops, m)| && Run(ops, m)[d..] == Run(ops, n)
    decreases m
  {
    if m == n {
      assert Run(ops, m)[0..] == Run(ops, n);
    } else {
      InnerDoesNotTouchOuter(ops, n, m - 1);
      var d := Depth(ops, n, m - 1).value;
      var before, now := Run(ops, m - 1), Run(ops, m);
      match ops[m - 1]
      case Push => assert now[d + 1..] == before[d..];
      case Pop => assert now[d - 1..] == before[d..];
      case Insert(_, _) => assert now[d..] == before[d..];
    }
  }

  /** A closed block leaves every name as it was before it. */
  lemma {:induction false} BlockLeavesNoTrace(ops: seq<Op>, n: nat, m: nat)
    requires n <= m <= |ops| && Balanced(ops, n, m)
    ensures Run(ops, m) == Run(ops, n)
  {
    InnerDoesNotTouchOuter(ops, n, m);
    assert Run(ops, m)[0..] == Run(ops, m);
  }

  /** Overwrites the first entry with the name, else appends. */
  method BindName(scope: seq<Named>, name: string, value: nat) returns (r: seq<Named>)
    ensures r == Bind(scope, name, value)
  {
    var i := 0;
    while i < |scope|
      invariant 0 <= i <= |scope|
      invariant Bind(scope, name, value) == scope[..i] + Bind(scope[i..], name, value)
    {
      assert scope[i..][1..] == scope[i + 1..];
      if scope[i].name == name {
        assert scope[i := Named(name, value)] == scope[..i] + ([Named(name, value)] + scope[i + 1..]);
        return scope[i := Named(name, value)];
      }
      assert scope[..i] + [scope[i]] == scope[..i + 1];
      i := i + 1;
    }
    return scope + [Named(name, value)];
  }

  class ScopeChain {
    var chain: Chain

    constructor ()
      ensures chain == []
    {
      chain := [];
    }

    method PushScope()
      modifies this
      ensures chain == Apply(old(chain), Push)
    {
      chain := [[]] + chain;
    }

    method PopScope()
      modifies this
      ensures chain == Apply(old(chain), Pop)
    {
      if chain != [] { chain := chain[1..]; }
    }

    method InsertName(name: string, value: nat)
      modifies this
      ensures chain == Apply(old(chain), Insert(name, value))
    {
      if chain == [] { return; }
      var scope := BindName(chain[0], name, value);
      chain := [scope] + chain[1..];
    }

    method LookupName(name: string) returns (r: Option<nat>)
      ensures r == Lookup(chain, name)
    {
      var k := 0;
      while k < |chain|
        invariant 0 <= k <= |chain| && Lookup(chain, name) == Lookup(chain[k..], name)
      {
        var scope, i := chain[k], 0;
        while i < |scope|
          invariant 0 <= i <= |scope| && Find(scope, name) == Find(scope[i..], name)
        {
          if scope[i].name == name { return Some(scope[i].value); }
          assert scope[i..][1..] == scope[i + 1..];
          i := i + 1;
        }
        assert chain[k..][1..] == chain[k + 1..];
        k := k + 1;
      }
      r := None;
    }
  }
}
