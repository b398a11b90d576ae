/** The verify pass (cdeck/passes/verify.hpp): every identifier must name a
    function or a binding in scope, and is retagged to ADDR or BIND to match.
    A LET brings its name into scope for its body only and may not shadow. */
module Verify {
  import opened Symbols
  import opened Tape

  /** The symbol an identifier becomes once resolved to a definition of kind `k`. */
  function Resolve(s: Symbol, k: Kind): Symbol
  {
    if k == Fn then Symbol(Addr, s.text)
    else if k == Let then Symbol(Bind, s.text)
    else s
  }

  /** The verified node: identifiers resolved against `scope`. */
  function VerifyNode(n: Node, scope: map<string, Kind>): Result<Node>
    decreases n
  {
    match n
    case Leaf(s) =>
      if s.kind != Ident then Ok(n)
      else if s.text !in scope then Fail(Report(s.text, Undefined))
      else Ok(Leaf(Resolve(s, scope[s.text])))
    case Block(o, kids, c) =>
      if o.kind == Let && o.text in scope then Fail(Report(o.text, Clash))
      else
        var inner := if o.kind == Let then scope[o.text := Let] else scope;
        var kids' :- VerifyNodes(kids, inner);
        Ok(Block(o, kids', c))
  }

  /** The verified run of nodes, each against the same scope. */
  function VerifyNodes(ns: seq<Node>, scope: map<string, Kind>): Result<seq<Node>>
    decreases ns
  {
    if ns == [] then Ok([])
    else
      var a :- VerifyNode(ns[0], scope);
      var b :- VerifyNodes(ns[1..], scope);
      Ok([a] + b)
  }

  /** The tag-blind view of a symbol: ADDR and BIND read as IDENT. */
  function Untag(s: Symbol): Symbol
  {
    if s.kind == Addr || s.kind == Bind then Symbol(Ident, s.text) else s
  }

  /** A tape read without the difference between IDENT, ADDR and BIND. */
  function Erase(s: seq<Symbol>): seq<Symbol>
  {
    if s == [] then [] else [Untag(s[0])] + Erase(s[1..])
  }

  lemma {:induction false} EraseAppend(a: seq<Symbol>, b: seq<Symbol>)
    ensures Erase(a + b) == Erase(a) + Erase(b)
    decreases |a|
  {
    if a == [] {
      assert a + b == b;
    } else {
      assert (a + b)[0] == a[0];
      assert (a + b)[1..] == a[1..] + b;
      EraseAppend(a[1..], b);
    }
  }

  /** Every name in scope is a function or a binding. */
  predicate ScopeOk(scope: map<string, Kind>)
  {
    forall n :: n in scope ==> scope[n] == Fn || scope[n] == Let
  }

  /** Verification keeps the node well formed and the same length and
      changes nothing but identifier tags. */
  lemma {:induction false} VerifyNodePreserves(n: Node, scope: map<string, Kind>)
    requires WF(n) && VerifyNode(n, scope).Ok?
    ensures var m := VerifyNode(n, scope).value;
      WF(m) && |Flatten(m)| == |Flatten(n)| && Erase(Flatten(m)) == Erase(Flatten(n))
    decreases n, 1
  {
    if n.Block? {
      VerifyBlockPreserves(n, scope);
    }
  }

  lemma {:induction false} VerifyBlockPreserves(n: Node, scope: map<string, Kind>)
    requires WF(n) && n.Block? && VerifyNode(n, scope).Ok?
    ensures var m := VerifyNode(n, scope).value;
      WF(m) && |Flatten(m)| == |Flatten(n)| && Erase(Flatten(m)) == Erase(Flatten(n))
    decreases n, 0
  {
    var inner := if n.open.kind == Let then scope[n.open.text := Let] else scope;
    VerifyNodesPreserves(n.kids, inner);
    var ks := VerifyNodes(n.kids, inner).value;
    var m := Block(n.open, ks, n.close);
    assert VerifyNode(n, scope).value == m;
    Rewrap(n.open, n.close, FlattenAll(ks), FlattenAll(n.kids));
  }

  /** Wrapping two tag-blind equal runs in the same opener and END. */
  lemma Rewrap(o: Symbol, c: Symbol, a: seq<Symbol>, b: seq<Symbol>)
    requires Erase(a) == Erase(b)
    ensures Erase([o] + a + [c]) == Erase([o] + b + [c])
  {
    EraseAppend([o] + a, [c]);
    EraseAppend([o], a);
    EraseAppend([o] + b, [c]);
    EraseAppend([o], b);
  }

  lemma {:induction false} VerifyNodesPreserves(ns: seq<Node>, scope: map<string, Kind>)
    requires WFAll(ns) && VerifyNodes(ns, scope).Ok?
    ensures var ms := VerifyNodes(ns, scope).value;
      WFAll(ms) && |FlattenAll(ms)| == |FlattenAll(ns)| && Erase(FlattenAll(ms)) == Erase(FlattenAll(ns))
    decreases ns, 2
  {
    if ns != [] {
      VerifyNodePreserves(ns[0], scope);
      VerifyNodesPreserves(ns[1..], scope);
      var a := VerifyNode(ns[0], scope).value;
      var b := VerifyNodes(ns[1..], scope).value;
      assert ([a] + b)[0] == a && ([a] + b)[1..] == b;
      EraseAppend(Flatten(a), FlattenAll(b));
      EraseAppend(Flatten(ns[0]), FlattenAll(ns[1..]));
    }
  }

  /** No IDENT is left behind when every name in scope is a function or a
      binding. */
  lemma {:induction false} VerifyNodeClears(n: Node, scope: map<string, Kind>)
    requires WF(n) && ScopeOk(scope) && VerifyNode(n, scope).Ok?
    ensures CountKind(Flatten(VerifyNode(n, scope).value), Ident) == 0
    decreases n
  {
    match n
    case Leaf(s) =>
      var m := VerifyNode(n, scope).value;
      assert m.sym.kind != Ident by {
        if s.kind == Ident {
          assert scope[s.text] == Fn || scope[s.text] == Let;
        }
      }
      assert Flatten(m) == [m.sym];
      CountOne(m.sym, Ident);
    case Block(o, kids, c) =>
      var inner := if o.kind == Let then scope[o.text := Let] else scope;
      assert ScopeOk(inner);
      VerifyNodesClears(kids, inner);
      var ks := VerifyNodes(kids, inner).value;
      assert VerifyNode(n, scope).value == Block(o, ks, c);
      CountKindAppend([o] + FlattenAll(ks), [c], Ident);
      CountKindAppend([o], FlattenAll(ks), Ident);
      CountOne(o, Ident);
      CountOne(c, Ident);
  }

  lemma {:induction false} VerifyNodesClears(ns: seq<Node>, scope: map<string, Kind>)
    requires WFAll(ns) && ScopeOk(scope) && VerifyNodes(ns, scope).Ok?
    ensures CountKind(FlattenAll(VerifyNodes(ns, scope).value), Ident) == 0
    decreases ns
  {
    if ns != [] {
      VerifyNodeClears(ns[0], scope);
      VerifyNodesClears(ns[1..], scope);
      var a := VerifyNode(ns[0], scope).value;
      var b := VerifyNodes(ns[1..], scope).value;
      assert ([a] + b)[0] == a && ([a] + b)[1..] == b;
      CountKindAppend(Flatten(a), FlattenAll(b), Ident);
    }
  }

  /** Verification fails only on an undefined name or a LET that shadows. */
  lemma {:induction false} VerifyNodeFails(n: Node, scope: map<string, Kind>)
    requires VerifyNode(n, scope).Fail?
    ensures VerifyNode(n, scope).report.kind in {Undefined, Clash}
    decreases n
  {
    match n
    case Leaf(s) =>
    case Block(o, kids, c) =>
      if !(o.kind == Let && o.text in scope) {
        VerifyNodesFails(kids, if o.kind == Let then scope[o.text := Let] else scope);
      }
  }

  lemma {:induction false} VerifyNodesFails(ns: seq<Node>, scope: map<string, Kind>)
    requires VerifyNodes(ns, scope).Fail?
    ensures VerifyNodes(ns, scope).report.kind in {Undefined, Clash}
    decreases ns
  {
    if VerifyNode(ns[0], scope).Fail? {
      VerifyNodeFails(ns[0], scope);
    } else {
      VerifyNodesFails(ns[1..], scope);
    }
  }

  /** Without identifiers and LETs there is nothing to verify. */
  lemma {:induction false} VerifyNodeIdentity(n: Node, scope: map<string, Kind>)
    requires CountKind(Flatten(n), Ident) == 0 && CountKind(Flatten(n), Let) == 0
    ensures VerifyNode(n, scope) == Ok(n)
    decreases n
  {
    match n
    case Leaf(s) =>
    case Block(o, kids, c) =>
      CountKindAppend([o] + FlattenAll(kids), [c], Ident);
      CountKindAppend([o], FlattenAll(kids), Ident);
      CountKindAppend([o] + FlattenAll(kids), [c], Let);
      CountKindAppend([o], FlattenAll(kids), Let);
      VerifyNodesIdentity(kids, scope);
  }

  lemma {:induction false} VerifyNodesIdentity(ns: seq<Node>, scope: map<string, Kind>)
    requires CountKind(FlattenAll(ns), Ident) == 0 && CountKind(FlattenAll(ns), Let) == 0
    ensures VerifyNodes(ns, scope) == Ok(ns)
    decreases ns
  {
    if ns != [] {
      CountKindAppend(Flatten(ns[0]), FlattenAll(ns[1..]), Ident);
      CountKindAppend(Flatten(ns[0]), FlattenAll(ns[1..]), Let);
      VerifyNodeIdentity(ns[0], scope);
      VerifyNodesIdentity(ns[1..], scope);
      assert [ns[0]] + ns[1..] == ns;
    }
  }

  /** The outcome of a run, once some nodes are already verified. */
  function Prepend(done: seq<Node>, rest: Result<seq<Node>>): Result<seq<Node>>
  {
    match rest
    case Ok(b) => Ok(done + b)
    case Fail(rep) => Fail(rep)
  }

  lemma VerifyNodesCons(ns: seq<Node>, scope: map<string, Kind>)
    requires ns != []
    ensures VerifyNodes(ns, scope)
         == match VerifyNode(ns[0], scope)
            case Fail(rep) => Fail(rep)
            case Ok(a) => Prepend([a], VerifyNodes(ns[1..], scope))
  {
  }

  lemma PrependTwice(a: seq<Node>, b: seq<Node>, rest: Result<seq<Node>>)
    ensures Prepend(a, Prepend(b, rest)) == Prepend(a + b, rest)
  {
    if rest.Ok? {
      assert a + (b + rest.value) == (a + b) + rest.value;
    }
  }

  /** verify_visit on the item at `i`, which spells out `n`: the item is
      replaced by its verified form and the scope is as it was before. */
  method VerifyVisit(ctx: Context, t: seq<Symbol>, i: nat, ghost n: Node)
    returns (t': seq<Symbol>, r: Result<nat>)
    requires WF(n) && i + |Flatten(n)| <= |t| && t[i..i + |Flatten(n)|] == Flatten(n)
    modifies ctx`symbols
    ensures r.Fail? ==> VerifyNode(n, old(ctx.symbols)) == Fail(r.report)
    ensures r.Ok? ==> VerifyNode(n, old(ctx.symbols)).Ok? && r.value == i + |Flatten(n)|
    ensures r.Ok? ==> t' == t[..i] + Flatten(VerifyNode(n, old(ctx.symbols)).value) + t[i + |Flatten(n)|..]
    ensures r.Ok? ==> ctx.symbols == old(ctx.symbols)
    decreases n, 1
  {
    NodeHead(n);
    assert t[i] == Flatten(n)[0];
    var current := t[i];
    if current.kind == Ident {
      if current.text !in ctx.symbols {
        return t, Fail(Report(current.text, Undefined));
      }
      var k := ctx.symbols[current.text];
      if k == Fn {
        t' := t[i := Symbol(Addr, current.text)];
      } else if k == Let {
        t' := t[i := Symbol(Bind, current.text)];
      } else {
        t' := t;
      }
      assert t' == t[..i] + [Resolve(current, k)] + t[i + 1..];
      r := Ok(i + 1);
    } else if IsOpener(current.kind) {
      t', r := VerifyOpen(ctx, t, i, n);
    } else {
      t', r := t, Ok(i + 1);
      assert t == t[..i] + [t[i]] + t[i + 1..];
    }
  }

  /** verify_visit on a block: a LET first checks that its name is free and
      brings it into scope for the body, then takes it out again. */
  method VerifyOpen(ctx: Context, t: seq<Symbol>, i: nat, ghost n: Node)
    returns (t': seq<Symbol>, r: Result<nat>)
    requires WF(n) && n.Block? && i + |Flatten(n)| <= |t| && t[i..i + |Flatten(n)|] == Flatten(n)
    modifies ctx`symbols
    ensures r.Fail? ==> VerifyNode(n, old(ctx.symbols)) == Fail(r.report)
    ensures r.Ok? ==> VerifyNode(n, old(ctx.symbols)).Ok? && r.value == i + |Flatten(n)|
    ensures r.Ok? ==> t' == t[..i] + Flatten(VerifyNode(n, old(ctx.symbols)).value) + t[i + |Flatten(n)|..]
    ensures r.Ok? ==> ctx.symbols == old(ctx.symbols)
    decreases n, 0
  {
    ghost var scope := ctx.symbols;
    BlockInside(n, t, i);
    var current := t[i];
    assert current == n.open by {
      assert t[i] == t[i..i + |Flatten(n)|][0];
    }
    if current.kind == Let {
      if current.text in ctx.symbols {
        return t, Fail(Report(current.text, Clash));
      }
      ctx.symbols := ctx.symbols[current.text := Let];
    }
    ghost var inner := ctx.symbols;
    t', r := VerifyBlock(ctx, t, i + 1, n.kids);
    if r.Ok? {
      if current.kind == Let {
        ctx.symbols := ctx.symbols - {current.text};
        assert ctx.symbols == scope;
      }
      BlockRebuilt(n, VerifyNodes(n.kids, inner).value, t, t', i);
    }
  }

  /** Putting the verified body back between the opener and the END. */
  lemma BlockRebuilt(n: Node, ks: seq<Node>, t: seq<Symbol>, t': seq<Symbol>, i: nat)
    requires n.Block? && i + |Flatten(n)| <= |t| && t[i..i + |Flatten(n)|] == Flatten(n)
    requires |FlattenAll(ks)| == |FlattenAll(n.kids)|
    requires t' == t[..i + 1] + FlattenAll(ks) + t[i + 1 + |FlattenAll(n.kids)|..]
    ensures t' == t[..i] + Flatten(Block(n.open, ks, n.close)) + t[i + |Flatten(n)|..]
  {
    var f := FlattenAll(n.kids);
    var e := i + |Flatten(n)|;
    assert |Flatten(n)| == |f| + 2;
    assert t[i] == n.open && t[i + 1 + |f|] == n.close by {
      assert t[i] == t[i..e][0];
      assert t[i + 1 + |f|] == t[i..e][1 + |f|];
    }
    assert t[..i + 1] == t[..i] + [n.open];
    assert t[i + 1 + |f|..] == [n.close] + t[e..];
    Regroup(t[..i], [n.open], FlattenAll(ks), [n.close], t[e..]);
  }

  lemma Regroup<T>(a: seq<T>, o: seq<T>, k: seq<T>, c: seq<T>, r: seq<T>)
    ensures (a + o) + k + (c + r) == a + (o + k + c) + r
  {
  }

  /** visit_block for this pass: the nodes `kids` from `j` up to the closing END. */
  method VerifyBlock(ctx: Context, t: seq<Symbol>, j: nat, ghost kids: seq<Node>)
    returns (t': seq<Symbol>, r: Result<nat>)
    requires WFAll(kids) && j + |FlattenAll(kids)| < |t|
    requires t[j..j + |FlattenAll(kids)|] == FlattenAll(kids) && t[j + |FlattenAll(kids)|].kind == End
    modifies ctx`symbols
    ensures r.Fail? ==> VerifyNodes(kids, old(ctx.symbols)) == Fail(r.report)
    ensures r.Ok? ==> VerifyNodes(kids, old(ctx.symbols)).Ok? && r.value == j + |FlattenAll(kids)| + 1
    ensures r.Ok? ==> |FlattenAll(VerifyNodes(kids, old(ctx.symbols)).value)| == |FlattenAll(kids)|
    ensures r.Ok? ==> t' == t[..j] + FlattenAll(VerifyNodes(kids, old(ctx.symbols)).value) + t[j + |FlattenAll(kids)|..]
    ensures r.Ok? ==> ctx.symbols == old(ctx.symbols)
    decreases kids, 1
  {
    ghost var scope := ctx.symbols;
    ghost var pre := t[..j];
    ghost var tail := t[j + |FlattenAll(kids)|..];
    ghost var k := 0;
    ghost var done: seq<Node> := [];
    WalkStart(t, j, kids, scope);
    t' := t;
    var it := j;
    while t'[it].kind != End
      invariant Walk(t', kids, pre, tail, scope, done, k, it) && ctx.symbols == scope
      decreases |kids| - k
    {
      var t2, x;
      ghost var m;
      t2, x, m := VerifyItem(ctx, t', kids, pre, tail, scope, done, k, it);
      if x.Fail? {
        assert VerifyNodes(kids, old(ctx.symbols)) == Fail(x.report);
        return t2, x;
      }
      t', it := t2, x.value;
      done, k := done + [m], k + 1;
    }
    WalkEnd(t, j, kids, t', scope, done, k, it);
    return t', Ok(it + 1);
  }

  /** The invariant of the loop in VerifyBlock: the tape holds `pre`, the
      verified nodes `done`, the kids still to visit and the closing `tail`;
      the walk is at the first of those kids, and the outcome of the whole
      run is the verified prefix put before the outcome of the rest. */
  ghost predicate Walk(t: seq<Symbol>, kids: seq<Node>, pre: seq<Symbol>, tail: seq<Symbol>,
                       scope: map<string, Kind>, done: seq<Node>, k: nat, it: nat)
  {
    k <= |kids| && WFAll(kids[k..]) && |tail| > 0 && tail[0].kind == End
    && t == pre + FlattenAll(done) + FlattenAll(kids[k..]) + tail
    && it == |pre| + |FlattenAll(done)| && it < |t| && (t[it].kind == End <==> k == |kids|)
    && |FlattenAll(done)| + |FlattenAll(kids[k..])| == |FlattenAll(kids)|
    && VerifyNodes(kids, scope) == Prepend(done, VerifyNodes(kids[k..], scope))
  }

  lemma WalkStart(t: seq<Symbol>, j: nat, kids: seq<Node>, scope: map<string, Kind>)
    requires WFAll(kids) && j + |FlattenAll(kids)| < |t|
    requires t[j..j + |FlattenAll(kids)|] == FlattenAll(kids) && t[j + |FlattenAll(kids)|].kind == End
    ensures Walk(t, kids, t[..j], t[j + |FlattenAll(kids)|..], scope, [], 0, j)
  {
    var pre := t[..j];
    var tail := t[j + |FlattenAll(kids)|..];
    assert kids[0..] == kids;
    assert t == pre + FlattenAll([]) + FlattenAll(kids[0..]) + tail;
    assert VerifyNodes(kids, scope) == Prepend([], VerifyNodes(kids[0..], scope)) by {
      match VerifyNodes(kids, scope)
      case Ok(b) => assert [] + b == b;
      case Fail(_) =>
    }
    LastKid(t, pre + FlattenAll([]), kids, 0, tail);
  }

  lemma WalkEnd(t: seq<Symbol>, j: nat, kids: seq<Node>, t': seq<Symbol>,
                scope: map<string, Kind>, done: seq<Node>, k: nat, it: nat)
    requires j + |FlattenAll(kids)| < |t|
    requires Walk(t', kids, t[..j], t[j + |FlattenAll(kids)|..], scope, done, k, it) && t'[it].kind == End
    ensures VerifyNodes(kids, scope) == Ok(done) && |FlattenAll(done)| == |FlattenAll(kids)|
    ensures t' == t[..j] + FlattenAll(done) + t[j + |FlattenAll(kids)|..] && it + 1 == j + |FlattenAll(kids)| + 1
  {
    assert kids[k..] == [];
    assert done + [] == done;
  }

  /** One turn of the loop in VerifyBlock: verify the next kid. */
  method VerifyItem(ctx: Context, t: seq<Symbol>, ghost kids: seq<Node>, ghost pre: seq<Symbol>,
                    ghost tail: seq<Symbol>, ghost scope: map<string, Kind>, ghost done: seq<Node>,
                    ghost k: nat, it: nat)
    returns (t2: seq<Symbol>, x: Result<nat>, ghost m: Node)
    requires Walk(t, kids, pre, tail, scope, done, k, it) && t[it].kind != End
    requires ctx.symbols == scope
    modifies ctx`symbols
    ensures x.Fail? ==> VerifyNodes(kids, scope) == Fail(x.report)
    ensures x.Ok? ==> Walk(t2, kids, pre, tail, scope, done + [m], k + 1, x.value) && ctx.symbols == scope
    decreases kids, 0
  {
    var node := kids[k];
    NextKid(t, pre + FlattenAll(done), kids, k, tail);
    t2, x := VerifyVisit(ctx, t, it, node);
    m := node;
    if x.Fail? {
      VerifyNodesCons(kids[k..], scope);
      assert kids[k..][0] == node;
      return;
    }
    m := VerifyNode(node, scope).value;
    BlockStep(t, pre, done, kids, k, tail, scope, t2);
  }

  /** One step of the walk in VerifyBlock: the invariant carries over. */
  lemma BlockStep(t: seq<Symbol>, pre: seq<Symbol>, done: seq<Node>, kids: seq<Node>, k: nat,
                  tail: seq<Symbol>, scope: map<string, Kind>, t2: seq<Symbol>)
    requires k < |kids| && WFAll(kids[k..]) && t == pre + FlattenAll(done) + FlattenAll(kids[k..]) + tail
    requires |tail| > 0 && tail[0].kind == End
    requires |FlattenAll(done)| + |FlattenAll(kids[k..])| == |FlattenAll(kids)|
    requires VerifyNodes(kids, scope) == Prepend(done, VerifyNodes(kids[k..], scope))
    requires VerifyNode(kids[k], scope).Ok?
    requires var it := |pre| + |FlattenAll(done)|;
      it + |Flatten(kids[k])| <= |t|
      && t2 == t[..it] + Flatten(VerifyNode(kids[k], scope).value) + t[it + |Flatten(kids[k])|..]
    ensures var done' := done + [VerifyNode(kids[k], scope).value];
      WFAll(kids[k + 1..]) && t2 == pre + FlattenAll(done') + FlattenAll(kids[k + 1..]) + tail
      && |pre| + |FlattenAll(done')| == |pre| + |FlattenAll(done)| + |Flatten(kids[k])|
      && |FlattenAll(done')| + |FlattenAll(kids[k + 1..])| == |FlattenAll(kids)|
      && VerifyNodes(kids, scope) == Prepend(done', VerifyNodes(kids[k + 1..], scope))
      && |pre| + |FlattenAll(done')| < |t2|
      && (t2[|pre| + |FlattenAll(done')|].kind == End <==> k + 1 == |kids|)
  {
    var node := kids[k];
    VerifyNodesCons(kids[k..], scope);
    assert kids[k..][0] == node && kids[k..][1..] == kids[k + 1..];
    VerifyNodePreserves(node, scope);
    var m := VerifyNode(node, scope).value;
    PrependTwice(done, [m], VerifyNodes(kids[k + 1..], scope));
    ReplaceKid(t, pre, done, kids, k, tail, m, t2);
  }

  /** verify: the pass over a whole tape. */
  method Run(ctx: Context, t: seq<Symbol>) returns (t': seq<Symbol>, r: Result<nat>)
    requires t == [] || Balanced(t)
    modifies ctx`symbols
    ensures r.Ok? ==> r.value == |t| && ctx.symbols == old(ctx.symbols)
    ensures r.Ok? && t != [] ==> Balanced(t') && VerifyNode(TreeAt(t, 0), old(ctx.symbols)).Ok?
    ensures r.Ok? && t != [] ==> t' == Flatten(VerifyNode(TreeAt(t, 0), old(ctx.symbols)).value)
    ensures t != [] ==> (r.Fail? <==> VerifyNode(TreeAt(t, 0), old(ctx.symbols)).Fail?)
    ensures r.Ok? ==> |t'| == |t| && Erase(t') == Erase(t)
    ensures r.Ok? && ScopeOk(old(ctx.symbols)) ==> CountKind(t', Ident) == 0
    ensures r.Fail? ==> r.report.kind in {Undefined, Clash}
  {
    if |t| == 0 {
      return t, Ok(0);
    }
    BalancedTree(t);
    ghost var n := TreeAt(t, 0);
    assert t[0..|Flatten(n)|] == Flatten(n);
    t', r := VerifyVisit(ctx, t, 0, n);
    RunOutcome(t, n, old(ctx.symbols), t', r);
  }

  /** What the walk from the root of a balanced tape amounts to: the
      verified tree, flattened, or the report that stopped it. */
  lemma RunOutcome(t: seq<Symbol>, n: Node, scope: map<string, Kind>, t': seq<Symbol>, r: Result<nat>)
    requires WF(n) && Flatten(n) == t
    requires r.Fail? ==> VerifyNode(n, scope) == Fail(r.report)
    requires r.Ok? ==> VerifyNode(n, scope).Ok? && r.value == |Flatten(n)|
    requires r.Ok? ==> t' == t[..0] + Flatten(VerifyNode(n, scope).value) + t[|Flatten(n)|..]
    ensures r.Ok? ==> Balanced(t') && t' == Flatten(VerifyNode(n, scope).value)
    ensures r.Ok? ==> |t'| == |t| && Erase(t') == Erase(t)
    ensures r.Ok? && ScopeOk(scope) ==> CountKind(t', Ident) == 0
    ensures r.Fail? ==> r.report.kind in {Undefined, Clash}
  {
    if r.Ok? {
      var m := VerifyNode(n, scope).value;
      var x := Flatten(m);
      assert t' == x by {
        assert t[..0] == [] && t[|Flatten(n)|..] == [];
        assert [] + x + [] == x;
      }
      VerifyNodePreserves(n, scope);
      if ScopeOk(scope) {
        VerifyNodeClears(n, scope);
      }
      TreeBalanced(m);
    } else {
      VerifyNodeFails(n, scope);
    }
  }
}
