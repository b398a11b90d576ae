/** The reference graph pass (cdeck/passes/refgraph.hpp): every ADDR adds an
    edge from the innermost enclosing function to the name it addresses. */
module RefGraph {
  import opened Symbols
  import opened Tape

  type Edge = (string, string)

  /** The edges a node contributes, in tape order, when `parent` names the
      enclosing function: a FN passes its own name down, the other blocks
      keep the one they were given. */
  function Edges(n: Node, parent: string): seq<Edge>
    decreases n, 1
  {
    match n
    case Leaf(s) => if s.kind == Addr then [(parent, s.text)] else []
    case Block(o, kids, _) => EdgesAll(kids, if o.kind == Fn then o.text else parent)
  }

  function EdgesAll(ns: seq<Node>, parent: string): seq<Edge>
    decreases ns, 0
  {
    if ns == [] then [] else Edges(ns[0], parent) + EdgesAll(ns[1..], parent)
  }

  lemma {:induction false} EdgesAllAppend(a: seq<Node>, b: seq<Node>, parent: string)
    ensures EdgesAll(a + b, parent) == EdgesAll(a, parent) + EdgesAll(b, parent)
    decreases |a|
  {
    if a == [] {
      assert a + b == b;
    } else {
      assert (a + b)[0] == a[0];
      assert (a + b)[1..] == a[1..] + b;
      EdgesAllAppend(a[1..], b, parent);
    }
  }

  /** One edge entered as `try_emplace` and `emplace` do: a new parent gets
      a one-element set, a known one gains the child. */
  function AddEdge(refs: map<string, set<string>>, e: Edge): map<string, set<string>>
  {
    if e.0 in refs then refs[e.0 := refs[e.0] + {e.1}] else refs[e.0 := {e.1}]
  }

  /** Edges entered in order. */
  function Link(refs: map<string, set<string>>, es: seq<Edge>): map<string, set<string>>
    decreases |es|
  {
    if es == [] then refs else Link(AddEdge(refs, es[0]), es[1..])
  }

  lemma {:induction false} LinkAppend(refs: map<string, set<string>>, a: seq<Edge>, b: seq<Edge>)
    ensures Link(refs, a + b) == Link(Link(refs, a), b)
    decreases |a|
  {
    if a == [] {
      assert a + b == b;
    } else {
      assert (a + b)[0] == a[0];
      assert (a + b)[1..] == a[1..] + b;
      LinkAppend(AddEdge(refs, a[0]), a[1..], b);
    }
  }

  /** Edges are only ever added: afterwards a parent holds a child exactly
      when it did before or the pair is one of the edges entered, and a
      parent is a key exactly when it was one or is the source of an edge.
      Entering an edge twice, or a self-reference, is no different. */
  lemma {:induction false} LinkSpec(refs: map<string, set<string>>, es: seq<Edge>)
    ensures forall p :: p in Link(refs, es) <==> p in refs || exists k :: 0 <= k < |es| && es[k].0 == p
    ensures forall p, c :: p in Link(refs, es) && c in Link(refs, es)[p]
                       <==> (p in refs && c in refs[p]) || (p, c) in es
    decreases |es|
  {
    if es != [] {
      var r1 := AddEdge(refs, es[0]);
      LinkSpec(r1, es[1..]);
      forall p ensures p in Link(refs, es) <==> p in refs || exists k :: 0 <= k < |es| && es[k].0 == p {
        if exists k :: 0 <= k < |es[1..]| && es[1..][k].0 == p {
          var k :| 0 <= k < |es[1..]| && es[1..][k].0 == p;
          assert es[k + 1].0 == p;
        }
        if exists k :: 0 <= k < |es| && es[k].0 == p {
          var k :| 0 <= k < |es| && es[k].0 == p;
          if k > 0 {
            assert es[1..][k - 1].0 == p;
          }
        }
      }
      forall p, c ensures p in Link(refs, es) && c in Link(refs, es)[p]
                      <==> (p in refs && c in refs[p]) || (p, c) in es {
        assert (p, c) in es <==> (p, c) == es[0] || (p, c) in es[1..] by {
          assert es == [es[0]] + es[1..];
        }
      }
    }
  }

  /** One edge per ADDR symbol of the node. */
  lemma {:induction false} EdgeCount(n: Node, parent: string)
    requires WF(n)
    ensures |Edges(n, parent)| == CountKind(Flatten(n), Addr)
    decreases n, 1
  {
    match n
    case Leaf(s) =>
      CountOne(s, Addr);
    case Block(o, kids, c) =>
      CountBlock(o, kids, c, Addr);
      CountOne(o, Addr);
      CountOne(c, Addr);
      EdgeCountAll(kids, if o.kind == Fn then o.text else parent);
  }

  lemma {:induction false} EdgeCountAll(ns: seq<Node>, parent: string)
    requires WFAll(ns)
    ensures |EdgesAll(ns, parent)| == CountKind(FlattenAll(ns), Addr)
    decreases ns, 0
  {
    if ns != [] {
      EdgeCount(ns[0], parent);
      EdgeCountAll(ns[1..], parent);
      CountCons(ns, Addr);
    }
  }

  /** Without a nested FN, every edge starts at the name handed down:
      PROGRAM, MARK, QUOTE and LET blocks keep the enclosing function. */
  lemma {:induction false} EdgesKeepParent(n: Node, parent: string)
    requires CountKind(Flatten(n), Fn) == 0
    ensures forall e | e in Edges(n, parent) :: e.0 == parent
    decreases n, 1
  {
    match n
    case Leaf(s) =>
    case Block(o, kids, c) =>
      CountBlock(o, kids, c, Fn);
      CountOne(o, Fn);
      EdgesAllKeepParent(kids, parent);
  }

  lemma {:induction false} EdgesAllKeepParent(ns: seq<Node>, parent: string)
    requires CountKind(FlattenAll(ns), Fn) == 0
    ensures forall e | e in EdgesAll(ns, parent) :: e.0 == parent
    decreases ns, 0
  {
    if ns != [] {
      CountCons(ns, Fn);
      EdgesKeepParent(ns[0], parent);
      EdgesAllKeepParent(ns[1..], parent);
    }
  }

  /** refgraph_visit on the item at `i`, with `parent` the enclosing
      function's name: the item's edges are entered into `ctx.refs`. */
  method RefVisit(ctx: Context, t: seq<Symbol>, i: nat, parent: string) returns (next: nat)
    requires Item(t, i).Some?
    modifies ctx`refs
    ensures next == Item(t, i).value
    ensures ctx.refs == Link(old(ctx.refs), Edges(TreeAt(t, i), parent))
    decreases |t| - i, 0
  {
    var current := t[i];
    next := i + 1;
    if current.kind == Addr {
      if parent !in ctx.refs {
        ctx.refs := ctx.refs[parent := {current.text}];
      } else {
        ctx.refs := ctx.refs[parent := ctx.refs[parent] + {current.text}];
      }
      assert [(parent, current.text)][1..] == [];
    } else if current.kind == Fn {
      next := RefBlock(ctx, t, next, current.text);
    } else if IsOpener(current.kind) {
      // PROGRAM, MARK, QUOTE and LET keep the enclosing name
      next := RefBlock(ctx, t, next, parent);
    }
  }

  /** visit_block for this pass: the edges of the body's nodes, in order. */
  method RefBlock(ctx: Context, t: seq<Symbol>, j: nat, parent: string) returns (next: nat)
    requires Body(t, j).Some?
    modifies ctx`refs
    ensures next == Body(t, j).value
    ensures ctx.refs == Link(old(ctx.refs), EdgesAll(KidsAt(t, j), parent))
    decreases |t| - j, 1
  {
    ghost var r0 := ctx.refs;
    ghost var done: seq<Node> := [];
    var it := j;
    while t[it].kind != End
      invariant j <= it < |t| && Body(t, it) == Body(t, j)
      invariant KidsAt(t, j) == done + KidsAt(t, it)
      invariant ctx.refs == Link(r0, EdgesAll(done, parent))
      decreases |t| - it
    {
      KidsUnfold(t, it);
      ghost var node := TreeAt(t, it);
      ghost var before := ctx.refs;
      it := RefVisit(ctx, t, it, parent);
      VisitStep(r0, before, ctx.refs, done, node, parent);
      KidsStep(KidsAt(t, j), done, node, KidsAt(t, it));
      done := done + [node];
    }
    KidsEnd(t, it);
    assert done == KidsAt(t, j);
    return it + 1;
  }

  lemma VisitStep(r0: map<string, set<string>>, before: map<string, set<string>>,
                  after: map<string, set<string>>, done: seq<Node>, node: Node, parent: string)
    requires before == Link(r0, EdgesAll(done, parent))
    requires after == Link(before, Edges(node, parent))
    ensures after == Link(r0, EdgesAll(done + [node], parent))
  {
    EdgesAllAppend(done, [node], parent);
    assert EdgesAll([node], parent) == Edges(node, parent) by {
      assert [node][1..] == [];
    }
    LinkAppend(r0, EdgesAll(done, parent), Edges(node, parent));
  }

  /** refgraph: the whole tape, outside any function (the empty name). */
  method Run(ctx: Context, t: seq<Symbol>) returns (next: nat)
    requires t == [] || Balanced(t)
    modifies ctx`refs
    ensures t == [] ==> next == 0 && ctx.refs == old(ctx.refs)
    ensures t != [] ==> next == |t| && ctx.refs == Link(old(ctx.refs), Edges(TreeAt(t, 0), ""))
  {
    if t == [] {
      return 0;
    }
    next := RefVisit(ctx, t, 0, "");
  }
}
