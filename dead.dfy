/** The dead-function pass (cdeck/passes/dead.hpp): invert the reference
    graph into a "referenced by" map that always holds `main`, then report
    every function no one references.  The report, a log line per name in
    the source, is the sequence of names the visit returns. */
module Dead {
  import opened Symbols
  import opened Tape

  type Graph = map<string, set<string>>
  type Edge = (string, string)

  /** The inverted graph of a set of parent-to-child edges: `main` and every
      child is a key, mapped to the parents that reference it. */
  ghost function Inverted(es: set<Edge>): Graph
  {
    map c | c in Keys(es) :: Parents(es, c)
  }

  /** `main` and every child. */
  ghost function Keys(es: set<Edge>): set<string>
  {
    {"main"} + set e | e in es :: e.1
  }

  /** The parents of the edges into `c`. */
  ghost function Parents(es: set<Edge>, c: string): set<string>
  {
    set e | e in es && e.1 == c :: e.0
  }

  lemma InvertedEmpty()
    ensures Inverted({}) == map["main" := {}]
  {
    assert Keys({}) == {"main"};
    assert Parents({}, "main") == {};
  }

  /** Entering one more edge as `try_emplace` and `emplace` do. */
  lemma InvertStep(inv: Graph, es: set<Edge>, p: string, c: string)
    requires inv == Inverted(es)
    ensures (if c in inv then inv[c := inv[c] + {p}] else inv[c := {p}]) == Inverted(es + {(p, c)})
  {
    var next := if c in inv then inv[c := inv[c] + {p}] else inv[c := {p}];
    var want := Inverted(es + {(p, c)});
    assert next.Keys == want.Keys by {
      assert Keys(es + {(p, c)}) == Keys(es) + {c};
    }
    forall x | x in next ensures next[x] == want[x] {
      assert Parents(es + {(p, c)}, x) == Parents(es, x) + (if x == c then {p} else {});
    }
  }

  /** The inverted map read back: a key is `main` or a child of some
      parent, and it maps to exactly the parents that reference it. */
  lemma InvertedSpec(refs: Graph, es: set<Edge>)
    requires forall p, c :: (p, c) in es <==> p in refs && c in refs[p]
    ensures forall c :: c in Inverted(es) <==> c == "main" || exists p :: p in refs && c in refs[p]
    ensures forall c, p :: c in Inverted(es) ==> (p in Inverted(es)[c] <==> p in refs && c in refs[p])
  {
    forall c | c in Inverted(es) && c != "main" ensures exists p :: p in refs && c in refs[p] {
      var e :| e in es && e.1 == c;
      assert (e.0, e.1) in es;
    }
    forall c, p | p in refs && c in refs[p] ensures c in Inverted(es) {
      assert (p, c) in es;
    }
    forall c, p | c in Inverted(es) && p in Inverted(es)[c] ensures p in refs && c in refs[p] {
      var e :| e in es && e.1 == c && e.0 == p;
      assert (e.0, e.1) in es;
    }
    forall c, p | c in Inverted(es) && p in refs && c in refs[p] ensures p in Inverted(es)[c] {
      assert (p, c) in es;
    }
  }

  /** The first half of dead: the "referenced by" map, seeded with an empty
      entry for `main`.  Parents and their children are taken in any order,
      as the hash maps and sets of the source give them. */
  method Inverse(refs: Graph) returns (inv: Graph)
    ensures forall c :: c in inv <==> c == "main" || exists p :: p in refs && c in refs[p]
    ensures forall c, p :: c in inv ==> (p in inv[c] <==> p in refs && c in refs[p])
  {
    inv := map["main" := {}];
    InvertedEmpty();
    ghost var done: set<Edge> := {};
    var parents := refs.Keys;
    while parents != {}
      invariant parents <= refs.Keys
      invariant forall p, c :: (p, c) in done <==> p in refs && p !in parents && c in refs[p]
      invariant inv == Inverted(done)
      decreases parents
    {
      var parent :| parent in parents;
      var children := refs[parent];
      while children != {}
        invariant children <= refs[parent]
        invariant forall p, c :: (p, c) in done <==> (p in refs && c in refs[p]
                                 && (p !in parents || (p == parent && c !in children)))
        invariant inv == Inverted(done)
        decreases children
      {
        var child :| child in children;
        InvertStep(inv, done, parent, child);
        if child !in inv {
          inv := inv[child := {parent}];
        } else {
          inv := inv[child := inv[child] + {parent}];
        }
        done := done + {(parent, child)};
        children := children - {child};
      }
      parents := parents - {parent};
    }
    InvertedSpec(refs, done);
  }

  /** The names a node reports, in the order the visit reports them: a
      function's body first, then the function if nothing references it. */
  function DeadNames(n: Node, inv: Graph): seq<string>
    decreases n, 1
  {
    match n
    case Leaf(_) => []
    case Block(o, kids, _) => DeadNamesAll(kids, inv) + (if o.kind == Fn && o.text !in inv then [o.text] else [])
  }

  function DeadNamesAll(ns: seq<Node>, inv: Graph): seq<string>
    decreases ns, 0
  {
    if ns == [] then [] else DeadNames(ns[0], inv) + DeadNamesAll(ns[1..], inv)
  }

  lemma {:induction false} DeadNamesAllAppend(a: seq<Node>, b: seq<Node>, inv: Graph)
    ensures DeadNamesAll(a + b, inv) == DeadNamesAll(a, inv) + DeadNamesAll(b, inv)
    decreases |a|
  {
    if a == [] {
      assert a + b == b;
    } else {
      assert (a + b)[0] == a[0];
      assert (a + b)[1..] == a[1..] + b;
      DeadNamesAllAppend(a[1..], b, inv);
    }
  }

  /** A name is reported exactly when a function of that name is defined in
      the node and the inverted map does not hold it. */
  lemma {:induction false} DeadNamesSpec(n: Node, inv: Graph)
    requires WF(n)
    ensures forall x :: x in DeadNames(n, inv) <==> x !in inv && Symbol(Fn, x) in Flatten(n)
    decreases n, 1
  {
    match n
    case Leaf(s) =>
    case Block(o, kids, c) =>
      DeadNamesAllSpec(kids, inv);
      assert Flatten(n) == [o] + FlattenAll(kids) + [c];
  }

  lemma {:induction false} DeadNamesAllSpec(ns: seq<Node>, inv: Graph)
    requires WFAll(ns)
    ensures forall x :: x in DeadNamesAll(ns, inv) <==> x !in inv && Symbol(Fn, x) in FlattenAll(ns)
    decreases ns, 0
  {
    if ns != [] {
      DeadNamesSpec(ns[0], inv);
      DeadNamesAllSpec(ns[1..], inv);
    }
  }

  /** dead_visit on the item at `i`: the item's unreferenced functions. */
  method DeadVisit(t: seq<Symbol>, i: nat, inv: Graph) returns (next: nat, dead: seq<string>)
    requires Item(t, i).Some?
    ensures next == Item(t, i).value
    ensures dead == DeadNames(TreeAt(t, i), inv)
    decreases |t| - i, 0
  {
    var current := t[i];
    next := i + 1;
    if !IsOpener(current.kind) {
      TreeLeaf(t, i);
      return next, [];
    }
    TreeOpen(t, i);
    next, dead := DeadBlock(t, next, inv);
    if current.kind == Fn && current.text !in inv {
      dead := dead + [current.text];
    } else {
      // PROGRAM, MARK, QUOTE and LET, or a referenced function
      assert dead == dead + [];
    }
  }

  /** visit_block for this pass. */
  method DeadBlock(t: seq<Symbol>, j: nat, inv: Graph) returns (next: nat, dead: seq<string>)
    requires Body(t, j).Some?
    ensures next == Body(t, j).value
    ensures dead == DeadNamesAll(KidsAt(t, j), inv)
    decreases |t| - j, 1
  {
    ghost var done: seq<Node> := [];
    dead := [];
    var it := j;
    while t[it].kind != End
      invariant j <= it < |t| && Body(t, it) == Body(t, j)
      invariant KidsAt(t, j) == done + KidsAt(t, it)
      invariant dead == DeadNamesAll(done, inv)
      decreases |t| - it
    {
      KidsUnfold(t, it);
      ghost var node := TreeAt(t, it);
      var more;
      it, more := DeadVisit(t, it, inv);
      DeadNamesAllAppend(done, [node], inv);
      assert DeadNamesAll([node], inv) == DeadNames(node, inv) by {
        assert [node][1..] == [];
      }
      KidsStep(KidsAt(t, j), done, node, KidsAt(t, it));
      dead := dead + more;
      done := done + [node];
    }
    KidsEnd(t, it);
    assert done == KidsAt(t, j);
    return it + 1, dead;
  }

  /** dead: a function is reported exactly when it is defined on the tape,
      is not `main`, and no function references it. */
  method Run(ctx: Context, t: seq<Symbol>) returns (next: nat, dead: seq<string>)
    requires t == [] || Balanced(t)
    ensures t == [] ==> next == 0 && dead == []
    ensures t != [] ==> next == |t|
    ensures forall x :: x in dead <==> (Symbol(Fn, x) in t && x != "main"
                                       && !(exists p :: p in ctx.refs && x in ctx.refs[p]))
  {
    if t == [] {
      return 0, [];
    }
    var inv := Inverse(ctx.refs);
    next, dead := DeadVisit(t, 0, inv);
    BalancedTree(t);
    DeadNamesSpec(TreeAt(t, 0), inv);
  }
}
