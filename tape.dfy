/** The flat program tape of cdeck/cdc.hpp and its block structure.

    A block is an opener symbol (PROGRAM, FN, LET, MARK, QUOTE), a run of
    items and a closing END.  `Item(t, i)` is the position just past the item
    that starts at `i` and `Body(t, j)` the position just past the END that
    closes the run starting at `j`: exactly the positions that a pass visitor
    and `visit_block` return on a well-formed tape. */
module Tape {
  import opened Symbols

  /** Position just past the item starting at `i`, if the tape holds one there.
      An END is never an item: it only closes a body. */
  function Item(t: seq<Symbol>, i: nat): (r: Option<nat>)
    ensures r.Some? ==> i < r.value <= |t|
    decreases |t| - i, 0
  {
    if i >= |t| || t[i].kind == End then None
    else if IsOpener(t[i].kind) then Body(t, i + 1)
    else Some(i + 1)
  }

  /** Position just past the END that closes the run of items starting at `j`
      (what `visit_block` returns). */
  function Body(t: seq<Symbol>, j: nat): (r: Option<nat>)
    ensures r.Some? ==> j < r.value <= |t| && t[r.value - 1].kind == End
    decreases |t| - j, 1
  {
    if j >= |t| then None
    else if t[j].kind == End then Some(j + 1)
    else match Item(t, j)
      case None => None
      case Some(k) => Body(t, k)
  }

  /** The whole tape is one item: openers and ENDs are balanced. */
  predicate Balanced(t: seq<Symbol>)
  {
    Item(t, 0) == Some(|t|)
  }

  /** What `program` produces: a balanced tape rooted at PROGRAM. */
  predicate IsProgramTape(t: seq<Symbol>)
  {
    Balanced(t) && t[0].kind == Program
  }

  /** The tree a well-formed tape spells out: an atom, or an opener with
      its items and closing END. Passes walk the flat tape; the tree only
      states what they compute. */
  datatype Node = Leaf(sym: Symbol) | Block(open: Symbol, kids: seq<Node>, close: Symbol)

  /** The symbols of a node, in tape order. */
  function Flatten(n: Node): seq<Symbol>
    decreases n
  {
    match n
    case Leaf(s) => [s]
    case Block(o, kids, c) => [o] + FlattenAll(kids) + [c]
  }

  function FlattenAll(ns: seq<Node>): seq<Symbol>
    decreases ns
  {
    if ns == [] then [] else Flatten(ns[0]) + FlattenAll(ns[1..])
  }

  /** Atoms neither open nor close; blocks open with an opener and close with END. */
  predicate WF(n: Node)
    decreases n
  {
    match n
    case Leaf(s) => !IsOpener(s.kind) && s.kind != End
    case Block(o, kids, c) => IsOpener(o.kind) && c.kind == End && WFAll(kids)
  }

  predicate WFAll(ns: seq<Node>)
    decreases ns
  {
    ns == [] || (WF(ns[0]) && WFAll(ns[1..]))
  }

  lemma {:induction false} FlattenAllAppend(a: seq<Node>, b: seq<Node>)
    ensures FlattenAll(a + b) == FlattenAll(a) + FlattenAll(b)
    ensures WFAll(a + b) <==> WFAll(a) && WFAll(b)
    decreases |a|
  {
    if a == [] {
      assert a + b == b;
    } else {
      assert (a + b)[0] == a[0];
      assert (a + b)[1..] == a[1..] + b;
      FlattenAllAppend(a[1..], b);
    }
  }

  /** A well-formed node placed on a tape is an item there. */
  lemma {:induction false} FlattenItem(n: Node, t: seq<Symbol>, i: nat)
    requires WF(n) && i + |Flatten(n)| <= |t| && t[i..i + |Flatten(n)|] == Flatten(n)
    ensures Item(t, i) == Some(i + |Flatten(n)|)
    decreases n
  {
    assert t[i] == Flatten(n)[0];
    match n
    case Leaf(s) =>
    case Block(o, kids, c) =>
      BlockInside(n, t, i);
      FlattenBody(kids, t, i + 1);
  }

  /** Well-formed nodes followed by an END, placed on a tape, are a body there. */
  lemma {:induction false} FlattenBody(ns: seq<Node>, t: seq<Symbol>, j: nat)
    requires WFAll(ns) && j + |FlattenAll(ns)| < |t|
    requires t[j..j + |FlattenAll(ns)|] == FlattenAll(ns) && t[j + |FlattenAll(ns)|].kind == End
    ensures Body(t, j) == Some(j + |FlattenAll(ns)| + 1)
    decreases ns
  {
    if ns == [] {
      assert t[j].kind == End;
    } else {
      var a := Flatten(ns[0]);
      var b := FlattenAll(ns[1..]);
      var k := j + |a|;
      assert FlattenAll(ns) == a + b;
      assert |FlattenAll(ns)| == |a| + |b|;
      SliceSplit(t, j, a, b);
      assert WF(ns[0]) && WFAll(ns[1..]);
      FlattenItem(ns[0], t, j);
      assert t[k + |b|].kind == End;
      FlattenBody(ns[1..], t, k);
      NodeHead(ns[0]);
      assert t[j] == a[0];
      BodyStep(t, j, k);
    }
  }

  /** A body that starts with an item goes on after it. */
  lemma BodyStep(t: seq<Symbol>, j: nat, m: nat)
    requires j < |t| && t[j].kind != End && Item(t, j) == Some(m)
    ensures Body(t, j) == Body(t, m)
  {
  }

  /** A run of two parts on a tape, read back part by part. */
  lemma SliceSplit<T>(t: seq<T>, j: nat, a: seq<T>, b: seq<T>)
    requires j + |a| + |b| <= |t| && t[j..j + |a + b|] == a + b
    ensures t[j..j + |a|] == a && t[j + |a|..j + |a| + |b|] == b
  {
    assert t[j..j + |a|] == t[j..j + |a + b|][..|a|];
    assert t[j + |a|..j + |a| + |b|] == t[j..j + |a + b|][|a|..];
  }

  /** A well-formed node never starts with an END. */
  lemma NodeHead(n: Node)
    requires WF(n)
    ensures |Flatten(n)| > 0 && Flatten(n)[0].kind != End
    ensures n.Leaf? <==> !IsOpener(Flatten(n)[0].kind)
    ensures n.Leaf? ==> Flatten(n) == [n.sym]
    ensures n.Block? ==> Flatten(n)[0] == n.open
  {
  }

  /** The body of the block at `i` sits right after its opener. */
  lemma BlockInside(n: Node, t: seq<Symbol>, i: nat)
    requires WF(n) && n.Block? && i + |Flatten(n)| <= |t| && t[i..i + |Flatten(n)|] == Flatten(n)
    ensures var f := FlattenAll(n.kids);
      i + 1 + |f| < |t| && t[i + 1..i + 1 + |f|] == f && t[i + 1 + |f|] == n.close
  {
    var f := FlattenAll(n.kids);
    var whole := Flatten(n);
    assert whole == [n.open] + f + [n.close];
    forall x | 0 <= x < |f| ensures t[i + 1 + x] == f[x] {
      assert t[i + 1 + x] == t[i..i + |whole|][1 + x];
      assert whole[1 + x] == f[x];
    }
    assert t[i + 1..i + 1 + |f|] == f;
    assert t[i + 1 + |f|] == t[i..i + |whole|][1 + |f|];
  }

  /** Walking a body: the next node of `kids` is next on the tape. */
  lemma NextKid(t: seq<Symbol>, p: seq<Symbol>, kids: seq<Node>, k: nat, tail: seq<Symbol>)
    requires k < |kids| && t == p + FlattenAll(kids[k..]) + tail
    ensures FlattenAll(kids[k..]) == Flatten(kids[k]) + FlattenAll(kids[k + 1..])
    ensures |p| + |Flatten(kids[k])| <= |t| && t[|p|..|p| + |Flatten(kids[k])|] == Flatten(kids[k])
    ensures t[..|p|] == p && t[|p| + |Flatten(kids[k])|..] == FlattenAll(kids[k + 1..]) + tail
    ensures WFAll(kids[k..]) ==> WF(kids[k]) && WFAll(kids[k + 1..])
  {
    assert kids[k..][0] == kids[k] && kids[k..][1..] == kids[k + 1..];
  }

  /** Walking a body: past the last node comes what followed the body. */
  lemma LastKid(t: seq<Symbol>, p: seq<Symbol>, kids: seq<Node>, k: nat, tail: seq<Symbol>)
    requires k <= |kids| && t == p + FlattenAll(kids[k..]) + tail && WFAll(kids[k..])
    requires |tail| > 0 && tail[0].kind == End
    ensures |p| < |t| && (t[|p|].kind == End <==> k == |kids|)
  {
    if k < |kids| {
      NextKid(t, p, kids, k, tail);
      var f := Flatten(kids[k]);
      assert t[|p|] == f[0];
      match kids[k]
      case Leaf(_) =>
      case Block(_, _, _) =>
    } else {
      assert kids[k..] == [];
      assert t[|p|] == tail[0];
    }
  }

  /** Replacing the part of a tape that spells one node. */
  lemma Replaced(t: seq<Symbol>, p: seq<Symbol>, y: seq<Symbol>, rest: seq<Symbol>, x: seq<Symbol>)
    requires t == p + (y + rest)
    ensures t[..|p|] + x + t[|p| + |y|..] == p + x + rest
  {
    assert t[..|p|] == p;
    assert t[|p| + |y|..] == rest;
  }

  /** Walking a body: the next node was replaced on the tape by `m`. */
  lemma ReplaceKid(t: seq<Symbol>, pre: seq<Symbol>, done: seq<Node>, kids: seq<Node>, k: nat,
                   tail: seq<Symbol>, m: Node, t2: seq<Symbol>)
    requires k < |kids| && WFAll(kids[k..]) && t == pre + FlattenAll(done) + FlattenAll(kids[k..]) + tail
    requires |tail| > 0 && tail[0].kind == End
    requires var it := |pre| + |FlattenAll(done)|;
      it + |Flatten(kids[k])| <= |t| && t2 == t[..it] + Flatten(m) + t[it + |Flatten(kids[k])|..]
    ensures WFAll(kids[k + 1..]) && t2 == pre + FlattenAll(done + [m]) + FlattenAll(kids[k + 1..]) + tail
    ensures |FlattenAll(done + [m])| == |FlattenAll(done)| + |Flatten(m)|
    ensures |FlattenAll(kids[k..])| == |Flatten(kids[k])| + |FlattenAll(kids[k + 1..])|
    ensures |pre| + |FlattenAll(done + [m])| < |t2|
    ensures t2[|pre| + |FlattenAll(done + [m])|].kind == End <==> k + 1 == |kids|
  {
    ReplaceKidTape(t, pre, done, kids, k, tail, m, t2);
    FlattenAllSnoc(done, m);
    KidsTail(kids, k);
    LastKid(t2, pre + FlattenAll(done + [m]), kids, k + 1, tail);
  }

  lemma ReplaceKidTape(t: seq<Symbol>, pre: seq<Symbol>, done: seq<Node>, kids: seq<Node>, k: nat,
                       tail: seq<Symbol>, m: Node, t2: seq<Symbol>)
    requires k < |kids| && t == pre + FlattenAll(done) + FlattenAll(kids[k..]) + tail
    requires var it := |pre| + |FlattenAll(done)|;
      it + |Flatten(kids[k])| <= |t| && t2 == t[..it] + Flatten(m) + t[it + |Flatten(kids[k])|..]
    ensures t2 == pre + FlattenAll(done + [m]) + FlattenAll(kids[k + 1..]) + tail
  {
    var b, c, d := FlattenAll(done), Flatten(m), FlattenAll(kids[k + 1..]);
    ReplaceOne(t, pre + b, kids, k, tail, m, t2);
    FlattenAllSnoc(done, m);
    SeqAssoc(pre, b, c);
  }

  lemma SeqAssoc(a: seq<Symbol>, b: seq<Symbol>, c: seq<Symbol>)
    ensures a + b + c == a + (b + c)
  {
  }

  lemma ReplaceOne(t: seq<Symbol>, p: seq<Symbol>, kids: seq<Node>, k: nat,
                   tail: seq<Symbol>, m: Node, t2: seq<Symbol>)
    requires k < |kids| && t == p + FlattenAll(kids[k..]) + tail
    requires |p| + |Flatten(kids[k])| <= |t| && t2 == t[..|p|] + Flatten(m) + t[|p| + |Flatten(kids[k])|..]
    ensures t2 == p + Flatten(m) + FlattenAll(kids[k + 1..]) + tail
  {
    NextKid(t, p, kids, k, tail);
    Replaced(t, p, Flatten(kids[k]), FlattenAll(kids[k + 1..]) + tail, Flatten(m));
  }

  lemma KidsTail(kids: seq<Node>, k: nat)
    requires k < |kids|
    ensures FlattenAll(kids[k..]) == Flatten(kids[k]) + FlattenAll(kids[k + 1..])
    ensures WFAll(kids[k..]) ==> WF(kids[k]) && WFAll(kids[k + 1..])
  {
    assert kids[k..][0] == kids[k] && kids[k..][1..] == kids[k + 1..];
  }

  lemma FlattenAllSnoc(done: seq<Node>, m: Node)
    ensures FlattenAll(done + [m]) == FlattenAll(done) + Flatten(m)
  {
    FlattenAllAppend(done, [m]);
    assert FlattenAll([m]) == Flatten(m);
  }

  /** The node that the item at `i` spells out. */
  ghost function TreeAt(t: seq<Symbol>, i: nat): (n: Node)
    requires Item(t, i).Some?
    ensures WF(n) && Flatten(n) == t[i..Item(t, i).value]
    decreases |t| - i, 0
  {
    var e := Item(t, i).value;
    if IsOpener(t[i].kind) then
      var kids := KidsAt(t, i + 1);
      ConsSlice(t, i, e, FlattenAll(kids) + [t[e - 1]]);
      Block(t[i], kids, t[e - 1])
    else
      Leaf(t[i])
  }

  /** The nodes of the body starting at `j`, without its END. */
  ghost function KidsAt(t: seq<Symbol>, j: nat): (ns: seq<Node>)
    requires Body(t, j).Some?
    ensures WFAll(ns) && FlattenAll(ns) + [t[Body(t, j).value - 1]] == t[j..Body(t, j).value]
    decreases |t| - j, 1
  {
    if t[j].kind == End then
      EmptyBody(t, j);
      []
    else
      var m := Item(t, j).value;
      var e := Body(t, j).value;
      BodyStep(t, j, m);
      var rest := KidsAt(t, m);
      var n := TreeAt(t, j);
      KidsCons(t, j, m, e, n, rest);
      [n] + rest
  }

  lemma EmptyBody(t: seq<Symbol>, j: nat)
    requires j < |t|
    ensures WFAll([]) && FlattenAll([]) + [t[j]] == t[j..j + 1]
  {
  }

  lemma ConsSlice(t: seq<Symbol>, i: nat, e: nat, body: seq<Symbol>)
    requires i < e <= |t| && body == t[i + 1..e]
    ensures [t[i]] + body == t[i..e]
  {
  }

  lemma KidsCons(t: seq<Symbol>, j: nat, m: nat, e: nat, n: Node, rest: seq<Node>)
    requires j < m < e <= |t|
    requires WF(n) && Flatten(n) == t[j..m]
    requires WFAll(rest) && FlattenAll(rest) + [t[e - 1]] == t[m..e]
    ensures WFAll([n] + rest) && FlattenAll([n] + rest) + [t[e - 1]] == t[j..e]
  {
    assert t[j..m] + t[m..e] == t[j..e];
    assert ([n] + rest)[0] == n && ([n] + rest)[1..] == rest;
  }

  /** A body that does not start with END: its first node, then the rest. */
  lemma KidsUnfold(t: seq<Symbol>, j: nat)
    requires Body(t, j).Some? && t[j].kind != End
    ensures Item(t, j).Some? && Body(t, Item(t, j).value) == Body(t, j)
    ensures KidsAt(t, j) == [TreeAt(t, j)] + KidsAt(t, Item(t, j).value)
  {
  }

  /** A body that starts with END is empty. */
  lemma KidsEnd(t: seq<Symbol>, j: nat)
    requires Body(t, j).Some? && t[j].kind == End
    ensures Body(t, j) == Some(j + 1) && KidsAt(t, j) == []
  {
  }

  /** The node at an opener: the opener, its body's nodes, and the END
      just before the item's end. */
  lemma TreeOpen(t: seq<Symbol>, i: nat)
    requires Item(t, i).Some? && IsOpener(t[i].kind)
    ensures Body(t, i + 1) == Item(t, i)
    ensures TreeAt(t, i) == Block(t[i], KidsAt(t, i + 1), t[Item(t, i).value - 1])
    ensures |Flatten(TreeAt(t, i))| == Item(t, i).value - i
  {
  }

  /** The node at any other symbol is that symbol alone. */
  lemma TreeLeaf(t: seq<Symbol>, i: nat)
    requires Item(t, i).Some? && !IsOpener(t[i].kind)
    ensures Item(t, i) == Some(i + 1) && TreeAt(t, i) == Leaf(t[i])
  {
  }

  /** Moving the next node from the rest of a body to the part walked so far. */
  lemma KidsStep(all: seq<Node>, done: seq<Node>, node: Node, rest: seq<Node>)
    requires all == done + ([node] + rest)
    ensures all == (done + [node]) + rest
  {
  }

  /** A balanced tape spells out exactly one well-formed node. */
  lemma BalancedTree(t: seq<Symbol>)
    requires Balanced(t)
    ensures WF(TreeAt(t, 0)) && Flatten(TreeAt(t, 0)) == t
  {
    assert t[0..|t|] == t;
  }

  /** And any well-formed node spells out a balanced tape. */
  lemma TreeBalanced(n: Node)
    requires WF(n)
    ensures Balanced(Flatten(n))
  {
    var t := Flatten(n);
    assert t[0..|t|] == t;
    FlattenItem(n, t, 0);
  }

  /** Counts symbols of one kind. */
  function CountKind(s: seq<Symbol>, k: Kind): nat
  {
    if s == [] then 0 else (if s[0].kind == k then 1 else 0) + CountKind(s[1..], k)
  }

  lemma {:induction false} CountKindAppend(a: seq<Symbol>, b: seq<Symbol>, k: Kind)
    ensures CountKind(a + b, k) == CountKind(a, k) + CountKind(b, k)
    decreases |a|
  {
    if a == [] {
      assert a + b == b;
    } else {
      assert (a + b)[0] == a[0];
      assert (a + b)[1..] == a[1..] + b;
      CountKindAppend(a[1..], b, k);
    }
  }

  lemma CountOne(s: Symbol, k: Kind)
    ensures CountKind([s], k) == if s.kind == k then 1 else 0
  {
    assert [s][1..] == [];
  }

  /** Counting over a block: its opener, its nodes and its END. */
  lemma CountBlock(o: Symbol, kids: seq<Node>, c: Symbol, k: Kind)
    ensures CountKind(Flatten(Block(o, kids, c)), k)
         == CountKind([o], k) + CountKind(FlattenAll(kids), k) + CountKind([c], k)
  {
    CountKindAppend([o] + FlattenAll(kids), [c], k);
    CountKindAppend([o], FlattenAll(kids), k);
  }

  /** Counting over a run of nodes: the first one and the rest. */
  lemma CountCons(ns: seq<Node>, k: Kind)
    requires ns != []
    ensures CountKind(FlattenAll(ns), k) == CountKind(Flatten(ns[0]), k) + CountKind(FlattenAll(ns[1..]), k)
  {
    CountKindAppend(Flatten(ns[0]), FlattenAll(ns[1..]), k);
  }

  /** Counting over two runs of nodes. */
  lemma CountAll(a: seq<Node>, b: seq<Node>, k: Kind)
    ensures CountKind(FlattenAll(a + b), k) == CountKind(FlattenAll(a), k) + CountKind(FlattenAll(b), k)
  {
    FlattenAllAppend(a, b);
    CountKindAppend(FlattenAll(a), FlattenAll(b), k);
  }

  /** Per-compilation state shared by all passes (struct Context). Ranges hold
      [opener, past-END) index pairs instead of iterators. */
  class Context {
    var symbols: map<string, Kind>
    var refs: map<string, set<string>>
    var ranges: map<string, (nat, nat)>
    var intern: seq<string>
    var internId: nat

    constructor ()
      ensures symbols == map[] && refs == map[] && ranges == map[]
      ensures intern == [] && internId == 0
    {
      symbols := map[];
      refs := map[];
      ranges := map[];
      intern := [];
      internId := 0;
    }
  }
}
