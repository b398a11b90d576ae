/** The ranges pass (cdeck/passes/ranges.hpp): for each function, the span
    of the tape from its FN opener to just past its END.  Iterators become
    indices into the tape. */
module Ranges {
  import opened Symbols
  import opened Tape

  type Span = (string, (nat, nat))

  /** The spans a node placed at `at` records, in the order the pass records
      them: a function's body first, then the function itself. */
  function Spans(n: Node, at: nat): seq<Span>
    decreases n, 1
  {
    match n
    case Leaf(_) => []
    case Block(o, kids, _) =>
      SpansAll(kids, at + 1) + (if o.kind == Fn then [(o.text, (at, at + |Flatten(n)|))] else [])
  }

  function SpansAll(ns: seq<Node>, at: nat): seq<Span>
    decreases ns, 0
  {
    if ns == [] then [] else Spans(ns[0], at) + SpansAll(ns[1..], at + |Flatten(ns[0])|)
  }

  lemma {:induction false} SpansAllAppend(a: seq<Node>, b: seq<Node>, at: nat)
    ensures SpansAll(a + b, at) == SpansAll(a, at) + SpansAll(b, at + |FlattenAll(a)|)
    decreases |a|
  {
    if a == [] {
      assert a + b == b;
    } else {
      assert (a + b)[0] == a[0];
      assert (a + b)[1..] == a[1..] + b;
      SpansAllAppend(a[1..], b, at + |Flatten(a[0])|);
    }
  }

  /** try_emplace: a name already present keeps its first span. */
  function Record(ranges: map<string, (nat, nat)>, sp: seq<Span>): map<string, (nat, nat)>
    decreases |sp|
  {
    if sp == [] then ranges
    else Record(if sp[0].0 in ranges then ranges else ranges[sp[0].0 := sp[0].1], sp[1..])
  }

  lemma {:induction false} RecordAppend(ranges: map<string, (nat, nat)>, a: seq<Span>, b: seq<Span>)
    ensures Record(ranges, a + b) == Record(Record(ranges, a), b)
    decreases |a|
  {
    if a == [] {
      assert a + b == b;
    } else {
      assert (a + b)[0] == a[0];
      assert (a + b)[1..] == a[1..] + b;
      RecordAppend(if a[0].0 in ranges then ranges else ranges[a[0].0 := a[0].1], a[1..], b);
    }
  }

  /** Existing entries are never overwritten. */
  lemma {:induction false} RecordKeeps(ranges: map<string, (nat, nat)>, sp: seq<Span>, x: string)
    requires x in ranges
    ensures x in Record(ranges, sp) && Record(ranges, sp)[x] == ranges[x]
    decreases |sp|
  {
    if sp != [] {
      RecordKeeps(if sp[0].0 in ranges then ranges else ranges[sp[0].0 := sp[0].1], sp[1..], x);
    }
  }

  /** A new name gets the first span recorded for it. */
  lemma {:induction false} RecordFirst(ranges: map<string, (nat, nat)>, sp: seq<Span>, k: nat)
    requires k < |sp| && sp[k].0 !in ranges
    requires forall m :: 0 <= m < k ==> sp[m].0 != sp[k].0
    ensures sp[k].0 in Record(ranges, sp) && Record(ranges, sp)[sp[k].0] == sp[k].1
    decreases |sp|
  {
    var r1 := if sp[0].0 in ranges then ranges else ranges[sp[0].0 := sp[0].1];
    if k == 0 {
      RecordKeeps(r1, sp[1..], sp[0].0);
    } else {
      assert sp[k] == sp[1..][k - 1];
      forall m | 0 <= m < k - 1 ensures sp[1..][m].0 != sp[1..][k - 1].0 {
        assert sp[1..][m] == sp[m + 1];
      }
      assert sp[0].0 != sp[k].0;
      RecordFirst(r1, sp[1..], k - 1);
    }
  }

  /** Nothing else becomes a key: a new key's value is a span recorded for
      that name. */
  lemma {:induction false} RecordFrom(ranges: map<string, (nat, nat)>, sp: seq<Span>, x: string)
    requires x in Record(ranges, sp) && x !in ranges
    ensures exists k :: 0 <= k < |sp| && sp[k] == (x, Record(ranges, sp)[x])
    decreases |sp|
  {
    if sp != [] {
      var r1 := if sp[0].0 in ranges then ranges else ranges[sp[0].0 := sp[0].1];
      if x !in r1 {
        RecordFrom(r1, sp[1..], x);
        var k :| 0 <= k < |sp[1..]| && sp[1..][k] == (x, Record(ranges, sp)[x]);
        assert sp[k + 1] == sp[1..][k];
      } else {
        RecordKeeps(r1, sp[1..], x);
        assert sp[0] == (x, Record(ranges, sp)[x]);
      }
    }
  }

  /** `s` is the span of an `FN name` item lying within [lo, hi) of the
      tape: it starts at the opener and ends just past that function's END. */
  predicate FnSpan(t: seq<Symbol>, s: Span, lo: nat, hi: nat)
  {
    var (b, e) := s.1;
    lo <= b < e <= hi <= |t| && t[b] == Symbol(Fn, s.0) && Item(t, b) == Some(e) && t[e - 1].kind == End
  }

  /** Every span recorded for a node placed at `i` on the tape starts at an
      `FN name` opener and runs exactly to just past that function's END,
      inside the node. */
  lemma {:induction false} SpansShape(n: Node, t: seq<Symbol>, i: nat)
    requires WF(n) && i + |Flatten(n)| <= |t| && t[i..i + |Flatten(n)|] == Flatten(n)
    ensures forall s :: s in Spans(n, i) ==> FnSpan(t, s, i, i + |Flatten(n)|)
    decreases n, 1
  {
    match n
    case Leaf(_) =>
    case Block(o, kids, c) =>
      BlockInside(n, t, i);
      SpansAllShape(kids, t, i + 1);
      FlattenItem(n, t, i);
      assert t[i] == o by {
        assert Flatten(n)[0] == o;
        assert t[i] == t[i..i + |Flatten(n)|][0];
      }
      assert t[i + |Flatten(n)| - 1] == c by {
        assert Flatten(n)[|Flatten(n)| - 1] == c;
      }
      var e := i + |Flatten(n)|;
      assert |Flatten(n)| == |FlattenAll(kids)| + 2;
      forall s | s in Spans(n, i)
        ensures FnSpan(t, s, i, e)
      {
        if s !in SpansAll(kids, i + 1) {
          assert s == (o.text, (i, e));
        }
      }
  }

  lemma {:induction false} SpansAllShape(ns: seq<Node>, t: seq<Symbol>, j: nat)
    requires WFAll(ns) && j + |FlattenAll(ns)| <= |t| && t[j..j + |FlattenAll(ns)|] == FlattenAll(ns)
    ensures forall s :: s in SpansAll(ns, j) ==> FnSpan(t, s, j, j + |FlattenAll(ns)|)
    decreases ns, 0
  {
    if ns != [] {
      var a := Flatten(ns[0]);
      SliceSplit(t, j, a, FlattenAll(ns[1..]));
      SpansShape(ns[0], t, j);
      SpansAllShape(ns[1..], t, j + |a|);
    }
  }

  /** After the pass over a balanced tape, every name it added maps to the
      span of an `FN name` item: the opener's index and the index just
      past its END. */
  lemma RunSpans(ranges: map<string, (nat, nat)>, t: seq<Symbol>)
    requires Balanced(t)
    ensures forall x :: x in Record(ranges, Spans(TreeAt(t, 0), 0)) && x !in ranges ==>
      FnSpan(t, (x, Record(ranges, Spans(TreeAt(t, 0), 0))[x]), 0, |t|)
  {
    var sp := Spans(TreeAt(t, 0), 0);
    BalancedTree(t);
    assert t[0..|t|] == t;
    forall x | x in Record(ranges, sp) && x !in ranges
      ensures FnSpan(t, (x, Record(ranges, sp)[x]), 0, |t|)
    {
      RecordFrom(ranges, sp, x);
      var k :| 0 <= k < |sp| && sp[k] == (x, Record(ranges, sp)[x]);
      SpansShape(TreeAt(t, 0), t, 0);
      assert sp[k] in sp;
    }
  }

  /** ranges_visit on the item at `i`: the item's spans are recorded. */
  method RangesVisit(ctx: Context, t: seq<Symbol>, i: nat) returns (next: nat)
    requires Item(t, i).Some?
    modifies ctx`ranges
    ensures next == Item(t, i).value
    ensures ctx.ranges == Record(old(ctx.ranges), Spans(TreeAt(t, i), i))
    decreases |t| - i, 0
  {
    var current := t[i];
    next := i + 1;
    if !IsOpener(current.kind) {
      // every other symbol records nothing
      TreeLeaf(t, i);
      return;
    }
    OpenerSpans(t, i);
    ghost var body := SpansAll(KidsAt(t, i + 1), i + 1);
    next := RangesBlock(ctx, t, next);
    if current.kind == Fn {
      ghost var before := ctx.ranges;
      if current.text !in ctx.ranges {
        ctx.ranges := ctx.ranges[current.text := (i, next)];
      }
      FnRecorded(old(ctx.ranges), before, ctx.ranges, body, (current.text, (i, next)));
    } else {
      // PROGRAM, MARK, QUOTE and LET only recurse into their body
      assert body + [] == body;
    }
  }

  /** The spans of a block: its body's, then its own when it is a function. */
  lemma OpenerSpans(t: seq<Symbol>, i: nat)
    requires Item(t, i).Some? && IsOpener(t[i].kind)
    ensures Body(t, i + 1) == Item(t, i)
    ensures Spans(TreeAt(t, i), i) == SpansAll(KidsAt(t, i + 1), i + 1)
              + (if t[i].kind == Fn then [(t[i].text, (i, Item(t, i).value))] else [])
  {
    TreeOpen(t, i);
  }

  lemma FnRecorded(r0: map<string, (nat, nat)>, before: map<string, (nat, nat)>,
                   after: map<string, (nat, nat)>, body: seq<Span>, s: Span)
    requires before == Record(r0, body)
    requires after == if s.0 in before then before else before[s.0 := s.1]
    ensures after == Record(r0, body + [s])
  {
    RecordAppend(r0, body, [s]);
    assert [s][1..] == [];
  }

  /** visit_block for this pass. */
  method RangesBlock(ctx: Context, t: seq<Symbol>, j: nat) returns (next: nat)
    requires Body(t, j).Some?
    modifies ctx`ranges
    ensures next == Body(t, j).value
    ensures ctx.ranges == Record(old(ctx.ranges), SpansAll(KidsAt(t, j), j))
    decreases |t| - j, 2
  {
    ghost var r0 := ctx.ranges;
    ghost var done: seq<Node> := [];
    var it := j;
    while t[it].kind != End
      invariant j <= it < |t| && Body(t, it) == Body(t, j)
      invariant KidsAt(t, j) == done + KidsAt(t, it) && it == j + |FlattenAll(done)|
      invariant ctx.ranges == Record(r0, SpansAll(done, j))
      decreases |t| - it
    {
      ghost var node;
      it, node := RangesItem(ctx, t, j, it, r0, done);
      done := done + [node];
    }
    KidsEnd(t, it);
    assert done + [] == done;
    return it + 1;
  }

  /** One turn of the loop in `RangesBlock`: visit the next kid. */
  method RangesItem(ctx: Context, t: seq<Symbol>, j: nat, it: nat,
                    ghost r0: map<string, (nat, nat)>, ghost done: seq<Node>)
    returns (next: nat, ghost node: Node)
    requires Body(t, j).Some? && j <= it < |t| && Body(t, it) == Body(t, j) && t[it].kind != End
    requires KidsAt(t, j) == done + KidsAt(t, it) && it == j + |FlattenAll(done)|
    requires ctx.ranges == Record(r0, SpansAll(done, j))
    modifies ctx`ranges
    ensures it < next < |t| && Body(t, next) == Body(t, j)
    ensures KidsAt(t, j) == (done + [node]) + KidsAt(t, next) && next == j + |FlattenAll(done + [node])|
    ensures ctx.ranges == Record(r0, SpansAll(done + [node], j))
    decreases |t| - it, 1
  {
    KidsUnfold(t, it);
    node := TreeAt(t, it);
    ghost var before := ctx.ranges;
    next := RangesVisit(ctx, t, it);
    VisitStep(r0, before, ctx.ranges, done, node, j, it);
    KidsStep(KidsAt(t, j), done, node, KidsAt(t, next));
  }

  lemma VisitStep(r0: map<string, (nat, nat)>, before: map<string, (nat, nat)>,
                  after: map<string, (nat, nat)>, done: seq<Node>, node: Node, j: nat, at: nat)
    requires before == Record(r0, SpansAll(done, j)) && at == j + |FlattenAll(done)|
    requires after == Record(before, Spans(node, at))
    ensures after == Record(r0, SpansAll(done + [node], j))
    ensures |FlattenAll(done + [node])| == |FlattenAll(done)| + |Flatten(node)|
  {
    SpansAllAppend(done, [node], j);
    assert SpansAll([node], j + |FlattenAll(done)|) == Spans(node, j + |FlattenAll(done)|) by {
      assert [node][1..] == [];
    }
    RecordAppend(r0, SpansAll(done, j), Spans(node, j + |FlattenAll(done)|));
    FlattenAllSnoc(done, node);
  }

  /** ranges: the whole tape. */
  method Run(ctx: Context, t: seq<Symbol>) returns (next: nat)
    requires t == [] || Balanced(t)
    modifies ctx`ranges
    ensures t == [] ==> next == 0 && ctx.ranges == old(ctx.ranges)
    ensures t != [] ==> next == |t| && ctx.ranges == Record(old(ctx.ranges), Spans(TreeAt(t, 0), 0))
  {
    if t == [] {
      return 0;
    }
    next := RangesVisit(ctx, t, 0);
  }
}
