/** The reorder pass (cdeck/passes/reorder.hpp), meant to place every
    function's definition before the functions that reference it.  The walk
    is modelled as written: a function is copied to the new tape after its
    body has been walked, and an ADDR of a function not yet seen walks on
    from that function's opener.  `seen` and the new tape are the state the
    walk threads through; iterators become indices. */
module Reorder {
  import opened Symbols
  import opened Tape

  type Ranges = map<string, (nat, nat)>

  /** The state a walk leaves: where it stopped, the names seen, the new tape. */
  datatype Walk = Walk(next: nat, seen: set<string>, out: seq<Symbol>)

  /** What the walk needs of `ctx.ranges`: each entry starts at the opener of
      a function of that name and ends no further than the tape. */
  predicate Fits(t: seq<Symbol>, ranges: Ranges)
  {
    forall x :: x in ranges ==> ranges[x].0 < |t| && ranges[x].0 <= ranges[x].1 <= |t|
                                && t[ranges[x].0] == Symbol(Fn, x)
  }

  /** The names of the functions defined on the tape. */
  function FnNames(t: seq<Symbol>): set<string>
  {
    set k | 0 <= k < |t| && t[k].kind == Fn :: t[k].text
  }

  /** How many of them the walk has not seen yet: each step into an unseen
      function lowers it, which is why the walk ends. */
  function Unseen(t: seq<Symbol>, seen: set<string>): nat
  {
    |FnNames(t) - seen|
  }

  /** 0 at the opener of a function not seen yet, 1 anywhere else. */
  function Pending(t: seq<Symbol>, i: nat, seen: set<string>): nat
  {
    if i < |t| && t[i].kind == Fn && t[i].text !in seen then 0 else 1
  }

  lemma UnseenMono(t: seq<Symbol>, seen: set<string>, seen': set<string>, k: nat)
    requires seen <= seen'
    ensures Unseen(t, seen') <= Unseen(t, seen)
    ensures k < |t| && t[k].kind == Fn && t[k].text !in seen && t[k].text in seen'
            ==> Unseen(t, seen') < Unseen(t, seen)
  {
    var a, b := FnNames(t) - seen', FnNames(t) - seen;
    assert b == a + (b - a);
    if k < |t| && t[k].kind == Fn && t[k].text !in seen && t[k].text in seen' {
      assert t[k].text in b - a;
    }
  }

  /** reorder_visit as written, on the symbol at `i`.  The walk stops where
      the tape ends, which the source would read past. */
  function VisitW(t: seq<Symbol>, ranges: Ranges, i: nat, seen: set<string>, out: seq<Symbol>): (w: Walk)
    requires Fits(t, ranges) && i < |t|
    ensures seen <= w.seen && i < w.next <= |t|
    ensures t[i].kind == Fn && t[i].text !in seen ==> t[i].text in w.seen
    decreases Unseen(t, seen), Pending(t, i, seen), |t| - i, 0
  {
    var current := t[i];
    if current.kind == Addr then
      if current.text in seen || current.text !in ranges then Walk(i + 1, seen, out)
      else
        // walks on from the referenced function's opener, then returns here
        var w := BlockW(t, ranges, ranges[current.text].0, seen, out);
        Walk(i + 1, w.seen, w.out)
    else if current.kind == Fn then
      if current.text in seen then Walk(i + 1, seen, out)
      else
        UnseenMono(t, seen, seen + {current.text}, i);
        var w := BlockW(t, ranges, i + 1, seen + {current.text}, out);
        var (b, e) := if current.text in ranges then ranges[current.text] else (0, 0);
        Walk(w.next, w.seen, w.out + t[b..e])
    else if IsOpener(current.kind) then
      // PROGRAM, MARK, QUOTE and LET
      BlockW(t, ranges, i + 1, seen, out)
    else Walk(i + 1, seen, out)
  }

  /** visit_block as written: visit until an END, then step past it. */
  function BlockW(t: seq<Symbol>, ranges: Ranges, j: nat, seen: set<string>, out: seq<Symbol>): (w: Walk)
    requires Fits(t, ranges) && j <= |t|
    ensures seen <= w.seen && j <= w.next <= |t|
    decreases Unseen(t, seen), Pending(t, j, seen), |t| - j, 1
  {
    if j == |t| then Walk(j, seen, out)
    else if t[j].kind == End then Walk(j + 1, seen, out)
    else
      var w := VisitW(t, ranges, j, seen, out);
      UnseenMono(t, seen, w.seen, j);
      BlockW(t, ranges, w.next, w.seen, w.out)
  }

  /** reorder_visit as written. */
  method Visit(t: seq<Symbol>, ranges: Ranges, i: nat, seen: set<string>, out: seq<Symbol>)
    returns (next: nat, seen': set<string>, out': seq<Symbol>)
    requires Fits(t, ranges) && i < |t|
    ensures Walk(next, seen', out') == VisitW(t, ranges, i, seen, out)
    decreases Unseen(t, seen), Pending(t, i, seen), |t| - i, 0
  {
    var current := t[i];
    next, seen', out' := i + 1, seen, out;
    if current.kind == Addr {
      if current.text in seen {
        return;
      }
      if current.text in ranges {
        var (begin, end) := ranges[current.text];
        var _, s, o := Block(t, ranges, begin, seen, out);
        seen', out' := s, o;
      }
    } else if current.kind == Fn {
      if current.text in seen {
        return;
      }
      UnseenMono(t, seen, seen + {current.text}, i);
      next, seen', out' := Block(t, ranges, i + 1, seen + {current.text}, out);
      if current.text in ranges {
        var (begin, end) := ranges[current.text];
        out' := out' + t[begin..end];
      } else {
        assert t[0..0] == [];
        out' := out' + t[0..0];
      }
    } else if IsOpener(current.kind) {
      next, seen', out' := Block(t, ranges, i + 1, seen, out);
    }
  }

  /** visit_block as written, for this pass. */
  method Block(t: seq<Symbol>, ranges: Ranges, j: nat, seen: set<string>, out: seq<Symbol>)
    returns (next: nat, seen': set<string>, out': seq<Symbol>)
    requires Fits(t, ranges) && j <= |t|
    ensures Walk(next, seen', out') == BlockW(t, ranges, j, seen, out)
    decreases Unseen(t, seen), Pending(t, j, seen), |t| - j, 1
  {
    next, seen', out' := j, seen, out;
    while next < |t| && t[next].kind != End
      invariant j <= next <= |t| && seen <= seen'
      invariant BlockW(t, ranges, next, seen', out') == BlockW(t, ranges, j, seen, out)
      invariant next > j ==> Unseen(t, seen') < Unseen(t, seen) || Pending(t, j, seen) == 1
      decreases |t| - next
    {
      ghost var before := seen';
      UnseenMono(t, seen, seen', j);
      next, seen', out' := Visit(t, ranges, next, seen', out');
      UnseenMono(t, before, seen', j);
    }
    if next < |t| {
      next := next + 1;
    }
  }

  /** The spans of the named functions, one after another. */
  function Chunks(t: seq<Symbol>, ranges: Ranges, names: seq<string>): seq<Symbol>
    requires Fits(t, ranges) && forall k :: 0 <= k < |names| ==> names[k] in ranges
  {
    if names == [] then []
    else t[ranges[names[0]].0..ranges[names[0]].1] + Chunks(t, ranges, names[1..])
  }

  lemma {:induction false} ChunksAppend(t: seq<Symbol>, ranges: Ranges, a: seq<string>, b: seq<string>)
    requires Fits(t, ranges)
    requires forall k :: 0 <= k < |a| ==> a[k] in ranges
    requires forall k :: 0 <= k < |b| ==> b[k] in ranges
    ensures forall k :: 0 <= k < |a + b| ==> (a + b)[k] in ranges
    ensures Chunks(t, ranges, a + b) == Chunks(t, ranges, a) + Chunks(t, ranges, b)
    decreases |a|
  {
    if a == [] {
      assert a + b == b;
    } else {
      assert (a + b)[0] == a[0];
      assert (a + b)[1..] == a[1..] + b;
      ChunksAppend(t, ranges, a[1..], b);
    }
  }

  /** `names` are the functions a walk from `seen` to `seen'` copied: each
      one has a span, was not seen before and is seen after, none comes
      twice, and every newly seen name with a span is among them. */
  predicate Copied(ranges: Ranges, names: seq<string>, seen: set<string>, seen': set<string>)
  {
    (forall k :: 0 <= k < |names| ==> names[k] in ranges && names[k] !in seen && names[k] in seen')
    && (forall k, m :: 0 <= k < m < |names| ==> names[k] != names[m])
    && (forall x :: x in seen' && x !in seen && x in ranges ==> x in names)
  }

  lemma CopiedTrans(ranges: Ranges, a: seq<string>, b: seq<string>, s0: set<string>, s1: set<string>, s2: set<string>)
    requires s0 <= s1 <= s2 && Copied(ranges, a, s0, s1) && Copied(ranges, b, s1, s2)
    ensures Copied(ranges, a + b, s0, s2)
  {
    forall k, m | 0 <= k < m < |a + b| ensures (a + b)[k] != (a + b)[m] {
      if m >= |a| && k < |a| {
        assert (a + b)[m] == b[m - |a|];
        assert (a + b)[k] == a[k];
      }
    }
  }

  /** Entering a function: its name is newly seen, and copied if it has a span. */
  lemma CopiedFn(ranges: Ranges, names: seq<string>, seen: set<string>, x: string, seen': set<string>)
    requires x !in seen && x in seen' && seen + {x} <= seen' && Copied(ranges, names, seen + {x}, seen')
    ensures x in ranges ==> Copied(ranges, names + [x], seen, seen')
    ensures x !in ranges ==> Copied(ranges, names, seen, seen')
  {
    if x in ranges {
      var names' := names + [x];
      forall k | 0 <= k < |names'| ensures names'[k] in ranges && names'[k] !in seen && names'[k] in seen' {
        if k < |names| {
          assert names'[k] == names[k];
        }
      }
      forall k, m | 0 <= k < m < |names'| ensures names'[k] != names'[m] {
        assert names'[k] == names[k];
        if m < |names| {
          assert names'[m] == names[m];
        }
      }
    }
  }

  lemma ChunkSnoc(t: seq<Symbol>, ranges: Ranges, out: seq<Symbol>, names: seq<string>, x: string)
    requires Fits(t, ranges) && x in ranges && forall k :: 0 <= k < |names| ==> names[k] in ranges
    ensures forall k :: 0 <= k < |names + [x]| ==> (names + [x])[k] in ranges
    ensures out + Chunks(t, ranges, names) + t[ranges[x].0..ranges[x].1] == out + Chunks(t, ranges, names + [x])
  {
    ChunksAppend(t, ranges, names, [x]);
    assert Chunks(t, ranges, [x]) == t[ranges[x].0..ranges[x].1] + [] by {
      assert [x][1..] == [];
    }
  }

  lemma ChunkJoin(t: seq<Symbol>, ranges: Ranges, out: seq<Symbol>, a: seq<string>, b: seq<string>)
    requires Fits(t, ranges)
    requires forall k :: 0 <= k < |a| ==> a[k] in ranges
    requires forall k :: 0 <= k < |b| ==> b[k] in ranges
    ensures forall k :: 0 <= k < |a + b| ==> (a + b)[k] in ranges
    ensures out + Chunks(t, ranges, a) + Chunks(t, ranges, b) == out + Chunks(t, ranges, a + b)
  {
    ChunksAppend(t, ranges, a, b);
  }

  /** The walk as written only ever appends whole function spans, each
      function's at most once and only when the walk first sees it. */
  lemma {:induction false} VisitCopies(t: seq<Symbol>, ranges: Ranges, i: nat, seen: set<string>, out: seq<Symbol>)
    requires Fits(t, ranges) && i < |t|
    ensures exists names :: Copied(ranges, names, seen, VisitW(t, ranges, i, seen, out).seen)
                            && VisitW(t, ranges, i, seen, out).out == out + Chunks(t, ranges, names)
    decreases Unseen(t, seen), Pending(t, i, seen), |t| - i, 0
  {
    var w := VisitW(t, ranges, i, seen, out);
    var current := t[i];
    if current.kind == Addr && current.text !in seen && current.text in ranges {
      BlockCopies(t, ranges, ranges[current.text].0, seen, out);
    } else if current.kind == Fn && current.text !in seen {
      UnseenMono(t, seen, seen + {current.text}, i);
      var s1 := seen + {current.text};
      BlockCopies(t, ranges, i + 1, s1, out);
      var v := BlockW(t, ranges, i + 1, s1, out);
      var names :| Copied(ranges, names, s1, v.seen) && v.out == out + Chunks(t, ranges, names);
      CopiedFn(ranges, names, seen, current.text, v.seen);
      if current.text in ranges {
        ChunkSnoc(t, ranges, out, names, current.text);
        assert w.out == out + Chunks(t, ranges, names + [current.text]);
      } else {
        assert w.out == out + Chunks(t, ranges, names) by {
          assert t[0..0] == [];
        }
      }
    } else if current.kind != Addr && current.kind != Fn && IsOpener(current.kind) {
      BlockCopies(t, ranges, i + 1, seen, out);
    } else {
      assert Copied(ranges, [], seen, w.seen);
      assert w.out == out + Chunks(t, ranges, []);
    }
  }

  lemma {:induction false} BlockCopies(t: seq<Symbol>, ranges: Ranges, j: nat, seen: set<string>, out: seq<Symbol>)
    requires Fits(t, ranges) && j <= |t|
    ensures exists names :: Copied(ranges, names, seen, BlockW(t, ranges, j, seen, out).seen)
                            && BlockW(t, ranges, j, seen, out).out == out + Chunks(t, ranges, names)
    decreases Unseen(t, seen), Pending(t, j, seen), |t| - j, 1
  {
    var w := BlockW(t, ranges, j, seen, out);
    if j == |t| || t[j].kind == End {
      assert Copied(ranges, [], seen, w.seen);
      assert w.out == out + Chunks(t, ranges, []);
    } else {
      var v := VisitW(t, ranges, j, seen, out);
      UnseenMono(t, seen, v.seen, j);
      VisitCopies(t, ranges, j, seen, out);
      BlockCopies(t, ranges, v.next, v.seen, v.out);
      var a :| Copied(ranges, a, seen, v.seen) && v.out == out + Chunks(t, ranges, a);
      var b :| Copied(ranges, b, v.seen, w.seen) && w.out == v.out + Chunks(t, ranges, b);
      CopiedTrans(ranges, a, b, seen, v.seen, w.seen);
      ChunkJoin(t, ranges, out, a, b);
    }
  }

  /** reorder: PROGRAM's opener, what the walk copies, then the tape's last
      symbol; the result replaces the tape. */
  method Run(ctx: Context, t: seq<Symbol>) returns (next: nat, t': seq<Symbol>)
    requires |t| > 0 && Fits(t, ctx.ranges)
    ensures next == VisitW(t, ctx.ranges, 0, {}, [t[0]]).next
    ensures t' == VisitW(t, ctx.ranges, 0, {}, [t[0]]).out + [t[|t| - 1]]
    ensures exists names :: Copied(ctx.ranges, names, {}, VisitW(t, ctx.ranges, 0, {}, [t[0]]).seen)
                            && t' == [t[0]] + Chunks(t, ctx.ranges, names) + [t[|t| - 1]]
  {
    var seen, out;
    next, seen, out := Visit(t, ctx.ranges, 0, {}, [t[0]]);
    t' := out + [t[|t| - 1]];
    VisitCopies(t, ctx.ranges, 0, {}, [t[0]]);
  }

  /** `f` references `g`, `h` references `f`, and nothing references `h`. */
  const Example: seq<Symbol> := [
    Symbol(Program, ""),
    Symbol(Fn, "f"), Symbol(Addr, "g"), Symbol(End, "f"),
    Symbol(Fn, "g"), Symbol(End, "g"),
    Symbol(Fn, "h"), Symbol(Addr, "f"), Symbol(End, "h"),
    Symbol(End, "")]

  /** What the ranges pass records for it. */
  const ExampleRanges: Ranges := map["f" := (1, 4), "g" := (4, 6), "h" := (6, 9)]

  lemma ExampleFits()
    ensures Fits(Example, ExampleRanges)
  {
    forall x | x in ExampleRanges
      ensures ExampleRanges[x].0 < |Example| && ExampleRanges[x].0 <= ExampleRanges[x].1 <= |Example|
              && Example[ExampleRanges[x].0] == Symbol(Fn, x)
    {
      assert x == "f" || x == "g" || x == "h";
    }
  }

  /** Inside `f`, the reference to `g` walks from `g`'s opener through `g`
      and then on through `h`, to the end of the program. */
  lemma ExampleInner(p: seq<Symbol>)
    ensures Fits(Example, ExampleRanges)
    ensures BlockW(Example, ExampleRanges, 4, {"f"}, p)
            == Walk(10, {"f", "g", "h"}, p + Example[4..6] + Example[6..9])
  {
    ExampleFits();
    var t, r := Example, ExampleRanges;
    assert BlockW(t, r, 5, {"f", "g"}, p) == Walk(6, {"f", "g"}, p);
    assert VisitW(t, r, 4, {"f"}, p) == Walk(6, {"f", "g"}, p + t[4..6]);
    var p1 := p + t[4..6];
    assert VisitW(t, r, 7, {"f", "g", "h"}, p1) == Walk(8, {"f", "g", "h"}, p1);
    assert BlockW(t, r, 7, {"f", "g", "h"}, p1) == Walk(9, {"f", "g", "h"}, p1);
    assert VisitW(t, r, 6, {"f", "g"}, p1) == Walk(9, {"f", "g", "h"}, p1 + t[6..9]);
    assert BlockW(t, r, 6, {"f", "g"}, p1) == Walk(10, {"f", "g", "h"}, p1 + t[6..9]);
  }

  /** As written, the pass puts `h` before `f` although `h` references `f`
      and there is no cycle: after `g` is copied from inside `f`, the walk
      that started at `g`'s opener goes on into `h`. */
  lemma AsWrittenOrder()
    ensures Fits(Example, ExampleRanges)
    ensures VisitW(Example, ExampleRanges, 0, {}, [Example[0]]).out
            == [Example[0]] + Example[4..6] + Example[6..9] + Example[1..4]
    ensures VisitW(Example, ExampleRanges, 0, {}, [Example[0]]).out + [Example[9]]
            == [Symbol(Program, ""),
                Symbol(Fn, "g"), Symbol(End, "g"),
                Symbol(Fn, "h"), Symbol(Addr, "f"), Symbol(End, "h"),
                Symbol(Fn, "f"), Symbol(Addr, "g"), Symbol(End, "f"),
                Symbol(End, "")]
  {
    ExampleFits();
    var t, r := Example, ExampleRanges;
    var p := [t[0]];
    var none: set<string> := {};
    ExampleInner(p);
    var p2 := p + t[4..6] + t[6..9];
    assert VisitW(t, r, 2, {"f"}, p) == Walk(3, {"f", "g", "h"}, p2);
    assert BlockW(t, r, 2, {"f"}, p) == Walk(4, {"f", "g", "h"}, p2);
    var p3 := p2 + t[1..4];
    assert none + {"f"} == {"f"};
    assert VisitW(t, r, 1, none, p) == Walk(4, {"f", "g", "h"}, p3);
    assert BlockW(t, r, 4, {"f", "g", "h"}, p3) == Walk(6, {"f", "g", "h"}, p3);
    assert VisitW(t, r, 0, none, p) == Walk(6, {"f", "g", "h"}, p3);
  }
}
