/** The reorder pass as evidently intended: a depth-first walk that copies
    each function after the functions it references.  It differs from the
    walk as written in two places: an ADDR of a function not seen yet visits
    that one function (not everything from its opener to the end of the
    program), and a function already seen is skipped whole (not entered). */
module ReorderDfs {
  import opened Symbols
  import opened Tape
  import opened Reorder

  /** What the intended walk needs of `ctx.ranges`, as the ranges pass
      leaves it for a program without name clashes: every entry is the
      whole item of a function of that name, every function has its own
      entry, and no function is defined inside another. */
  predicate Sound(t: seq<Symbol>, ranges: Ranges)
  {
    (forall x :: x in ranges ==> ranges[x].0 < |t| && t[ranges[x].0] == Symbol(Fn, x)
                                 && Item(t, ranges[x].0) == Some(ranges[x].1))
    && (forall p :: 0 <= p < |t| && t[p].kind == Fn ==> t[p].text in ranges && ranges[t[p].text].0 == p)
    && (forall x, p :: x in ranges && ranges[x].0 < p < ranges[x].1 && p < |t| ==> t[p].kind != Fn)
  }

  lemma SoundFits(t: seq<Symbol>, ranges: Ranges)
    requires Sound(t, ranges)
    ensures Fits(t, ranges)
  {
  }

  /** The state of the walk: where it stopped, the names seen, the new tape,
      and the names in the order their functions were copied. */
  datatype Dfs = Dfs(next: nat, seen: set<string>, out: seq<Symbol>, done: seq<string>)

  /** The intended reorder_visit on the item at `i`. */
  function DfsVisit(t: seq<Symbol>, ranges: Ranges, i: nat, seen: set<string>, out: seq<Symbol>, done: seq<string>): (w: Dfs)
    requires Sound(t, ranges) && Item(t, i).Some?
    ensures w.next == Item(t, i).value && seen <= w.seen
    ensures t[i].kind == Fn && t[i].text !in seen ==> t[i].text in w.seen
    decreases Unseen(t, seen), Pending(t, i, seen), |t| - i, 0
  {
    var current := t[i];
    if current.kind == Addr then
      if current.text in seen || current.text !in ranges then Dfs(i + 1, seen, out, done)
      else
        // the referenced function alone
        var w := DfsVisit(t, ranges, ranges[current.text].0, seen, out, done);
        Dfs(i + 1, w.seen, w.out, w.done)
    else if current.kind == Fn then
      if current.text in seen then Dfs(Item(t, i).value, seen, out, done)
      else
        UnseenMono(t, seen, seen + {current.text}, i);
        var w := DfsBlock(t, ranges, i + 1, seen + {current.text}, out, done);
        Dfs(w.next, w.seen, w.out + t[i..w.next], w.done + [current.text])
    else if IsOpener(current.kind) then
      DfsBlock(t, ranges, i + 1, seen, out, done)
    else Dfs(i + 1, seen, out, done)
  }

  /** visit_block for the intended walk. */
  function DfsBlock(t: seq<Symbol>, ranges: Ranges, j: nat, seen: set<string>, out: seq<Symbol>, done: seq<string>): (w: Dfs)
    requires Sound(t, ranges) && Body(t, j).Some?
    ensures w.next == Body(t, j).value && seen <= w.seen
    decreases Unseen(t, seen), Pending(t, j, seen), |t| - j, 1
  {
    if t[j].kind == End then Dfs(j + 1, seen, out, done)
    else
      var w := DfsVisit(t, ranges, j, seen, out, done);
      UnseenMono(t, seen, w.seen, j);
      DfsBlock(t, ranges, w.next, w.seen, w.out, w.done)
  }

  /** `x` references `y`: an ADDR of `y` lies inside `x`'s span. */
  ghost predicate Calls(t: seq<Symbol>, ranges: Ranges, x: string, y: string)
  {
    x in ranges && y in ranges
    && exists p :: ranges[x].0 < p < ranges[x].1 && p < |t| && t[p] == Symbol(Addr, y)
  }

  /** Each name references the next. */
  ghost predicate Chain(t: seq<Symbol>, ranges: Ranges, c: seq<string>)
  {
    forall k :: 0 < k < |c| ==> Calls(t, ranges, c[k - 1], c[k])
  }

  /** A chain of references leads from `y` to `x` (or `y` is `x`). */
  ghost predicate Reaches(t: seq<Symbol>, ranges: Ranges, y: string, x: string)
  {
    exists c :: Chain(t, ranges, c) && |c| > 0 && c[0] == y && c[|c| - 1] == x
  }

  /** Definitions before references: every function a copied function
      references was copied before it, unless the two lie on a cycle of
      references. */
  ghost predicate Topo(t: seq<Symbol>, ranges: Ranges, done: seq<string>)
  {
    forall k, y :: 0 <= k < |done| && Calls(t, ranges, done[k], y) ==> y in done[..k] || Reaches(t, ranges, y, done[k])
  }

  /** What holds between steps of the walk, with `stack` the functions
      whose copy is still pending, innermost last. */
  ghost predicate Inv(t: seq<Symbol>, ranges: Ranges, seen: set<string>, done: seq<string>, stack: seq<string>)
  {
    (forall x :: x in seen ==> x in done || x in stack)
    && (forall k :: 0 <= k < |done| ==> done[k] in seen && done[k] in ranges)
    && (forall k :: 0 <= k < |stack| ==> stack[k] in seen && stack[k] !in done && stack[k] in ranges)
    && (forall k, m :: 0 <= k < m < |done| ==> done[k] != done[m])
    && Chain(t, ranges, stack) && Topo(t, ranges, done)
  }

  /** How the walk reaches the item at `i`: from the top, inside the span of
      the innermost pending function, or by a reference from it to a
      function not seen yet. */
  ghost predicate Entry(t: seq<Symbol>, ranges: Ranges, i: nat, seen: set<string>, stack: seq<string>)
    requires Item(t, i).Some?
  {
    stack == []
    || (stack[|stack| - 1] in ranges && ranges[stack[|stack| - 1]].0 < i
        && Item(t, i).value <= ranges[stack[|stack| - 1]].1)
    || (t[i].kind == Fn && t[i].text !in seen && Calls(t, ranges, stack[|stack| - 1], t[i].text))
  }

  /** A body walked from the top or inside the innermost pending function. */
  ghost predicate BlockEntry(t: seq<Symbol>, ranges: Ranges, j: nat, stack: seq<string>)
    requires Body(t, j).Some?
  {
    stack == []
    || (stack[|stack| - 1] in ranges && ranges[stack[|stack| - 1]].0 < j
        && Body(t, j).value <= ranges[stack[|stack| - 1]].1)
  }

  /** Every function defined in [a, e) has been seen.  Under `Inv` a name
      seen is copied or pending. */
  ghost predicate CoveredFns(t: seq<Symbol>, a: nat, e: nat, seen: set<string>)
  {
    forall p :: a <= p < e && p < |t| && t[p].kind == Fn ==> t[p].text in seen
  }

  /** Every function with a span referenced in [a, e) has been seen. */
  ghost predicate CoveredAddrs(t: seq<Symbol>, ranges: Ranges, a: nat, e: nat, seen: set<string>)
  {
    forall p :: a <= p < e && p < |t| && t[p].kind == Addr && t[p].text in ranges ==> t[p].text in seen
  }

  /** The walk only appends whole function spans, in the order of `done`. */
  ghost predicate Grew(t: seq<Symbol>, ranges: Ranges, out: seq<Symbol>, done: seq<string>, w: Dfs)
  {
    Fits(t, ranges) && done <= w.done
    && (forall k :: 0 <= k < |w.done| ==> w.done[k] in ranges)
    && w.out == out + Chunks(t, ranges, w.done[|done|..])
  }

  /** The span a name's chain ends in: any suffix of a chain is a chain. */
  lemma ChainSuffix(t: seq<Symbol>, ranges: Ranges, c: seq<string>, k: nat)
    requires Chain(t, ranges, c) && k < |c|
    ensures Reaches(t, ranges, c[k], c[|c| - 1])
  {
    var d := c[k..];
    forall m | 0 < m < |d| ensures Calls(t, ranges, d[m - 1], d[m]) {
      assert d[m - 1] == c[k + m - 1] && d[m] == c[k + m];
    }
  }

  /** Inside the span of a function no function is defined, so an item the
      walk reaches there is never an FN. */
  lemma InsideNoFn(t: seq<Symbol>, ranges: Ranges, i: nat, seen: set<string>, stack: seq<string>)
    requires Sound(t, ranges) && Item(t, i).Some? && Entry(t, ranges, i, seen, stack)
    requires t[i].kind == Fn
    ensures stack == [] || (t[i].text !in seen && Calls(t, ranges, stack[|stack| - 1], t[i].text))
  {
  }

  /** Entering a function not seen yet: it becomes the innermost pending
      one, and its body lies inside its own span. */
  lemma FnEnter(t: seq<Symbol>, ranges: Ranges, i: nat, seen: set<string>, done: seq<string>, stack: seq<string>)
    requires Sound(t, ranges) && Item(t, i).Some? && t[i].kind == Fn && t[i].text !in seen
    requires Inv(t, ranges, seen, done, stack) && Entry(t, ranges, i, seen, stack)
    ensures t[i].text in ranges && ranges[t[i].text] == (i, Item(t, i).value)
    ensures Body(t, i + 1) == Item(t, i)
    ensures Inv(t, ranges, seen + {t[i].text}, done, stack + [t[i].text])
    ensures BlockEntry(t, ranges, i + 1, stack + [t[i].text])
  {
    var x := t[i].text;
    InsideNoFn(t, ranges, i, seen, stack);
    ChainSnoc(t, ranges, stack, x);
    InvPush(t, ranges, seen, done, stack, x);
  }

  /** A chain extended by a function its last one references. */
  lemma ChainSnoc(t: seq<Symbol>, ranges: Ranges, stack: seq<string>, x: string)
    requires Chain(t, ranges, stack)
    requires stack != [] ==> Calls(t, ranges, stack[|stack| - 1], x)
    ensures Chain(t, ranges, stack + [x])
  {
    var s' := stack + [x];
    forall k | 0 < k < |s'| ensures Calls(t, ranges, s'[k - 1], s'[k]) {
      if k < |stack| {
        assert s'[k - 1] == stack[k - 1] && s'[k] == stack[k];
      }
    }
  }

  /** A function not seen yet becomes the innermost pending one. */
  lemma InvPush(t: seq<Symbol>, ranges: Ranges, seen: set<string>, done: seq<string>, stack: seq<string>, x: string)
    requires Inv(t, ranges, seen, done, stack) && x !in seen && x in ranges
    requires Chain(t, ranges, stack + [x])
    ensures Inv(t, ranges, seen + {x}, done, stack + [x])
  {
    var s' := stack + [x];
    assert x !in done;
    forall k | 0 <= k < |s'| ensures s'[k] in seen + {x} && s'[k] !in done && s'[k] in ranges {
      if k < |stack| {
        assert s'[k] == stack[k];
      }
    }
  }

  /** Leaving a function: it joins the copied ones and leaves the pending
      ones, and the invariant still holds. */
  lemma FnLeaveInv(t: seq<Symbol>, ranges: Ranges, i: nat, seen: set<string>,
                   stack: seq<string>, vseen: set<string>, vdone: seq<string>)
    requires Sound(t, ranges) && Item(t, i).Some? && t[i].kind == Fn && t[i].text !in seen
    requires t[i].text in ranges && ranges[t[i].text] == (i, Item(t, i).value)
    requires forall k :: 0 <= k < |stack| ==> stack[k] in seen
    requires seen + {t[i].text} <= vseen
    requires Inv(t, ranges, vseen, vdone, stack + [t[i].text])
    requires CoveredAddrs(t, ranges, i + 1, Item(t, i).value, vseen)
    ensures Inv(t, ranges, vseen, vdone + [t[i].text], stack)
  {
    var x := t[i].text;
    var s' := stack + [x];
    var d' := vdone + [x];
    assert s'[|s'| - 1] == x;
    assert x !in vdone;
    LeaveDone(ranges, vseen, vdone, x);
    forall z | z in vseen ensures z in d' || z in stack {
      if z !in vdone && z != x {
        var k :| 0 <= k < |s'| && s'[k] == z;
        assert k < |stack| && stack[k] == z;
      }
    }
    forall k | 0 <= k < |stack| ensures stack[k] in vseen && stack[k] !in d' && stack[k] in ranges {
      assert s'[k] == stack[k];
    }
    ChainPrefix(t, ranges, stack, x);
    TopoSnoc(t, ranges, i, vseen, vdone, s');
  }

  /** The copied names stay distinct, seen and spanned. */
  lemma LeaveDone(ranges: Ranges, vseen: set<string>, vdone: seq<string>, x: string)
    requires x in vseen && x in ranges && x !in vdone
    requires forall k :: 0 <= k < |vdone| ==> vdone[k] in vseen && vdone[k] in ranges
    requires forall k, m :: 0 <= k < m < |vdone| ==> vdone[k] != vdone[m]
    ensures forall k :: 0 <= k < |vdone + [x]| ==> (vdone + [x])[k] in vseen && (vdone + [x])[k] in ranges
    ensures forall k, m :: 0 <= k < m < |vdone + [x]| ==> (vdone + [x])[k] != (vdone + [x])[m]
  {
    var d' := vdone + [x];
    forall k | 0 <= k < |d'| ensures d'[k] in vseen && d'[k] in ranges {
      if k < |vdone| {
        assert d'[k] == vdone[k];
      }
    }
    forall k, m | 0 <= k < m < |d'| ensures d'[k] != d'[m] {
      assert d'[k] == vdone[k];
      if m < |vdone| {
        assert d'[m] == vdone[m];
      }
    }
  }

  lemma ChainPrefix(t: seq<Symbol>, ranges: Ranges, stack: seq<string>, x: string)
    requires Chain(t, ranges, stack + [x])
    ensures Chain(t, ranges, stack)
  {
    var s' := stack + [x];
    forall k | 0 < k < |stack| ensures Calls(t, ranges, stack[k - 1], stack[k]) {
      assert s'[k - 1] == stack[k - 1] && s'[k] == stack[k];
    }
  }

  /** Leaving a function: its span is appended to the new tape. */
  lemma FnLeaveGrew(t: seq<Symbol>, ranges: Ranges, i: nat, out: seq<Symbol>, done: seq<string>, v: Dfs)
    requires Sound(t, ranges) && Item(t, i).Some? && t[i].kind == Fn
    requires t[i].text in ranges && ranges[t[i].text] == (i, Item(t, i).value)
    requires v.next == Item(t, i).value && Grew(t, ranges, out, done, v)
    ensures Grew(t, ranges, out, done, Dfs(v.next, v.seen, v.out + t[i..v.next], v.done + [t[i].text]))
  {
    var x := t[i].text;
    var d' := v.done + [x];
    SliceSnoc(done, v.done, x);
    ChunkSnoc(t, ranges, out, v.done[|done|..], x);
    assert forall k :: 0 <= k < |d'| ==> d'[k] in ranges;
  }

  lemma SliceSnoc(a: seq<string>, b: seq<string>, x: string)
    requires a <= b
    ensures a <= b + [x] && (b + [x])[|a|..] == b[|a|..] + [x]
  {
  }

  lemma SliceJoin(a: seq<string>, b: seq<string>, c: seq<string>)
    requires a <= b && b <= c
    ensures a <= c && c[|a|..] == b[|a|..] + c[|b|..]
  {
  }

  /** Leaving a function: it, and everything it references, has been seen. */
  lemma FnLeaveCovered(t: seq<Symbol>, ranges: Ranges, i: nat, e: nat, vseen: set<string>)
    requires Sound(t, ranges) && i < e <= |t| && t[i].kind == Fn && t[i].text in vseen
    requires t[i].text in ranges && ranges[t[i].text] == (i, e)
    requires CoveredAddrs(t, ranges, i + 1, e, vseen)
    ensures CoveredFns(t, i, e, vseen) && CoveredAddrs(t, ranges, i, e, vseen)
  {
    var x := t[i].text;
    forall p | i < p < e && p < |t| ensures t[p].kind != Fn {
      assert ranges[x].0 < p < ranges[x].1;
    }
  }

  /** Appending a function whose references are all copied before it or
      pending on a chain that ends in it keeps the order topological. */
  lemma TopoSnoc(t: seq<Symbol>, ranges: Ranges, i: nat, seen: set<string>, done: seq<string>, s': seq<string>)
    requires Sound(t, ranges) && Item(t, i).Some? && t[i].kind == Fn && |s'| > 0 && s'[|s'| - 1] == t[i].text
    requires t[i].text in ranges && ranges[t[i].text] == (i, Item(t, i).value)
    requires Topo(t, ranges, done) && Chain(t, ranges, s')
    requires forall z :: z in seen ==> z in done || z in s'
    requires CoveredAddrs(t, ranges, i + 1, Item(t, i).value, seen)
    ensures Topo(t, ranges, done + [t[i].text])
  {
    var x := t[i].text;
    var d' := done + [x];
    forall k, y | 0 <= k < |d'| && Calls(t, ranges, d'[k], y) ensures y in d'[..k] || Reaches(t, ranges, y, d'[k]) {
      if k < |done| {
        assert d'[k] == done[k] && d'[..k] == done[..k];
      } else {
        assert d'[k] == x && d'[..k] == done;
        var p :| ranges[x].0 < p < ranges[x].1 && p < |t| && t[p] == Symbol(Addr, y);
        if y !in done {
          var m :| 0 <= m < |s'| && s'[m] == y;
          ChainSuffix(t, ranges, s', m);
        }
      }
    }
  }

  /** The walk from the item at `i` keeps the invariant, appends to the
      new tape exactly the functions it copies, in order, and leaves every
      function it defines, and every function it references when it is not
      at the top, copied or pending. */
  lemma {:induction false} VisitProps(t: seq<Symbol>, ranges: Ranges, i: nat, seen: set<string>,
                                      out: seq<Symbol>, done: seq<string>, stack: seq<string>)
    requires Sound(t, ranges) && Item(t, i).Some?
    requires Inv(t, ranges, seen, done, stack) && Entry(t, ranges, i, seen, stack)
    ensures VisitPost(t, ranges, i, seen, out, done, stack, DfsVisit(t, ranges, i, seen, out, done))
    decreases Unseen(t, seen), Pending(t, i, seen), |t| - i, 0
  {
    SoundFits(t, ranges);
    var current := t[i];
    if current.kind == Addr && current.text !in seen && current.text in ranges {
      var b := ranges[current.text].0;
      AddrEntry(t, ranges, i, seen, stack);
      VisitProps(t, ranges, b, seen, out, done, stack);
      AddrStep(t, ranges, i, seen, out, done, stack, DfsVisit(t, ranges, b, seen, out, done));
    } else if current.kind == Fn && current.text !in seen {
      var x := current.text;
      FnEnter(t, ranges, i, seen, done, stack);
      UnseenMono(t, seen, seen + {x}, i);
      BlockProps(t, ranges, i + 1, seen + {x}, out, done, stack + [x]);
      FnStep(t, ranges, i, seen, out, done, stack, DfsBlock(t, ranges, i + 1, seen + {x}, out, done));
    } else if current.kind != Addr && current.kind != Fn && IsOpener(current.kind) {
      BlockProps(t, ranges, i + 1, seen, out, done, stack);
      OpenerStep(t, ranges, i, seen, out, done, stack, DfsBlock(t, ranges, i + 1, seen, out, done));
    } else {
      if current.kind == Fn {
        InsideNoFn(t, ranges, i, seen, stack);
      }
      SkipStep(t, ranges, i, seen, out, done, stack);
    }
  }

  /** What the walk from the item at `i` promises. */
  ghost predicate VisitPost(t: seq<Symbol>, ranges: Ranges, i: nat, seen: set<string>, out: seq<Symbol>,
                            done: seq<string>, stack: seq<string>, w: Dfs)
    requires i < |t|
  {
    Inv(t, ranges, w.seen, w.done, stack) && Grew(t, ranges, out, done, w)
    && CoveredFns(t, i, w.next, w.seen)
    && ((stack != [] || (t[i].kind == Fn && t[i].text !in seen)) ==> CoveredAddrs(t, ranges, i, w.next, w.seen))
  }

  /** A function not seen yet: its body walked, it is copied. */
  lemma FnStep(t: seq<Symbol>, ranges: Ranges, i: nat, seen: set<string>, out: seq<Symbol>,
               done: seq<string>, stack: seq<string>, v: Dfs)
    requires Sound(t, ranges) && Item(t, i).Some? && t[i].kind == Fn && t[i].text !in seen
    requires t[i].text in ranges && ranges[t[i].text] == (i, Item(t, i).value)
    requires Inv(t, ranges, seen, done, stack) && Body(t, i + 1) == Item(t, i)
    requires v == DfsBlock(t, ranges, i + 1, seen + {t[i].text}, out, done)
    requires Inv(t, ranges, v.seen, v.done, stack + [t[i].text]) && Grew(t, ranges, out, done, v)
    requires CoveredAddrs(t, ranges, i + 1, v.next, v.seen)
    ensures VisitPost(t, ranges, i, seen, out, done, stack, DfsVisit(t, ranges, i, seen, out, done))
  {
    var x := t[i].text;
    FnLeaveInv(t, ranges, i, seen, stack, v.seen, v.done);
    FnLeaveGrew(t, ranges, i, out, done, v);
    FnLeaveCovered(t, ranges, i, v.next, v.seen);
    assert DfsVisit(t, ranges, i, seen, out, done) == Dfs(v.next, v.seen, v.out + t[i..v.next], v.done + [x]);
  }

  /** PROGRAM, MARK, QUOTE and LET: only their body is walked. */
  lemma OpenerStep(t: seq<Symbol>, ranges: Ranges, i: nat, seen: set<string>, out: seq<Symbol>,
                   done: seq<string>, stack: seq<string>, v: Dfs)
    requires Sound(t, ranges) && Item(t, i).Some? && t[i].kind != Addr && t[i].kind != Fn && IsOpener(t[i].kind)
    requires v == DfsBlock(t, ranges, i + 1, seen, out, done)
    requires Inv(t, ranges, v.seen, v.done, stack) && Grew(t, ranges, out, done, v)
    requires CoveredFns(t, i + 1, v.next, v.seen)
    requires stack != [] ==> CoveredAddrs(t, ranges, i + 1, v.next, v.seen)
    ensures VisitPost(t, ranges, i, seen, out, done, stack, DfsVisit(t, ranges, i, seen, out, done))
  {
    assert DfsVisit(t, ranges, i, seen, out, done) == v;
    OpenerJoin(t, ranges, i, v.next, v.seen);
  }

  /** The items the walk passes over without copying anything. */
  lemma SkipStep(t: seq<Symbol>, ranges: Ranges, i: nat, seen: set<string>, out: seq<Symbol>,
                 done: seq<string>, stack: seq<string>)
    requires Sound(t, ranges) && Item(t, i).Some? && Inv(t, ranges, seen, done, stack)
    requires !(t[i].kind == Addr && t[i].text !in seen && t[i].text in ranges)
    requires !(t[i].kind == Fn && t[i].text !in seen)
    requires t[i].kind == Fn ==> stack == []
    requires t[i].kind == Addr || t[i].kind == Fn || !IsOpener(t[i].kind)
    ensures VisitPost(t, ranges, i, seen, out, done, stack, DfsVisit(t, ranges, i, seen, out, done))
  {
    SoundFits(t, ranges);
    var w := DfsVisit(t, ranges, i, seen, out, done);
    if t[i].kind == Addr {
      SkipAddr(t, ranges, i, seen, out, done);
    } else if t[i].kind == Fn {
      SkipFn(t, ranges, i, seen, out, done);
    } else {
      SkipLeaf(t, ranges, i, seen, out, done);
    }
    NoCopy(t, ranges, out, done, w);
  }

  /** An ADDR of a function not seen yet sends the walk to that function
      as a reference from the innermost pending one. */
  lemma AddrEntry(t: seq<Symbol>, ranges: Ranges, i: nat, seen: set<string>, stack: seq<string>)
    requires Sound(t, ranges) && Item(t, i).Some? && Entry(t, ranges, i, seen, stack)
    requires t[i].kind == Addr && t[i].text !in seen && t[i].text in ranges
    ensures Item(t, ranges[t[i].text].0).Some? && Entry(t, ranges, ranges[t[i].text].0, seen, stack)
  {
    var y := t[i].text;
    assert stack != [] ==> Calls(t, ranges, stack[|stack| - 1], y);
  }

  /** Back from the referenced function, the ADDR itself is covered. */
  lemma AddrStep(t: seq<Symbol>, ranges: Ranges, i: nat, seen: set<string>, out: seq<Symbol>,
                 done: seq<string>, stack: seq<string>, v: Dfs)
    requires Sound(t, ranges) && Item(t, i).Some?
    requires t[i].kind == Addr && t[i].text !in seen && t[i].text in ranges
    requires v == DfsVisit(t, ranges, ranges[t[i].text].0, seen, out, done)
    requires Inv(t, ranges, v.seen, v.done, stack) && Grew(t, ranges, out, done, v)
    ensures VisitPost(t, ranges, i, seen, out, done, stack, DfsVisit(t, ranges, i, seen, out, done))
  {
    var w := DfsVisit(t, ranges, i, seen, out, done);
    assert w == Dfs(i + 1, v.seen, v.out, v.done);
    assert t[ranges[t[i].text].0] == Symbol(Fn, t[i].text);
    OneCovered(t, ranges, i, v.seen);
  }

  /** A single ADDR whose function has been seen. */
  lemma OneCovered(t: seq<Symbol>, ranges: Ranges, i: nat, seen: set<string>)
    requires i < |t| && t[i].kind == Addr && t[i].text in seen
    ensures CoveredFns(t, i, i + 1, seen) && CoveredAddrs(t, ranges, i, i + 1, seen)
  {
  }

  /** An opener other than FN adds nothing to what its body covers. */
  lemma OpenerJoin(t: seq<Symbol>, ranges: Ranges, i: nat, e: nat, seen: set<string>)
    requires i < |t| && t[i].kind != Addr && t[i].kind != Fn
    ensures CoveredFns(t, i + 1, e, seen) ==> CoveredFns(t, i, e, seen)
    ensures CoveredAddrs(t, ranges, i + 1, e, seen) ==> CoveredAddrs(t, ranges, i, e, seen)
  {
  }

  /** An ADDR of a function seen, or of a name without a span. */
  lemma SkipAddr(t: seq<Symbol>, ranges: Ranges, i: nat, seen: set<string>, out: seq<Symbol>, done: seq<string>)
    requires Sound(t, ranges) && Item(t, i).Some? && t[i].kind == Addr
    requires t[i].text in seen || t[i].text !in ranges
    ensures DfsVisit(t, ranges, i, seen, out, done) == Dfs(i + 1, seen, out, done)
    ensures CoveredFns(t, i, i + 1, seen) && CoveredAddrs(t, ranges, i, i + 1, seen)
  {
  }

  /** A function seen is passed over whole; nothing inside it is an FN. */
  lemma SkipFn(t: seq<Symbol>, ranges: Ranges, i: nat, seen: set<string>, out: seq<Symbol>, done: seq<string>)
    requires Sound(t, ranges) && Item(t, i).Some? && t[i].kind == Fn && t[i].text in seen
    ensures DfsVisit(t, ranges, i, seen, out, done) == Dfs(Item(t, i).value, seen, out, done)
    ensures CoveredFns(t, i, Item(t, i).value, seen)
  {
    assert ranges[t[i].text] == (i, Item(t, i).value);
  }

  /** A symbol that is neither an opener nor an ADDR. */
  lemma SkipLeaf(t: seq<Symbol>, ranges: Ranges, i: nat, seen: set<string>, out: seq<Symbol>, done: seq<string>)
    requires Sound(t, ranges) && Item(t, i).Some? && t[i].kind != Addr && !IsOpener(t[i].kind)
    ensures DfsVisit(t, ranges, i, seen, out, done) == Dfs(i + 1, seen, out, done)
    ensures CoveredFns(t, i, i + 1, seen) && CoveredAddrs(t, ranges, i, i + 1, seen)
  {
  }

  /** A step that copies nothing leaves the new tape as it was. */
  lemma NoCopy(t: seq<Symbol>, ranges: Ranges, out: seq<Symbol>, done: seq<string>, w: Dfs)
    requires Fits(t, ranges) && (forall k :: 0 <= k < |done| ==> done[k] in ranges)
    requires w.out == out && w.done == done
    ensures Grew(t, ranges, out, done, w)
  {
    assert done[|done|..] == [];
  }

  /** visit_block for the intended walk keeps the same promises. */
  lemma {:induction false} BlockProps(t: seq<Symbol>, ranges: Ranges, j: nat, seen: set<string>,
                                      out: seq<Symbol>, done: seq<string>, stack: seq<string>)
    requires Sound(t, ranges) && Body(t, j).Some?
    requires Inv(t, ranges, seen, done, stack) && BlockEntry(t, ranges, j, stack)
    ensures var w := DfsBlock(t, ranges, j, seen, out, done);
      Inv(t, ranges, w.seen, w.done, stack) && Grew(t, ranges, out, done, w)
      && CoveredFns(t, j, w.next, w.seen)
      && (stack != [] ==> CoveredAddrs(t, ranges, j, w.next, w.seen))
    decreases Unseen(t, seen), Pending(t, j, seen), |t| - j, 1
  {
    SoundFits(t, ranges);
    if t[j].kind == End {
      BlockEnd(t, ranges, j, seen, out, done);
      NoCopy(t, ranges, out, done, DfsBlock(t, ranges, j, seen, out, done));
    } else {
      KidsUnfold(t, j);
      BlockToVisit(t, ranges, j, seen, stack);
      VisitProps(t, ranges, j, seen, out, done, stack);
      var v := DfsVisit(t, ranges, j, seen, out, done);
      UnseenMono(t, seen, v.seen, j);
      VisitToBlock(t, ranges, j, v.next, stack);
      BlockProps(t, ranges, v.next, v.seen, v.out, v.done, stack);
      var w := DfsBlock(t, ranges, v.next, v.seen, v.out, v.done);
      BlockUnfold(t, ranges, j, seen, out, done);
      BlockJoin(t, ranges, j, out, done, stack, v, w);
    }
  }

  lemma BlockEnd(t: seq<Symbol>, ranges: Ranges, j: nat, seen: set<string>, out: seq<Symbol>, done: seq<string>)
    requires Sound(t, ranges) && j < |t| && t[j].kind == End
    ensures Body(t, j) == Some(j + 1)
    ensures DfsBlock(t, ranges, j, seen, out, done) == Dfs(j + 1, seen, out, done)
    ensures CoveredFns(t, j, j + 1, seen) && CoveredAddrs(t, ranges, j, j + 1, seen)
  {
  }

  lemma BlockUnfold(t: seq<Symbol>, ranges: Ranges, j: nat, seen: set<string>, out: seq<Symbol>, done: seq<string>)
    requires Sound(t, ranges) && Body(t, j).Some? && t[j].kind != End
    ensures var v := DfsVisit(t, ranges, j, seen, out, done);
      Body(t, v.next).Some?
      && DfsBlock(t, ranges, j, seen, out, done) == DfsBlock(t, ranges, v.next, v.seen, v.out, v.done)
  {
  }

  /** Each item of a body is reached the way the body was. */
  lemma BlockToVisit(t: seq<Symbol>, ranges: Ranges, j: nat, seen: set<string>, stack: seq<string>)
    requires Body(t, j).Some? && t[j].kind != End && BlockEntry(t, ranges, j, stack)
    requires Item(t, j).Some? && Body(t, Item(t, j).value) == Body(t, j)
    ensures Entry(t, ranges, j, seen, stack)
  {
  }

  lemma VisitToBlock(t: seq<Symbol>, ranges: Ranges, j: nat, m: nat, stack: seq<string>)
    requires Body(t, j).Some? && j < m && Body(t, m) == Body(t, j) && BlockEntry(t, ranges, j, stack)
    ensures BlockEntry(t, ranges, m, stack)
  {
  }

  /** One item walked, then the rest of the body. */
  lemma BlockJoin(t: seq<Symbol>, ranges: Ranges, j: nat, out: seq<Symbol>, done: seq<string>,
                  stack: seq<string>, v: Dfs, w: Dfs)
    requires j <= v.next <= w.next && v.seen <= w.seen
    requires Grew(t, ranges, out, done, v) && Grew(t, ranges, v.out, v.done, w)
    requires CoveredFns(t, j, v.next, v.seen) && CoveredFns(t, v.next, w.next, w.seen)
    requires stack != [] ==> CoveredAddrs(t, ranges, j, v.next, v.seen)
                             && CoveredAddrs(t, ranges, v.next, w.next, w.seen)
    ensures Grew(t, ranges, out, done, w) && CoveredFns(t, j, w.next, w.seen)
    ensures stack != [] ==> CoveredAddrs(t, ranges, j, w.next, w.seen)
  {
    SliceJoin(done, v.done, w.done);
    ChunkJoin(t, ranges, out, v.done[|done|..], w.done[|v.done|..]);
  }

  /** reorder as intended, on a whole balanced tape: every function is
      copied exactly once, each after every function it references unless
      the two lie on a cycle of references, and the new tape is the
      PROGRAM opener followed by the copied spans in that order. */
  lemma DfsRun(t: seq<Symbol>, ranges: Ranges)
    requires Sound(t, ranges) && Balanced(t)
    ensures var w := DfsVisit(t, ranges, 0, {}, [t[0]], []);
      w.next == |t|
      && (forall k, m :: 0 <= k < m < |w.done| ==> w.done[k] != w.done[m])
      && (forall x :: x in w.done <==> x in FnNames(t))
      && Topo(t, ranges, w.done)
      && Fits(t, ranges) && (forall k :: 0 <= k < |w.done| ==> w.done[k] in ranges)
      && w.out == [t[0]] + Chunks(t, ranges, w.done)
  {
    var w := DfsVisit(t, ranges, 0, {}, [t[0]], []);
    VisitProps(t, ranges, 0, {}, [t[0]], [], []);
    assert w.done[0..] == w.done;
    forall x | x in FnNames(t) ensures x in w.done {
      var p :| 0 <= p < |t| && t[p].kind == Fn && t[p].text == x;
    }
    forall x | x in w.done ensures x in FnNames(t) {
      var k :| 0 <= k < |w.done| && w.done[k] == x;
      assert t[ranges[x].0] == Symbol(Fn, x);
    }
  }

  lemma ExampleItems()
    ensures Item(Example, 1) == Some(4) && Item(Example, 4) == Some(6) && Item(Example, 6) == Some(9)
    ensures Item(Example, 2) == Some(3) && Item(Example, 7) == Some(8)
    ensures Body(Example, 2) == Some(4) && Body(Example, 3) == Some(4) && Body(Example, 5) == Some(6)
    ensures Body(Example, 7) == Some(9) && Body(Example, 8) == Some(9)
    ensures Body(Example, 1) == Some(10) && Body(Example, 4) == Some(10)
    ensures Body(Example, 6) == Some(10) && Body(Example, 9) == Some(10)
    ensures Balanced(Example)
  {
    ExampleShaped();
    ShapedItems(Example);
  }

  lemma ExampleSound()
    ensures Sound(Example, ExampleRanges)
  {
    ExampleSpans();
    ExampleFnsKnown();
    ExampleFlat();
  }

  lemma ExampleSpans()
    ensures forall x :: x in ExampleRanges ==>
      ExampleRanges[x].0 < |Example| && Example[ExampleRanges[x].0] == Symbol(Fn, x)
      && Item(Example, ExampleRanges[x].0) == Some(ExampleRanges[x].1)
  {
    ExampleItems();
    forall x | x in ExampleRanges
      ensures ExampleRanges[x].0 < |Example| && Example[ExampleRanges[x].0] == Symbol(Fn, x)
              && Item(Example, ExampleRanges[x].0) == Some(ExampleRanges[x].1)
    {
      assert x == "f" || x == "g" || x == "h";
    }
  }

  lemma ExampleFnsKnown()
    ensures forall p :: 0 <= p < |Example| && Example[p].kind == Fn ==>
      Example[p].text in ExampleRanges && ExampleRanges[Example[p].text].0 == p
  {
    forall p | 0 <= p < |Example| && Example[p].kind == Fn
      ensures Example[p].text in ExampleRanges && ExampleRanges[Example[p].text].0 == p
    {
      assert p == 1 || p == 4 || p == 6;
    }
  }

  lemma ExampleFlat()
    ensures forall x, p :: x in ExampleRanges && ExampleRanges[x].0 < p < ExampleRanges[x].1 && p < |Example|
                           ==> Example[p].kind != Fn
  {
    forall x, p | x in ExampleRanges && ExampleRanges[x].0 < p < ExampleRanges[x].1 && p < |Example|
      ensures Example[p].kind != Fn
    {
      assert p == 2 || p == 3 || p == 5 || p == 7 || p == 8;
    }
  }

  /** In the example `f` references `g` only, `g` references nothing, and
      `h` references `f`. */
  lemma ExampleCalls()
    ensures Calls(Example, ExampleRanges, "h", "f")
    ensures forall z :: Calls(Example, ExampleRanges, "f", z) ==> z == "g"
    ensures forall z :: !Calls(Example, ExampleRanges, "g", z)
  {
    assert Example[7] == Symbol(Addr, "f");
  }

  /** No chain of references leads from `f` back to `h`: the example has no
      cycle through `h`. */
  lemma ExampleNoCycle()
    ensures !Reaches(Example, ExampleRanges, "f", "h")
  {
    ExampleCalls();
    if Reaches(Example, ExampleRanges, "f", "h") {
      var c :| Chain(Example, ExampleRanges, c) && |c| > 0 && c[0] == "f" && c[|c| - 1] == "h";
      var k := 0;
      while k < |c| - 1
        invariant 0 <= k < |c| && (c[k] == "f" || c[k] == "g")
      {
        assert Calls(Example, ExampleRanges, c[k], c[k + 1]);
        k := k + 1;
      }
    }
  }

  /** The order the walk as written copies the example's functions in,
      `g`, `h`, `f`, puts `h` before `f`, which it references, with no
      cycle between them. */
  lemma AsWrittenNotTopo()
    ensures Fits(Example, ExampleRanges)
    ensures VisitW(Example, ExampleRanges, 0, {}, [Example[0]]).out
            == [Example[0]] + Chunks(Example, ExampleRanges, ["g", "h", "f"])
    ensures !Topo(Example, ExampleRanges, ["g", "h", "f"])
  {
    AsWrittenOrder();
    AsWrittenChunks();
    var t := Example;
    Assoc([t[0]], t[4..6], t[6..9], t[1..4]);
    HBeforeF();
  }

  /** Small set and sequence displays, built one name at a time. */
  lemma SetOne<T>(a: T)
    ensures {} + {a} == {a}
  {
  }

  lemma SetPair<T>(a: T, b: T)
    ensures {a} + {b} == {a, b}
  {
  }

  lemma SetTriple<T>(a: T, b: T, c: T)
    ensures {a, b} + {c} == {a, b, c}
  {
  }

  lemma SeqPair<T>(a: T, b: T)
    ensures [a] + [b] == [a, b]
  {
  }

  lemma SeqTriple<T>(a: T, b: T, c: T)
    ensures [a, b] + [c] == [a, b, c]
  {
  }

  lemma Assoc(a: seq<Symbol>, b: seq<Symbol>, c: seq<Symbol>, d: seq<Symbol>)
    ensures a + b + c + d == a + (b + c + d)
  {
  }

  lemma AsWrittenChunks()
    ensures Fits(Example, ExampleRanges)
    ensures Chunks(Example, ExampleRanges, ["g", "h", "f"]) == Example[4..6] + Example[6..9] + Example[1..4]
  {
    ExampleFits();
    var t, r := Example, ExampleRanges;
    assert Chunks(t, r, ["f"]) == t[1..4] + Chunks(t, r, []);
    assert Chunks(t, r, ["h", "f"]) == t[6..9] + Chunks(t, r, ["f"]);
    assert Chunks(t, r, ["g", "h", "f"]) == t[4..6] + Chunks(t, r, ["h", "f"]);
  }

  lemma HBeforeF()
    ensures !Topo(Example, ExampleRanges, ["g", "h", "f"])
  {
    ExampleCalls();
    ExampleNoCycle();
    var d := ["g", "h", "f"];
    assert d[1] == "h" && d[..1] == ["g"];
  }

  /** A function not seen yet: its body walked, then its span copied. */
  lemma FnNew(t: seq<Symbol>, ranges: Ranges, i: nat, seen: set<string>, out: seq<Symbol>, done: seq<string>, v: Dfs)
    requires Sound(t, ranges) && Item(t, i).Some? && t[i].kind == Fn && t[i].text !in seen
    requires v == DfsBlock(t, ranges, i + 1, seen + {t[i].text}, out, done)
    ensures DfsVisit(t, ranges, i, seen, out, done) == Dfs(v.next, v.seen, v.out + t[i..v.next], v.done + [t[i].text])
  {
  }

  /** A reference to a function not seen yet walks that function first. */
  lemma AddrNew(t: seq<Symbol>, ranges: Ranges, i: nat, seen: set<string>, out: seq<Symbol>, done: seq<string>, v: Dfs)
    requires Sound(t, ranges) && Item(t, i).Some? && t[i].kind == Addr && t[i].text !in seen && t[i].text in ranges
    requires v == DfsVisit(t, ranges, ranges[t[i].text].0, seen, out, done)
    ensures DfsVisit(t, ranges, i, seen, out, done) == Dfs(i + 1, v.seen, v.out, v.done)
  {
  }

  /** The example's layout, stated for any tape that has it, so that the
      walk below is followed one step at a time. */
  ghost predicate Shaped(t: seq<Symbol>)
  {
    |t| == 10 && t[0].kind == Program
    && t[1] == Symbol(Fn, "f") && t[2] == Symbol(Addr, "g") && t[3].kind == End
    && t[4] == Symbol(Fn, "g") && t[5].kind == End
    && t[6] == Symbol(Fn, "h") && t[7] == Symbol(Addr, "f") && t[8].kind == End
    && t[9].kind == End
  }

  lemma ExampleShaped()
    ensures Shaped(Example)
  {
  }

  lemma ShapedItems(t: seq<Symbol>)
    requires Shaped(t)
    ensures Body(t, 3) == Some(4) && Item(t, 2) == Some(3) && Body(t, 2) == Some(4) && Item(t, 1) == Some(4)
    ensures Body(t, 5) == Some(6) && Item(t, 4) == Some(6)
    ensures Body(t, 8) == Some(9) && Item(t, 7) == Some(8) && Body(t, 7) == Some(9) && Item(t, 6) == Some(9)
    ensures Body(t, 9) == Some(10) && Body(t, 6) == Some(10) && Body(t, 4) == Some(10) && Body(t, 1) == Some(10)
    ensures Item(t, 0) == Some(10)
  {
    assert Body(t, 3) == Some(4);
    assert Item(t, 2) == Some(3);
    assert Body(t, 5) == Some(6);
    assert Body(t, 8) == Some(9);
    assert Item(t, 7) == Some(8);
    assert Body(t, 9) == Some(10);
  }

  /** `g` alone: its empty body, then its span. */
  lemma IntendedGBody(t: seq<Symbol>, r: Ranges, p: seq<Symbol>)
    requires Sound(t, r) && Shaped(t)
    ensures DfsVisit(t, r, 4, {"f"}, p, []) == Dfs(6, {"f", "g"}, p + t[4..6], ["g"])
  {
    var fg: set<string> := {"f", "g"};
    SetPair("f", "g");
    ShapedItems(t);
    BlockEnd(t, r, 5, fg, p, []);
    FnNew(t, r, 4, {"f"}, p, [], Dfs(6, fg, p, []));
  }

  /** Inside `f`, the reference to `g` copies `g` first. */
  lemma IntendedG(t: seq<Symbol>, r: Ranges, p: seq<Symbol>)
    requires Sound(t, r) && Shaped(t)
    ensures DfsBlock(t, r, 2, {"f"}, p, []) == Dfs(4, {"f", "g"}, p + t[4..6], ["g"])
  {
    var fg: set<string> := {"f", "g"};
    var p1 := p + t[4..6];
    ShapedItems(t);
    IntendedGBody(t, r, p);
    AddrNew(t, r, 2, {"f"}, p, [], Dfs(6, fg, p1, ["g"]));
    BlockUnfold(t, r, 2, {"f"}, p, []);
    BlockEnd(t, r, 3, fg, p1, ["g"]);
  }

  /** Then `f` itself. */
  lemma IntendedF(t: seq<Symbol>, r: Ranges, p: seq<Symbol>)
    requires Sound(t, r) && Shaped(t)
    ensures DfsVisit(t, r, 1, {}, p, []) == Dfs(4, {"f", "g"}, p + t[4..6] + t[1..4], ["g", "f"])
  {
    var none: set<string> := {};
    SetOne("f");
    ShapedItems(t);
    IntendedG(t, r, p);
    FnNew(t, r, 1, none, p, [], Dfs(4, {"f", "g"}, p + t[4..6], ["g"]));
    SeqPair("g", "f");
  }

  /** The body of `h`: its reference to `f` finds `f` seen. */
  lemma IntendedHBody(t: seq<Symbol>, r: Ranges, p: seq<Symbol>, d: seq<string>)
    requires Sound(t, r) && Shaped(t)
    ensures DfsBlock(t, r, 7, {"f", "g", "h"}, p, d) == Dfs(9, {"f", "g", "h"}, p, d)
  {
    var all: set<string> := {"f", "g", "h"};
    ShapedItems(t);
    SkipAddr(t, r, 7, all, p, d);
    BlockUnfold(t, r, 7, all, p, d);
    BlockEnd(t, r, 8, all, p, d);
  }

  /** `h` last. */
  lemma IntendedH(t: seq<Symbol>, r: Ranges, p: seq<Symbol>)
    requires Sound(t, r) && Shaped(t)
    ensures DfsVisit(t, r, 6, {"f", "g"}, p, ["g", "f"]) == Dfs(9, {"f", "g", "h"}, p + t[6..9], ["g", "f", "h"])
  {
    var all: set<string> := {"f", "g", "h"};
    SetTriple("f", "g", "h");
    ShapedItems(t);
    IntendedHBody(t, r, p, ["g", "f"]);
    FnNew(t, r, 6, {"f", "g"}, p, ["g", "f"], Dfs(9, all, p, ["g", "f"]));
    SeqTriple("g", "f", "h");
  }

  /** After `f`, the walk passes `g`, seen, and copies `h`. */
  lemma IntendedRest(t: seq<Symbol>, r: Ranges, p: seq<Symbol>)
    requires Sound(t, r) && Shaped(t) && Body(t, 4) == Some(10)
    ensures DfsBlock(t, r, 4, {"f", "g"}, p, ["g", "f"]) == Dfs(10, {"f", "g", "h"}, p + t[6..9], ["g", "f", "h"])
  {
    ShapedItems(t);
    var fg: set<string> := {"f", "g"};
    var all: set<string> := {"f", "g", "h"};
    SkipFn(t, r, 4, fg, p, ["g", "f"]);
    BlockUnfold(t, r, 4, fg, p, ["g", "f"]);
    IntendedH(t, r, p);
    var p3 := p + t[6..9];
    BlockUnfold(t, r, 6, fg, p, ["g", "f"]);
    BlockEnd(t, r, 9, all, p3, ["g", "f", "h"]);
  }

  /** The whole intended walk over a tape laid out like the example. */
  lemma IntendedWalk(t: seq<Symbol>, r: Ranges)
    requires Sound(t, r) && Shaped(t)
    ensures Item(t, 0) == Some(10)
    ensures DfsVisit(t, r, 0, {}, [t[0]], []) == Dfs(10, {"f", "g", "h"}, [t[0]] + t[4..6] + t[1..4] + t[6..9], ["g", "f", "h"])
  {
    ShapedItems(t);
    var p := [t[0]];
    var p2 := p + t[4..6] + t[1..4];
    IntendedF(t, r, p);
    IntendedRest(t, r, p2);
    BlockUnfold(t, r, 1, {}, p, []);
    OpenerVisit(t, r, 0, {}, p, []);
  }

  /** The intended walk copies the example's functions as `g`, `f`, `h`. */
  lemma IntendedOrder()
    ensures Sound(Example, ExampleRanges) && Item(Example, 0) == Some(10)
    ensures DfsVisit(Example, ExampleRanges, 0, {}, [Example[0]], []).done == ["g", "f", "h"]
    ensures DfsVisit(Example, ExampleRanges, 0, {}, [Example[0]], []).out + [Example[9]]
            == [Symbol(Program, ""),
                Symbol(Fn, "g"), Symbol(End, "g"),
                Symbol(Fn, "f"), Symbol(Addr, "g"), Symbol(End, "f"),
                Symbol(Fn, "h"), Symbol(Addr, "f"), Symbol(End, "h"),
                Symbol(End, "")]
  {
    ExampleSound();
    ExampleShaped();
    IntendedWalk(Example, ExampleRanges);
    IntendedTape();
  }

  /** A PROGRAM, MARK, QUOTE or LET: only its body is walked. */
  lemma OpenerVisit(t: seq<Symbol>, ranges: Ranges, i: nat, seen: set<string>, out: seq<Symbol>, done: seq<string>)
    requires Sound(t, ranges) && Item(t, i).Some? && IsOpener(t[i].kind) && t[i].kind != Fn
    ensures DfsVisit(t, ranges, i, seen, out, done) == DfsBlock(t, ranges, i + 1, seen, out, done)
  {
  }

  /** The copied spans of the intended walk, in order, with the closing END. */
  lemma IntendedTape()
    ensures [Example[0]] + Example[4..6] + Example[1..4] + Example[6..9] + [Example[9]]
            == [Symbol(Program, ""),
                Symbol(Fn, "g"), Symbol(End, "g"),
                Symbol(Fn, "f"), Symbol(Addr, "g"), Symbol(End, "f"),
                Symbol(Fn, "h"), Symbol(Addr, "f"), Symbol(End, "h"),
                Symbol(End, "")]
  {
  }
}
