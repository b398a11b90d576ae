/** The discover pass (cdeck/passes/discover.hpp): every function definition
    is entered into the symbol table before any reference is checked, and a
    second definition of a name already present is a CLASH. */
module Discover {
  import opened Symbols
  import opened Tape

  /** The names of the FN openers of `s`, in tape order. */
  function FnNames(s: seq<Symbol>): seq<string>
  {
    if s == [] then []
    else (if s[0].kind == Fn then [s[0].text] else []) + FnNames(s[1..])
  }

  lemma {:induction false} FnNamesAppend(a: seq<Symbol>, b: seq<Symbol>)
    ensures FnNames(a + b) == FnNames(a) + FnNames(b)
    decreases |a|
  {
    if a == [] {
      assert a + b == b;
    } else {
      assert (a + b)[0] == a[0];
      assert (a + b)[1..] == a[1..] + b;
      FnNamesAppend(a[1..], b);
    }
  }

  /** Entering `names` one after the other, as `emplace` does; the first
      name that is already present is reported as a CLASH. */
  function Register(syms: map<string, Kind>, names: seq<string>): Result<map<string, Kind>>
    decreases |names|
  {
    if names == [] then Ok(syms)
    else if names[0] in syms then Fail(Report(names[0], Clash))
    else Register(syms[names[0] := Fn], names[1..])
  }

  /** Registering two runs is registering the first, then the second. */
  lemma {:induction false} RegisterAppend(syms: map<string, Kind>, a: seq<string>, b: seq<string>)
    ensures Register(syms, a + b)
         == (match Register(syms, a)
             case Ok(s) => Register(s, b)
             case Fail(rep) => Fail(rep))
    decreases |a|
  {
    if a == [] {
      assert a + b == b;
    } else {
      assert (a + b)[0] == a[0];
      assert (a + b)[1..] == a[1..] + b;
      if a[0] !in syms {
        RegisterAppend(syms[a[0] := Fn], a[1..], b);
      }
    }
  }

  /** Registration succeeds exactly when the names are pairwise distinct and
      none is already in the table; the table then gains each name as FN. */
  lemma RegisterOk(syms: map<string, Kind>, names: seq<string>)
    ensures Register(syms, names).Ok?
        <==> NoDup(names) && forall k :: 0 <= k < |names| ==> names[k] !in syms
    ensures Register(syms, names).Ok? ==>
      Register(syms, names).value == syms + map n | n in names :: Fn
  {
    if Register(syms, names).Ok? {
      RegisterFresh(syms, names);
    }
    if NoDup(names) && forall k :: 0 <= k < |names| ==> names[k] !in syms {
      RegisterDistinct(syms, names);
    }
  }

  /** Distinct names, none in the table, are all entered. */
  lemma {:induction false} RegisterDistinct(syms: map<string, Kind>, names: seq<string>)
    requires NoDup(names) && forall k :: 0 <= k < |names| ==> names[k] !in syms
    ensures Register(syms, names) == Ok(syms + map n | n in names :: Fn)
    decreases |names|
  {
    if names != [] {
      var n := names[0];
      var rest := names[1..];
      forall k | 0 <= k < |rest| ensures rest[k] !in syms[n := Fn] {
        assert rest[k] == names[k + 1];
      }
      RegisterDistinct(syms[n := Fn], rest);
      assert syms[n := Fn] + (map m | m in rest :: Fn) == syms + map m | m in names :: Fn;
    } else {
      assert syms + (map m | m in names :: Fn) == syms;
    }
  }

  /** A registration that succeeds had distinct names, none in the table. */
  lemma {:induction false} RegisterFresh(syms: map<string, Kind>, names: seq<string>)
    requires Register(syms, names).Ok?
    ensures NoDup(names) && forall k :: 0 <= k < |names| ==> names[k] !in syms
    decreases |names|
  {
    if names != [] {
      var n := names[0];
      var rest := names[1..];
      RegisterFresh(syms[n := Fn], rest);
      forall a, b | 0 <= a < b < |names| ensures names[a] != names[b] {
        assert names[b] == rest[b - 1];
        if a > 0 {
          assert names[a] == rest[a - 1];
        }
      }
      forall k | 0 <= k < |names| ensures names[k] !in syms {
        if k > 0 {
          assert names[k] == rest[k - 1];
        }
      }
    }
  }

  /** A failed registration names a clashing definition. */
  lemma {:induction false} RegisterFail(syms: map<string, Kind>, names: seq<string>)
    requires Register(syms, names).Fail?
    ensures Register(syms, names).report.kind == Clash
    ensures Register(syms, names).report.sv in names
    decreases |names|
  {
    if names[0] !in syms {
      RegisterFail(syms[names[0] := Fn], names[1..]);
    }
  }

  lemma StepNames(t: seq<Symbol>, j: nat, it: nat, next: nat, e: nat)
    requires j <= it <= next <= e <= |t|
    ensures FnNames(t[j..next]) == FnNames(t[j..it]) + FnNames(t[it..next])
    ensures FnNames(t[j..e]) == FnNames(t[j..next]) + FnNames(t[next..e])
  {
    FnNamesAppend(t[j..it], t[it..next]);
    assert t[j..it] + t[it..next] == t[j..next];
    FnNamesAppend(t[j..next], t[next..e]);
    assert t[j..next] + t[next..e] == t[j..e];
  }

  /** discover_visit on the item at `i`; the table ends up as registering the
      item's FN names in order would leave it. */
  method DiscoverVisit(ctx: Context, t: seq<Symbol>, i: nat) returns (r: Result<nat>)
    requires Item(t, i).Some?
    modifies ctx`symbols
    ensures var reg := Register(old(ctx.symbols), FnNames(t[i..Item(t, i).value]));
      if reg.Ok? then r == Ok(Item(t, i).value) && ctx.symbols == reg.value
      else r == Fail(reg.report)
    decreases |t| - i, 0
  {
    var e := Item(t, i).value;
    ghost var s0 := ctx.symbols;
    FnNamesAppend([t[i]], t[i + 1..e]);
    assert [t[i]] + t[i + 1..e] == t[i..e];
    assert [t[i]][1..] == [];
    assert FnNames([t[i]]) == (if t[i].kind == Fn then [t[i].text] else []);
    if t[i].kind == Fn {
      ghost var names := FnNames(t[i..e]);
      assert names == [t[i].text] + FnNames(t[i + 1..e]);
      assert names[0] == t[i].text && names != [];
      if t[i].text in ctx.symbols {
        assert Register(s0, names) == Fail(Report(t[i].text, Clash));
        return Fail(Report(t[i].text, Clash));
      }
      ctx.symbols := ctx.symbols[t[i].text := Fn];
      assert Register(s0, [t[i].text]) == Ok(ctx.symbols) by {
        assert [t[i].text][1..] == [];
      }
      RegisterAppend(s0, [t[i].text], FnNames(t[i + 1..e]));
      r := DiscoverBlock(ctx, t, i + 1);
    } else if IsOpener(t[i].kind) {
      // PROGRAM, MARK, QUOTE and LET only recurse into their body
      assert FnNames(t[i..e]) == FnNames(t[i + 1..e]);
      r := DiscoverBlock(ctx, t, i + 1);
    } else {
      assert e == i + 1 && FnNames(t[i..e]) == [];
      r := Ok(i + 1);
    }
  }

  /** visit_block for this pass: the items from `j` up to the closing END. */
  method DiscoverBlock(ctx: Context, t: seq<Symbol>, j: nat) returns (r: Result<nat>)
    requires Body(t, j).Some?
    modifies ctx`symbols
    ensures var reg := Register(old(ctx.symbols), FnNames(t[j..Body(t, j).value]));
      if reg.Ok? then r == Ok(Body(t, j).value) && ctx.symbols == reg.value
      else r == Fail(reg.report)
    decreases |t| - j, 1
  {
    var e := Body(t, j).value;
    ghost var s0 := ctx.symbols;
    var it := j;
    while t[it].kind != End
      invariant j <= it < |t| && Body(t, it) == Some(e)
      invariant Register(s0, FnNames(t[j..it])) == Ok(ctx.symbols)
      decreases |t| - it
    {
      var next := Item(t, it).value;
      assert Body(t, next) == Some(e);
      ghost var done := FnNames(t[j..it]);
      ghost var step := FnNames(t[it..next]);
      var x := DiscoverVisit(ctx, t, it);
      StepNames(t, j, it, next, e);
      RegisterAppend(s0, done, step);
      if x.Fail? {
        RegisterAppend(s0, done + step, FnNames(t[next..e]));
        return x;
      }
      it := x.value;
    }
    FnNamesAppend(t[j..it], [t[it]]);
    assert t[j..it] + [t[it]] == t[j..e];
    assert FnNames([t[it]]) == [] by {
      assert [t[it]][1..] == [];
    }
    assert FnNames(t[j..e]) == FnNames(t[j..it]);
    return Ok(it + 1);
  }

  /** discover: the pass over a whole tape. */
  method Run(ctx: Context, t: seq<Symbol>) returns (r: Result<nat>)
    requires t == [] || Balanced(t)
    modifies ctx`symbols
    ensures r.Ok? <==> NoDup(FnNames(t))
                       && forall k :: 0 <= k < |FnNames(t)| ==> FnNames(t)[k] !in old(ctx.symbols)
    ensures r.Ok? ==> r.value == |t| && ctx.symbols == old(ctx.symbols) + map n | n in FnNames(t) :: Fn
    ensures r.Fail? ==> r.report.kind == Clash && r.report.sv in FnNames(t)
  {
    RegisterOk(ctx.symbols, FnNames(t));
    if |t| == 0 {
      return Ok(0);
    }
    assert t[0..|t|] == t;
    r := DiscoverVisit(ctx, t, 0);
    if r.Fail? {
      RegisterFail(old(ctx.symbols), FnNames(t));
    }
  }
}
