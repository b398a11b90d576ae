/** The emit pass (cdeck/passes/emit.hpp), still a walk that emits nothing:
    it descends into PROGRAM, MARK, LET and FN blocks and stops with an
    UNREACHABLE report at the first symbol that earlier passes should have
    removed.  The effect pass (cdeck/passes/effect.hpp) is the same walk. */
module Emit {
  import opened Symbols
  import opened Tape

  /** Kinds that must be gone by now: an identifier not yet resolved, a
      quote not yet lowered, and the closers the parser turns into END. */
  predicate Unexpected(k: Kind)
  {
    k == Ident || k == Kind.Quote || k == Unmark || k == Unquote
  }

  /** The first unexpected symbol of a run, if any. */
  function FirstUnexpected(s: seq<Symbol>): (r: Option<nat>)
    ensures r.Some? ==> r.value < |s| && Unexpected(s[r.value].kind)
    ensures r.Some? ==> forall k :: 0 <= k < r.value ==> !Unexpected(s[k].kind)
    ensures r.None? <==> forall k :: 0 <= k < |s| ==> !Unexpected(s[k].kind)
  {
    if s == [] then None
    else if Unexpected(s[0].kind) then Some(0)
    else match FirstUnexpected(s[1..])
      case None => None
      case Some(k) => Some(k + 1)
  }

  /** What walking the run `s` that ends at `e` yields: `e`, or the report
      for its first unexpected symbol. */
  function Outcome(s: seq<Symbol>, e: nat): Result<nat>
  {
    match FirstUnexpected(s)
    case None => Ok(e)
    case Some(k) => Fail(Report(s[k].text, Unreachable))
  }

  /** The first unexpected symbol is the one with none before it. */
  lemma FirstAt(s: seq<Symbol>, k: nat)
    requires k < |s| && Unexpected(s[k].kind)
    requires forall i :: 0 <= i < k ==> !Unexpected(s[i].kind)
    ensures FirstUnexpected(s) == Some(k)
  {
  }

  /** A run with nothing unexpected in front changes nothing. */
  lemma OutcomeAfterClean(a: seq<Symbol>, b: seq<Symbol>, e: nat)
    requires FirstUnexpected(a).None?
    ensures Outcome(a + b, e) == Outcome(b, e)
  {
    var f := FirstUnexpected(b);
    if f.Some? {
      assert (a + b)[|a| + f.value] == b[f.value];
      forall i | 0 <= i < |a| + f.value
        ensures !Unexpected((a + b)[i].kind)
      {
        if i >= |a| {
          assert (a + b)[i] == b[i - |a|];
        }
      }
      FirstAt(a + b, |a| + f.value);
    } else {
      forall i | 0 <= i < |a + b|
        ensures !Unexpected((a + b)[i].kind)
      {
        if i >= |a| {
          assert (a + b)[i] == b[i - |a|];
        }
      }
    }
  }

  /** A run that fails decides the outcome whatever follows it. */
  lemma OutcomeAfterFail(a: seq<Symbol>, b: seq<Symbol>, e: nat, e': nat)
    requires FirstUnexpected(a).Some?
    ensures Outcome(a + b, e) == Outcome(a, e')
  {
    var k := FirstUnexpected(a).value;
    assert (a + b)[k] == a[k];
    forall i | 0 <= i < k
      ensures !Unexpected((a + b)[i].kind)
    {
      assert (a + b)[i] == a[i];
    }
    FirstAt(a + b, k);
  }

  /** emit_visit on the item at `i`. */
  method Visit(t: seq<Symbol>, i: nat) returns (r: Result<nat>)
    requires Item(t, i).Some?
    ensures r == Outcome(t[i..Item(t, i).value], Item(t, i).value)
    decreases |t| - i, 0
  {
    var current := t[i];
    var e := Item(t, i).value;
    assert t[i..e][0] == current;
    if Unexpected(current.kind) {
      return Fail(Report(current.text, Unreachable));
    }
    assert t[i..e] == [current] + t[i + 1..e];
    assert FirstUnexpected([current]).None?;
    OutcomeAfterClean([current], t[i + 1..e], e);
    if current.kind == Kind.Program || current.kind == Mark || current.kind == Kind.Let || current.kind == Fn {
      r := Block(t, i + 1);
    } else {
      // every other symbol passes as it is
      assert t[i + 1..e] == [];
      r := Ok(i + 1);
    }
  }

  /** visit_block for this pass. */
  method Block(t: seq<Symbol>, j: nat) returns (r: Result<nat>)
    requires Body(t, j).Some?
    ensures r == Outcome(t[j..Body(t, j).value], Body(t, j).value)
    decreases |t| - j, 1
  {
    var e := Body(t, j).value;
    var it := j;
    while t[it].kind != End
      invariant j <= it < e && Body(t, it) == Body(t, j)
      invariant FirstUnexpected(t[j..it]).None?
      decreases |t| - it
    {
      KidsUnfold(t, it);
      var m := Item(t, it).value;
      var v := Visit(t, it);
      StepOutcome(t, j, it, m, e);
      if v.Fail? {
        return v;
      }
      it := m;
    }
    KidsEnd(t, it);
    EndOutcome(t, j, it);
    return Ok(it + 1);
  }

  /** One item of a body walked: a failing item decides the body's
      outcome, a passing one extends the clean prefix. */
  lemma StepOutcome(t: seq<Symbol>, j: nat, it: nat, m: nat, e: nat)
    requires j <= it < m <= e <= |t| && FirstUnexpected(t[j..it]).None?
    ensures Outcome(t[it..m], m).Fail? ==> Outcome(t[j..e], e) == Outcome(t[it..m], m)
    ensures Outcome(t[it..m], m).Ok? ==> FirstUnexpected(t[j..m]).None?
  {
    if Outcome(t[it..m], m).Fail? {
      StepFail(t, j, it, m, e);
    } else {
      assert t[j..m] == t[j..it] + t[it..m];
      OutcomeAfterClean(t[j..it], t[it..m], m);
    }
  }

  lemma StepFail(t: seq<Symbol>, j: nat, it: nat, m: nat, e: nat)
    requires j <= it < m <= e <= |t| && FirstUnexpected(t[j..it]).None?
    requires Outcome(t[it..m], m).Fail?
    ensures Outcome(t[j..e], e) == Outcome(t[it..m], m)
  {
    assert t[it..e] == t[it..m] + t[m..e];
    assert t[j..e] == t[j..it] + t[it..e];
    FailInside(t[j..it], t[it..m], t[m..e], e, m);
  }

  /** Clean, then failing, then anything: the failing run decides. */
  lemma FailInside(a: seq<Symbol>, b: seq<Symbol>, c: seq<Symbol>, e: nat, m: nat)
    requires FirstUnexpected(a).None? && Outcome(b, m).Fail?
    ensures Outcome(a + (b + c), e) == Outcome(b, m)
  {
    OutcomeAfterClean(a, b + c, e);
    OutcomeAfterFail(b, c, e, m);
  }

  /** The END that closes a body is never unexpected. */
  lemma EndOutcome(t: seq<Symbol>, j: nat, it: nat)
    requires j <= it < |t| && t[it].kind == End && FirstUnexpected(t[j..it]).None?
    ensures Outcome(t[j..it + 1], it + 1) == Ok(it + 1)
  {
    assert t[j..it + 1] == t[j..it] + [t[it]];
    OutcomeAfterClean(t[j..it], [t[it]], it + 1);
  }

  /** emit: the walk of a whole tape succeeds exactly when no unexpected
      symbol is left anywhere on it, and otherwise reports the first. */
  method Run(t: seq<Symbol>) returns (r: Result<nat>)
    requires t == [] || Balanced(t)
    ensures r.Ok? <==> forall k :: 0 <= k < |t| ==> !Unexpected(t[k].kind)
    ensures r.Ok? ==> r.value == |t|
    ensures r.Fail? ==> FirstUnexpected(t).Some?
                        && r.report == Report(t[FirstUnexpected(t).value].text, Unreachable)
  {
    if t == [] {
      return Ok(0);
    }
    r := Visit(t, 0);
    assert t[0..|t|] == t;
  }
}
