/** The effect pass (cdeck/passes/effect.hpp): meant to find stack effects,
    it is for now the same walk as emit, with the same outcome. */
module Effect {
  import opened Symbols
  import opened Tape
  import Emit

  /** effect: succeeds exactly when no unexpected symbol is left on the
      tape, and otherwise reports the first one. */
  method Run(t: seq<Symbol>) returns (r: Result<nat>)
    requires t == [] || Balanced(t)
    ensures r.Ok? <==> forall k :: 0 <= k < |t| ==> !Emit.Unexpected(t[k].kind)
    ensures r.Ok? ==> r.value == |t|
    ensures r.Fail? ==> Emit.FirstUnexpected(t).Some?
                        && r.report == Report(t[Emit.FirstUnexpected(t).value].text, Unreachable)
  {
    r := Emit.Run(t);
  }
}
