/** The recursive-descent parser of cdeck/cdc.hpp.  Each rule takes symbols
    from the lexer and returns the tape it builds; the ghost node it also
    returns is the block structure that tape spells out, which is how the
    contracts say the tape is balanced and what opens and closes it.  Each
    rule also says which symbols it took from the lexer's pending stream:
    the node's `Tokens`. */
module CdcParser {
  import opened Symbols
  import opened Tape
  import opened CdcLexer

  /** No node: the ghost result that goes with a report. */
  function NoNode(): Node
  {
    Leaf(Symbol(Blank, ""))
  }

  /** The symbols the lexer handed out for a node, in order: a LET block
      came in as `let` and the bound name before its body, a function as
      its body, `::` and the name, a quote or workspace with its closer as
      `}` or `]`, and a program as its functions. */
  function Tokens(n: Node): seq<Symbol>
    decreases n, 1
  {
    match n
    case Leaf(s) => [s]
    case Block(o, kids, c) =>
      if o.kind == Kind.Let then [Symbol(Kind.Let, "let"), Symbol(Ident, o.text)] + TokensAll(kids)
      else if o.kind == Fn then TokensAll(kids) + [Symbol(Fn, "::"), Symbol(Ident, o.text)]
      else if o.kind == Kind.Quote then [o] + TokensAll(kids) + [Symbol(Unquote, c.text)]
      else if o.kind == Mark then [o] + TokensAll(kids) + [Symbol(Unmark, c.text)]
      else TokensAll(kids)
  }

  function TokensAll(ns: seq<Node>): seq<Symbol>
    decreases ns, 0
  {
    if ns == [] then [] else Tokens(ns[0]) + TokensAll(ns[1..])
  }

  lemma {:induction false} TokensAllSnoc(ns: seq<Node>, m: Node)
    ensures TokensAll(ns + [m]) == TokensAll(ns) + Tokens(m)
    decreases |ns|
  {
    if ns == [] {
      assert [m][1..] == [];
    } else {
      assert (ns + [m])[1..] == ns[1..] + [m];
      TokensAllSnoc(ns[1..], m);
    }
  }

  /** Three runs taken one after another are their concatenation taken. */
  lemma TakenInTurn(a: seq<Symbol>, b: seq<Symbol>, c: seq<Symbol>,
                    p0: Result<seq<Symbol>>, p1: Result<seq<Symbol>>, p2: Result<seq<Symbol>>, p3: Result<seq<Symbol>>)
    requires p0 == Prefixed(a, p1) && p1 == Prefixed(b, p2) && p2 == Prefixed(c, p3)
    ensures p0 == Prefixed(a + b + c, p3)
  {
    PrefixedTwice(b, c, p3);
    PrefixedTwice(a, b + c, p3);
    assert a + (b + c) == a + b + c;
  }

  /** A quote or workspace came in as its opener, its body and its closer. */
  lemma BracketTokens(open: Symbol, close: Symbol, kids: seq<Node>,
                      p0: Result<seq<Symbol>>, p1: Result<seq<Symbol>>, p2: Result<seq<Symbol>>, p3: Result<seq<Symbol>>)
    requires (open.kind == Kind.Quote && close.kind == Unquote) || (open.kind == Mark && close.kind == Unmark)
    requires p0 == Prefixed([open], p1) && p1 == Prefixed(TokensAll(kids), p2) && p2 == Prefixed([close], p3)
    ensures p0 == Prefixed(Tokens(Block(open, kids, Symbol(End, close.text))), p3)
  {
    TakenInTurn([open], TokensAll(kids), [close], p0, p1, p2, p3);
  }

  /** A LET block came in as `let`, the name and its body. */
  lemma LetTokens(let: Symbol, ident: Symbol, kids: seq<Node>)
    requires let == Symbol(Kind.Let, "let") && ident.kind == Ident
    ensures Tokens(Block(Symbol(Kind.Let, ident.text), kids, Symbol(End, ident.text))) == [let] + [ident] + TokensAll(kids)
  {
  }

  /** A function came in as its body, `::` and the name. */
  lemma FnTokens(fn: Symbol, ident: Symbol, kids: seq<Node>)
    requires fn == Symbol(Fn, "::") && ident.kind == Ident
    ensures Tokens(Block(Symbol(Fn, ident.text), kids, Symbol(End, ident.text))) == TokensAll(kids) + [fn] + [ident]
  {
  }

  /** literal: an INT or STR symbol, taken as it is. */
  method Literal(lx: Lexer) returns (r: Result<Symbol>)
    requires lx.Valid() && lx.Synced()
    modifies lx
    ensures lx.Valid() && lx.Synced()
    ensures r.Ok? ==> r.value == old(lx.peek) && IsLiteral(r.value) && lx.Measure() < old(lx.Measure())
    ensures r.Ok? ==> old(lx.pending) == Prefixed([r.value], lx.pending)
    ensures r.Fail? ==> r.report.kind == ExpectLiteral || r.report.kind == UnknownChar
  {
    var e := lx.Expect(IsLiteral(lx.peek), ExpectLiteral);
    if e.Fail? {
      return Fail(e.report);
    }
    r := lx.Take();
  }

  /** The instructions of a body, as long as the peeked symbol can start one. */
  method Instructions(lx: Lexer) returns (r: Result<seq<Symbol>>, ghost kids: seq<Node>)
    requires lx.Valid() && lx.Synced()
    modifies lx
    ensures lx.Valid() && lx.Synced()
    ensures r.Ok? ==> lx.Measure() <= old(lx.Measure())
    ensures r.Ok? ==> WFAll(kids) && r.value == FlattenAll(kids) && !IsInstruction(lx.peek)
    ensures r.Ok? ==> old(lx.pending) == Prefixed(TokensAll(kids), lx.pending)
    decreases lx.Measure(), 2
  {
    var symbols := [];
    kids := [];
    PrefixedNone(lx.pending);
    while IsInstruction(lx.peek)
      invariant lx.Valid() && lx.Synced() && lx.Measure() <= old(lx.Measure())
      invariant WFAll(kids) && symbols == FlattenAll(kids)
      invariant old(lx.pending) == Prefixed(TokensAll(kids), lx.pending)
      decreases lx.Measure()
    {
      var ins, m := Instruction(lx);
      if ins.Fail? {
        return Fail(ins.report), kids;
      }
      TokensAllSnoc(kids, m);
      PrefixedTwice(TokensAll(kids), Tokens(m), lx.pending);
      FlattenAllSnoc(kids, m);
      FlattenAllAppend(kids, [m]);
      assert WFAll([m]) by {
        assert [m][1..] == [];
      }
      symbols := symbols + ins.value;
      kids := kids + [m];
    }
    return Ok(symbols), kids;
  }

  /** quote: `{`, instructions, `}`; the END takes the text of the `}`. */
  method Quote(lx: Lexer) returns (r: Result<seq<Symbol>>, ghost n: Node)
    requires lx.Valid() && lx.Synced()
    modifies lx
    ensures lx.Valid() && lx.Synced()
    ensures r.Ok? ==> WF(n) && r.value == Flatten(n) && lx.Measure() < old(lx.Measure())
    ensures r.Ok? ==> n.Block? && n.open == old(lx.peek) && n.open.kind == Kind.Quote
                      && n.close == Symbol(End, "}")
    ensures r.Ok? ==> old(lx.pending) == Prefixed(Tokens(n), lx.pending)
    decreases lx.Measure(), 0
  {
    var e := lx.Expect(lx.peek.kind == Kind.Quote, ExpectQuote);
    if e.Fail? {
      return Fail(e.report), NoNode();
    }
    ghost var p0 := lx.pending;
    var open := lx.Take();
    if open.Fail? {
      return Fail(open.report), NoNode();
    }
    ghost var p1 := lx.pending;
    var body, kids := Instructions(lx);
    if body.Fail? {
      return Fail(body.report), NoNode();
    }
    e := lx.Expect(lx.peek.kind == Unquote, ExpectUnquote);
    if e.Fail? {
      return Fail(e.report), NoNode();
    }
    ghost var p2 := lx.pending;
    var unquote := lx.Take();
    if unquote.Fail? {
      return Fail(unquote.report), NoNode();
    }
    n := Block(open.value, kids, Symbol(End, unquote.value.text));
    BracketTokens(open.value, unquote.value, kids, p0, p1, p2, lx.pending);
    return Ok([open.value] + body.value + [Symbol(End, unquote.value.text)]), n;
  }

  /** let: LET, the bound identifier, then instructions for as long as they
      come; there is no closing token, and the END repeats the name. */
  method Let(lx: Lexer) returns (r: Result<seq<Symbol>>, ghost n: Node)
    requires lx.Valid() && lx.Synced()
    modifies lx
    ensures lx.Valid() && lx.Synced()
    ensures r.Ok? ==> WF(n) && r.value == Flatten(n) && lx.Measure() < old(lx.Measure())
    ensures r.Ok? ==> n.Block? && n.open.kind == Kind.Let && n.close == Symbol(End, n.open.text)
    ensures r.Ok? ==> !IsInstruction(lx.peek)
    ensures r.Ok? ==> old(lx.pending) == Prefixed(Tokens(n), lx.pending)
    decreases lx.Measure(), 0
  {
    var e := lx.Expect(lx.peek.kind == Kind.Let, ExpectLet);
    if e.Fail? {
      return Fail(e.report), NoNode();
    }
    ghost var p0 := lx.pending;
    var let := lx.Take();
    if let.Fail? {
      return Fail(let.report), NoNode();
    }
    e := lx.Expect(lx.peek.kind == Ident, ExpectIdent);
    if e.Fail? {
      return Fail(e.report), NoNode();
    }
    ghost var p1 := lx.pending;
    var ident := lx.Take();
    if ident.Fail? {
      return Fail(ident.report), NoNode();
    }
    ghost var p2 := lx.pending;
    var name := ident.value.text;
    var body, kids := Instructions(lx);
    if body.Fail? {
      return Fail(body.report), NoNode();
    }
    n := Block(Symbol(Kind.Let, name), kids, Symbol(End, name));
    TakenInTurn([let.value], [ident.value], TokensAll(kids), p0, p1, p2, lx.pending);
    LetTokens(let.value, ident.value, kids);
    return Ok([Symbol(Kind.Let, name)] + body.value + [Symbol(End, name)]), n;
  }

  /** workspace: `[`, instructions, `]`; the END takes the text of the `]`. */
  method Workspace(lx: Lexer) returns (r: Result<seq<Symbol>>, ghost n: Node)
    requires lx.Valid() && lx.Synced()
    modifies lx
    ensures lx.Valid() && lx.Synced()
    ensures r.Ok? ==> WF(n) && r.value == Flatten(n) && lx.Measure() < old(lx.Measure())
    ensures r.Ok? ==> n.Block? && n.open == old(lx.peek) && n.open.kind == Mark
                      && n.close == Symbol(End, "]")
    ensures r.Ok? ==> old(lx.pending) == Prefixed(Tokens(n), lx.pending)
    decreases lx.Measure(), 0
  {
    var e := lx.Expect(lx.peek.kind == Mark, ExpectMark);
    if e.Fail? {
      return Fail(e.report), NoNode();
    }
    ghost var p0 := lx.pending;
    var open := lx.Take();
    if open.Fail? {
      return Fail(open.report), NoNode();
    }
    ghost var p1 := lx.pending;
    var body, kids := Instructions(lx);
    if body.Fail? {
      return Fail(body.report), NoNode();
    }
    e := lx.Expect(lx.peek.kind == Unmark, ExpectUnmark);
    if e.Fail? {
      return Fail(e.report), NoNode();
    }
    ghost var p2 := lx.pending;
    var unmark := lx.Take();
    if unmark.Fail? {
      return Fail(unmark.report), NoNode();
    }
    n := Block(open.value, kids, Symbol(End, unmark.value.text));
    BracketTokens(open.value, unmark.value, kids, p0, p1, p2, lx.pending);
    return Ok([open.value] + body.value + [Symbol(End, unmark.value.text)]), n;
  }

  /** instruction: a literal, a let, a workspace, a quote, or any other
      instruction symbol taken on its own. */
  method Instruction(lx: Lexer) returns (r: Result<seq<Symbol>>, ghost n: Node)
    requires lx.Valid() && lx.Synced()
    modifies lx
    ensures lx.Valid() && lx.Synced()
    ensures r.Ok? ==> WF(n) && r.value == Flatten(n) && lx.Measure() < old(lx.Measure())
    ensures r.Ok? ==> IsInstruction(old(lx.peek))
    ensures r.Ok? ==> (n.Block? <==> old(lx.peek).kind in {Kind.Let, Mark, Kind.Quote})
    ensures r.Ok? && old(lx.peek).kind != Kind.Let ==> Flatten(n)[0] == old(lx.peek)
    ensures r.Ok? ==> old(lx.pending) == Prefixed(Tokens(n), lx.pending)
    ensures r.Fail? && !IsInstruction(old(lx.peek)) ==> r.report == Report(old(lx.peek).text, ExpectInstruction)
    decreases lx.Measure(), 1
  {
    var e := lx.Expect(IsInstruction(lx.peek), ExpectInstruction);
    if e.Fail? {
      return Fail(e.report), NoNode();
    }
    if lx.peek.kind == Int || lx.peek.kind == Str {
      var lit := Literal(lx);
      if lit.Fail? {
        return Fail(lit.report), NoNode();
      }
      assert Tokens(Leaf(lit.value)) == [lit.value];
      return Ok([lit.value]), Leaf(lit.value);
    } else if lx.peek.kind == Kind.Let {
      r, n := Let(lx);
    } else if lx.peek.kind == Mark {
      r, n := Workspace(lx);
    } else if lx.peek.kind == Kind.Quote {
      r, n := Quote(lx);
    } else {
      var sym := lx.Take();
      if sym.Fail? {
        return Fail(sym.report), NoNode();
      }
      assert Tokens(Leaf(sym.value)) == [sym.value];
      return Ok([sym.value]), Leaf(sym.value);
    }
  }

  /** function: instructions, then `::` and the name; the name opens the
      block as FN and closes it as END. */
  method Function(lx: Lexer) returns (r: Result<seq<Symbol>>, ghost n: Node)
    requires lx.Valid() && lx.Synced()
    modifies lx
    ensures lx.Valid() && lx.Synced()
    ensures r.Ok? ==> WF(n) && r.value == Flatten(n) && lx.Measure() < old(lx.Measure())
    ensures r.Ok? ==> n.Block? && n.open.kind == Fn && n.close == Symbol(End, n.open.text)
    ensures r.Ok? ==> old(lx.pending) == Prefixed(Tokens(n), lx.pending)
  {
    ghost var p0 := lx.pending;
    var body, kids := Instructions(lx);
    if body.Fail? {
      return Fail(body.report), NoNode();
    }
    var e := lx.Expect(lx.peek.kind == Fn, ExpectFn);
    if e.Fail? {
      return Fail(e.report), NoNode();
    }
    ghost var p1 := lx.pending;
    var fn := lx.Take();
    if fn.Fail? {
      return Fail(fn.report), NoNode();
    }
    e := lx.Expect(lx.peek.kind == Ident, ExpectIdent);
    if e.Fail? {
      return Fail(e.report), NoNode();
    }
    ghost var p2 := lx.pending;
    var ident := lx.Take();
    if ident.Fail? {
      return Fail(ident.report), NoNode();
    }
    var name := ident.value.text;
    n := Block(Symbol(Fn, name), kids, Symbol(End, name));
    TakenInTurn(TokensAll(kids), [fn.value], [ident.value], p0, p1, p2, lx.pending);
    FnTokens(fn.value, ident.value, kids);
    return Ok([Symbol(Fn, name)] + body.value + [Symbol(End, name)]), n;
  }

  /** Every node is a function definition. */
  ghost predicate AllFunctions(kids: seq<Node>)
  {
    forall k :: 0 <= k < |kids| ==> kids[k].Block? && kids[k].open.kind == Fn
  }

  /** program: functions until TERM, inside PROGRAM ... END; PROGRAM takes
      the text of the first symbol and END that of TERM. */
  method Program(lx: Lexer) returns (r: Result<seq<Symbol>>, ghost n: Node)
    requires lx.Valid() && lx.Synced()
    modifies lx
    ensures lx.Valid() && lx.Synced()
    ensures r.Ok? ==> WF(n) && r.value == Flatten(n) && IsProgramTape(r.value)
    ensures r.Ok? ==> n.Block? && n.open == Symbol(Kind.Program, old(lx.peek).text)
                      && n.close == Symbol(End, "") && AllFunctions(n.kids)
    ensures r.Ok? ==> lx.peek.kind == Term
    ensures r.Ok? ==> old(lx.pending) == Ok(TokensAll(n.kids))
  {
    var symbols := [Symbol(Kind.Program, lx.peek.text)];
    ghost var kids: seq<Node> := [];
    PrefixedNone(lx.pending);
    while lx.peek.kind != Term
      invariant lx.Valid() && lx.Synced() && WFAll(kids) && AllFunctions(kids)
      invariant symbols == [Symbol(Kind.Program, old(lx.peek).text)] + FlattenAll(kids)
      invariant old(lx.pending) == Prefixed(TokensAll(kids), lx.pending)
      decreases lx.Measure()
    {
      var f, m := Function(lx);
      if f.Fail? {
        return Fail(f.report), NoNode();
      }
      TokensAllSnoc(kids, m);
      PrefixedTwice(TokensAll(kids), Tokens(m), lx.pending);
      AddFunction(kids, m);
      AllFunctionsSnoc(kids, m);
      AddSymbols(Symbol(Kind.Program, old(lx.peek).text), kids, m);
      symbols := symbols + f.value;
      kids := kids + [m];
    }
    n := Block(symbols[0], kids, Symbol(End, lx.peek.text));
    ProgramDone(symbols, n);
    ghost var rest := Stream(lx.src, lx.sv.begin);
    assert lx.pending == Ok([]);
    assert TokensAll(kids) + [] == TokensAll(kids);
    return Ok(symbols + [Symbol(End, lx.peek.text)]), n;
  }

  /** One more function definition at the end of the program's body. */
  lemma AddFunction(kids: seq<Node>, m: Node)
    requires WFAll(kids) && WF(m)
    ensures WFAll(kids + [m])
  {
    FlattenAllAppend(kids, [m]);
    assert WFAll([m]) by {
      assert [m][1..] == [];
    }
  }

  lemma AddSymbols(p: Symbol, kids: seq<Node>, m: Node)
    ensures [p] + FlattenAll(kids) + Flatten(m) == [p] + FlattenAll(kids + [m])
  {
    FlattenAllSnoc(kids, m);
  }

  lemma AllFunctionsSnoc(kids: seq<Node>, m: Node)
    requires AllFunctions(kids) && m.Block? && m.open.kind == Fn
    ensures AllFunctions(kids + [m])
  {
    forall k | 0 <= k < |kids| + 1
      ensures (kids + [m])[k].Block? && (kids + [m])[k].open.kind == Fn
    {
      if k < |kids| {
        assert (kids + [m])[k] == kids[k];
      }
    }
  }

  /** The finished program node spells out a program tape. */
  lemma ProgramDone(symbols: seq<Symbol>, n: Node)
    requires n.Block? && WFAll(n.kids) && symbols == [n.open] + FlattenAll(n.kids)
    requires n.open.kind == Kind.Program && n.close.kind == End
    ensures WF(n) && symbols + [n.close] == Flatten(n) && IsProgramTape(Flatten(n))
  {
    TreeBalanced(n);
  }

  /** The driver's front end: prime the lexer with one `take`, then parse
      a program.  The functions parsed hold exactly the symbol stream of the
      source, so a source that does not lex does not parse. */
  method Parse(src: string) returns (r: Result<seq<Symbol>>, ghost n: Node)
    ensures r.Ok? ==> IsProgramTape(r.value) && r.value[|r.value| - 1] == Symbol(End, "")
    ensures r.Ok? ==> WF(n) && r.value == Flatten(n) && n.Block? && n.open.kind == Kind.Program
                      && AllFunctions(n.kids) && Stream(src, 0) == Ok(TokensAll(n.kids))
    ensures Stream(src, 0).Fail? ==> r.Fail?
  {
    var lx := new Lexer(src);
    var first := lx.Take();
    if first.Fail? {
      return Fail(first.report), NoNode();
    }
    ghost var rest := Stream(src, lx.sv.begin);
    assert lx.pending == Stream(src, 0);
    r, n := Program(lx);
  }
}
