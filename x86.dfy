/** The x86-64 back end of the rewritten compiler
    (cdeck/include/deck/passes/x86-64.hpp) and the tape walkers it runs on
    (`visitor`, `visit_block` and `pass` in cdeck/include/deck/deck.hpp).

    The back end reads the parser's flat tape once, keeping a table of
    defined names and a counter for quote labels, and prints NASM lines.
    The printed lines become a sequence the state carries; `fatal` becomes
    a `Fatal` result.

    `visit_block` as written hands back the position OF the `End` that
    closes a block, so the block's owner resumes there and, in a nested
    block, the rest of the outer block is walked after the outer block has
    been closed.  The `Emitter` class runs that walk as written.  `fixed`
    selects the walk that resumes past the `End`; `Flat`, a stack machine
    that emits every symbol in tape order, is the reference the fixed walk
    is proved to agree with. */
module X86 {
  import opened Deck

  /** X86Env plus what has been printed. */
  datatype Emit = Emit(symbols: set<string>, id: nat, lines: seq<string>)

  /** The words the back end implements itself. */
  const Primitives: set<string> := {"+", "-", "*", "/", "%", "?", ".", "pop", "dup", "#", "clear"}

  /** A fresh X86Env: the primitives defined, no quote numbered yet. */
  function Initial(): (e: Emit)
    ensures e.symbols == Primitives && e.id == 0 && e.lines == []
  {
    Emit(Primitives, 0, [])
  }

  /** Decimal digits of `n`, as `println` writes a number. */
  function NatStr(n: nat): (s: string)
    ensures |s| >= 1 && (n < 10 <==> |s| == 1)
    ensures forall k :: 0 <= k < |s| ==> '0' <= s[k] <= '9'
    ensures s[|s| - 1] == Digit(n % 10)
  {
    if n < 10 then [Digit(n)] else NatStr(n / 10) + [Digit(n % 10)]
  }

  function Digit(d: nat): (c: char)
    requires d < 10
    ensures '0' <= c <= '9' && c as int - '0' as int == d
  {
    ('0' as int + d) as char
  }

  /** Different numbers print differently, so quote labels never clash. */
  lemma {:induction false} NatStrInjective(a: nat, b: nat)
    requires NatStr(a) == NatStr(b)
    ensures a == b
    decreases a
  {
    var s := NatStr(a);
    assert Digit(a % 10) == Digit(b % 10);
    if a >= 10 {
      assert NatStr(a / 10) == s[..|s| - 1] == NatStr(b / 10);
      NatStrInjective(a / 10, b / 10);
    }
  }

  function QuoteLabel(q: nat): string
  {
    "__quote_" + NatStr(q)
  }

  function QuoteEndLabel(q: nat): string
  {
    "__quote_end_" + NatStr(q)
  }

  /** Two quotes with different numbers get different labels. */
  lemma QuoteLabelsDistinct(a: nat, b: nat)
    requires a != b
    ensures QuoteLabel(a) != QuoteLabel(b) && QuoteEndLabel(a) != QuoteEndLabel(b)
  {
    if NatStr(a) == NatStr(b) {
      NatStrInjective(a, b);
      assert false;
    }
    assert QuoteLabel(a)[8..] == NatStr(a) && QuoteLabel(b)[8..] == NatStr(b);
    assert QuoteEndLabel(a)[12..] == NatStr(a) && QuoteEndLabel(b)[12..] == NatStr(b);
  }

  /** x86_64_primitive: the code for a defined word; anything that is not
      a primitive is called. */
  function PrimitiveLines(name: string): (r: seq<string>)
    ensures 1 <= |r| <= 4
    ensures name !in Primitives <==> r == ["  call " + name]
  {
    if name == "+" then ["  pop rbx", "  add rax, rbx"]
    else if name == "-" then ["  pop rbx", "  sub rax, rbx"]
    else if name == "*" then ["  pop rbx", "  imul rax, rbx"]
    else if name == "/" then ["  pop rbx", "  div rbx"]
    else if name == "%" then ["  pop rbx", "  div rbx", "  mov rax, rdx"]
    else if name == "?" then ["  pop rbx", "  pop rcx", "  cmp rcx, 1", "  cmove rax, rbx"]
    else if name == "." then ["  mov rbx, rax", "  pop rax", "  jmp rbx"]
    else if name == "pop" then ["  pop rax"]
    else if name == "dup" then
      assert ("  call " + name)[2] == 'c';
      ["  push rax"]
    else if name == "#" then ["  push rax", "  mov rax, rbp", "  sub rbx, rsp", "  shr rax, 3"]
    else if name == "clear" then ["  mov rsp, rbp"]
    else ["  call " + name]
  }

  const HeaderLines: seq<string> := ["section .text", "global _start", "_start:", "  mov rax, 0"]
  const FramePrologue: seq<string> := ["  push rax", "  mov rax, rbp", "  mov rbp, rsp"]
  const FrameEpilogue: seq<string> := ["  mov rbp, rax", "  pop rax"]

  function QuotePrologue(q: nat): seq<string>
  {
    ["  jmp " + QuoteEndLabel(q), QuoteLabel(q) + ":"]
  }

  function QuoteEpilogue(q: nat): seq<string>
  {
    [QuoteEndLabel(q) + ":", "  push rax", "  mov rax, " + QuoteLabel(q)]
  }

  function NotDefined(name: string): string
  {
    "`" + name + "` is not defined"
  }

  function DeclaredAlready(name: string): string
  {
    "`" + name + "` is declared already"
  }

  /** A message about a name: used before it is defined, or defined twice. */
  ghost predicate NameError(msg: string)
  {
    exists name :: msg == NotDefined(name) || msg == DeclaredAlready(name)
  }

  /** x86_64_impl for every kind but frames and quotes. */
  function LeafStep(s: Symbol, e: Emit): (r: Res<Emit>)
    ensures r.Fatal? ==> NameError(r.msg)
    ensures r.Ok? ==> (r.value.id == e.id && e.symbols <= r.value.symbols
                       && |e.lines| <= |r.value.lines| && r.value.lines[..|e.lines|] == e.lines)
    ensures r.Fatal? <==> (s.kind in {Identifier, Address} && s.str !in e.symbols)
                          || (s.kind in {Declare, Label} && s.str in e.symbols)
  {
    match s.kind
    case Header => Ok(e.(lines := e.lines + HeaderLines))
    case Integer => Ok(e.(lines := e.lines + ["  push rax", "  mov rax, " + s.str]))
    case Identifier =>
      if s.str !in e.symbols then Fatal(NotDefined(s.str))
      else Ok(e.(lines := e.lines + PrimitiveLines(s.str)))
    case Declare =>
      if s.str in e.symbols then Fatal(DeclaredAlready(s.str))
      else Ok(e.(symbols := e.symbols + {s.str}))
    case Label =>
      if s.str in e.symbols then Fatal(DeclaredAlready(s.str))
      else Ok(Emit(e.symbols + {s.str}, e.id, e.lines + [s.str + ":"]))
    case Address =>
      if s.str !in e.symbols then Fatal(NotDefined(s.str))
      else Ok(e.(lines := e.lines + ["  push rax", "  mov rax, " + s.str]))
    // Footer, String, Character and End print nothing; the rest is only logged
    case _ => Ok(e)
  }

  /** `visitor` with x86_64_impl at `i`: the symbol there, and for a frame
      or a quote its whole block; the position after what was visited. */
  function ItemAt(tape: seq<Symbol>, i: nat, e: Emit, fixed: bool): (r: Res<(Emit, nat)>)
    requires i < |tape|
    ensures r.Ok? ==> i < r.value.1 <= |tape|
    decreases |tape| - i, 0
  {
    var s := tape[i];
    if s.kind == Frame then
      var b := BlockAt(tape, i + 1, e.(lines := e.lines + FramePrologue), fixed);
      if b.Fatal? then Fatal(b.msg)
      else Ok((b.value.0.(lines := b.value.0.lines + FrameEpilogue), b.value.1))
    else if s.kind == Quote then
      var b := BlockAt(tape, i + 1, Emit(e.symbols, e.id + 1, e.lines + QuotePrologue(e.id)), fixed);
      if b.Fatal? then Fatal(b.msg)
      else Ok((b.value.0.(lines := b.value.0.lines + QuoteEpilogue(e.id)), b.value.1))
    else
      var l := LeafStep(s, e);
      if l.Fatal? then Fatal(l.msg) else Ok((l.value, i + 1))
  }

  /** visit_block from `i`: items up to the closing `End`, which must be
      there.  As written the result is the position of that `End`; fixed,
      the position after it. */
  function BlockAt(tape: seq<Symbol>, i: nat, e: Emit, fixed: bool): (r: Res<(Emit, nat)>)
    requires i <= |tape|
    ensures r.Ok? && fixed ==> i < r.value.1 <= |tape| && tape[r.value.1 - 1].kind == End
    ensures r.Ok? && !fixed ==> i <= r.value.1 < |tape| && tape[r.value.1].kind == End
    decreases |tape| - i, 1
  {
    if i == |tape| || tape[i].kind in {End, Terminator} then
      if i < |tape| && tape[i].kind == End then Ok((e, if fixed then i + 1 else i))
      else Fatal("invalid tree")
    else
      var v := ItemAt(tape, i, e, fixed);
      if v.Fatal? then Fatal(v.msg) else BlockAt(tape, v.value.1, v.value.0, fixed)
  }

  /** pass from `i`: top-level items up to the end of the tape or a
      terminator. */
  function PassAt(tape: seq<Symbol>, i: nat, e: Emit, fixed: bool): (r: Res<Emit>)
    requires i <= |tape|
    decreases |tape| - i
  {
    if i == |tape| || tape[i].kind == Terminator then Ok(e)
    else
      var v := ItemAt(tape, i, e, fixed);
      if v.Fatal? then Fatal(v.msg) else PassAt(tape, v.value.1, v.value.0, fixed)
  }

  /** x86_64 on a tape, with `visit_block` fixed. */
  function Emission(tape: seq<Symbol>): Res<Emit>
  {
    PassAt(tape, 0, Initial(), true)
  }

  /** x86_64 on a tape as written. */
  function EmissionAsWritten(tape: seq<Symbol>): Res<Emit>
  {
    PassAt(tape, 0, Initial(), false)
  }

  /** What an `End` closes. */
  datatype Open = FrameOpen | QuoteOpen(q: nat)

  function Closing(o: Open): seq<string>
  {
    match o
    case FrameOpen => FrameEpilogue
    case QuoteOpen(q) => QuoteEpilogue(q)
  }

  /** The reference reading of a tape: every symbol in order, an opener
      pushing what it opens and printing its prologue, an `End` popping
      and printing the matching epilogue. */
  function Flat(tape: seq<Symbol>, i: nat, stack: seq<Open>, e: Emit): Res<(Emit, seq<Open>)>
    requires i <= |tape|
    decreases |tape| - i
  {
    if i == |tape| || tape[i].kind == Terminator then Ok((e, stack))
    else if tape[i].kind == Frame then
      Flat(tape, i + 1, stack + [FrameOpen], e.(lines := e.lines + FramePrologue))
    else if tape[i].kind == Quote then
      Flat(tape, i + 1, stack + [QuoteOpen(e.id)], Emit(e.symbols, e.id + 1, e.lines + QuotePrologue(e.id)))
    else if tape[i].kind == End && stack != [] then
      Flat(tape, i + 1, stack[..|stack| - 1], e.(lines := e.lines + Closing(stack[|stack| - 1])))
    else
      var l := LeafStep(tape[i], e);
      if l.Fatal? then Fatal(l.msg) else Flat(tape, i + 1, stack, l.value)
  }

  /** Fixed, visiting one item reads it the way the reference does. */
  lemma {:induction false} ItemFlat(tape: seq<Symbol>, i: nat, stack: seq<Open>, e: Emit)
    requires i < |tape| && ItemAt(tape, i, e, true).Ok?
    requires tape[i].kind != Terminator && (tape[i].kind == End ==> stack == [])
    ensures Flat(tape, i, stack, e) == Flat(tape, ItemAt(tape, i, e, true).value.1, stack, ItemAt(tape, i, e, true).value.0)
    decreases |tape| - i, 1
  {
    var s := tape[i];
    if s.kind == Frame {
      FrameFlat(tape, i, stack, e);
    } else if s.kind == Quote {
      QuoteFlat(tape, i, stack, e);
    }
  }

  /** A frame at `i`: the reference reads its block, then pops the frame at
      the block's `End`. */
  lemma {:induction false} FrameFlat(tape: seq<Symbol>, i: nat, stack: seq<Open>, e: Emit)
    requires i < |tape| && tape[i].kind == Frame
    requires BlockAt(tape, i + 1, e.(lines := e.lines + FramePrologue), true).Ok?
    ensures var b := BlockAt(tape, i + 1, e.(lines := e.lines + FramePrologue), true);
      Flat(tape, i, stack, e) == Flat(tape, b.value.1, stack, b.value.0.(lines := b.value.0.lines + FrameEpilogue))
    decreases |tape| - i, 0
  {
    var e1 := e.(lines := e.lines + FramePrologue);
    var b := BlockAt(tape, i + 1, e1, true);
    assert Flat(tape, i, stack, e) == Flat(tape, i + 1, stack + [FrameOpen], e1);
    BlockFlat(tape, i + 1, stack + [FrameOpen], e1);
    CloseFlat(tape, b.value.1 - 1, stack, FrameOpen, b.value.0);
  }

  /** A quote at `i`: the same, with the quote's number taken. */
  lemma {:induction false} QuoteFlat(tape: seq<Symbol>, i: nat, stack: seq<Open>, e: Emit)
    requires i < |tape| && tape[i].kind == Quote
    requires BlockAt(tape, i + 1, Emit(e.symbols, e.id + 1, e.lines + QuotePrologue(e.id)), true).Ok?
    ensures var b := BlockAt(tape, i + 1, Emit(e.symbols, e.id + 1, e.lines + QuotePrologue(e.id)), true);
      Flat(tape, i, stack, e) == Flat(tape, b.value.1, stack, b.value.0.(lines := b.value.0.lines + QuoteEpilogue(e.id)))
    decreases |tape| - i, 0
  {
    var e1 := Emit(e.symbols, e.id + 1, e.lines + QuotePrologue(e.id));
    var b := BlockAt(tape, i + 1, e1, true);
    assert Flat(tape, i, stack, e) == Flat(tape, i + 1, stack + [QuoteOpen(e.id)], e1);
    BlockFlat(tape, i + 1, stack + [QuoteOpen(e.id)], e1);
    CloseFlat(tape, b.value.1 - 1, stack, QuoteOpen(e.id), b.value.0);
  }

  /** The reference at the `End` of a block pops what the block opened. */
  lemma CloseFlat(tape: seq<Symbol>, j: nat, stack: seq<Open>, o: Open, e: Emit)
    requires j < |tape|
    ensures tape[j].kind == End ==> Flat(tape, j, stack + [o], e) == Flat(tape, j + 1, stack, e.(lines := e.lines + Closing(o)))
  {
    assert (stack + [o])[..|stack + [o]| - 1] == stack;
  }

  /** Fixed, a block's items read the way the reference does, up to its
      `End`. */
  lemma {:induction false} BlockFlat(tape: seq<Symbol>, i: nat, stack: seq<Open>, e: Emit)
    requires i <= |tape| && BlockAt(tape, i, e, true).Ok?
    ensures Flat(tape, i, stack, e) == Flat(tape, BlockAt(tape, i, e, true).value.1 - 1, stack, BlockAt(tape, i, e, true).value.0)
    decreases |tape| - i, 2
  {
    if !(i == |tape| || tape[i].kind in {End, Terminator}) {
      var v := ItemAt(tape, i, e, true);
      assert BlockAt(tape, i, e, true) == BlockAt(tape, v.value.1, v.value.0, true);
      ItemFlat(tape, i, stack, e);
      BlockFlat(tape, v.value.1, stack, v.value.0);
    }
  }

  /** A successful fixed emission is exactly the reference reading, which
      ends with every block closed. */
  lemma {:induction false} PassFlat(tape: seq<Symbol>, i: nat, e: Emit)
    requires i <= |tape| && PassAt(tape, i, e, true).Ok?
    ensures Flat(tape, i, [], e) == Ok((PassAt(tape, i, e, true).value, []))
    decreases |tape| - i
  {
    if !(i == |tape| || tape[i].kind == Terminator) {
      var v := ItemAt(tape, i, e, true);
      ItemFlat(tape, i, [], e);
      PassFlat(tape, v.value.1, v.value.0);
    }
  }

  lemma EmissionIsFlat(tape: seq<Symbol>)
    requires Emission(tape).Ok?
    ensures Flat(tape, 0, [], Initial()) == Ok((Emission(tape).value, []))
  {
    PassFlat(tape, 0, Initial());
  }

  /** How many quotes a tape opens from `i` on. */
  function QuotesFrom(tape: seq<Symbol>, i: nat): nat
    requires i <= |tape|
    decreases |tape| - i
  {
    if i == |tape| || tape[i].kind == Terminator then 0
    else (if tape[i].kind == Quote then 1 else 0) + QuotesFrom(tape, i + 1)
  }

  /** The reference numbers quotes one after another. */
  lemma {:induction false} FlatIds(tape: seq<Symbol>, i: nat, stack: seq<Open>, e: Emit)
    requires i <= |tape| && Flat(tape, i, stack, e).Ok?
    ensures Flat(tape, i, stack, e).value.0.id == e.id + QuotesFrom(tape, i)
    decreases |tape| - i
  {
    if !(i == |tape| || tape[i].kind == Terminator) {
      if tape[i].kind == Frame {
        FlatIds(tape, i + 1, stack + [FrameOpen], e.(lines := e.lines + FramePrologue));
      } else if tape[i].kind == Quote {
        FlatIds(tape, i + 1, stack + [QuoteOpen(e.id)], Emit(e.symbols, e.id + 1, e.lines + QuotePrologue(e.id)));
      } else if tape[i].kind == End && stack != [] {
        FlatIds(tape, i + 1, stack[..|stack| - 1], e.(lines := e.lines + Closing(stack[|stack| - 1])));
      } else {
        FlatIds(tape, i + 1, stack, LeafStep(tape[i], e).value);
      }
    }
  }

  /** After a successful emission every quote of the tape has had its own
      number, 0 up to the count of quotes. */
  lemma EmissionIds(tape: seq<Symbol>)
    requires Emission(tape).Ok?
    ensures Emission(tape).value.id == QuotesFrom(tape, 0)
  {
    EmissionIsFlat(tape);
    FlatIds(tape, 0, [], Initial());
  }

  /** Neither a leaf nor a block of a parsed tree starts with `End` or the
      terminator. */
  lemma FirstOfNode(n: Node)
    requires WellFormed(n)
    ensures |Flatten(n)| >= 1 && Flatten(n)[0].kind !in {End, Terminator}
  {
  }

  lemma SliceSplit(tape: seq<Symbol>, i: nat, a: seq<Symbol>, b: seq<Symbol>)
    requires i + |a + b| <= |tape| && tape[i..i + |a + b|] == a + b
    ensures tape[i..i + |a|] == a && tape[i + |a|..i + |a| + |b|] == b
  {
    assert tape[i..i + |a|] == (a + b)[..|a|];
    assert tape[i + |a|..i + |a| + |b|] == (a + b)[|a|..];
  }

  /** A walk that stops only on a name error. */
  ghost predicate Good<T>(r: Res<T>)
  {
    r.Ok? || NameError(r.msg)
  }

  /** Fixed, the walk over a parsed node visits exactly that node. */
  lemma {:induction false} NodeWalk(tape: seq<Symbol>, i: nat, n: Node, e: Emit)
    requires WellFormed(n) && i + |Flatten(n)| <= |tape| && tape[i..i + |Flatten(n)|] == Flatten(n)
    ensures i < |tape|
    ensures Good(ItemAt(tape, i, e, true))
    ensures ItemAt(tape, i, e, true).Ok? ==> ItemAt(tape, i, e, true).value.1 == i + |Flatten(n)|
    decreases n, 1
  {
    FirstOfNode(n);
    assert tape[i] == Flatten(n)[0];
    if n.Block? {
      var e1 := if n.open.kind == Frame then e.(lines := e.lines + FramePrologue)
                else Emit(e.symbols, e.id + 1, e.lines + QuotePrologue(e.id));
      var body := FlattenAll(n.body);
      assert Flatten(n) == [n.open] + body + [n.close];
      SliceSplit(tape, i, [n.open] + body, [n.close]);
      SliceSplit(tape, i, [n.open], body);
      NodesWalk(tape, i + 1, n.body, e1);
    }
  }

  /** Fixed, the walk over the parsed body of a block stops just past its
      `End`. */
  lemma {:induction false} NodesWalk(tape: seq<Symbol>, i: nat, ns: seq<Node>, e: Emit)
    requires forall k :: 0 <= k < |ns| ==> WellFormed(ns[k])
    requires i + |FlattenAll(ns)| < |tape| && tape[i..i + |FlattenAll(ns)|] == FlattenAll(ns)
    requires tape[i + |FlattenAll(ns)|].kind == End
    ensures Good(BlockAt(tape, i, e, true))
    ensures BlockAt(tape, i, e, true).Ok? ==> BlockAt(tape, i, e, true).value.1 == i + |FlattenAll(ns)| + 1
    decreases ns, 0
  {
    if ns != [] {
      SliceSplit(tape, i, Flatten(ns[0]), FlattenAll(ns[1..]));
      NodeWalk(tape, i, ns[0], e);
      FirstOfNode(ns[0]);
      var v := ItemAt(tape, i, e, true);
      if v.Ok? {
        NodesWalk(tape, v.value.1, ns[1..], v.value.0);
      }
    }
  }

  /** Fixed, `pass` over parsed nodes fails only on a name error, or as the
      rest of the tape does. */
  lemma {:induction false} PassNodes(tape: seq<Symbol>, i: nat, ns: seq<Node>, e: Emit, stop: nat)
    requires forall k :: 0 <= k < |ns| ==> WellFormed(ns[k])
    requires stop == i + |FlattenAll(ns)| <= |tape| && tape[i..stop] == FlattenAll(ns)
    requires forall e' :: Good(PassAt(tape, stop, e', true))
    ensures Good(PassAt(tape, i, e, true))
    decreases ns
  {
    if ns != [] {
      SliceSplit(tape, i, Flatten(ns[0]), FlattenAll(ns[1..]));
      NodeWalk(tape, i, ns[0], e);
      FirstOfNode(ns[0]);
      var v := ItemAt(tape, i, e, true);
      if v.Ok? {
        PassNodes(tape, v.value.1, ns[1..], v.value.0, stop);
      }
    }
  }

  /** On what the parser produces, the fixed emission never finds an
      invalid tree: it stops only on a name used before it is defined or
      defined twice. */
  lemma ParsedEmits(h: string, body: seq<Node>)
    requires AllWellFormed(body)
    ensures Good(Emission([Symbol(h, Header)] + FlattenAll(body) + [Symbol("", Footer)]))
  {
    var t := [Symbol(h, Header)] + FlattenAll(body) + [Symbol("", Footer)];
    var f := 1 + |FlattenAll(body)|;
    assert t[1..f] == FlattenAll(body);
    forall e' ensures Good(PassAt(t, f, e', true)) {
      assert t[f] == Symbol("", Footer);
    }
    PassNodes(t, 1, body, LeafStep(t[0], Initial()).value, f);
  }

  function PushLines(v: string): seq<string>
  {
    ["  push rax", "  mov rax, " + v]
  }

  /** The tape of `[ [ 1 ] 2 ]`: a frame holding a frame and then `2`. */
  const Nested: seq<Symbol> := [Symbol("[", Header), Symbol("[", Frame), Symbol("[", Frame), Symbol("1", Integer),
                                Symbol("]", End), Symbol("2", Integer), Symbol("]", End), Symbol("", Footer)]

  /** It is what the parser makes of `[ [ 1 ] 2 ]`. */
  lemma NestedIsParsed()
    ensures var inner := Block(Symbol("[", Frame), [Leaf(Symbol("1", Integer))], Symbol("]", End));
      var outer := Block(Symbol("[", Frame), [inner, Leaf(Symbol("2", Integer))], Symbol("]", End));
      AllWellFormed([outer]) && Nested == [Symbol("[", Header)] + FlattenAll([outer]) + [Symbol("", Footer)]
  {
    var one := Leaf(Symbol("1", Integer));
    var two := Leaf(Symbol("2", Integer));
    var inner := Block(Symbol("[", Frame), [one], Symbol("]", End));
    var outer := Block(Symbol("[", Frame), [inner, two], Symbol("]", End));
    assert FlattenAll([one]) == [Symbol("1", Integer)];
    assert FlattenAll([two]) == [Symbol("2", Integer)];
    assert FlattenAll([inner, two]) == Flatten(inner) + FlattenAll([two]);
    assert FlattenAll([outer]) == Flatten(outer);
  }

  /** As written, `2` is emitted after the outer frame has been closed. */
  lemma NestedAsWritten()
    ensures EmissionAsWritten(Nested).Ok?
    ensures EmissionAsWritten(Nested).value.lines
            == HeaderLines + FramePrologue + FramePrologue + PushLines("1") + FrameEpilogue + FrameEpilogue + PushLines("2")
  {
    var t := Nested;
    var e1 := Initial().(lines := HeaderLines);
    assert ItemAt(t, 0, Initial(), false) == Ok((e1, 1));
    var e2 := e1.(lines := e1.lines + FramePrologue);
    var e3 := e2.(lines := e2.lines + FramePrologue);
    var e4 := e3.(lines := e3.lines + PushLines("1"));
    assert ItemAt(t, 3, e3, false) == Ok((e4, 4));
    assert BlockAt(t, 4, e4, false) == Ok((e4, 4));
    assert BlockAt(t, 3, e3, false) == Ok((e4, 4));
    var e5 := e4.(lines := e4.lines + FrameEpilogue);
    assert ItemAt(t, 2, e2, false) == Ok((e5, 4));
    assert BlockAt(t, 2, e2, false) == Ok((e5, 4));
    var e6 := e5.(lines := e5.lines + FrameEpilogue);
    assert ItemAt(t, 1, e1, false) == Ok((e6, 4));
    var e7 := e6.(lines := e6.lines + PushLines("2"));
    assert PassAt(t, 8, e7, false) == Ok(e7);
    assert PassAt(t, 7, e7, false) == Ok(e7);
    assert PassAt(t, 6, e7, false) == Ok(e7);
    assert PassAt(t, 5, e6, false) == Ok(e7);
    assert PassAt(t, 4, e6, false) == Ok(e7);
    assert PassAt(t, 1, e1, false) == Ok(e7);
  }

  /** Fixed, `2` is emitted inside the outer frame. */
  lemma NestedFixed()
    ensures Emission(Nested).Ok?
    ensures Emission(Nested).value.lines
            == HeaderLines + FramePrologue + FramePrologue + PushLines("1") + FrameEpilogue + PushLines("2") + FrameEpilogue
  {
    var t := Nested;
    var e1 := Initial().(lines := HeaderLines);
    assert ItemAt(t, 0, Initial(), true) == Ok((e1, 1));
    var e2 := e1.(lines := e1.lines + FramePrologue);
    var e3 := e2.(lines := e2.lines + FramePrologue);
    var e4 := e3.(lines := e3.lines + PushLines("1"));
    assert ItemAt(t, 3, e3, true) == Ok((e4, 4));
    assert BlockAt(t, 4, e4, true) == Ok((e4, 5));
    assert BlockAt(t, 3, e3, true) == Ok((e4, 5));
    var e5 := e4.(lines := e4.lines + FrameEpilogue);
    assert ItemAt(t, 2, e2, true) == Ok((e5, 5));
    var e6 := e5.(lines := e5.lines + PushLines("2"));
    assert ItemAt(t, 5, e5, true) == Ok((e6, 6));
    assert BlockAt(t, 6, e6, true) == Ok((e6, 7));
    assert BlockAt(t, 5, e5, true) == Ok((e6, 7));
    assert BlockAt(t, 2, e2, true) == Ok((e6, 7));
    var e7 := e6.(lines := e6.lines + FrameEpilogue);
    assert ItemAt(t, 1, e1, true) == Ok((e7, 7));
    assert PassAt(t, 8, e7, true) == Ok(e7);
    assert PassAt(t, 7, e7, true) == Ok(e7);
    assert PassAt(t, 1, e1, true) == Ok(e7);
  }

  /** A method's result and state after visiting, against the walk that
      specifies it. */
  predicate Mirrors(r: Res<nat>, e: Emit, spec: Res<(Emit, nat)>)
  {
    if spec.Ok? then r == Ok(spec.value.1) && e == spec.value.0 else r == Fatal(spec.msg)
  }

  /** X86Env, with the lines printed so far. */
  class Emitter {
    var symbols: set<string>
    var id: nat
    var lines: seq<string>

    function State(): Emit
      reads this
    {
      Emit(symbols, id, lines)
    }

    constructor()
      ensures State() == Initial()
    {
      symbols := Primitives;
      id := 0;
      lines := [];
    }

    /** x86_64_primitive */
    method Primitive(name: string)
      modifies this`lines
      ensures lines == old(lines) + PrimitiveLines(name)
    {
      if name == "+" {
        lines := lines + ["  pop rbx", "  add rax, rbx"];
      } else if name == "-" {
        lines := lines + ["  pop rbx", "  sub rax, rbx"];
      } else if name == "*" {
        lines := lines + ["  pop rbx", "  imul rax, rbx"];
      } else if name == "/" {
        lines := lines + ["  pop rbx", "  div rbx"];
      } else if name == "%" {
        lines := lines + ["  pop rbx", "  div rbx", "  mov rax, rdx"];
      } else if name == "?" {
        lines := lines + ["  pop rbx", "  pop rcx", "  cmp rcx, 1", "  cmove rax, rbx"];
      } else if name == "." {
        lines := lines + ["  mov rbx, rax", "  pop rax", "  jmp rbx"];
      } else if name == "pop" {
        lines := lines + ["  pop rax"];
      } else if name == "dup" {
        lines := lines + ["  push rax"];
      } else if name == "#" {
        lines := lines + ["  push rax", "  mov rax, rbp", "  sub rbx, rsp", "  shr rax, 3"];
      } else if name == "clear" {
        lines := lines + ["  mov rsp, rbp"];
      } else {
        lines := lines + ["  call " + name];
      }
    }

    /** x86_64_impl on the symbol at `current`; the position the walk
        resumes at. */
    method Impl(tape: seq<Symbol>, current: nat) returns (r: Res<nat>)
      requires current < |tape|
      modifies this
      ensures Mirrors(r, State(), ItemAt(tape, current, old(State()), false))
      decreases |tape| - current, 0
    {
      var s := tape[current];
      var it := current + 1;
      match s.kind {
        case Header =>
          lines := lines + HeaderLines;
        case Integer =>
          lines := lines + ["  push rax", "  mov rax, " + s.str];
        case Identifier =>
          if s.str !in symbols {
            return Fatal(NotDefined(s.str));
          }
          Primitive(s.str);
        case Declare =>
          if s.str in symbols {
            return Fatal(DeclaredAlready(s.str));
          }
          symbols := symbols + {s.str};
        case Label =>
          if s.str in symbols {
            return Fatal(DeclaredAlready(s.str));
          }
          symbols := symbols + {s.str};
          lines := lines + [s.str + ":"];
        case Address =>
          if s.str !in symbols {
            return Fatal(NotDefined(s.str));
          }
          lines := lines + ["  push rax", "  mov rax, " + s.str];
        case Quote =>
          var q := id;
          id := id + 1;
          lines := lines + QuotePrologue(q);
          var b := VisitBlock(tape, it);
          if b.Fatal? {
            return b;
          }
          it := b.value;
          lines := lines + QuoteEpilogue(q);
        case Frame =>
          lines := lines + FramePrologue;
          var b := VisitBlock(tape, it);
          if b.Fatal? {
            return b;
          }
          it := b.value;
          lines := lines + FrameEpilogue;
        case _ =>
      }
      return Ok(it);
    }

    /** visitor: at the end of the tape nothing is visited. */
    method Visitor(tape: seq<Symbol>, it: nat) returns (r: Res<nat>)
      requires it <= |tape|
      modifies this
      ensures it == |tape| ==> r == Ok(it) && State() == old(State())
      ensures it < |tape| ==> Mirrors(r, State(), ItemAt(tape, it, old(State()), false))
      decreases |tape| - it, 1
    {
      if it == |tape| {
        return Ok(it);
      }
      r := Impl(tape, it);
    }

    /** visit_block: the position of the closing `End`, where the frame or
        quote that called it resumes. */
    method VisitBlock(tape: seq<Symbol>, start: nat) returns (r: Res<nat>)
      requires start <= |tape|
      modifies this
      ensures Mirrors(r, State(), BlockAt(tape, start, old(State()), false))
      decreases |tape| - start, 2
    {
      var it := start;
      while it != |tape| && tape[it].kind != End && tape[it].kind != Terminator
        invariant start <= it <= |tape|
        invariant BlockAt(tape, start, old(State()), false) == BlockAt(tape, it, State(), false)
        decreases |tape| - it
      {
        var v := Visitor(tape, it);
        if v.Fatal? {
          return v;
        }
        it := v.value;
      }
      if it == |tape| || tape[it].kind != End {
        return Fatal("invalid tree");
      }
      return Ok(it);
    }

    /** pass: top-level items until the end of the tape or a terminator. */
    method Pass(tape: seq<Symbol>) returns (r: Res<nat>)
      modifies this
      ensures PassAt(tape, 0, old(State()), false).Fatal? ==> r == Fatal(PassAt(tape, 0, old(State()), false).msg)
      ensures PassAt(tape, 0, old(State()), false).Ok? ==> r.Ok? && State() == PassAt(tape, 0, old(State()), false).value
      ensures r.Ok? ==> r.value <= |tape| && (r.value == |tape| || tape[r.value].kind == Terminator)
    {
      var it := 0;
      while it != |tape| && tape[it].kind != Terminator
        invariant it <= |tape|
        invariant PassAt(tape, 0, old(State()), false) == PassAt(tape, it, State(), false)
        decreases |tape| - it
      {
        var v := Visitor(tape, it);
        if v.Fatal? {
          return v;
        }
        it := v.value;
      }
      return Ok(it);
    }
  }

  /** x86_64: a pass with a fresh environment; the tape comes back as it
      was, with the lines printed.  This is the code as written, so a
      nested block closes its enclosing block early (NestedAsWritten);
      `Emission` is the corrected walk. */
  method EmitX86(tape: seq<Symbol>) returns (out: seq<Symbol>, r: Res<seq<string>>)
    ensures out == tape
    ensures EmissionAsWritten(tape).Ok? ==> r == Ok(EmissionAsWritten(tape).value.lines)
    ensures EmissionAsWritten(tape).Fatal? ==> r == Fatal(EmissionAsWritten(tape).msg)
  {
    var env := new Emitter();
    var p := env.Pass(tape);
    if p.Fatal? {
      return tape, Fatal(p.msg);
    }
    return tape, Ok(env.lines);
  }
}
