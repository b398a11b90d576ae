/** The rewritten front end of cdeck/include/deck/deck.hpp: a lexer with
    one symbol of lookahead over a NUL-terminated source, a recursive-descent
    parser that turns `[ ... ]` frames and `{ ... }` quotes into an opener,
    a body and an `End`, and the tape walkers the emitter runs on.

    The lexer's pointer becomes an index into `src`; reading at `|src|` gives
    the terminating NUL.  `ScanAsWritten` states what one call of `take`
    lexes, with a string's closing quote left unread as the code has it;
    `Scan` is the same scan with that quote passed, the evidently intended
    behaviour (see StringNotClosed and StringResumes).  `Stream` is the whole
    symbol stream of a source; the parser's output is the flattening of a
    ghost tree (`Node`) whose symbols, in order, are that stream.  A `fatal`
    call becomes a `Fatal` result carrying its message. */
module Deck {
  import Symbols
  import Views
  import CdcLexer

  datatype SymbolKind =
    | None | Terminator
    | Intrinsic | Declare | Address | Label
    | Identifier | Integer | String | Character
    | Frame | FrameEnd
    | Quote | QuoteEnd
    | Header | Footer
    | End

  datatype Symbol = Symbol(str: string, kind: SymbolKind)

  /** The outcome of code that may call `fatal`. */
  datatype Res<+T> = Ok(value: T) | Fatal(msg: string)

  /** The kind a `$word` intrinsic takes, or `fatal`. */
  function Retag(word: string): (r: Res<SymbolKind>)
    ensures r.Ok? <==> word in {"decl", "def", "addr"}
  {
    if word == "decl" then Ok(Declare)
    else if word == "def" then Ok(Label)
    else if word == "addr" then Ok(Address)
    else Fatal("unknown intrinsic")
  }

  /** What the lexer can hand out: never `None`, an unretagged `Intrinsic`
      or a kind only the parser makes, and brackets carry their own text. */
  predicate Lexable(s: Symbol)
  {
    s.kind !in {None, Intrinsic, Character, Header, Footer, End}
    && (s.kind == Frame ==> s.str == "[")
    && (s.kind == FrameEnd ==> s.str == "]")
    && (s.kind == Quote ==> s.str == "{")
    && (s.kind == QuoteEnd ==> s.str == "}")
    && (s.kind == Terminator ==> s.str == "")
  }

  /** Whether a `#!` comment starts at `b`. */
  predicate CommentAt(src: string, b: nat)
  {
    Views.CharAt(src, b) == '#' && Views.CharAt(src, b + 1) == '!'
  }

  /** The symbol starting at the non-blank position `b` and the position
      after it, before `$` words are retagged; `None` for a character of no
      class.  `consumeQuote` says whether a string's closing quote is
      passed; the code as written does not pass it (`ScanAsWritten`). */
  function Raw(src: string, b: nat, consumeQuote: bool): (r: Symbols.Option<(Symbol, nat)>)
    requires b <= |src| && !CommentAt(src, b)
    ensures r.Some? ==> b <= r.value.1 <= |src|
    ensures r.Some? && r.value.0.kind != Terminator ==> b < r.value.1
    ensures r.Some? && r.value.0.kind == Terminator ==> r.value == (Symbol("", Terminator), b) && Views.CharAt(src, b) == '\0'
    ensures r.Some? ==> r.value.0.kind in {Terminator, Frame, FrameEnd, Quote, QuoteEnd, Intrinsic, Address, String, Integer, Identifier}
    ensures r.Some? && r.value.0.kind in {Frame, FrameEnd, Quote, QuoteEnd} ==> Lexable(r.value.0)
  {
    var c := Views.CharAt(src, b);
    if c == '\0' then Symbols.Some((Symbol("", Terminator), b))
    else if c == '[' then Symbols.Some((Symbol("[", Frame), b + 1))
    else if c == ']' then Symbols.Some((Symbol("]", FrameEnd), b + 1))
    else if c == '{' then Symbols.Some((Symbol("{", Quote), b + 1))
    else if c == '}' then Symbols.Some((Symbol("}", QuoteEnd), b + 1))
    else if c == '$' || c == '&' then
      var e := Views.Span(src, b + 1, |src|, CdcLexer.IsVisible);
      Symbols.Some((Symbol(src[b + 1..e], if c == '$' then Intrinsic else Address), e))
    else if c == '"' then
      var e := Views.Span(src, b + 1, |src|, CdcLexer.NotQuote);
      Symbols.Some((Symbol(src[b + 1..e], String), if consumeQuote && e < |src| then e + 1 else e))
    else if CdcLexer.IsDigit(c) then
      var e := Views.Span(src, b, |src|, CdcLexer.IsDigit);
      Symbols.Some((Symbol(src[b..e], Integer), e))
    else if CdcLexer.IsVisible(c) then
      var e := Views.Span(src, b + 1, |src|, CdcLexer.IsVisible);
      Symbols.Some((Symbol(src[b..e], Identifier), e))
    else Symbols.None
  }

  /** The symbol lexed at the non-blank, non-comment position `b`, with
      a `$` word retagged, and the position after it. */
  function Lexed(src: string, b: nat, consumeQuote: bool): (r: Res<(Symbol, nat)>)
    requires b <= |src| && !CommentAt(src, b)
    ensures r.Ok? ==> Lexable(r.value.0) && b <= r.value.1 <= |src|
    ensures r.Ok? && r.value.0.kind != Terminator ==> b < r.value.1
    ensures r.Ok? && r.value.0.kind == Terminator ==> r.value.1 == b && Views.CharAt(src, b) == '\0'
  {
    var raw := Raw(src, b, consumeQuote);
    if raw.None? then Fatal("unknown character")
    else
      var s := raw.value.0;
      if s.kind == Intrinsic then
        match Retag(s.str)
        case Ok(k) => Ok((s.(kind := k), raw.value.1))
        case Fatal(m) => Fatal(m)
      else Ok(raw.value)
  }

  /** `take` from the non-blank position `b`: a `#!` comment runs to the
      newline, and lexing starts again there. */
  function ScanAt(src: string, b: nat, consumeQuote: bool): (r: Res<(Symbol, nat)>)
    requires b <= |src|
    ensures r.Ok? ==> Lexable(r.value.0) && b <= r.value.1 <= |src|
    ensures r.Ok? && r.value.0.kind != Terminator ==> b < r.value.1
    ensures r.Ok? && r.value.0.kind == Terminator ==> Views.CharAt(src, r.value.1) == '\0'
    decreases |src| - b, 0
  {
    if CommentAt(src, b) then
      ScanWith(src, Views.Span(src, b + 2, |src|, CdcLexer.NotNewline), consumeQuote)
    else Lexed(src, b, consumeQuote)
  }

  /** One call of `take` from `pos`: whitespace is skipped, then a symbol
      lexed. */
  function ScanWith(src: string, pos: nat, consumeQuote: bool): (r: Res<(Symbol, nat)>)
    requires pos <= |src|
    ensures r.Ok? ==> Lexable(r.value.0) && pos <= r.value.1 <= |src|
    ensures r.Ok? && r.value.0.kind != Terminator ==> pos < r.value.1
    ensures r.Ok? && r.value.0.kind == Terminator ==> Views.CharAt(src, r.value.1) == '\0'
    decreases |src| - pos, 1
  {
    ScanAt(src, Views.Span(src, pos, |src|, CdcLexer.IsWhitespace), consumeQuote)
  }


  function Scan(src: string, pos: nat): Res<(Symbol, nat)>
    requires pos <= |src|
  {
    ScanWith(src, pos, true)
  }

  function ScanAsWritten(src: string, pos: nat): Res<(Symbol, nat)>
    requires pos <= |src|
  {
    ScanWith(src, pos, false)
  }

  /** Lexing is total but for two errors: an intrinsic other than `decl`,
      `def` and `addr`, and a character of no class. */
  lemma {:induction false} ScanFatal(src: string, pos: nat, consumeQuote: bool)
    requires pos <= |src|
    ensures ScanWith(src, pos, consumeQuote).Fatal? ==> ScanWith(src, pos, consumeQuote).msg in {"unknown intrinsic", "unknown character"}
    decreases |src| - pos
  {
    var b := Views.Span(src, pos, |src|, CdcLexer.IsWhitespace);
    assert ScanWith(src, pos, consumeQuote) == ScanAt(src, b, consumeQuote);
    if CommentAt(src, b) {
      ScanFatal(src, Views.Span(src, b + 2, |src|, CdcLexer.NotNewline), consumeQuote);
    } else {
      assert ScanAt(src, b, consumeQuote) == Lexed(src, b, consumeQuote);
    }
  }

  /** `ts` in front of a stream that may have stopped at a `fatal`. */
  function Prepend(ts: seq<Symbol>, r: Res<seq<Symbol>>): (r': Res<seq<Symbol>>)
    ensures r'.Ok? <==> r.Ok?
  {
    match r
    case Ok(rest) => Ok(ts + rest)
    case Fatal(m) => Fatal(m)
  }

  lemma PrependTwice(a: seq<Symbol>, b: seq<Symbol>, r: Res<seq<Symbol>>)
    ensures Prepend(a, Prepend(b, r)) == Prepend(a + b, r)
  {
    if r.Ok? {
      assert a + (b + r.value) == (a + b) + r.value;
    }
  }

  lemma PrependNone(r: Res<seq<Symbol>>)
    ensures Prepend([], r) == r
  {
    if r.Ok? {
      assert [] + r.value == r.value;
    }
  }

  /** The symbols `take` hands out from `pos`, as written, up to (not
      including) the terminator; `Fatal` when lexing stops at a `fatal`. */
  ghost function Stream(src: string, pos: nat): Res<seq<Symbol>>
    requires pos <= |src|
    decreases |src| - pos
  {
    match ScanAsWritten(src, pos)
    case Fatal(m) => Fatal(m)
    case Ok((s, q)) => if s.kind == Terminator then Ok([]) else Prepend([s], Stream(src, q))
  }

  /** A stream lists lexable symbols, none of them the terminator, and
      stops only at one of lexing's two errors. */
  lemma {:induction false} StreamSymbols(src: string, pos: nat)
    requires pos <= |src|
    ensures Stream(src, pos).Ok? ==> forall i :: 0 <= i < |Stream(src, pos).value| ==>
      Lexable(Stream(src, pos).value[i]) && Stream(src, pos).value[i].kind != Terminator
    ensures Stream(src, pos).Fatal? ==> Stream(src, pos).msg in {"unknown intrinsic", "unknown character"}
    decreases |src| - pos
  {
    ScanFatal(src, pos, false);
    match ScanAsWritten(src, pos)
    case Fatal(m) =>
    case Ok((s, q)) =>
      if s.kind != Terminator {
        StreamSymbols(src, q);
      }
  }

  /** At the terminating NUL the lexer stays put and hands out
      `Terminator` again. */
  lemma TerminatorRepeats(src: string, pos: nat)
    requires pos <= |src| && Views.CharAt(src, pos) == '\0'
    ensures Scan(src, pos) == Ok((Symbol("", Terminator), pos))
  {
    assert Views.Span(src, pos, |src|, CdcLexer.IsWhitespace) == pos;
    assert !CommentAt(src, pos);
    assert Scan(src, pos) == ScanWith(src, pos, true) == ScanAt(src, pos, true);
    assert ScanAt(src, pos, true) == Lexed(src, pos, true);
  }

  /** `$decl`, `$def` and `$addr` are retagged; other words are fatal. */
  lemma IntrinsicWords(word: string)
    ensures Retag(word) == Ok(Declare) <==> word == "decl"
    ensures Retag(word) == Ok(Label) <==> word == "def"
    ensures Retag(word) == Ok(Address) <==> word == "addr"
    ensures Retag(word).Fatal? ==> Retag(word).msg == "unknown intrinsic"
  {
  }

  /** The closing quote of a string: as written it stays unread, so the
      next symbol is a string starting at it; passing it gives the end. */
  lemma StringNotClosed()
    ensures ScanAsWritten("\"a\"", 0) == Ok((Symbol("a", String), 2))
    ensures ScanAsWritten("\"a\"", 2) == Ok((Symbol("", String), 3))
  {
    assert "\"a\""[1..2] == "a";
    assert "\"a\""[3..3] == "";
  }

  lemma StringClosed()
    ensures Scan("\"a\"", 0) == Ok((Symbol("a", String), 3))
    ensures Scan("\"a\"", 3) == Ok((Symbol("", Terminator), 3))
  {
    assert "\"a\""[1..2] == "a";
  }

  /** With the quote passed, a string ending in `"` is followed by whatever
      comes after that quote. */
  lemma StringResumes(src: string, pos: nat)
    requires pos < |src| && src[pos] == '"'
    ensures var e := Views.Span(src, pos + 1, |src|, CdcLexer.NotQuote);
      Scan(src, pos) == Ok((Symbol(src[pos + 1..e], String), if e < |src| then e + 1 else e))
      && (e < |src| ==> src[e] == '"')
  {
    assert Views.Span(src, pos, |src|, CdcLexer.IsWhitespace) == pos;
    assert !CommentAt(src, pos);
    assert Scan(src, pos) == ScanWith(src, pos, true) == ScanAt(src, pos, true);
    assert ScanAt(src, pos, true) == Lexed(src, pos, true);
    assert Views.CharAt(src, pos) == '"';
    assert Lexed(src, pos, true) == Ok(Raw(src, pos, true).value);
  }

  class Lexer {
    const src: string
    var ptr: nat
    var peek: Symbol

    predicate Valid()
      reads this
    {
      ptr <= |src|
    }

    /** Valid, and `peek` holds a symbol lexed from the source that ends
        at `ptr`. */
    predicate Primed()
      reads this
    {
      Valid() && Lexable(peek) && (peek.kind == Terminator ==> Views.CharAt(src, ptr) == '\0')
    }

    /** The symbols still to be handed out, kept in step by Advance. */
    ghost var pending: Res<seq<Symbol>>

    /** `pending` is `peek` followed by the stream after `ptr`, up to the
        terminator.  It is stated for the position `ptr` so that the stream
        is unfolded only where a step of the lexer needs it. */
    ghost predicate Synced()
      reads this
    {
      forall p: nat {:trigger Stream(src, p)} :: p == ptr && p <= |src| ==>
        pending == (if peek.kind == Terminator then Ok([]) else Prepend([peek], Stream(src, p)))
    }

    /** Decreases with every symbol taken before the end. */
    function Measure(): nat
      reads this
      requires Valid()
    {
      |src| - ptr + (if peek.kind == Terminator then 0 else 1)
    }

    /** The first half of the constructor: `peek` is not yet primed. */
    constructor(source: string)
      ensures Valid() && src == source && ptr == 0 && peek == Symbol("", None)
    {
      src := source;
      ptr := 0;
      peek := Symbol("", None);
      pending := Ok([]);
    }

    /** Lexer::take: hand back `peek` and lex the next symbol into it. */
    method Take() returns (r: Res<Symbol>)
      requires Valid()
      modifies this`ptr, this`peek
      ensures Valid() && old(ptr) <= ptr
      ensures ScanAsWritten(src, old(ptr)).Fatal? ==> r == Fatal(ScanAsWritten(src, old(ptr)).msg) && peek == old(peek)
      ensures ScanAsWritten(src, old(ptr)).Ok? ==> r == Ok(old(peek)) && (peek, ptr) == ScanAsWritten(src, old(ptr)).value
      decreases |src| - ptr, 1
    {
      SkipWhile(CdcLexer.IsWhitespace);
      r := TakeAt();
    }

    /** `take` as the parser relies on it: the old `peek` handed back, the
        lexer still primed, progress made, and the pending stream one
        symbol shorter. */
    method Advance() returns (r: Res<Symbol>)
      requires Primed() && Synced() && peek.kind != Terminator
      modifies this`ptr, this`peek, this`pending
      ensures Primed() && Synced() && Measure() <= old(Measure())
      ensures r.Ok? ==> r.value == old(peek) && Measure() < old(Measure())
      ensures r.Ok? ==> old(pending) == Prepend([old(peek)], pending)
      ensures r.Fatal? ==> FrontEndError(r.msg) && old(pending).Fatal?
    {
      ghost var p := ptr;
      assert pending == Prepend([peek], Stream(src, p));
      r := Take();
      ScanErrors(src, p, false);
      pending := if peek.kind == Terminator then Ok([]) else Prepend([peek], Stream(src, ptr));
    }

    /** The rest of `take` once whitespace is skipped. */
    method TakeAt() returns (r: Res<Symbol>)
      requires Valid()
      modifies this`ptr, this`peek
      ensures Valid() && old(ptr) <= ptr
      ensures ScanAt(src, old(ptr), false).Fatal? ==> r == Fatal(ScanAt(src, old(ptr), false).msg) && peek == old(peek)
      ensures ScanAt(src, old(ptr), false).Ok? ==> r == Ok(old(peek)) && (peek, ptr) == ScanAt(src, old(ptr), false).value
      decreases |src| - ptr, 0
    {
      if Views.CharAt(src, ptr) == '#' && Views.CharAt(src, ptr + 1) == '!' {
        ptr := ptr + 2;
        SkipWhile(CdcLexer.NotNewline);
        r := Take();
      } else {
        r := TakeSymbol();
      }
    }

    /** One symbol lexed and retagged; the old `peek` handed back. */
    method TakeSymbol() returns (r: Res<Symbol>)
      requires Valid() && !CommentAt(src, ptr)
      modifies this`ptr, this`peek
      ensures Valid() && old(ptr) <= ptr
      ensures Lexed(src, old(ptr), false).Fatal? ==> r == Fatal(Lexed(src, old(ptr), false).msg) && peek == old(peek)
      ensures Lexed(src, old(ptr), false).Ok? ==> r == Ok(old(peek)) && (peek, ptr) == Lexed(src, old(ptr), false).value
    {
      var raw := LexRaw();
      if raw.None? {
        return Fatal("unknown character");
      }
      var sym := raw.value;
      var out := peek;
      if sym.kind == Intrinsic {
        if sym.str == "decl" {
          sym := sym.(kind := Declare);
        } else if sym.str == "def" {
          sym := sym.(kind := Label);
        } else if sym.str == "addr" {
          sym := sym.(kind := Address);
        } else {
          return Fatal("unknown intrinsic");
        }
      }
      peek := sym;
      return Ok(out);
    }


    /** The body of `take` between the whitespace skip and the retag: one
        symbol lexed from a non-blank position. */
    method LexRaw() returns (sym: Symbols.Option<Symbol>)
      requires Valid() && !CommentAt(src, ptr)
      modifies this`ptr
      ensures Valid()
      ensures old(ptr) <= ptr
      ensures Raw(src, old(ptr), false).None? ==> sym.None?
      ensures Raw(src, old(ptr), false).Some? ==> sym.Some? && (sym.value, ptr) == Raw(src, old(ptr), false).value
    {
      var c := Views.CharAt(src, ptr);
      if c == '\0' {
        return Symbols.Some(Symbol("", Terminator));
      } else if c == '[' {
        ptr := ptr + 1;
        return Symbols.Some(Symbol("[", Frame));
      } else if c == ']' {
        ptr := ptr + 1;
        return Symbols.Some(Symbol("]", FrameEnd));
      } else if c == '{' {
        ptr := ptr + 1;
        return Symbols.Some(Symbol("{", Quote));
      } else if c == '}' {
        ptr := ptr + 1;
        return Symbols.Some(Symbol("}", QuoteEnd));
      }
      sym := LexRun();
    }

    /** The branches of `take` that lex a run of characters: an intrinsic or
        address word, a string, a number or an identifier. */
    method LexRun() returns (sym: Symbols.Option<Symbol>)
      requires Valid() && !CommentAt(src, ptr)
      requires Views.CharAt(src, ptr) !in {'\0', '[', ']', '{', '}'}
      modifies this`ptr
      ensures Valid() && old(ptr) <= ptr
      ensures Raw(src, old(ptr), false).None? ==> sym.None?
      ensures Raw(src, old(ptr), false).Some? ==> sym.Some? && (sym.value, ptr) == Raw(src, old(ptr), false).value
    {
      var begin := ptr;
      var c := Views.CharAt(src, ptr);
      if c == '$' || c == '&' {
        ptr := ptr + 1;
        begin := ptr;
        SkipWhile(CdcLexer.IsVisible);
        return Symbols.Some(Symbol(src[begin..ptr], if c == '$' then Intrinsic else Address));
      } else if c == '"' {
        ptr := ptr + 1;
        begin := ptr;
        SkipWhile(CdcLexer.NotQuote);
        // the closing quote is left unread (see StringNotClosed)
        return Symbols.Some(Symbol(src[begin..ptr], String));
      } else if CdcLexer.IsDigit(c) {
        SkipWhile(CdcLexer.IsDigit);
        return Symbols.Some(Symbol(src[begin..ptr], Integer));
      } else if CdcLexer.IsVisible(c) {
        if c == '#' {
          ptr := ptr + 1;
        } else {
          assert Views.Span(src, ptr, |src|, CdcLexer.IsVisible) == Views.Span(src, ptr + 1, |src|, CdcLexer.IsVisible);
        }
        SkipWhile(CdcLexer.IsVisible);
        return Symbols.Some(Symbol(src[begin..ptr], Identifier));
      }
      return Symbols.None;
    }

    /** `while (p(ptr)) ++ptr;`, stopping at the terminating NUL. */
    method SkipWhile(p: char -> bool)
      requires Valid()
      modifies this`ptr
      ensures Valid() && ptr == Views.Span(src, old(ptr), |src|, p)
    {
      ghost var p0 := ptr;
      while ptr < |src| && p(src[ptr])
        invariant p0 <= ptr <= |src|
        invariant Views.Span(src, ptr, |src|, p) == Views.Span(src, p0, |src|, p)
        decreases |src| - ptr
      {
        ptr := ptr + 1;
      }
    }
  }

  /** The constructor as a whole: the first symbol is lexed into `peek`,
      so the whole stream of the source is pending. */
  method NewLexer(source: string) returns (r: Res<Lexer>)
    ensures r.Ok? ==> fresh(r.value) && r.value.Primed() && r.value.src == source
    ensures r.Ok? <==> ScanAsWritten(source, 0).Ok?
    ensures r.Fatal? ==> r.msg == ScanAsWritten(source, 0).msg
    ensures r.Ok? ==> (r.value.peek, r.value.ptr) == ScanAsWritten(source, 0).value
    ensures r.Ok? ==> r.value.Synced() && r.value.pending == Stream(source, 0)
  {
    var lx := new Lexer(source);
    var first := lx.Take();
    if first.Fatal? {
      return Fatal(first.msg);
    }
    lx.pending := if lx.peek.kind == Terminator then Ok([]) else Prepend([lx.peek], Stream(source, lx.ptr));
    return Ok(lx);
  }

  /** The tree the parser's output flattens: a symbol passed through, an
      intrinsic with the identifier it binds, or an opener, its body and the
      `End` that closes it. */
  datatype Node =
    | Leaf(sym: Symbol)
    | Bound(intrinsic: Symbol, name: Symbol)
    | Block(open: Symbol, body: seq<Node>, close: Symbol)

  function Flatten(n: Node): seq<Symbol>
    decreases n, 1
  {
    match n
    case Leaf(s) => [s]
    case Bound(i, id) => [Symbol(id.str, i.kind)]
    case Block(o, b, c) => [o] + FlattenAll(b) + [c]
  }

  /** The symbols the lexer handed out for `n`, in order: a closer is an
      `End` in the output but came in as `]` or `}`. */
  function Tokens(n: Node): seq<Symbol>
    decreases n, 1
  {
    match n
    case Leaf(s) => [s]
    case Bound(i, id) => [i, id]
    case Block(o, b, c) => [o] + TokensAll(b) + [Symbol(c.str, if o.kind == Frame then FrameEnd else QuoteEnd)]
  }

  function TokensAll(ns: seq<Node>): seq<Symbol>
    decreases ns, 0
  {
    if ns == [] then [] else Tokens(ns[0]) + TokensAll(ns[1..])
  }

  lemma {:induction false} TokensAllSnoc(ns: seq<Node>, n: Node)
    ensures TokensAll(ns + [n]) == TokensAll(ns) + Tokens(n)
    decreases |ns|
  {
    if ns == [] {
      assert [n][1..] == [];
    } else {
      assert (ns + [n])[1..] == ns[1..] + [n];
      TokensAllSnoc(ns[1..], n);
    }
  }

  function FlattenAll(ns: seq<Node>): seq<Symbol>
    decreases ns, 0
  {
    if ns == [] then [] else Flatten(ns[0]) + FlattenAll(ns[1..])
  }

  /** One more expression read into a group body: its tokens follow the
      body's in the stream. */
  lemma BodyGrows(body: seq<Node>, n: Node, start: Res<seq<Symbol>>,
                  before: Res<seq<Symbol>>, after: Res<seq<Symbol>>)
    requires start == Prepend(TokensAll(body), before) && before == Prepend(Tokens(n), after)
    ensures start == Prepend(TokensAll(body + [n]), after)
  {
    TokensAllSnoc(body, n);
    PrependTwice(TokensAll(body), Tokens(n), after);
  }

  lemma {:induction false} FlattenAllSnoc(ns: seq<Node>, n: Node)
    ensures FlattenAll(ns + [n]) == FlattenAll(ns) + Flatten(n)
    decreases |ns|
  {
    if ns == [] {
      assert [n][1..] == [];
    } else {
      assert (ns + [n])[1..] == ns[1..] + [n];
      FlattenAllSnoc(ns[1..], n);
    }
  }

  /** The kinds the parser passes through as single symbols: words,
      numbers, strings and stray closers. */
  predicate LeafKind(k: SymbolKind)
  {
    k in {Identifier, Integer, String, FrameEnd, QuoteEnd}
  }

  /** The symbol kind that ends a frame (`Frame`) or a quote (`Quote`). */
  function CloserOf(opener: SymbolKind): SymbolKind
  {
    if opener == Frame then FrameEnd else QuoteEnd
  }

  /** Whether `n` is a lone `closer` passed through as a leaf. */
  predicate StrayCloser(n: Node, closer: SymbolKind)
  {
    n.Leaf? && n.sym.kind == closer
  }

  /** A frame is `[` ... `]`, a quote `{` ... `}`, each closer has become an
      `End`, and an intrinsic binds an identifier.  A block ends at its
      first closer, so its body holds no leaf of that closer's kind. */
  predicate WellFormed(n: Node)
  {
    match n
    case Leaf(s) => LeafKind(s.kind)
    case Bound(i, id) => IsIntrinsic(i) && id.kind == Identifier
    case Block(o, b, c) =>
      ((o == Symbol("[", Frame) && c == Symbol("]", End)) || (o == Symbol("{", Quote) && c == Symbol("}", End)))
      && forall i :: 0 <= i < |b| ==> WellFormed(b[i]) && !StrayCloser(b[i], CloserOf(o.kind))
  }

  predicate AllWellFormed(ns: seq<Node>)
  {
    forall i :: 0 <= i < |ns| ==> WellFormed(ns[i])
  }

  /** Every message the front end can stop with. */
  predicate FrontEndError(msg: string)
  {
    msg in {"unknown intrinsic", "unknown character", "expected `[`", "expected `]`",
            "expected `{`", "expected `}`", "expected an intrinsic", "expected an identifer"}
  }

  lemma ScanErrors(src: string, pos: nat, consumeQuote: bool)
    requires pos <= |src|
    ensures ScanWith(src, pos, consumeQuote).Fatal? ==> FrontEndError(ScanWith(src, pos, consumeQuote).msg)
  {
    ScanFatal(src, pos, consumeQuote);
  }

  predicate IsIntrinsic(s: Symbol)
  {
    s.kind in {Declare, Label, Address}
  }

  /** frame (`[` ... `]`) when `opener` is `Frame`, quote (`{` ... `}`) when
      it is `Quote`: the opener, the expressions up to the closer or the
      end, and the closer pushed as an `End`. */
  method Group(lx: Lexer, prog: seq<Symbol>, opener: SymbolKind) returns (r: Res<seq<Symbol>>, ghost n: Node)
    requires lx.Primed() && lx.Synced() && opener in {Frame, Quote}
    modifies lx
    ensures lx.Primed() && lx.Synced() && lx.Measure() <= old(lx.Measure())
    ensures r.Ok? ==> lx.Measure() < old(lx.Measure())
    ensures r.Ok? ==> r.value == prog + Flatten(n) && WellFormed(n) && n.Block? && n.open.kind == opener
    ensures r.Ok? ==> old(lx.pending) == Prepend(Tokens(n), lx.pending)
    ensures r.Fatal? ==> FrontEndError(r.msg)
    decreases lx.Measure(), 1
  {
    n := Leaf(lx.peek);
    var closer := CloserOf(opener);
    if lx.peek.kind != opener {
      return Fatal(if opener == Frame then "expected `[`" else "expected `{`"), n;
    }
    ghost var p0 := lx.pending;
    var open := lx.Advance();
    if open.Fatal? {
      return Fatal(open.msg), n;
    }
    ghost var p1 := lx.pending;
    var out;
    ghost var body;
    out, body := GroupBody(lx, prog + [open.value], closer);
    if out.Fatal? {
      return Fatal(out.msg), n;
    }
    r, n := CloseGroup(lx, open.value, out.value, body, p0, p1);
  }

  /** The end of `frame` and `quote`: the closer must be next, and is
      pushed as an `End` carrying its text. */
  method CloseGroup(lx: Lexer, open: Symbol, out: seq<Symbol>, ghost body: seq<Node>,
                    ghost p0: Res<seq<Symbol>>, ghost p1: Res<seq<Symbol>>) returns (r: Res<seq<Symbol>>, ghost n: Node)
    requires lx.Primed() && lx.Synced() && Lexable(open) && open.kind in {Frame, Quote}
    requires ClosedBody(body, CloserOf(open.kind))
    requires p0 == Prepend([open], p1) && p1 == Prepend(TokensAll(body), lx.pending)
    modifies lx
    ensures lx.Primed() && lx.Synced() && lx.Measure() <= old(lx.Measure())
    ensures r.Ok? ==> n.Block? && n.open == open && n.body == body && r.value == out + [n.close] && WellFormed(n)
    ensures r.Ok? ==> p0 == Prepend(Tokens(n), lx.pending)
    ensures r.Fatal? ==> FrontEndError(r.msg)
  {
    n := Leaf(open);
    if lx.peek.kind != CloserOf(open.kind) {
      return Fatal(if open.kind == Frame then "expected `]`" else "expected `}`"), n;
    }
    ghost var p2 := lx.pending;
    var close := lx.Advance();
    if close.Fatal? {
      return Fatal(close.msg), n;
    }
    BlockWellFormed(open, body, Symbol(close.value.str, End));
    n := Block(open, body, Symbol(close.value.str, End));
    BlockTokens(n, close.value, p0, p1, p2, lx.pending);
    return Ok(out + [Symbol(close.value.str, End)]), n;
  }

  lemma BlockWellFormed(o: Symbol, body: seq<Node>, c: Symbol)
    requires (o == Symbol("[", Frame) && c == Symbol("]", End)) || (o == Symbol("{", Quote) && c == Symbol("}", End))
    requires AllWellFormed(body) && forall i :: 0 <= i < |body| ==> !StrayCloser(body[i], CloserOf(o.kind))
    ensures WellFormed(Block(o, body, c))
  {
  }

  /** The stream a frame or quote was parsed from: its opener, its body's
      symbols and its closer, in that order. */
  lemma BlockTokens(n: Node, closeSym: Symbol, p0: Res<seq<Symbol>>, p1: Res<seq<Symbol>>, p2: Res<seq<Symbol>>, p3: Res<seq<Symbol>>)
    requires n.Block? && n.close == Symbol(closeSym.str, End)
    requires closeSym.kind == (if n.open.kind == Frame then FrameEnd else QuoteEnd)
    requires p0 == Prepend([n.open], p1) && p1 == Prepend(TokensAll(n.body), p2) && p2 == Prepend([closeSym], p3)
    ensures p0 == Prepend(Tokens(n), p3)
  {
    PrependTwice(TokensAll(n.body), [closeSym], p3);
    PrependTwice([n.open], TokensAll(n.body) + [closeSym], p3);
    assert [n.open] + (TokensAll(n.body) + [closeSym]) == Tokens(n);
  }

  /** The loop of frame, quote and parse: expressions until `closer` or
      the terminator is next. */
  method GroupBody(lx: Lexer, prog: seq<Symbol>, closer: SymbolKind) returns (r: Res<seq<Symbol>>, ghost body: seq<Node>)
    requires lx.Primed() && lx.Synced()
    modifies lx
    ensures lx.Primed() && lx.Synced() && lx.Measure() <= old(lx.Measure())
    ensures r.Ok? ==> r.value == prog + FlattenAll(body) && AllWellFormed(body)
    ensures r.Ok? ==> lx.peek.kind in {closer, Terminator}
    ensures r.Ok? ==> forall i :: 0 <= i < |body| ==> !StrayCloser(body[i], closer)
    ensures r.Ok? ==> old(lx.pending) == Prepend(TokensAll(body), lx.pending)
    ensures r.Fatal? ==> FrontEndError(r.msg)
    decreases lx.Measure(), 4
  {
    var out := prog;
    body := [];
    PrependNone(lx.pending);
    while lx.peek.kind != closer && lx.peek.kind != Terminator
      invariant lx.Primed() && lx.Synced() && lx.Measure() <= old(lx.Measure())
      invariant out == prog + FlattenAll(body) && ClosedBody(body, closer)
      invariant old(lx.pending) == Prepend(TokensAll(body), lx.pending)
      decreases lx.Measure()
    {
      var e;
      e, body := GroupStep(lx, prog, out, body, closer, old(lx.pending));
      if e.Fatal? {
        return e, body;
      }
      out := e.value;
    }
    return Ok(out), body;
  }

  /** One turn of that loop: the next expression, which is not the
      closer, joins the body. */
  method GroupStep(lx: Lexer, prog: seq<Symbol>, out: seq<Symbol>, ghost body: seq<Node>, closer: SymbolKind,
                  ghost start: Res<seq<Symbol>>) returns (r: Res<seq<Symbol>>, ghost body': seq<Node>)
    requires lx.Primed() && lx.Synced() && lx.peek.kind != closer && lx.peek.kind != Terminator
    requires out == prog + FlattenAll(body) && ClosedBody(body, closer)
    requires start == Prepend(TokensAll(body), lx.pending)
    modifies lx
    ensures lx.Primed() && lx.Synced() && lx.Measure() <= old(lx.Measure())
    ensures r.Ok? ==> lx.Measure() < old(lx.Measure())
    ensures r.Ok? ==> r.value == prog + FlattenAll(body') && ClosedBody(body', closer)
    ensures r.Ok? ==> start == Prepend(TokensAll(body'), lx.pending)
    ensures r.Fatal? ==> FrontEndError(r.msg)
    decreases lx.Measure(), 3
  {
    body' := body;
    var e;
    ghost var en;
    ghost var before := lx.pending;
    e, en := Expression(lx, out);
    if e.Fatal? {
      return Fatal(e.msg), body';
    }
    FlattenAllSnoc(body, en);
    BodyGrows(body, en, start, before, lx.pending);
    NoStraySnoc(body, en, closer);
    body' := body + [en];
    return e, body';
  }

  /** `[ ] ]`: the frame ends at the first `]` and the second passes
      through as a leaf; a frame holding that first `]` as a leaf is not
      a parse. */
  lemma FirstCloserEnds()
    ensures var frame := Block(Symbol("[", Frame), [], Symbol("]", End));
      AllWellFormed([frame, Leaf(Symbol("]", FrameEnd))])
    ensures !WellFormed(Block(Symbol("[", Frame), [Leaf(Symbol("]", FrameEnd))], Symbol("]", End)))
  {
    var stray := Leaf(Symbol("]", FrameEnd));
    var b := [stray];
    assert b[0] == stray && StrayCloser(b[0], CloserOf(Frame));
  }

  /** The expressions of a body, none of them its closer. */
  predicate ClosedBody(body: seq<Node>, closer: SymbolKind)
  {
    AllWellFormed(body) && forall i :: 0 <= i < |body| ==> !StrayCloser(body[i], closer)
  }

  lemma NoStraySnoc(body: seq<Node>, n: Node, closer: SymbolKind)
    requires ClosedBody(body, closer) && WellFormed(n) && !StrayCloser(n, closer)
    ensures ClosedBody(body + [n], closer)
  {
  }

  /** intrinsic: a retagged `$decl`, `$def` or `$addr` (or an `&word`)
      followed by an identifier becomes one symbol with the identifier's
      text and the intrinsic's kind; the two are the next two symbols of
      the stream. */
  method ParseIntrinsic(lx: Lexer, prog: seq<Symbol>) returns (r: Res<seq<Symbol>>, ghost n: Node)
    requires lx.Primed() && lx.Synced()
    modifies lx
    ensures lx.Primed() && lx.Synced() && lx.Measure() <= old(lx.Measure())
    ensures r.Ok? ==> lx.Measure() < old(lx.Measure())
    ensures r.Ok? ==> n.Bound? && n.intrinsic == old(lx.peek) && WellFormed(n)
    ensures r.Ok? ==> r.value == prog + [Symbol(n.name.str, old(lx.peek.kind))]
    ensures r.Ok? ==> old(lx.pending) == Prepend([old(lx.peek), n.name], lx.pending)
    ensures !IsIntrinsic(old(lx.peek)) ==> r == Fatal("expected an intrinsic")
    ensures r.Fatal? ==> FrontEndError(r.msg)
  {
    n := Leaf(lx.peek);
    if !IsIntrinsic(lx.peek) {
      return Fatal("expected an intrinsic"), n;
    }
    ghost var p0 := lx.pending;
    var intrinsic := lx.Advance();
    if intrinsic.Fatal? {
      return Fatal(intrinsic.msg), n;
    }
    if lx.peek.kind != Identifier {
      return Fatal("expected an identifer"), n;
    }
    ghost var p1 := lx.pending;
    var ident := lx.Advance();
    if ident.Fatal? {
      return Fatal(ident.msg), n;
    }
    var sym := Symbol(ident.value.str, intrinsic.value.kind);
    n := Bound(intrinsic.value, ident.value);
    PrependTwice([intrinsic.value], [ident.value], lx.pending);
    assert [intrinsic.value] + [ident.value] == [intrinsic.value, ident.value];
    return Ok(prog + [sym]), n;
  }

  /** expression: a frame, a quote, an intrinsic, or any other symbol
      passed through as it is. */
  method Expression(lx: Lexer, prog: seq<Symbol>) returns (r: Res<seq<Symbol>>, ghost n: Node)
    requires lx.Primed() && lx.Synced() && lx.peek.kind != Terminator
    modifies lx
    ensures lx.Primed() && lx.Synced() && lx.Measure() <= old(lx.Measure())
    ensures r.Ok? ==> lx.Measure() < old(lx.Measure())
    ensures r.Ok? ==> r.value == prog + Flatten(n) && WellFormed(n)
    ensures r.Ok? && n.Leaf? ==> n.sym == old(lx.peek)
    ensures r.Ok? ==> old(lx.pending) == Prepend(Tokens(n), lx.pending)
    ensures r.Fatal? ==> FrontEndError(r.msg)
    decreases lx.Measure(), 2
  {
    var k := lx.peek.kind;
    if k == Frame || k == Quote {
      r, n := Group(lx, prog, k);
    } else if k in {Declare, Label, Address} {
      r, n := ParseIntrinsic(lx, prog);
    } else {
      var sym := lx.Advance();
      n := Leaf(lx.peek);
      if sym.Fatal? {
        return Fatal(sym.msg), n;
      }
      n := Leaf(sym.value);
      r := Ok(prog + [sym.value]);
    }
  }

  /** parse: a `Header` carrying the first symbol's text, the expressions
      up to the terminator, and a `Footer`.  The trees parsed hold exactly
      the symbol stream of the source, so a source whose lexing stops at a
      `fatal` does not parse. */
  method Parse(src: string) returns (r: Res<seq<Symbol>>, ghost body: seq<Node>)
    ensures r.Ok? ==> ScanAsWritten(src, 0).Ok? && |r.value| >= 2
    ensures r.Ok? ==> r.value == [Symbol(ScanAsWritten(src, 0).value.0.str, Header)] + FlattenAll(body) + [Symbol("", Footer)]
    ensures r.Ok? ==> AllWellFormed(body) && Stream(src, 0) == Ok(TokensAll(body))
    ensures Stream(src, 0).Fatal? ==> r.Fatal?
    ensures r.Fatal? ==> FrontEndError(r.msg)
  {
    body := [];
    ScanErrors(src, 0, false);
    var made := NewLexer(src);
    if made.Fatal? {
      return Fatal(made.msg), body;
    }
    var lx := made.value;
    var out;
    out, body := GroupBody(lx, [Symbol(lx.peek.str, Header)], Terminator);
    if out.Fatal? {
      return Fatal(out.msg), body;
    }
    ghost var rest := Stream(lx.src, lx.ptr);
    assert lx.pending == Ok([]);
    assert TokensAll(body) + [] == TokensAll(body);
    return Ok(out.value + [Symbol(lx.peek.str, Footer)]), body;
  }
}
