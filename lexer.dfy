/** The lexer of cdeck/cdc.hpp: one symbol of lookahead over the rest of
    the source.  `Scan` states what one call of `take` lexes from a
    position and `Stream` the symbols of a whole source; the class keeps
    the source, the unread view and the peeked and previous symbols, and
    its `Take` is proved to follow `Scan`. */
module CdcLexer {
  import opened Symbols
  import opened Views

  predicate IsVisible(c: char)
  {
    33 <= c as int <= 126
  }

  predicate IsWhitespace(c: char)
  {
    (9 <= c as int <= 13) || c == ' '
  }

  predicate IsDigit(c: char)
  {
    '0' <= c <= '9'
  }

  predicate NotQuote(c: char)
  {
    c != '"'
  }

  predicate NotNewline(c: char)
  {
    c != '\n'
  }

  /** The builtin a whole identifier names, tried in source order; any
      other text stays an identifier. */
  function KindOf(s: string): Kind
  {
    if s == "." then Go
    else if s == "::" then Fn
    else if s == "let" then Let
    else if s == "#" then Count
    else if s == "word" then Word
    else if s == "byte" then Byte
    else if s == "?" then Choose
    else if s == ">|" then DeqPush
    else if s == "|>" then DeqPop
    else if s == "pop" then Pop
    else if s == "get" then Get
    else if s == "set" then Set
    else if s == "+" then Add
    else if s == "-" then Sub
    else if s == "*" then Mul
    else if s == "/" then Div
    else if s == "%" then Mod
    else if s == "<<" then Shl
    else if s == ">>" then Shr
    else if s == "&" then And
    else if s == "|" then Or
    else if s == "^" then Xor
    else if s == "~" then Not
    else if s == "<=>" then Kind.Cmp
    else Ident
  }

  /** A "#!" at `b` opens a comment. */
  predicate IsComment(src: string, b: nat)
  {
    CharAt(src, b) == '#' && CharAt(src, b + 1) == '!'
  }

  /** What the character at a position starts: a symbol and the position
      after it, a comment and the position lexing resumes from, or an
      unknown character. */
  datatype Lexed = Lexed(sym: Symbol, next: nat) | Skip(next: nat) | Unknown(report: Report)

  /** The branches of `take` for a position holding a character that is
      not whitespace, in source order. */
  function LexAt(src: string, b: nat): (r: Lexed)
    requires b < |src|
    ensures !r.Unknown? ==> b < r.next <= |src|
    ensures r.Skip? <==> IsComment(src, b)
    ensures r.Lexed? ==> r.sym.kind != Term && r.sym.kind != End && r.sym.kind != Blank
    ensures r.Lexed? && r.sym.kind == Unquote ==> r.sym.text == "}"
    ensures r.Lexed? && r.sym.kind == Unmark ==> r.sym.text == "]"
    ensures r.Lexed? && r.sym.kind == Let ==> r.sym.text == "let"
    ensures r.Lexed? && r.sym.kind == Fn ==> r.sym.text == "::"
    ensures r.Unknown? ==> r.report == Report([src[b]], UnknownChar)
  {
    var c := src[b];
    if c == '[' then Lexed(Symbol(Mark, "["), b + 1)
    else if c == ']' then Lexed(Symbol(Unmark, "]"), b + 1)
    else if c == '{' then Lexed(Symbol(Quote, "{"), b + 1)
    else if c == '}' then Lexed(Symbol(Unquote, "}"), b + 1)
    else if c == '"' then
      var e := Span(src, b + 1, |src|, NotQuote);
      Lexed(Symbol(Str, src[b + 1..e]), if e < |src| then e + 1 else e)
    else if IsDigit(c) then
      var e := Span(src, b, |src|, IsDigit);
      Lexed(Symbol(Int, src[b..e]), e)
    else if IsVisible(c) then
      var e := Span(src, b, |src|, IsVisible);
      if IsComment(src, b) then
        var nl := Span(src, e, |src|, NotNewline);
        Skip(if nl < |src| then nl + 1 else nl)
      else
        Lexed(Symbol(KindOf(src[b..e]), src[b..e]), e)
    else
      Unknown(Report([c], UnknownChar))
  }

  /** What one `take` lexes starting at `pos`: the symbol and the position
      after it, or the UNKNOWN_CHAR report.  Whitespace is skipped first,
      and lexing starts again after a comment. */
  function Scan(src: string, pos: nat): (r: Result<(Symbol, nat)>)
    requires pos <= |src|
    ensures r.Ok? ==> pos <= r.value.1 <= |src|
    ensures r.Ok? && r.value.0.kind == Term ==> r.value.1 == |src| && r.value.0.text == ""
    ensures r.Ok? && r.value.0.kind != Term ==> pos < r.value.1
    ensures r.Ok? ==> r.value.0.kind != End && r.value.0.kind != Blank
    ensures r.Ok? && r.value.0.kind == Unquote ==> r.value.0.text == "}"
    ensures r.Ok? && r.value.0.kind == Unmark ==> r.value.0.text == "]"
    ensures r.Ok? && r.value.0.kind == Let ==> r.value.0.text == "let"
    ensures r.Ok? && r.value.0.kind == Fn ==> r.value.0.text == "::"
    ensures r.Fail? ==> r.report.kind == UnknownChar && |r.report.sv| == 1
    decreases |src| - pos
  {
    var b := Span(src, pos, |src|, IsWhitespace);
    if b == |src| then Ok((Symbol(Term, ""), b))
    else
      match LexAt(src, b)
      case Lexed(sym, e) => Ok((sym, e))
      case Skip(e) => Scan(src, e)
      case Unknown(rep) => Fail(rep)
  }

  /** `ts` in front of a stream that may have stopped at a report. */
  function Prefixed(ts: seq<Symbol>, r: Result<seq<Symbol>>): (r': Result<seq<Symbol>>)
    ensures r'.Ok? <==> r.Ok?
  {
    match r
    case Ok(rest) => Ok(ts + rest)
    case Fail(rep) => Fail(rep)
  }

  lemma PrefixedTwice(a: seq<Symbol>, b: seq<Symbol>, r: Result<seq<Symbol>>)
    ensures Prefixed(a, Prefixed(b, r)) == Prefixed(a + b, r)
  {
    if r.Ok? {
      assert a + (b + r.value) == (a + b) + r.value;
    }
  }

  lemma PrefixedNone(r: Result<seq<Symbol>>)
    ensures Prefixed([], r) == r
  {
    if r.Ok? {
      assert [] + r.value == r.value;
    }
  }

  /** The symbols `take` hands out from `pos`, up to (not including) TERM;
      `Fail` with the report when lexing meets an unknown character. */
  ghost function Stream(src: string, pos: nat): Result<seq<Symbol>>
    requires pos <= |src|
    decreases |src| - pos
  {
    match Scan(src, pos)
    case Fail(rep) => Fail(rep)
    case Ok((s, q)) => if s.kind == Term then Ok([]) else Prefixed([s], Stream(src, q))
  }

  /** The identifier branch of `take`: the whole visible run, unless it
      begins with "#!", which makes it a comment running to the newline. */
  method LexWord(sv: View) returns (r: Lexed)
    requires Valid(sv) && sv.end == |sv.buf| && !Empty(sv)
    requires var c := sv.buf[sv.begin]; IsVisible(c) && !IsDigit(c) && c !in "[]{}\""
    ensures r == LexAt(sv.buf, sv.begin)
  {
    var src := sv.buf;
    var b := sv.begin;
    var run, rest := TakeWhile(sv, IsVisible);
    var comment := BeginsWith(run, Lit("#!"));
    assert comment <==> IsComment(src, b) by {
      assert SameAt(run, Lit("#!"), 0) <==> CharAt(src, b) == '#';
      assert SameAt(run, Lit("#!"), 1) <==> CharAt(src, b + 1) == '!';
    }
    if comment {
      var skipped;
      skipped, rest := TakeWhile(rest, NotNewline);
      rest := Next(rest);
      return Skip(rest.begin);
    }
    return Lexed(Symbol(KindOf(Text(run)), Text(run)), rest.begin);
  }

  /** The branches of `take` after whitespace: lex what the non-empty view
      starts with. */
  method LexSymbol(sv: View) returns (r: Lexed)
    requires Valid(sv) && sv.end == |sv.buf| && !Empty(sv)
    ensures r == LexAt(sv.buf, sv.begin)
  {
    var src := sv.buf;
    var b := sv.begin;
    var one := Peek(sv);
    var rest := sv;
    var c := src[b];
    if c == '[' {
      return Lexed(Symbol(Mark, Text(one)), b + 1);
    } else if c == ']' {
      return Lexed(Symbol(Unmark, Text(one)), b + 1);
    } else if c == '{' {
      return Lexed(Symbol(Quote, Text(one)), b + 1);
    } else if c == '}' {
      return Lexed(Symbol(Unquote, Text(one)), b + 1);
    } else if c == '"' {
      rest := Next(rest);
      var body;
      body, rest := TakeWhile(rest, NotQuote);
      rest := Next(rest);
      return Lexed(Symbol(Str, Text(body)), rest.begin);
    } else if IsDigit(c) {
      var run;
      run, rest := TakeWhile(rest, IsDigit);
      return Lexed(Symbol(Int, Text(run)), rest.begin);
    } else if IsVisible(c) {
      r := LexWord(sv);
    } else {
      return Unknown(Report(Text(one), UnknownChar));
    }
  }

  /** Lexer: the source, the view still to be read, and the symbols `take`
      hands out one step late. */
  class Lexer {
    const src: string
    var sv: View
    var peek: Symbol
    var prev: Symbol

    /** The unread view is a suffix of the source, and a peeked closer has
        the text the lexer gives it. */
    predicate Valid()
      reads this
    {
      sv.buf == src && Views.Valid(sv) && sv.end == |src|
      && (peek.kind == Term ==> sv.begin == |src| && peek.text == "")
      && (peek.kind == Unquote ==> peek.text == "}")
      && (peek.kind == Unmark ==> peek.text == "]")
      && (peek.kind == Let ==> peek.text == "let")
      && (peek.kind == Fn ==> peek.text == "::")
    }

    /** The symbols still to be handed out, kept in step by `Take`. */
    ghost var pending: Result<seq<Symbol>>

    /** `pending` is `peek` followed by the stream of the unread view, up to
        TERM.  It is stated for the position the view starts at so that the
        stream is unfolded only where a step of the lexer needs it. */
    ghost predicate Synced()
      reads this
    {
      forall p: nat {:trigger Stream(src, p)} :: p == sv.begin && p <= |src| ==>
        pending == (if peek.kind == Term then Ok([]) else Prefixed([peek], Stream(src, p)))
    }

    /** Shrinks with every symbol taken that is not TERM. */
    function Measure(): nat
      reads this
      requires Valid()
    {
      2 * (|src| - sv.begin) + (if peek.kind == Term then 0 else 1)
    }

    /** The lexer starts on the whole source with a NONE symbol spanning
        its first character. */
    constructor (source: string)
      ensures Valid() && src == source && sv == View(source, 0, |source|)
      ensures peek.kind == Blank && prev.kind == Blank
      ensures peek.text == (if source == [] then "" else source[..1])
      ensures Synced() && pending == Prefixed([peek], Stream(source, 0))
    {
      src := source;
      sv := View(source, 0, |source|);
      var first := if source == [] then "" else source[..1];
      peek := Symbol(Blank, first);
      prev := Symbol(Blank, first);
      pending := Prefixed([Symbol(Blank, first)], Stream(source, 0));
    }

    /** take(Lexer&): lex the next symbol, hand out the one peeked before
        and keep the new one as `peek`. */
    method Take() returns (r: Result<Symbol>)
      requires Valid() && Synced()
      modifies this
      ensures Valid() && Synced()
      ensures match Scan(src, old(sv.begin))
              case Ok((sym, pos)) =>
                r == Ok(old(peek)) && peek == sym && prev == old(peek) && sv.begin == pos
              case Fail(rep) => r == Fail(rep)
      ensures r.Ok? ==> r.value == old(peek)
      ensures r.Ok? && old(peek).kind != Term ==> Measure() < old(Measure())
      ensures r.Fail? ==> r.report.kind == UnknownChar
      ensures r.Ok? && old(peek).kind != Term ==> old(pending) == Prefixed([old(peek)], pending)
      ensures r.Fail? ==> old(peek).kind != Term && old(pending).Fail?
      decreases |src| - sv.begin
    {
      ghost var stream := Stream(src, sv.begin);
      var ws, rest := TakeWhile(sv, IsWhitespace);
      sv := rest;
      var sym;
      if Empty(sv) {
        sym := Symbol(Term, Text(Peek(sv)));
      } else {
        var lexed := LexSymbol(sv);
        match lexed
        case Skip(e) =>
          sv := View(src, e, |src|);
          r := Take();
          return;
        case Unknown(rep) =>
          return Fail(rep);
        case Lexed(s, e) =>
          sym := s;
          sv := View(src, e, |src|);
      }
      assert Scan(src, old(sv.begin)) == Ok((sym, sv.begin));
      r := Ok(peek);
      prev := peek;
      peek := sym;
      pending := if sym.kind == Term then Ok([]) else Prefixed([sym], Stream(src, sv.begin));
    }

    /** expect: the peeked symbol must pass `ok`, else it is reported as `x`. */
    function Expect(ok: bool, x: ErrorKind): (r: Result<()>)
      reads this
      ensures r.Fail? <==> !ok
      ensures r.Fail? ==> r.report == Report(peek.text, x)
    {
      if ok then Ok(()) else Fail(Report(peek.text, x))
    }
  }

  /** Once the input is used up, every further symbol is TERM. */
  lemma ScanExhausted(src: string, pos: nat)
    requires pos <= |src|
    requires forall k :: pos <= k < |src| ==> IsWhitespace(src[k])
    ensures Scan(src, pos) == Ok((Symbol(Term, ""), |src|))
    ensures Scan(src, |src|) == Ok((Symbol(Term, ""), |src|))
  {
  }

  /** An identifier is the whole run of visible characters; it becomes a
      builtin only when the whole run spells one. */
  lemma WordAt(src: string, b: nat)
    requires b < |src| && IsVisible(src[b]) && !IsDigit(src[b]) && !IsComment(src, b)
    requires src[b] !in "[]{}\""
    ensures LexAt(src, b).Lexed?
    ensures var (s, e) := (LexAt(src, b).sym, LexAt(src, b).next);
      s.text == src[b..e] && s.kind == KindOf(s.text)
      && (forall k :: b <= k < e ==> IsVisible(src[k]))
      && (e == |src| || !IsVisible(src[e]))
  {
    var e := Span(src, b, |src|, IsVisible);
    assert LexAt(src, b) == Lexed(Symbol(KindOf(src[b..e]), src[b..e]), e);
  }

  /** "letfoo" is one identifier, not LET followed by "foo". */
  lemma LetFoo()
    ensures Scan("letfoo", 0) == Ok((Symbol(Ident, "letfoo"), 6))
  {
    var s := "letfoo";
    assert Span(s, 0, 6, IsWhitespace) == 0;
    assert Span(s, 6, 6, IsVisible) == 6;
    assert Span(s, 5, 6, IsVisible) == 6;
    assert Span(s, 4, 6, IsVisible) == 6;
    assert Span(s, 3, 6, IsVisible) == 6;
    assert Span(s, 2, 6, IsVisible) == 6;
    assert Span(s, 1, 6, IsVisible) == 6;
    assert Span(s, 0, 6, IsVisible) == 6;
    assert s[0..6] == s;
    assert KindOf(s) == Ident;
  }
}
