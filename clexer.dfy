/** The lexer of cdc/src/cdc.c (repeated verbatim in cdc/include/cdc/cdc.h):
    a position `ptr` into a source buffer of `len` bytes, which here is
    `|src|`.  `lexer_next` skips whitespace and `#!` comments and then tries
    an identifier, a `#symbol`, an integer and a sigil, in that order.

    Each step is specified by a function of the source and the position it
    starts from (`TakeWhileAt`, `SkipFrom`, `IdentAt`, ..., `NextAt`), and
    each method of the class is proved to follow its function. */
module CLexer {
  import Views
  import CdcLexer

  datatype TokenKind =
    | None | Ws | Comment | Eof
    | Int | Str | Ident | Symbol
    | KwInt | KwDef | KwLet | KwOr | KwAnd | KwNot
    | Arrow | Add | Sub | Mul | Div | Cond | Apply | Eq | TypeSigil
    | LParen | RParen | LSquare | RSquare

  /** token_t: a kind and the span [start, end) of the source. */
  datatype Token = Token(kind: TokenKind, start: nat, end: nat)

  /** What a producer leaves behind: its verdict, the token as it stands
      afterwards and the lexer's position. */
  datatype Lexed = Lexed(ok: bool, tok: Token, pos: nat)

  predicate IsIdentStart(c: char)
  {
    ('a' <= c <= 'z') || ('A' <= c <= 'Z') || c == '_'
  }

  predicate IsIdentBody(c: char)
  {
    IsIdentStart(c) || CdcLexer.IsDigit(c)
  }

  /** strncmp(a, b, n) == 0 from index `k` on: the strings agree up to `n`
      or up to a NUL they share, reading NUL past either end. */
  function StrnEqFrom(a: string, b: string, k: nat, n: nat): bool
    decreases n - k
  {
    if k >= n then true
    else if Views.CharAt(a, k) != Views.CharAt(b, k) then false
    else if Views.CharAt(a, k) == '\0' then true
    else StrnEqFrom(a, b, k + 1, n)
  }

  /** Over text without NUL, strncmp compares exactly the first `n`
      characters. */
  lemma {:induction false} StrnEqText(a: string, b: string, k: nat, n: nat)
    requires k <= n <= |a| && n <= |b|
    requires forall j :: k <= j < n ==> a[j] != '\0'
    ensures StrnEqFrom(a, b, k, n) <==> a[k..n] == b[k..n]
    decreases n - k
  {
    if k < n {
      StrnEqText(a, b, k + 1, n);
      assert a[k..n] == [a[k]] + a[k + 1..n];
      assert b[k..n] == [b[k]] + b[k + 1..n];
    }
  }

  /** kw_cmp: the `len` characters at `w` spell exactly `kw`. */
  function KwCmp(w: string, len: nat, kw: string): (r: bool)
    requires len <= |w|
    ensures (forall j :: 0 <= j < len ==> w[j] != '\0') ==> (r <==> w[..len] == kw)
  {
    if len == |kw| then
      if forall j :: 0 <= j < len ==> w[j] != '\0' then
        StrnEqText(w, kw, 0, len); assert kw[0..len] == kw; StrnEqFrom(w, kw, 0, len)
      else StrnEqFrom(w, kw, 0, len)
    else false
  }

  /** The kind produce_ident gives a whole identifier: a keyword tried in
      source order, or IDENT. */
  function WordKind(w: string): TokenKind
  {
    if KwCmp(w, |w|, "let") then KwLet
    else if KwCmp(w, |w|, "int") then KwInt
    else if KwCmp(w, |w|, "def") then KwDef
    else if KwCmp(w, |w|, "or") then KwOr
    else if KwCmp(w, |w|, "and") then KwAnd
    else if KwCmp(w, |w|, "not") then KwNot
    else Ident
  }

  /** One call of `take` from `p`: whether the character it passes is not
      NUL, and the position after it.  At the end it passes nothing. */
  function TakeStep(src: string, p: nat): (bool, nat)
  {
    if p >= |src| then (false, p) else (src[p] != '\0', p + 1)
  }

  /** One call of `take_if`: `cond` of the current character, and then a
      `take`. */
  function TakeIfStep(src: string, p: nat, cond: char -> bool): (bool, nat)
  {
    if cond(Views.CharAt(src, p)) then TakeStep(src, p) else (false, p)
  }

  /** `take_while` from `p`: whether its first `take_if` succeeded, and
      where it stops.  It passes the run of non-NUL characters satisfying
      `cond`, and one NUL after them when `cond('\0')` holds. */
  function TakeWhileAt(src: string, p: nat, cond: char -> bool): (r: (bool, nat))
    requires p <= |src|
    ensures p <= r.1 <= |src|
    ensures r.0 <==> p < |src| && src[p] != '\0' && cond(src[p])
    ensures r.0 ==> r.1 > p
    ensures !r.0 ==> r.1 == p || (p < |src| && src[p] == '\0' && cond('\0') && r.1 == p + 1)
    ensures forall k :: p <= k < r.1 ==> cond(src[k])
    ensures forall k :: p <= k < r.1 - 1 ==> src[k] != '\0'
    ensures r.1 == |src| || !cond(src[r.1]) || (p < r.1 && src[r.1 - 1] == '\0')
    decreases |src| - p
  {
    var (t, q) := TakeIfStep(src, p, cond);
    if t then (true, TakeWhileAt(src, q, cond).1) else (false, q)
  }

  /** take_str and peek_str: `s` lies at `p` inside the buffer. */
  predicate Match(src: string, p: nat, s: string)
  {
    p + |s| <= |src| && src[p..p + |s|] == s
  }

  /** The skipping loop of lexer_next from `p`: it stops where neither
      whitespace nor `#!` follows. */
  function SkipFrom(src: string, p: nat): (r: nat)
    requires p <= |src|
    ensures p <= r <= |src|
    ensures r == |src| || !CdcLexer.IsWhitespace(src[r])
    ensures !Match(src, r, "#!")
    decreases |src| - p
  {
    var q := TakeWhileAt(src, p, CdcLexer.IsWhitespace);
    if q.0 || Match(src, q.1, "#!") then
      SkipFrom(src, if Match(src, q.1, "#!") then TakeWhileAt(src, q.1 + 2, CdcLexer.NotNewline).1 else q.1)
    else q.1
  }

  /** One round of the skipping loop: whitespace, or a `#!` comment. */
  lemma SkipStep(src: string, q: nat, q1: nat, r: nat)
    requires q <= |src| && TakeWhileAt(src, q, CdcLexer.IsWhitespace).1 == q1
    requires TakeWhileAt(src, q, CdcLexer.IsWhitespace).0 || Match(src, q1, "#!")
    requires r == if Match(src, q1, "#!") then TakeWhileAt(src, q1 + 2, CdcLexer.NotNewline).1 else q1
    ensures SkipFrom(src, q) == SkipFrom(src, r)
  {
    var t := TakeWhileAt(src, q, CdcLexer.IsWhitespace);
    if Match(src, q1, "#!") {
      assert SkipFrom(src, q) == SkipFrom(src, TakeWhileAt(src, t.1 + 2, CdcLexer.NotNewline).1);
    } else {
      assert t.0;
      assert SkipFrom(src, q) == SkipFrom(src, t.1);
    }
  }

  /** The loop stops where neither whitespace nor `#!` follows. */
  lemma SkipStop(src: string, q: nat, q1: nat)
    requires q <= |src| && TakeWhileAt(src, q, CdcLexer.IsWhitespace) == (false, q1)
    requires !Match(src, q1, "#!")
    ensures SkipFrom(src, q) == q1
  {
  }

  /** produce_ident from `p`, given the token as it was. */
  function IdentAt(src: string, p: nat, tok: Token): (r: Lexed)
    requires p <= |src|
    ensures r.ok <==> p < |src| && IsIdentStart(src[p])
    ensures r.ok ==> p < r.pos <= |src| && r.tok.start == p && r.tok.end == r.pos
    ensures r.ok ==> forall k :: p < k < r.pos ==> IsIdentBody(src[k])
    ensures r.ok ==> r.pos == |src| || !IsIdentBody(src[r.pos])
    ensures r.ok ==> r.tok.kind == WordKind(src[p..r.pos])
    ensures !r.ok ==> r == Lexed(false, tok.(start := p), p)
  {
    if p < |src| && IsIdentStart(src[p]) then
      var e := TakeWhileAt(src, p + 1, IsIdentBody).1;
      Lexed(true, Token(WordKind(src[p..e]), p, e), e)
    else Lexed(false, tok.(start := p), p)
  }

  /** produce_symbol: `#` and the run of identifier characters after it. */
  function SymbolAt(src: string, p: nat, tok: Token): (r: Lexed)
    requires p <= |src|
    ensures r.ok <==> p < |src| && src[p] == '#'
    ensures r.ok ==> p < r.pos <= |src| && r.tok == Token(Symbol, p, r.pos)
    ensures r.ok ==> forall k :: p < k < r.pos ==> IsIdentBody(src[k])
    ensures r.ok ==> r.pos == |src| || !IsIdentBody(src[r.pos])
    ensures !r.ok ==> r == Lexed(false, tok.(start := p), p)
  {
    if p < |src| && src[p] == '#' then
      var e := TakeWhileAt(src, p + 1, IsIdentBody).1;
      Lexed(true, Token(Symbol, p, e), e)
    else Lexed(false, tok.(start := p), p)
  }

  /** produce_while: a non-empty run of `cond` characters. */
  function WhileAt(src: string, p: nat, tok: Token, cond: char -> bool, kind: TokenKind): (r: Lexed)
    requires p <= |src|
    ensures r.ok <==> p < |src| && src[p] != '\0' && cond(src[p])
    ensures r.ok ==> p < r.pos <= |src| && r.tok == Token(kind, p, r.pos)
    ensures r.ok ==> forall k :: p <= k < r.pos ==> cond(src[k])
  {
    var (t, e) := TakeWhileAt(src, p, cond);
    if t then Lexed(true, Token(kind, p, e), e) else Lexed(false, tok.(start := p), e)
  }

  /** The sigils in the order produce_sigil tries them. */
  function Sigils(): seq<(TokenKind, string)>
  {
    [(Arrow, "->"), (Add, "+"), (Sub, "-"), (Mul, "*"), (Div, "/"), (Apply, "."),
     (Eq, "="), (LParen, "("), (RParen, ")"), (LSquare, "["), (RSquare, "]"),
     (Cond, "?"), (TypeSigil, "$")]
  }

  /** produce_sigil from the `k`-th sigil on: the first that matches. */
  function SigilFrom(src: string, p: nat, tok: Token, k: nat): (r: Lexed)
    requires k <= |Sigils()|
    ensures r.ok <==> exists j :: k <= j < |Sigils()| && Match(src, p, Sigils()[j].1)
    ensures r.ok ==> exists j :: k <= j < |Sigils()| && Match(src, p, Sigils()[j].1)
                       && r == Lexed(true, Token(Sigils()[j].0, p, p + |Sigils()[j].1|), p + |Sigils()[j].1|)
    ensures !r.ok ==> r == Lexed(false, tok.(start := p), p)
    decreases |Sigils()| - k
  {
    if k == |Sigils()| then Lexed(false, tok.(start := p), p)
    else if Match(src, p, Sigils()[k].1) then
      Lexed(true, Token(Sigils()[k].0, p, p + |Sigils()[k].1|), p + |Sigils()[k].1|)
    else SigilFrom(src, p, tok, k + 1)
  }

  /** Every sigil is at least one character long. */
  lemma SigilsNonEmpty()
    ensures forall j :: 0 <= j < |Sigils()| ==> |Sigils()[j].1| > 0
  {
  }

  /** lexer_next from `p`: EOF when the current character is NUL, else the
      first producer that matches after the skipped whitespace and
      comments. */
  function NextAt(src: string, p: nat): (r: Lexed)
    requires p <= |src|
    ensures Views.CharAt(src, p) == '\0' ==> r == Lexed(true, Token(Eof, p, p + 1), p)
    ensures Views.CharAt(src, p) != '\0' ==> r.tok.start == SkipFrom(src, p)
    ensures Views.CharAt(src, p) != '\0' && r.ok ==> p <= r.tok.start < r.tok.end == r.pos <= |src|
    ensures !r.ok ==> r == Lexed(false, Token(None, SkipFrom(src, p), 0), SkipFrom(src, p))
  {
    if Views.CharAt(src, p) == '\0' then Lexed(true, Token(Eof, p, p + 1), p)
    else
      var s := SkipFrom(src, p);
      var tok := Token(None, s, 0);
      var i := IdentAt(src, s, tok);
      if i.ok then i else
      var y := SymbolAt(src, s, tok);
      if y.ok then y else
      var n := WhileAt(src, s, tok, CdcLexer.IsDigit, Int);
      if n.ok then n else
      SigilsNonEmpty();
      SigilFrom(src, s, tok, 0)
  }

  class Lexer {
    const src: string
    var ptr: nat

    predicate Valid()
      reads this
    {
      ptr <= |src|
    }

    /** lexer_create */
    constructor(source: string)
      ensures Valid() && src == source && ptr == 0
    {
      src := source;
      ptr := 0;
    }

    /** peek: the current character, NUL at the end. */
    function Peek(): char
      reads this
    {
      Views.CharAt(src, ptr)
    }

    /** take: pass the current character, answering whether it is not
        NUL; at the end nothing is passed. */
    method Take() returns (taken: bool)
      requires Valid()
      modifies this`ptr
      ensures Valid() && (taken, ptr) == TakeStep(src, old(ptr))
    {
      if ptr >= |src| {
        return false;
      }
      taken := src[ptr] != '\0';
      ptr := ptr + 1;
    }

    /** take_if */
    method TakeIf(cond: char -> bool) returns (taken: bool)
      requires Valid()
      modifies this`ptr
      ensures Valid() && (taken, ptr) == TakeIfStep(src, old(ptr), cond)
    {
      var c := Peek();
      taken := false;
      if cond(c) {
        taken := Take();
      }
    }

    /** take_str */
    method TakeStr(s: string) returns (taken: bool)
      requires Valid()
      modifies this`ptr
      ensures Valid() && taken == Match(src, old(ptr), s)
      ensures ptr == if taken then old(ptr) + |s| else old(ptr)
    {
      if ptr + |s| <= |src| && src[ptr..ptr + |s|] == s {
        ptr := ptr + |s|;
        return true;
      }
      return false;
    }

    /** peek_str */
    function PeekStr(s: string): bool
      reads this
    {
      Match(src, ptr, s)
    }

    /** take_while */
    method TakeWhile(cond: char -> bool) returns (taken: bool)
      requires Valid()
      modifies this`ptr
      ensures Valid() && (taken, ptr) == TakeWhileAt(src, old(ptr), cond)
    {
      ghost var p0: nat, q: nat := ptr, ptr;
      taken := false;
      var more := TakeIf(cond);
      while more
        invariant Valid() && q <= |src|
        invariant (more, ptr) == TakeIfStep(src, q, cond)
        invariant TakeWhileAt(src, q, cond).1 == TakeWhileAt(src, p0, cond).1
        invariant taken ==> TakeWhileAt(src, p0, cond).0
        invariant !taken ==> q == p0
        decreases |src| - ptr + (if more then 1 else 0)
      {
        q := ptr;
        taken := true;
        more := TakeIf(cond);
      }
    }

    /** take_if_eq */
    method TakeIfEq(c: char) returns (taken: bool)
      requires Valid()
      modifies this`ptr
      ensures Valid() && (taken, ptr) == TakeIfStep(src, old(ptr), x => x == c)
    {
      var d := Peek();
      taken := false;
      if d == c {
        taken := Take();
      }
    }

    /** produce_ident */
    method ProduceIdent(tok: Token) returns (ok: bool, tok': Token)
      requires Valid()
      modifies this`ptr
      ensures Valid() && Lexed(ok, tok', ptr) == IdentAt(src, old(ptr), tok)
    {
      tok' := tok.(start := ptr);
      ok := TakeIf(IsIdentStart);
      if !ok {
        return;
      }
      var _ := TakeWhile(IsIdentBody);
      tok' := tok'.(kind := Ident, end := ptr);
      var w := src[tok'.start..tok'.end];
      if KwCmp(w, |w|, "let") {
        tok' := tok'.(kind := KwLet);
      } else if KwCmp(w, |w|, "int") {
        tok' := tok'.(kind := KwInt);
      } else if KwCmp(w, |w|, "def") {
        tok' := tok'.(kind := KwDef);
      } else if KwCmp(w, |w|, "or") {
        tok' := tok'.(kind := KwOr);
      } else if KwCmp(w, |w|, "and") {
        tok' := tok'.(kind := KwAnd);
      } else if KwCmp(w, |w|, "not") {
        tok' := tok'.(kind := KwNot);
      }
    }

    /** produce_symbol */
    method ProduceSymbol(tok: Token) returns (ok: bool, tok': Token)
      requires Valid()
      modifies this`ptr
      ensures Valid() && Lexed(ok, tok', ptr) == SymbolAt(src, old(ptr), tok)
    {
      tok' := tok.(start := ptr);
      ok := TakeIfEq('#');
      if !ok {
        return;
      }
      var _ := TakeWhile(IsIdentBody);
      tok' := tok'.(kind := Symbol, end := ptr);
    }

    /** produce_while */
    method ProduceWhile(tok: Token, cond: char -> bool, kind: TokenKind) returns (ok: bool, tok': Token)
      requires Valid()
      modifies this`ptr
      ensures Valid() && Lexed(ok, tok', ptr) == WhileAt(src, old(ptr), tok, cond, kind)
    {
      tok' := tok.(start := ptr);
      ok := TakeWhile(cond);
      if !ok {
        return;
      }
      tok' := tok'.(kind := kind, end := ptr);
    }

    /** produce_int */
    method ProduceInt(tok: Token) returns (ok: bool, tok': Token)
      requires Valid()
      modifies this`ptr
      ensures Valid() && Lexed(ok, tok', ptr) == WhileAt(src, old(ptr), tok, CdcLexer.IsDigit, Int)
    {
      ok, tok' := ProduceWhile(tok, CdcLexer.IsDigit, Int);
    }

    /** produce_sigil: the `else if` chain over the sigils in order. */
    method ProduceSigil(tok: Token) returns (ok: bool, tok': Token)
      requires Valid()
      modifies this`ptr
      ensures Valid() && Lexed(ok, tok', ptr) == SigilFrom(src, old(ptr), tok, 0)
    {
      ghost var p := ptr;
      tok' := tok.(start := ptr);
      ok := false;
      var k := 0;
      while !ok && k < |Sigils()|
        invariant k <= |Sigils()| && Valid() && tok'.start == p
        invariant !ok ==> ptr == p && tok' == tok.(start := p) && SigilFrom(src, p, tok, k) == SigilFrom(src, p, tok, 0)
        invariant ok ==> Lexed(true, tok'.(end := ptr), ptr) == SigilFrom(src, p, tok, 0)
        decreases |Sigils()| - k, !ok
      {
        ok := TakeStr(Sigils()[k].1);
        if ok {
          tok' := tok'.(kind := Sigils()[k].0);
        } else {
          k := k + 1;
        }
      }
      if !ok {
        return;
      }
      tok' := tok'.(end := ptr);
    }

    /** The loop of lexer_next that skips whitespace and `#!` comments. */
    method Skip()
      requires Valid()
      modifies this`ptr
      ensures Valid() && ptr == SkipFrom(src, old(ptr))
    {
      ghost var p0: nat, q: nat := ptr, ptr;
      var w := TakeWhile(CdcLexer.IsWhitespace);
      while w || PeekStr("#!")
        invariant Valid() && q <= |src|
        invariant (w, ptr) == TakeWhileAt(src, q, CdcLexer.IsWhitespace)
        invariant SkipFrom(src, q) == SkipFrom(src, p0)
        decreases |src| - q
      {
        ghost var q1 := ptr;
        var hashbang := TakeStr("#!");
        if hashbang {
          var _ := TakeWhile(CdcLexer.NotNewline);
        }
        SkipStep(src, q, q1, ptr);
        q := ptr;
        w := TakeWhile(CdcLexer.IsWhitespace);
      }
      SkipStop(src, q, ptr);
    }

    /** lexer_next */
    method LexerNext() returns (ok: bool, tok: Token)
      requires Valid()
      modifies this`ptr
      ensures Valid() && Lexed(ok, tok, ptr) == NextAt(src, old(ptr))
    {
      tok := Token(None, ptr, 0);
      var c := Peek();
      if c == '\0' {
        return true, Token(Eof, ptr, ptr + 1);
      }
      Skip();
      ok, tok := ProduceIdent(tok);
      if ok {
        return;
      }
      ok, tok := ProduceSymbol(tok);
      if ok {
        return;
      }
      ok, tok := ProduceInt(tok);
      if ok {
        return;
      }
      ok, tok := ProduceSigil(tok);
    }
  }

  /** Keywords are whole identifiers: the kind is a keyword exactly when
      the identifier spells it. */
  lemma KeywordExact(w: string)
    requires forall j :: 0 <= j < |w| ==> w[j] != '\0'
    ensures WordKind(w) == KwLet <==> w == "let"
    ensures WordKind(w) == KwInt <==> w == "int"
    ensures WordKind(w) == KwDef <==> w == "def"
    ensures WordKind(w) == KwOr <==> w == "or"
    ensures WordKind(w) == KwAnd <==> w == "and"
    ensures WordKind(w) == KwNot <==> w == "not"
    ensures WordKind(w) == Ident <==> w !in {"let", "int", "def", "or", "and", "not"}
  {
    assert w[..|w|] == w;
  }

  /** Maximal munch: `letfoo` is one identifier, not `let` and `foo`. */
  lemma LetFoo(tok: Token)
    ensures IdentAt("letfoo", 0, tok) == Lexed(true, Token(Ident, 0, 6), 6)
  {
    assert TakeWhileAt("letfoo", 1, IsIdentBody).1 == 6;
    assert "letfoo"[0..6] == "letfoo";
    KeywordExact("letfoo");
  }

  /** `->` is an arrow, never a minus followed by `>`. */
  lemma ArrowFirst(src: string, p: nat)
    requires Match(src, p, "->")
    ensures NextAt(src, p) == Lexed(true, Token(Arrow, p, p + 2), p + 2)
  {
    assert src[p] == '-' && src[p + 1] == '>';
    assert SkipFrom(src, p) == p;
  }

  /** End of input is reported only when the lexer already stands there:
      input that ends in whitespace or a comment makes the next call fail
      instead, once the skipping loop has reached the end. */
  lemma EofOnlyAtEnd(src: string, p: nat)
    requires p <= |src| && Views.CharAt(src, p) != '\0' && SkipFrom(src, p) == |src|
    ensures NextAt(src, p) == Lexed(false, Token(None, |src|, 0), |src|)
  {
  }

  lemma TrailingSpace()
    ensures NextAt("x ", 0) == Lexed(true, Token(Ident, 0, 1), 1)
    ensures NextAt("x ", 1) == Lexed(false, Token(None, 2, 0), 2)
  {
    assert TakeWhileAt("x ", 1, IsIdentBody).1 == 1;
    assert "x "[0..1] == "x";
    KeywordExact("x");
    assert TakeWhileAt("x ", 1, CdcLexer.IsWhitespace) == (true, 2);
    assert SkipFrom("x ", 1) == 2;
  }
}
