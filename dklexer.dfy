/** The lexer of cdc/include/cdc/lexer.h: a pointer pair over the source
    and one instruction of lookahead.  Pointers become indices into `src`,
    whose end is `|src|`.

    Each producer is specified by a function of the source and the start
    position (`WhileAt`, `CommentAt`, `IdentAt`, ...) giving what it writes to
    `*instr` and where it leaves the pointer; `NextAt` chains them in the
    order `dk_lexer_take` tries them.  Two primitives are modelled twice:
    `TakeStr` and `TakeIf` as written, and `TakeStrFixed` and `TakeIfBounded`
    as evidently intended.  The specification functions take a flag
    choosing the bound of `dk_take_str` (`Takes`); the producers of the
    class use `dk_take_str` as written.  `dk_take_while` steps with the
    bounded `dk_take_if`, which differs from the one as written only where
    the loop of the source never ends (see CommentAtEnd). */
module DkLexer {
  import Views
  import CdcLexer

  datatype InstrKind =
    | None | EndFile
    | Whitespace | Comment
    | Number | String | Ident | Symbol
    | TypeNumber
    | Define | Let
    | Or | And | Not
    | Add | Sub | Mul | Div
    | Cond | Apply | Equal
    | Arrow | TypeSigil
    | LParen | RParen
    | LBracket | RBracket

  /** dk_instr_t: a kind and the span [ptr, end) of the source. */
  datatype Instr = Instr(kind: InstrKind, ptr: nat, end: nat)

  /** What a producer leaves behind: its verdict, what it wrote to `*instr`
      and the lexer's pointer. */
  datatype Produced = Produced(ok: bool, instr: Instr, pos: nat)

  predicate IsComment(c: char)
  {
    c != '\n'
  }

  predicate IsAlpha(c: char)
  {
    ('a' <= c <= 'z') || ('A' <= c <= 'Z')
  }

  predicate IsAlphanum(c: char)
  {
    IsAlpha(c) || CdcLexer.IsDigit(c)
  }

  predicate IsIdent(c: char)
  {
    IsAlphanum(c) || c == '_'
  }

  /** The classification of a whole identifier (dk_strncmp against each
      keyword in turn, an exact match of the span). */
  function Keyword(w: string): InstrKind
  {
    if w == "let" then Let
    else if w == "def" then Define
    else if w == "or" then Or
    else if w == "and" then And
    else if w == "not" then Not
    else if w == "int" then TypeNumber
    else Ident
  }

  /** Where `s` would be taken from `p`, with the bound as written: the
      match must end strictly before the end of the source. */
  predicate MatchAsWritten(src: string, p: nat, s: string)
  {
    p + |s| < |src| && src[p..p + |s|] == s
  }

  /** The same with the bound as intended: the match may end at the end. */
  predicate Match(src: string, p: nat, s: string)
  {
    p + |s| <= |src| && src[p..p + |s|] == s
  }

  /** dk_take_str's test: the bound as written, or as intended. */
  predicate Takes(src: string, p: nat, s: string, asWritten: bool)
  {
    if asWritten then MatchAsWritten(src, p, s) else Match(src, p, s)
  }

  /** One call of dk_take_if as written, from `p`: its verdict and the
      pointer after it.  At the end of the source it tests `cond('\0')`. */
  function TakeIfStep(src: string, p: nat, cond: char -> bool): (bool, nat)
  {
    var taken := cond(Views.CharAt(src, p));
    (taken, if taken && p < |src| then p + 1 else p)
  }

  /** The same step refusing at the end of the source. */
  function BoundedStep(src: string, p: nat, cond: char -> bool): (r: (bool, nat))
    ensures r.0 <==> p < |src| && cond(src[p])
    ensures r.1 == if r.0 then p + 1 else p
  {
    if p < |src| then TakeIfStep(src, p, cond) else (false, p)
  }

  /** Away from the end of the source, or for a condition `'\0'` fails,
      the two steps agree; otherwise the step as written claims a
      character without moving. */
  lemma TakeIfAgrees(src: string, p: nat, cond: char -> bool)
    requires p <= |src|
    ensures p < |src| || !cond('\0') <==> TakeIfStep(src, p, cond) == BoundedStep(src, p, cond)
    ensures p == |src| && cond('\0') ==> TakeIfStep(src, p, cond) == (true, p)
  {
  }

  /** dk_produce_while (and dk_produce_whitespace, dk_produce_number): the
      maximal run of `cond` characters, which must not be empty. */
  function WhileAt(src: string, p: nat, kind: InstrKind, cond: char -> bool): (r: Produced)
    requires p <= |src|
    ensures r.ok ==> r.instr == Instr(kind, p, r.pos) && p < r.pos <= |src|
    ensures !r.ok ==> r == Produced(false, Instr(None, p, p), p)
    ensures forall k :: p <= k < r.pos ==> cond(src[k])
    ensures r.pos == |src| || !cond(src[r.pos])
  {
    var e := Views.Span(src, p, |src|, cond);
    if e > p then Produced(true, Instr(kind, p, e), e) else Produced(false, Instr(None, p, p), p)
  }

  /** dk_produce_str: exactly `s`, over dk_take_str as written or with
      the intended bound. */
  function StrAt(src: string, p: nat, kind: InstrKind, s: string, asWritten: bool): (r: Produced)
    ensures r.ok <==> Takes(src, p, s, asWritten)
    ensures r.ok ==> r == Produced(true, Instr(kind, p, p + |s|), p + |s|)
    ensures !r.ok ==> r == Produced(false, Instr(None, p, p), p)
  {
    if Takes(src, p, s, asWritten) then Produced(true, Instr(kind, p, p + |s|), p + |s|)
    else Produced(false, Instr(None, p, p), p)
  }

  /** dk_produce_comment: `#!` and at least one character up to the next
      newline.  A failure after the `#!` leaves the pointer past it.
      The run stops at the end of the source, where the loop of the source
      does not stop (see CommentAtEnd). */
  function CommentAt(src: string, p: nat, asWritten: bool): (r: Produced)
    requires p <= |src|
    ensures r.ok ==> Takes(src, p, "#!", asWritten) && r.instr == Instr(Comment, p, r.pos) && p + 2 < r.pos <= |src|
    ensures r.ok ==> forall k :: p + 2 <= k < r.pos ==> src[k] != '\n'
    ensures r.ok ==> r.pos == |src| || src[r.pos] == '\n'
    ensures !r.ok ==> r.instr == Instr(None, p, p) && r.pos == (if Takes(src, p, "#!", asWritten) then p + 2 else p)
  {
    if !Takes(src, p, "#!", asWritten) then Produced(false, Instr(None, p, p), p)
    else
      var e := Views.Span(src, p + 2, |src|, IsComment);
      if e > p + 2 then Produced(true, Instr(Comment, p, e), e)
      else Produced(false, Instr(None, p, p), p + 2)
  }

  /** dk_produce_ident: a letter, then the maximal run of identifier
      characters, classified as a whole. */
  function IdentAt(src: string, p: nat): (r: Produced)
    requires p <= |src|
    ensures r.ok <==> p < |src| && IsAlpha(src[p])
    ensures r.ok ==> p < r.pos <= |src| && r.instr == Instr(Keyword(src[p..r.pos]), p, r.pos)
    ensures r.ok ==> forall k :: p < k < r.pos ==> IsIdent(src[k])
    ensures r.ok ==> r.pos == |src| || !IsIdent(src[r.pos])
    ensures !r.ok ==> r == Produced(false, Instr(None, p, p), p)
  {
    if p < |src| && IsAlpha(src[p]) then
      var e := Views.Span(src, p + 1, |src|, IsIdent);
      Produced(true, Instr(Keyword(src[p..e]), p, e), e)
    else Produced(false, Instr(None, p, p), p)
  }

  /** dk_produce_symbol: `#`, then the maximal run of identifier characters. */
  function SymbolAt(src: string, p: nat): (r: Produced)
    requires p <= |src|
    ensures r.ok <==> p < |src| && src[p] == '#'
    ensures r.ok ==> p < r.pos <= |src| && r.instr == Instr(Symbol, p, r.pos)
    ensures r.ok ==> forall k :: p < k < r.pos ==> IsIdent(src[k])
    ensures r.ok ==> r.pos == |src| || !IsIdent(src[r.pos])
    ensures !r.ok ==> r == Produced(false, Instr(None, p, p), p)
  {
    if p < |src| && src[p] == '#' then
      var e := Views.Span(src, p + 1, |src|, IsIdent);
      Produced(true, Instr(Symbol, p, e), e)
    else Produced(false, Instr(None, p, p), p)
  }

  /** The sigils in the order dk_produce_sigil tries them. */
  function Sigils(): seq<(InstrKind, string)>
  {
    [(Arrow, "->"), (Add, "+"), (Sub, "-"), (Mul, "*"), (Div, "/"), (Apply, "."),
     (Equal, "="), (LParen, "("), (RParen, ")"), (LBracket, "["), (RBracket, "]"),
     (Cond, "?"), (TypeSigil, "$")]
  }

  /** dk_produce_sigil from the `k`-th sigil on: the first that matches. */
  function SigilFrom(src: string, p: nat, k: nat, asWritten: bool): (r: Produced)
    requires k <= |Sigils()|
    ensures r.ok <==> exists j :: k <= j < |Sigils()| && Takes(src, p, Sigils()[j].1, asWritten)
    ensures !r.ok ==> r == Produced(false, Instr(None, p, p), p)
    decreases |Sigils()| - k
  {
    if k == |Sigils()| then Produced(false, Instr(None, p, p), p)
    else
      var o := StrAt(src, p, Sigils()[k].0, Sigils()[k].1, asWritten);
      if o.ok then o else SigilFrom(src, p, k + 1, asWritten)
  }

  function SigilAt(src: string, p: nat, asWritten: bool): Produced
  {
    SigilFrom(src, p, 0, asWritten)
  }

  /** What dk_lexer_take lexes from `p` before the end of the source: the
      first producer that matches, each starting where the last left the
      pointer.  `asWritten` chooses the bound of dk_take_str. */
  function NextAt(src: string, p: nat, asWritten: bool): (r: Produced)
    requires p < |src|
    ensures r.ok ==> p <= r.instr.ptr < r.instr.end == r.pos <= |src|
    ensures r.ok && r.instr.ptr != p ==> Takes(src, p, "#!", asWritten) && r.instr.ptr == p + 2
    ensures !r.ok ==> r.pos == (if Takes(src, p, "#!", asWritten) then p + 2 else p)
  {
    var w := WhileAt(src, p, Whitespace, CdcLexer.IsWhitespace);
    if w.ok then w else
    var c := CommentAt(src, p, asWritten);
    if c.ok then c else
    var i := IdentAt(src, c.pos);
    if i.ok then i else
    var s := SymbolAt(src, c.pos);
    if s.ok then s else
    var n := WhileAt(src, c.pos, Number, CdcLexer.IsDigit);
    if n.ok then n else
    var g := SigilAt(src, c.pos, asWritten);
    if g.ok then SigilSpan(src, c.pos, 0, asWritten); g else g
  }

  /** A sigil that matches spans exactly its own text. */
  lemma {:induction false} SigilSpan(src: string, p: nat, k: nat, asWritten: bool)
    requires k <= |Sigils()| && SigilFrom(src, p, k, asWritten).ok
    ensures var r := SigilFrom(src, p, k, asWritten);
      exists j :: k <= j < |Sigils()| && r == Produced(true, Instr(Sigils()[j].0, p, p + |Sigils()[j].1|), p + |Sigils()[j].1|)
              && 0 < |Sigils()[j].1| && Takes(src, p, Sigils()[j].1, asWritten)
    decreases |Sigils()| - k
  {
    if !StrAt(src, p, Sigils()[k].0, Sigils()[k].1, asWritten).ok {
      SigilSpan(src, p, k + 1, asWritten);
    }
  }

  class Lexer {
    const src: string
    var ptr: nat
    var peek: Instr

    predicate Valid()
      reads this
    {
      ptr <= |src|
    }

    /** dk_lexer_create */
    constructor(source: string)
      ensures Valid() && src == source && ptr == 0 && peek == Instr(None, 0, 0)
    {
      src := source;
      ptr := 0;
      peek := Instr(None, 0, 0);
    }

    /** dk_peek: the current character, NUL at the end. */
    function Peek(): char
      reads this
    {
      Views.CharAt(src, ptr)
    }

    /** dk_take: the current character, moving past it unless at the end. */
    method Take() returns (c: char)
      requires Valid()
      modifies this`ptr
      ensures Valid() && c == old(Peek())
      ensures ptr == if old(ptr) < |src| then old(ptr) + 1 else old(ptr)
    {
      if ptr >= |src| {
        return '\0';
      }
      c := src[ptr];
      ptr := ptr + 1;
    }

    /** dk_take_if as written: at the end of the source it answers
        `cond('\0')` and does not move. */
    method TakeIf(cond: char -> bool) returns (taken: bool)
      requires Valid()
      modifies this`ptr
      ensures Valid() && (taken, ptr) == TakeIfStep(src, old(ptr), cond)
    {
      if !cond(Peek()) {
        return false;
      }
      var _ := Take();
      return true;
    }

    /** dk_take_if as evidently intended: nothing is taken at the end. */
    method TakeIfBounded(cond: char -> bool) returns (taken: bool)
      requires Valid()
      modifies this`ptr
      ensures Valid() && (taken, ptr) == BoundedStep(src, old(ptr), cond)
    {
      if ptr >= |src| || !cond(Peek()) {
        return false;
      }
      var _ := Take();
      return true;
    }

    /** dk_take_ifc */
    method TakeIfc(c: char) returns (taken: bool)
      requires Valid()
      modifies this`ptr
      ensures Valid() && taken == (c == old(Peek()))
      ensures ptr == if taken && old(ptr) < |src| then old(ptr) + 1 else old(ptr)
    {
      if c != Peek() {
        return false;
      }
      var _ := Take();
      return true;
    }

    /** dk_take_str as written. */
    method TakeStr(s: string) returns (taken: bool)
      requires Valid()
      modifies this`ptr
      ensures Valid() && taken == MatchAsWritten(src, old(ptr), s)
      ensures ptr == if taken then old(ptr) + |s| else old(ptr)
    {
      if ptr + |s| >= |src| {
        return false;
      }
      if src[ptr..ptr + |s|] != s {
        return false;
      }
      ptr := ptr + |s|;
      return true;
    }

    /** dk_take_str with the bound as intended. */
    method TakeStrFixed(s: string) returns (taken: bool)
      requires Valid()
      modifies this`ptr
      ensures Valid() && taken == Match(src, old(ptr), s)
      ensures ptr == if taken then old(ptr) + |s| else old(ptr)
    {
      if ptr + |s| > |src| {
        return false;
      }
      if src[ptr..ptr + |s|] != s {
        return false;
      }
      ptr := ptr + |s|;
      return true;
    }

    /** dk_take_while: the maximal run of `cond` characters.  It steps with
        the bounded dk_take_if, which agrees with the one as written unless
        `cond('\0')` holds at the end of the source, where the loop of the
        source never ends (see TakeIfAgrees and CommentAtEnd). */
    method TakeWhile(cond: char -> bool) returns (taken: bool)
      requires Valid()
      modifies this`ptr
      ensures Valid() && ptr == Views.Span(src, old(ptr), |src|, cond)
      ensures taken <==> ptr > old(ptr)
    {
      ghost var p0, run := ptr, Views.Span(src, ptr, |src|, cond);
      taken := false;
      var more := TakeIfBounded(cond);
      while more
        invariant Valid() && p0 <= ptr
        invariant more ==> ptr > p0 && Views.Span(src, ptr, |src|, cond) == run
        invariant !more ==> ptr == run && (taken <==> ptr > p0)
        decreases |src| - ptr + (if more then 1 else 0)
      {
        taken := true;
        more := TakeIfBounded(cond);
      }
    }

    /** dk_produce_if (unused by the lexer), over dk_take_if as written. */
    method ProduceIf(kind: InstrKind, cond: char -> bool) returns (ok: bool, instr: Instr)
      requires Valid()
      modifies this`ptr
      ensures Valid() && ok == cond(Views.CharAt(src, old(ptr)))
      ensures instr == if ok then Instr(kind, old(ptr), ptr) else Instr(None, old(ptr), old(ptr))
      ensures (ok, ptr) == TakeIfStep(src, old(ptr), cond)
    {
      instr := Instr(None, ptr, ptr);
      ok := TakeIf(cond);
      if !ok {
        return;
      }
      instr := instr.(end := ptr, kind := kind);
    }

    /** dk_produce_while */
    method ProduceWhile(kind: InstrKind, cond: char -> bool) returns (ok: bool, instr: Instr)
      requires Valid()
      modifies this`ptr
      ensures Valid() && Produced(ok, instr, ptr) == WhileAt(src, old(ptr), kind, cond)
    {
      instr := Instr(None, ptr, ptr);
      ok := TakeWhile(cond);
      if !ok {
        return;
      }
      instr := instr.(end := ptr, kind := kind);
    }

    /** dk_produce_str, over dk_take_str as written */
    method ProduceStr(kind: InstrKind, s: string) returns (ok: bool, instr: Instr)
      requires Valid()
      modifies this`ptr
      ensures Valid() && Produced(ok, instr, ptr) == StrAt(src, old(ptr), kind, s, true)
    {
      instr := Instr(None, ptr, ptr);
      ok := TakeStr(s);
      if !ok {
        return;
      }
      instr := instr.(end := ptr, kind := kind);
    }

    /** dk_produce_ident */
    method ProduceIdent() returns (ok: bool, instr: Instr)
      requires Valid()
      modifies this`ptr
      ensures Valid() && Produced(ok, instr, ptr) == IdentAt(src, old(ptr))
    {
      instr := Instr(None, ptr, ptr);
      ok := TakeIf(IsAlpha);
      if !ok {
        return;
      }
      var _ := TakeWhile(IsIdent);
      instr := instr.(end := ptr);
      // maximal munch: classify the whole identifier, not a prefix of it
      var word := src[instr.ptr..instr.end];
      if word == "let" {
        instr := instr.(kind := Let);
      } else if word == "def" {
        instr := instr.(kind := Define);
      } else if word == "or" {
        instr := instr.(kind := Or);
      } else if word == "and" {
        instr := instr.(kind := And);
      } else if word == "not" {
        instr := instr.(kind := Not);
      } else if word == "int" {
        instr := instr.(kind := TypeNumber);
      } else {
        instr := instr.(kind := Ident);
      }
    }

    /** dk_produce_symbol */
    method ProduceSymbol() returns (ok: bool, instr: Instr)
      requires Valid()
      modifies this`ptr
      ensures Valid() && Produced(ok, instr, ptr) == SymbolAt(src, old(ptr))
    {
      instr := Instr(None, ptr, ptr);
      ok := TakeIfc('#');
      if !ok {
        return;
      }
      var _ := TakeWhile(IsIdent);
      instr := instr.(end := ptr, kind := Symbol);
    }

    /** dk_produce_number */
    method ProduceNumber() returns (ok: bool, instr: Instr)
      requires Valid()
      modifies this`ptr
      ensures Valid() && Produced(ok, instr, ptr) == WhileAt(src, old(ptr), Number, CdcLexer.IsDigit)
    {
      ok, instr := ProduceWhile(Number, CdcLexer.IsDigit);
    }

    /** dk_produce_sigil: the chain of `||` over the sigils in order. */
    method ProduceSigil() returns (ok: bool, instr: Instr)
      requires Valid()
      modifies this`ptr
      ensures Valid() && Produced(ok, instr, ptr) == SigilAt(src, old(ptr), true)
    {
      ghost var p := ptr;
      var k := 0;
      ok, instr := ProduceStr(Sigils()[k].0, Sigils()[k].1);
      while !ok && k + 1 < |Sigils()|
        invariant k < |Sigils()| && Valid()
        invariant !ok ==> ptr == p && instr == Instr(None, p, p) && SigilFrom(src, p, k + 1, true) == SigilAt(src, p, true)
        invariant ok ==> Produced(ok, instr, ptr) == SigilAt(src, p, true)
        decreases |Sigils()| - k
      {
        k := k + 1;
        ok, instr := ProduceStr(Sigils()[k].0, Sigils()[k].1);
      }
      if !ok {
        assert k + 1 == |Sigils()|;
        assert SigilFrom(src, p, k + 1, true) == Produced(false, Instr(None, p, p), p);
      }
    }

    /** dk_produce_whitespace */
    method ProduceWhitespace() returns (ok: bool, instr: Instr)
      requires Valid()
      modifies this`ptr
      ensures Valid() && Produced(ok, instr, ptr) == WhileAt(src, old(ptr), Whitespace, CdcLexer.IsWhitespace)
    {
      ok, instr := ProduceWhile(Whitespace, CdcLexer.IsWhitespace);
    }

    /** dk_produce_comment, over dk_take_str as written */
    method ProduceComment() returns (ok: bool, instr: Instr)
      requires Valid()
      modifies this`ptr
      ensures Valid() && Produced(ok, instr, ptr) == CommentAt(src, old(ptr), true)
    {
      instr := Instr(None, ptr, ptr);
      ok := TakeStr("#!");
      if !ok {
        return;
      }
      ok := TakeWhile(IsComment);
      if !ok {
        return;
      }
      instr := instr.(end := ptr, kind := Comment);
    }

    /** dk_lexer_peek */
    method LexerPeek() returns (ok: bool, instr: Instr)
      ensures ok && instr == peek
    {
      return true, peek;
    }

    /** dk_lexer_take: hand back the instruction peeked last time and peek
        the next one.  `instr` is what the caller's `*instr` held; it is
        written only when a new instruction was lexed.  At the end of the
        source nothing changes and the answer is still true. */
    method LexerTake(instr: Instr) returns (ok: bool, instr': Instr)
      requires Valid()
      modifies this`ptr, this`peek
      ensures Valid()
      ensures old(ptr) >= |src| ==> ok && instr' == instr && ptr == old(ptr) && peek == old(peek)
      ensures old(ptr) < |src| ==> var n := NextAt(src, old(ptr), true);
        ok == n.ok && ptr == n.pos
        && (ok ==> instr' == old(peek) && peek == n.instr)
        && (!ok ==> instr' == instr && peek == old(peek))
    {
      var next := Instr(None, ptr, ptr);
      if ptr >= |src| {
        next := next.(kind := EndFile);
        return true, instr;
      }
      ghost var p := ptr;
      ok, next := ProduceWhitespace();
      if !ok {
        ok, next := ProduceComment();
        ghost var c := ptr;
        if !ok {
          ok, next := ProduceIdent();
          if !ok {
            ok, next := ProduceSymbol();
            if !ok {
              ok, next := ProduceNumber();
              if !ok {
                ok, next := ProduceSigil();
                if ok {
                  SigilSpan(src, c, 0, true);
                }
              }
            }
          }
        }
      }
      if !ok {
        return false, instr;
      }
      var _, prev := LexerPeek();
      instr' := prev;
      peek := next;
    }
  }

  /** Keywords are recognised only as whole identifiers: `letfoo` is an
      identifier, `let` a keyword. */
  lemma KeywordExact(w: string)
    ensures Keyword(w) == Let <==> w == "let"
    ensures Keyword(w) == Define <==> w == "def"
    ensures Keyword(w) == Or <==> w == "or"
    ensures Keyword(w) == And <==> w == "and"
    ensures Keyword(w) == Not <==> w == "not"
    ensures Keyword(w) == TypeNumber <==> w == "int"
    ensures Keyword(w) == Ident <==> w !in {"let", "def", "or", "and", "not", "int"}
  {
  }

  lemma LetFoo()
    ensures IdentAt("letfoo", 0) == Produced(true, Instr(Ident, 0, 6), 6)
    ensures IdentAt("let foo", 0) == Produced(true, Instr(Let, 0, 3), 3)
  {
    assert "letfoo"[0..6] == "letfoo";
    assert "let foo"[0..3] == "let";
    assert !IsIdent("let foo"[3]);
  }

  /** `->` is an arrow, never a minus followed by `>`. */
  lemma ArrowFirst(src: string, p: nat, asWritten: bool)
    requires p < |src| && Takes(src, p, "->", asWritten)
    ensures NextAt(src, p, asWritten) == Produced(true, Instr(Arrow, p, p + 2), p + 2)
  {
    assert src[p] == "->"[0];
    assert !Takes(src, p, "#!", asWritten);
  }

  /** As written, `dk_take_str` misses exactly the matches that end at the
      end of the source. */
  lemma TakeStrBound(src: string, p: nat, s: string)
    ensures MatchAsWritten(src, p, s) <==> Match(src, p, s) && p + |s| != |src|
  {
  }

  /** A source that is a lone `+`: the code as written lexes nothing from
      it, where the intended bound lexes an ADD. */
  lemma LonePlus()
    ensures !MatchAsWritten("+", 0, "+")
    ensures NextAt("+", 0, true) == Produced(false, Instr(None, 0, 0), 0)
    ensures NextAt("+", 0, false) == Produced(true, Instr(Add, 0, 1), 1)
  {
    assert "+"[0..1] == "+";
    assert !Match("+", 0, "->");
    assert Match("+", 0, Sigils()[1].1);
  }

  /** A comment that runs to the end of the source: with dk_take_if as
      written, `dk_take_while(lx, dk_is_comment)` reaches the end and then
      keeps taking `'\0'` without moving, for ever.  With the bounded step it
      stops there and the comment is lexed. */
  lemma CommentAtEnd()
    ensures MatchAsWritten("#!x", 0, "#!")
    ensures TakeIfStep("#!x", 2, IsComment) == (true, 3)
    ensures TakeIfStep("#!x", 3, IsComment) == (true, 3)
    ensures CommentAt("#!x", 0, true) == Produced(true, Instr(Comment, 0, 3), 3)
  {
    assert "#!x"[0..2] == "#!";
  }
}
