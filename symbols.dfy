/** Symbols, error reports and the Result type shared by the cdeck compiler
    (cdeck/cdc.hpp). A symbol's text is the characters of its view. */
module Symbols {

  /** SymbolKind of cdeck/cdc.hpp; `Blank` is the source's NONE. */
  datatype Kind =
    | Blank | Term
    | Bind
    | Program | Addr | Ident | Int | Str
    | Fn | Let | Mark | Quote
    | Unmark | Unquote
    | End
    | Call | Go | Count | Word | Byte | Choose
    | DeqPush | DeqPop
    | Pop | Get | Set
    | Add | Sub | Mul | Div | Mod | Shl | Shr
    | And | Or | Xor | Not
    | Cmp

  datatype Symbol = Symbol(kind: Kind, text: string)

  /** ErrorKind of cdeck/cdc.hpp. */
  datatype ErrorKind =
    | Generic | Unreachable | NotImplemented | UnknownChar
    | ExpectFn | ExpectIdent | ExpectInstruction | ExpectQuote | ExpectUnquote
    | ExpectLet | ExpectMark | ExpectUnmark | ExpectLiteral
    | Clash | Undefined

  /** What `report` throws: the offending text and the error kind. */
  datatype Report = Report(sv: string, kind: ErrorKind)

  /** A thrown Report becomes a Fail value that every caller propagates. */
  datatype Result<+T> = Ok(value: T) | Fail(report: Report) {
    predicate IsFailure() { Fail? }
    function PropagateFailure<U>(): Result<U>
      requires Fail?
    {
      Fail(report)
    }
    function Extract(): T
      requires Ok?
    {
      value
    }
  }

  datatype Option<+T> = None | Some(value: T)

  /** No element occurs twice. */
  predicate NoDup<T(==)>(s: seq<T>)
  {
    forall a, b :: 0 <= a < b < |s| ==> s[a] != s[b]
  }

  /** The kinds that open a block closed by an END. */
  predicate IsOpener(k: Kind)
  {
    k == Program || k == Fn || k == Let || k == Mark || k == Quote
  }

  /** is_literal */
  predicate IsLiteral(s: Symbol)
  {
    s.kind == Int || s.kind == Str
  }

  /** The builtin operators the lexer retags identifiers to. */
  predicate IsBuiltin(k: Kind)
  {
    k == Go || k == Count || k == Word || k == Byte || k == Choose
    || k == DeqPush || k == DeqPop || k == Pop || k == Get || k == Set
    || k == Add || k == Sub || k == Mul || k == Div || k == Mod || k == Shl || k == Shr
    || k == And || k == Or || k == Xor || k == Not || k == Cmp
  }

  /** is_instruction: the kinds that may start an instruction. */
  predicate IsInstruction(s: Symbol)
  {
    s.kind == Ident || s.kind == Int || s.kind == Str
    || s.kind == Let || s.kind == Mark || s.kind == Quote
    || IsBuiltin(s.kind)
  }
}
