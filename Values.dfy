/**
  The value model shared by the lexer, the parser and the evaluator: the
  `LexItem` union of the interpreter, its 64-bit integers, and the small
  wrappers used for optional values and for runs that panic.
 */
module Values {

  /** The interpreter's numbers are Rust `i64`s. */
  newtype i64 = x: int | -0x8000_0000_0000_0000 <= x < 0x8000_0000_0000_0000

  const I64Max: int := 0x7fff_ffff_ffff_ffff
  const I64Min: int := -0x8000_0000_0000_0000

  predicate InI64(x: int) {
    I64Min <= x <= I64Max
  }

  datatype Option<T> = None | Some(value: T)

  /** A computation that either returns normally or panics (an `unwrap` on
      nothing, or an integer overflow, which aborts the interpreter). */
  datatype Outcome<T> = Ok(value: T) | Panic

  /** Tokens, parsed program items and runtime values are all `LexItem`s.
      `Stack` and `Lambda` keep their contents in reversed program order:
      the first written item is the last element. */
  datatype LexItem =
    | Word(word: string)
    | OpenParen
    | CloseParen
    | Num(num: i64)
    | Parameter(name: string)
    | Stack(items: seq<LexItem>)
    | Lambda(items: seq<LexItem>)
    | Literal(text: string)
    | Quote

  function Last<T>(s: seq<T>): T
    requires s != []
  {
    s[|s| - 1]
  }

  function DropLast<T>(s: seq<T>): seq<T>
    requires s != []
  {
    s[..|s| - 1]
  }

  /** Rust's `Vec::pop` for callers that ignore the popped value. */
  function PopBack<T>(s: seq<T>): (r: seq<T>)
    ensures |r| == if s == [] then 0 else |s| - 1
    ensures r == s[..|r|]
  {
    if s == [] then [] else s[..|s| - 1]
  }

  /** The sequence read from its back to its front. */
  function Reverse<T>(s: seq<T>): (r: seq<T>)
    ensures |r| == |s|
  {
    seq(|s|, i requires 0 <= i < |s| => s[|s| - 1 - i])
  }
}
