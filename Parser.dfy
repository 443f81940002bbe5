/**
  The parser of src/main.rs, `parse_stacks`: it turns the lexeme vector into
  the program vector, grouping bracketed lexemes into `Lambda`s, or into
  `Stack`s when a quote precedes the bracket, and quoted words into
  `Literal`s.  Both vectors keep the program in reversed order: the parser
  takes the next lexeme from the back and inserts each parsed item at the
  front.
 */
module Parser {
  import opened Values
  import opened Lexer

  /** One level of `parse_stacks` with the quote flag `quoted`: returns the
      lexemes it left unread and the parsed items.  A closing bracket ends the
      level; an opening bracket parses a nested level.  After any item other
      than a quote the source calls itself on the rest of the input, which
      starts again with the flag cleared; a quote before a number or a
      parameter is therefore dropped. */
  function ParseLevel(lex: seq<LexItem>, quoted: bool, parsed: seq<LexItem>): (r: (seq<LexItem>, seq<LexItem>))
    ensures |r.0| <= |lex| && r.0 == lex[..|r.0|]
    decreases |lex|
  {
    if lex == [] then (lex, parsed)
    else
      var rest := DropLast(lex);
      match Last(lex)
      case OpenParen =>
        var (after, group) := ParseLevel(rest, false, []);
        ParseLevel(after, false, [if quoted then Stack(group) else Lambda(group)] + parsed)
      case CloseParen => (rest, parsed)
      case Quote => ParseLevel(rest, true, parsed)
      case Word(w) => ParseLevel(rest, false, [if quoted then Literal(w) else Word(w)] + parsed)
      case _ => ParseLevel(rest, false, [Last(lex)] + parsed)
  }

  /** `parse_stacks(lex_input, parsed_input)`: the lexemes it leaves in
      `lex_input` and the vector it returns. */
  method ParseStacks(lexInput: seq<LexItem>, parsedInput: seq<LexItem>) returns (lexRest: seq<LexItem>, parsed: seq<LexItem>)
    ensures (lexRest, parsed) == ParseLevel(lexInput, false, parsedInput)
    decreases |lexInput|
  {
    lexRest, parsed := lexInput, parsedInput;
    var quoted := false;
    while lexRest != []
      invariant |lexRest| <= |lexInput|
      invariant ParseLevel(lexRest, quoted, parsed) == ParseLevel(lexInput, false, parsedInput)
      decreases |lexRest|
    {
      var top := Last(lexRest);
      lexRest := DropLast(lexRest);
      match top {
        case OpenParen =>
          var after, group := ParseStacks(lexRest, []);
          lexRest := after;
          if quoted {
            parsed := [Stack(group)] + parsed;
            quoted := false;
          } else {
            parsed := [Lambda(group)] + parsed;
          }
        case CloseParen =>
          return;
        case Quote =>
          quoted := true;
        case Word(w) =>
          if quoted {
            parsed := [Literal(w)] + parsed;
          } else {
            parsed := [Word(w)] + parsed;
          }
          lexRest, parsed := ParseStacks(lexRest, parsed);
          return;
        case _ =>
          parsed := [top] + parsed;
          lexRest, parsed := ParseStacks(lexRest, parsed);
          return;
      }
    }
  }

  /** Parsed items: no bracket or quote markers at any depth. */
  predicate Parsed(t: LexItem)
    decreases t
  {
    match t
    case Stack(g) => AllParsed(g)
    case Lambda(g) => AllParsed(g)
    case OpenParen => false
    case CloseParen => false
    case Quote => false
    case _ => true
  }

  predicate AllParsed(ts: seq<LexItem>)
    decreases ts
  {
    forall k :: 0 <= k < |ts| ==> Parsed(ts[k])
  }

  /** The number of items in a tree of groups. */
  function Size(t: LexItem): nat
    decreases t
  {
    match t
    case Stack(g) => 1 + SizeOf(g)
    case Lambda(g) => 1 + SizeOf(g)
    case _ => 1
  }

  function SizeOf(ts: seq<LexItem>): nat
    decreases ts
  {
    if ts == [] then 0 else SizeOf(DropLast(ts)) + Size(Last(ts))
  }

  /** The lexemes that write one parsed item, in the lexeme vector's order
      (the first lexeme last). */
  function Tokens(t: LexItem): seq<LexItem>
    decreases t
  {
    match t
    case Lambda(g) => [CloseParen] + Unparse(g) + [OpenParen]
    case Stack(g) => [CloseParen] + Unparse(g) + [OpenParen, Quote]
    case Literal(w) => [Word(w), Quote]
    case _ => [t]
  }

  /** The lexemes that write a parsed vector. */
  function Unparse(ts: seq<LexItem>): (lex: seq<LexItem>)
    decreases ts
  {
    if ts == [] then [] else Unparse(DropLast(ts)) + Tokens(Last(ts))
  }

  /** A bracket group parses back to its Lambda. */
  lemma {:induction false} ParseLambda(rest: seq<LexItem>, g: seq<LexItem>, acc: seq<LexItem>)
    requires AllParsed(g)
    ensures ParseLevel(rest + Tokens(Lambda(g)), false, acc) == ParseLevel(rest, false, [Lambda(g)] + acc)
    decreases 1 + SizeOf(g), 0
  {
    var lex := rest + Tokens(Lambda(g));
    assert Last(lex) == OpenParen;
    assert DropLast(lex) == (rest + [CloseParen]) + Unparse(g);
    ParseUnparse(rest + [CloseParen], g, []);
    assert g + [] == g;
  }

  /** A quoted bracket group parses back to its Stack. */
  lemma {:induction false} ParseStack(rest: seq<LexItem>, g: seq<LexItem>, acc: seq<LexItem>)
    requires AllParsed(g)
    ensures ParseLevel(rest + Tokens(Stack(g)), false, acc) == ParseLevel(rest, false, [Stack(g)] + acc)
    decreases 1 + SizeOf(g), 0
  {
    var lex := rest + Tokens(Stack(g));
    assert Last(lex) == Quote;
    assert Last(DropLast(lex)) == OpenParen;
    assert DropLast(DropLast(lex)) == (rest + [CloseParen]) + Unparse(g);
    ParseUnparse(rest + [CloseParen], g, []);
    assert g + [] == g;
  }

  /** A quoted word parses back to its Literal. */
  lemma ParseLiteral(rest: seq<LexItem>, w: string, acc: seq<LexItem>)
    ensures ParseLevel(rest + Tokens(Literal(w)), false, acc) == ParseLevel(rest, false, [Literal(w)] + acc)
  {
    var lex := rest + Tokens(Literal(w));
    assert DropLast(lex) == rest + [Word(w)];
    assert DropLast(DropLast(lex)) == rest;
  }

  /** A word, a number or a parameter is its own lexeme. */
  lemma ParseAtom(rest: seq<LexItem>, t: LexItem, acc: seq<LexItem>)
    requires t.Word? || t.Num? || t.Parameter?
    ensures ParseLevel(rest + Tokens(t), false, acc) == ParseLevel(rest, false, [t] + acc)
  {
    assert Tokens(t) == [t];
    assert DropLast(rest + [t]) == rest;
  }

  lemma {:induction false} ParseItem(rest: seq<LexItem>, t: LexItem, acc: seq<LexItem>)
    requires Parsed(t)
    ensures ParseLevel(rest + Tokens(t), false, acc) == ParseLevel(rest, false, [t] + acc)
    decreases Size(t), 1
  {
    match t
    case Lambda(g) => ParseLambda(rest, g, acc);
    case Stack(g) => ParseStack(rest, g, acc);
    case Literal(w) => ParseLiteral(rest, w, acc);
    case Word(w) => ParseAtom(rest, t, acc);
    case Num(n) => ParseAtom(rest, t, acc);
    case Parameter(p) => ParseAtom(rest, t, acc);
  }

  /** Parsing the lexemes that write a parsed vector P, with more lexemes R
      after them, gives P back and goes on with R. */
  lemma {:induction false} ParseUnparse(rest: seq<LexItem>, ts: seq<LexItem>, acc: seq<LexItem>)
    requires AllParsed(ts)
    ensures ParseLevel(rest + Unparse(ts), false, acc) == ParseLevel(rest, false, ts + acc)
    decreases SizeOf(ts), 2
  {
    if ts == [] {
      assert rest + Unparse(ts) == rest;
      assert ts + acc == acc;
    } else {
      var t := Last(ts);
      var front := DropLast(ts);
      assert rest + Unparse(ts) == (rest + Unparse(front)) + Tokens(t);
      ParseItem(rest + Unparse(front), t, acc);
      ParseUnparse(rest, front, [t] + acc);
      assert front + ([t] + acc) == ts + acc;
    }
  }

  /** The parser inverts writing: the lexemes of a parsed vector parse back
      to exactly that vector, with nothing left over. */
  lemma ParseOfUnparse(ts: seq<LexItem>)
    requires AllParsed(ts)
    ensures ParseLevel(Unparse(ts), false, []) == ([], ts)
  {
    ParseUnparse([], ts, []);
    assert [] + Unparse(ts) == Unparse(ts);
    assert ts + [] == ts;
  }

  /** A word, a number or a parameter: an item written as one lexeme. */
  predicate Flat(t: LexItem) {
    t.Word? || t.Num? || t.Parameter?
  }

  /** A flat item is written as itself. */
  lemma FlatTokens(t: LexItem)
    requires Flat(t)
    ensures Tokens(t) == [t]
  {
  }

  /** The last item of a vector is written last. */
  lemma UnparseSnoc(rest: seq<LexItem>, t: LexItem)
    ensures Unparse(rest + [t]) == Unparse(rest) + Tokens(t)
  {
    assert DropLast(rest + [t]) == rest;
  }

  /** Lexemes with no brackets or quotes are written as themselves. */
  lemma {:induction false} UnparseFlat(ts: seq<LexItem>)
    requires forall k :: 0 <= k < |ts| ==> Flat(ts[k])
    ensures Unparse(ts) == ts
  {
    if ts != [] {
      var rest, t := DropLast(ts), Last(ts);
      assert rest + [t] == ts;
      forall k | 0 <= k < |rest| ensures Flat(rest[k]) {
        assert rest[k] == ts[k];
      }
      UnparseFlat(rest);
      FlatTokens(t);
      UnparseSnoc(rest, t);
    }
  }

  /** Without brackets or quotes the parser returns the same items in the
      same vector order, and consumes all of them. */
  lemma ParseFlat(ts: seq<LexItem>)
    requires forall k :: 0 <= k < |ts| ==> Flat(ts[k])
    ensures ParseLevel(ts, false, []) == ([], ts)
  {
    UnparseFlat(ts);
    assert AllParsed(ts);
    ParseOfUnparse(ts);
  }

  /** A closing bracket with no opening bracket ends the top level: the
      lexemes after it are returned unread and never evaluated. */
  lemma UnmatchedCloseEndsProgram(rest: seq<LexItem>, ts: seq<LexItem>)
    requires AllParsed(ts)
    ensures ParseLevel(rest + [CloseParen] + Unparse(ts), false, []) == (rest, ts)
  {
    ParseUnparse(rest + [CloseParen], ts, []);
    assert ts + [] == ts;
  }

  /** A quote before a number is dropped: the number stays a number. */
  lemma QuotedNumberStaysNumber(rest: seq<LexItem>, n: i64, acc: seq<LexItem>)
    ensures ParseLevel(rest + [Num(n), Quote], false, acc) == ParseLevel(rest, false, [Num(n)] + acc)
  {
    var lex := rest + [Num(n), Quote];
    assert DropLast(lex) == rest + [Num(n)];
    assert DropLast(DropLast(lex)) == rest;
  }

  /** Parsing the lexer's output leaves no bracket or quote markers in what
      it returns, and returns the unread lexemes unchanged. */
  lemma {:induction false} ParseLevelParsed(lex: seq<LexItem>, quoted: bool, parsed: seq<LexItem>)
    requires forall k :: 0 <= k < |lex| ==> IsToken(lex[k])
    requires AllParsed(parsed)
    ensures AllParsed(ParseLevel(lex, quoted, parsed).1)
    decreases |lex|
  {
    if lex != [] {
      var rest := DropLast(lex);
      assert forall k :: 0 <= k < |rest| ==> IsToken(rest[k]) by {
        forall k | 0 <= k < |rest| ensures IsToken(rest[k]) {
          assert rest[k] == lex[k];
        }
      }
      match Last(lex)
      case OpenParen =>
        assert AllParsed([]);
        ParseLevelParsed(rest, false, []);
        var (after, group) := ParseLevel(rest, false, []);
        assert after == rest[..|after|];
        assert forall k :: 0 <= k < |after| ==> IsToken(after[k]) by {
          forall k | 0 <= k < |after| ensures IsToken(after[k]) {
            assert after[k] == rest[k];
          }
        }
        var item := if quoted then Stack(group) else Lambda(group);
        assert Parsed(item);
        ParseLevelParsed(after, false, [item] + parsed);
      case CloseParen =>
      case Quote =>
        ParseLevelParsed(rest, true, parsed);
      case Word(w) =>
        ParseLevelParsed(rest, false, [if quoted then Literal(w) else Word(w)] + parsed);
      case Num(n) =>
        ParseLevelParsed(rest, false, [Num(n)] + parsed);
      case Parameter(p) =>
        ParseLevelParsed(rest, false, [Parameter(p)] + parsed);
      case Stack(g) =>
        assert false;
      case Lambda(g) =>
        assert false;
      case Literal(w) =>
        assert false;
    }
  }
}
