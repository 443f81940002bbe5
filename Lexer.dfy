/**
  The lexer of src/main.rs: `next_lexeme` and its helpers `lex_number`,
  `lex_word` and `lex_parameter`, which advance one shared character iterator,
  and the loop of `eval` that lexes a whole line.  The iterator is the line
  plus an index; every helper takes the index where the iterator stands and
  returns the index where it leaves it.
 */
module Lexer {
  import opened Values
  import opened Numerals

  /** What one call of `next_lexeme` produced and where it left the iterator. */
  datatype Step = Step(item: Option<LexItem>, next: nat)

  /** The outcome of lexing a line: the lexeme vector (last lexeme first), a
      panic, or a loop that never ends because the iterator stopped moving. */
  datatype Lexing = Lexed(lexstack: seq<LexItem>) | LexPanic | Stuck

  /** The items the lexer itself produces. */
  predicate IsToken(t: LexItem) {
    t.Word? || t.Num? || t.Parameter? || t.OpenParen? || t.CloseParen? || t.Quote?
  }

  predicate IsWordStop(c: char) {
    c == ' ' || c == ']'
  }

  predicate IsAsciiLetter(c: char) {
    'A' <= c <= 'Z' || 'a' <= c <= 'z'
  }

  /** The characters `next_lexeme` knows; on any other it does not advance. */
  predicate IsListed(c: char) {
    IsDigit(c) || c == '-' || IsAsciiLetter(c) || c == '+' || c == '$' || c == '#'
    || c == ' ' || c == '\n' || c == '\t' || c == '[' || c == '(' || c == ']' || c == ')'
    || c == '\''
  }

  /** The end of the run of digits that starts at i. */
  function DigitEnd(s: string, i: nat): (j: nat)
    requires i <= |s|
    ensures i <= j <= |s|
    ensures forall k :: i <= k < j ==> IsDigit(s[k])
    ensures j == |s| || !IsDigit(s[j])
    decreases |s| - i
  {
    if i == |s| || !IsDigit(s[i]) then i else DigitEnd(s, i + 1)
  }

  /** The end of a word that continues at i: the first ' ' or ']', or the end. */
  function WordEnd(s: string, i: nat): (j: nat)
    requires i <= |s|
    ensures i <= j <= |s|
    ensures forall k :: i <= k < j ==> !IsWordStop(s[k])
    ensures j == |s| || IsWordStop(s[j])
    decreases |s| - i
  {
    if i == |s| || IsWordStop(s[i]) then i else WordEnd(s, i + 1)
  }

  /** What `lex_number(c, it)` returns and where it leaves the iterator, the
      iterator standing at pos.  A '-' at the very end panics (an `unwrap` of
      the peek); a value beyond `i64` panics in the digit loop. */
  function ScanNumber(c: char, s: string, pos: nat): (r: Outcome<(Option<i64>, nat)>)
    requires pos <= |s|
    ensures r.Ok? ==> pos <= r.value.1 <= |s|
  {
    if c == '-' && pos == |s| then Panic
    else if c == '-' && s[pos] == ' ' then Ok((None, pos))
    else
      var first := if c == '-' then s[pos] else c;
      var start := if c == '-' then pos + 1 else pos;
      if !IsDigit(first) then Ok((None, start))
      else
        var end := DigitEnd(s, start);
        var magnitude := Accumulate(DigitValue(first), s, start, end);
        if magnitude > I64Max then Panic
        else Ok((Some((if c == '-' then -(magnitude as int) else magnitude as int) as i64), end))
  }

  /** What `lex_parameter` returns: the decimal form of the digits that follow. */
  function ScanParameter(s: string, pos: nat): (r: Outcome<(string, nat)>)
    requires pos <= |s|
    ensures r.Ok? ==> pos <= r.value.1 <= |s|
  {
    var end := DigitEnd(s, pos);
    var value := Accumulate(0, s, pos, end);
    if value > I64Max then Panic else Ok((NatToString(value), end))
  }

  /** One call of `next_lexeme` with the iterator at i. */
  function Lexeme(s: string, i: nat): (r: Outcome<Step>)
    requires i < |s|
    ensures r.Ok? ==> i <= r.value.next <= |s|
    ensures r.Ok? && r.value.item.Some? ==> IsToken(r.value.item.value)
    ensures r.Ok? && r.value.next == i ==> r.value.item.None? && !IsListed(s[i])
  {
    var c := s[i];
    if IsDigit(c) || c == '-' then
      var scan := ScanNumber(c, s, i + 1);
      if scan.Panic? then Panic
      else if scan.value.0.Some? then Ok(Step(Some(Num(scan.value.0.value)), scan.value.1))
      else
        var next := scan.value.1;
        var end := WordEnd(s, next);
        Ok(Step(Some(Word([c] + s[next..end])), end))
    else if IsAsciiLetter(c) || c == '+' then
      var end := WordEnd(s, i + 1);
      Ok(Step(Some(Word([c] + s[i + 1..end])), end))
    else if c == '$' then
      var scan := ScanParameter(s, i + 1);
      if scan.Panic? then Panic else Ok(Step(Some(Parameter(scan.value.0)), scan.value.1))
    else if c == '#' then Ok(Step(Some(Word("#")), i + 1))
    else if c == ' ' || c == '\n' || c == '\t' then Ok(Step(None, i + 1))
    else if c == '[' || c == '(' then Ok(Step(Some(OpenParen), i + 1))
    else if c == ']' || c == ')' then Ok(Step(Some(CloseParen), i + 1))
    else if c == '\'' then Ok(Step(Some(Quote), i + 1))
    else Ok(Step(None, i))
  }

  /** The lexing loop of `eval` from position i on, with the lexemes found so
      far in `lexstack` (each new lexeme is inserted at the front). */
  function LexFrom(s: string, i: nat, lexstack: seq<LexItem>): (r: Lexing)
    requires i <= |s|
    decreases |s| - i
  {
    if i == |s| then Lexed(lexstack)
    else
      var step := Lexeme(s, i);
      if step.Panic? then LexPanic
      else if step.value.next == i then Stuck
      else
        var item := step.value.item;
        LexFrom(s, step.value.next, if item.Some? then [item.value] + lexstack else lexstack)
  }

  /** `lex_word`: the word is c followed by everything up to the first ' ' or ']'. */
  method LexWord(c: char, s: string, pos: nat) returns (word: string, next: nat)
    requires pos <= |s|
    ensures next == WordEnd(s, pos)
    ensures word == [c] + s[pos..next]
  {
    word, next := [c], pos;
    while next < |s| && !IsWordStop(s[next])
      invariant pos <= next <= |s|
      invariant word == [c] + s[pos..next]
      invariant WordEnd(s, next) == WordEnd(s, pos)
      decreases |s| - next
    {
      word := word + [s[next]];
      next := next + 1;
    }
  }

  /** `lex_number`, the iterator standing at pos just after c. */
  method LexNumber(c: char, s: string, pos: nat) returns (r: Outcome<(Option<i64>, nat)>)
    requires pos <= |s|
    ensures r == ScanNumber(c, s, pos)
  {
    var negative := false;
    var first := c;
    var next := pos;
    if c == '-' {
      negative := true;
      if next == |s| {
        return Panic;
      }
      if s[next] == ' ' {
        return Ok((None, next));
      }
      first := s[next];
      next := next + 1;
    }
    if !IsDigit(first) {
      return Ok((None, next));
    }
    ghost var start := next;
    var number: int := DigitValue(first);
    while next < |s| && IsDigit(s[next])
      invariant start <= next <= |s|
      invariant DigitEnd(s, next) == DigitEnd(s, start)
      invariant number == Accumulate(DigitValue(first), s, start, next) <= I64Max
      decreases |s| - next
    {
      var grown := number * 10 + DigitValue(s[next]);
      if grown > I64Max {
        AccumulateMonotone(DigitValue(first), s, start, next + 1, DigitEnd(s, start));
        return Panic;
      }
      number := grown;
      next := next + 1;
    }
    r := Ok((Some((if negative then -number else number) as i64), next));
  }

  /** `lex_parameter`, the iterator standing just after the '$'. */
  method LexParameter(s: string, pos: nat) returns (r: Outcome<(string, nat)>)
    requires pos <= |s|
    ensures r == ScanParameter(s, pos)
  {
    var number: nat := 0;
    var next := pos;
    while next < |s| && IsDigit(s[next])
      invariant pos <= next <= |s|
      invariant DigitEnd(s, next) == DigitEnd(s, pos)
      invariant number == Accumulate(0, s, pos, next) <= I64Max
      decreases |s| - next
    {
      var grown := number * 10 + DigitValue(s[next]);
      if grown > I64Max {
        AccumulateMonotone(0, s, pos, next + 1, DigitEnd(s, pos));
        return Panic;
      }
      number := grown;
      next := next + 1;
    }
    r := Ok((NatToString(number), next));
  }

  /** `next_lexeme` with the iterator at i (the caller has peeked a character). */
  method NextLexeme(s: string, i: nat) returns (r: Outcome<Step>)
    requires i < |s|
    ensures r == Lexeme(s, i)
  {
    var c := s[i];
    if IsDigit(c) || c == '-' {
      var scan := LexNumber(c, s, i + 1);
      if scan.Panic? {
        return Panic;
      }
      var (number, next) := scan.value;
      if number.Some? {
        return Ok(Step(Some(Num(number.value)), next));
      }
      var word, end := LexWord(c, s, next);
      return Ok(Step(Some(Word(word)), end));
    } else if IsAsciiLetter(c) || c == '+' {
      var word, end := LexWord(c, s, i + 1);
      return Ok(Step(Some(Word(word)), end));
    } else if c == '$' {
      var scan := LexParameter(s, i + 1);
      if scan.Panic? {
        return Panic;
      }
      return Ok(Step(Some(Parameter(scan.value.0)), scan.value.1));
    } else if c == '#' {
      return Ok(Step(Some(Word("#")), i + 1));
    } else if c == ' ' || c == '\n' || c == '\t' {
      return Ok(Step(None, i + 1));
    } else if c == '[' || c == '(' {
      return Ok(Step(Some(OpenParen), i + 1));
    } else if c == ']' || c == ')' {
      return Ok(Step(Some(CloseParen), i + 1));
    } else if c == '\'' {
      return Ok(Step(Some(Quote), i + 1));
    }
    return Ok(Step(None, i));
  }

  /** The lexing loop of `eval`: lexemes are inserted at the front of the
      vector, so it ends up in reversed program order.  Where the iterator
      does not move, the loop of the source repeats the same call forever;
      the model reports `Stuck` there instead of looping. */
  method LexLine(s: string) returns (r: Lexing)
    ensures r == LexFrom(s, 0, [])
  {
    var lexstack: seq<LexItem> := [];
    var pos := 0;
    while pos < |s|
      invariant pos <= |s|
      invariant LexFrom(s, pos, lexstack) == LexFrom(s, 0, [])
      decreases |s| - pos
    {
      var step := NextLexeme(s, pos);
      if step.Panic? {
        return LexPanic;
      }
      if step.value.next == pos {
        return Stuck;
      }
      if step.value.item.Some? {
        lexstack := [step.value.item.value] + lexstack;
      }
      pos := step.value.next;
    }
    return Lexed(lexstack);
  }

  predicate AllTokens(lexstack: seq<LexItem>) {
    forall k :: 0 <= k < |lexstack| ==> IsToken(lexstack[k])
  }

  /** The lexing loop produces nothing but lexemes. */
  lemma {:induction false} LexFromTokens(s: string, i: nat, lexstack: seq<LexItem>)
    requires i <= |s| && AllTokens(lexstack)
    ensures LexFrom(s, i, lexstack).Lexed? ==> AllTokens(LexFrom(s, i, lexstack).lexstack)
    decreases |s| - i
  {
    if i < |s| {
      var step := Lexeme(s, i);
      if step.Ok? && step.value.next != i {
        var item := step.value.item;
        var next := if item.Some? then [item.value] + lexstack else lexstack;
        assert AllTokens(next) by {
          if item.Some? {
            forall k | 0 <= k < |next| ensures IsToken(next[k]) {
              if k > 0 {
                assert next[k] == lexstack[k - 1];
              }
            }
          }
        }
        LexFromTokens(s, step.value.next, next);
      }
    }
  }

  lemma {:induction false} DigitEndAt(s: string, i: nat, j: nat)
    requires i <= j <= |s|
    requires forall k :: i <= k < j ==> IsDigit(s[k])
    requires j == |s| || !IsDigit(s[j])
    ensures DigitEnd(s, i) == j
    decreases j - i
  {
    if i < j {
      DigitEndAt(s, i + 1, j);
    }
  }

  lemma {:induction false} WordEndAt(s: string, i: nat, j: nat)
    requires i <= j <= |s|
    requires forall k :: i <= k < j ==> !IsWordStop(s[k])
    requires j == |s| || IsWordStop(s[j])
    ensures WordEnd(s, i) == j
    decreases j - i
  {
    if i < j {
      WordEndAt(s, i + 1, j);
    }
  }

  /** A digit starts a number that takes in every digit that follows; a value
      that does not fit in an i64 panics. */
  lemma LexemeNumberIsGreedy(s: string, i: nat)
    requires i < |s| && IsDigit(s[i])
    ensures var j := DigitEnd(s, i);
            var v := DigitsValue(s[i..j]);
            Lexeme(s, i) == if v <= I64Max then Ok(Step(Some(Num(v as i64)), j)) else Panic
  {
    var j := DigitEnd(s, i);
    assert DigitEnd(s, i + 1) == j;
    AccumulateFirst(s, i, j);
    AccumulateSlice(s, i, j);
  }

  /** '-' directly followed by a digit starts a negative number. */
  lemma LexemeNegativeNumber(s: string, i: nat)
    requires i + 1 < |s| && s[i] == '-' && IsDigit(s[i + 1])
    ensures var j := DigitEnd(s, i + 1);
            var v := DigitsValue(s[i + 1..j]);
            Lexeme(s, i) == if v <= I64Max then Ok(Step(Some(Num(-(v as int) as i64)), j)) else Panic
  {
    ScanNegative(s, i + 1);
  }

  /** The number scanner after a '-' reads the run of digits at pos. */
  lemma ScanNegative(s: string, pos: nat)
    requires pos < |s| && IsDigit(s[pos])
    ensures var j := DigitEnd(s, pos);
            var v := DigitsValue(s[pos..j]);
            ScanNumber('-', s, pos) == if v <= I64Max then Ok((Some(-(v as int) as i64), j)) else Panic
  {
    var j := DigitEnd(s, pos);
    assert DigitEnd(s, pos + 1) == j;
    AccumulateFirst(s, pos, j);
    AccumulateSlice(s, pos, j);
  }

  /** '-' followed by a space is the word "-". */
  lemma LexemeMinusBeforeSpace(s: string, i: nat)
    requires i + 1 < |s| && s[i] == '-' && s[i + 1] == ' '
    ensures Lexeme(s, i) == Ok(Step(Some(Word("-")), i + 1))
  {
    assert WordEnd(s, i + 1) == i + 1;
    assert ['-'] + s[i + 1..i + 1] == "-";
  }

  /** '-' as the last character panics: the number scanner unwraps a peek at
      the end of the line. */
  lemma LexemeMinusAtEnd(s: string)
    requires |s| > 0 && s[|s| - 1] == '-'
    ensures Lexeme(s, |s| - 1) == Panic
  {
  }

  /** '-' followed by anything but a digit or a space: the number scanner has
      already taken that character, and the word is '-' and what follows it. */
  lemma LexemeMinusDropsNextChar(s: string, i: nat)
    requires i + 1 < |s| && s[i] == '-' && s[i + 1] != ' ' && !IsDigit(s[i + 1])
    ensures var end := WordEnd(s, i + 2);
            Lexeme(s, i) == Ok(Step(Some(Word(['-'] + s[i + 2..end])), end))
  {
  }

  /** '$' names a parameter by the decimal value of the digits after it, "0"
      when there are none. */
  lemma LexemeParameter(s: string, i: nat)
    requires i < |s| && s[i] == '$'
    ensures var j := DigitEnd(s, i + 1);
            var v := DigitsValue(s[i + 1..j]);
            Lexeme(s, i) == if v <= I64Max then Ok(Step(Some(Parameter(NatToString(v))), j)) else Panic
    ensures DigitEnd(s, i + 1) == i + 1 ==> Lexeme(s, i) == Ok(Step(Some(Parameter("0")), i + 1))
  {
    AccumulateSlice(s, i + 1, DigitEnd(s, i + 1));
  }

  /** A letter or '+' starts a word that ends only at ' ' or ']': brackets such
      as ')' and tabs become part of the word. */
  lemma LexemeWord(s: string, i: nat)
    requires i < |s| && (IsAsciiLetter(s[i]) || s[i] == '+')
    ensures var j := WordEnd(s, i + 1);
            Lexeme(s, i) == Ok(Step(Some(Word(s[i..j])), j))
  {
    var j := WordEnd(s, i + 1);
    assert [s[i]] + s[i + 1..j] == s[i..j];
  }

  /** Whitespace is skipped and yields no lexeme. */
  lemma LexemeWhitespace(s: string, i: nat)
    requires i < |s| && (s[i] == ' ' || s[i] == '\n' || s[i] == '\t')
    ensures Lexeme(s, i) == Ok(Step(None, i + 1))
  {
  }

  /** '#' is a word of its own, whatever follows it: "#2" lexes as the word
      "#" and then the number 2. */
  lemma LexemeHash(s: string, i: nat)
    requires i < |s| && s[i] == '#'
    ensures Lexeme(s, i) == Ok(Step(Some(Word("#")), i + 1))
  {
  }

  /** A character the lexer does not list yields nothing and is not consumed,
      so the lexing loop never gets past it. */
  lemma LexemeUnlisted(s: string, i: nat, lexstack: seq<LexItem>)
    requires i < |s| && !IsListed(s[i])
    ensures Lexeme(s, i) == Ok(Step(None, i))
    ensures LexFrom(s, i, lexstack) == Stuck
  {
  }

  /** The tokens that have a printed form the lexer reads back. */
  predicate Printable(t: LexItem) {
    match t
    case Num(v) => v as int != I64Min
    case Word(w) =>
      w == "-" || w == "#" ||
      (|w| > 0 && (IsAsciiLetter(w[0]) || w[0] == '+') && forall k :: 0 <= k < |w| ==> !IsWordStop(w[k]))
    case Parameter(p) => DigitsValue(p) <= I64Max && p == NatToString(DigitsValue(p))
    case OpenParen => true
    case CloseParen => true
    case Quote => true
    case _ => false
  }

  /** The printed form of a token: numbers in decimal, words as their text,
      parameters as '$' and their index. */
  function TokenText(t: LexItem): (text: string)
    requires Printable(t)
    ensures |text| > 0
  {
    match t
    case Num(v) => if v >= 0 then NatToString(v as int) else ['-'] + NatToString(-(v as int))
    case Word(w) => w
    case Parameter(p) => ['$'] + p
    case OpenParen => "["
    case CloseParen => "]"
    case Quote => "'"
  }

  /** A numeral followed by a space lexes back to its value. */
  lemma LexemeOfNumeral(s: string, i: nat, n: nat)
    requires n <= I64Max
    requires i + |NatToString(n)| < |s|
    requires s[i..i + |NatToString(n)|] == NatToString(n) && s[i + |NatToString(n)|] == ' '
    ensures Lexeme(s, i) == Ok(Step(Some(Num(n as i64)), i + |NatToString(n)|))
  {
    var text := NatToString(n);
    var j := i + |text|;
    assert forall k :: i <= k < j ==> s[k] == text[k - i];
    DigitEndAt(s, i, j);
    LexemeNumberIsGreedy(s, i);
  }

  /** '-' and a numeral followed by a space lex back to the negated value. */
  lemma LexemeOfNegativeNumeral(s: string, i: nat, n: nat)
    requires 0 < n <= I64Max
    requires i + 1 + |NatToString(n)| < |s|
    requires s[i] == '-' && s[i + 1..i + 1 + |NatToString(n)|] == NatToString(n)
    requires s[i + 1 + |NatToString(n)|] == ' '
    ensures Lexeme(s, i) == Ok(Step(Some(Num(-(n as int) as i64)), i + 1 + |NatToString(n)|))
  {
    var text := NatToString(n);
    var j := i + 1 + |text|;
    assert forall k :: i + 1 <= k < j ==> s[k] == text[k - i - 1];
    DigitEndAt(s, i + 1, j);
    LexemeNegativeNumber(s, i);
  }

  /** A printed number followed by a space lexes back to the number. */
  lemma LexemeOfNum(s: string, i: nat, v: i64)
    requires Printable(Num(v))
    requires i + |TokenText(Num(v))| < |s|
    requires s[i..i + |TokenText(Num(v))|] == TokenText(Num(v)) && s[i + |TokenText(Num(v))|] == ' '
    ensures Lexeme(s, i) == Ok(Step(Some(Num(v)), i + |TokenText(Num(v))|))
  {
    if v >= 0 {
      LexemeOfNumeral(s, i, v as int);
    } else {
      LexemeOfNegativeNum(s, i, v);
    }
  }

  lemma LexemeOfNegativeNum(s: string, i: nat, v: i64)
    requires v < 0 && Printable(Num(v))
    requires i + |TokenText(Num(v))| < |s|
    requires s[i..i + |TokenText(Num(v))|] == TokenText(Num(v)) && s[i + |TokenText(Num(v))|] == ' '
    ensures Lexeme(s, i) == Ok(Step(Some(Num(v)), i + |TokenText(Num(v))|))
  {
    var n := -(v as int);
    var digits := NatToString(n);
    var text := ['-'] + digits;
    assert TokenText(Num(v)) == text;
    var e := i + |text|;
    assert s[i] == '-' by {
      assert s[i..e][0] == s[i];
    }
    assert s[i + 1..e] == digits by {
      assert s[i + 1..e] == s[i..e][1..];
    }
    LexemeOfNegativeNumeral(s, i, n);
  }

  /** A printed word followed by a space lexes back to the word. */
  lemma LexemeOfWord(s: string, i: nat, w: string)
    requires Printable(Word(w))
    requires i + |w| < |s|
    requires s[i..i + |w|] == w && s[i + |w|] == ' '
    ensures Lexeme(s, i) == Ok(Step(Some(Word(w)), i + |w|))
  {
    if w == "-" {
      LexemeMinusBeforeSpace(s, i);
    } else if w != "#" {
      var j := i + |w|;
      assert forall k :: i <= k < j ==> s[k] == w[k - i];
      WordEndAt(s, i + 1, j);
      LexemeWord(s, i);
    }
  }

  /** A printed parameter followed by a space lexes back to the parameter. */
  lemma LexemeOfParameter(s: string, i: nat, p: string)
    requires Printable(Parameter(p))
    requires i + 1 + |p| < |s|
    requires s[i] == '$' && s[i + 1..i + 1 + |p|] == p && s[i + 1 + |p|] == ' '
    ensures Lexeme(s, i) == Ok(Step(Some(Parameter(p)), i + 1 + |p|))
  {
    var j := i + 1 + |p|;
    assert forall k :: i + 1 <= k < j ==> s[k] == p[k - i - 1];
    DigitEndAt(s, i + 1, j);
    LexemeParameter(s, i);
  }

  /** A bracket or a quote is a lexeme of its own. */
  lemma LexemeOfMarker(s: string, i: nat, t: LexItem)
    requires t.OpenParen? || t.CloseParen? || t.Quote?
    requires i < |s| && s[i] == TokenText(t)[0]
    ensures Lexeme(s, i) == Ok(Step(Some(t), i + 1))
  {
  }
}
