/**
  Words, calls and template analysis of src/main.rs: the `Expectation` kinds,
  the `Word` dictionary entries and the `Call` activation records, and the
  functions that derive a user word's expectations and arity from the
  `Parameter`s at the top level of its template (`get_parameters`,
  `get_arity`, `get_expectations`, `Word::make_word`, `setup_expectations`,
  `make_call`).
 */
module Words {
  import opened Values
  import opened Numerals

  /** The kinds of value a call can wait for. */
  datatype Expectation =
    | ExpectNum
    | ExpectLiteral
    | ExpectStack
    | ExpectLambda
    | ExpectAny
    | ExpectWord
    | ExpectParameter
    | ExpectNumStaLit

  /** The action function of a word, as a tag: the five built-in actions
      (`action_none` is the one of `define`) and template substitution. */
  datatype Action = Add | Subtract | If | NoAction | Extract | Substitution

  /** A bound argument of a call (the `Parameter` struct of the source). */
  datatype Argument = Argument(name: string, value: LexItem)

  /** An entry of the word table. */
  datatype WordDef = WordDef(
    name: string,
    arity: nat,
    action: Action,
    substitution: Option<LexItem>,
    expectations: seq<Expectation>)

  /** An activation record: the arguments bound so far (the last bound first),
      the expectations still open (the next one last) and the results. */
  datatype Call = Call(
    name: string,
    action: Action,
    arity: nat,
    arguments: seq<Argument>,
    expectations: seq<Expectation>,
    results: seq<LexItem>,
    substitution: Option<LexItem>)

  // Rust's ordering of `String`s: byte-wise lexicographic, which for UTF-8
  // is the lexicographic order of code points.

  predicate StrLess(a: string, b: string)
    decreases |a|
  {
    if a == [] then b != []
    else if b == [] then false
    else if a[0] != b[0] then a[0] < b[0]
    else StrLess(a[1..], b[1..])
  }

  lemma {:induction false} StrLessIrreflexive(a: string)
    ensures !StrLess(a, a)
    decreases |a|
  {
    if a != [] {
      StrLessIrreflexive(a[1..]);
    }
  }

  lemma {:induction false} StrLessTransitive(a: string, b: string, c: string)
    requires StrLess(a, b) && StrLess(b, c)
    ensures StrLess(a, c)
    decreases |a|
  {
    if a != [] && a[0] == b[0] && b[0] == c[0] {
      StrLessTransitive(a[1..], b[1..], c[1..]);
    }
  }

  lemma {:induction false} StrLessTotal(a: string, b: string)
    requires a != b
    ensures StrLess(a, b) || StrLess(b, a)
    decreases |a|
  {
    if a != [] && b != [] && a[0] == b[0] {
      assert a == [a[0]] + a[1..] && b == [b[0]] + b[1..];
      StrLessTotal(a[1..], b[1..]);
    }
  }

  /** Strictly increasing: sorted and without duplicates. */
  predicate StrictlySorted(s: seq<string>) {
    forall i, j :: 0 <= i < j < |s| ==> StrLess(s[i], s[j])
  }

  /** `x` put into its place in a strictly sorted list, unless it is there. */
  function Insert(x: string, sorted: seq<string>): (r: seq<string>)
    requires StrictlySorted(sorted)
    ensures StrictlySorted(r)
    ensures forall y :: y in r <==> y in sorted || y == x
    decreases |sorted|
  {
    if sorted == [] then [x]
    else if x == sorted[0] then sorted
    else if StrLess(x, sorted[0]) then
      var r := [x] + sorted;
      assert StrictlySorted(r) by {
        forall i, j | 0 <= i < j < |r| ensures StrLess(r[i], r[j]) {
          if i == 0 && j > 1 {
            StrLessTransitive(x, sorted[0], r[j]);
          }
        }
      }
      r
    else
      StrLessTotal(x, sorted[0]);
      var tail := Insert(x, sorted[1..]);
      var r := [sorted[0]] + tail;
      assert StrictlySorted(r) by {
        forall i, j | 0 <= i < j < |r| ensures StrLess(r[i], r[j]) {
          if i == 0 {
            assert r[j] in tail;
            assert r[j] == x || r[j] in sorted[1..];
          }
        }
      }
      assert sorted == [sorted[0]] + sorted[1..];
      r
  }

  /** `sort_unstable` followed by `dedup`: the names in increasing order,
      each once. */
  function SortDedup(names: seq<string>): (r: seq<string>)
    ensures StrictlySorted(r)
    ensures forall y :: y in r <==> y in names
    decreases |names|
  {
    if names == [] then []
    else
      assert names == DropLast(names) + [Last(names)];
      Insert(Last(names), SortDedup(DropLast(names)))
  }

  /** The names of the `Parameter`s among `items`, in vector order. */
  function ParameterNames(items: seq<LexItem>): (names: seq<string>)
    ensures forall p :: p in names <==> Parameter(p) in items
  {
    if items == [] then []
    else
      var names := ParameterNames(DropLast(items));
      assert items == DropLast(items) + [Last(items)];
      if Last(items).Parameter? then names + [Last(items).name] else names
  }

  /** What `get_parameters` returns. */
  function Parameters(t: LexItem): (r: Option<seq<string>>)
    ensures r.Some? <==> t.Lambda?
    ensures r.Some? ==> StrictlySorted(r.value)
    ensures r.Some? ==> forall p :: p in r.value <==> Parameter(p) in t.items
  {
    if t.Lambda? then Some(SortDedup(ParameterNames(t.items))) else None
  }

  /** `get_parameters`: the names of the parameters at the top level of a
      Lambda, sorted and without duplicates; nothing for any other item. */
  method GetParameters(t: LexItem) returns (r: Option<seq<string>>)
    ensures r == Parameters(t)
  {
    if !t.Lambda? {
      return None;
    }
    var s := t.items;
    var parameters: seq<string> := [];
    var k := 0;
    while k < |s|
      invariant k <= |s|
      invariant parameters == ParameterNames(s[..k])
    {
      assert DropLast(s[..k + 1]) == s[..k];
      if s[k].Parameter? {
        parameters := parameters + [s[k].name];
      }
      k := k + 1;
    }
    assert s[..|s|] == s;
    return Some(SortDedup(parameters));
  }

  /** The names read as `usize`, each one where it parses. */
  function ParsedNames(names: seq<string>): (r: seq<Option<nat>>)
    ensures |r| == |names|
    ensures forall k :: 0 <= k < |names| ==> r[k] == ParseUsize(names[k])
  {
    seq(|names|, k requires 0 <= k < |names| => ParseUsize(names[k]))
  }

  /** The largest of the values present, or 0. */
  function MaxPresent(values: seq<Option<nat>>): (m: nat)
    ensures forall k :: 0 <= k < |values| && values[k].Some? ==> values[k].value <= m
    ensures m == 0 || exists k :: 0 <= k < |values| && values[k] == Some(m)
  {
    if values == [] then 0
    else
      var rest := DropLast(values);
      var m := MaxPresent(rest);
      assert forall k :: 0 <= k < |rest| ==> values[k] == rest[k];
      if Last(values).Some? && Last(values).value > m then Last(values).value else m
  }

  /** One more value read by the loop of `get_arity`. */
  lemma MaxPresentStep(values: seq<Option<nat>>, k: nat)
    requires k < |values|
    ensures var m := MaxPresent(values[..k]);
      MaxPresent(values[..k + 1]) == if values[k].Some? && values[k].value > m then values[k].value else m
  {
    assert DropLast(values[..k + 1]) == values[..k];
  }

  /** What `get_arity` returns: for a Lambda, the largest parameter name that
      parses as a number, or 0. */
  function ArityOf(t: LexItem): (r: nat)
  {
    match Parameters(t)
    case Some(names) => MaxPresent(ParsedNames(names))
    case None => 0
  }

  /** `get_arity` with its loop over the parameter names. */
  method GetArity(t: LexItem) returns (arity: nat)
    ensures arity == ArityOf(t)
  {
    arity := 0;
    var parameters := GetParameters(t);
    if parameters.Some? {
      var p := parameters.value;
      ghost var values := ParsedNames(p);
      var max := 0;
      var k := 0;
      while k < |p|
        invariant k <= |p|
        invariant max == MaxPresent(values[..k])
      {
        MaxPresentStep(values, k);
        var parsed := ParseUsize(p[k]);
        assert parsed == values[k];
        if parsed.Some? && parsed.value > max {
          max := parsed.value;
        }
        k := k + 1;
      }
      assert values[..|p|] == values;
      arity := max;
    }
  }

  /** The arity of a template is at least every parameter number it uses ... */
  lemma ArityIsLargestParameter(t: LexItem, n: nat)
    requires t.Lambda? && Parameter(NatToString(n)) in t.items && n <= UsizeMax
    ensures n <= ArityOf(t)
  {
    var names := Parameters(t).value;
    ParseUsizeNatToString(n);
    var k :| 0 <= k < |names| && names[k] == NatToString(n);
    assert ParsedNames(names)[k] == Some(n);
  }

  /** ... and is 0 or the number of one of its parameters. */
  lemma ArityIsAParameter(t: LexItem)
    requires t.Lambda? && ArityOf(t) != 0
    ensures exists p :: Parameter(p) in t.items && ParseUsize(p) == Some(ArityOf(t))
  {
    var names := Parameters(t).value;
    var k :| 0 <= k < |names| && ParsedNames(names)[k] == Some(ArityOf(t));
    assert Parameter(names[k]) in t.items;
  }

  /** What `get_expectations` returns: one `NumStaLit` per parameter name. */
  function Expectations(t: LexItem): (r: seq<Expectation>)
    ensures t.Lambda? ==> |r| == |Parameters(t).value|
    ensures !t.Lambda? ==> r == []
    ensures forall k :: 0 <= k < |r| ==> r[k] == ExpectNumStaLit
  {
    match Parameters(t)
    case Some(names) => seq(|names|, _ => ExpectNumStaLit)
    case None => []
  }

  /** `get_expectations` with its loop over the parameter names. */
  method GetExpectations(t: LexItem) returns (exp: seq<Expectation>)
    ensures exp == Expectations(t)
  {
    exp := [];
    var parameters := GetParameters(t);
    if parameters.Some? {
      var p := parameters.value;
      var k := 0;
      while k < |p|
        invariant k <= |p|
        invariant exp == seq(k, _ => ExpectNumStaLit)
      {
        exp := exp + [ExpectNumStaLit];
        k := k + 1;
      }
    }
  }

  /** The distinct names of the parameters at the top level of a template. */
  function ParameterSet(t: LexItem): set<string>
    requires t.Lambda?
  {
    set k | 0 <= k < |t.items| && t.items[k].Parameter? :: t.items[k].name
  }

  lemma {:induction false} StrictlySortedCard(s: seq<string>)
    requires StrictlySorted(s)
    ensures |set y | y in s| == |s|
    decreases |s|
  {
    if s != [] {
      var tail := s[1..];
      assert StrictlySorted(tail);
      StrictlySortedCard(tail);
      assert (set y | y in s) == (set y | y in tail) + {s[0]};
      assert s[0] !in tail by {
        if s[0] in tail {
          var j :| 0 <= j < |tail| && tail[j] == s[0];
          assert StrLess(s[0], s[j + 1]);
          StrLessIrreflexive(s[0]);
        }
      }
    }
  }

  /** A Lambda template expects one value per distinct parameter name at its
      top level, whatever the numbers in the names are. */
  lemma ExpectationCount(t: LexItem)
    requires t.Lambda?
    ensures |Expectations(t)| == |ParameterSet(t)|
  {
    var names := Parameters(t).value;
    StrictlySortedCard(names);
    assert (set y | y in names) == ParameterSet(t);
  }

  /** `Word::make_word`: the arity argument is ignored; the expectations come
      from the template and the arity is their number. */
  function MakeWord(name: string, arityArgument: nat, action: Action, substitution: Option<LexItem>): (w: WordDef)
    ensures w.name == name && w.action == action && w.substitution == substitution
    ensures w.expectations == if substitution.Some? then Expectations(substitution.value) else []
    ensures w.arity == |w.expectations|
  {
    var expectations := if substitution.Some? then Expectations(substitution.value) else [];
    WordDef(name, |expectations|, action, substitution, expectations)
  }

  /** `setup_expectations`: recomputes the expectations from the template. */
  function SetupExpectations(w: WordDef): (r: WordDef)
    ensures r.name == w.name && r.arity == w.arity && r.action == w.action
    ensures r.substitution == w.substitution
    ensures w.substitution.Some? ==> r.expectations == Expectations(w.substitution.value)
    ensures w.substitution.None? ==> r == w
  {
    match w.substitution
    case Some(s) => w.(expectations := Expectations(s))
    case None => w
  }

  /** On a word `make_word` has built, `setup_expectations` changes nothing,
      so its arity always equals its number of expectations. */
  lemma SetupAfterMakeWord(name: string, arity: nat, action: Action, substitution: Option<LexItem>)
    ensures var w := MakeWord(name, arity, action, substitution);
            SetupExpectations(w) == w && w.arity == |w.expectations|
  {
  }

  /** `make_call`: a fresh activation record with no arguments and no results. */
  function MakeCall(w: WordDef): (c: Call)
    ensures c.name == w.name && c.action == w.action && c.arity == w.arity
    ensures c.arguments == [] && c.results == []
    ensures c.expectations == w.expectations && c.substitution == w.substitution
  {
    Call(w.name, w.action, w.arity, [], w.expectations, [], w.substitution)
  }
}
