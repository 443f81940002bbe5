/**
  The interpreter's call stack (src/main.rs:417-631): the stack of pending
  calls and the word table, how a value is bound to the top call
  (`pushLexItem`), how a word is looked up or, when unknown, handed to
  `define` (`pushSearchWord`), and how a finished call is applied and popped
  (`top_apply`).

  `Frames` is the value of a `CallStack`; the functions on it are the
  specification the methods of the `CallStack` class are proved against.
 */
module CallStacks {
  import opened Values
  import opened Numerals
  import opened Words
  import opened Actions

  /** Which values an expectation accepts: the match in `pushLexItem`. */
  predicate Accepts(e: Expectation, item: LexItem) {
    match e
    case ExpectNum => item.Num?
    case ExpectNumStaLit => item.Num? || item.Stack? || item.Literal?
    case ExpectStack => item.Stack? || item.Literal?
    case ExpectWord => item.Word?
    case ExpectParameter => item.Parameter?
    case ExpectLambda => item.Lambda?
    case ExpectAny => true
    case ExpectLiteral => false
  }

  /** A call binding a value to its next expectation, if that one accepts it:
      the expectation is used up and the value becomes the front argument,
      named one more than the number bound before. */
  function Bind(c: Call, item: LexItem): (r: Option<Call>)
    ensures r.Some? <==> c.expectations != [] && Accepts(Last(c.expectations), item)
    ensures r.Some? ==> r.value.expectations == DropLast(c.expectations)
    ensures r.Some? ==> |r.value.arguments| == |c.arguments| + 1
    ensures r.Some? ==> r.value.arguments[1..] == c.arguments
    ensures r.Some? ==> r.value.arguments[0] == Argument(NatToString(|c.arguments| + 1), item)
    ensures r.Some? ==> r.value == c.(expectations := r.value.expectations, arguments := r.value.arguments)
  {
    if c.expectations != [] && Accepts(Last(c.expectations), item) then
      Some(c.(expectations := DropLast(c.expectations),
              arguments := [Argument(NatToString(|c.arguments| + 1), item)] + c.arguments))
    else None
  }

  /** Binding keeps the argument names reading n ... 1 from front to back. */
  lemma BindKeepsNamesInOrder(c: Call, item: LexItem)
    requires NamedInOrder(c.arguments) && Bind(c, item).Some?
    ensures NamedInOrder(Bind(c, item).value.arguments)
  {
    var args := Bind(c, item).value.arguments;
    forall i | 0 <= i < |args| ensures args[i].name == NatToString(|args| - i) {
      if i > 0 {
        assert args[i] == c.arguments[i - 1];
      }
    }
  }

  /** Binding keeps what earlier pops return and makes the new value the one
      popped after all of them: the k-th value bound is the k-th popped. */
  lemma BindIsPoppedLast(c: Call, item: LexItem)
    requires Bind(c, item).Some?
    ensures var c' := Bind(c, item).value;
      |c'.arguments| == |c.arguments| + 1 &&
      Popped(c', |c'.arguments|) == item &&
      forall k :: 1 <= k <= |c.arguments| ==> Popped(c', k) == Popped(c, k)
  {
  }

  /** Binding uses up exactly one expectation for exactly one argument. */
  lemma BindKeepsPlaces(c: Call, item: LexItem)
    requires Bind(c, item).Some?
    ensures |Bind(c, item).value.arguments| + |Bind(c, item).value.expectations| ==
            |c.arguments| + |c.expectations|
  {
  }

  /** The value of a `CallStack`: the calls (the top one last) and the words. */
  datatype Frames = Frames(calls: seq<Call>, words: map<string, WordDef>)

  /** `pushLexItem`: `None` when the value is not bound and nothing changes. */
  function Offer(f: Frames, item: LexItem): (r: Option<Frames>)
    ensures r.Some? <==> f.calls != [] && Bind(Last(f.calls), item).Some?
    ensures r.Some? ==> r.value == f.(calls := DropLast(f.calls) + [Bind(Last(f.calls), item).value])
  {
    if f.calls == [] then None
    else
      match Bind(Last(f.calls), item)
      case Some(c) => Some(f.(calls := DropLast(f.calls) + [c]))
      case None => None
  }

  /** A Literal is never bound to the top call unless it asks for a Stack, a
      value of the NumStaLit kind or any value. */
  lemma OfferLiteral(f: Frames, text: string)
    requires Offer(f, Literal(text)).Some?
    ensures Last(Last(f.calls).expectations) in {ExpectStack, ExpectNumStaLit, ExpectAny}
  {
  }

  /** `pushSearchWord`: a known word pushes a call of it; an unknown one pushes
      a call of `define` and offers it the word. */
  function SearchWord(f: Frames, w: string): (r: Outcome<Frames>)
    ensures r.Panic? <==> w !in f.words && "define" !in f.words
    ensures r.Ok? ==> r.value.words == f.words
    ensures w in f.words ==> r == Ok(f.(calls := f.calls + [MakeCall(f.words[w])]))
  {
    if w in f.words then Ok(f.(calls := f.calls + [MakeCall(f.words[w])]))
    else if "define" !in f.words then Panic
    else
      var pushed := f.(calls := f.calls + [MakeCall(f.words["define"])]);
      match Offer(pushed, Word(w))
      case Some(bound) => Ok(bound)
      case None => Ok(pushed)
  }

  /** The five built-in words of `create_builtin_words`. */
  function Builtins(): (words: map<string, WordDef>)
    ensures words.Keys == {"+", "-", "if", "define", "#"}
    ensures forall w :: w in words ==> words[w].name == w && words[w].substitution.None?
    ensures forall w :: w in words ==> words[w].arity <= |words[w].expectations|
  {
    map[
      "+" := WordDef("+", 2, Add, None, [ExpectNum, ExpectNum]),
      "-" := WordDef("-", 2, Subtract, None, [ExpectNum, ExpectNum]),
      "if" := WordDef("if", 3, If, None, [ExpectAny, ExpectAny, ExpectNum]),
      "define" := WordDef("define", 1, NoAction, None, [ExpectAny, ExpectWord]),
      "#" := WordDef("#", 2, Extract, None, [ExpectStack, ExpectNum])
    ]
  }

  /** The call an unknown word leaves on top of the stack, given the built-in
      `define`: the word already bound as its name, one value still wanted. */
  function DefineCall(w: string): Call
  {
    Call("define", NoAction, 1, [Argument("1", Word(w))], [ExpectAny], [], None)
  }

  /** Unknown words are defined: with the built-in `define`, an unknown word
      pushes a `define` call that has already bound the word as its name. */
  lemma UnknownWordStartsDefine(f: Frames, w: string)
    requires w !in f.words && "define" in f.words && f.words["define"] == Builtins()["define"]
    ensures SearchWord(f, w) == Ok(f.(calls := f.calls + [DefineCall(w)]))
  {
    var call := MakeCall(f.words["define"]);
    assert call == Call("define", NoAction, 1, [], [ExpectAny, ExpectWord], [], None);
    assert NatToString(1) == "1";
    assert DropLast(call.expectations) == [ExpectAny];
    assert Last(call.expectations) == ExpectWord;
    assert [Argument(NatToString(|call.arguments| + 1), Word(w))] + call.arguments == [Argument("1", Word(w))];
    assert Bind(call, Word(w)) == Some(DefineCall(w));
    var pushed := f.(calls := f.calls + [call]);
    assert DropLast(pushed.calls) == f.calls;
  }

  /** What `top_apply` does to the top call when it is a `define`: the first
      value popped names the word, the second is its template. */
  function ApplyDefine(c: Call, words: map<string, WordDef>): (r: Outcome<(Call, map<string, WordDef>)>)
    ensures r.Panic? <==> c.arguments == [] || (Popped(c, 1).Word? && |c.arguments| < 2)
    ensures r.Ok? ==> r.value.0.results == c.results
    ensures r.Ok? && Popped(c, 1).Word? ==>
      r.value.1 == words[Popped(c, 1).word := MakeWord(Popped(c, 1).word, 0, Substitution, Some(Popped(c, 2)))]
    ensures r.Ok? && !Popped(c, 1).Word? ==> r.value.1 == words
  {
    match PopValue(c)
    case Panic => Panic
    case Ok((first, c1)) =>
      if first.Word? then
        match PopValue(c1)
        case Panic => Panic
        case Ok((value, c2)) =>
          var defined := SetupExpectations(MakeWord(first.word, 0, Substitution, Some(value)));
          SetupAfterMakeWord(first.word, 0, Substitution, Some(value));
          Ok((c2.(expectations := PopBack(c2.expectations)), words[first.word := defined]))
      else Ok((c1, words))
  }

  /** `top_apply` on a non-empty stack: runs the top call (`define` by name,
      every other call by its action), appends its results to the pending
      items and pops it. */
  function ApplyTop(f: Frames, pending: seq<LexItem>): (r: Outcome<(Frames, seq<LexItem>)>)
    requires f.calls != []
    ensures r.Ok? ==> r.value.0.calls == DropLast(f.calls)
    ensures r.Ok? ==> |r.value.1| >= |pending| && r.value.1[..|pending|] == pending
    ensures r.Ok? ==> f.words.Keys <= r.value.0.words.Keys
    ensures Last(f.calls).name != "define" ==>
      (r.Ok? <==> Apply(Last(f.calls)).Ok?) &&
      (r.Ok? ==> r.value.1 == pending + Apply(Last(f.calls)).value.results && r.value.0.words == f.words)
    ensures Last(f.calls).name == "define" ==>
      (r.Ok? <==> ApplyDefine(Last(f.calls), f.words).Ok?) &&
      (r.Ok? ==> r.value.1 == pending + Last(f.calls).results &&
                 r.value.0.words == ApplyDefine(Last(f.calls), f.words).value.1)
  {
    var c := Last(f.calls);
    var applied :=
      if c.name == "define" then ApplyDefine(c, f.words)
      else match Apply(c) case Panic => Panic case Ok(c1) => Ok((c1, f.words));
    match applied
    case Panic => Panic
    case Ok((c1, words)) =>
      assert (pending + c1.results)[..|pending|] == pending;
      Ok((Frames(DropLast(f.calls), words), pending + c1.results))
  }

  /** A finished `define` call registers its word: the new entry's template is
      the value bound second and it expects one value per distinct parameter
      name of that template. */
  lemma DefineRegistersWord(f: Frames, pending: seq<LexItem>, w: string)
    requires f.calls != [] && Last(f.calls).name == "define"
    requires |Last(f.calls).arguments| >= 2 && Popped(Last(f.calls), 1) == Word(w)
    ensures ApplyTop(f, pending).Ok?
    ensures var (f', pending') := ApplyTop(f, pending).value;
      var value := Popped(Last(f.calls), 2);
      w in f'.words && f'.words[w].substitution == Some(value) &&
      f'.words[w].action == Substitution &&
      f'.words[w].expectations == Expectations(value) &&
      pending' == pending + Last(f.calls).results
  {
  }

  /** The interpreter's call stack, updated in place by the driver. */
  class CallStack {
    var stack: seq<Call>
    var words: map<string, WordDef>

    function Value(): Frames
      reads this
    {
      Frames(stack, words)
    }

    constructor ()
      ensures stack == [] && words == map[]
    {
      stack := [];
      words := map[];
    }

    /** `create_builtin_words` */
    method CreateBuiltinWords()
      modifies this
      ensures stack == old(stack)
      ensures words == old(words) + Builtins()
    {
      words := words["+" := WordDef("+", 2, Add, None, [ExpectNum, ExpectNum])];
      words := words["-" := WordDef("-", 2, Subtract, None, [ExpectNum, ExpectNum])];
      words := words["if" := WordDef("if", 3, If, None, [ExpectAny, ExpectAny, ExpectNum])];
      words := words["define" := WordDef("define", 1, NoAction, None, [ExpectAny, ExpectWord])];
      words := words["#" := WordDef("#", 2, Extract, None, [ExpectStack, ExpectNum])];
    }

    /** `pushLexItem`: binds the value to the top call, or gives it back. */
    method PushLexItem(item: LexItem) returns (rest: Option<LexItem>)
      modifies this
      ensures rest.None? <==> Offer(old(Value()), item).Some?
      ensures rest.None? ==> Value() == Offer(old(Value()), item).value
      ensures rest.Some? ==> rest == Some(item) && Value() == old(Value())
    {
      if stack != [] {
        var top := Last(stack);
        if top.expectations != [] {
          var e := Last(top.expectations);
          if Accepts(e, item) {
            var parname := NatToString(|top.arguments| + 1);
            top := top.(expectations := DropLast(top.expectations),
                        arguments := [Argument(parname, item)] + top.arguments);
            stack := DropLast(stack) + [top];
            return None;
          }
        }
      }
      return Some(item);
    }

    /** `pushSearchWord`; `ok` is false where the source unwraps a missing
        `define`. */
    method PushSearchWord(w: string) returns (ok: bool)
      modifies this
      ensures ok <==> SearchWord(old(Value()), w).Ok?
      ensures ok ==> Value() == SearchWord(old(Value()), w).value
    {
      if w in words {
        stack := stack + [MakeCall(words[w])];
        return true;
      }
      if "define" !in words {
        return false;
      }
      stack := stack + [MakeCall(words["define"])];
      var _ := PushLexItem(Word(w));
      return true;
    }

    /** `pushWordCall` */
    method PushWordCall(w: WordDef)
      modifies this
      ensures Value() == old(Value()).(calls := old(stack) + [MakeCall(w)])
    {
      stack := stack + [MakeCall(w)];
    }

    /** `wantsData`: the top call still has expectations. */
    predicate WantsData()
      reads this
    {
      stack != [] && Last(stack).expectations != []
    }

    /** `top_apply`: `applied` is false when there is no call; `r` holds the
        pending items with the results appended, or `Panic`. */
    method TopApply(result: seq<LexItem>) returns (applied: bool, r: Outcome<seq<LexItem>>)
      modifies this
      ensures applied <==> old(stack) != []
      ensures !applied ==> r == Ok(result) && Value() == old(Value())
      ensures applied ==> (r.Panic? <==> ApplyTop(old(Value()), result).Panic?)
      ensures applied && r.Ok? ==> (Value(), r.value) == ApplyTop(old(Value()), result).value
    {
      if stack == [] {
        return false, Ok(result);
      }
      applied := true;
      var top := Last(stack);
      if top.name == "define" {
        if top.arguments == [] {
          return true, Panic;
        }
        var first := Last(top.arguments).value;
        top := top.(arguments := DropLast(top.arguments));
        if first.Word? {
          if top.arguments == [] {
            return true, Panic;
          }
          var value := Last(top.arguments).value;
          top := top.(arguments := DropLast(top.arguments));
          var newword := MakeWord(first.word, 0, Substitution, Some(value));
          newword := SetupExpectations(newword);
          words := words[first.word := newword];
          top := top.(expectations := PopBack(top.expectations));
        }
      } else if top.action == Substitution {
        top := ActionSubstitution(top);
      } else {
        var outcome := Apply(top);
        if outcome.Panic? {
          return true, Panic;
        }
        top := outcome.value;
      }
      r := Ok(result + top.results);
      stack := DropLast(stack);
    }
  }

  /** `wantsData` is what makes the driver stop applying calls and dispatch
      instead: when it is false no value can be bound to the top call, and when
      it is true every value of the kind the next expectation names can be
      (only a Literal expectation accepts nothing). */
  lemma WantsDataBinds(cs: CallStack)
    ensures !cs.WantsData() ==> forall item :: Offer(cs.Value(), item).None?
    ensures cs.WantsData() ==> forall item :: Offer(cs.Value(), item).Some? <==> Accepts(Last(Last(cs.stack).expectations), item)
    ensures cs.WantsData() && Last(Last(cs.stack).expectations) != ExpectLiteral ==> exists item :: Offer(cs.Value(), item).Some?
  {
    if cs.WantsData() {
      var e := Last(Last(cs.stack).expectations);
      var item := match e
        case ExpectNum => Num(0)
        case ExpectNumStaLit => Num(0)
        case ExpectStack => Stack([])
        case ExpectWord => Word("")
        case ExpectParameter => Parameter("")
        case ExpectLambda => Lambda([])
        case ExpectAny => Num(0)
        case ExpectLiteral => Literal("");
      if e != ExpectLiteral {
        assert Offer(cs.Value(), item).Some?;
      }
    }
  }
}
