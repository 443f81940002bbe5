/**
  The driver `eval` (src/main.rs:839-952): lex the line, parse it, then run
  at most 100 cycles, each of which first applies every finished call on top
  of the call stack and then dispatches the next pending item. The word table
  is created afresh, with the five built-ins, for every line.
 */
module Eval {
  import opened Values
  import opened Lexer
  import opened Parser
  import opened Words
  import opened Actions
  import opened CallStacks

  /** The driver's state: the call stack, the pending items (`istack`, the
      next one last) and the output stack. */
  datatype Machine = Machine(frames: Frames, pending: seq<LexItem>, output: seq<LexItem>)

  /** The inner `while !cstack.wantsData()` loop: apply and pop the top call
      for as long as it wants nothing more. */
  function Drain(m: Machine): (r: Outcome<Machine>)
    ensures r.Ok? ==> r.value.frames.calls == [] || Last(r.value.frames.calls).expectations != []
    ensures r.Ok? ==> |r.value.frames.calls| <= |m.frames.calls|
    ensures r.Ok? ==> r.value.output == m.output
    ensures r.Ok? ==> m.frames.words.Keys <= r.value.frames.words.Keys
    decreases |m.frames.calls|
  {
    if m.frames.calls != [] && Last(m.frames.calls).expectations == [] then
      match ApplyTop(m.frames, m.pending)
      case Panic => Panic
      case Ok((f, pending)) => Drain(Machine(f, pending, m.output))
    else Ok(m)
  }

  /** The call `eval` pushes for a Lambda nobody binds. `eval` passes the
      Lambda's `get_arity` to `make_word`, which ignores that argument, so the
      call is the same for any value there; `DispatchNext` computes it as the
      source does. */
  function LambdaCall(l: LexItem): Call
  {
    MakeCall(SetupExpectations(MakeWord("lambda", 0, Substitution, Some(l))))
  }

  /** One dispatch: pop the next pending item and act on it by its kind. */
  function Dispatch(m: Machine): (r: Outcome<Machine>)
    requires m.pending != []
    ensures r.Ok? ==> r.value.frames.words == m.frames.words
  {
    var item := Last(m.pending);
    var m1 := m.(pending := DropLast(m.pending));
    var offered := item.Word? || item.Num? || item.Lambda? || item.Stack?;
    if offered && Offer(m1.frames, item).Some? then Ok(m1.(frames := Offer(m1.frames, item).value))
    else DispatchUnbound(m1, item)
  }

  /** What `eval` does with an item the top call does not bind (and with the
      kinds it never offers to the top call). */
  function DispatchUnbound(m: Machine, item: LexItem): (r: Outcome<Machine>)
    ensures r.Ok? ==> r.value.frames.words == m.frames.words
  {
    var calls := m.frames.calls;
    match item
    case Word(w) =>
      (match SearchWord(m.frames, w)
       case Panic => Panic
       case Ok(f) => Ok(m.(frames := f)))
    case Num(_) =>
      if calls != [] then
        var top := Last(calls);
        Ok(m.(frames := m.frames.(calls := DropLast(calls) + [top.(results := top.results + [item])])))
      else Ok(m.(output := m.output + [item]))
    case Lambda(_) =>
      Ok(m.(frames := m.frames.(calls := calls + [LambdaCall(item)])))
    case Stack(_) =>
      Ok(m.(output := m.output + [item]))
    case Parameter(_) =>
      if calls != [] then
        var (top, value) := ParameterLookup(Last(calls));
        Ok(m.(frames := m.frames.(calls := DropLast(calls) + [top]), pending := m.pending + AsList(value)))
      else Ok(m)
    case _ => Ok(m)
  }

  /** The outer loop of `eval` with `budget` cycles left. */
  function Run(m: Machine, budget: nat): (r: Outcome<Machine>)
    ensures r.Ok? ==> m.frames.words.Keys <= r.value.frames.words.Keys
    decreases budget
  {
    if budget == 0 then Ok(m)
    else
      match Drain(m)
      case Panic => Panic
      case Ok(drained) =>
        if drained.pending == [] then Ok(drained)
        else
          match Dispatch(drained)
          case Panic => Panic
          case Ok(next) => Run(next, budget - 1)
  }

  /** The number of bytes of the UTF-8 encoding of a character. */
  function Utf8Width(c: char): nat
  {
    if c as int < 0x80 then 1
    else if c as int < 0x800 then 2
    else if c as int < 0x1_0000 then 3
    else 4
  }

  /** `String::len`: the length of the UTF-8 encoding. */
  function Utf8Length(s: string): (n: nat)
    ensures n >= |s|
  {
    if s == [] then 0 else Utf8Length(DropLast(s)) + Utf8Width(Last(s))
  }

  /** How a line ends: with the output stack, in a panic, or looping forever
      in the lexer. */
  datatype EvalResult = Finished(output: seq<LexItem>) | Panicked | Hangs

  const MaxCycles: nat := 100

  /** The state the driver starts from once the line is parsed. */
  function Start(parsed: seq<LexItem>, ostack: seq<LexItem>): Machine
  {
    Machine(Frames([], Builtins()), parsed, ostack)
  }

  /** What `eval` does with a line and the output stack. */
  function EvalLine(input: string, ostack: seq<LexItem>): EvalResult
  {
    if Utf8Length(input) <= 1 then Finished(ostack)
    else
      match LexFrom(input, 0, [])
      case LexPanic => Panicked
      case Stuck => Hangs
      case Lexed(lexstack) =>
        match Run(Start(ParseLevel(lexstack, false, []).1, ostack), MaxCycles)
        case Panic => Panicked
        case Ok(m) => Finished(m.output)
  }

  /** The inner loop of `eval` on the call stack object. */
  method DrainCalls(cs: CallStack, istack: seq<LexItem>, ghost output: seq<LexItem>) returns (r: Outcome<seq<LexItem>>)
    modifies cs
    ensures r.Panic? <==> Drain(Machine(old(cs.Value()), istack, output)).Panic?
    ensures r.Ok? ==> Drain(Machine(old(cs.Value()), istack, output)).value == Machine(cs.Value(), r.value, output)
  {
    var pending := istack;
    while !cs.WantsData()
      invariant Drain(Machine(cs.Value(), pending, output)) == Drain(Machine(old(cs.Value()), istack, output))
      decreases |cs.stack|
    {
      if |cs.stack| > 0 {
        var _, applied := cs.TopApply(pending);
        if applied.Panic? {
          return Panic;
        }
        pending := applied.value;
      } else {
        break;
      }
    }
    return Ok(pending);
  }

  /** The dispatch of `eval`: pops the next pending item and acts on it. */
  method DispatchNext(cs: CallStack, istack: seq<LexItem>, ostack: seq<LexItem>)
    returns (r: Outcome<(seq<LexItem>, seq<LexItem>)>)
    requires istack != []
    modifies cs
    ensures r.Panic? <==> Dispatch(Machine(old(cs.Value()), istack, ostack)).Panic?
    ensures r.Ok? ==> Dispatch(Machine(old(cs.Value()), istack, ostack)).value == Machine(cs.Value(), r.value.0, r.value.1)
  {
    var item := Last(istack);
    var pending := DropLast(istack);
    var output := ostack;
    match item {
      case Word(w) =>
        var rest := cs.PushLexItem(item);
        if rest.Some? {
          var ok := cs.PushSearchWord(w);
          if !ok {
            return Panic;
          }
        }
      case Num(_) =>
        var rest := cs.PushLexItem(item);
        if rest.Some? {
          if cs.stack != [] {
            var top := Last(cs.stack);
            cs.stack := DropLast(cs.stack) + [top.(results := top.results + [item])];
          } else {
            output := output + [item];
          }
        }
      case Lambda(_) =>
        var rest := cs.PushLexItem(item);
        if rest.Some? {
          var arity := GetArity(item);
          var w := MakeWord("lambda", arity, Substitution, Some(item));
          w := SetupExpectations(w);
          cs.PushWordCall(w);
        }
      case Stack(_) =>
        var rest := cs.PushLexItem(item);
        if rest.Some? {
          output := output + [item];
        }
      case Parameter(_) =>
        if cs.stack != [] {
          var top, value := ActionParameter(Last(cs.stack));
          cs.stack := DropLast(cs.stack) + [top];
          if value.Some? {
            pending := pending + [value.value];
          }
        }
      case _ =>
    }
    return Ok((pending, output));
  }

  /** `eval` */
  method EvalInput(input: string, ostack: seq<LexItem>) returns (r: EvalResult)
    ensures r == EvalLine(input, ostack)
  {
    var cs := new CallStack();
    cs.CreateBuiltinWords();
    assert cs.words == Builtins();
    if Utf8Length(input) <= 1 {
      return Finished(ostack);
    }
    var lexing := LexLine(input);
    if lexing.LexPanic? {
      return Panicked;
    }
    if lexing.Stuck? {
      return Hangs;
    }
    var _, istack := ParseStacks(lexing.lexstack, []);
    ghost var start := Start(istack, ostack);
    var output := ostack;
    var loopcount := 0;
    while loopcount < MaxCycles
      invariant loopcount <= MaxCycles
      invariant Run(Machine(cs.Value(), istack, output), MaxCycles - loopcount) == Run(start, MaxCycles)
      decreases MaxCycles - loopcount
    {
      loopcount := loopcount + 1;
      var drained := DrainCalls(cs, istack, output);
      if drained.Panic? {
        return Panicked;
      }
      istack := drained.value;
      if istack == [] {
        return Finished(output);
      }
      var dispatched := DispatchNext(cs, istack, output);
      if dispatched.Panic? {
        return Panicked;
      }
      istack, output := dispatched.value.0, dispatched.value.1;
    }
    return Finished(output);
  }

  /** An unknown word nobody binds starts a `define` call that has already
      bound the word as its name. */
  lemma DispatchUnknownWord(m: Machine, w: string)
    requires m.pending != [] && Last(m.pending) == Word(w)
    requires Offer(m.frames, Word(w)).None?
    requires w !in m.frames.words && "define" in m.frames.words
    requires m.frames.words["define"] == Builtins()["define"]
    ensures Dispatch(m) == Ok(Machine(m.frames.(calls := m.frames.calls + [DefineCall(w)]), DropLast(m.pending), m.output))
  {
    UnknownWordStartsDefine(m.frames, w);
  }

  /** A number nobody binds joins the results of the top call, or the output
      when there is no call. */
  lemma DispatchUnboundNum(m: Machine, n: i64)
    requires m.pending != [] && Last(m.pending) == Num(n)
    requires Offer(m.frames, Num(n)).None?
    ensures Dispatch(m).Ok?
    ensures m.frames.calls == [] ==> Dispatch(m).value == Machine(m.frames, DropLast(m.pending), m.output + [Num(n)])
    ensures m.frames.calls != [] ==>
      Dispatch(m).value.output == m.output &&
      Dispatch(m).value.pending == DropLast(m.pending) &&
      DropLast(Dispatch(m).value.frames.calls) == DropLast(m.frames.calls) &&
      Last(Dispatch(m).value.frames.calls).results == Last(m.frames.calls).results + [Num(n)]
  {
  }

  /** A Stack nobody binds goes to the output, whatever calls are waiting. */
  lemma DispatchUnboundStack(m: Machine, items: seq<LexItem>)
    requires m.pending != [] && Last(m.pending) == Stack(items)
    requires Offer(m.frames, Stack(items)).None?
    ensures Dispatch(m) == Ok(Machine(m.frames, DropLast(m.pending), m.output + [Stack(items)]))
  {
  }

  /** A Literal is never dispatched: it is dropped. */
  lemma DispatchLiteral(m: Machine, text: string)
    requires m.pending != [] && Last(m.pending) == Literal(text)
    ensures Dispatch(m) == Ok(m.(pending := DropLast(m.pending)))
  {
  }

  /** The built-in `define` is never removed, so within one line every unknown
      word can be handed to it. */
  lemma DefineStaysDefined(m: Machine, budget: nat)
    requires "define" in m.frames.words
    requires Run(m, budget).Ok?
    ensures "define" in Run(m, budget).value.frames.words
  {
  }
}
