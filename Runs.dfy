/**
  Facts about whole runs of the driver `eval` (src/main.rs:866-948): how one
  cycle of the outer loop continues the run, and the invariant that no call
  ever binds a Parameter, with what that means for a dispatched `$k`.
 */
module Runs {
  import opened Values
  import opened Numerals
  import opened Words
  import opened Actions
  import opened CallStacks
  import opened Eval

  /** One cycle of the outer loop that dispatches an item. */
  lemma RunCycle(m: Machine, drained: Machine, next: Machine, budget: nat)
    requires budget > 0 && Drain(m) == Ok(drained) && drained.pending != [] && Dispatch(drained) == Ok(next)
    ensures Run(m, budget) == Run(next, budget - 1)
  {
  }

  /** The call has bound no Parameter. */
  predicate HoldsNoParameter(c: Call) {
    forall j :: 0 <= j < |c.arguments| ==> !c.arguments[j].value.Parameter?
  }

  /** No call on the stack has bound a Parameter. */
  predicate BindsNoParameter(f: Frames) {
    forall i :: 0 <= i < |f.calls| ==> HoldsNoParameter(f.calls[i])
  }

  /** Pushing a call that holds no Parameter onto calls that hold none. */
  lemma PushHoldsNoParameter(calls: seq<Call>, c: Call)
    requires forall i :: 0 <= i < |calls| ==> HoldsNoParameter(calls[i])
    requires HoldsNoParameter(c)
    ensures forall i :: 0 <= i < |calls + [c]| ==> HoldsNoParameter((calls + [c])[i])
  {
  }

  /** Binding anything but a Parameter keeps a call free of Parameters. */
  lemma BindHoldsNoParameter(c: Call, item: LexItem)
    requires HoldsNoParameter(c) && !item.Parameter? && Bind(c, item).Some?
    ensures HoldsNoParameter(Bind(c, item).value)
  {
    var args := Bind(c, item).value.arguments;
    forall j | 0 <= j < |args| ensures !args[j].value.Parameter? {
      if j > 0 {
        assert args[j] == c.arguments[j - 1];
      }
    }
  }

  /** Looking a word up pushes a call with no arguments, or a `define` call
      that has bound the word. */
  lemma SearchWordBindsNoParameter(f: Frames, w: string)
    requires BindsNoParameter(f) && SearchWord(f, w).Ok?
    ensures BindsNoParameter(SearchWord(f, w).value)
  {
    if w in f.words {
      PushHoldsNoParameter(f.calls, MakeCall(f.words[w]));
    } else {
      var call := MakeCall(f.words["define"]);
      PushHoldsNoParameter(f.calls, call);
      var pushed := f.(calls := f.calls + [call]);
      if Offer(pushed, Word(w)).Some? {
        assert Last(pushed.calls) == call && DropLast(pushed.calls) == f.calls;
        BindHoldsNoParameter(call, Word(w));
        PushHoldsNoParameter(f.calls, Bind(call, Word(w)).value);
      }
    }
  }

  /** A dispatch never binds a Parameter: `eval` offers only Words, Nums,
      Lambdas and Stacks to the top call, the calls it pushes start with no
      arguments or with a Word, and a lookup only drops an argument. */
  lemma DispatchBindsNoParameter(m: Machine)
    requires m.pending != [] && BindsNoParameter(m.frames)
    requires Dispatch(m).Ok?
    ensures BindsNoParameter(Dispatch(m).value.frames)
  {
    var f := m.frames;
    var calls := f.calls;
    var item := Last(m.pending);
    var m1 := m.(pending := DropLast(m.pending));
    var offered := item.Word? || item.Num? || item.Lambda? || item.Stack?;
    if calls != [] {
      assert forall i :: 0 <= i < |DropLast(calls)| ==> DropLast(calls)[i] == calls[i];
      assert HoldsNoParameter(Last(calls));
    }
    if offered && Offer(f, item).Some? {
      BindHoldsNoParameter(Last(calls), item);
      PushHoldsNoParameter(DropLast(calls), Bind(Last(calls), item).value);
    } else {
      assert Dispatch(m) == DispatchUnbound(m1, item);
      match item {
        case Word(w) =>
          SearchWordBindsNoParameter(f, w);
        case Num(_) =>
          if calls != [] {
            var top := Last(calls);
            PushHoldsNoParameter(DropLast(calls), top.(results := top.results + [item]));
          }
        case Lambda(_) =>
          PushHoldsNoParameter(calls, LambdaCall(item));
        case Parameter(_) =>
          if calls != [] {
            PushHoldsNoParameter(DropLast(calls), ParameterLookup(Last(calls)).0);
          }
        case _ =>
      }
    }
  }

  /** Applying finished calls only pops calls, so binds no Parameter either. */
  lemma {:induction false} DrainBindsNoParameter(m: Machine)
    requires BindsNoParameter(m.frames) && Drain(m).Ok?
    ensures BindsNoParameter(Drain(m).value.frames)
    decreases |m.frames.calls|
  {
    if m.frames.calls != [] && Last(m.frames.calls).expectations == [] {
      var (f, pending) := ApplyTop(m.frames, m.pending).value;
      assert forall i :: 0 <= i < |f.calls| ==> f.calls[i] == m.frames.calls[i];
      assert BindsNoParameter(f);
      DrainBindsNoParameter(Machine(f, pending, m.output));
    }
  }

  /** A cycle of a run that does not panic drains without a panic and, when
      something is pending, dispatches without one; with nothing pending the
      run stops at the drained state. */
  lemma RunOkCycle(m: Machine, budget: nat)
    requires budget > 0 && Run(m, budget).Ok?
    ensures Drain(m).Ok?
    ensures Drain(m).value.pending == [] ==> Run(m, budget) == Drain(m)
    ensures Drain(m).value.pending != [] ==> Dispatch(Drain(m).value).Ok?
  {
  }

  /** Throughout a run, no call ever holds a Parameter argument. */
  lemma {:induction false} RunBindsNoParameter(m: Machine, budget: nat)
    requires BindsNoParameter(m.frames) && Run(m, budget).Ok?
    ensures BindsNoParameter(Run(m, budget).value.frames)
    decreases budget
  {
    if budget > 0 {
      RunOkCycle(m, budget);
      DrainBindsNoParameter(m);
      var drained := Drain(m).value;
      if drained.pending != [] {
        var next := Dispatch(drained).value;
        DispatchBindsNoParameter(drained);
        RunCycle(m, drained, next, budget);
        RunBindsNoParameter(next, budget - 1);
      }
    }
  }

  /** So a dispatched Parameter never finds a value: it only drops the top
      call's first-bound argument, if any, and adds nothing to the pending
      items. */
  lemma DispatchParameter(m: Machine, p: string)
    requires m.pending != [] && Last(m.pending) == Parameter(p)
    requires BindsNoParameter(m.frames)
    ensures m.frames.calls == [] || Last(m.frames.calls).arguments == [] ==>
      Dispatch(m) == Ok(m.(pending := DropLast(m.pending)))
    ensures m.frames.calls != [] && Last(m.frames.calls).arguments != [] ==>
      var top := Last(m.frames.calls);
      Dispatch(m) == Ok(m.(frames := m.frames.(calls := DropLast(m.frames.calls) + [top.(arguments := DropLast(top.arguments))]),
                           pending := DropLast(m.pending)))
  {
    var m1 := m.(pending := DropLast(m.pending));
    assert Dispatch(m) == DispatchUnbound(m1, Parameter(p));
    assert m1.pending + AsList(None) == m1.pending;
    if m.frames.calls != [] {
      var top := Last(m.frames.calls);
      if top.arguments != [] {
        assert HoldsNoParameter(top);
        assert !top.arguments[|top.arguments| - 1].value.Parameter?;
        assert ParameterLookup(top) == (top.(arguments := DropLast(top.arguments)), None);
      } else {
        assert ParameterLookup(top) == (top, None);
        assert DropLast(m.frames.calls) + [top] == m.frames.calls;
      }
    }
  }

  /** A Lambda nobody binds pushes a fresh substitution call: it carries the
      Lambda as its template, has bound nothing yet, and expects one value of
      the Num/Stack/Literal kind per distinct parameter name of the body. */
  lemma DispatchUnboundLambda(m: Machine, items: seq<LexItem>)
    requires m.pending != [] && Last(m.pending) == Lambda(items)
    requires Offer(m.frames, Lambda(items)).None?
    ensures Dispatch(m).Ok?
    ensures Dispatch(m).value.pending == DropLast(m.pending) && Dispatch(m).value.output == m.output
    ensures Dispatch(m).value.frames.calls[..|m.frames.calls|] == m.frames.calls
    ensures |Dispatch(m).value.frames.calls| == |m.frames.calls| + 1
    ensures var c := Last(Dispatch(m).value.frames.calls);
      c.action == Substitution && c.substitution == Some(Lambda(items)) &&
      c.arguments == [] && c.results == [] &&
      c.arity == |c.expectations| == |ParameterSet(Lambda(items))| &&
      forall k :: 0 <= k < |c.expectations| ==> c.expectations[k] == ExpectNumStaLit
  {
    var m1 := m.(pending := DropLast(m.pending));
    assert Dispatch(m) == DispatchUnbound(m1, Lambda(items));
    ExpectationCount(Lambda(items));
  }

  /** Argument names are unique only while arguments are bound in order: a
      `$k` dispatched to a call holding two arguments drops the one named "1",
      and the next value bound is named "2" again. Beta-reduction then reads
      the newer value, the first of the two in vector order. */
  lemma NameReusedAfterParameter()
    ensures var c := Call("if", If, 3, [Argument("2", Num(2)), Argument("1", Num(1))], [ExpectNum], [], None);
      var top := ParameterLookup(c).0;
      Bind(top, Num(3)) == Some(top.(expectations := [], arguments := [Argument("2", Num(3)), Argument("2", Num(2))])) &&
      Reduced(Parameter("2"), Bind(top, Num(3)).value.arguments) == Num(3)
  {
    var c := Call("if", If, 3, [Argument("2", Num(2)), Argument("1", Num(1))], [ExpectNum], [], None);
    var top := ParameterLookup(c).0;
    assert top.arguments == [Argument("2", Num(2))];
    assert NatToString(2) == "2";
    var args := [Argument("2", Num(3)), Argument("2", Num(2))];
    assert Bind(top, Num(3)).value.arguments == args;
    assert Reduced(Num(3), args[1..]) == Num(3);
  }
}
