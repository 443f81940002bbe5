/**
  Two lines run through the driver, showing prefix evaluation: a call is
  pushed when its word is dispatched and captures the items after it, so
  `+ 3 4` leaves 7 while `3 4 +` leaves 3 and 4 and an unfinished `+`.
  Pending vectors hold the parsed line in reversed order.
 */
module Examples {
  import opened Values
  import opened Numerals
  import opened Lexer
  import opened Parser
  import opened Words
  import opened Actions
  import opened CallStacks
  import opened Eval
  import opened Runs

  function AddCall(): Call {
    MakeCall(Builtins()["+"])
  }

  /** The `+` call after binding 3 ... */
  function AddCallOne(): Call {
    AddCall().(expectations := [ExpectNum], arguments := [Argument("1", Num(3))])
  }

  /** ... and then 4. */
  function AddCallTwo(): Call {
    AddCall().(expectations := [], arguments := [Argument("2", Num(4)), Argument("1", Num(3))])
  }

  lemma DispatchPlus(pending: seq<LexItem>)
    ensures Dispatch(Machine(Frames([], Builtins()), pending + [Word("+")], [])) ==
            Ok(Machine(Frames([AddCall()], Builtins()), pending, []))
  {
    var m := Machine(Frames([], Builtins()), pending + [Word("+")], []);
    assert Last(m.pending) == Word("+") && DropLast(m.pending) == pending;
    assert "+" in Builtins();
    assert m.frames.calls + [AddCall()] == [AddCall()];
  }

  lemma BindThree()
    ensures Offer(Frames([AddCall()], Builtins()), Num(3)) == Some(Frames([AddCallOne()], Builtins()))
  {
    var add := AddCall();
    assert add.expectations == [ExpectNum, ExpectNum];
    assert DropLast(add.expectations) == [ExpectNum];
    assert NatToString(1) == "1";
    assert [Argument(NatToString(|add.arguments| + 1), Num(3))] + add.arguments == [Argument("1", Num(3))];
    assert Bind(add, Num(3)) == Some(AddCallOne());
    assert DropLast([add]) + [AddCallOne()] == [AddCallOne()];
  }

  lemma BindFour()
    ensures Offer(Frames([AddCallOne()], Builtins()), Num(4)) == Some(Frames([AddCallTwo()], Builtins()))
  {
    var add := AddCallOne();
    assert DropLast(add.expectations) == [];
    assert NatToString(2) == "2";
    assert [Argument(NatToString(|add.arguments| + 1), Num(4))] + add.arguments == AddCallTwo().arguments;
    assert Bind(add, Num(4)) == Some(AddCallTwo());
    assert DropLast([add]) + [AddCallTwo()] == [AddCallTwo()];
  }

  lemma ApplySum()
    ensures Drain(Machine(Frames([AddCallTwo()], Builtins()), [], [])) ==
            Ok(Machine(Frames([], Builtins()), [Num(7)], []))
  {
    var c := AddCallTwo();
    assert Popped(c, 1) == Num(3) && Popped(c, 2) == Num(4);
    assert ActionAdd(c).value.results == [Num(7)];
  }

  lemma DrainIdle(m: Machine)
    requires m.frames.calls == [] || Last(m.frames.calls).expectations != []
    ensures Drain(m) == Ok(m)
  {
  }

  lemma AddStepOne()
    ensures Run(Start([Num(4), Num(3), Word("+")], []), 100) ==
            Run(Machine(Frames([AddCall()], Builtins()), [Num(4), Num(3)], []), 99)
  {
    var m0 := Start([Num(4), Num(3), Word("+")], []);
    DispatchPlus([Num(4), Num(3)]);
    assert [Num(4), Num(3)] + [Word("+")] == m0.pending;
    DrainIdle(m0);
    RunCycle(m0, m0, Machine(Frames([AddCall()], Builtins()), [Num(4), Num(3)], []), 100);
  }

  lemma AddStepTwo()
    ensures Run(Machine(Frames([AddCall()], Builtins()), [Num(4), Num(3)], []), 99) ==
            Run(Machine(Frames([AddCallOne()], Builtins()), [Num(4)], []), 98)
  {
    var m1 := Machine(Frames([AddCall()], Builtins()), [Num(4), Num(3)], []);
    BindThree();
    assert Last(m1.pending) == Num(3) && DropLast(m1.pending) == [Num(4)];
    DrainIdle(m1);
    RunCycle(m1, m1, Machine(Frames([AddCallOne()], Builtins()), [Num(4)], []), 99);
  }

  lemma AddStepThree()
    ensures Run(Machine(Frames([AddCallOne()], Builtins()), [Num(4)], []), 98) ==
            Run(Machine(Frames([AddCallTwo()], Builtins()), [], []), 97)
  {
    var m2 := Machine(Frames([AddCallOne()], Builtins()), [Num(4)], []);
    BindFour();
    assert Last(m2.pending) == Num(4) && DropLast(m2.pending) == [];
    DrainIdle(m2);
    RunCycle(m2, m2, Machine(Frames([AddCallTwo()], Builtins()), [], []), 98);
  }

  lemma DispatchSeven()
    ensures Dispatch(Machine(Frames([], Builtins()), [Num(7)], [])) ==
            Ok(Machine(Frames([], Builtins()), [], [Num(7)]))
  {
    var m := Machine(Frames([], Builtins()), [Num(7)], []);
    assert Last(m.pending) == Num(7) && DropLast(m.pending) == [];
    DispatchUnboundNum(m, 7);
    assert m.output + [Num(7)] == [Num(7)];
  }

  /** A driver with nothing to apply and nothing pending stops. */
  lemma RunIdle(m: Machine, budget: nat)
    requires budget > 0 && m.pending == []
    requires m.frames.calls == [] || Last(m.frames.calls).expectations != []
    ensures Run(m, budget) == Ok(m)
  {
    DrainIdle(m);
  }

  lemma AddStepFour()
    ensures Run(Machine(Frames([AddCallTwo()], Builtins()), [], []), 97) ==
            Ok(Machine(Frames([], Builtins()), [], [Num(7)]))
  {
    var m3 := Machine(Frames([AddCallTwo()], Builtins()), [], []);
    var m4 := Machine(Frames([], Builtins()), [Num(7)], []);
    var m5 := Machine(Frames([], Builtins()), [], [Num(7)]);
    ApplySum();
    DispatchSeven();
    RunCycle(m3, m4, m5, 97);
    RunIdle(m5, 96);
  }

  /** `+ 3 4` evaluates to 7. */
  lemma RunAddPrefix()
    ensures Run(Start([Num(4), Num(3), Word("+")], []), MaxCycles) ==
            Ok(Machine(Frames([], Builtins()), [], [Num(7)]))
  {
    AddStepOne();
    AddStepTwo();
    AddStepThree();
    AddStepFour();
  }

  /** One lexeme read by the lexing loop. */
  lemma LexStep(s: string, i: nat, lexstack: seq<LexItem>, step: Step)
    requires i < |s| && Lexeme(s, i) == Ok(step) && i < step.next <= |s|
    ensures LexFrom(s, i, lexstack) ==
      LexFrom(s, step.next, if step.item.Some? then [step.item.value] + lexstack else lexstack)
  {
  }

  lemma LexAddLineWords()
    ensures LexFrom("+ 3 4 ", 0, []) == LexFrom("+ 3 4 ", 2, [Word("+")])
  {
    var s := "+ 3 4 ";
    assert s[0..1] == "+";
    LexemeOfWord(s, 0, "+");
    LexStep(s, 0, [], Step(Some(Word("+")), 1));
    LexemeWhitespace(s, 1);
    LexStep(s, 1, [Word("+")], Step(None, 2));
  }

  lemma LexAddLineThree()
    ensures LexFrom("+ 3 4 ", 2, [Word("+")]) == LexFrom("+ 3 4 ", 4, [Num(3), Word("+")])
  {
    var s := "+ 3 4 ";
    assert NatToString(3) == "3";
    assert s[2..3] == "3";
    LexemeOfNumeral(s, 2, 3);
    LexStep(s, 2, [Word("+")], Step(Some(Num(3)), 3));
    LexemeWhitespace(s, 3);
    LexStep(s, 3, [Num(3), Word("+")], Step(None, 4));
  }

  lemma LexAddLineFour()
    ensures LexFrom("+ 3 4 ", 4, [Num(3), Word("+")]) == Lexed([Num(4), Num(3), Word("+")])
  {
    var s := "+ 3 4 ";
    assert NatToString(4) == "4";
    assert s[4..5] == "4";
    LexemeOfNumeral(s, 4, 4);
    LexStep(s, 4, [Num(3), Word("+")], Step(Some(Num(4)), 5));
    LexemeWhitespace(s, 5);
    LexStep(s, 5, [Num(4), Num(3), Word("+")], Step(None, 6));
  }

  /** The whole line `+ 3 4 `, lexed, parsed and run, leaves 7 on the output. */
  lemma EvalAddLine()
    ensures EvalLine("+ 3 4 ", []) == Finished([Num(7)])
  {
    LexAddLineWords();
    LexAddLineThree();
    LexAddLineFour();
    var lexstack := [Num(4), Num(3), Word("+")];
    ParseFlat(lexstack);
    RunAddPrefix();
  }

  /** `3 4 +`, first cycle: 3 goes to the output ... */
  lemma PostfixStepOne()
    ensures Run(Start([Word("+"), Num(4), Num(3)], []), 100) ==
            Run(Machine(Frames([], Builtins()), [Word("+"), Num(4)], [Num(3)]), 99)
  {
    var m0 := Start([Word("+"), Num(4), Num(3)], []);
    var m1 := Machine(Frames([], Builtins()), [Word("+"), Num(4)], [Num(3)]);
    assert Last(m0.pending) == Num(3) && DropLast(m0.pending) == m1.pending;
    DispatchUnboundNum(m0, 3);
    assert m0.output + [Num(3)] == m1.output;
    DrainIdle(m0);
    RunCycle(m0, m0, m1, 100);
  }

  /** ... second cycle: so does 4 ... */
  lemma PostfixStepTwo()
    ensures Run(Machine(Frames([], Builtins()), [Word("+"), Num(4)], [Num(3)]), 99) ==
            Run(Machine(Frames([], Builtins()), [Word("+")], [Num(3), Num(4)]), 98)
  {
    var m1 := Machine(Frames([], Builtins()), [Word("+"), Num(4)], [Num(3)]);
    var m2 := Machine(Frames([], Builtins()), [Word("+")], [Num(3), Num(4)]);
    assert Last(m1.pending) == Num(4) && DropLast(m1.pending) == m2.pending;
    DispatchUnboundNum(m1, 4);
    assert m1.output + [Num(4)] == m2.output;
    DrainIdle(m1);
    RunCycle(m1, m1, m2, 99);
  }

  /** ... third cycle: `+` starts a call, which then waits. */
  lemma PostfixStepThree()
    ensures Run(Machine(Frames([], Builtins()), [Word("+")], [Num(3), Num(4)]), 98) ==
            Ok(Machine(Frames([AddCall()], Builtins()), [], [Num(3), Num(4)]))
  {
    var m2 := Machine(Frames([], Builtins()), [Word("+")], [Num(3), Num(4)]);
    var m3 := Machine(Frames([AddCall()], Builtins()), [], [Num(3), Num(4)]);
    DispatchPlus([]);
    assert [] + [Word("+")] == m2.pending;
    DrainIdle(m2);
    RunCycle(m2, m2, m3, 98);
    assert AddCall().expectations != [];
    RunIdle(m3, 97);
  }

  /** `3 4 +`: nothing is waiting when 3 and 4 are dispatched, so both go to
      the output; `+` then waits for values that never come. */
  lemma RunAddPostfix()
    ensures Run(Start([Word("+"), Num(4), Num(3)], []), MaxCycles) ==
            Ok(Machine(Frames([AddCall()], Builtins()), [], [Num(3), Num(4)]))
  {
    PostfixStepOne();
    PostfixStepTwo();
    PostfixStepThree();
  }
}
