/**
  The actions a call runs when all its expectations are met (src/main.rs:686-823):
  the built-ins `+`, `-`, `if` and `#`, the parameter lookup the driver uses
  for a dispatched `Parameter`, and the beta-reduction of a user word's
  template.

  The source's actions take `&mut Call` and pop `arguments` from the back, so
  the first value popped is the first one bound. Here each action maps a
  `Call` value to its new value, or to `Panic` where the source unwraps
  nothing or overflows.
 */
module Actions {
  import opened Values
  import opened Numerals
  import opened Words

  /** The value the k-th `arguments.pop()` returns: the k-th argument from the
      back of the vector. */
  function Popped(c: Call, k: nat): LexItem
    requires 1 <= k <= |c.arguments|
  {
    c.arguments[|c.arguments| - k].value
  }

  /** `call.arguments.pop().unwrap().value` */
  function PopValue(c: Call): (r: Outcome<(LexItem, Call)>)
    ensures r.Ok? <==> c.arguments != []
    ensures r.Ok? ==> r.value.0 == Popped(c, 1) && r.value.1 == c.(arguments := DropLast(c.arguments))
  {
    if c.arguments == [] then Panic
    else Ok((Last(c.arguments).value, c.(arguments := DropLast(c.arguments))))
  }

  /** `call.arguments.pop().unwrap().value.get_Num().unwrap()` */
  function PopNum(c: Call): (r: Outcome<(i64, Call)>)
    ensures r.Ok? <==> c.arguments != [] && Popped(c, 1).Num?
    ensures r.Ok? ==> r.value.0 == Popped(c, 1).num && r.value.1 == c.(arguments := DropLast(c.arguments))
  {
    match PopValue(c)
    case Panic => Panic
    case Ok((v, rest)) => if v.Num? then Ok((v.num, rest)) else Panic
  }

  /** `action_add`: the sum of the first two values popped. */
  function ActionAdd(c: Call): (r: Outcome<Call>)
    ensures r.Ok? <==>
      |c.arguments| >= 2 && Popped(c, 1).Num? && Popped(c, 2).Num? &&
      InI64(Popped(c, 1).num as int + Popped(c, 2).num as int)
    ensures r.Ok? ==>
      r.value == c.(arguments := c.arguments[..|c.arguments| - 2],
                    results := c.results + [Num((Popped(c, 1).num as int + Popped(c, 2).num as int) as i64)])
  {
    match PopNum(c)
    case Panic => Panic
    case Ok((a, c1)) =>
      match PopNum(c1)
      case Panic => Panic
      case Ok((b, c2)) =>
        var sum := a as int + b as int;
        if InI64(sum) then Ok(c2.(results := c2.results + [Num(sum as i64)])) else Panic
  }

  /** `action_subtract`: the first value popped minus the second. */
  function ActionSubtract(c: Call): (r: Outcome<Call>)
    ensures r.Ok? <==>
      |c.arguments| >= 2 && Popped(c, 1).Num? && Popped(c, 2).Num? &&
      InI64(Popped(c, 1).num as int - Popped(c, 2).num as int)
    ensures r.Ok? ==>
      r.value == c.(arguments := c.arguments[..|c.arguments| - 2],
                    results := c.results + [Num((Popped(c, 1).num as int - Popped(c, 2).num as int) as i64)])
  {
    match PopNum(c)
    case Panic => Panic
    case Ok((a, c1)) =>
      match PopNum(c1)
      case Panic => Panic
      case Ok((b, c2)) =>
        var difference := a as int - b as int;
        if InI64(difference) then Ok(c2.(results := c2.results + [Num(difference as i64)])) else Panic
  }

  /** `check_conditional`: only a nonzero number is true. */
  predicate CheckConditional(l: LexItem) {
    match l
    case Num(n) => n != 0
    case _ => false
  }

  /** `action_if`: the condition is popped first, then the two branches. */
  function ActionIf(c: Call): (r: Outcome<Call>)
    ensures r.Ok? <==> |c.arguments| >= 3
    ensures r.Ok? && Popped(c, 1).Num? && Popped(c, 1).num != 0 ==>
      r.value == c.(arguments := c.arguments[..|c.arguments| - 3], results := c.results + [Popped(c, 2)])
    ensures r.Ok? && !(Popped(c, 1).Num? && Popped(c, 1).num != 0) ==>
      r.value == c.(arguments := c.arguments[..|c.arguments| - 3], results := c.results + [Popped(c, 3)])
  {
    match PopValue(c)
    case Panic => Panic
    case Ok((conditional, c1)) =>
      match PopValue(c1)
      case Panic => Panic
      case Ok((ifClause, c2)) =>
        match PopValue(c2)
        case Panic => Panic
        case Ok((elseClause, c3)) =>
          Ok(c3.(results := c3.results + [if CheckConditional(conditional) then ifClause else elseClause]))
  }

  /** The element `action_extract` takes from a value at index k: counted from
      the end of the vector for a positive k, from its start for a negative k. */
  function ExtractItem(s: LexItem, k: i64): (r: Option<LexItem>)
    ensures r.Some? <==> s.Stack? && (1 <= k as int <= |s.items| || -|s.items| <= k as int <= -1)
  {
    if s.Stack? && |s.items| > 0 then
      var n := |s.items|;
      if 0 < k as int <= n then Some(s.items[n - k as int])
      else if -n <= k as int < 0 then Some(s.items[-(k as int + 1)])
      else None
    else None
  }

  /** A positive index k takes the k-th element from the end of the vector ... */
  lemma ExtractFromEnd(items: seq<LexItem>, k: i64)
    requires 1 <= k as int <= |items|
    ensures ExtractItem(Stack(items), k) == Some(items[|items| - k as int])
  {
  }

  /** ... and a negative index -k the k-th element from its start. */
  lemma ExtractFromStart(items: seq<LexItem>, k: i64)
    requires -|items| <= k as int <= -1
    ensures ExtractItem(Stack(items), k) == Some(items[-(k as int + 1)])
  {
  }

  /** A Stack keeps its items in reversed program order, so a positive index
      counts the written items from the front, starting at 1 ... */
  lemma ExtractCountsFromFront(items: seq<LexItem>, k: i64)
    requires 1 <= k as int <= |items|
    ensures ExtractItem(Stack(items), k) == Some(Reverse(items)[k as int - 1])
  {
    ExtractFromEnd(items, k);
  }

  /** ... and a negative index counts them from the back, -1 being the last
      written item. */
  lemma ExtractCountsFromBack(items: seq<LexItem>, k: i64)
    requires -|items| <= k as int <= -1
    ensures ExtractItem(Stack(items), k) == Some(Reverse(items)[|items| + k as int])
  {
    ExtractFromStart(items, k);
  }

  function AsList(o: Option<LexItem>): seq<LexItem> {
    match o
    case Some(x) => [x]
    case None => []
  }

  /** `action_extract`: the index is popped first, then the stack. */
  function ActionExtract(c: Call): (r: Outcome<Call>)
    ensures r.Ok? <==> |c.arguments| >= 2 && Popped(c, 1).Num?
    ensures r.Ok? ==>
      r.value == c.(arguments := c.arguments[..|c.arguments| - 2],
                    results := c.results + AsList(ExtractItem(Popped(c, 2), Popped(c, 1).num)))
  {
    match PopNum(c)
    case Panic => Panic
    case Ok((index, c1)) =>
      match PopValue(c1)
      case Panic => Panic
      case Ok((s, c2)) =>
        match ExtractItem(s, index)
        case Some(x) => Ok(c2.(results := c2.results + [x]))
        case None => Ok(c2)
  }

  /** `parameter_reduce`: a Parameter with the argument's name stands for the
      argument's value; nothing else is reduced. */
  function ParameterReduce(a: Argument, l: LexItem): (r: Option<LexItem>)
    ensures r.Some? <==> l == Parameter(a.name)
    ensures r.Some? ==> r.value == a.value
  {
    match l
    case Parameter(p) => if a.name == p then Some(a.value) else None
    case _ => None
  }

  /** One template item after the inner loop of `action_substitution`: each
      argument, in vector order, replaces the item if it names it. */
  function Reduced(v: LexItem, args: seq<Argument>): LexItem
    decreases |args|
  {
    if args == [] then v
    else
      var next := match ParameterReduce(args[0], v) case Some(x) => x case None => v;
      Reduced(next, args[1..])
  }

  /** Every item of a template body after beta-reduction. */
  function BetaReduced(items: seq<LexItem>, args: seq<Argument>): (r: seq<LexItem>)
    ensures |r| == |items|
  {
    seq(|items|, k requires 0 <= k < |items| => Reduced(items[k], args))
  }

  /** What `action_substitution` leaves in the call. */
  function Substituted(c: Call): Call
  {
    match c.substitution
    case None => c
    case Some(sub) =>
      var results :=
        if c.arity > 0 then (if sub.Lambda? then BetaReduced(sub.items, c.arguments) else [])
        else if sub.Lambda? then sub.items
        else [sub];
      c.(substitution := None, results := results)
  }

  /** `action_substitution`, with its work list and its two nested loops. */
  method ActionSubstitution(c: Call) returns (r: Call)
    ensures r == Substituted(c)
  {
    var sub := c.substitution;
    r := c.(substitution := None);
    if sub.None? {
      return c;
    }
    var betasub: seq<LexItem> := [];
    if c.arity > 0 {
      if sub.value.Lambda? {
        var items := sub.value.items;
        var curstack := [items];
        while curstack != []
          invariant curstack == [] || curstack == [items]
          invariant curstack == [items] ==> betasub == []
          invariant curstack == [] ==> betasub == BetaReduced(items, c.arguments)
          decreases |curstack|
        {
          var current := Last(curstack);
          curstack := DropLast(curstack);
          var k := 0;
          while k < |current|
            invariant k <= |current|
            invariant betasub == BetaReduced(current[..k], c.arguments)
          {
            var value := current[k];
            var j := 0;
            while j < |c.arguments|
              invariant j <= |c.arguments|
              invariant Reduced(value, c.arguments[j..]) == Reduced(current[k], c.arguments)
            {
              var reduced := ParameterReduce(c.arguments[j], value);
              if reduced.Some? {
                value := reduced.value;
              }
              j := j + 1;
            }
            betasub := betasub + [value];
            k := k + 1;
          }
          assert current[..k] == current;
        }
      }
      r := r.(results := betasub);
    } else {
      match sub.value
      case Lambda(s) =>
        r := r.(results := s);
      case s =>
        r := r.(results := [s]);
    }
  }

  /** An item that is not a Parameter, a nested Stack or Lambda included,
      comes out of beta-reduction as it went in. */
  lemma {:induction false} ReducedNonParameter(v: LexItem, args: seq<Argument>)
    requires !v.Parameter?
    ensures Reduced(v, args) == v
    decreases |args|
  {
    if args != [] {
      ReducedNonParameter(v, args[1..]);
    }
  }

  /** A Parameter no argument names stays as it is. */
  lemma {:induction false} ReducedUnnamed(p: string, args: seq<Argument>)
    requires forall i :: 0 <= i < |args| ==> args[i].name != p
    ensures Reduced(Parameter(p), args) == Parameter(p)
    decreases |args|
  {
    if args != [] {
      ReducedUnnamed(p, args[1..]);
    }
  }

  /** A Parameter is replaced by the value of the first argument with its name,
      which is then reduced by the arguments after it. */
  lemma {:induction false} ReducedFirstMatch(p: string, args: seq<Argument>, j: nat)
    requires j < |args| && args[j].name == p
    requires forall i :: 0 <= i < j ==> args[i].name != p
    ensures Reduced(Parameter(p), args) == Reduced(args[j].value, args[j + 1..])
    decreases j
  {
    if j > 0 {
      ReducedFirstMatch(p, args[1..], j - 1);
      assert args[1..][j..] == args[j + 1..];
    }
  }

  /** The arguments of a call that has bound n values and popped none: the
      names read n ... 1 from the front of the vector to its back. */
  predicate NamedInOrder(args: seq<Argument>) {
    forall i :: 0 <= i < |args| ==> args[i].name == NatToString(|args| - i)
  }

  /** A Parameter first named by an argument that holds no Parameter reduces
      to that argument's value. */
  lemma ReducedFirstValue(args: seq<Argument>, p: string, j: nat)
    requires j < |args| && args[j].name == p && !args[j].value.Parameter?
    requires forall m :: 0 <= m < j ==> args[m].name != p
    ensures Reduced(Parameter(p), args) == args[j].value
  {
    ReducedFirstMatch(p, args, j);
    ReducedNonParameter(args[j].value, args[j + 1..]);
  }

  /** ... and any other parameter name stays. */
  lemma ReducedOutOfRange(args: seq<Argument>, p: string)
    requires NamedInOrder(args)
    requires forall k: nat :: 1 <= k <= |args| ==> p != NatToString(k)
    ensures Reduced(Parameter(p), args) == Parameter(p)
  {
    forall m | 0 <= m < |args| ensures args[m].name != p {
      assert args[m].name == NatToString(|args| - m);
    }
    ReducedUnnamed(p, args);
  }

  /** Beta-reduction of a call whose arguments are named in order and hold no
      Parameters: `$k` becomes the k-th bound value, every other item stays. */
  lemma SubstituteBoundArguments(items: seq<LexItem>, args: seq<Argument>, i: nat)
    requires i < |items| && NamedInOrder(args)
    requires forall j :: 0 <= j < |args| ==> !args[j].value.Parameter?
    ensures forall k: nat :: 1 <= k <= |args| && items[i] == Parameter(NatToString(k)) ==>
      BetaReduced(items, args)[i] == args[|args| - k].value
    ensures (forall k: nat :: 1 <= k <= |args| ==> items[i] != Parameter(NatToString(k))) ==>
      BetaReduced(items, args)[i] == items[i]
  {
    var v := items[i];
    assert BetaReduced(items, args)[i] == Reduced(v, args);
    forall k: nat | 1 <= k <= |args| && v == Parameter(NatToString(k))
      ensures Reduced(v, args) == args[|args| - k].value
    {
      NamedInOrderFirst(args, k);
      ReducedFirstValue(args, NatToString(k), |args| - k);
    }
    if v.Parameter? {
      if forall k: nat :: 1 <= k <= |args| ==> v.name != NatToString(k) {
        ReducedOutOfRange(args, v.name);
      }
    } else {
      ReducedNonParameter(v, args);
    }
  }

  /** A template call applied to values bound in order: each `$k` of the
      template whose k was bound becomes the k-th bound value, every other
      item stays where it was, and the template is used up. */
  lemma SubstitutionOfBoundCall(c: Call, i: nat)
    requires c.arity > 0 && c.substitution.Some? && c.substitution.value.Lambda?
    requires NamedInOrder(c.arguments)
    requires forall j :: 0 <= j < |c.arguments| ==> !c.arguments[j].value.Parameter?
    requires i < |c.substitution.value.items|
    ensures Substituted(c).substitution == None
    ensures |Substituted(c).results| == |c.substitution.value.items|
    ensures forall k: nat :: 1 <= k <= |c.arguments| && c.substitution.value.items[i] == Parameter(NatToString(k)) ==>
      Substituted(c).results[i] == Popped(c, k)
    ensures (forall k: nat :: 1 <= k <= |c.arguments| ==> c.substitution.value.items[i] != Parameter(NatToString(k))) ==>
      Substituted(c).results[i] == c.substitution.value.items[i]
  {
    SubstituteBoundArguments(c.substitution.value.items, c.arguments, i);
  }

  /** The value of the first argument in vector order with the given name. */
  function FirstNamed(args: seq<Argument>, p: string): Option<LexItem>
    decreases |args|
  {
    if args == [] then None
    else if args[0].name == p then Some(args[0].value)
    else FirstNamed(args[1..], p)
  }

  /** The lookup finds a value exactly when some argument carries the name,
      and then it is the value of the first such argument. */
  lemma {:induction false} FirstNamedIsFirst(args: seq<Argument>, p: string)
    ensures FirstNamed(args, p).Some? <==> exists i :: 0 <= i < |args| && args[i].name == p
    ensures FirstNamed(args, p).Some? ==>
      exists i :: 0 <= i < |args| && args[i].name == p && FirstNamed(args, p).value == args[i].value &&
                  forall m :: 0 <= m < i ==> args[m].name != p
    decreases |args|
  {
    if args != [] && args[0].name != p {
      var tail := args[1..];
      FirstNamedIsFirst(tail, p);
      if FirstNamed(tail, p).Some? {
        var i :| 0 <= i < |tail| && tail[i].name == p && FirstNamed(tail, p).value == tail[i].value &&
          forall m :: 0 <= m < i ==> tail[m].name != p;
        assert args[i + 1] == tail[i];
        forall m | 0 <= m < i + 1 ensures args[m].name != p {
          if m > 0 {
            assert args[m] == tail[m - 1];
          }
        }
      } else {
        forall i | 0 <= i < |args| ensures args[i].name != p {
          if i > 0 {
            assert args[i] == tail[i - 1];
          }
        }
      }
    }
  }

  /** The lookup finds the first argument with the name. */
  lemma {:induction false} FirstNamedAt(args: seq<Argument>, p: string, j: nat)
    requires j < |args| && args[j].name == p
    requires forall m :: 0 <= m < j ==> args[m].name != p
    ensures FirstNamed(args, p) == Some(args[j].value)
    decreases j
  {
    if j > 0 {
      FirstNamedAt(args[1..], p, j - 1);
    }
  }

  /** A name nobody carries is not found. */
  lemma {:induction false} FirstNamedAbsent(args: seq<Argument>, p: string)
    requires forall m :: 0 <= m < |args| ==> args[m].name != p
    ensures FirstNamed(args, p) == None
    decreases |args|
  {
    if args != [] {
      FirstNamedAbsent(args[1..], p);
    }
  }

  /** What `action_parameter` leaves in the call and returns. */
  function ParameterLookup(c: Call): (Call, Option<LexItem>)
  {
    if c.arguments == [] then (c, None)
    else
      var rest := DropLast(c.arguments);
      var l := Last(c.arguments).value;
      (c.(arguments := rest), if l.Parameter? then FirstNamed(rest, l.name) else None)
  }

  /** `action_parameter`: pops the first-bound argument; when it holds a
      Parameter, looks that name up among the remaining arguments. */
  method ActionParameter(c: Call) returns (r: Call, value: Option<LexItem>)
    ensures (r, value) == ParameterLookup(c)
  {
    r, value := c, None;
    if c.arguments == [] {
      return;
    }
    var l := Last(c.arguments);
    r := c.(arguments := DropLast(c.arguments));
    if l.value.Parameter? {
      var p := l.value.name;
      var args := r.arguments;
      var k := 0;
      while k < |args|
        invariant k <= |args|
        invariant FirstNamed(args[k..], p) == FirstNamed(args, p)
      {
        if p == args[k].name {
          value := Some(args[k].value);
          return;
        }
        assert args[k..][1..] == args[k + 1..];
        k := k + 1;
      }
    }
  }

  /** `action_parameter` on its own terms: on a call that has bound n values,
      it pops the first-bound value; if that value is `$k` for 2 <= k <= n,
      the lookup yields the k-th bound value; `$1` names the popped argument
      itself and yields nothing. (Within `eval` no call binds a Parameter, so
      there the lookup never yields anything: see `Runs.DispatchParameter`.) */
  lemma ParameterLookupOfBound(c: Call, k: nat)
    requires NamedInOrder(c.arguments) && 1 <= k <= |c.arguments|
    requires Popped(c, 1) == Parameter(NatToString(k))
    ensures ParameterLookup(c).0.arguments == DropLast(c.arguments)
    ensures k == 1 ==> ParameterLookup(c).1 == None
    ensures k > 1 ==> ParameterLookup(c).1 == Some(Popped(c, k))
  {
    var n := |c.arguments|;
    var rest := DropLast(c.arguments);
    var p := NatToString(k);
    assert Last(c.arguments).value == Parameter(p);
    assert ParameterLookup(c) == (c.(arguments := rest), FirstNamed(rest, p));
    if k > 1 {
      assert FirstNamed(rest, p) == Some(c.arguments[n - k].value) by {
        forall m | 0 <= m < n - k ensures rest[m].name != p {
          NamedInOrderDistinct(c.arguments, m, k);
        }
        assert rest[n - k] == c.arguments[n - k];
        FirstNamedAt(rest, p, n - k);
      }
    } else {
      assert FirstNamed(rest, p) == None by {
        forall m | 0 <= m < |rest| ensures rest[m].name != p {
          NamedInOrderDistinct(c.arguments, m, k);
        }
        FirstNamedAbsent(rest, p);
      }
    }
  }

  /** In a vector named in order, the name k first appears at index n - k. */
  lemma NamedInOrderFirst(args: seq<Argument>, k: nat)
    requires NamedInOrder(args) && 1 <= k <= |args|
    ensures args[|args| - k].name == NatToString(k)
    ensures forall m :: 0 <= m < |args| - k ==> args[m].name != NatToString(k)
  {
    forall m | 0 <= m < |args| - k ensures args[m].name != NatToString(k) {
      NamedInOrderDistinct(args, m, k);
    }
  }

  /** In a vector named in order, the name k sits at one index only. */
  lemma NamedInOrderDistinct(args: seq<Argument>, m: nat, k: nat)
    requires NamedInOrder(args) && m < |args| && |args| - m != k
    ensures args[m].name != NatToString(k)
  {
    assert DigitsValue(args[m].name) == |args| - m;
  }

  /** The action a call runs, chosen by its tag; `define` runs none. Only the
      built-ins can panic; every action keeps the call's word (its name, tag,
      arity and expectations); a built-in only drops bound values from the
      back and appends to the results, and substitution replaces the results
      by the template's body and uses the template up. */
  function Apply(c: Call): (r: Outcome<Call>)
    ensures r.Panic? ==> c.action in {Add, Subtract, If, Extract}
    ensures r.Ok? ==> r.value.name == c.name && r.value.action == c.action &&
                      r.value.arity == c.arity && r.value.expectations == c.expectations
    ensures r.Ok? && c.action != Substitution ==>
      r.value.substitution == c.substitution &&
      r.value.arguments <= c.arguments && c.results <= r.value.results
    ensures c.action == Substitution ==>
      r.Ok? && r.value.arguments == c.arguments && r.value.substitution == None &&
      (c.substitution.None? ==> r.value.results == c.results)
  {
    match c.action
    case Add => ActionAdd(c)
    case Subtract => ActionSubtract(c)
    case If => ActionIf(c)
    case NoAction => Ok(c)
    case Extract => ActionExtract(c)
    case Substitution => Ok(Substituted(c))
  }
}
