# stapl interpreter core in Dafny

This project models the core of stapl, a small concatenative language whose
interpreter lives in `src/main.rs`. A line of input goes through four stages:

1. **Lexer.** The line is turned into lexemes: numbers, words, `$k`
   parameters, brackets and quote marks. The lexing loop inserts each new
   lexeme at the front of its vector.
2. **Parser.** `parse_stacks` pops the lexemes again. A bracket group becomes
   a `Lambda`, or a `Stack` when a quote comes first. A quote before a word
   makes it a `Literal`. Both kinds of group keep their items in reversed
   program order.
3. **Template analysis.** A template's parameters, arity and expectations
   come from the distinct `$k` names at its top level: `get_parameters`,
   `get_arity`, `get_expectations`, `make_word`, `setup_expectations` and
   `make_call`.
4. **Evaluation.** The call stack (`CallStack`) holds one activation record
   (`Call`) per word being applied, together with the word table. Items are
   dispatched one at a time:
   - a value is bound to the top call when that call's next expectation
     accepts it;
   - an unknown word starts a `define`;
   - a call whose expectations are all met runs its action (`+`, `-`, `if`,
     `#`, or template substitution) and pushes its results back onto the
     pending items.

   `eval` repeats this for at most 100 cycles.

## Module layout

- `Values.dfy`: the `LexItem` union, `i64`, `Option`, `Outcome`.
  `Outcome` has two cases, a normal result or a panic.
- `Numerals.dfy`: the digit arithmetic of the scanners, `format!("{}", n)`
  and `str::parse::<usize>`.
- `Lexer.dfy`: the scanners as specification functions, plus the
  imperative scanners proved equal to them. It also holds per-character
  lemmas and print-then-lex lemmas for each token.
- `Parser.dfy`: `parse_stacks` as a function, plus the imperative version
  proved equal to it. The main theorem is a parse/unparse round trip.
- `Words.dfy`: the template analysis; `Word` is called `WordDef` here.
- `Actions.dfy`: the built-in actions and template substitution, as
  functions on `Call` values. The loops are methods proved equal to them.
- `CallStack.dfy`: binding values to calls, word lookup, the built-in word
  table, and how a call is applied. The `CallStack` class has `stack` and
  `words` fields, and its methods are proved against these functions.
- `Eval.dfy`: the `eval` driver as a function `EvalLine`, and the method
  `EvalInput` over a `CallStack` object, proved equal to it.
- `Runs.dfy`: facts about whole runs of the driver, such as the invariant
  that no call ever binds a `Parameter`.
- `Examples.dfy`: concrete lines worked through the whole model.

In the code, a panic (an `unwrap` on nothing, or integer overflow in a
debug build) is an explicit `Panic` outcome. Every such path is modelled:
none is excluded by a precondition.

## Where the code behaves unexpectedly

Each of these is what the code does, and the model follows it:

- **Arity.** A template's arity, as stored by `make_word`, is the number of
  distinct parameter names. `get_arity` computes the largest numeral among
  them, but `make_word` ignores its `arity` argument
  (src/main.rs:642-672). `Words.ArityOf` still models `get_arity`.
- **Extract with a negative index.** For `#`, index `-1` selects the element
  at the front of the vector, which is the last item written in the source
  text (src/main.rs:698-700). It is not the first written item.
- **Quoted numbers.** A quote before a number is dropped, and the number
  stays a `Num`: the `Literal` built at src/main.rs:345 only shadows the
  outer binding.
- **The word table does not persist.** `eval` builds a fresh call stack and
  a fresh word table for every line (src/main.rs:840-844), so a `define` is
  not visible to later lines.
- **Where an unbound number goes.** A number that no expectation takes goes
  into the top call's results when there is a call. It goes to the output
  only when the call stack is empty (src/main.rs:897-908).
- **The arity field of `define`.** The built-in `define` has arity field 1
  and two expectations (src/main.rs:497-503).
- **An unlisted character hangs the lexer.** A character that starts no
  lexeme and is not whitespace (`*`, say) is never consumed, so
  the lexing loop of `eval` never ends (src/main.rs:222-224 with 855-861).
  The model returns `Stuck` (`Lexer.LexemeUnlisted`).
- **A '-' before a non-digit swallows it.** `lex_number` consumes the
  character after a '-' before it finds that it is not a digit, so "-ab"
  yields the word "-b" and loses the "a" (src/main.rs:245,
  `Lexer.LexemeMinusDropsNextChar`).
- **'#' is always a one-character word.** "#2" lexes as the word "#"
  followed by the number 2; nothing after '#' joins it (src/main.rs:194-196,
  `Lexer.LexemeHash`).
- **A dispatched parameter finds nothing.** `eval` offers only words,
  numbers, lambdas and stacks to the top call, so no call ever binds a
  `Parameter`. A `$k` that reaches dispatch therefore only drops the top
  call's first-bound argument, and its lookup never yields a value
  (src/main.rs:885-934 with 719-733; `Runs.RunBindsNoParameter`,
  `Runs.DispatchParameter`).
- **A bind after a dispatched parameter reuses a name.** A new argument is
  named one more than the number of arguments the call holds
  (src/main.rs:543). After a `$k` has popped one of them (src/main.rs:720),
  the next bind repeats the name of the argument now at the front of the
  vector. In `if 1 2 $7 3 ` the `if` call ends with two arguments named
  "2", the 3 in front. Beta-reduction takes the first match in vector order,
  so `$2` becomes 3 (src/main.rs:794-801, `Runs.NameReusedAfterParameter`).

## Model

| member | source | states |
|---|---|---|
| Numerals.NatToString | src/main.rs:234 | the decimal form of n is non-empty and all digits, reads back as n, and has no leading zero unless n is 0 |
| Numerals.NatToStringInjective | src/main.rs:543 | two counts that get the same parameter name are equal, so arguments bound in order have distinct names |
| Numerals.ParseUsizeNatToString | src/main.rs:118 | `parse::<usize>` of a printed parameter index gives the index back |
| Numerals.AccumulateMonotone | src/main.rs:251-253 | reading more digits never lowers the accumulated value, so a scan overflows exactly when the whole run is too big |
| Numerals.AccumulateSlice | src/main.rs:251-253 | the scanning accumulator started at 0 equals the decimal value of the digits read |
| Numerals.AccumulateFirst | src/main.rs:247-253 | starting the accumulator at the first digit's value equals reading that digit |
| Lexer.DigitEnd | src/main.rs:251-254 | the digit run ends at the first non-digit or at the end of the line |
| Lexer.WordEnd | src/main.rs:268-276 | a word runs up to the first ' ' or ']' or the end of the line |
| Lexer.Lexeme | src/main.rs:166-226 | a step never moves backwards and only yields lexeme kinds; it stays in place only on a character `next_lexeme` does not list |
| Lexer.LexWord | src/main.rs:265-279 | the loop returns c followed by the characters up to the word's end |
| Lexer.LexNumber | src/main.rs:237-263 | the loop with its overflow check computes the number scan of the model |
| Lexer.LexParameter | src/main.rs:228-235 | the loop computes the decimal name of the digits after '$', panicking on overflow |
| Lexer.NextLexeme | src/main.rs:166-226 | the imperative dispatch computes `Lexeme` |
| Lexer.LexLine | src/main.rs:854-862 | the lexing loop of `eval` computes `LexFrom`: the lexemes, a panic, or the endless loop on an unlisted character |
| Lexer.LexFromTokens | src/main.rs:854-862 | the lexing loop yields nothing but lexemes (no groups, literals or lambdas) |
| Lexer.DigitEndAt | src/main.rs:251-254 | a run of digits followed by a non-digit ends exactly there |
| Lexer.WordEndAt | src/main.rs:268-276 | a run with no stop character followed by a stop ends exactly there |
| Lexer.LexemeNumberIsGreedy | src/main.rs:172-177 | a digit starts a number that takes all following digits, and panics when the value exceeds i64 |
| Lexer.LexemeNegativeNumber | src/main.rs:240-256 | '-' before a digit gives the negated value of the whole digit run, or a panic on overflow |
| Lexer.ScanNegative | src/main.rs:240-256 | the number scanner after '-' reads the run of digits that follows |
| Lexer.LexemeMinusBeforeSpace | src/main.rs:242-243 | '-' before a space is the word "-" |
| Lexer.LexemeMinusAtEnd | src/main.rs:242 | '-' as the last character of the line panics |
| Lexer.LexemeMinusDropsNextChar | src/main.rs:245-247 | '-' before any other non-digit swallows that character: the word is '-' and the rest of the word after it |
| Lexer.LexemeParameter | src/main.rs:189-193 | '$' gives the parameter named by the decimal value of the following digits, and "0" when none follow |
| Lexer.LexemeWord | src/main.rs:184-188 | a letter or '+' starts a word that runs to its end |
| Lexer.LexemeWhitespace | src/main.rs:206-209 | blanks are skipped and produce nothing |
| Lexer.LexemeUnlisted | src/main.rs:222-224 | an unlisted character is not consumed, so the lexing loop never ends |
| Lexer.LexemeOfNumeral | src/main.rs:172-177 | the decimal form of a non-negative i64 followed by a space lexes back to that number |
| Lexer.LexemeOfNegativeNumeral | src/main.rs:172-177 | '-' and the decimal form of a positive magnitude followed by a space lexes back to the negative number |
| Lexer.LexemeOfNum | src/main.rs:172-177 | the printed form of any number other than i64's minimum lexes back to it |
| Lexer.LexemeOfNegativeNum | src/main.rs:172-177 | the printed form of a negative number lexes back to it |
| Lexer.LexemeOfWord | src/main.rs:184-188 | a word written as it prints, followed by a space, lexes back to it |
| Lexer.LexemeOfParameter | src/main.rs:189-193 | '$' and a canonical index followed by a space lexes back to that parameter |
| Lexer.LexemeOfMarker | src/main.rs:210-221 | each bracket and the quote mark lex back to their marker in one character |
| Lexer.LexemeHash | src/main.rs:194-197 | '#' is always a one-character word, whatever follows it |
| Parser.ParseLevel | src/main.rs:307-377 | parsing consumes lexemes from the back and returns an unread prefix of its input |
| Parser.ParseStacks | src/main.rs:307-377 | the recursive procedure over the two vectors computes `ParseLevel` |
| Parser.ParseLambda | src/main.rs:314-323 | a bracket group around the lexemes of g parses to `Lambda(g)` |
| Parser.ParseStack | src/main.rs:318-320 | a quoted bracket group parses to `Stack(g)` |
| Parser.ParseLiteral | src/main.rs:354-358 | a quoted word parses to a `Literal` |
| Parser.ParseAtom | src/main.rs:342-372 | a word, number or parameter parses to itself |
| Parser.ParseItem | src/main.rs:307-377 | every parsed item written as lexemes parses back to itself |
| Parser.ParseUnparse | src/main.rs:307-377 | writing a vector of parsed items as lexemes and parsing them appends that vector to what was parsed |
| Parser.ParseOfUnparse | src/main.rs:307-377 | parse after unparse is the identity, with no lexemes left over |
| Parser.UnparseFlat | src/main.rs:342-372 | items without groups or quotes are written as themselves |
| Parser.ParseFlat | src/main.rs:342-372 | lexemes without brackets or quotes parse to the same vector, fully consumed |
| Parser.UnmatchedCloseEndsProgram | src/main.rs:325-328 | an unmatched ']' ends the top level, and the lexemes before it are never parsed |
| Parser.QuotedNumberStaysNumber | src/main.rs:342-349 | a quote before a number is dropped and the number stays a `Num` |
| Parser.ParseLevelParsed | src/main.rs:307-377 | parsing lexemes yields only parsed items: no brackets or quote marks survive |
| Words.StrLessIrreflexive | src/main.rs:144 | the string order of `sort_unstable` is irreflexive |
| Words.StrLessTransitive | src/main.rs:144 | the string order is transitive |
| Words.StrLessTotal | src/main.rs:144 | any two different strings are ordered |
| Words.Insert | src/main.rs:144-145 | inserting into a strictly sorted list keeps it strictly sorted and adds exactly x |
| Words.SortDedup | src/main.rs:144-145 | `sort_unstable` then `dedup` gives a strictly sorted list with exactly the input's members |
| Words.ParameterNames | src/main.rs:139-143 | the collected names are exactly those of the template's top-level parameters |
| Words.Parameters | src/main.rs:135-153 | only a Lambda has parameters; they are strictly sorted, distinct, and exactly its top-level parameter names |
| Words.GetParameters | src/main.rs:135-153 | the loop computes `Parameters` |
| Words.MaxPresent | src/main.rs:114-125 | the result is at least every parsed value, and is 0 or one of them |
| Words.MaxPresentStep | src/main.rs:119-121 | one loop step keeps the running maximum of the values seen |
| Words.GetArity | src/main.rs:107-134 | the loop computes `ArityOf`, the largest parameter numeral |
| Words.ArityIsLargestParameter | src/main.rs:114-125 | a parameter `$n` in a template's top level has n no larger than the arity |
| Words.ArityIsAParameter | src/main.rs:114-125 | a non-zero arity is the value of one of the template's parameters |
| Words.Expectations | src/main.rs:154-163 | one `NumStaLit` per distinct parameter name of a Lambda, and none for anything else |
| Words.GetExpectations | src/main.rs:154-163 | the loop computes `Expectations` |
| Words.StrictlySortedCard | src/main.rs:144-145 | a strictly sorted list has no duplicates |
| Words.ExpectationCount | src/main.rs:154-163 | a template expects exactly as many values as it has distinct parameter names |
| Words.MakeWord | src/main.rs:642-672 | the word keeps name, action and template; its expectations come from the template; its arity is their count, whatever arity is passed |
| Words.SetupExpectations | src/main.rs:673-684 | a template word's expectations are recomputed from its template; the other fields are unchanged |
| Words.SetupAfterMakeWord | src/main.rs:599-605 | `setup_expectations` after `make_word` changes nothing |
| Words.MakeCall | src/main.rs:825-838 | a new call copies the word's fields and starts with no arguments and no results |
| Actions.PopValue | src/main.rs:691-692 | popping the last-bound argument panics exactly on an empty argument vector |
| Actions.PopNum | src/main.rs:691 | popping a number panics when there is no argument or it is not a `Num` |
| Actions.ActionAdd | src/main.rs:705-711 | `+` succeeds iff there are two Num arguments and their sum fits in i64; it drops both and appends the sum |
| Actions.ActionSubtract | src/main.rs:712-718 | `-` succeeds iff there are two Num arguments and the first popped minus the second fits in i64; it appends the difference |
| Actions.ActionIf | src/main.rs:734-758 | `if` needs three arguments; it drops them and appends the second popped value when the first is a non-zero Num and the third otherwise; the rest of the call is unchanged |
| Actions.ExtractItem | src/main.rs:693-703 | an element is taken iff the value is a Stack and the index is in 1..n or -n..-1 |
| Actions.ExtractFromEnd | src/main.rs:695-697 | index k > 0 takes the k-th element from the end of the vector |
| Actions.ExtractFromStart | src/main.rs:698-700 | index -k takes the k-th element from the front of the vector |
| Actions.ExtractCountsFromFront | src/main.rs:695-697 | index k > 0 is the k-th item in written order |
| Actions.ExtractCountsFromBack | src/main.rs:698-700 | index -1 is the last written item, -2 the one before it, and so on |
| Actions.ActionExtract | src/main.rs:690-704 | `#` panics unless two arguments are bound and the index popped first is a Num; it drops both and appends the extracted element, if any; the rest of the call is unchanged |
| Actions.ParameterReduce | src/main.rs:760-776 | an argument rewrites an item exactly when the item is a Parameter with the argument's name, and then gives its value |
| Actions.BetaReduced | src/main.rs:792-805 | substitution keeps the template's length |
| Actions.ActionSubstitution | src/main.rs:778-823 | the work-list loop and the nested loops compute `Substituted` |
| Actions.ReducedNonParameter | src/main.rs:769-774 | a non-Parameter item, including a nested group, is never rewritten |
| Actions.ReducedUnnamed | src/main.rs:794-801 | a Parameter that no argument names stays as it is |
| Actions.ReducedFirstMatch | src/main.rs:794-801 | a Parameter becomes the value of the first argument with its name, and the later arguments then act on that value |
| Actions.ReducedFirstValue | src/main.rs:794-801 | when the first matching argument holds no Parameter, the item becomes exactly that value |
| Actions.ReducedOutOfRange | src/main.rs:794-801 | a `$p` that names no bound position stays unchanged |
| Actions.SubstituteBoundArguments | src/main.rs:792-805 | with arguments bound in order, `$k` becomes the k-th bound value and any other item stays |
| Actions.SubstitutionOfBoundCall | src/main.rs:778-809 | a template call with arity > 0 replaces each bound `$k` by the k-th bound value, keeps everything else, and uses up its template |
| Actions.FirstNamedIsFirst | src/main.rs:722-728 | the lookup succeeds iff some argument has the name, and then returns the first such argument's value |
| Actions.FirstNamedAt | src/main.rs:722-728 | the first argument with the name gives the value |
| Actions.FirstNamedAbsent | src/main.rs:722-729 | a name nobody has is not found |
| Actions.ActionParameter | src/main.rs:719-733 | the loop computes `ParameterLookup`: pop the first-bound argument and, if it holds a Parameter, look the name up among the rest |
| Actions.ParameterLookupOfBound | src/main.rs:719-733 | on arguments bound in order, a popped `$k` with k > 1 yields the k-th bound value, and `$1` yields nothing |
| Actions.NamedInOrderFirst | src/main.rs:543-550 | in arguments bound in order, the name k first appears at position n - k |
| Actions.NamedInOrderDistinct | src/main.rs:543-550 | in arguments bound in order, each name appears only once |
| Actions.Apply | src/main.rs:614-616 | running a call's action: only the built-ins panic; the word (name, tag, arity, expectations) is kept; a built-in only drops bound values and appends results; substitution always succeeds, keeps the arguments and uses the template up |
| CallStacks.Bind | src/main.rs:517-552 | a value is bound iff the top expectation accepts it; the expectation is used up and the value is inserted at the front, named one more than the count before |
| CallStacks.BindKeepsNamesInOrder | src/main.rs:543-550 | binding keeps the argument names n..1 from front to back |
| CallStacks.BindIsPoppedLast | src/main.rs:544-550 | a newly bound value is popped after all earlier ones |
| CallStacks.BindKeepsPlaces | src/main.rs:541-550 | binding moves one place from expectations to arguments |
| CallStacks.Offer | src/main.rs:516-564 | an item is taken by the top call iff that call binds it; only the top call changes |
| CallStacks.OfferLiteral | src/main.rs:525-535 | a Literal is taken only by an expectation of Stack, NumStaLit or Any |
| CallStacks.SearchWord | src/main.rs:422-443 | a known word pushes its call; an unknown one needs `define` or panics; the word table is unchanged |
| CallStacks.Builtins | src/main.rs:468-514 | the table holds exactly `+ - if define #`, each named by its key and with no template |
| CallStacks.UnknownWordStartsDefine | src/main.rs:428-440 | an unknown word pushes a `define` call that has already bound the word as its name |
| CallStacks.ApplyDefine | src/main.rs:593-612 | `define` panics on a missing argument; with a Word first it registers that word with the second value as template, and otherwise leaves the table alone |
| CallStacks.ApplyTop | src/main.rs:584-630 | applying the top call pops it; a non-`define` call succeeds iff its action does, and then exactly its results are appended to the pending items and the table is unchanged; `define` succeeds iff `ApplyDefine` does, appends the call's results and installs its table; no word is ever removed |
| CallStacks.DefineRegistersWord | src/main.rs:593-606 | after `define name value`, the table maps name to a substitution word for that value, expecting one value per distinct parameter |
| CallStacks.CallStack.constructor | src/main.rs:840-843 | a new call stack is empty and has no words |
| CallStacks.CallStack.CreateBuiltinWords | src/main.rs:468-514 | adds the built-in table to the words and leaves the stack alone |
| CallStacks.CallStack.PushLexItem | src/main.rs:516-564 | returns nothing exactly when the top call binds the item, and then updates the state as `Offer` does; otherwise nothing changes |
| CallStacks.CallStack.PushSearchWord | src/main.rs:422-443 | succeeds iff `SearchWord` does, and then leaves its state |
| CallStacks.CallStack.PushWordCall | src/main.rs:444-449 | pushes the call made from the word |
| CallStacks.WantsDataBinds | src/main.rs:566-583 | when `wantsData` is false no value can be bound to the top call; when it is true a value can be bound exactly when the next expectation accepts it, and some value can be unless that expectation is for a Literal |
| CallStacks.CallStack.TopApply | src/main.rs:584-630 | applies when the stack is non-empty, with the outcome and state of `ApplyTop`; otherwise changes nothing |
| Eval.Drain | src/main.rs:872-879 | draining stops with an empty call stack or a top call that wants data; it never touches the output and never removes a word |
| Eval.Dispatch | src/main.rs:885-947 | a dispatch never changes the word table |
| Eval.DispatchUnbound | src/main.rs:885-947 | handling an unbound item never changes the word table |
| Eval.Run | src/main.rs:866-948 | the outer loop never removes a word |
| Eval.Utf8Length | src/main.rs:850 | the byte length of a line is at least its character count |
| Eval.DrainCalls | src/main.rs:872-879 | the inner loop on the object computes `Drain` |
| Eval.DispatchNext | src/main.rs:885-947 | the dispatch on the object computes `Dispatch` |
| Eval.EvalInput | src/main.rs:839-952 | `eval` on a fresh call stack computes `EvalLine` |
| Eval.DispatchUnknownWord | src/main.rs:886-895 | an unknown word nobody binds starts a `define` with the word bound |
| Eval.DispatchUnboundNum | src/main.rs:897-909 | an unbound number joins the top call's results, or the output when no call waits |
| Eval.DispatchUnboundStack | src/main.rs:929-934 | an unbound Stack goes to the output |
| Eval.DispatchLiteral | src/main.rs:946 | a Literal that reaches dispatch is dropped |
| Eval.DefineStaysDefined | src/main.rs:866-948 | `define` stays in the table for the whole line |
| Runs.RunCycle | src/main.rs:866-948 | a cycle that drains and then dispatches continues the run from the dispatched state, one cycle fewer |
| Runs.BindHoldsNoParameter | src/main.rs:541-550 | binding anything but a Parameter leaves a call holding no Parameter |
| Runs.SearchWordBindsNoParameter | src/main.rs:422-443 | looking a word up pushes a call with no arguments, or a `define` call holding the word |
| Runs.DispatchBindsNoParameter | src/main.rs:885-934 | a dispatch never makes a call bind a Parameter, since only Words, Nums, Lambdas and Stacks are offered |
| Runs.DrainBindsNoParameter | src/main.rs:872-879 | applying finished calls never makes a call bind a Parameter |
| Runs.RunBindsNoParameter | src/main.rs:866-948 | throughout a run no call holds a Parameter argument |
| Runs.DispatchParameter | src/main.rs:935-945 | so a dispatched `$k` only drops the top call's first-bound argument, if any, and adds nothing to the pending items |
| Runs.DispatchUnboundLambda | src/main.rs:910-927 | a Lambda the top call does not bind pushes one new substitution call holding the Lambda as its template, with no arguments and no results, and one Num/Stack/Literal expectation per distinct parameter name, the arity being that count; the pending items lose the Lambda and the output is unchanged |
| Runs.NameReusedAfterParameter | src/main.rs:540-550 | after a `$k` pops the argument named "1" from a call holding two, the next bind is named "2" again, and beta-reduction of `$2` reads the newer value |
| Examples.BindThree | src/main.rs:516-564 | after `+` binds 3, one expectation is left |
| Examples.BindFour | src/main.rs:516-564 | after 4 is bound too, `+` wants nothing more |
| Examples.ApplySum | src/main.rs:705-711 | the `+` call with 4 and 3 bound produces 7 |
| Examples.RunAddPrefix | src/main.rs:866-948 | `+ 3 4` parsed runs to the output [7] |
| Examples.LexAddLineFour | src/main.rs:854-862 | the last lexing step: from position 4, with `3 +` already in the lexing vector, the line `+ 3 4 ` ends as `4 3 +`; chained with `Examples.LexAddLineWords` and `Examples.LexAddLineThree` it covers the whole line |
| Examples.EvalAddLine | src/main.rs:839-952 | `eval` of `+ 3 4 ` on an empty output gives [7] |
| Examples.RunAddPostfix | src/main.rs:866-948 | `3 4 +` outputs 3 and 4 and leaves `+` waiting |

## Left out

- `main`, the rustyline prompt loop and the history file (src/main.rs:953-977) are interactive I/O.
- The `println!`/`print!` tracing and the formatting helpers (`format_lexstack`, `format_expstack`, `format_parstack`, `print_lexeme`, `Debug for Call`) only produce console output.
- `CallStack::len` and `CallStack::getExpectation` are one-line accessors or unused. `action_none` is the `NoAction` tag.
- Commented-out code is not modelled.
- Panics are a `Panic` outcome. The process abort they cause, and the half-updated state left behind, are not modelled: the model's `eval` simply returns `Panicked`.
- Integer overflow follows debug-build semantics: `+`, `-` and the digit scanners panic. Release-build wrap-around is not modelled.
- The lexer's endless loop on an unlisted character is the outcome `Hangs`; the loop itself is not run.
- The actions take `&mut Call`. They are modelled as functions from a `Call` value to a new one. The call sits only on the call stack, so no aliasing is lost.
- Words.ArityOf: `get_arity`'s maximum is proved about, but the arity `eval` stores comes from `make_word`, which ignores it, as the code does.
- There is no lexing round trip for a whole line: the per-token print-then-lex lemmas need a following space, and a number directly before a ']' is not covered.
- Lexer.LexemeOfNum: i64's minimum is excluded because its magnitude overflows the scanner, which panics.
- The concrete lines in `Examples` end with a space: a trailing '-' at the end of a line panics instead, and is covered by its own lemmas.
