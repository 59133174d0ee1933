# OpenCrisp UtilJS: a Dafny model of its query engine and event core

OpenCrisp UtilJS (`dist/crisp-util.js`) extends JavaScript arrays and
objects with three pieces. This project models them:

- **BaseJS helpers.**
  - `xEach` visits a window of items that `start` and `limit` select, and a
    thrown `Break` ends the walk.
  - `xAdd` pushes its arguments into an array and flattens nested arrays.
  - `ns` walks a dotted namespace, creating missing steps and refusing to
    overwrite a defined leaf.
  - `utilTickCall` hands an event's `args` (or, when they are falsy, the event
    option itself) to a callback.
  - The named options (`optionName`, `optionValue`, `optionIni` and `_`) are
    part of this layer too.
- **EventJS.**
  - An event is an ordered list of listeners. `add` finds an existing listener
    that `is` the option, `trigger` offers a talk to every listener, and
    `remove` splices one listener out.
  - An action filter is built from a space-separated action list.
  - The `EventPicker` barrier counts holds (`Wait`/`Talk`), collects notes and
    fires `complete` when its last hold is released. `eventPicker` keeps one
    picker per action prefix in a cache.
- **PathJS.**
  - A query such as `*.( maker == "Honda" & year > 2009 )` is parsed into
    condition groups, conditions and steps: `*`, `#` and `+`, slices `a~b` and
    `-n`, filters `( … )`, `parent`, field names, function calls and literals.
  - The query is evaluated over a value. Each match is reported to `success`
    and noted on a `complete` barrier, and the walk stops at the limit.
  - `pathFind`, `pathNode` and `pathExists` are built on this.

How the model is organised:

- **Values and delivery.**
  - JavaScript values are a datatype (`Values.Value`). Objects are ordered
    entry lists, and numbers are integers.
  - An evaluation is a pure function returning a `Trace`. A trace is the
    emissions in order, each with its payload, whether `nextTick` noted it,
    and how many holds the barrier had. A trace also says which error, if any,
    cut it short.
  - What a listener receives is modelled in two ways:
    - `AsWritten` follows `utilTickCall` exactly: a falsy payload arrives as the
      event record, and an array payload arrives as its first element.
    - `Direct` hands listeners the payload itself. It is the behaviour the
      repository's own filter test expects.
  - Every lemma that depends on the delivery says which one it is about.
- **The parser** is a set of pure functions over the query text and a cursor.
  `PathParse.PathReason.FindPathCondition` is the stateful entry point.
- **`+` (the inherited filter test)** is evaluated with a fuel bound. When the
  fuel runs out, the call fails with a stack overflow, as the unbounded
  recursion in the source would.
- **The barrier and event objects** are Dafny classes whose methods update
  their fields as the source does.
- **Host callbacks.** Path functions (`name()`) and the regular-expression
  engine are calls into code that is not part of this model. They are the
  parameters of `PathEval.Host`. A listener's action filter is tested the same
  way, through the `Events.RegexTest` parameter of `trigger`.

Where the documentation comments and the code disagree, the model follows the
code:

- A `parent` step forwards `__parent__` even when it is `undefined`.
- `#` and `+` without a following step fail or report nothing.
- `EventPickerNote.Length` with a type always answers 0.
- The filter test calls `e.List()`, which the picker does not have. The model
  hands the `complete` listener the picker's notes as a list of payloads.

## Model

| member | source | states |
|---|---|---|
| Values.DeliverFalsy | dist/crisp-util.js:60-62 | a falsy payload reaches a listener as the event record `{action, args}`, which is truthy |
| Values.DeliverTruthyScalar | dist/crisp-util.js:60-62 | a truthy payload that is not an array reaches the listener unchanged |
| Values.Get | dist/crisp-util.js:3416-3426 | reading a property fails exactly on `undefined` and `null` |
| Values.GetArrayIndex | dist/crisp-util.js:3416-3426 | the decimal key `i` of an array reads element `i`, or `undefined` past the end |
| Values.Items | dist/crisp-util.js:2581-2588 | iterating fails exactly on `undefined`/`null`; arrays give their elements, objects and strings one item per key or character |
| Values.SetField | dist/crisp-util.js:128-131 | after `entries[key] = v`, `key` reads `v` and every other key reads as before |
| Base.EachIndicesRange | dist/crisp-util.js:524-545 | the indices `xEachArray` visits in closed form: everything when `start < -length`, otherwise from the end-relative start for `limit` items (the whole rest when `limit` is missing or not positive), cut at the end |
| Base.EachIndicesInBounds | dist/crisp-util.js:524-552 | every visited index is a valid position, and the visits are consecutive and ascending |
| Base.EachIndicesEdges | dist/crisp-util.js:524-545 | a start at or past the end visits nothing; no limit from 0 visits every index |
| Base.TakeThroughSpec | dist/crisp-util.js:547-553 | a `Break` ends the loop after the breaking call: the visits are a prefix of the window, only the last may have broken, and the loop ends early only on a break |
| Base.AdjustWindow | dist/crisp-util.js:524-545 | the four adjustments of `start`/`limit` give a start ≥ 0 and a window inside the array, whose indices are the closed-form window |
| Base.XEachArray | dist/crisp-util.js:524-556 | the loop calls `success` exactly for the window's indices up to and including the first that breaks |
| Base.XEachObject | dist/crisp-util.js:763-798 | the same window over `Object.keys`: `success` gets the keys at those indices, in order |
| Base.XEach | dist/crisp-util.js:60-69 | `utilTickCall` around the loop: one `success` per visited index, then `complete` once if given, also after a break |
| Base.FlattenIsFlat | dist/crisp-util.js:442-459 | what `xAdd` pushes contains no arrays and no `undefined` |
| Base.FlattenAppend | dist/crisp-util.js:442-459 | adding `a` then `b` pushes the same as adding `a + b` |
| Base.FlattenFlat | dist/crisp-util.js:442-459 | a flat argument list is pushed as it is |
| Base.FlattenIdempotent | dist/crisp-util.js:442-459 | adding the result of an `xAdd` again adds the same items |
| Base.FlattenExample | dist/crisp-util.js:442-459 | `[].xAdd(['a'], [undefined])` gives `['a']` |
| Base.JsArray.XAdd | dist/crisp-util.js:442-459 | the array becomes its old items followed by the flattened arguments, and the receiver is returned |
| Base.SplitJoin | dist/crisp-util.js:122 | splitting a name on `.` and joining the parts back gives the name |
| Base.NsReachable | dist/crisp-util.js:121-145 | after a successful `ns`, the returned node sits at the named path of the new tree |
| Base.NsRefusesOverwrite | dist/crisp-util.js:133-136 | `ns` with a truthy object throws "Can't overwrite 'name' of defined!" when a defined value is already at the path |
| Base.NsGetExisting | dist/crisp-util.js:121-145 | `ns` without an object returns an existing truthy namespace and leaves the tree unchanged |
| Options.OptionNameInjective | dist/crisp-util.js:1147-1149 | different options never share a property |
| Options.OptionNameInner | dist/crisp-util.js:1147-1149 | the property name `__x__` wraps the option name `x` |
| Options.Plus | dist/crisp-util.js:1258-1279 | the `+` of `_`: two strings concatenate and two numbers add |
| Options.OptionHost.OptionValue | dist/crisp-util.js:1152-1162 | writing an option that is not an own property throws and changes nothing; otherwise exactly that property is set |
| Options.OptionHost.OptionIni | dist/crisp-util.js:1185-1206 | a defined option is returned unchanged; an `undefined` one yields the preset, which is stored exactly when `insert` is set |
| Options.OptionHost.Underscore | dist/crisp-util.js:1258-1279 | a key reads the option; a descriptor initialises it, stores `value + after` while returning `value`, then stores and returns `value + before`; it throws exactly when the option is not an own property and something must be stored, or an addition has no result; what the option holds afterwards is stated for both outcomes, and no other property is added or changed |
| Events.ActionSourceCollision | dist/crisp-util.js:1512-1518 | the filter as built merges the different action lists `"a b"` and `"a\|b"` into one |
| Events.ActionBodyRoundTrip | dist/crisp-util.js:1512-1518 | with each item escaped, the filter's alternation body reads back as the action list it came from |
| Events.ActionSourceInjective | dist/crisp-util.js:1512-1518 | with each item escaped, different action lists give different filters |
| Events.OwnOptionFound | dist/crisp-util.js:1844-1855 | a listener `is` the option it was made from exactly when that option's action is not the empty string |
| Events.SameFilterAsWritten | dist/crisp-util.js:1512-1518 | two action lists give the same filter exactly when they agree once each blank is read as `\|` |
| Events.ListenerIdentity | dist/crisp-util.js:1844-1855 | with the same callback and a non-empty action on the option, a listener `is` the option exactly when the two action lists agree once blanks are read as `\|` |
| Events.EventListener.constructor | dist/crisp-util.js:1751-1808 | a listener keeps the option's callback and owner, and its filter is `^(` the action list with blanks turned into `\|` `)\.?`, unescaped as `toReqExpAction` builds it |
| Events.AddMergesCollidingActions | dist/crisp-util.js:1844-1855 | adding `"a\|b"` after `"a b"` with the same callback returns the first listener, and the list keeps one |
| Events.FirstMatch | dist/crisp-util.js:1884-1888 | the index found is the first listener that `is` the option; no index means no listener does |
| Events.Event.Add | dist/crisp-util.js:1880-1895 | `add` returns the first listener that `is` the option and leaves the list alone; otherwise it appends a new listener and returns it |
| Events.Dispatched | dist/crisp-util.js:1816-1838 | the listeners a talk reaches are exactly those on the list whose owner is not the exporter and whose filter, if any, the host's regex test accepts for the action |
| Events.Event.Trigger | dist/crisp-util.js:1901-1909 | `trigger` applies the callbacks of exactly the accepting listeners, in list order |
| Events.RemoveFirst | dist/crisp-util.js:1915-1926 | removing a listener that is not on the list keeps the list; removing one that is shortens it by one |
| Events.RemoveFirstAt | dist/crisp-util.js:1918-1922 | `remove` splices out exactly the first occurrence |
| Events.RemoveFirstAppended | dist/crisp-util.js:1915-1926 | removing a listener that was just added restores the earlier list |
| Events.RemoveFirstKeepsOthers | dist/crisp-util.js:1915-1926 | removing one listener leaves every other listener on the list as often as before |
| Events.Event.Remove | dist/crisp-util.js:1915-1926 | the list loses exactly the first occurrence of the object |
| Events.EventPickerNote.Add | dist/crisp-util.js:1628-1630 | the note is appended to the list `option.type \|\| type`, the other lists are unchanged, and the total grows by one |
| Events.EventPicker.constructor | dist/crisp-util.js:1648-1659 | a new picker holds once and has no notes |
| Events.EventPicker.Wait | dist/crisp-util.js:1667-1670 | one more hold |
| Events.EventPicker.Talk | dist/crisp-util.js:1678-1689 | one hold fewer; it fires exactly when no hold is left and the empty guard allows it, and firing deletes the picker from its cache |
| Events.EventPicker.AddNote | dist/crisp-util.js:1700-1703 | the note is stored under its type, every other note list stays as it was, and the note count grows by one |
| Events.AcquirePicker | dist/crisp-util.js:1995-2012 | a cached picker for the action's prefix gets one more hold; otherwise a fresh picker with one hold, keeping the action (`task` when none is given) and its prefix, is cached under that prefix; no other picker changes |
| PathAst.ExecReverseClosedForm | dist/crisp-util.js:2678-2687 | `n ≥ 1` negations give a boolean that depends only on the parity of `n` and on whether the value reads as false, the string `'false'` included |
| PathAst.DoubleNegation | dist/crisp-util.js:2678-2687 | from the first negation on, two more negations change nothing |
| PathAst.ReverseLoop | dist/crisp-util.js:2678-2687 | the counting loop computes `n` negation steps |
| PathAst.StrLessTrichotomy | dist/crisp-util.js:2499-2541 | string comparison is a strict total order |
| PathAst.Compare | dist/crisp-util.js:2499-2541 | every ordering comparison with `undefined` is false |
| PathAst.ApplyOp | dist/crisp-util.js:2489-2567 | `==` and `!=` are strict (in)equality; an operator `pathOperator` does not define throws a TypeError; a result is a boolean |
| PathAst.CompareDuality | dist/crisp-util.js:2499-2541 | `a > b` is `b < a`, `a >= b` is the negation of `a < b`, and `<` is asymmetric on strings and on numbers |
| PathAst.CompareUndefined | dist/crisp-util.js:2499-2541 | `undefined` on either side of an ordering comparison gives false |
| PathScan.SkipSpaces | dist/crisp-util.js:2729-2746 | the cursor moves over exactly the maximal run of white space |
| PathScan.CloseDelimiter | dist/crisp-util.js:2729-2746 | the closing quote found is a quote, and it is the first one not preceded by a backslash when there is one |
| PathScan.DropEscapeQuotes | dist/crisp-util.js:2764-2852 | removing the backslashes before quotes undoes escaping the quotes of any text |
| PathScan.EscapeQuotesGuarded | dist/crisp-util.js:2729-2746 | in escaped text every quote has a backslash in front of it |
| PathScan.ScanStringLiteral | dist/crisp-util.js:2729-2746 | a quoted literal written with escaped quotes scans as one string token with the original text, ending after its closing quote |
| PathScan.NumberEnd | dist/crisp-util.js:2729-2746 | a number token ends where its look-ahead (no `.` or `:`) holds |
| PathScan.ScanCondition | dist/crisp-util.js:2729-2746 | the condition scanner finds a token exactly when text is left, and the cursor always advances |
| PathScan.ScanDoc | dist/crisp-util.js:3092-3101 | the step scanner finds a token exactly when text is left, and the cursor always advances |
| PathScan.ScanFunction | dist/crisp-util.js:3506-3509 | the function scanner finds a token exactly when text is left, and the cursor always advances |
| PathScan.SliceAt | dist/crisp-util.js:3092-3101 | a slice token `a~b` or `-n` ends past its start and inside the text |
| PathParse.ValueKey | dist/crisp-util.js:3791-3794 | reading `$name` fails exactly when no `values` object was given |
| PathParse.QuotedStringParses | dist/crisp-util.js:2821-2824 | a query that is one double-quoted string parses as one condition whose operand is the string's text with `\"` read as `"`, and the cursor ends after the closing quote |
| PathParse.ComparisonParses | dist/crisp-util.js:2787-2793 | `x op y` parses as one condition with operand `x` and operator `op` whose `value` is a new condition with operand `y` |
| PathParse.NegatedParses | dist/crisp-util.js:2795-2797 | `!…x` parses as one condition with operand `x` whose negation count is the number of `!` |
| PathParse.CombinedParses | dist/crisp-util.js:2799-2803 | `x & y` and `x \| y` parse as two conditions: the first holds `x` and the combinator, the second holds `y` |
| PathParse.ParseGroup | dist/crisp-util.js:2764-2852 | a parsed group has at least one condition and ends inside the text |
| PathParse.ParseDoc | dist/crisp-util.js:3116-3165 | a parsed step chain ends inside the text, and no step means no text consumed |
| PathParse.ParseFunction | dist/crisp-util.js:3511-3547 | a parsed call ends inside the text, and only a chained call may be absent |
| PathParse.Parse | dist/crisp-util.js:3728-3762 | a query whose index is at or past its end parses as one empty condition |
| PathParse.PathReason.FindPathCondition | dist/crisp-util.js:2764-2852 | the stateful parser returns the pure parse of the group from the cursor and moves the cursor to where it ends |
| PathParse.StuckTextDiverges | dist/crisp-util.js:2764-2852 | text that no alternative of the condition grammar consumes keeps the parse loop from ever ending |
| PathParse.UppercaseDiverges | dist/crisp-util.js:2764-2852 | a condition that starts with an uppercase letter never finishes parsing |
| ScenarioParse.TestPathParses | test_/UtilJS_jsperf-filter-vs-jspath_test.js:35 | the test's query parses to `*` over the filter `maker == "Honda" & year > 2009` |
| PathEval.WindowSlice | dist/crisp-util.js:3289-3298 | the items a slice visits are a contiguous slice of the node's items |
| PathEval.LiteralReportsConstant | dist/crisp-util.js:3676-3679 | a literal step reports its constant, whatever the node |
| PathEval.EachItemReportsAll | dist/crisp-util.js:2581-2588 | an `xEach` that ends a path reports every item, in order |
| PathEval.EachReportsElements | dist/crisp-util.js:2581-2588 | `*` reports an array's elements in order and fails on `undefined` |
| PathEval.SliceReportsWindow | dist/crisp-util.js:3289-3298 | `a~b` reports exactly the array's items in the `xEach` window |
| PathEval.SliceLast | dist/crisp-util.js:3240-3250 | `-n` reports the last `n` elements, or all of them when the array is shorter |
| PathEval.Passing | dist/crisp-util.js:3219-3229 | the items a filter lets through are items on which the filter's value is truthy |
| PathEval.EachFilterReportsPassing | dist/crisp-util.js:3219-3229 | `*.(g)` reports exactly the items `g` lets through, in order |
| PathEval.FieldReportsTruthyProperty | dist/crisp-util.js:3416-3426 | a field step reports the property when it is truthy and nothing otherwise; on `null` it throws |
| PathEval.ParentForwardsUndefined | dist/crisp-util.js:3352-3355 | `parent` on a node without `__parent__` reports `undefined` |
| PathEval.CallMissingFunction | dist/crisp-util.js:3603-3613 | calling a function the node lacks throws "PathFunction name is not defined!" |
| PathEval.ChildlessRepeatFails | dist/crisp-util.js:2596-2649 | `#` without a following step throws; `+` without one reports nothing |
| PathEval.DeepVisitsPreOrder | dist/crisp-util.js:2616-2649 | `#` runs its step on the node and all its descendants in pre-order |
| PathEval.DeepItemsVisitPreOrder | dist/crisp-util.js:2616-2649 | over a list of items, `#` runs its step on each item's pre-order in turn |
| PathEval.TestReportsOnce | dist/crisp-util.js:3033-3062 | a negation or comparison reports one value, not noted, and holds do not affect its outcome |
| PathEval.NegationReportsParity | dist/crisp-util.js:3033-3062 | `!…x` reports the closed-form parity of the negations of `x` |
| PathEval.RegexOperandIsTested | dist/crisp-util.js:3033-3062 | `x == /re/` reports the host's regex test of `String(x)` |
| PathEval.LastTestOfGroup | dist/crisp-util.js:2860-2892 | a group's last test gives the group's value |
| PathEval.Conjunction | dist/crisp-util.js:2860-2892 | with values delivered as they are, `a & b` is true exactly when both tests are true |
| PathEval.Disjunction | dist/crisp-util.js:2860-2892 | with values delivered as they are, `a \| b` is true exactly when either test is true |
| PathEval.ConjunctionAsWritten | dist/crisp-util.js:2860-2892 | as the source delivers values, `a & b` gives `b`'s value whatever `a` is |
| PathApi.EffectiveLimit | dist/crisp-util.js:3864 | `opt.limit \|\| -1` keeps a non-zero limit and is never 0 |
| PathApi.NotedPayloadsOfMatches | dist/crisp-util.js:3710-3712 | the barrier's notes are exactly the reported matches |
| PathApi.CutAtLimit | dist/crisp-util.js:3687-3721 | `End` is thrown exactly at the emission that brings the note count to the limit |
| PathApi.Settle | dist/crisp-util.js:3728-3762 | a query ends with its reports, or throws a new plain `Error` wrapping the evaluation's error |
| PathApi.PathNode | dist/crisp-util.js:3822-3851 | `pathNode` is `pathFind` with limit 1; it hangs or throws exactly when that does |
| PathApi.PathExists | dist/crisp-util.js:3899-3903 | `pathExists` returns exactly when `pathNode` of the path alone does |
| PathApi.LimitStopsAtKthMatch | dist/crisp-util.js:3687-3721 | with at least `k` matches and limit `k`, reporting stops at the `k`-th match, and `complete` gets those `k` notes when the top group holds alone |
| PathApi.UnlimitedReportsAll | dist/crisp-util.js:3857-3893 | with no limit, or fewer matches than the limit, an error-free query reports every match, and `complete` gets them all |
| PathApi.CompleteWithinLimit | dist/crisp-util.js:3687-3721 | `complete` never gets more notes than the limit, and its notes are reported matches |
| PathApi.PresetOnError | dist/crisp-util.js:3738-3760 | a query that throws before its limit reports the preset when one is given, and otherwise throws a new plain `Error` wrapping the error |
| PathApi.PathNodeFirstMatch | dist/crisp-util.js:3822-3851 | `pathNode` returns the first match as received, or the preset when that is `undefined` |
| PathApi.PathExistsFirstMatch | dist/crisp-util.js:3899-3903 | `pathExists` is whether the first match reaches the listener as something other than `undefined` |
| PathApi.EmptyArrayNotFound | dist/crisp-util.js:60-62 | as the source delivers values, an empty array that is found reaches `pathNode` as `undefined` |
| PathApi.NoteMatch | dist/crisp-util.js:3696-3720 | reporting a match notes it on the `complete` picker; at the limit the barrier is released a second time, and it fires exactly when that release takes its last hold; the picker table loses `complete` exactly when it fires and is otherwise unchanged, and no other picker's holds change |
| Scenario.FilterOnCar | test_/UtilJS_jsperf-filter-vs-jspath_test.js:35 | the test's filter lets a car through always as the source delivers values, and exactly for a Honda newer than 2009 with values as they are |
| Scenario.PassingByVerdicts | dist/crisp-util.js:3219-3229 | given the filter's verdict on each item, the items it lets through are exactly those with a true verdict, in order |
| Scenario.PassingCars | test_/UtilJS_jsperf-filter-vs-jspath_test.js:10-35 | the filter lets all five test cars through as written, and exactly the expected two with values as they are |
| Scenario.TestQueryAsWritten | test_/UtilJS_jsperf-filter-vs-jspath_test.js:34-39 | as the source delivers values, the test's query reports all five cars, and `complete` gets all five |
| Scenario.TestQueryIntended | test_/UtilJS_jsperf-filter-vs-jspath_test.js:34-39 | with values delivered as they are, the query reports `autos[1]` and `autos[4]`, and those are `complete`'s notes, as the test asserts |

## Left out

- Asynchronous delivery is not modelled. This covers `utilTick` with `async`, the listener `_async` flag and `setTimeout`. Everything runs synchronously, as with `async: false`.
- The JSON wrappers, `xTo`, type tests other than those listed, and the remaining BaseJS and UtilJS helpers are not part of this model.
- Numbers are integers.
  - A decimal literal in a query is scanned with its exact length, but parsing it fails with an `Unsupported` error.
  - `NaN`, mixed-type ordering comparisons and string-to-number coercion are outside the model.
- The regular-expression engine is the `Host.test` parameter. Only one flag validity check is modelled: a flag given twice makes the regex constructor throw. The `lastIndex` state of `g` regexes is not modelled.
- Path functions are the `Host.call` parameter, and their argument text is passed to it unparsed. `JSON.parse` of the arguments is not modelled.
- Wiring is not modelled: `definePath`, `defineEvent` and the `Object.defineProperty` installation. `Path.level` and `countContition` are also left out, as are `console.log` calls.
- Object identity in `===` is structural equality. Boxed strings are modelled as their text.
- JavaScript key order is the order of an object's entries. Integer-like keys are not moved to the front.
- The condition pattern's `.+` alternative does not match a line terminator, so in the source a condition text made of one (the path `"\n"`, say) ends the condition loop. The model treats line terminators as ordinary characters there: such a text becomes a fallback path token and the parse diverges. Only ASCII letters are lower case.
- Listener `path`, `noteAction`, `notePath` and `noteList` filters are not modelled. Neither is `EventPicker.Test`. Every modelled listener has only an action filter.
- Adding or removing listeners during `trigger` is not modelled.
- `is` compares the filters' `RegExp.prototype.toString()`, whose source writes `/` as `\/`. The model compares the built source text, so `"a/b"` and `"a\/b"` find each other in the source, while `Events.ListenerIdentity` keeps them apart.
- Events.EventListener.constructor: an action list that is not a valid regular expression (one containing `(` or `*`, say) makes `new RegExp` throw a `SyntaxError` in the source; the model always builds the listener, because the regular-expression grammar is not modelled. An action given as a `RegExp` object is not modelled either.
- Listener filters are matched by the `RegexTest` parameter of `Events.Dispatched` and `Events.Event.Trigger`, the host's `RegExp.prototype.test`. What a given filter matches (for instance that `^(a.b)\.?` accepts `"aXb"`) is outside the model.
- Property reads (`Values.Get` and `Options.OptionHost.Read`) see own properties, array indices and `length` only. Inherited members such as `constructor`, `map`, `sort` or the library's own `xEach` and `xAdd` are outside the model, so a step that names one reports nothing where the source reports the inherited function.
- PathAst.StrLess: compares strings by code point. JavaScript compares UTF-16 code units, so the two orders differ when a character above U+FFFF meets one in U+E000 to U+FFFF.
- `ns` through a value that is not an object is not modelled.
- A function `preset` in `optionIni` is modelled by the value it returns.
- `execValue` stores a fresh `_reason` on the node it evaluates and never restores the old one. The model gives every nested test its own capture (`PathEval.Captured`). A `+` filter that re-enters itself through `#` inside the filter (for example `+.(x | a.#.b)`) therefore differs. In the source, the nested `execValue` takes over the outer test's reason, and the outer test's later emissions are lost. The model still reports them.
- `+` recursion is bounded by a fuel parameter. Exhaustion stands for the stack overflow of the unbounded recursion, but the fuel does not match the real stack depth.
- A note is modelled as a value. The self entry the event record carries is not modelled.
- The `complete` listener receives the picker itself in the source. The model gives it the picker's notes (`Found.complete`) instead.
- PathApi.NoteMatch: covers the picker bookkeeping of one match. The `success` trigger that precedes it is covered by `PathApi.Settle`, not by this method.
- PathParse.ParseGroup: states only where the cursor ends and that a group has a condition. What a given query parses to is shown for the repository's test query (`ScenarioParse.TestPathParses`), not for all queries.
- PathScan.ScanCondition: states cursor progress. The exact token is shown for literals (`PathScan.ScanStringLiteral`) and for the test query.

## Findings

| source | as written | input that shows it | evidently intended | confidence | as-written member | corrected member |
|---|---|---|---|---|---|---|
| dist/crisp-util.js:1512-1518 | `list.map(stringToRegExp)` discards its result, so the action items are joined into the filter unescaped; `toReqExpPath` at lines 1555-1557 does the same | actions `"a b"` and `"a\|b"` both give `^(a\|b)\.?` | each item escaped before joining, so different action lists give different filters | not executed | Events.ActionSourceCollision | Events.ActionSourceInjective |
| dist/crisp-util.js:2698-2720 | `execValue` receives a value through `utilTickCall`, which replaces a falsy `args` by the event option, so a false comparison reads as truthy and `&` filters let every node through | the repository's filter test: `autos.pathFind({path: '*.( maker == "Honda" & year > 2009 )'})` on its five cars reports all five | the comparison's own value, so only `autos[1]` and `autos[4]` pass, as the test asserts | not executed | Scenario.TestQueryAsWritten | Scenario.TestQueryIntended |
