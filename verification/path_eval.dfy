/**
 * Running a parsed query over a value (the `exec` methods of the `Path*`
 * steps, `pathFind['*' | '#' | '+']`, `execValue` and `nextTick`).
 *
 * The source runs in continuation-passing style and reports results by
 * firing `success` on the query's reason object; it leaves a branch with
 * a thrown `Break` and stops the whole query with `End` or an error. Here
 * one evaluation step is a function returning the ordered `success`
 * emissions it makes and the error that stopped it, if any. `End` is not
 * part of a trace: the result limit is applied afterwards, by cutting the
 * trace (module PathApi).
 */
module PathEval {
  import opened Wrappers
  import opened Values
  import opened Base
  import opened PathAst

  /**
   * One `success` the evaluation fires: its payload, whether `nextTick`
   * also noted it on the completion barrier, and how many condition groups
   * of the current scope held the barrier at that moment.
   */
  datatype Emit = Emit(payload: Value, noted: bool, holds: nat)

  /** The emissions of an evaluation, in order, and the error that ended it early. */
  datatype Trace = Trace(emits: seq<Emit>, error: Option<JsError>)

  const NoTrace: Trace := Trace([], None)

  function Fail(e: JsError): Trace { Trace([], Some(e)) }

  /** The emissions of `a` followed, unless `a` failed, by those of `b`. */
  function Then(a: Trace, b: Trace): (r: Trace)
    ensures a.error.Some? ==> r == a
    ensures a.error.None? ==> r == Trace(a.emits + b.emits, b.error)
  {
    if a.error.Some? then a else Trace(a.emits + b.emits, b.error)
  }

  /**
   * The host behaviour the evaluator calls out to: `call(name, node, args)`
   * is `node[name].apply(node, args)`, `None` when that property is not a
   * function; `test(source, flags, text)` is `new RegExp(source, flags).test(text)`.
   */
  datatype Host = Host(call: (string, Value, Option<string>) -> Option<Value>, test: (string, string, string) -> bool)

  /**
   * What `execValue`'s listener receives for an emitted payload. The source
   * hands the listener the payload through the event machinery, which
   * turns a falsy payload into the (truthy) event record; a listener that
   * saw the payload itself is what the filters are written for.
   */
  datatype Delivery = AsWritten | Direct

  function Received(mode: Delivery, v: Value): Value {
    if mode.AsWritten? then Deliver(v) else v
  }

  /**
   * The evaluation context: the host, how `execValue` receives values,
   * the filter group of the nearest enclosing `+` step (`specific()`), and
   * how many condition groups of the current scope hold the barrier.
   */
  datatype Ctx = Ctx(host: Host, mode: Delivery, spec: Option<Group>, holds: nat)

  /**
   * `execValue`: the last `success` a sub-evaluation fired, as its
   * listener received it, or `undefined` when it fired none. The
   * listener's `limit: 1` is never read, so the last emission wins.
   */
  function Captured(mode: Delivery, t: Trace): (r: Result<Value, JsError>)
    ensures t.error.Some? <==> r.Failure?
    ensures t.error.None? && t.emits == [] ==> r == Success(Undef)
    ensures t.error.None? && t.emits != [] ==> r == Success(Received(mode, t.emits[|t.emits| - 1].payload))
  {
    if t.error.Some? then Failure(t.error.value)
    else if t.emits == [] then Success(Undef)
    else Success(Received(mode, t.emits[|t.emits| - 1].payload))
  }

  /** `limit` of a slice step as `xEach` takes it. */
  function LimitOption(limit: Option<nat>): Option<int> {
    if limit.Some? then Some(limit.value as int) else None
  }

  /** The items a slice step visits: the `xEach` window over the node's items. */
  function Window(items: seq<Value>, start: int, limit: Option<nat>): (r: seq<Value>)
    ensures |r| == |EachIndices(|items|, start, LimitOption(limit))|
  {
    var idx := EachIndices(|items|, start, LimitOption(limit));
    EachIndicesInBounds(|items|, start, LimitOption(limit));
    seq(|idx|, k requires 0 <= k < |idx| => items[idx[k]])
  }

  /** The window as a slice of the items. */
  lemma WindowSlice(items: seq<Value>, start: int, limit: Option<nat>)
    ensures start + |items| < 0 ==> Window(items, start, limit) == items
    ensures start + |items| >= 0 ==>
      var s := if start < 0 then |items| + start else start;
      var l := if limit.None? || limit.value == 0 then |items| else limit.value;
      Window(items, start, limit) == if s >= |items| then [] else items[s..Min(s + l, |items|)]
  {
    var n := |items|;
    var lo := LimitOption(limit);
    EachIndicesRange(n, start, lo);
    var w := Window(items, start, limit);
    var idx := EachIndices(n, start, lo);
    assert forall k | 0 <= k < |w| :: w[k] == items[idx[k]];
    if start + n < 0 {
      assert idx == Range(0, n);
      assert w == items;
    } else {
      var s := if start < 0 then n + start else start;
      var l := if limit.None? || limit.value == 0 then n else limit.value;
      assert idx == Range(s, Min(s + l, n));
      if s < n {
        assert w == items[s..Min(s + l, n)];
      }
    }
  }

  // ---------------------------------------------------------------------
  // The evaluator
  // ---------------------------------------------------------------------

  /**
   * `node.exec(v)` for one step. `fuel` bounds how deeply filter tests of
   * `+` steps may nest; running out is the host's stack overflow.
   */
  function ExecNode(n: Node, v: Value, ctx: Ctx, fuel: nat): Trace
    decreases fuel, NodeSize(n), 3, 0, 0
  {
    match n
    case Parent(child) =>
      var p := Get(v, "__parent__");
      if p.Failure? then Fail(p.error) else NextTick(child, p.value, ctx, fuel)
    case Slice(start, limit, child) =>
      var items := Items(v);
      if items.Failure? then Fail(items.error)
      else EachItem(child, Window(items.value, start, limit), ctx, fuel)
    case Field(attr, child) =>
      var x := Get(v, ToString(attr));
      if x.Failure? then Fail(x.error)
      else if !Truthy(x.value) then NoTrace
      else NextTick(child, x.value, ctx, fuel)
    case Repeat(Each, child) =>
      var items := Items(v);
      if items.Failure? then Fail(items.error) else EachItem(child, items.value, ctx, fuel)
    case Repeat(Deep, _) =>
      HashWalk(n, v, ctx, fuel)
    case Repeat(Specific, child) =>
      var spec := if child.Some? && child.value.Filter? then Some(child.value.filter) else ctx.spec;
      if spec.None? then NoTrace
      else if fuel == 0 then Fail(StackOverflow)
      else
        var test := Captured(ctx.mode, ExecGroup(spec.value, v, ctx.(spec := spec, holds := 0), fuel - 1));
        if test.Failure? then Fail(test.error)
        else if !Truthy(test.value) then NoTrace
        else if child.None? then Fail(TypeError("this.child is undefined"))
        else
          assert OptNodeSize(child) == NodeSize(child.value);
          ExecNode(child.value, v, ctx.(spec := spec), fuel)
    case Filter(g, child) =>
      var test := Captured(ctx.mode, ExecGroup(g, v, ctx.(holds := 0), fuel));
      if test.Failure? then Fail(test.error)
      else if !Truthy(test.value) then NoTrace
      else NextTick(child, v, ctx, fuel)
    case Call(name, args, child) =>
      var fname := if name.Some? then name.value else "toString";
      if v.Undef? || v.Null? then Fail(TypeError("property " + fname + " of " + ToString(v)))
      else
        var r := ctx.host.call(fname, v, args);
        if r.None? then Fail(Thrown("PathFunction " + fname + " is not defined!"))
        else NextTick(child, r.value, ctx, fuel)
    case Literal(c) =>
      NextTick(None, c, ctx, fuel)
  }

  /** `nextTick`: hand the value to the child step, or, at the end of a path, report it. */
  function NextTick(child: Option<Node>, v: Value, ctx: Ctx, fuel: nat): (t: Trace)
    ensures child.None? ==> t == Trace([Emit(v, true, ctx.holds)], None)
    decreases fuel, OptNodeSize(child), 4, 0, 0
  {
    if child.Some? then ExecNode(child.value, v, ctx, fuel) else Trace([Emit(v, true, ctx.holds)], None)
  }

  /** The `xEach` loop of `*` and slice steps: `nextTick` on each item, stopping at an error. */
  function EachItem(child: Option<Node>, items: seq<Value>, ctx: Ctx, fuel: nat): Trace
    decreases fuel, OptNodeSize(child), 5, |items|, 0
  {
    if items == [] then NoTrace
    else Then(NextTick(child, items[0], ctx, fuel), EachItem(child, items[1..], ctx, fuel))
  }

  /**
   * `pathFind['#']` on a node: unless the enclosing `+` filter rejects
   * it, run the child step on the node, then walk into each element of an
   * array or object.
   */
  function HashWalk(n: Node, v: Value, ctx: Ctx, fuel: nat): Trace
    requires n.Repeat? && n.kind.Deep?
    decreases fuel, NodeSize(n), 2, ValueSize(v), 0
  {
    var test: Result<Value, JsError> :=
      if ctx.spec.None? then Success(Bool(true))
      else if fuel == 0 then Failure(StackOverflow)
      else Captured(ctx.mode, ExecGroup(ctx.spec.value, v, ctx.(holds := 0), fuel - 1));
    if test.Failure? then Fail(test.error)
    else if !Truthy(test.value) then NoTrace
    else if n.child.None? then Fail(TypeError("this.child is undefined"))
    else
      assert OptNodeSize(n.child) == NodeSize(n.child.value);
      var here := ExecNode(n.child.value, v, ctx, fuel);
      if !(v.Arr? || v.Obj?) then here
      else
        ItemsShrink(v);
        Then(here, HashItems(n, Items(v).value, ctx, fuel))
  }

  function HashItems(n: Node, items: seq<Value>, ctx: Ctx, fuel: nat): Trace
    requires n.Repeat? && n.kind.Deep?
    decreases fuel, NodeSize(n), 2, ItemsSize(items), 1
  {
    if items == [] then NoTrace
    else Then(HashWalk(n, items[0], ctx, fuel), HashItems(n, items[1..], ctx, fuel))
  }

  /**
   * `PathConditionGroup.exec`: the conditions in order, with the group
   * holding the barrier while they run.
   */
  function ExecGroup(g: Group, v: Value, ctx: Ctx, fuel: nat): Trace
    decreases fuel, GroupSize(g), 3, 0, 0
  {
    ExecConds(g.conds, v, ctx.(holds := ctx.holds + 1), fuel)
  }

  /**
   * `conditionGroupExecSuccess` over the remaining conditions: a condition
   * followed by `&` is evaluated on its own and ends the group when its
   * value is falsy; one followed by `|` ends the group, reporting its
   * value, when that value is truthy; any other condition runs in place.
   */
  function ExecConds(cs: seq<Cond>, v: Value, ctx: Ctx, fuel: nat): Trace
    decreases fuel, CondsSize(cs), 3, 0, 0
  {
    if cs == [] then NoTrace
    else
      var c := cs[0];
      if c.next == "&" || c.next == "|" then
        var r := Captured(ctx.mode, ExecCond(c, v, ctx.(holds := 0), fuel));
        if r.Failure? then Fail(r.error)
        else if c.next == "&" && !Truthy(r.value) then NoTrace
        else if c.next == "|" && Truthy(r.value) then Trace([Emit(r.value, false, ctx.holds)], None)
        else ExecConds(cs[1..], v, ctx, fuel)
      else
        Then(ExecCond(c, v, ctx, fuel), ExecConds(cs[1..], v, ctx, fuel))
  }

  /**
   * `PathCondition.exec`. Without negation or operator the operand runs
   * in place. Otherwise the operand is evaluated on its own, negated, and
   * compared with the evaluated right-hand side; a regular expression on
   * the right is matched against the left and the comparison is made with
   * `true`. The result is reported without a barrier note.
   */
  function ExecCond(c: Cond, v: Value, ctx: Ctx, fuel: nat): Trace
    decreases fuel, CondSize(c), 2, 0, 0
  {
    if c.reverse == 0 && c.op == "" then NextTickOperand(c.child, v, ctx, fuel)
    else
      var left := CaptureOperand(c.child, v, ctx, fuel);
      if left.Failure? then Fail(left.error)
      else
        var l := ExecReverse(c.reverse, left.value);
        if c.op == "" then Trace([Emit(l, false, ctx.holds)], None)
        else
          var right :=
            if c.value.None? then Success(Undef)
            else Captured(ctx.mode, ExecCond(c.value.value, v, ctx.(holds := 0), fuel));
          if right.Failure? then Fail(right.error)
          else
            var rv := right.value;
            var a := if rv.Regex? then Bool(ctx.host.test(rv.source, rv.flags, ToString(l))) else l;
            var b := if rv.Regex? then Bool(true) else rv;
            var res := ApplyOp(c.op, a, b);
            if res.Failure? then Fail(res.error) else Trace([Emit(res.value, false, ctx.holds)], None)
  }

  /** `nextTick` from a condition: its operand, or the node itself when it has none. */
  function NextTickOperand(o: Option<Operand>, v: Value, ctx: Ctx, fuel: nat): Trace
    decreases fuel, OptOperandSize(o), 4, 0, 0
  {
    match o
    case None => Trace([Emit(v, true, ctx.holds)], None)
    case Some(NodeOperand(n)) =>
      assert OptOperandSize(o) == NodeSize(n);
      ExecNode(n, v, ctx, fuel)
    case Some(GroupOperand(g)) =>
      assert OptOperandSize(o) == GroupSize(g);
      ExecGroup(g, v, ctx, fuel)
  }

  /** `execValue(this.child, node)`: an absent operand gives `undefined`. */
  function CaptureOperand(o: Option<Operand>, v: Value, ctx: Ctx, fuel: nat): Result<Value, JsError>
    decreases fuel, OptOperandSize(o), 4, 0, 0
  {
    match o
    case None => Success(Undef)
    case Some(NodeOperand(n)) =>
      assert OptOperandSize(o) == NodeSize(n);
      Captured(ctx.mode, ExecNode(n, v, ctx.(holds := 0), fuel))
    case Some(GroupOperand(g)) =>
      assert OptOperandSize(o) == GroupSize(g);
      Captured(ctx.mode, ExecGroup(g, v, ctx.(holds := 0), fuel))
  }

  // ---------------------------------------------------------------------
  // What the steps report
  // ---------------------------------------------------------------------

  /** The matches `nextTick` reports for `xs` at the end of a path: each noted, in order. */
  function Noted(xs: seq<Value>, holds: nat): (r: seq<Emit>)
    ensures |r| == |xs| && forall i | 0 <= i < |xs| :: r[i] == Emit(xs[i], true, holds)
  {
    seq(|xs|, i requires 0 <= i < |xs| => Emit(xs[i], true, holds))
  }

  function Payloads(es: seq<Emit>): (r: seq<Value>)
    ensures |r| == |es| && forall i | 0 <= i < |es| :: r[i] == es[i].payload
  {
    seq(|es|, i requires 0 <= i < |es| => es[i].payload)
  }

  /** A literal step reports its constant, whatever the node. */
  lemma LiteralReportsConstant(c: Value, v: Value, ctx: Ctx, fuel: nat)
    ensures ExecNode(Literal(c), v, ctx, fuel) == Trace([Emit(c, true, ctx.holds)], None)
  {
  }

  /** An `xEach` loop ending the path reports every item, in order. */
  lemma {:induction false} EachItemReportsAll(items: seq<Value>, ctx: Ctx, fuel: nat)
    ensures EachItem(None, items, ctx, fuel) == Trace(Noted(items, ctx.holds), None)
  {
    if items != [] {
      EachItemReportsAll(items[1..], ctx, fuel);
      assert Noted(items, ctx.holds) == [Emit(items[0], true, ctx.holds)] + Noted(items[1..], ctx.holds);
    }
  }

  /** `*` at the end of a path reports the elements of an array in order; on `undefined` it fails. */
  lemma EachReportsElements(xs: seq<Value>, ctx: Ctx, fuel: nat)
    ensures ExecNode(Repeat(Each, None), Arr(xs), ctx, fuel) == Trace(Noted(xs, ctx.holds), None)
    ensures ExecNode(Repeat(Each, None), Undef, ctx, fuel).error.Some?
  {
    EachItemReportsAll(xs, ctx, fuel);
  }

  /**
   * A slice step at the end of a path reports the items of the window,
   * in order: from `start` (counted from the end when negative, and from
   * the beginning when that reaches before it), `limit` items or to the end.
   */
  lemma SliceReportsWindow(xs: seq<Value>, start: int, limit: Option<nat>, ctx: Ctx, fuel: nat)
    ensures start + |xs| < 0 ==> ExecNode(Slice(start, limit, None), Arr(xs), ctx, fuel) == Trace(Noted(xs, ctx.holds), None)
    ensures start + |xs| >= 0 ==>
      var s := if start < 0 then |xs| + start else start;
      var l := if limit.None? || limit.value == 0 then |xs| else limit.value;
      ExecNode(Slice(start, limit, None), Arr(xs), ctx, fuel) ==
        Trace(Noted(if s >= |xs| then [] else xs[s..Min(s + l, |xs|)], ctx.holds), None)
  {
    EachItemReportsAll(Window(xs, start, limit), ctx, fuel);
    WindowSlice(xs, start, limit);
  }

  /** `-N` at the end of a path reports the last `N` elements of an array, or all of them when it has fewer. */
  lemma SliceLast(xs: seq<Value>, n: nat, ctx: Ctx, fuel: nat)
    requires n >= 1
    ensures Payloads(ExecNode(Slice(-(n as int), None, None), Arr(xs), ctx, fuel).emits) ==
      if n <= |xs| then xs[|xs| - n..] else xs
  {
    SliceReportsWindow(xs, -(n as int), None, ctx, fuel);
    var t := ExecNode(Slice(-(n as int), None, None), Arr(xs), ctx, fuel);
    if n <= |xs| {
      assert Payloads(t.emits) == xs[|xs| - n..];
    } else {
      assert Payloads(t.emits) == xs;
    }
  }

  /** Whether filter group `g` lets node `x` through: `execValue` of the group is truthy. */
  predicate Passes(g: Group, x: Value, ctx: Ctx, fuel: nat) {
    var r := Captured(ctx.mode, ExecGroup(g, x, ctx.(holds := 0), fuel));
    r.Success? && Truthy(r.value)
  }

  /** The items filter group `g` lets through, in order. */
  function Passing(g: Group, items: seq<Value>, ctx: Ctx, fuel: nat): (r: seq<Value>)
    ensures |r| <= |items|
    ensures forall x | x in r :: x in items && Passes(g, x, ctx, fuel)
  {
    if items == [] then []
    else (if Passes(g, items[0], ctx, fuel) then [items[0]] else []) + Passing(g, items[1..], ctx, fuel)
  }

  /**
   * `*.( … )` at the end of a path reports, in order, exactly the items
   * the filter lets through, provided no filter evaluation fails.
   */
  lemma {:induction false} EachFilterReportsPassing(g: Group, items: seq<Value>, ctx: Ctx, fuel: nat)
    requires forall i | 0 <= i < |items| :: Captured(ctx.mode, ExecGroup(g, items[i], ctx.(holds := 0), fuel)).Success?
    ensures EachItem(Some(Filter(g, None)), items, ctx, fuel) == Trace(Noted(Passing(g, items, ctx, fuel), ctx.holds), None)
  {
    if items != [] {
      assert forall i | 0 <= i < |items[1..]| :: items[1..][i] == items[i + 1];
      EachFilterReportsPassing(g, items[1..], ctx, fuel);
      var head := if Passes(g, items[0], ctx, fuel) then [items[0]] else [];
      FilterReportsPassing(g, items[0], ctx, fuel);
      NotedAppend(head, Passing(g, items[1..], ctx, fuel), ctx.holds);
    }
  }

  /** A filter ending the path on one node reports the node exactly when it passes. */
  lemma FilterReportsPassing(g: Group, x: Value, ctx: Ctx, fuel: nat)
    requires Captured(ctx.mode, ExecGroup(g, x, ctx.(holds := 0), fuel)).Success?
    ensures NextTick(Some(Filter(g, None)), x, ctx, fuel) ==
      Trace(Noted(if Passes(g, x, ctx, fuel) then [x] else [], ctx.holds), None)
  {
  }

  lemma NotedAppend(xs: seq<Value>, ys: seq<Value>, holds: nat)
    ensures Noted(xs + ys, holds) == Noted(xs, holds) + Noted(ys, holds)
  {
  }

  /**
   * A field step reports the property of an object when it is truthy and
   * nothing otherwise; on `undefined` or `null` it fails.
   */
  lemma FieldReportsTruthyProperty(es: seq<Entry>, key: string, ctx: Ctx, fuel: nat)
    ensures var f := Values.Field(es, key).GetOr(Undef);
      ExecNode(Field(Str(key), None), Obj(es), ctx, fuel) ==
        if Truthy(f) then Trace([Emit(f, true, ctx.holds)], None) else NoTrace
    ensures ExecNode(Field(Str(key), None), Null, ctx, fuel).error.Some?
  {
  }

  /** A parent step forwards `__parent__`, even when the node has none and it is `undefined`. */
  lemma ParentForwardsUndefined(es: seq<Entry>, ctx: Ctx, fuel: nat)
    requires forall i | 0 <= i < |es| :: es[i].key != "__parent__"
    ensures ExecNode(Parent(None), Obj(es), ctx, fuel) == Trace([Emit(Undef, true, ctx.holds)], None)
  {
  }

  /** Calling a function the node does not have fails with the source's message. */
  lemma CallMissingFunction(name: string, args: Option<string>, child: Option<Node>, v: Value, ctx: Ctx, fuel: nat)
    requires !v.Undef? && !v.Null? && ctx.host.call(name, v, args).None?
    ensures ExecNode(Call(Some(name), args, child), v, ctx, fuel) == Fail(Thrown("PathFunction " + name + " is not defined!"))
  {
  }

  /** `#` and `+` need a child step: without one they fail as soon as a node passes. */
  lemma ChildlessRepeatFails(v: Value, ctx: Ctx, fuel: nat)
    requires ctx.spec.None?
    ensures ExecNode(Repeat(Deep, None), v, ctx, fuel) == Fail(TypeError("this.child is undefined"))
    ensures ExecNode(Repeat(Specific, None), v, ctx, fuel) == NoTrace
  {
  }

  // ---------------------------------------------------------------------
  // `#`: every node of the document, in pre-order
  // ---------------------------------------------------------------------

  /** A value followed by the pre-orders of its elements (for arrays and objects). */
  function PreOrder(v: Value): (r: seq<Value>)
    ensures |r| >= 1 && r[0] == v
    decreases ValueSize(v), 1
  {
    if v.Arr? || v.Obj? then
      ItemsShrink(v);
      [v] + PreOrders(Items(v).value)
    else [v]
  }

  function PreOrders(items: seq<Value>): seq<Value>
    decreases ItemsSize(items), 2
  {
    if items == [] then [] else PreOrder(items[0]) + PreOrders(items[1..])
  }

  /** Step `c` run on each of `xs` in turn, stopping at the first error. */
  function RunAll(c: Node, xs: seq<Value>, ctx: Ctx, fuel: nat): Trace {
    if xs == [] then NoTrace else Then(ExecNode(c, xs[0], ctx, fuel), RunAll(c, xs[1..], ctx, fuel))
  }

  lemma ThenAssociative(a: Trace, b: Trace, c: Trace)
    ensures Then(a, Then(b, c)) == Then(Then(a, b), c)
  {
  }

  lemma {:induction false} RunAllAppend(c: Node, xs: seq<Value>, ys: seq<Value>, ctx: Ctx, fuel: nat)
    ensures RunAll(c, xs + ys, ctx, fuel) == Then(RunAll(c, xs, ctx, fuel), RunAll(c, ys, ctx, fuel))
  {
    if xs == [] {
      assert xs + ys == ys;
    } else {
      assert (xs + ys)[1..] == xs[1..] + ys;
      RunAllAppend(c, xs[1..], ys, ctx, fuel);
      ThenAssociative(ExecNode(c, xs[0], ctx, fuel), RunAll(c, xs[1..], ctx, fuel), RunAll(c, ys, ctx, fuel));
    }
  }

  /**
   * Outside any `+` filter, `#` runs its child step on every node of the
   * document, the node itself first and then each element's subtree in
   * order, stopping at the first error.
   */
  lemma {:induction false} DeepVisitsPreOrder(n: Node, v: Value, ctx: Ctx, fuel: nat)
    requires n.Repeat? && n.kind.Deep? && n.child.Some? && ctx.spec.None?
    ensures HashWalk(n, v, ctx, fuel) == RunAll(n.child.value, PreOrder(v), ctx, fuel)
    decreases ValueSize(v), 1
  {
    var c := n.child.value;
    var here := ExecNode(c, v, ctx, fuel);
    if v.Arr? || v.Obj? {
      ItemsShrink(v);
      var items := Items(v).value;
      DeepItemsVisitPreOrder(n, items, ctx, fuel);
      assert ([v] + PreOrders(items))[1..] == PreOrders(items);
    } else {
      assert here.error.None? ==> here.emits + [] == here.emits;
    }
  }

  lemma {:induction false} DeepItemsVisitPreOrder(n: Node, items: seq<Value>, ctx: Ctx, fuel: nat)
    requires n.Repeat? && n.kind.Deep? && n.child.Some? && ctx.spec.None?
    ensures HashItems(n, items, ctx, fuel) == RunAll(n.child.value, PreOrders(items), ctx, fuel)
    decreases ItemsSize(items), 2
  {
    if items != [] {
      DeepVisitsPreOrder(n, items[0], ctx, fuel);
      DeepItemsVisitPreOrder(n, items[1..], ctx, fuel);
      RunAllAppend(n.child.value, PreOrder(items[0]), PreOrders(items[1..]), ctx, fuel);
    }
  }

  // ---------------------------------------------------------------------
  // Conditions
  // ---------------------------------------------------------------------

  /** A condition that negates or compares: it is evaluated on its own and reports one value. */
  predicate IsTest(c: Cond) {
    c.reverse > 0 || c.op != ""
  }

  /** The value a test condition reports, as `execValue` hands it to the group. */
  function TestValue(c: Cond, v: Value, ctx: Ctx, fuel: nat): Result<Value, JsError> {
    Captured(ctx.mode, ExecCond(c, v, ctx.(holds := 0), fuel))
  }

  /** A test condition reports exactly one value, not noted, unless it fails. */
  lemma TestReportsOnce(c: Cond, v: Value, ctx: Ctx, fuel: nat)
    requires IsTest(c)
    ensures var t := ExecCond(c, v, ctx, fuel);
      t.error.None? ==> |t.emits| == 1 && !t.emits[0].noted && t.emits[0].holds == ctx.holds
    ensures ExecCond(c, v, ctx, fuel).error == ExecCond(c, v, ctx.(holds := 0), fuel).error
    ensures ExecCond(c, v, ctx, fuel).error.None? ==>
      ExecCond(c, v, ctx, fuel).emits[0].payload == ExecCond(c, v, ctx.(holds := 0), fuel).emits[0].payload
  {
    var c0 := ctx.(holds := 0);
    assert c0.(holds := 0) == c0;
    var left := CaptureOperand(c.child, v, ctx, fuel);
    assert CaptureOperand(c.child, v, c0, fuel) == left;
    if left.Success? && c.op != "" {
      var right :=
        if c.value.None? then Success(Undef)
        else Captured(ctx.mode, ExecCond(c.value.value, v, c0, fuel));
      if right.Success? {
        var l := ExecReverse(c.reverse, left.value);
        var rv := right.value;
        var a := if rv.Regex? then Bool(ctx.host.test(rv.source, rv.flags, ToString(l))) else l;
        var b := if rv.Regex? then Bool(true) else rv;
        var res := ApplyOp(c.op, a, b);
        if res.Success? {
          assert ExecCond(c, v, ctx, fuel) == Trace([Emit(res.value, false, ctx.holds)], None);
          assert ExecCond(c, v, c0, fuel) == Trace([Emit(res.value, false, 0)], None);
        }
      }
    }
  }

  /**
   * A negated condition without operator reports a boolean: true exactly
   * when an odd number of `!` meets an operand that reads as false, or an
   * even number one that reads as true.
   */
  lemma NegationReportsParity(c: Cond, v: Value, ctx: Ctx, fuel: nat)
    requires c.reverse >= 1 && c.op == ""
    requires CaptureOperand(c.child, v, ctx, fuel).Success?
    ensures var x := CaptureOperand(c.child, v, ctx, fuel).value;
      ExecCond(c, v, ctx, fuel) ==
        Trace([Emit(Bool((c.reverse % 2 == 1) == ReadsFalse(x)), false, ctx.holds)], None)
  {
    ExecReverseClosedForm(c.reverse, CaptureOperand(c.child, v, ctx, fuel).value);
  }

  /**
   * A regular expression on the right of `==` is matched against the text
   * of the left-hand value; the condition reports the outcome of the test.
   */
  lemma RegexOperandIsTested(c: Cond, v: Value, ctx: Ctx, fuel: nat, source: string, flags: string)
    requires c.op == "==" && c.value.Some?
    requires CaptureOperand(c.child, v, ctx, fuel).Success?
    requires Captured(ctx.mode, ExecCond(c.value.value, v, ctx.(holds := 0), fuel)) == Success(Regex(source, flags))
    ensures var l := ExecReverse(c.reverse, CaptureOperand(c.child, v, ctx, fuel).value);
      ExecCond(c, v, ctx, fuel) ==
        Trace([Emit(Bool(ctx.host.test(source, flags, ToString(l))), false, ctx.holds)], None)
  {
  }

  /** A group's last test, reached with the group's hold, reports the test's value. */
  lemma LastTestOfGroup(b: Cond, v: Value, ctx: Ctx, fuel: nat)
    requires IsTest(b) && b.next == "" && TestValue(b, v, ctx, fuel).Success?
    ensures Captured(ctx.mode, ExecConds([b], v, ctx.(holds := ctx.holds + 1), fuel)) == TestValue(b, v, ctx, fuel)
  {
    var inner := ctx.(holds := ctx.holds + 1);
    assert inner.(holds := 0) == ctx.(holds := 0);
    TestReportsOnce(b, v, inner, fuel);
    TestReportsOnce(b, v, ctx.(holds := 0), fuel);
    assert [b][1..] == [];
    var tb := ExecCond(b, v, inner, fuel);
    assert ExecConds([b], v, inner, fuel) == Then(tb, NoTrace);
    assert tb.emits + [] == tb.emits;
  }

  /**
   * `a & b` with two test conditions, listeners seeing values as they are:
   * the group reports `b`'s value when `a`'s is truthy and nothing when it
   * is falsy, so its result is truthy exactly when both are.
   */
  lemma Conjunction(a: Cond, b: Cond, v: Value, ctx: Ctx, fuel: nat)
    requires ctx.mode.Direct? && IsTest(a) && IsTest(b) && a.next == "&" && b.next == ""
    requires TestValue(a, v, ctx, fuel).Success? && TestValue(b, v, ctx, fuel).Success?
    ensures var r := Captured(ctx.mode, ExecGroup(Group([a, b]), v, ctx, fuel));
      r.Success? && (Truthy(r.value) <==> Truthy(TestValue(a, v, ctx, fuel).value) && Truthy(TestValue(b, v, ctx, fuel).value))
  {
    var inner := ctx.(holds := ctx.holds + 1);
    assert inner.(holds := 0) == ctx.(holds := 0);
    assert ExecGroup(Group([a, b]), v, ctx, fuel) == ExecConds([a, b], v, inner, fuel);
    assert [a, b][1..] == [b];
    LastTestOfGroup(b, v, ctx, fuel);
  }

  /**
   * `a | b` with two test conditions, listeners seeing values as they are:
   * the group reports `a`'s value when it is truthy and `b`'s otherwise,
   * so its result is truthy exactly when either is.
   */
  lemma Disjunction(a: Cond, b: Cond, v: Value, ctx: Ctx, fuel: nat)
    requires ctx.mode.Direct? && IsTest(a) && IsTest(b) && a.next == "|" && b.next == ""
    requires TestValue(a, v, ctx, fuel).Success? && TestValue(b, v, ctx, fuel).Success?
    ensures var r := Captured(ctx.mode, ExecGroup(Group([a, b]), v, ctx, fuel));
      r.Success? && (Truthy(r.value) <==> Truthy(TestValue(a, v, ctx, fuel).value) || Truthy(TestValue(b, v, ctx, fuel).value))
  {
    var inner := ctx.(holds := ctx.holds + 1);
    assert inner.(holds := 0) == ctx.(holds := 0);
    assert ExecGroup(Group([a, b]), v, ctx, fuel) == ExecConds([a, b], v, inner, fuel);
    assert [a, b][1..] == [b];
    LastTestOfGroup(b, v, ctx, fuel);
  }

  /**
   * As the source delivers values, a test that is false reaches the group
   * as the (truthy) event record, so `a & b` never stops at `a`: the group
   * reports `b`'s value whatever `a`'s is.
   */
  lemma ConjunctionAsWritten(a: Cond, b: Cond, v: Value, ctx: Ctx, fuel: nat)
    requires ctx.mode.AsWritten? && IsTest(a) && IsTest(b) && a.next == "&" && b.next == ""
    requires TestValue(a, v, ctx, fuel).Success? && TestValue(b, v, ctx, fuel).Success?
    ensures Captured(ctx.mode, ExecGroup(Group([a, b]), v, ctx, fuel)) == TestValue(b, v, ctx, fuel)
  {
    var inner := ctx.(holds := ctx.holds + 1);
    assert inner.(holds := 0) == ctx.(holds := 0);
    TestReportsOnce(a, v, ctx.(holds := 0), fuel);
    var x := ExecCond(a, v, ctx.(holds := 0), fuel).emits[0].payload;
    if !Truthy(x) {
      DeliverFalsy(x);
    }
    assert Truthy(TestValue(a, v, ctx, fuel).value);
    assert ExecGroup(Group([a, b]), v, ctx, fuel) == ExecConds([a, b], v, inner, fuel);
    assert [a, b][1..] == [b];
    LastTestOfGroup(b, v, ctx, fuel);
  }
}
