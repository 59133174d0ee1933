/**
 * PathJS query trees: the `Path*` step objects a query is parsed into, the
 * condition groups of filters, and the value-level operations a condition
 * applies (`execReverse`, `pathOperator`).
 */
module PathAst {
  import opened Wrappers
  import opened Values

  /** The three `PathRepeat` steps: `*` each item, `#` deep walk, `+` filter test. */
  datatype RepeatKind = Each | Deep | Specific

  /**
   * One step of a path. Every step but a literal forwards its result to
   * `child`; a step without a child is a terminal match.
   */
  datatype Node =
    | Parent(child: Option<Node>)                                      // `.`            PathParent
    | Slice(start: int, limit: Option<nat>, child: Option<Node>)       // `N~M`, `-N`    PathLimit
    | Field(attr: Value, child: Option<Node>)                          // name, `$name`  PathDoc
    | Repeat(kind: RepeatKind, child: Option<Node>)                    // `*` `#` `+`    PathRepeat
    | Filter(filter: Group, child: Option<Node>)                       // `( … )`        PathFilter
    | Call(name: Option<string>, args: Option<string>, child: Option<Node>) // `:f(…)` PathFunction
    | Literal(value: Value)                                            // constant       PathValue

  /** `PathConditionGroup`: the conditions of one bracket pair, in order. */
  datatype Group = Group(conds: seq<Cond>)

  /** What a condition evaluates: a path, or a nested bracket group. */
  datatype Operand = NodeOperand(node: Node) | GroupOperand(group: Group)

  /**
   * `PathCondition`: its operand, its negation count, its operator (`""`
   * for none), the right-hand condition of the operator, and the
   * combinator (`""`, `"&"` or `"|"`) that links it to the next one.
   */
  datatype Cond = Cond(child: Option<Operand>, reverse: nat, op: string, value: Option<Cond>, next: string)

  const EmptyCond: Cond := Cond(None, 0, "", None, "")

  // ---------------------------------------------------------------------
  // Sizes, for termination arguments over the mutually recursive tree
  // ---------------------------------------------------------------------

  function NodeSize(n: Node): (s: nat)
    ensures s >= 1
  {
    match n
    case Parent(c) => 1 + OptNodeSize(c)
    case Slice(_, _, c) => 1 + OptNodeSize(c)
    case Field(_, c) => 1 + OptNodeSize(c)
    case Repeat(_, c) => 1 + OptNodeSize(c)
    case Filter(g, c) => 1 + GroupSize(g) + OptNodeSize(c)
    case Call(_, _, c) => 1 + OptNodeSize(c)
    case Literal(_) => 1
  }

  function OptNodeSize(n: Option<Node>): nat {
    if n.Some? then NodeSize(n.value) else 0
  }

  function GroupSize(g: Group): (s: nat)
    ensures s >= 1
  {
    1 + CondsSize(g.conds)
  }

  function CondsSize(cs: seq<Cond>): nat {
    if cs == [] then 0 else CondSize(cs[0]) + CondsSize(cs[1..])
  }

  function CondSize(c: Cond): (s: nat)
    ensures s >= 1
  {
    1 + OptOperandSize(c.child) + (if c.value.Some? then CondSize(c.value.value) else 0)
  }

  function OperandSize(o: Operand): (s: nat)
    ensures s >= 1
  {
    match o
    case NodeOperand(n) => NodeSize(n)
    case GroupOperand(g) => GroupSize(g)
  }

  function OptOperandSize(o: Option<Operand>): nat {
    if o.Some? then OperandSize(o.value) else 0
  }

  // ---------------------------------------------------------------------
  // execReverse
  // ---------------------------------------------------------------------

  /** One negation step: `false` and the string `'false'` become `true`, anything else its logical negation. */
  function ReverseStep(x: Value): Value {
    if x == Str("false") || x == Bool(false) then Bool(true) else Bool(!Truthy(x))
  }

  /** `execReverse(n, x)`: `n` negation steps applied to `x`. */
  function ExecReverse(n: nat, x: Value): Value {
    if n == 0 then x else ReverseStep(ExecReverse(n - 1, x))
  }

  /** What `x` reads as for the first negation: the string `'false'` counts as false. */
  predicate ReadsFalse(x: Value) {
    x == Str("false") || !Truthy(x)
  }

  /**
   * No negation leaves the value alone; otherwise the result is a boolean
   * that is true exactly when an odd count meets a false-reading value or
   * an even count meets a true-reading one.
   */
  lemma {:induction false} ExecReverseClosedForm(n: nat, x: Value)
    ensures n == 0 ==> ExecReverse(n, x) == x
    ensures n >= 1 ==> ExecReverse(n, x) == Bool((n % 2 == 1) == ReadsFalse(x))
  {
    if n >= 2 {
      ExecReverseClosedForm(n - 1, x);
    }
  }

  /** Two more negations give the same value, from the first negation on. */
  lemma DoubleNegation(n: nat, x: Value)
    requires n >= 1
    ensures ExecReverse(n + 2, x) == ExecReverse(n, x)
  {
    ExecReverseClosedForm(n, x);
    ExecReverseClosedForm(n + 2, x);
  }

  /** `execReverse` as the source computes it: a counting loop over the value. */
  method ReverseLoop(reverse: nat, node: Value) returns (r: Value)
    ensures r == ExecReverse(reverse, node)
  {
    r := node;
    for i := 0 to reverse
      invariant r == ExecReverse(i, node)
    {
      r := if r == Str("false") || r == Bool(false) then Bool(true) else Bool(!Truthy(r));
    }
  }

  // ---------------------------------------------------------------------
  // pathOperator
  // ---------------------------------------------------------------------

  /** The operators `pathOperator` defines; the scanner accepts more (`=`, `<>`, `>>`, …). */
  predicate IsDefinedOperator(op: string) {
    op == ">" || op == "<" || op == ">=" || op == "<=" || op == "==" || op == "!="
  }

  /** Lexicographic order of strings, character by character. */
  predicate StrLess(a: string, b: string)
    decreases |a|
  {
    if a == [] then b != []
    else if b == [] then false
    else if a[0] == b[0] then StrLess(a[1..], b[1..])
    else a[0] < b[0]
  }

  /** Exactly one of `a < b`, `a == b`, `b < a` holds for strings. */
  lemma {:induction false} StrLessTrichotomy(a: string, b: string)
    ensures StrLess(a, b) || a == b || StrLess(b, a)
    ensures !(StrLess(a, b) && StrLess(b, a))
    ensures !StrLess(a, a)
    decreases |a|
  {
    if a != [] && b != [] && a[0] == b[0] {
      StrLessTrichotomy(a[1..], b[1..]);
      assert a == [a[0]] + a[1..];
      assert b == [b[0]] + b[1..];
    } else if a != [] && b == [] {
    } else if a != [] && b != [] {
      assert a != b;
    }
    if a != [] {
      StrLessIrreflexive(a);
    }
  }

  lemma {:induction false} StrLessIrreflexive(a: string)
    ensures !StrLess(a, a)
    decreases |a|
  {
    if a != [] {
      StrLessIrreflexive(a[1..]);
    }
  }

  /**
   * The relational operators on the operand kinds the model covers: two
   * strings compare lexicographically; `undefined` on either side makes
   * every comparison false (it converts to `NaN`); numbers, booleans and
   * `null` compare by their numeric values. Mixed strings and numbers, and
   * objects, need conversions the model leaves out.
   */
  function Compare(op: string, a: Value, b: Value): (r: Result<bool, JsError>)
    requires op == ">" || op == "<" || op == ">=" || op == "<="
    ensures a.Undef? || b.Undef? ==> r == Success(false)
  {
    if a.Str? && b.Str? then
      Success(
        if op == "<" then StrLess(a.s, b.s)
        else if op == ">" then StrLess(b.s, a.s)
        else if op == "<=" then !StrLess(b.s, a.s)
        else !StrLess(a.s, b.s))
    else if a.Undef? || b.Undef? then Success(false)
    else if ToNumber(a).Some? && ToNumber(b).Some? then
      var x, y := ToNumber(a).value, ToNumber(b).value;
      Success(
        if op == "<" then x < y
        else if op == ">" then x > y
        else if op == "<=" then x <= y
        else x >= y)
    else Failure(Unsupported("comparison of " + ToString(a) + " and " + ToString(b)))
  }

  /**
   * `pathOperator[op](a, b)`: the six defined operators; any other
   * operator the scanner let through is not a function and calling it
   * fails. Strict equality is modelled as equality of values.
   */
  function ApplyOp(op: string, a: Value, b: Value): (r: Result<Value, JsError>)
    ensures !IsDefinedOperator(op) ==> r.Failure? && r.error.TypeError?
    ensures op == "==" ==> r == Success(Bool(a == b))
    ensures op == "!=" ==> r == Success(Bool(a != b))
    ensures r.Success? ==> r.value.Bool?
  {
    if op == "==" then Success(Bool(a == b))
    else if op == "!=" then Success(Bool(a != b))
    else if op == ">" || op == "<" || op == ">=" || op == "<=" then
      var c :- Compare(op, a, b);
      Success(Bool(c))
    else Failure(TypeError("pathOperator[" + op + "] is not a function"))
  }

  /**
   * On strings and on numbers the operators agree with each other:
   * `a > b` is `b < a`, and `a >= b` is the negation of `a < b`. Against
   * `undefined` both `<` and `>=` are false.
   */
  lemma CompareDuality(a: Value, b: Value)
    requires (a.Str? && b.Str?) || (a.Num? && b.Num?)
    ensures Compare(">", a, b) == Compare("<", b, a)
    ensures Compare(">=", a, b).Success? && Compare("<", a, b).Success? &&
      Compare(">=", a, b).value == !Compare("<", a, b).value
    ensures Compare("<", a, b).value ==> !Compare("<", b, a).value
  {
    if a.Str? {
      StrLessTrichotomy(a.s, b.s);
    }
  }

  lemma CompareUndefined(b: Value, op: string)
    requires op == ">" || op == "<" || op == ">=" || op == "<="
    ensures Compare(op, Undef, b) == Success(false) && Compare(op, b, Undef) == Success(false)
  {
  }
}
