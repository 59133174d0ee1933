/**
 * Parsing a query into its tree (`findPathCondition`, `findPathDoc`,
 * `findPathFunction`). The three grammars share one cursor into the query
 * text; the pure functions below take the cursor as an argument and return
 * the new one, and `PathReason.FindPathCondition` is the source's loop
 * that advances the shared cursor in place, proved to agree with them.
 */
module PathParse {
  import opened Wrappers
  import opened Values
  import opened PathAst
  import opened PathScan

  /** Why a parse has no tree: it never ends, or it throws. */
  datatype ParseError = Diverges | Raised(err: JsError)

  /** The query text and the `values` object that `$name` reads from. */
  datatype Source = Source(path: string, values: Value)

  /** `valueKey(key)`: `this.values[key]`, which throws when no values were given. */
  function ValueKey(src: Source, key: string): (r: Result<Value, ParseError>)
    ensures r.Failure? <==> src.values.Undef? || src.values.Null?
  {
    var v := Get(src.values, key);
    if v.Failure? then Failure(Raised(v.error)) else Success(v.value)
  }

  // ---------------------------------------------------------------------
  // The condition list under construction
  // ---------------------------------------------------------------------

  /**
   * A group being parsed: the conditions already linked by `&`/`|`, and
   * the chain of the current one — its head, the right-hand conditions its
   * operators opened so far, and `last`, the one tokens now apply to.
   */
  datatype Draft = Draft(done: seq<Cond>, prev: seq<Cond>, last: Cond)

  const NewDraft: Draft := Draft([], [], EmptyCond)

  /** The condition a chain stands for: each element's `value` is the rest of the chain. */
  function Fold(prev: seq<Cond>, last: Cond): (c: Cond)
    ensures prev == [] ==> c == last
    ensures prev != [] ==> c == prev[0].(value := Some(Fold(prev[1..], last)))
  {
    if prev == [] then last else prev[0].(value := Some(Fold(prev[1..], last)))
  }

  /** The head of the current chain. */
  function Head(d: Draft): Cond {
    if d.prev == [] then d.last else d.prev[0]
  }

  /** The current chain with its head's combinator set to `next`. */
  function Linked(d: Draft, next: string): (c: Cond)
    ensures c.next == next
    ensures c.child == Head(d).child && c.op == Head(d).op && c.reverse == Head(d).reverse
  {
    if d.prev == [] then d.last.(next := next)
    else Fold([d.prev[0].(next := next)] + d.prev[1..], d.last)
  }

  function SetChild(d: Draft, child: Option<Operand>): (r: Draft)
    ensures r.done == d.done && r.prev == d.prev && r.last == d.last.(child := child)
  {
    d.(last := d.last.(child := child))
  }

  function Finish(d: Draft): (g: Group)
    ensures g.conds == d.done + [Fold(d.prev, d.last)]
  {
    Group(d.done + [Fold(d.prev, d.last)])
  }

  /** A flag string `new RegExp` rejects: one flag given twice. */
  predicate RepeatsFlag(flags: string) {
    exists i, j | 0 <= i < j < |flags| :: flags[i] == flags[j]
  }

  /** The literal a value token stands for. */
  function Literal(src: Source, tok: CondToken): (r: Result<Value, ParseError>)
    requires tok.NumTok? || tok.BoolTok? || tok.StrTok? || tok.RegexTok? || tok.VarTok?
    ensures tok.StrTok? ==> r == Success(Str(tok.text))
    ensures tok.BoolTok? ==> r == Success(Bool(tok.b))
    ensures tok.NumTok? && AllDigits(tok.text) ==> r == Success(Num(DigitsValue(tok.text)))
  {
    match tok
    case NumTok(t) =>
      if AllDigits(t) then Success(Num(DigitsValue(t)))
      else Failure(Raised(Unsupported("decimal number " + t)))
    case BoolTok(b) => Success(Bool(b))
    case StrTok(t) => Success(Str(t))
    case RegexTok(source, flags) =>
      if RepeatsFlag(flags) then Failure(Raised(SyntaxError("invalid flags " + flags)))
      else Success(Regex(source, flags))
    case VarTok(name) => ValueKey(src, name)
  }

  /** What a token that neither opens, closes nor falls back does to the draft. */
  function Step(src: Source, d: Draft, tok: CondToken): (r: Result<Draft, ParseError>)
    requires !tok.OpenTok? && !tok.CloseTok? && !tok.OtherTok?
    ensures tok.OpTok? ==> r == Success(Draft(d.done, d.prev + [d.last.(op := tok.op)], EmptyCond))
    ensures tok.BangTok? ==> r == Success(d.(last := d.last.(reverse := tok.count)))
    ensures tok.NextTok? ==> r == Success(Draft(d.done + [Linked(d, tok.combinator)], [], EmptyCond))
  {
    if tok.OpTok? then Success(Draft(d.done, d.prev + [d.last.(op := tok.op)], EmptyCond))
    else if tok.BangTok? then Success(d.(last := d.last.(reverse := tok.count)))
    else if tok.NextTok? then Success(Draft(d.done + [Linked(d, tok.combinator)], [], EmptyCond))
    else
      var v :- Literal(src, tok);
      Success(SetChild(d, Some(NodeOperand(PathAst.Literal(v)))))
  }

  function AsOperand(n: Option<Node>): Option<Operand> {
    if n.Some? then Some(NodeOperand(n.value)) else None
  }

  // ---------------------------------------------------------------------
  // The three mutually recursive parsers
  // ---------------------------------------------------------------------

  /**
   * `findPathCondition` from cursor `i`: a group of at least one
   * condition and the cursor after it (after its closing bracket, or at
   * the end of the text).
   */
  function ParseGroup(src: Source, i: nat): (r: Result<(Group, nat), ParseError>)
    requires i <= |src.path|
    ensures r.Success? ==> i <= r.value.1 <= |src.path| && |r.value.0.conds| >= 1
    decreases |src.path| - i, 2
  {
    ParseConds(src, i, NewDraft)
  }

  /** The loop of `findPathCondition`, from cursor `i` with draft `d`. */
  function ParseConds(src: Source, i: nat, d: Draft): (r: Result<(Group, nat), ParseError>)
    requires i <= |src.path|
    ensures r.Success? ==> i <= r.value.1 <= |src.path| && |r.value.0.conds| >= 1
    decreases |src.path| - i, 1
  {
    match ScanCondition(src.path, i)
    case None => Success((Finish(d), i))
    case Some((tok, e)) =>
      if tok.CloseTok? then Success((Finish(d), e))
      else if tok.OpenTok? then
        var g :- ParseGroup(src, e);
        ParseConds(src, g.1, SetChild(d, Some(GroupOperand(g.0))))
      else if tok.OtherTok? then
        // the cursor goes back to the start of the match and the path grammar reads on from there
        var doc :- ParseDoc(src, i);
        if doc.1 == i then Failure(Diverges)
        else ParseConds(src, doc.1, SetChild(d, AsOperand(doc.0)))
      else
        var d' :- Step(src, d, tok);
        ParseConds(src, e, d')
  }

  /**
   * `findPathDoc` from cursor `i`: the step chain and the cursor after it.
   * When the text there is not a step, there is no node and the cursor
   * stays where it was.
   */
  function ParseDoc(src: Source, i: nat): (r: Result<(Option<Node>, nat), ParseError>)
    requires i <= |src.path|
    ensures r.Success? ==> i <= r.value.1 <= |src.path|
    ensures r.Success? && r.value.0.None? ==> r.value.1 == i
    decreases |src.path| - i, 0
  {
    match ScanDoc(src.path, i)
    case None => Success((None, i))
    case Some((tok, e)) =>
      match tok
      case DocOtherTok => Success((None, i))
      case ParentTok =>
        var c :- ParseDoc(src, e);
        Success((Some(Parent(c.0)), c.1))
      case SliceTok(start, limit) =>
        var c :- ParseDoc(src, e);
        Success((Some(Slice(start, limit, c.0)), c.1))
      case NameTok(name) =>
        var c :- ParseDoc(src, e);
        Success((Some(Field(Str(name), c.0)), c.1))
      case RepeatTok(kind) =>
        var c :- ParseDoc(src, e);
        Success((Some(Repeat(kind, c.0)), c.1))
      case DocVarTok(name) =>
        var attr :- ValueKey(src, name);
        var c :- ParseDoc(src, e);
        Success((Some(Field(attr, c.0)), c.1))
      case ColonTok =>
        ParseFunction(src, e, false)
      case FilterTok =>
        var g :- ParseGroup(src, e);
        var c :- ParseDoc(src, g.1);
        Success((Some(Filter(g.0, c.0)), c.1))
  }

  /**
   * `findPathFunction` from cursor `i`. Right after `:` (not `chained`) a
   * call is always made, `toString` when no name follows; inside a chain a
   * text that is not a call ends the chain.
   */
  function ParseFunction(src: Source, i: nat, chained: bool): (r: Result<(Option<Node>, nat), ParseError>)
    requires i <= |src.path|
    ensures r.Success? ==> i <= r.value.1 <= |src.path|
    ensures r.Success? && r.value.0.None? ==> chained && r.value.1 == i
    decreases |src.path| - i, 0
  {
    var fallback := if chained then None else Some(Call(None, None, None));
    match ScanFunction(src.path, i)
    case None => Success((fallback, i))
    case Some((tok, e)) =>
      match tok
      case FnOtherTok => Success((fallback, i))
      case DotFn =>
        var c :- ParseFunction(src, e, true);
        Success((Some(Call(None, None, c.0)), c.1))
      case NamedFn(name, args) =>
        var c :- ParseFunction(src, e, true);
        var given := if args.Some? && args.value != [] then args else None;
        Success((Some(Call(Some(name), given, c.0)), c.1))
  }

  /** The tree of a whole query, read from cursor `index`. */
  function Parse(src: Source, index: nat): (r: Result<Group, ParseError>)
    ensures index >= |src.path| ==> r == Success(Group([EmptyCond]))
  {
    var start := if index < |src.path| then index else |src.path|;
    assert Finish(NewDraft).conds == [EmptyCond];
    assert start == |src.path| ==> ParseGroup(src, start) == Success((Group([EmptyCond]), start));
    var g :- ParseGroup(src, start);
    Success(g.0)
  }

  // ---------------------------------------------------------------------
  // The shared cursor
  // ---------------------------------------------------------------------

  /** The parse state of one query: its text, its values and the cursor the grammars share. */
  class PathReason {
    const path: string
    const values: Value
    var index: nat

    constructor(path: string, values: Value, index: nat)
      ensures this.path == path && this.values == values && this.index == index
    {
      this.path := path;
      this.values := values;
      this.index := index;
    }

    function Src(): Source {
      Source(path, values)
    }

    /**
     * `findPathCondition`: reads tokens from the cursor until a closing
     * bracket or the end of the text, leaving the cursor after what it
     * read. Where the source would loop forever on a fallback that reads
     * nothing, this reports `Diverges`.
     */
    method FindPathCondition() returns (r: Result<Group, ParseError>)
      requires index <= |path|
      modifies this
      ensures var expected := ParseGroup(Src(), old(index));
        (r.Success? <==> expected.Success?) &&
        (r.Success? ==> r.value == expected.value.0 && index == expected.value.1) &&
        (r.Failure? ==> r.error == expected.error)
      decreases |path| - index, 2
    {
      ghost var start := index;
      var d := NewDraft;
      var stop := false;
      while !stop && index < |path|
        invariant start <= index <= |path|
        invariant !stop ==> ParseConds(Src(), index, d) == ParseGroup(Src(), start)
        invariant stop ==> ParseGroup(Src(), start) == Success((Finish(d), index))
        decreases |path| - index, if stop then 0 else 1
      {
        var (tok, e) := ScanCondition(path, index).value;
        if tok.CloseTok? {
          index, stop := e, true;
        } else if tok.OpenTok? {
          index := e;
          var g := FindPathCondition();
          if g.Failure? {
            return Failure(g.error);
          }
          d := SetChild(d, Some(GroupOperand(g.value)));
        } else if tok.OtherTok? {
          var doc := ParseDoc(Src(), index);
          if doc.Failure? {
            return Failure(doc.error);
          }
          if doc.value.1 == index {
            return Failure(Diverges);
          }
          index, d := doc.value.1, SetChild(d, AsOperand(doc.value.0));
        } else {
          var next := Step(Src(), d, tok);
          if next.Failure? {
            return Failure(next.error);
          }
          index, d := e, next.value;
        }
      }
      return Success(Finish(d));
    }
  }

  // ---------------------------------------------------------------------
  // Properties
  // ---------------------------------------------------------------------

  /** A token that supplies a condition's operand: a number, boolean, string, regex or `$name`. */
  predicate IsValueTok(tok: CondToken) {
    tok.NumTok? || tok.BoolTok? || tok.StrTok? || tok.RegexTok? || tok.VarTok?
  }

  /** The condition whose only content is the literal operand `v`. */
  function LiteralCond(v: Value): Cond {
    EmptyCond.(child := Some(NodeOperand(PathAst.Literal(v))))
  }

  /** At the end of the text the condition loop finishes the draft. */
  lemma ParseCondsAtEnd(src: Source, d: Draft)
    ensures ParseConds(src, |src.path|, d) == Success((Finish(d), |src.path|))
  {
  }

  /** A token that neither opens, closes nor falls back applies its step and reads on. */
  lemma ParseCondsStep(src: Source, i: nat, d: Draft, tok: CondToken, e: nat, d': Draft)
    requires i <= |src.path| && ScanCondition(src.path, i) == Some((tok, e))
    requires !tok.OpenTok? && !tok.CloseTok? && !tok.OtherTok?
    requires Step(src, d, tok) == Success(d')
    ensures e <= |src.path| && ParseConds(src, i, d) == ParseConds(src, e, d')
  {
  }

  /** A value token sets the operand of the condition being read. */
  lemma ValueStep(src: Source, d: Draft, x: CondToken)
    requires IsValueTok(x) && Literal(src, x).Success?
    ensures Step(src, d, x) == Success(SetChild(d, Some(NodeOperand(PathAst.Literal(Literal(src, x).value)))))
  {
  }

  /** A value token that ends the text completes the condition being read with that operand. */
  lemma LastValueParses(src: Source, k: nat, d: Draft, y: CondToken)
    requires k <= |src.path| && ScanCondition(src.path, k) == Some((y, |src.path|))
    requires IsValueTok(y) && Literal(src, y).Success?
    ensures ParseConds(src, k, d) ==
      Success((Finish(SetChild(d, Some(NodeOperand(PathAst.Literal(Literal(src, y).value))))), |src.path|))
  {
    var d' := SetChild(d, Some(NodeOperand(PathAst.Literal(Literal(src, y).value))));
    ValueStep(src, d, y);
    ParseCondsStep(src, k, d, y, |src.path|, d');
    ParseCondsAtEnd(src, d');
  }

  /**
   * A quoted string as the whole query text parses as one condition whose
   * operand is the string's text, with the escapes dropped, and the cursor
   * at the end.
   */
  lemma QuotedStringParses(t: string, values: Value)
    requires t == [] || t[|t| - 1] != '\\'
    ensures var s := "\"" + EscapeQuotes(t, '"') + "\"";
      ParseGroup(Source(s, values), 0) == Success((Group([LiteralCond(Str(t))]), |s|))
  {
    var s := "\"" + EscapeQuotes(t, '"') + "\"";
    ScanStringLiteral(t, '"', []);
    assert ['"'] + EscapeQuotes(t, '"') + ['"'] + [] == s;
    assert SkipSpaces(s, |s|) == |s|;
    assert ScanCondition(s, 0) == Some((StrTok(t), |s|));
    var src := Source(s, values);
    var d := SetChild(NewDraft, Some(NodeOperand(PathAst.Literal(Str(t)))));
    ParseCondsStep(src, 0, NewDraft, StrTok(t), |s|, d);
    ParseCondsAtEnd(src, d);
    assert ParseGroup(src, 0) == ParseConds(src, 0, NewDraft);
    assert Finish(d) == Group([LiteralCond(Str(t))]);
  }

  /**
   * `x op y`: the condition holds `x` as its operand and `op` as its
   * operator, and its `value` is the right-hand condition holding `y`.
   */
  lemma ComparisonParses(src: Source, i: nat, x: CondToken, j: nat, op: string, k: nat, y: CondToken)
    requires i <= |src.path|
    requires ScanCondition(src.path, i) == Some((x, j))
    requires ScanCondition(src.path, j) == Some((OpTok(op), k))
    requires ScanCondition(src.path, k) == Some((y, |src.path|))
    requires IsValueTok(x) && IsValueTok(y)
    requires Literal(src, x).Success? && Literal(src, y).Success?
    ensures ParseGroup(src, i) == Success((Group([
      LiteralCond(Literal(src, x).value).(op := op, value := Some(LiteralCond(Literal(src, y).value)))]), |src.path|))
  {
    var d1 := SetChild(NewDraft, Some(NodeOperand(PathAst.Literal(Literal(src, x).value))));
    var d2 := Draft(d1.done, d1.prev + [d1.last.(op := op)], EmptyCond);
    var d3 := SetChild(d2, Some(NodeOperand(PathAst.Literal(Literal(src, y).value))));
    ValueStep(src, NewDraft, x);
    ParseCondsStep(src, i, NewDraft, x, j, d1);
    ParseCondsStep(src, j, d1, OpTok(op), k, d2);
    LastValueParses(src, k, d2, y);
    assert ParseGroup(src, i) == ParseConds(src, i, NewDraft);
    assert Fold(d3.prev, d3.last) == d3.prev[0].(value := Some(d3.last));
    assert Finish(d3) == Group([
      LiteralCond(Literal(src, x).value).(op := op, value := Some(LiteralCond(Literal(src, y).value)))]);
  }

  /**
   * `x & y` (or `x | y`): two conditions, the first holding `x` and the
   * combinator, the second holding `y`.
   */
  lemma CombinedParses(src: Source, i: nat, x: CondToken, j: nat, c: string, k: nat, y: CondToken)
    requires i <= |src.path|
    requires ScanCondition(src.path, i) == Some((x, j))
    requires ScanCondition(src.path, j) == Some((NextTok(c), k))
    requires ScanCondition(src.path, k) == Some((y, |src.path|))
    requires IsValueTok(x) && IsValueTok(y)
    requires Literal(src, x).Success? && Literal(src, y).Success?
    ensures ParseGroup(src, i) == Success((Group([
      LiteralCond(Literal(src, x).value).(next := c), LiteralCond(Literal(src, y).value)]), |src.path|))
  {
    var d1 := SetChild(NewDraft, Some(NodeOperand(PathAst.Literal(Literal(src, x).value))));
    var d2 := Draft(d1.done + [Linked(d1, c)], [], EmptyCond);
    var d3 := SetChild(d2, Some(NodeOperand(PathAst.Literal(Literal(src, y).value))));
    ValueStep(src, NewDraft, x);
    ParseCondsStep(src, i, NewDraft, x, j, d1);
    ParseCondsStep(src, j, d1, NextTok(c), k, d2);
    LastValueParses(src, k, d2, y);
    assert ParseGroup(src, i) == ParseConds(src, i, NewDraft);
    assert Finish(d3) == Group([LiteralCond(Literal(src, x).value).(next := c), LiteralCond(Literal(src, y).value)]);
  }

  /** `!…x`: one condition holding `x` and the number of `!` as its negation count. */
  lemma NegatedParses(src: Source, i: nat, count: nat, j: nat, x: CondToken)
    requires i <= |src.path|
    requires ScanCondition(src.path, i) == Some((BangTok(count), j))
    requires ScanCondition(src.path, j) == Some((x, |src.path|))
    requires IsValueTok(x) && Literal(src, x).Success?
    ensures ParseGroup(src, i) == Success((Group([LiteralCond(Literal(src, x).value).(reverse := count)]), |src.path|))
  {
    var d1 := NewDraft.(last := EmptyCond.(reverse := count));
    var d2 := SetChild(d1, Some(NodeOperand(PathAst.Literal(Literal(src, x).value))));
    ParseCondsStep(src, i, NewDraft, BangTok(count), j, d1);
    ValueStep(src, d1, x);
    ParseCondsStep(src, j, d1, x, |src.path|, d2);
    ParseCondsAtEnd(src, d2);
    assert ParseGroup(src, i) == ParseConds(src, i, NewDraft);
    assert Finish(d2) == Group([LiteralCond(Literal(src, x).value).(reverse := count)]);
  }

  /**
   * A condition that starts with text neither grammar reads — an
   * uppercase letter, say, or nothing but blanks — sends the condition
   * loop back to the same place forever.
   */
  lemma StuckTextDiverges(src: Source, i: nat, d: Draft)
    requires i < |src.path|
    requires var q := SkipSpaces(src.path, i);
      q == |src.path| || (CondAt(src.path, q).None? && DocAt(src.path, q).None?)
    ensures ParseConds(src, i, d) == Failure(Diverges)
  {
  }

  /** Field names are lower case: a condition on an uppercase name never finishes parsing. */
  lemma UppercaseDiverges(src: Source, i: nat, d: Draft)
    requires i < |src.path| && 'A' <= src.path[i] <= 'Z'
    ensures ParseConds(src, i, d) == Failure(Diverges)
  {
    var s := src.path;
    assert SkipSpaces(s, i) == i;
    assert !(i + 4 <= |s| && s[i..i + 4] == "true") by {
      if i + 4 <= |s| { assert s[i..i + 4][0] == s[i]; }
    }
    assert !(i + 5 <= |s| && s[i..i + 5] == "false") by {
      if i + 5 <= |s| { assert s[i..i + 5][0] == s[i]; }
    }
    StuckTextDiverges(src, i, d);
  }
}
