/**
 * The repository's filter test: five cars, the query
 * `*.( maker == "Honda" & year > 2009 )`, and the notes its `complete`
 * listener expects, the Hondas newer than 2009.
 *
 * As the source delivers values, a false comparison reaches `execValue`
 * as the truthy event record, so the filter lets every car through; with
 * listeners that see values as they are, it lets through exactly the two
 * cars the test expects.
 */
module Scenario {
  import opened Wrappers
  import opened Values
  import opened PathAst
  import opened PathParse
  import opened PathEval
  import opened PathApi
  import opened ScenarioParse

  function Car(maker: string, model: string, year: int): Value {
    Obj([Entry("maker", Str(maker)), Entry("model", Str(model)), Entry("year", Num(year))])
  }

  const Teana: Value := Car("Nissan", "Teana", 2011)
  const Jazz: Value := Car("Honda", "Jazz", 2010)
  const Civic: Value := Car("Honda", "Civic", 2007)
  const Yaris: Value := Car("Toyota", "Yaris", 2008)
  const Accord: Value := Car("Honda", "Accord", 2011)

  /** The test's cars, in order. */
  const Autos: seq<Value> := [Teana, Jazz, Civic, Yaris, Accord]

  /** The cars the test expects the query to match. */
  const Expected: seq<Value> := [Jazz, Accord]

  /** The test's `pathFind` options: the path alone. */
  const TestQuery: Query := Query(TestPath, Undef, 0, 0, Undef)

  lemma CarFields(maker: string, model: string, year: int)
    ensures Get(Car(maker, model, year), "maker") == Success(Str(maker))
    ensures Get(Car(maker, model, year), "year") == Success(Num(year))
  {
    var es := Car(maker, model, year).entries;
    assert es[1..] == [Entry("model", Str(model)), Entry("year", Num(year))];
    assert es[1..][1..] == [Entry("year", Num(year))];
    assert "year" != "maker" && "year" != "model";
    assert Values.Field(es[1..][1..], "year") == Some(Num(year));
    assert Values.Field(es[1..], "year") == Some(Num(year));
  }

  /** A car reaches every listener as itself. */
  lemma CarReceived(mode: Delivery, maker: string, model: string, year: int)
    ensures Received(mode, Car(maker, model, year)) == Car(maker, model, year)
  {
  }

  /** `maker == "Honda"` on a car with a maker reports whether it is a Honda. */
  lemma MakerTestValue(maker: string, model: string, year: int, ctx: Ctx, fuel: nat)
    requires maker != ""
    ensures TestValue(MakerTest, Car(maker, model, year), ctx, fuel) == Success(Received(ctx.mode, Bool(maker == "Honda")))
  {
    var car := Car(maker, model, year);
    var c0 := ctx.(holds := 0);
    CarFields(maker, model, year);
    assert ToString(Str("maker")) == "maker";
    assert ExecNode(MakerField, car, c0, fuel) == Trace([Emit(Str(maker), true, 0)], None);
    assert CaptureOperand(MakerTest.child, car, c0, fuel) == Success(Str(maker));
    var right := MakerTest.value.value;
    LiteralReportsConstant(Str("Honda"), car, c0, fuel);
    assert ExecCond(right, car, c0, fuel) == Trace([Emit(Str("Honda"), true, 0)], None);
    assert ExecCond(MakerTest, car, c0, fuel) == Trace([Emit(Bool(maker == "Honda"), false, 0)], None);
  }

  /** `year > 2009` on a car with a year reports whether it is newer than 2009. */
  lemma YearTestValue(maker: string, model: string, year: int, ctx: Ctx, fuel: nat)
    requires year != 0
    ensures TestValue(YearTest, Car(maker, model, year), ctx, fuel) == Success(Received(ctx.mode, Bool(year > 2009)))
  {
    var car := Car(maker, model, year);
    var c0 := ctx.(holds := 0);
    CarFields(maker, model, year);
    assert ToString(Str("year")) == "year";
    assert ExecNode(YearField, car, c0, fuel) == Trace([Emit(Num(year), true, 0)], None);
    assert CaptureOperand(YearTest.child, car, c0, fuel) == Success(Num(year));
    var right := YearTest.value.value;
    LiteralReportsConstant(Num(2009), car, c0, fuel);
    assert ExecCond(right, car, c0, fuel) == Trace([Emit(Num(2009), true, 0)], None);
    assert ApplyOp(">", Num(year), Num(2009)) == Success(Bool(year > 2009));
    assert ExecCond(YearTest, car, c0, fuel) == Trace([Emit(Bool(year > 2009), false, 0)], None);
  }

  /**
   * Whether the test's filter lets a car through: as the source delivers
   * values, always; with values seen as they are, exactly for a Honda
   * newer than 2009.
   */
  lemma FilterOnCar(maker: string, model: string, year: int, ctx: Ctx, fuel: nat)
    requires maker != "" && year != 0
    ensures Captured(ctx.mode, ExecGroup(TestFilter, Car(maker, model, year), ctx.(holds := 0), fuel)).Success?
    ensures Passes(TestFilter, Car(maker, model, year), ctx, fuel) <==>
      ctx.mode.AsWritten? || (maker == "Honda" && year > 2009)
  {
    var c0 := ctx.(holds := 0);
    assert c0.(holds := 0) == c0;
    var car := Car(maker, model, year);
    MakerTestValue(maker, model, year, c0, fuel);
    YearTestValue(maker, model, year, c0, fuel);
    if ctx.mode.Direct? {
      Conjunction(MakerTest, YearTest, car, c0, fuel);
    } else {
      ConjunctionAsWritten(MakerTest, YearTest, car, c0, fuel);
      if year <= 2009 {
        DeliverFalsy(Bool(false));
      }
    }
  }

  /** The filter's verdict on the first item, then on the rest. */
  lemma PassingCons(g: Group, x: Value, rest: seq<Value>, passes: bool, ctx: Ctx, fuel: nat)
    requires Passes(g, x, ctx, fuel) == passes
    ensures Passing(g, [x] + rest, ctx, fuel) == (if passes then [x] else []) + Passing(g, rest, ctx, fuel)
  {
    assert ([x] + rest)[1..] == rest;
  }

  /** The items of `xs` whose verdict in `ps` is true, in order. */
  function Kept(xs: seq<Value>, ps: seq<bool>): seq<Value>
    requires |ps| == |xs|
  {
    if xs == [] then [] else (if ps[0] then [xs[0]] else []) + Kept(xs[1..], ps[1..])
  }

  /** Given the filter's verdict on each item, the items it lets through are the ones with a true verdict. */
  lemma {:induction false} PassingByVerdicts(g: Group, xs: seq<Value>, ps: seq<bool>, ctx: Ctx, fuel: nat)
    requires |ps| == |xs|
    requires forall i | 0 <= i < |xs| :: Passes(g, xs[i], ctx, fuel) == ps[i]
    ensures Passing(g, xs, ctx, fuel) == Kept(xs, ps)
    decreases |xs|
  {
    if xs != [] {
      PassingCons(g, xs[0], xs[1..], ps[0], ctx, fuel);
      assert [xs[0]] + xs[1..] == xs;
      forall i | 0 <= i < |xs[1..]|
        ensures Passes(g, xs[1..][i], ctx, fuel) == ps[1..][i]
      {
        assert xs[1..][i] == xs[i + 1];
      }
      PassingByVerdicts(g, xs[1..], ps[1..], ctx, fuel);
    }
  }

  /** The filter's verdict on each of the test's cars. */
  lemma Verdicts(ctx: Ctx, fuel: nat)
    ensures Passes(TestFilter, Teana, ctx, fuel) == ctx.mode.AsWritten?
    ensures Passes(TestFilter, Jazz, ctx, fuel)
    ensures Passes(TestFilter, Civic, ctx, fuel) == ctx.mode.AsWritten?
    ensures Passes(TestFilter, Yaris, ctx, fuel) == ctx.mode.AsWritten?
    ensures Passes(TestFilter, Accord, ctx, fuel)
  {
    FilterOnCar("Nissan", "Teana", 2011, ctx, fuel);
    FilterOnCar("Honda", "Jazz", 2010, ctx, fuel);
    FilterOnCar("Honda", "Civic", 2007, ctx, fuel);
    FilterOnCar("Toyota", "Yaris", 2008, ctx, fuel);
    FilterOnCar("Honda", "Accord", 2011, ctx, fuel);
  }

  /** The cars the filter lets through: all five as written, the expected two with values seen as they are. */
  lemma KeptCars(w: bool)
    ensures Kept(Autos, [w, true, w, w, true]) == if w then Autos else Expected
  {
    var ps := [w, true, w, w, true];
    assert Kept(Autos[4..], ps[4..]) == [Accord];
    assert Kept(Autos[3..], ps[3..]) == if w then [Yaris, Accord] else [Accord];
    assert Kept(Autos[2..], ps[2..]) == if w then [Civic, Yaris, Accord] else [Accord];
    assert Kept(Autos[1..], ps[1..]) == if w then Autos[1..] else Expected;
  }

  lemma PassingCars(ctx: Ctx, fuel: nat)
    ensures Passing(TestFilter, Autos, ctx, fuel) == if ctx.mode.AsWritten? then Autos else Expected
  {
    var w := ctx.mode.AsWritten?;
    Verdicts(ctx, fuel);
    PassingByVerdicts(TestFilter, Autos, [w, true, w, w, true], ctx, fuel);
    KeptCars(w);
  }

  /** No filter evaluation on the test's cars fails. */
  lemma FiltersSucceed(ctx: Ctx, fuel: nat)
    ensures forall i | 0 <= i < |Autos| :: Captured(ctx.mode, ExecGroup(TestFilter, Autos[i], ctx.(holds := 0), fuel)).Success?
  {
    FilterOnCar("Nissan", "Teana", 2011, ctx, fuel);
    FilterOnCar("Honda", "Jazz", 2010, ctx, fuel);
    FilterOnCar("Honda", "Civic", 2007, ctx, fuel);
    FilterOnCar("Toyota", "Yaris", 2008, ctx, fuel);
    FilterOnCar("Honda", "Accord", 2011, ctx, fuel);
  }

  /** The top group of the test's query runs `*` with the filter as its child, under one hold. */
  lemma TopGroupRunsEach(data: Value, host: Host, mode: Delivery, fuel: nat)
    ensures Evaluate(TestTree, data, host, mode, fuel) ==
      ExecNode(Repeat(Each, Some(Filter(TestFilter, None))), data, Ctx(host, mode, None, 1), fuel)
  {
    var ctx := Ctx(host, mode, None, 1);
    var t := ExecNode(Repeat(Each, Some(Filter(TestFilter, None))), data, ctx, fuel);
    var c := TestTree.conds[0];
    assert ExecCond(c, data, ctx, fuel) == t;
    assert TestTree.conds[1..] == [];
    assert ExecConds(TestTree.conds, data, ctx, fuel) == Then(t, NoTrace);
    assert t.error.None? ==> t.emits + [] == t.emits;
  }

  lemma EachOfArray(child: Option<Node>, xs: seq<Value>, ctx: Ctx, fuel: nat)
    ensures ExecNode(Repeat(Each, child), Arr(xs), ctx, fuel) == EachItem(child, xs, ctx, fuel)
  {
  }

  /** The query reports, each noted under the top group's single hold, the cars the filter lets through. */
  lemma TestTrace(host: Host, mode: Delivery, fuel: nat)
    ensures Evaluate(TestTree, Arr(Autos), host, mode, fuel) ==
      Trace(Noted(if mode.AsWritten? then Autos else Expected, 1), None)
  {
    var ctx := Ctx(host, mode, None, 1);
    PassingCars(ctx, fuel);
    FiltersSucceed(ctx, fuel);
    EachFilterReportsPassing(TestFilter, Autos, ctx, fuel);
    EachOfArray(Some(Filter(TestFilter, None)), Autos, ctx, fuel);
    TopGroupRunsEach(Arr(Autos), host, mode, fuel);
  }

  lemma ReceivedCars(mode: Delivery, xs: seq<Value>)
    requires xs == Autos || xs == Expected
    ensures ReceivedAll(mode, Noted(xs, 1)) == xs
  {
    forall i | 0 <= i < |xs|
      ensures Received(mode, xs[i]) == xs[i]
    {
      if xs == Autos {
        assert xs[i] in Autos;
      }
    }
  }

  lemma TestOutcome(host: Host, mode: Delivery, fuel: nat)
    ensures var cars := if mode.AsWritten? then Autos else Expected;
      PathFind(Arr(Autos), TestQuery, host, mode, fuel) == Done(Found(cars, Some(cars)))
  {
    TestPathParses(Undef);
    assert Parse(Source(TestPath, Undef), 0) == Success(TestTree);
    TestTrace(host, mode, fuel);
    var cars := if mode.AsWritten? then Autos else Expected;
    NotedPayloadsOfMatches(cars, 1);
    ReceivedCars(mode, cars);
  }

  /**
   * As the source delivers values, the test's query reports all five cars
   * and its `complete` listener is handed all five as notes.
   */
  lemma TestQueryAsWritten(host: Host, fuel: nat)
    ensures PathFind(Arr(Autos), TestQuery, host, AsWritten, fuel) == Done(Found(Autos, Some(Autos)))
  {
    TestOutcome(host, AsWritten, fuel);
  }

  /**
   * With values seen as they are, the test's query reports the two Hondas
   * newer than 2009, and they are the notes its `complete` listener is
   * handed, as the test expects.
   */
  lemma TestQueryIntended(host: Host, fuel: nat)
    ensures PathFind(Arr(Autos), TestQuery, host, Direct, fuel) == Done(Found(Expected, Some(Expected)))
    ensures Expected == [Autos[1], Autos[4]]
  {
    TestOutcome(host, Direct, fuel);
  }
}
