/**
 * The PathJS entry points `pathFind`, `pathNode` and `pathExists`, with
 * `parsePath` and the result limit that `nextTick` enforces.
 *
 * A query is parsed, then evaluated over the document into a trace of
 * `success` emissions (module PathEval). `nextTick` notes each match on
 * the `complete` barrier and stops the query with `End` once the number
 * of notes reaches the limit; here that stop is a cut of the trace at the
 * limit-th noted emission, which is the same thing because nothing runs
 * after `End`.
 */
module PathApi {
  import opened Wrappers
  import opened Values
  import opened PathAst
  import opened PathParse
  import opened PathEval
  import Base
  import Events

  /**
   * The options of `pathFind`: the path text, the `$name` values, the
   * start index in the text, the limit (`0` stands for an absent one, as
   * `opt.limit || -1` treats both alike) and the preset (`undefined` when
   * absent).
   */
  datatype Query = Query(path: string, values: Value, index: nat, limit: int, preset: Value)

  /**
   * What a synchronous `pathFind` hands its listeners: the values the
   * `success` listener received, in order, and the notes the `complete`
   * listener received, when it fired.
   */
  datatype Found = Found(successes: seq<Value>, complete: Option<seq<Value>>)

  /** How a call ends: with a value, by throwing, or by never returning. */
  datatype Outcome<T> = Done(value: T) | Threw(error: JsError) | Hangs

  /** `opt.limit || -1`. */
  function EffectiveLimit(limit: int): (k: int)
    ensures k != 0
    ensures limit != 0 ==> k == limit
  {
    if limit == 0 then -1 else limit
  }

  /** How many of the emissions were noted on the barrier. */
  function NotedCount(es: seq<Emit>): (n: nat)
    ensures n <= |es|
  {
    if es == [] then 0 else (if es[|es| - 1].noted then 1 else 0) + NotedCount(es[..|es| - 1])
  }

  /** The payloads of the noted emissions, in order: what the barrier's notes hold. */
  function NotedPayloads(es: seq<Emit>): (r: seq<Value>)
    ensures |r| == NotedCount(es)
  {
    if es == [] then []
    else NotedPayloads(es[..|es| - 1]) + (if es[|es| - 1].noted then [es[|es| - 1].payload] else [])
  }

  /** When every emission is a match, the notes are exactly the payloads. */
  lemma {:induction false} NotedPayloadsOfMatches(xs: seq<Value>, holds: nat)
    ensures NotedPayloads(Noted(xs, holds)) == xs
  {
    if xs != [] {
      assert Noted(xs, holds)[..|xs| - 1] == Noted(xs[..|xs| - 1], holds);
      NotedPayloadsOfMatches(xs[..|xs| - 1], holds);
      assert xs[..|xs| - 1] + [xs[|xs| - 1]] == xs;
    }
  }

  /** What the `success` listener receives for each emission. */
  function ReceivedAll(mode: Delivery, es: seq<Emit>): (r: seq<Value>)
    ensures |r| == |es| && forall i | 0 <= i < |es| :: r[i] == Received(mode, es[i].payload)
  {
    seq(|es|, i requires 0 <= i < |es| => Received(mode, es[i].payload))
  }

  /**
   * Where `nextTick` throws `End`: the first noted emission at which the
   * number of notes reaches `limit`. `need` is how many more notes that
   * takes; a `need` of 1 or less stops at the next noted emission.
   */
  function Cut(es: seq<Emit>, need: int): (r: Option<nat>)
    ensures r.Some? ==> r.value < |es|
  {
    if es == [] then None
    else if es[0].noted && need <= 1 then Some(0)
    else
      var r := Cut(es[1..], if es[0].noted then need - 1 else need);
      if r.Some? then Some(r.value + 1) else None
  }

  lemma NotedCountPrepend(e: Emit, es: seq<Emit>)
    ensures NotedCount([e] + es) == (if e.noted then 1 else 0) + NotedCount(es)
    decreases |es|
  {
    if es != [] {
      assert ([e] + es)[..|[e] + es| - 1] == [e] + es[..|es| - 1];
      NotedCountPrepend(e, es[..|es| - 1]);
    } else {
      assert ([e] + es)[..0] == [];
    }
  }

  /**
   * The cut is at the `max(need, 1)`-th noted emission: that emission is
   * noted and the notes up to it number exactly that many; without a cut
   * there are fewer notes than `need`.
   */
  lemma {:induction false} CutAtLimit(es: seq<Emit>, need: int)
    ensures var r := Cut(es, need);
      r.Some? ==> es[r.value].noted && NotedCount(es[..r.value + 1]) == (if need < 1 then 1 else need)
    ensures Cut(es, need).None? ==> NotedCount(es) < (if need < 1 then 1 else need)
  {
    if es != [] {
      var e, tail := es[0], es[1..];
      assert es == [e] + tail;
      if e.noted && need <= 1 {
        assert es[..1] == [e] + [];
        NotedCountPrepend(e, []);
      } else {
        var rest := if e.noted then need - 1 else need;
        CutAtLimit(tail, rest);
        var r := Cut(tail, rest);
        if r.Some? {
          assert Cut(es, need) == Some(r.value + 1);
          assert es[..r.value + 2] == [e] + tail[..r.value + 1];
          NotedCountPrepend(e, tail[..r.value + 1]);
        } else {
          assert Cut(es, need).None?;
          NotedCountPrepend(e, tail);
        }
      }
    }
  }

  /**
   * `parsePath` after the trace is known. A cut reports the emissions up
   * to it; the extra release at the limit fires the barrier when the top
   * group is the only one holding it. A trace that runs out completes the
   * top group, which fires the barrier. An error reports the preset when
   * there is one; otherwise a new plain `Error` wrapping it is thrown.
   */
  function Settle(t: Trace, limit: int, preset: Value, mode: Delivery): (r: Outcome<Found>)
    requires limit != 0
    ensures r.Done? || (r.Threw? && t.error.Some? && r.error == Wrapped(t.error.value))
  {
    var cut := if limit == -1 then None else Cut(t.emits, limit);
    if cut.Some? then
      var es := t.emits[..cut.value + 1];
      Done(Found(ReceivedAll(mode, es), if es[cut.value].holds == 1 then Some(NotedPayloads(es)) else None))
    else if t.error.None? then
      Done(Found(ReceivedAll(mode, t.emits), Some(NotedPayloads(t.emits))))
    else if preset != Undef then
      Done(Found(ReceivedAll(mode, t.emits) + [Received(mode, preset)], None))
    else Threw(Wrapped(t.error.value))
  }

  /** The trace of a parsed query over `data`, from the top scope. */
  function Evaluate(g: Group, data: Value, host: Host, mode: Delivery, fuel: nat): Trace {
    ExecGroup(g, data, Ctx(host, mode, None, 0), fuel)
  }

  /**
   * `pathFind` called synchronously on `data`. A parse error is thrown
   * before the evaluation starts and is not caught; a parse that would
   * loop forever never returns.
   */
  function PathFind(data: Value, q: Query, host: Host, mode: Delivery, fuel: nat): (r: Outcome<Found>)
    ensures Parse(Source(q.path, q.values), q.index) == Failure(Diverges) ==> r == Hangs
    ensures Parse(Source(q.path, q.values), q.index).Failure? && r != Hangs ==> r.Threw?
  {
    match Parse(Source(q.path, q.values), q.index)
    case Failure(Diverges) => Hangs
    case Failure(Raised(e)) => Threw(e)
    case Success(g) => Settle(Evaluate(g, data, host, mode, fuel), EffectiveLimit(q.limit), q.preset, mode)
  }

  /**
   * `pathNode`: `pathFind` with limit 1, answering the last value its
   * `success` listener received, or the preset when that is `undefined`.
   */
  function PathNode(data: Value, q: Query, host: Host, mode: Delivery, fuel: nat): (r: Outcome<Value>)
    ensures PathFind(data, q.(limit := 1), host, mode, fuel).Hangs? <==> r.Hangs?
    ensures PathFind(data, q.(limit := 1), host, mode, fuel).Threw? <==> r.Threw?
  {
    match PathFind(data, q.(limit := 1), host, mode, fuel)
    case Hangs => Hangs
    case Threw(e) => Threw(e)
    case Done(f) =>
      var node := if f.successes == [] then Undef else f.successes[|f.successes| - 1];
      Done(if node == Undef then q.preset else node)
  }

  /** `pathExists`: whether `pathNode` of the path alone finds something other than `undefined`. */
  function PathExists(data: Value, path: string, host: Host, mode: Delivery, fuel: nat): (r: Outcome<bool>)
    ensures r.Done? <==> PathNode(data, Query(path, Undef, 0, 0, Undef), host, mode, fuel).Done?
  {
    match PathNode(data, Query(path, Undef, 0, 0, Undef), host, mode, fuel)
    case Hangs => Hangs
    case Threw(e) => Threw(e)
    case Done(v) => Done(v != Undef)
  }

  // ---------------------------------------------------------------------
  // Properties
  // ---------------------------------------------------------------------

  /**
   * With a positive limit `k`, a query whose evaluation notes at least `k`
   * matches before any error reports exactly the emissions up to the
   * `k`-th match: `k` of them noted, the last one noted.
   */
  lemma LimitStopsAtKthMatch(t: Trace, k: int, preset: Value, mode: Delivery)
    requires k >= 1 && NotedCount(t.emits) >= k
    ensures Settle(t, k, preset, mode).Done? && Cut(t.emits, k).Some?
    ensures var j := Cut(t.emits, k).value;
      Settle(t, k, preset, mode).value.successes == ReceivedAll(mode, t.emits[..j + 1]) &&
      NotedCount(t.emits[..j + 1]) == k && t.emits[j].noted
  {
    CutAtLimit(t.emits, k);
  }

  /** Without a limit, or when fewer matches than the limit exist, an error-free evaluation reports everything and completes with all its matches. */
  lemma UnlimitedReportsAll(t: Trace, limit: int, preset: Value, mode: Delivery)
    requires limit != 0 && t.error.None? && (limit == -1 || (limit >= 1 && NotedCount(t.emits) < limit))
    ensures Settle(t, limit, preset, mode) == Done(Found(ReceivedAll(mode, t.emits), Some(NotedPayloads(t.emits))))
  {
    if limit != -1 {
      CutAtLimit(t.emits, limit);
      if Cut(t.emits, limit).Some? {
        var j := Cut(t.emits, limit).value;
        NotedCountPrefix(t.emits, j + 1);
      }
    }
  }

  lemma {:induction false} NotedCountPrefix(es: seq<Emit>, n: nat)
    requires n <= |es|
    ensures NotedCount(es[..n]) <= NotedCount(es)
    decreases |es|
  {
    if n < |es| {
      assert es[..|es| - 1][..n] == es[..n];
      NotedCountPrefix(es[..|es| - 1], n);
    } else {
      assert es[..n] == es;
    }
  }

  /** A complete listener receives at most `limit` notes, and only the payloads of reported matches. */
  lemma CompleteWithinLimit(t: Trace, limit: int, preset: Value, mode: Delivery)
    requires limit != 0
    requires Settle(t, limit, preset, mode).Done? && Settle(t, limit, preset, mode).value.complete.Some?
    ensures var f := Settle(t, limit, preset, mode).value;
      limit >= 1 ==> |f.complete.value| <= limit
    ensures var f := Settle(t, limit, preset, mode).value;
      |f.complete.value| <= |f.successes|
  {
    if limit != -1 {
      CutAtLimit(t.emits, limit);
    }
  }

  /**
   * When the evaluation fails before the limit is reached, a preset is
   * reported after everything found so far, and the barrier never fires;
   * without a preset the error is rethrown.
   */
  lemma PresetOnError(t: Trace, limit: int, preset: Value, mode: Delivery)
    requires limit != 0 && t.error.Some? && (limit == -1 || Cut(t.emits, limit).None?)
    ensures preset != Undef ==>
      Settle(t, limit, preset, mode) == Done(Found(ReceivedAll(mode, t.emits) + [Received(mode, preset)], None))
    ensures preset == Undef ==> Settle(t, limit, preset, mode) == Threw(Wrapped(t.error.value))
  {
  }

  /**
   * `pathNode` answers the first match of a path made of steps only (all
   * its emissions are matches), as its `success` listener received it;
   * with no match, or an `undefined` one, it answers the preset.
   */
  lemma PathNodeFirstMatch(data: Value, q: Query, host: Host, mode: Delivery, fuel: nat)
    requires Parse(Source(q.path, q.values), q.index).Success?
    requires var t := Evaluate(Parse(Source(q.path, q.values), q.index).value, data, host, mode, fuel);
      t.error.None? && forall i | 0 <= i < |t.emits| :: t.emits[i].noted
    ensures var t := Evaluate(Parse(Source(q.path, q.values), q.index).value, data, host, mode, fuel);
      var first := if t.emits == [] then Undef else Received(mode, t.emits[0].payload);
      PathNode(data, q, host, mode, fuel) == Done(if first == Undef then q.preset else first)
  {
    var t := Evaluate(Parse(Source(q.path, q.values), q.index).value, data, host, mode, fuel);
    if t.emits != [] {
      assert Cut(t.emits, 1) == Some(0);
    } else {
      CutAtLimit(t.emits, 1);
    }
  }

  /** `pathExists` of a path made of steps only: whether its first match reaches the listener as something other than `undefined`. */
  lemma PathExistsFirstMatch(data: Value, path: string, host: Host, mode: Delivery, fuel: nat)
    requires Parse(Source(path, Undef), 0).Success?
    requires var t := Evaluate(Parse(Source(path, Undef), 0).value, data, host, mode, fuel);
      t.error.None? && forall i | 0 <= i < |t.emits| :: t.emits[i].noted
    ensures var t := Evaluate(Parse(Source(path, Undef), 0).value, data, host, mode, fuel);
      PathExists(data, path, host, mode, fuel) == Done(t.emits != [] && Received(mode, t.emits[0].payload) != Undef)
  {
    PathNodeFirstMatch(data, Query(path, Undef, 0, 0, Undef), host, mode, fuel);
  }

  /**
   * As the source delivers values, an empty array that a path finds
   * reaches the listener as `undefined`, so `pathExists` denies it.
   */
  lemma EmptyArrayNotFound(mode: Delivery)
    ensures Received(AsWritten, Arr([])) == Undef
    ensures Received(Direct, Arr([])) != Undef
  {
  }

  // ---------------------------------------------------------------------
  // The barrier at the end of a path
  // ---------------------------------------------------------------------

  lemma TreatOfComplete()
    ensures Events.Treat("complete") == "complete"
  {
    Base.SplitWithoutSep("complete", '.');
  }

  /**
   * `nextTick` at the end of a path, after the `success` trigger: join the
   * query's `complete` barrier, note the match, release; at the limit,
   * release once more and stop with `End`. The extra release fires the
   * barrier exactly when only one hold was left on it, that of the group
   * running the path.
   */
  method NoteMatch(cache: Events.PickerCache, node: Value, limit: int) returns (atLimit: bool, fired: bool)
    requires "complete" in cache.pickers && cache.pickers["complete"].wait >= 1
    requires cache.pickers["complete"].cache == cache && cache.pickers["complete"].treat == "complete"
    modifies cache, cache.pickers.Values, cache.pickers["complete"].note
    ensures var p := old(cache.pickers["complete"]);
      atLimit <==> limit != -1 && p.note.Length(None) >= limit
    ensures var p := old(cache.pickers["complete"]);
      p.note.Length(None) == old(p.note.Length(None)) + 1 &&
      p.note.Notes("") == old(p.note.Notes("")) + [Events.Note(node, "")]
    ensures var p := old(cache.pickers["complete"]);
      fired <==> atLimit && old(p.wait) == 1
    ensures var p := old(cache.pickers["complete"]);
      p.wait == old(p.wait) - (if atLimit then 1 else 0)
    ensures cache.pickers == if fired then old(cache.pickers) - {"complete"} else old(cache.pickers)
    ensures forall q | q in old(cache.pickers.Values) && q != old(cache.pickers["complete"]) :: q.wait == old(q.wait)
  {
    TreatOfComplete();
    var p := Events.AcquirePicker(cache, "complete", true);
    p.AddNote(Events.Note(node, ""), "");
    var first := p.Talk();
    atLimit := limit != -1 && p.note.Length(None) >= limit;
    fired := false;
    if atLimit {
      fired := p.Talk();
    }
  }
}
