/**
 * The BaseJS helpers the query engine is built on: the `xEach` iteration
 * window, `xAdd` flattening, and the `ns` namespace walk.
 */
module Base {
  import opened Wrappers
  import opened Values

  // ---------------------------------------------------------------------
  // xEach: which indices `success` is called with
  // ---------------------------------------------------------------------

  /**
   * The `(start, limit)` pair `xEachArray`/`xEachObject` end up with after
   * their four adjustments: a missing or non-positive limit means the whole
   * length, a negative start counts from the end, the limit is cut at the
   * end, and a start still below zero restarts from 0 over everything.
   */
  function EachWindow(length: nat, start: int, limit: Option<int>): (int, int) {
    var lim0 := if limit.None? then length else limit.value;
    var lim1 := if lim0 <= 0 then length else lim0;
    var st1 := if start < 0 then length + start else start;
    var lim2 := if st1 + lim1 > length then lim1 - (st1 + lim1 - length) else lim1;
    if st1 < 0 then (0, length) else (st1, lim2)
  }

  /** The indices, in call order, that `xEach` hands to `success` when nothing breaks. */
  function EachIndices(length: nat, start: int, limit: Option<int>): seq<nat> {
    var (st, lim) := EachWindow(length, start, limit);
    if lim <= 0 || st < 0 then [] else seq(lim, k requires 0 <= k < lim => (st + k) as nat)
  }

  /** The integers `lo, lo+1, …, hi-1`. */
  function Range(lo: nat, hi: nat): (r: seq<nat>)
    ensures |r| == if lo <= hi then hi - lo else 0
    ensures forall k | 0 <= k < |r| :: r[k] == lo + k
  {
    if lo >= hi then [] else seq(hi - lo, k requires 0 <= k < hi - lo => lo + k)
  }

  function Min(a: int, b: int): int { if a <= b then a else b }

  /**
   * The window in closed form: a start below `-length` visits everything;
   * otherwise the visit runs from the (end-relative) start for `limit`
   * items, or to the end when the limit is absent or not positive, and is
   * cut at the end.
   */
  lemma EachIndicesRange(length: nat, start: int, limit: Option<int>)
    ensures start + length < 0 ==> EachIndices(length, start, limit) == Range(0, length)
    ensures start + length >= 0 ==>
      var s := if start < 0 then length + start else start;
      var l := if limit.None? || limit.value <= 0 then length else limit.value;
      EachIndices(length, start, limit) == Range(s, Min(s + l, length))
  {
  }

  /** Every visited index is a valid position, and the visits are consecutive and ascending. */
  lemma EachIndicesInBounds(length: nat, start: int, limit: Option<int>)
    ensures var r := EachIndices(length, start, limit);
      (forall k | 0 <= k < |r| :: r[k] < length) &&
      (forall k | 0 < k < |r| :: r[k] == r[k - 1] + 1)
  {
    EachIndicesRange(length, start, limit);
  }

  /** A start at or past the end visits nothing; an absent limit from 0 visits everything. */
  lemma EachIndicesEdges(length: nat, start: int, limit: Option<int>)
    ensures start >= length ==> EachIndices(length, start, limit) == []
    ensures EachIndices(length, 0, None) == Range(0, length)
  {
    EachIndicesRange(length, start, limit);
    EachIndicesRange(length, 0, None);
  }

  /** The prefix of `xs` up to and including the first element whose callback throws `Break`. */
  function TakeThrough(xs: seq<nat>, brk: nat -> bool): seq<nat> {
    if xs == [] then []
    else if brk(xs[0]) then [xs[0]]
    else [xs[0]] + TakeThrough(xs[1..], brk)
  }

  /**
   * The loop stops at the first breaking index: what it visits is a prefix
   * of the window, no visit but the last broke, and it is cut short only
   * by a break.
   */
  lemma {:induction false} TakeThroughSpec(xs: seq<nat>, brk: nat -> bool)
    ensures var r := TakeThrough(xs, brk);
      r <= xs &&
      (forall k | 0 <= k < |r| - 1 :: !brk(r[k])) &&
      (|r| == |xs| || (|r| > 0 && brk(r[|r| - 1])))
  {
    if xs != [] && !brk(xs[0]) {
      TakeThroughSpec(xs[1..], brk);
      var t := TakeThrough(xs[1..], brk);
      assert TakeThrough(xs, brk) == [xs[0]] + t;
      assert xs == [xs[0]] + xs[1..];
    }
  }

  lemma {:induction false} TakeThroughPrefix(xs: seq<nat>, i: nat, brk: nat -> bool)
    requires i <= |xs|
    requires forall k | 0 <= k < i :: !brk(xs[k])
    ensures TakeThrough(xs, brk) == xs[..i] + TakeThrough(xs[i..], brk)
  {
    if i > 0 {
      var ys := xs[1..];
      assert ys[..i - 1] == xs[1..i];
      assert ys[i - 1..] == xs[i..];
      assert forall k | 0 <= k < i - 1 :: !brk(ys[k]) by {
        forall k | 0 <= k < i - 1 ensures !brk(ys[k]) {
          assert ys[k] == xs[k + 1];
        }
      }
      TakeThroughPrefix(ys, i - 1, brk);
      assert !brk(xs[0]);
      assert TakeThrough(xs, brk) == [xs[0]] + TakeThrough(ys, brk);
      assert xs[..i] == [xs[0]] + xs[1..i];
    }
  }

  /** A loop that breaks at position `i`, after `i` calls that did not, visits `xs[..i + 1]`. */
  lemma TakeThroughBreakAt(xs: seq<nat>, i: nat, brk: nat -> bool)
    requires i < |xs| && brk(xs[i])
    requires forall k | 0 <= k < i :: !brk(xs[k])
    ensures TakeThrough(xs, brk) == xs[..i + 1]
  {
    TakeThroughPrefix(xs, i, brk);
    assert xs[i..] == [xs[i]] + xs[i + 1..];
    assert xs[..i + 1] == xs[..i] + [xs[i]];
  }

  /** A loop in which no call breaks visits everything. */
  lemma TakeThroughNoBreak(xs: seq<nat>, brk: nat -> bool)
    requires forall k | 0 <= k < |xs| :: !brk(xs[k])
    ensures TakeThrough(xs, brk) == xs
  {
    TakeThroughPrefix(xs, |xs|, brk);
    assert xs[..|xs|] == xs;
  }

  /** The four adjustments both `xEach` loops make to `option.start` and `option.limit`. */
  method AdjustWindow(length: nat, start: int, limit: Option<int>) returns (st: int, lim: int)
    ensures (st, lim) == EachWindow(length, start, limit)
    ensures st >= 0 && (lim > 0 ==> st + lim <= length)
    ensures EachIndices(length, start, limit) == if lim > 0 then Range(st, st + lim) else []
  {
    st := start;
    lim := if limit.None? then length else limit.value;
    if lim <= 0 {
      lim := length;
    }
    if st < 0 {
      st := length + st;
    }
    if st + lim > length {
      lim := lim - (st + lim - length);
    }
    if st < 0 {
      st := 0;
      lim := length;
    }
  }

  /**
   * `xEachArray`: the source's loop over a window of `length` items. `brk(i)`
   * says whether the `success` call for index `i` throws `Break`; the loop
   * then stops silently. Returns the indices `success` was called with.
   */
  method XEachArray(length: nat, start: int, limit: Option<int>, brk: nat -> bool) returns (visited: seq<nat>)
    ensures visited == TakeThrough(EachIndices(length, start, limit), brk)
  {
    var st, lim := AdjustWindow(length, start, limit);
    ghost var all := EachIndices(length, start, limit);
    assert |all| == (if lim > 0 then lim else 0);
    assert forall k | 0 <= k < |all| :: all[k] == st + k;
    visited := [];
    var i := 0;
    while i < lim
      invariant 0 <= i <= |all|
      invariant visited == all[..i]
      invariant forall k | 0 <= k < i :: !brk(all[k])
    {
      visited := visited + [(i + st) as nat];
      if brk(i + st) {
        TakeThroughBreakAt(all, i, brk);
        assert visited == all[..i + 1];
        return;
      }
      i := i + 1;
    }
    TakeThroughNoBreak(all, brk);
    assert all[..i] == all;
  }

  /**
   * `xEachObject`: the same window over `Object.keys`; `success` receives
   * the property names `keys[i]` in order.
   */
  method XEachObject(keys: seq<string>, start: int, limit: Option<int>, brk: nat -> bool) returns (visited: seq<string>)
    ensures var idx := TakeThrough(EachIndices(|keys|, start, limit), brk);
      |visited| == |idx| && forall k | 0 <= k < |idx| :: idx[k] < |keys| && visited[k] == keys[idx[k]]
  {
    var length := |keys|;
    var st, lim := AdjustWindow(length, start, limit);
    ghost var all := EachIndices(length, start, limit);
    assert |all| == (if lim > 0 then lim else 0);
    assert forall k | 0 <= k < |all| :: all[k] == st + k;
    ghost var idx: seq<nat> := [];
    visited := [];
    var i := 0;
    while i < lim
      invariant 0 <= i <= |all|
      invariant idx == all[..i]
      invariant |visited| == i && forall k | 0 <= k < i :: idx[k] < length && visited[k] == keys[idx[k]]
      invariant forall k | 0 <= k < i :: !brk(all[k])
    {
      assert all[i] == i + st < length;
      visited := visited + [keys[i + st]];
      idx := idx + [(i + st) as nat];
      if brk(i + st) {
        TakeThroughBreakAt(all, i, brk);
        assert idx == all[..i + 1];
        return;
      }
      i := i + 1;
    }
    TakeThroughNoBreak(all, brk);
    assert all[..i] == all;
  }

  /** The calls `utilTickCall` makes around an `xEach`: one `success` per visited index, then `complete`. */
  datatype Call = SuccessCall(index: nat) | CompleteCall

  /**
   * `xEach` run synchronously through `utilTickCall`: the loop, then
   * `option.complete` once, whether or not a `Break` ended the loop.
   */
  method XEach(length: nat, start: int, limit: Option<int>, brk: nat -> bool, hasComplete: bool) returns (calls: seq<Call>)
    ensures var idx := TakeThrough(EachIndices(length, start, limit), brk);
      |calls| == |idx| + (if hasComplete then 1 else 0) &&
      (forall k | 0 <= k < |idx| :: calls[k] == SuccessCall(idx[k])) &&
      (hasComplete ==> calls[|calls| - 1] == CompleteCall)
  {
    var visited := XEachArray(length, start, limit, brk);
    calls := seq(|visited|, k requires 0 <= k < |visited| => SuccessCall(visited[k]));
    if hasComplete {
      calls := calls + [CompleteCall];
    }
  }

  // ---------------------------------------------------------------------
  // xAdd: flatten into the receiver
  // ---------------------------------------------------------------------

  /** What `xAdd` appends for an argument list: arrays flattened at any depth, `undefined` dropped. */
  function Flatten(args: seq<Value>): seq<Value>
    decreases args
  {
    if args == [] then []
    else
      (if args[0].Arr? then Flatten(args[0].items)
       else if args[0].Undef? then []
       else [args[0]]) + Flatten(args[1..])
  }

  predicate Flat(xs: seq<Value>) {
    forall k | 0 <= k < |xs| :: !xs[k].Arr? && !xs[k].Undef?
  }

  lemma {:induction false} FlattenIsFlat(args: seq<Value>)
    ensures Flat(Flatten(args))
    decreases args
  {
    if args != [] {
      if args[0].Arr? {
        FlattenIsFlat(args[0].items);
      }
      FlattenIsFlat(args[1..]);
    }
  }

  lemma {:induction false} FlattenAppend(a: seq<Value>, b: seq<Value>)
    ensures Flatten(a + b) == Flatten(a) + Flatten(b)
    decreases a
  {
    if a != [] {
      assert (a + b)[0] == a[0];
      assert (a + b)[1..] == a[1..] + b;
      FlattenAppend(a[1..], b);
      var h := if a[0].Arr? then Flatten(a[0].items) else if a[0].Undef? then [] else [a[0]];
      assert Flatten(a + b) == h + Flatten(a[1..] + b);
      assert Flatten(a) == h + Flatten(a[1..]);
    } else {
      assert a + b == b;
    }
  }

  /** Flattening a list with one more argument adds that argument's share at the end. */
  lemma FlattenSnoc(xs: seq<Value>, a: Value)
    ensures Flatten(xs + [a]) == Flatten(xs) + (if a.Arr? then Flatten(a.items) else if a.Undef? then [] else [a])
  {
    FlattenAppend(xs, [a]);
    assert [a][1..] == [];
  }

  /** A list with no arrays and no `undefined` is added as it is. */
  lemma {:induction false} FlattenFlat(xs: seq<Value>)
    requires Flat(xs)
    ensures Flatten(xs) == xs
    decreases xs
  {
    if xs != [] {
      FlattenFlat(xs[1..]);
    }
  }

  /** Adding the result of an `xAdd` again adds the same items. */
  lemma FlattenIdempotent(args: seq<Value>)
    ensures Flatten(Flatten(args)) == Flatten(args)
  {
    FlattenIsFlat(args);
    FlattenFlat(Flatten(args));
  }

  /** The documented example `[].xAdd(['a'], [undefined])` is `['a']`. */
  lemma FlattenExample()
    ensures Flatten([Arr([Str("a")]), Arr([Undef])]) == [Str("a")]
  {
    assert Flatten([Arr([Undef])]) == [] by {
      assert [Arr([Undef])][1..] == [];
      assert [Undef][1..] == [];
    }
    assert [Arr([Str("a")]), Arr([Undef])][1..] == [Arr([Undef])];
    assert [Str("a")][1..] == [];
  }

  /** A JavaScript array the helpers push into. */
  class JsArray {
    var items: seq<Value>

    constructor (init: seq<Value>)
      ensures items == init
    {
      items := init;
    }

    /** `xAddArray`: push every argument, recursing into array arguments; returns the receiver. */
    method XAdd(args: seq<Value>) returns (self: JsArray)
      modifies this
      ensures self == this
      ensures items == old(items) + Flatten(args)
      decreases args
    {
      var i := 0;
      while i < |args|
        invariant 0 <= i <= |args|
        invariant items == old(items) + Flatten(args[..i])
      {
        var a := args[i];
        ghost var before := items;
        if a.Arr? {
          var _ := XAdd(a.items);
        } else if !a.Undef? {
          items := items + [a];
        }
        assert items == before + (if a.Arr? then Flatten(a.items) else if a.Undef? then [] else [a]);
        FlattenSnoc(args[..i], a);
        assert args[..i + 1] == args[..i] + [a];
        i := i + 1;
      }
      assert args[..i] == args;
      self := this;
    }
  }

  // ---------------------------------------------------------------------
  // ns: walk or create a dotted namespace path
  // ---------------------------------------------------------------------

  /** `s.split(sep)` for a one-character separator. */
  function Split(s: string, sep: char): (parts: seq<string>)
    ensures |parts| >= 1
  {
    if s == [] then [""]
    else
      var rest := Split(s[1..], sep);
      if s[0] == sep then [""] + rest else [[s[0]] + rest[0]] + rest[1..]
  }

  /** A text without the separator splits into itself alone. */
  lemma {:induction false} SplitWithoutSep(s: string, sep: char)
    requires forall i | 0 <= i < |s| :: s[i] != sep
    ensures Split(s, sep) == [s]
  {
    if s != [] {
      SplitWithoutSep(s[1..], sep);
      assert [s[0]] + s[1..] == s;
    }
  }

  /** Splitting and joining again with the same separator gives back the text. */
  lemma {:induction false} SplitJoin(s: string, sep: char)
    ensures Join(Split(s, sep), [sep]) == s
  {
    if s != [] {
      var rest := Split(s[1..], sep);
      SplitJoin(s[1..], sep);
      if s[0] == sep {
        assert Split(s, sep) == [""] + rest;
        assert ([""] + rest)[1..] == rest;
        assert Join([""] + rest, [sep]) == "" + [sep] + Join(rest, [sep]);
        assert s == [s[0]] + s[1..];
      } else {
        var parts := [[s[0]] + rest[0]] + rest[1..];
        if |rest| == 1 {
          assert parts == [[s[0]] + rest[0]];
          assert Join(rest, [sep]) == rest[0];
        } else {
          assert parts[1..] == rest[1..];
          assert Join(rest, [sep]) == rest[0] + [sep] + Join(rest[1..], [sep]);
        }
        assert s == [s[0]] + s[1..];
      }
    }
  }

  /** The value at a namespace path, if every step names an own property of an object. */
  function Resolve(node: Value, parts: seq<string>): Option<Value>
    requires |parts| >= 1
    decreases |parts|
  {
    if !node.Obj? then None
    else
      var cur := Field(node.entries, parts[0]);
      if |parts| == 1 || cur.None? then cur else Resolve(cur.value, parts[1..])
  }

  /**
   * `ns` below `node` for the split name `parts`: every missing or falsy
   * step becomes `{}`; at the last step a truthy `obj` is stored unless a
   * value is already defined there (then `ns` throws), and without `obj`
   * a missing leaf becomes `{}`. Returns the new tree and the namespace
   * node; `name` is the dotted name the error message quotes. Walking through a value that is not an object is outside the
   * model.
   */
  function NsAt(node: Value, parts: seq<string>, obj: Value, name: string): Result<(Value, Value), JsError>
    requires |parts| >= 1
    decreases |parts|
  {
    if !node.Obj? then Failure(Unsupported("namespace through a non-object"))
    else
      var p := parts[0];
      var cur := Field(node.entries, p).GetOr(Undef);
      if |parts| == 1 then
        if Truthy(obj) then
          if !cur.Undef? then Failure(Thrown("Can't overwrite '" + name + "' of defined!"))
          else Success((Obj(SetField(node.entries, p, obj)), obj))
        else if cur.Undef? then Success((Obj(SetField(node.entries, p, Obj([]))), Obj([])))
        else Success((node, cur))
      else
        var next := if Truthy(cur) then cur else Obj([]);
        var sub :- NsAt(next, parts[1..], obj, name);
        Success((Obj(SetField(node.entries, p, sub.0)), sub.1))
  }

  /** `Crisp.ns(name, obj)` on the namespace root `root`. */
  function Ns(root: Value, name: string, obj: Value): Result<(Value, Value), JsError> {
    NsAt(root, Split(name, '.'), obj, name)
  }

  /** After a successful `ns`, the returned node sits at the named path of the new tree. */
  lemma {:induction false} NsReachable(node: Value, parts: seq<string>, obj: Value, name: string)
    requires |parts| >= 1
    requires NsAt(node, parts, obj, name).Success?
    ensures var (tree, r) := NsAt(node, parts, obj, name).value; Resolve(tree, parts) == Some(r)
    decreases |parts|
  {
    var p := parts[0];
    var cur := Field(node.entries, p).GetOr(Undef);
    if |parts| > 1 {
      var next := if Truthy(cur) then cur else Obj([]);
      NsReachable(next, parts[1..], obj, name);
    }
  }

  /** `ns` with a truthy object refuses to replace a value that is already defined at the path. */
  lemma {:induction false} NsRefusesOverwrite(node: Value, parts: seq<string>, obj: Value, name: string)
    requires |parts| >= 1 && Truthy(obj)
    requires Resolve(node, parts).Some? && !Resolve(node, parts).value.Undef?
    ensures NsAt(node, parts, obj, name) == Failure(Thrown("Can't overwrite '" + name + "' of defined!"))
    decreases |parts|
  {
    var cur := Field(node.entries, parts[0]).value;
    if |parts| > 1 {
      assert Resolve(node, parts) == Resolve(cur, parts[1..]);
      assert cur.Obj? && Truthy(cur);
      NsRefusesOverwrite(cur, parts[1..], obj, name);
    }
  }

  /** Reading an existing namespace (no object given) returns it and leaves the tree as it was. */
  lemma {:induction false} NsGetExisting(node: Value, parts: seq<string>, obj: Value, name: string)
    requires |parts| >= 1 && !Truthy(obj)
    requires Resolve(node, parts).Some? && Truthy(Resolve(node, parts).value)
    ensures NsAt(node, parts, obj, name) == Success((node, Resolve(node, parts).value))
    decreases |parts|
  {
    var p := parts[0];
    var cur := Field(node.entries, p).value;
    if |parts| > 1 {
      assert Resolve(node, parts) == Resolve(cur, parts[1..]);
      assert cur.Obj? && Truthy(cur);
      NsGetExisting(cur, parts[1..], obj, name);
      SetFieldSame(node.entries, p);
      assert Obj(SetField(node.entries, p, cur)) == node;
    }
  }

  /** Writing a property with the value it already has changes nothing. */
  lemma {:induction false} SetFieldSame(entries: seq<Entry>, key: string)
    requires Field(entries, key).Some?
    ensures SetField(entries, key, Field(entries, key).value) == entries
  {
    if entries[0].key != key {
      SetFieldSame(entries[1..], key);
      assert entries == [entries[0]] + entries[1..];
    }
  }
}
