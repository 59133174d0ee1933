/**
 * JavaScript values as the query engine sees them: the data it walks, the
 * literals of a query, and the payloads its listeners receive.
 */
module Values {
  import opened Wrappers

  /** One own property of an object; an object keeps its keys in enumeration order. */
  datatype Entry = Entry(key: string, val: Value)

  datatype Value =
    | Undef
    | Null
    | Bool(b: bool)
    | Num(n: int)
    | Str(s: string)
    | Arr(items: seq<Value>)
    | Obj(entries: seq<Entry>)
    | Regex(source: string, flags: string)

  /** The exceptions the modelled code can raise. */
  datatype JsError =
    | TypeError(what: string)       // property access on undefined/null, calling a non-function
    | Thrown(message: string)       // an `Error` the code throws on purpose
    | SyntaxError(what: string)     // `new RegExp` with an invalid flag string
    | StackOverflow                 // the host's RangeError on unbounded recursion
    | Unsupported(what: string)     // host behaviour this model leaves out
    | Wrapped(inner: JsError)       // `new Error(err)`: a plain `Error` whose message is the text of `err`

  /** JavaScript truthiness (ToBoolean). */
  predicate Truthy(v: Value) {
    match v
    case Undef => false
    case Null => false
    case Bool(b) => b
    case Num(n) => n != 0
    case Str(s) => s != []
    case _ => true
  }

  /** `Number(v)` for the values whose conversion is an integer; others are outside the model. */
  function ToNumber(v: Value): Option<int> {
    match v
    case Num(n) => Some(n)
    case Bool(b) => Some(if b then 1 else 0)
    case Null => Some(0)
    case _ => None
  }

  /** The trigger option `{action: 'success', args: v}` that a listener receives in place of a falsy payload. */
  function EventRecord(v: Value): Value {
    Obj([Entry("action", Str("success")), Entry("args", v)])
  }

  /**
   * What a listener's first parameter is when an event carries payload `v`:
   * `utilTickCall` takes `opt.args || opt` and spreads it with `[].concat`.
   */
  function Deliver(v: Value): Value {
    var args := if Truthy(v) then v else EventRecord(v);
    if args.Arr? then (if |args.items| > 0 then args.items[0] else Undef) else args
  }

  /** A falsy payload never reaches a listener as a falsy value: it arrives as the truthy event record. */
  lemma DeliverFalsy(v: Value)
    requires !Truthy(v)
    ensures Deliver(v) == EventRecord(v) && Truthy(Deliver(v))
  {
  }

  /** A truthy payload that is not an array reaches the listener unchanged. */
  lemma DeliverTruthyScalar(v: Value)
    requires Truthy(v) && !v.Arr?
    ensures Deliver(v) == v
  {
  }

  predicate IsDigit(c: char) { '0' <= c <= '9' }

  predicate AllDigits(s: string) { forall i | 0 <= i < |s| :: IsDigit(s[i]) }

  function DigitChar(d: nat): (c: char)
    requires d < 10
    ensures IsDigit(c) && (c as int) - ('0' as int) == d
  {
    "0123456789"[d]
  }

  /** Decimal spelling of a natural number, as `String(n)` writes it. */
  function NatToString(n: nat): (s: string)
    ensures |s| > 0 && AllDigits(s)
    ensures s[0] == '0' ==> n == 0
  {
    if n < 10 then [DigitChar(n)] else NatToString(n / 10) + [DigitChar(n % 10)]
  }

  /** The value of a run of decimal digits, as `Number(s)` reads it. */
  function DigitsValue(s: string): nat
    requires AllDigits(s)
  {
    if s == [] then 0 else DigitsValue(s[..|s| - 1]) * 10 + ((s[|s| - 1] as int) - ('0' as int))
  }

  lemma {:induction false} DigitsValueOfNatToString(n: nat)
    ensures DigitsValue(NatToString(n)) == n
  {
    if n >= 10 {
      var s := NatToString(n);
      assert s[..|s| - 1] == NatToString(n / 10);
      DigitsValueOfNatToString(n / 10);
    }
  }

  function IntToString(i: int): string {
    if i < 0 then "-" + NatToString(-i) else NatToString(i)
  }

  function Join(parts: seq<string>, sep: string): string {
    if |parts| == 0 then "" else if |parts| == 1 then parts[0] else parts[0] + sep + Join(parts[1..], sep)
  }

  /** `String(v)`: how a value becomes a property key or the text a regular expression is matched against. */
  function ToString(v: Value): string {
    match v
    case Undef => "undefined"
    case Null => "null"
    case Bool(b) => if b then "true" else "false"
    case Num(n) => IntToString(n)
    case Str(s) => s
    case Arr(xs) =>
      Join(seq(|xs|, i requires 0 <= i < |xs| =>
        if xs[i].Undef? || xs[i].Null? then "" else ToString(xs[i])), ",")
    case Obj(_) => "[object Object]"
    case Regex(src, flags) => "/" + src + "/" + flags
  }

  /** An array index key: the canonical decimal spelling of a natural number. */
  predicate CanonicalIndex(key: string) {
    |key| > 0 && AllDigits(key) && (key[0] == '0' ==> key == "0")
  }

  lemma NatToStringIsIndex(n: nat)
    ensures CanonicalIndex(NatToString(n))
  {
  }

  /** The first own property named `key`, if any. */
  function Field(entries: seq<Entry>, key: string): (r: Option<Value>)
    ensures r.Some? <==> exists i | 0 <= i < |entries| :: entries[i].key == key
    ensures r.Some? ==> exists i | 0 <= i < |entries| :: entries[i].key == key && entries[i].val == r.value
  {
    if entries == [] then None
    else if entries[0].key == key then Some(entries[0].val)
    else
      var r := Field(entries[1..], key);
      assert forall i | 1 <= i < |entries| :: entries[i] == entries[1..][i - 1];
      r
  }

  /** `entries[key] = v`: an existing property keeps its place, a new one goes last. */
  function SetField(entries: seq<Entry>, key: string, v: Value): (r: seq<Entry>)
    ensures Field(r, key) == Some(v)
    ensures forall other | other != key :: Field(r, other) == Field(entries, other)
  {
    if entries == [] then [Entry(key, v)]
    else if entries[0].key == key then [Entry(key, v)] + entries[1..]
    else
      var r := [entries[0]] + SetField(entries[1..], key, v);
      assert r[1..] == SetField(entries[1..], key, v);
      r
  }

  /**
   * `node[key]`: reading a property fails on `undefined` and `null`; arrays
   * and strings answer `length` and their indices; objects their own keys.
   */
  function Get(node: Value, key: string): (r: Result<Value, JsError>)
    ensures r.Failure? <==> node.Undef? || node.Null?
  {
    match node
    case Undef => Failure(TypeError("property of undefined"))
    case Null => Failure(TypeError("property of null"))
    case Arr(xs) =>
      if key == "length" then Success(Num(|xs|))
      else if CanonicalIndex(key) && DigitsValue(key) < |xs| then Success(xs[DigitsValue(key)])
      else Success(Undef)
    case Str(s) =>
      if key == "length" then Success(Num(|s|))
      else if CanonicalIndex(key) && DigitsValue(key) < |s| then Success(Str([s[DigitsValue(key)]]))
      else Success(Undef)
    case Obj(es) => Success(Field(es, key).GetOr(Undef))
    case _ => Success(Undef)
  }

  /** Reading index `i` of an array by its decimal key finds element `i`; past the end it finds `undefined`. */
  lemma GetArrayIndex(xs: seq<Value>, i: nat)
    ensures Get(Arr(xs), NatToString(i)) == Success(if i < |xs| then xs[i] else Undef)
  {
    DigitsValueOfNatToString(i);
    NatToStringIsIndex(i);
    var k := NatToString(i);
    assert k != "length" by { assert IsDigit(k[0]); }
  }

  /** The property values of an object, in key order. */
  function EntryValues(es: seq<Entry>): (r: seq<Value>)
    ensures |r| == |es| && forall i | 0 <= i < |es| :: r[i] == es[i].val
  {
    if es == [] then [] else [es[0].val] + EntryValues(es[1..])
  }

  /**
   * The children `xEach` visits: array elements, object property values,
   * the characters of a (boxed) string; other values have none. Iterating
   * `undefined` or `null` fails.
   */
  function Items(v: Value): (r: Result<seq<Value>, JsError>)
    ensures r.Failure? <==> v.Undef? || v.Null?
    ensures v.Arr? ==> r == Success(v.items)
    ensures v.Obj? ==> r.Success? && |r.value| == |v.entries|
    ensures v.Str? ==> r.Success? && |r.value| == |v.s|
  {
    match v
    case Undef => Failure(TypeError("xEach of undefined"))
    case Null => Failure(TypeError("xEach of null"))
    case Arr(xs) => Success(xs)
    case Obj(es) => Success(EntryValues(es))
    case Str(s) => Success(seq(|s|, i requires 0 <= i < |s| => Str([s[i]])))
    case _ => Success([])
  }

  /** A size that shrinks from a value to each of its elements, for termination arguments. */
  function ValueSize(v: Value): (n: nat)
    ensures n >= 1
  {
    match v
    case Arr(xs) => 1 + ItemsSize(xs)
    case Obj(es) => 1 + EntriesSize(es)
    case _ => 1
  }

  function ItemsSize(xs: seq<Value>): nat {
    if xs == [] then 0 else ValueSize(xs[0]) + ItemsSize(xs[1..])
  }

  function EntriesSize(es: seq<Entry>): nat {
    if es == [] then 0 else ValueSize(es[0].val) + EntriesSize(es[1..])
  }

  lemma {:induction false} EntryValuesSize(es: seq<Entry>)
    ensures ItemsSize(EntryValues(es)) == EntriesSize(es)
  {
    if es != [] {
      assert EntryValues(es)[1..] == EntryValues(es[1..]);
      EntryValuesSize(es[1..]);
    }
  }

  /** The elements `xEach` visits in an array or object are smaller than the container. */
  lemma ItemsShrink(v: Value)
    requires v.Arr? || v.Obj?
    ensures Items(v).Success? && ItemsSize(Items(v).value) < ValueSize(v)
  {
    if v.Obj? {
      EntryValuesSize(v.entries);
    }
  }
}
