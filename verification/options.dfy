/**
 * Named options of a Crisp object (`optionName`, `optionValue`,
 * `optionIni` and the `_` accessor): an option `x` lives in the own
 * property `__x__` of the object.
 */
module Options {
  import opened Wrappers
  import opened Values

  const Separator: string := "__"

  /** `optionName`: the property that holds option `name`. */
  function OptionName(name: string): string {
    Separator + name + Separator
  }

  /** Different options never share a property. */
  lemma OptionNameInjective(a: string, b: string)
    requires OptionName(a) == OptionName(b)
    ensures a == b
  {
    assert |a| == |b|;
    assert a == OptionName(a)[2..2 + |a|];
    assert b == OptionName(b)[2..2 + |b|];
  }

  /** Unwrapping the property name gives back the option name. */
  lemma OptionNameInner(name: string)
    ensures var p := OptionName(name);
      |p| == |name| + 4 && p[..2] == "__" && p[|p| - 2..] == "__" && p[2..|p| - 2] == name
  {
  }

  /**
   * JavaScript `a + b`: concatenation as soon as one side is a string or an
   * object (which becomes a string), numeric addition otherwise. A sum that
   * would be `NaN` is outside the model.
   */
  function Plus(a: Value, b: Value): (r: Result<Value, JsError>)
    ensures a.Str? && b.Str? ==> r == Success(Str(a.s + b.s))
    ensures a.Num? && b.Num? ==> r == Success(Num(a.n + b.n))
  {
    var textual := (v: Value) => v.Str? || v.Arr? || v.Obj? || v.Regex?;
    if textual(a) || textual(b) then Success(Str(ToString(a) + ToString(b)))
    else if ToNumber(a).Some? && ToNumber(b).Some? then Success(Num(ToNumber(a).value + ToNumber(b).value))
    else Failure(Unsupported("NaN"))
  }

  /**
   * The option descriptor `_` accepts: `preset` is the default (for a
   * function preset, the value it returns), `insert` stores the default,
   * `after`/`before` are added when truthy.
   */
  datatype OptionSpec = OptionSpec(name: string, preset: Value, insert: bool, after: Value, before: Value)

  datatype OptionArg = ByName(key: string) | BySpec(spec: OptionSpec)

  /** An object with named options; `props` are its own properties. */
  class OptionHost {
    var props: map<string, Value>

    constructor (init: map<string, Value>)
      ensures props == init
    {
      props := init;
    }

    /** `this[name]` for an own property, `undefined` otherwise. */
    function Read(name: string): Value
      reads this
    {
      if name in props then props[name] else Undef
    }

    /** `optionValue`: writes an option that must already be an own property, and throws otherwise. */
    method OptionValue(name: string, value: Value) returns (r: Result<(), JsError>)
      modifies this
      ensures r.Failure? <==> name !in old(props)
      ensures props == if r.Success? then old(props)[name := value] else old(props)
    {
      if name !in props {
        return Failure(Thrown("set Option: Property '" + name + "' not defined!"));
      }
      props := props[name := value];
      r := Success(());
    }

    /**
     * `optionIni`: the current value, or when it is `undefined` the preset,
     * stored first if `insert` is set.
     */
    method OptionIni(name: string, option: OptionSpec) returns (r: Result<Value, JsError>)
      modifies this
      ensures !old(Read(name)).Undef? ==> r == Success(old(Read(name))) && props == old(props)
      ensures old(Read(name)).Undef? && !option.insert ==> r == Success(option.preset) && props == old(props)
      ensures old(Read(name)).Undef? && option.insert ==>
        (r.Failure? <==> name !in old(props)) &&
        (r.Success? ==> r.value == option.preset && props == old(props)[name := option.preset]) &&
        (r.Failure? ==> props == old(props))
    {
      var value := Read(name);
      if value.Undef? {
        value := option.preset;
        if option.insert {
          var _ :- OptionValue(name, value);
        }
      }
      r := Success(value);
    }

    /**
     * `_`: a string reads option `key`. A descriptor initialises the
     * option, then stores `value + after` while still returning `value`,
     * then stores and returns `value + before`.
     */
    method Underscore(arg: OptionArg) returns (r: Result<Value, JsError>)
      modifies this
      ensures arg.ByName? ==> r == Success(old(Read(OptionName(arg.key)))) && props == old(props)
      ensures arg.BySpec? ==>
        props.Keys == old(props).Keys &&
        forall other | other in old(props) && other != OptionName(arg.spec.name) :: props[other] == old(props)[other]
      ensures arg.BySpec? ==>
        var name, spec := OptionName(arg.spec.name), arg.spec;
        var v0 := if old(Read(name)).Undef? then spec.preset else old(Read(name));
        var after, before := Plus(v0, spec.after), Plus(v0, spec.before);
        // the option is not an own property and something has to be stored, or an addition has no result
        (r.Failure? <==>
          (name !in old(props) && (spec.insert || Truthy(spec.after) || Truthy(spec.before))) ||
          (Truthy(spec.after) && after.Failure?) || (Truthy(spec.before) && before.Failure?)) &&
        (r.Success? ==> r.value == if Truthy(spec.before) then before.value else v0) &&
        // what the option holds afterwards, also when a later step threw
        (name in old(props) ==>
          props[name] ==
            if Truthy(spec.before) && r.Success? then r.value
            else if Truthy(spec.after) && after.Success? then after.value
            else if old(Read(name)).Undef? && spec.insert then spec.preset
            else old(props)[name])
    {
      if arg.ByName? {
        return Success(Read(OptionName(arg.key)));
      }
      var option := arg.spec;
      var name := OptionName(option.name);
      var value :- OptionIni(name, option);
      if Truthy(option.after) {
        var sum :- Plus(value, option.after);
        var _ :- OptionValue(name, sum);
      }
      if Truthy(option.before) {
        value :- Plus(value, option.before);
        var _ :- OptionValue(name, value);
      }
      r := Success(value);
    }
  }
}
