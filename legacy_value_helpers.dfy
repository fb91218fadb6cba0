/** The older copy of the defaulting helpers (lib/facter/helper/check_value_string.rb).
    It tests `val.empty?` before `val.nil?`, so nil raises NoMethodError
    before the nil test is reached. */
module LegacyValueHelpers {
  import opened RubyValues
  import ValueHelpers

  /** `check_value(val, default)`: nil raises; "" and {} give the default;
      a nonempty String or Hash is returned unchanged. */
  function CheckValue(val: Value, default: Value): (r: Outcome<Value>)
    ensures val == Nil ==> r == Raised(NoMethodError("empty?", Nil))
    ensures val == Str("") || val == Hash(map[]) ==> r == Returned(default)
    ensures ValueHelpers.Filled(val) ==> r == Returned(val)
    ensures r.Raised? <==> !(val.Str? || val.Hash?)
  {
    match IsEmpty(val)
    case Raised(e) => Raised(e)
    case Returned(empty) => if empty || val == Nil then Returned(default) else Returned(val)
  }

  /** `check_value_boolean(val, default)` of the older copy: nil raises; ""
      and {} give the default; a nonempty value gives false when the default
      is `true` and true otherwise. */
  function CheckValueBoolean(val: Value, default: Value): (r: Outcome<Value>)
    ensures val == Nil ==> r == Raised(NoMethodError("empty?", Nil))
    ensures val == Str("") || val == Hash(map[]) ==> r == Returned(default)
    ensures ValueHelpers.Filled(val) ==> r == Returned(Bool(default != Bool(true)))
    ensures r.Raised? <==> !(val.Str? || val.Hash?)
  {
    var ret := if default == Bool(true) then Bool(false) else Bool(true);
    match IsEmpty(val)
    case Raised(e) => Raised(e)
    case Returned(empty) => if empty || val == Nil then Returned(default) else Returned(ret)
  }

  /** On every value except nil the two copies of the string helper agree. */
  lemma CheckValueAgreesExceptNil(val: Value, default: Value)
    requires val != Nil
    ensures CheckValue(val, default) == ValueHelpers.CheckValueString(val, default)
  {
  }

  /** On nil they differ: the newer copy returns the default, the older one raises. */
  lemma CheckValueNilDiffers(default: Value)
    ensures ValueHelpers.CheckValueString(Nil, default) == Returned(default)
    ensures CheckValue(Nil, default).Raised?
  {
  }

  /** The two copies of the boolean helper agree on every value except nil. */
  lemma CheckValueBooleanAgreesExceptNil(val: Value, default: Value)
    requires val != Nil
    ensures CheckValueBoolean(val, default) == ValueHelpers.CheckValueBoolean(val, default)
  {
  }
}
