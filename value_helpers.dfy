/** The value-defaulting helpers the syslog fact calls
    (lib/facter/security_baseline_syslog/helpers/check_value_string.rb):
    substitute a default for a missing or empty value. */
module ValueHelpers {
  import opened RubyValues

  /** The values whose `empty?` answers true: "", {} (and nil, which the
      helpers test with `nil?` first). */
  predicate Blank(v: Value) {
    v == Nil || v == Str("") || v == Hash(map[])
  }

  /** The values whose `empty?` answers false: a nonempty String or Hash. */
  predicate Filled(v: Value) {
    (v.Str? && v.s != "") || (v.Hash? && v.entries != map[])
  }

  /** `check_value_string(val, default)`: the default for nil or an empty
      value, the value itself, untrimmed, otherwise; a receiver without
      `empty?` (true, false, MatchData) raises NoMethodError. */
  function CheckValueString(val: Value, default: Value): (r: Outcome<Value>)
    ensures Blank(val) ==> r == Returned(default)
    ensures Filled(val) ==> r == Returned(val)
    ensures !Blank(val) && !Filled(val) ==> r == Raised(NoMethodError("empty?", val))
  {
    if val == Nil then Returned(default)
    else
      match IsEmpty(val)
      case Raised(e) => Raised(e)
      case Returned(empty) => if empty then Returned(default) else Returned(val)
  }

  /** `check_value_boolean(val, default)`: the default for nil or an empty
      value; otherwise false when the default is `true` and true for every
      other default (false, nil, a String, ...). */
  function CheckValueBoolean(val: Value, default: Value): (r: Outcome<Value>)
    ensures Blank(val) ==> r == Returned(default)
    ensures Filled(val) ==> r.Returned? && r.value.Bool? && (r.value.b <==> default != Bool(true))
    ensures !Blank(val) && !Filled(val) ==> r == Raised(NoMethodError("empty?", val))
  {
    var ret := if default == Bool(true) then Bool(false) else Bool(true);
    if val == Nil then Returned(default)
    else
      match IsEmpty(val)
      case Raised(e) => Raised(e)
      case Returned(empty) => if empty then Returned(default) else Returned(ret)
  }

  /** Substituting a default that is itself filled is idempotent: a second
      application changes nothing. */
  lemma CheckValueStringIdempotent(val: Value, default: Value)
    requires Filled(default)
    requires CheckValueString(val, default).Returned?
    ensures CheckValueString(CheckValueString(val, default).value, default)
         == CheckValueString(val, default)
  {
  }

  /** With a nonempty String default, the result for nil or any String is a
      nonempty String. */
  lemma CheckValueStringNeverEmpty(val: Value, default: string)
    requires val.Nil? || val.Str?
    requires default != ""
    ensures CheckValueString(val, Str(default)).Returned?
    ensures CheckValueString(val, Str(default)).value.Str?
    ensures CheckValueString(val, Str(default)).value.s != ""
  {
  }

  /** For a boolean default and a nonempty value the result is the negated default. */
  lemma CheckValueBooleanNegates(val: Value, default: bool)
    requires Filled(val)
    ensures CheckValueBoolean(val, Bool(default)) == Returned(Bool(!default))
  {
  }
}
