/** Ruby run-time values, exceptions and the few core methods (`empty?`,
    `strip`, `||`, `Array#[]`) that the syslog fact and its helpers rely on. */
module RubyValues {

  /** A Ruby value as far as the fact uses one: nil, true/false, a String, a
      Hash with String keys, or the MatchData that `String#match` returns
      (its capture groups, group 1 first). */
  datatype Value =
    | Nil
    | Bool(b: bool)
    | Str(s: string)
    | Hash(entries: map<string, Value>)
    | MatchData(captures: seq<string>)

  /** The exceptions the modelled code can raise: a method called on a
      receiver that does not define it, or an unknown constant. */
  datatype RubyError =
    | NoMethodError(name: string, receiver: Value)
    | NameError(constant: string)

  /** What evaluating a Ruby expression does: return a value or raise. */
  datatype Outcome<+T> = Returned(value: T) | Raised(error: RubyError)

  /** `v.empty?`: String and Hash answer it; any other receiver raises NoMethodError. */
  function IsEmpty(v: Value): (r: Outcome<bool>)
    ensures r.Returned? <==> v.Str? || v.Hash?
    ensures v.Str? ==> r == Returned(v.s == "")
    ensures v.Hash? ==> r == Returned(v.entries == map[])
    ensures r.Raised? ==> r.error == NoMethodError("empty?", v)
  {
    match v
    case Str(s) => Returned(|s| == 0)
    case Hash(m) => Returned(|m| == 0)
    case _ => Raised(NoMethodError("empty?", v))
  }

  /** Ruby truthiness: everything except nil and false. */
  predicate Truthy(v: Value) {
    v != Nil && v != Bool(false)
  }

  /** `a || b`: the left operand when it is truthy, the right one otherwise. */
  function Or(a: Value, b: Value): (r: Value)
    ensures Truthy(r) <==> Truthy(a) || Truthy(b)
    ensures r == a || r == b
    ensures a.Bool? && b.Bool? ==> r == Bool(a.b || b.b)
  {
    if Truthy(a) then a else b
  }

  /** The characters the regular expression class `\s` matches: space, tab,
      line feed, vertical tab, form feed, carriage return. */
  predicate IsSpace(c: char) {
    c == ' ' || c == '\t' || c == '\n' || c == '\U{0B}' || c == '\U{0C}' || c == '\r'
  }

  /** The characters `String#strip` removes: the `\s` characters and NUL. */
  predicate IsStripped(c: char) {
    IsSpace(c) || c == '\0'
  }

  /** Leading strippable characters removed: the result is the suffix of `s`
      that starts at its first character `strip` keeps. */
  function StripLeft(s: string): (r: string)
    ensures |r| <= |s| && r == s[|s| - |r|..]
    ensures r == [] || !IsStripped(r[0])
    ensures forall k :: 0 <= k < |s| - |r| ==> IsStripped(s[k])
  {
    if s != [] && IsStripped(s[0]) then
      var r := StripLeft(s[1..]);
      assert forall k :: 1 <= k < |s| ==> s[k] == s[1..][k - 1];
      assert s[1..][|s| - 1 - |r|..] == s[|s| - |r|..];
      r
    else s
  }

  /** Trailing strippable characters removed: the result is the prefix of `s`
      that ends at its last character `strip` keeps. */
  function StripRight(s: string): (r: string)
    ensures |r| <= |s| && r == s[..|r|]
    ensures r == [] || !IsStripped(r[|r| - 1])
    ensures forall k :: |r| <= k < |s| ==> IsStripped(s[k])
  {
    if s != [] && IsStripped(s[|s| - 1]) then
      var r := StripRight(s[..|s| - 1]);
      assert forall k :: 0 <= k < |s| - 1 ==> s[k] == s[..|s| - 1][k];
      assert s[..|s| - 1][..|r|] == s[..|r|];
      r
    else s
  }

  /** `String#strip` on the contents of a String: a slice of `s` with only
      strippable characters cut off around it, and none left at either end. */
  function Strip(s: string): (r: string)
    ensures |r| <= |s|
    ensures exists i, j :: 0 <= i <= j <= |s| && r == s[i..j] &&
              (forall k :: (0 <= k < i || j <= k < |s|) ==> IsStripped(s[k]))
    ensures r == [] || (!IsStripped(r[0]) && !IsStripped(r[|r| - 1]))
    ensures (forall k :: 0 <= k < |s| ==> !IsStripped(s[k])) ==> r == s
  {
    var left := StripLeft(s);
    var r := StripRight(left);
    PrefixOfSuffix(s, left, r);
    StripRemovesTail(s, left, r);
    r
  }

  /** A prefix of a suffix of `s` is a slice of `s`. */
  lemma PrefixOfSuffix(s: string, left: string, r: string)
    requires |left| <= |s| && left == s[|s| - |left|..]
    requires |r| <= |left| && r == left[..|r|]
    ensures r == s[|s| - |left|..|s| - |left| + |r|]
  {
    var i := |s| - |left|;
    forall k | 0 <= k < |r|
      ensures r[k] == s[i + k]
    {
      assert r[k] == left[k];
    }
  }

  /** Everything `Strip` cuts off after its result is strippable. */
  lemma StripRemovesTail(s: string, left: string, r: string)
    requires left == StripLeft(s) && r == StripRight(left)
    ensures |s| - |left| + |r| <= |s|
    ensures forall k :: |s| - |left| + |r| <= k < |s| ==> IsStripped(s[k])
  {
    var i := |s| - |left|;
    assert left == s[i..];
    forall k | i + |r| <= k < |s|
      ensures IsStripped(s[k])
    {
      assert s[k] == left[k - i];
    }
  }

  /** `v.strip`: defined on String only; nil and MatchData raise NoMethodError. */
  function RubyStrip(v: Value): (r: Outcome<Value>)
    ensures r.Returned? <==> v.Str?
    ensures v.Str? ==> r == Returned(Str(Strip(v.s)))
    ensures r.Raised? ==> r.error == NoMethodError("strip", v)
  {
    if v.Str? then Returned(Str(Strip(v.s))) else Raised(NoMethodError("strip", v))
  }

  /** `a[i]` on an Array of Strings: the element, or nil past the end. */
  function At(a: seq<string>, i: nat): (r: Value)
    ensures r.Nil? <==> |a| <= i
    ensures i < |a| ==> r == Str(a[i])
  {
    if i < |a| then Str(a[i]) else Nil
  }
}
