/** `String#split(/\s+/)`: the pieces of a string between runs of `\s`
    characters, keeping a leading empty piece and dropping trailing ones. */
module RubySplit {
  import opened RubyValues

  /** No `\s` character in `w`. */
  predicate NoSpace(w: string) {
    forall k :: 0 <= k < |w| ==> !IsSpace(w[k])
  }

  /** Every character of `s` is a `\s` character (vacuously so for ""). */
  predicate AllSpace(s: string) {
    forall k :: 0 <= k < |s| ==> IsSpace(s[k])
  }

  /** `s` without its leading run of `\s` characters. */
  function DropSpace(s: string): (r: string)
    ensures |r| <= |s| && r == s[|s| - |r|..]
    ensures r == [] || !IsSpace(r[0])
    ensures forall k :: 0 <= k < |s| - |r| ==> IsSpace(s[k])
  {
    if s != [] && IsSpace(s[0]) then
      var r := DropSpace(s[1..]);
      assert forall k :: 1 <= k < |s| ==> s[k] == s[1..][k - 1];
      assert s[1..][|s| - 1 - |r|..] == s[|s| - |r|..];
      r
    else s
  }

  /** The pieces of `s` around each maximal run of `\s` characters, before
      trailing empty pieces are dropped: there is always at least one piece,
      the first is empty exactly when `s` is empty or starts with a space,
      the last exactly when `s` is empty or ends with one, and the pieces in
      between are never empty. */
  function RawFields(s: string): (r: seq<string>)
    ensures |r| >= 1
    ensures forall i :: 0 <= i < |r| ==> NoSpace(r[i])
    ensures forall i :: 0 < i < |r| - 1 ==> r[i] != []
    ensures r[0] == [] <==> s == [] || IsSpace(s[0])
    ensures r[|r| - 1] == [] <==> s == [] || IsSpace(s[|s| - 1])
    decreases |s|
  {
    if s == [] then [[]]
    else if IsSpace(s[0]) then [[]] + RawFields(DropSpace(s))
    else
      var rest := RawFields(s[1..]);
      [[s[0]] + rest[0]] + rest[1..]
  }

  /** `fs` without its trailing empty pieces. */
  function DropTrailingEmpty(fs: seq<string>): (r: seq<string>)
    ensures |r| <= |fs| && r == fs[..|r|]
    ensures r == [] || r[|r| - 1] != []
    ensures forall i :: |r| <= i < |fs| ==> fs[i] == []
  {
    if fs != [] && fs[|fs| - 1] == [] then DropTrailingEmpty(fs[..|fs| - 1]) else fs
  }

  /** `s.split(/\s+/)`. No field holds a space; only the first field can be
      empty, and it is empty exactly when `s` starts with a space and holds
      something else; a string of spaces, "" included, has no fields. */
  function Split(s: string): (r: seq<string>)
    ensures forall i :: 0 <= i < |r| ==> NoSpace(r[i])
    ensures forall i :: 0 < i < |r| ==> r[i] != []
    ensures r == [] <==> AllSpace(s)
    ensures r != [] ==> (r[0] == [] <==> IsSpace(s[0]))
  {
    var r := DropTrailingEmpty(RawFields(s));
    assert r == [] ==> AllSpace(s) by {
      if r == [] { RawFieldsAllEmpty(s); }
    }
    assert !AllSpace(s) ==> r != [] && (r[0] == [] <==> IsSpace(s[0])) by {
      if !AllSpace(s) { RawFieldsFirstNonSpace(s); }
    }
    assert AllSpace(s) ==> r == [] by {
      if AllSpace(s) && s != [] {
        var t := DropSpace(s);
        assert t == [];
        assert RawFields(s) == [[], []];
      }
    }
    r
  }

  /** A word as `Split` returns it: nonempty, no spaces. */
  predicate IsWord(w: string) {
    w != [] && NoSpace(w)
  }

  /** What `Split` treats as one separator: a nonempty run of `\s` characters. */
  predicate IsSeparator(sep: string) {
    sep != [] && AllSpace(sep)
  }

  /** The words `ws` with `seps[i]` between `ws[i]` and `ws[i + 1]`. */
  function JoinWith(ws: seq<string>, seps: seq<string>): (r: string)
    requires |ws| >= 1 && |seps| == |ws| - 1
    ensures ws[0] != [] ==> r != [] && r[0] == ws[0][0]
    decreases |ws|
  {
    if |ws| == 1 then ws[0]
    else ws[0] + seps[0] + JoinWith(ws[1..], seps[1..])
  }

  /** When every raw field of `s` is empty, `s` is all spaces. */
  lemma {:induction false} RawFieldsAllEmpty(s: string)
    requires DropTrailingEmpty(RawFields(s)) == []
    ensures AllSpace(s)
    decreases |s|
  {
    var raw := RawFields(s);
    assert forall i :: 0 <= i < |raw| ==> raw[i] == [];
    if s != [] {
      assert IsSpace(s[0]);
      assert DropSpace(s) == [];
    }
  }

  /** A string with a character outside `\s` keeps a field after trailing
      empty fields are dropped, and its first field is empty exactly when
      it starts with a space. */
  lemma {:induction false} RawFieldsFirstNonSpace(s: string)
    requires !AllSpace(s)
    ensures DropTrailingEmpty(RawFields(s)) != []
    ensures DropTrailingEmpty(RawFields(s))[0] == [] <==> IsSpace(s[0])
    decreases |s|
  {
    var raw := RawFields(s);
    var k :| 0 <= k < |s| && !IsSpace(s[k]);
    if IsSpace(s[0]) {
      var t := DropSpace(s);
      assert t != [] by {
        assert k >= |s| - |t|;
      }
      assert raw[1] == RawFields(t)[0] != [];
      assert |raw| >= 2;
      var r := DropTrailingEmpty(raw);
      assert |r| >= 2;
    } else {
      assert raw[0] != [];
    }
  }

  /** Raw fields of a word followed by a string that is empty or starts with
      a space: the word is the first field, the rest is split as before. */
  lemma {:induction false} RawFieldsWordThen(w: string, t: string)
    requires IsWord(w)
    requires t == [] || IsSpace(t[0])
    ensures RawFields(w + t) == [w] + RawFields(t)[1..]
    decreases |w|
  {
    var s := w + t;
    assert s[0] == w[0] && s[1..] == w[1..] + t;
    if |w| == 1 {
      assert s[1..] == t;
      assert RawFields(t)[0] == [];
      assert [w[0]] + RawFields(t)[0] == w;
    } else {
      RawFieldsWordThen(w[1..], t);
      assert [w[0]] + w[1..] == w;
    }
  }

  /** Dropping a leading run of spaces in front of a string that does not
      start with a space leaves exactly that string. */
  lemma {:induction false} DropSpacePrefix(sp: string, rest: string)
    requires AllSpace(sp)
    requires rest == [] || !IsSpace(rest[0])
    ensures DropSpace(sp + rest) == rest
    decreases |sp|
  {
    if sp == [] {
      assert sp + rest == rest;
    } else {
      assert (sp + rest)[1..] == sp[1..] + rest;
      DropSpacePrefix(sp[1..], rest);
    }
  }

  /** A separator in front of a string that does not start with a space adds
      an empty first field. */
  lemma RawFieldsAfterSeparator(sep: string, rest: string)
    requires IsSeparator(sep)
    requires rest == [] || !IsSpace(rest[0])
    ensures RawFields(sep + rest) == [[]] + RawFields(rest)
  {
    DropSpacePrefix(sep, rest);
  }

  /** Raw fields of one word followed by whitespace: the word, then one
      empty field when there is trailing whitespace. */
  lemma RawFieldsWordTrail(w: string, trail: string)
    requires IsWord(w) && AllSpace(trail)
    ensures RawFields(w + trail) == [w] + (if trail == [] then [] else [[]])
  {
    RawFieldsWordThen(w, trail);
    if trail != [] {
      RawFieldsOfSpace(trail);
    }
  }

  /** A nonempty run of spaces has two empty raw fields, before and after it. */
  lemma RawFieldsOfSpace(sp: string)
    requires IsSeparator(sp)
    ensures RawFields(sp) == [[], []]
  {
    DropSpacePrefix(sp, []);
    assert sp + [] == sp;
  }

  /** A word, a separator, then a string that starts with a word: the first
      word is the first field and the rest is split on its own. */
  lemma RawFieldsWordSeparator(w: string, sep: string, rest: string)
    requires IsWord(w) && IsSeparator(sep)
    requires rest != [] && !IsSpace(rest[0])
    ensures RawFields(w + sep + rest) == [w] + RawFields(rest)
  {
    assert w + sep + rest == w + (sep + rest);
    RawFieldsWordThen(w, sep + rest);
    RawFieldsAfterSeparator(sep, rest);
  }

  /** Raw fields of separated words followed by whitespace: the words, then
      one empty field when there is trailing whitespace. */
  lemma {:induction false} RawFieldsJoinWith(ws: seq<string>, seps: seq<string>, trail: string)
    requires |ws| >= 1 && |seps| == |ws| - 1
    requires forall i :: 0 <= i < |ws| ==> IsWord(ws[i])
    requires forall i :: 0 <= i < |seps| ==> IsSeparator(seps[i])
    requires AllSpace(trail)
    ensures RawFields(JoinWith(ws, seps) + trail) == ws + (if trail == [] then [] else [[]])
    decreases |ws|
  {
    if |ws| == 1 {
      RawFieldsWordTrail(ws[0], trail);
      assert ws == [ws[0]];
    } else {
      var tail := ws[1..];
      var rest := JoinWith(tail, seps[1..]) + trail;
      assert ws == [ws[0]] + tail;
      assert IsWord(tail[0]);
      RawFieldsJoinWith(tail, seps[1..], trail);
      assert JoinWith(ws, seps) + trail == ws[0] + seps[0] + rest;
      RawFieldsWordSeparator(ws[0], seps[0], rest);
    }
  }

  /** Empty fields after a nonempty last field are exactly what
      `DropTrailingEmpty` removes. */
  lemma DropTrailingEmptyKeeps(fs: seq<string>, extra: seq<string>)
    requires fs != [] && fs[|fs| - 1] != []
    requires forall i :: 0 <= i < |extra| ==> extra[i] == []
    ensures DropTrailingEmpty(fs + extra) == fs
  {
    var all := fs + extra;
    assert all[|fs| - 1] == fs[|fs| - 1];
    assert forall i :: |fs| <= i < |all| ==> all[i] == extra[i - |fs|];
    assert all[..|fs|] == fs;
  }

  /** `split(/\s+/)` on words separated by runs of whitespace of any length,
      with optional whitespace before and after: exactly the words, behind
      one empty field when there is leading whitespace. */
  lemma SplitJoinWith(lead: string, ws: seq<string>, seps: seq<string>, trail: string)
    requires AllSpace(lead) && AllSpace(trail)
    requires |ws| >= 1 && |seps| == |ws| - 1
    requires forall i :: 0 <= i < |ws| ==> IsWord(ws[i])
    requires forall i :: 0 <= i < |seps| ==> IsSeparator(seps[i])
    ensures Split(lead + JoinWith(ws, seps) + trail) == (if lead == [] then ws else [[]] + ws)
  {
    var body := JoinWith(ws, seps) + trail;
    assert lead + JoinWith(ws, seps) + trail == lead + body;
    if lead == [] {
      assert lead + body == body;
      SplitWordsTrail(ws, seps, trail);
    } else {
      SplitSpaceWordsTrail(lead, ws, seps, trail);
    }
  }

  /** `SplitJoinWith` without leading whitespace. */
  lemma SplitWordsTrail(ws: seq<string>, seps: seq<string>, trail: string)
    requires AllSpace(trail)
    requires |ws| >= 1 && |seps| == |ws| - 1
    requires forall i :: 0 <= i < |ws| ==> IsWord(ws[i])
    requires forall i :: 0 <= i < |seps| ==> IsSeparator(seps[i])
    ensures Split(JoinWith(ws, seps) + trail) == ws
  {
    RawFieldsJoinWith(ws, seps, trail);
    DropTrailingEmptyKeeps(ws, if trail == [] then [] else [[]]);
  }

  /** `SplitJoinWith` with leading whitespace. */
  lemma SplitSpaceWordsTrail(lead: string, ws: seq<string>, seps: seq<string>, trail: string)
    requires lead != [] && AllSpace(lead) && AllSpace(trail)
    requires |ws| >= 1 && |seps| == |ws| - 1
    requires forall i :: 0 <= i < |ws| ==> IsWord(ws[i])
    requires forall i :: 0 <= i < |seps| ==> IsSeparator(seps[i])
    ensures Split(lead + (JoinWith(ws, seps) + trail)) == [[]] + ws
  {
    var extra: seq<string> := if trail == [] then [] else [[]];
    RawFieldsSpaceWordsTrail(lead, ws, seps, trail);
    ConcatAssociative([[]], ws, extra);
    assert ([[]] + ws)[|ws|] == ws[|ws| - 1];
    DropTrailingEmptyKeeps([[]] + ws, extra);
  }

  /** Concatenation is associative. */
  lemma ConcatAssociative<T>(a: seq<T>, b: seq<T>, c: seq<T>)
    ensures a + (b + c) == (a + b) + c
  {
  }

  /** Raw fields of separated words between leading and trailing whitespace. */
  lemma RawFieldsSpaceWordsTrail(lead: string, ws: seq<string>, seps: seq<string>, trail: string)
    requires lead != [] && AllSpace(lead) && AllSpace(trail)
    requires |ws| >= 1 && |seps| == |ws| - 1
    requires forall i :: 0 <= i < |ws| ==> IsWord(ws[i])
    requires forall i :: 0 <= i < |seps| ==> IsSeparator(seps[i])
    ensures RawFields(lead + (JoinWith(ws, seps) + trail)) == [[]] + (ws + (if trail == [] then [] else [[]]))
  {
    var body := JoinWith(ws, seps) + trail;
    var extra: seq<string> := if trail == [] then [] else [[]];
    assert RawFields(body) == ws + extra by {
      RawFieldsJoinWith(ws, seps, trail);
    }
    assert !IsSpace(body[0]) by {
      assert IsWord(ws[0]);
      assert body[0] == ws[0][0];
    }
    RawFieldsAfterSeparator(lead, body);
  }
}
