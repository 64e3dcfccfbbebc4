/** The template compiler of the story generator controls: every bound variable's markers are
    replaced, key by key, and the filled template is put after a fixed preamble with the topic. */
module Compiler {
  import opened Common
  import opened Text
  import opened Markers
  import opened Library

  /** One entry of the variables record: a key and the value typed for it. */
  datatype Binding = Binding(key: string, value: string)

  function Keys(bs: seq<Binding>): set<string>
  {
    set b | b in bs :: b.key
  }

  predicate DistinctKeys(bs: seq<Binding>)
  {
    forall i, j :: 0 <= i < j < |bs| ==> bs[i].key != bs[j].key
  }

  /** The match of `new RegExp('{{\\s*' + key + '\\s*}}')` anchored at the head of s, as its length.
      For a key made of word characters the pattern has no metacharacters beyond the two `\s*`,
      and neither run can give back characters to the literal key or the closing braces. */
  function KeyMatch(s: string, key: string): (r: Option<nat>)
    ensures r.Some? ==> 4 + |key| <= r.value <= |s|
  {
    if |s| >= 2 && s[0] == '{' && s[1] == '{' then
      var a := SkipSpaces(s, 2);
      if a + |key| <= |s| && s[a..a + |key|] == key then
        var c := SkipSpaces(s, a + |key|);
        if c + 2 <= |s| && s[c] == '}' && s[c + 1] == '}' then Some(c + 2) else None
      else None
    else None
  }

  /** The per-key pattern matches exactly where the placeholder pattern matches with that name. */
  lemma KeyMatchIsMarker(s: string, key: string)
    requires IsName(key)
    ensures KeyMatch(s, key).Some? <==> MarkerAt(s).Some? && MarkerAt(s).value.name == key
    ensures KeyMatch(s, key).Some? ==> MarkerAt(s) == Some(Marker(key, KeyMatch(s, key).value))
  {
    if |s| >= 2 && s[0] == '{' && s[1] == '{' {
      var a := SkipSpaces(s, 2);
      if KeyMatch(s, key).Some? {
        var e := a + |key|;
        forall k | a <= k < e ensures IsWordChar(s[k]) {
          assert s[k] == s[a..e][k - a];
        }
        assert SkipWord(s, a) == e;
        assert s[a..e] == key;
      }
      if MarkerAt(s).Some? && MarkerAt(s).value.name == key {
        var b := SkipWord(s, a);
        assert s[a..b] == key;
      }
    }
  }

  /** `s.replace(new RegExp(..., 'g'), value)` with the value taken literally: matches are found
      left to right, each is replaced by value and the scan resumes after it; every other
      character is copied. */
  function ReplaceAll(s: string, key: string, value: string): string
    decreases |s|
  {
    if s == [] then []
    else match KeyMatch(s, key)
      case Some(n) => value + ReplaceAll(s[n..], key, value)
      case None => [s[0]] + ReplaceAll(s[1..], key, value)
  }

  /** Where the key's pattern does not match at the head, the first character is copied. */
  lemma ReplaceCopiesHead(s: string, key: string, value: string)
    requires s != [] && KeyMatch(s, key).None?
    ensures ReplaceAll(s, key, value) == [s[0]] + ReplaceAll(s[1..], key, value)
  {
  }

  /** The key's pattern cannot match where no placeholder of that name starts. */
  lemma NoKeyMatchWithoutMarker(s: string, key: string)
    requires IsName(key) && (MarkerAt(s).None? || MarkerAt(s).value.name != key)
    ensures KeyMatch(s, key).None?
  {
    KeyMatchIsMarker(s, key);
  }

  /** The loop over the variables record: each binding's replacement is applied, in order, to the
      result of the previous ones. */
  function FillAll(content: string, bs: seq<Binding>): string
  {
    if bs == [] then content
    else ReplaceAll(FillAll(content, bs[..|bs| - 1]), bs[|bs| - 1].key, bs[|bs| - 1].value)
  }

  const Opening: string := "Generate a story based on this topic: \""
  const Instructions: string := "\".\n\nFollow these instructions and template:\n"

  /** The final prompt: the preamble with the topic, then the filled template. */
  function Instruction(topic: string, body: string): (r: string)
    ensures |r| == |Opening| + |topic| + |Instructions| + |body|
    ensures r[..|Opening|] == Opening
    ensures r[|Opening|..|Opening| + |topic|] == topic
    ensures r[|Opening| + |topic|..|Opening| + |topic| + |Instructions|] == Instructions
    ensures r[|Opening| + |topic| + |Instructions|..] == body
  {
    Opening + topic + Instructions + body
  }

  /** The variables record a template starts with: every placeholder bound to the empty string. */
  function InitialBindings(names: seq<string>): (r: seq<Binding>)
    ensures |r| == |names|
    ensures forall i :: 0 <= i < |names| ==> r[i] == Binding(names[i], "")
  {
    if names == [] then [] else [Binding(names[0], "")] + InitialBindings(names[1..])
  }

  lemma KeysOfCons(b: Binding, bs: seq<Binding>)
    ensures Keys([b] + bs) == {b.key} + Keys(bs)
  {
    var c := [b] + bs;
    forall k | k in Keys(c) ensures k in {b.key} + Keys(bs) {
      var x :| x in c && x.key == k;
    }
    forall k | k in Keys(bs) ensures k in Keys(c) {
      var x :| x in bs && x.key == k;
      assert x in c;
    }
    assert b in c;
  }

  /** `{ ...prev, [key]: value }`: an existing key keeps its place and takes the value,
      a new key is added last. */
  function Bind(bs: seq<Binding>, key: string, value: string): (r: seq<Binding>)
    requires DistinctKeys(bs)
    ensures key in Keys(bs) ==> |r| == |bs|
    ensures key in Keys(bs) ==>
      forall i :: 0 <= i < |bs| ==> r[i] == if bs[i].key == key then Binding(key, value) else bs[i]
    ensures key !in Keys(bs) ==> r == bs + [Binding(key, value)]
  {
    if bs == [] then [Binding(key, value)]
    else
      KeysOfCons(bs[0], bs[1..]);
      assert bs == [bs[0]] + bs[1..];
      if bs[0].key == key then
        assert forall i :: 1 <= i < |bs| ==> bs[i].key != key;
        [Binding(key, value)] + bs[1..]
      else
        [bs[0]] + Bind(bs[1..], key, value)
  }

  /** Binding keeps the keys distinct and adds exactly the bound key. */
  lemma BindKeys(bs: seq<Binding>, key: string, value: string)
    requires DistinctKeys(bs)
    ensures DistinctKeys(Bind(bs, key, value))
    ensures Keys(Bind(bs, key, value)) == Keys(bs) + {key}
  {
    var r := Bind(bs, key, value);
    if key in Keys(bs) {
      var x :| x in bs && x.key == key;
      forall k | k in Keys(r) ensures k in Keys(bs) {
        var y :| y in r && y.key == k;
        var i :| 0 <= i < |r| && r[i] == y;
        assert bs[i] in bs;
      }
      forall k | k in Keys(bs) ensures k in Keys(r) {
        var y :| y in bs && y.key == k;
        var i :| 0 <= i < |bs| && bs[i] == y;
        assert r[i] in r;
      }
    } else {
      KeysOfAppend(bs, Binding(key, value));
      forall i, j | 0 <= i < j < |r| ensures r[i].key != r[j].key {
        if j == |bs| {
          assert bs[i] in bs;
        }
      }
    }
  }

  lemma KeysOfAppend(bs: seq<Binding>, b: Binding)
    ensures Keys(bs + [b]) == Keys(bs) + {b.key}
  {
    var c := bs + [b];
    forall k | k in Keys(bs) ensures k in Keys(c) {
      var x :| x in bs && x.key == k;
      assert x in c;
    }
    assert b in c;
  }

  // ---- what the replacement copies and what it rewrites

  /** Text without braces is copied unchanged. */
  lemma {:induction false} ReplaceCopiesBraceFree(p: string, t: string, key: string, value: string)
    requires BraceFree(p)
    ensures ReplaceAll(p + t, key, value) == p + ReplaceAll(t, key, value)
    decreases |p|
  {
    if p == [] {
      assert p + t == t;
    } else {
      assert (p + t)[0] == p[0] && !IsBrace(p[0]);
      assert (p + t)[1..] == p[1..] + t;
      assert BraceFree(p[1..]) by {
        forall i | 0 <= i < |p[1..]| ensures !IsBrace(p[1..][i]) {
          assert p[1..][i] == p[i + 1];
        }
      }
      ReplaceCopiesBraceFree(p[1..], t, key, value);
    }
  }

  lemma ReplaceCopiesAt(s: string, key: string, value: string, j: nat)
    requires j < |s| && KeyMatch(s[j..], key).None?
    ensures ReplaceAll(s[j..], key, value) == [s[j]] + ReplaceAll(s[j + 1..], key, value)
  {
    ReplaceCopiesHead(s[j..], key, value);
    assert s[j..][1..] == s[j + 1..];
  }

  lemma SliceCons(s: string, j: nat, n: nat, rest: string)
    requires j < n <= |s|
    ensures [s[j]] + (s[j + 1..n] + rest) == s[j..n] + rest
  {
    assert s[j..n] == [s[j]] + s[j + 1..n];
  }

  /** A run of positions at none of which the key's pattern matches is copied unchanged. */
  lemma {:induction false} ReplaceCopiesRun(s: string, key: string, value: string, j: nat, n: nat)
    requires j <= n <= |s|
    requires forall i :: j <= i < n ==> KeyMatch(s[i..], key).None?
    ensures ReplaceAll(s[j..], key, value) == s[j..n] + ReplaceAll(s[n..], key, value)
    decreases n - j
  {
    if j < n {
      ReplaceCopiesAt(s, key, value, j);
      ReplaceCopiesRun(s, key, value, j + 1, n);
      SliceCons(s, j, n, ReplaceAll(s[n..], key, value));
    } else {
      assert s[j..n] == [];
    }
  }

  /** A marker of another name is copied verbatim: a variable with no binding keeps its marker. */
  lemma ReplaceKeepsOtherMarker(s: string, key: string, value: string)
    requires IsName(key) && MarkerAt(s).Some? && MarkerAt(s).value.name != key
    ensures ReplaceAll(s, key, value) == s[..MarkerAt(s).value.len] + ReplaceAll(s[MarkerAt(s).value.len..], key, value)
  {
    var n := MarkerAt(s).value.len;
    forall i | 0 <= i < n ensures KeyMatch(s[i..], key).None? {
      if i == 0 {
        assert s[0..] == s;
        NoKeyMatchWithoutMarker(s, key);
      } else {
        NoMarkerInside(s, i);
        NoKeyMatchWithoutMarker(s[i..], key);
      }
    }
    ReplaceCopiesRun(s, key, value, 0, n);
    assert s[0..] == s && s[0..n] == s[..n];
  }

  /** A marker of the key is replaced by the value, whatever white space it holds. */
  lemma ReplaceRewritesMarker(s: string, key: string, value: string)
    requires IsName(key) && MarkerAt(s).Some? && MarkerAt(s).value.name == key
    ensures ReplaceAll(s, key, value) == value + ReplaceAll(s[MarkerAt(s).value.len..], key, value)
  {
    KeyMatchIsMarker(s, key);
  }

  /** Where the key's pattern matches nowhere, the replacement is the identity. */
  lemma {:induction false} ReplaceWithoutMatchIsIdentity(s: string, key: string, value: string)
    requires forall i :: 0 <= i <= |s| ==> KeyMatch(s[i..], key).None?
    ensures ReplaceAll(s, key, value) == s
    decreases |s|
  {
    if s != [] {
      assert s[0..] == s;
      forall i | 0 <= i <= |s[1..]| ensures KeyMatch(s[1..][i..], key).None? {
        assert s[1..][i..] == s[i + 1..];
      }
      ReplaceWithoutMatchIsIdentity(s[1..], key, value);
    }
  }

  // ---- when the compiled template is free of markers

  /** Every brace of s belongs to a match of the placeholder pattern whose name is in names. */
  predicate BracesInMarkers(s: string, names: set<string>)
    decreases |s|
  {
    if s == [] then true
    else match MarkerAt(s)
      case Some(m) => m.name in names && BracesInMarkers(s[m.len..], names)
      case None => !IsBrace(s[0]) && BracesInMarkers(s[1..], names)
  }

  lemma {:induction false} BracesInNoMarkersIsBraceFree(s: string)
    requires BracesInMarkers(s, {})
    ensures BraceFree(s)
    decreases |s|
  {
    if s != [] {
      BracesInNoMarkersIsBraceFree(s[1..]);
      forall i | 0 <= i < |s| ensures !IsBrace(s[i]) {
        if i > 0 {
          assert s[i] == s[1..][i - 1];
        }
      }
    }
  }

  lemma {:induction false} BraceFreePrefix(v: string, t: string, names: set<string>)
    requires BraceFree(v) && BracesInMarkers(t, names)
    ensures BracesInMarkers(v + t, names)
    decreases |v|
  {
    if v == [] {
      assert v + t == t;
    } else {
      assert (v + t)[0] == v[0] && !IsBrace(v[0]);
      assert (v + t)[1..] == v[1..] + t;
      assert BraceFree(v[1..]) by {
        forall i | 0 <= i < |v[1..]| ensures !IsBrace(v[1..][i]) {
          assert v[1..][i] == v[i + 1];
        }
      }
      BraceFreePrefix(v[1..], t, names);
    }
  }

  /** Replacing a key by a value without braces discharges that key: every brace left belongs to
      a marker of one of the other names. */
  lemma {:induction false} ReplaceDischargesKey(s: string, key: string, value: string, names: set<string>)
    requires IsName(key) && BraceFree(value) && BracesInMarkers(s, names)
    ensures BracesInMarkers(ReplaceAll(s, key, value), names - {key})
    decreases |s|
  {
    if s != [] {
      KeyMatchIsMarker(s, key);
      match MarkerAt(s)
      case Some(m) =>
        ReplaceDischargesKey(s[m.len..], key, value, names);
        var rest := ReplaceAll(s[m.len..], key, value);
        if m.name == key {
          BraceFreePrefix(value, rest, names - {key});
        } else {
          ReplaceKeepsOtherMarker(s, key, value);
          var r := s[..m.len] + rest;
          MarkerAtPrefix(s, r);
          assert r[m.len..] == rest;
        }
      case None =>
        ReplaceDischargesKey(s[1..], key, value, names);
        var r := [s[0]] + ReplaceAll(s[1..], key, value);
        assert r[0] == s[0] && r[1..] == ReplaceAll(s[1..], key, value);
    }
  }

  lemma {:induction false} FillDischargesKeys(content: string, bs: seq<Binding>, names: set<string>)
    requires forall b :: b in bs ==> IsName(b.key) && BraceFree(b.value)
    requires BracesInMarkers(content, names)
    ensures BracesInMarkers(FillAll(content, bs), names - Keys(bs))
  {
    if bs != [] {
      var init, last := bs[..|bs| - 1], bs[|bs| - 1];
      assert bs == init + [last];
      FillDischargesKeys(content, init, names);
      ReplaceDischargesKey(FillAll(content, init), last.key, last.value, names - Keys(init));
      assert Keys(bs) == Keys(init) + {last.key};
      assert names - Keys(init) - {last.key} == names - Keys(bs);
    } else {
      assert names - Keys(bs) == names;
    }
  }

  /** When every brace of the template belongs to a bound variable's marker and no value holds a
      brace, the filled template holds no marker: extracting from it yields nothing. */
  lemma NoMarkerLeft(content: string, bs: seq<Binding>)
    requires forall b :: b in bs ==> IsName(b.key) && BraceFree(b.value)
    requires BracesInMarkers(content, Keys(bs))
    ensures NoMarker(FillAll(content, bs))
    ensures Placeholders(FillAll(content, bs)) == []
  {
    FillDischargesKeys(content, bs, Keys(bs));
    assert Keys(bs) - Keys(bs) == {};
    BracesInNoMarkersIsBraceFree(FillAll(content, bs));
    BraceFreeHasNoMarker(FillAll(content, bs));
    PlaceholdersEmptyIffNoMarker(FillAll(content, bs));
  }

  /** The same for the record a template starts with, every placeholder bound to "". */
  lemma InitialBindingsLeaveNoMarker(content: string)
    requires BracesInMarkers(content, set n | n in Placeholders(content))
    ensures Placeholders(FillAll(content, InitialBindings(Placeholders(content)))) == []
  {
    var ps := Placeholders(content);
    var bs := InitialBindings(ps);
    forall b | b in bs ensures IsName(b.key) && BraceFree(b.value) {
      var i :| 0 <= i < |bs| && bs[i] == b;
      assert b.key == ps[i];
    }
    assert Keys(bs) == set n | n in ps by {
      forall n | n in ps ensures n in Keys(bs) {
        var i :| 0 <= i < |ps| && ps[i] == n;
        assert bs[i] in bs;
      }
    }
    NoMarkerLeft(content, bs);
  }

  class GeneratorControls {
    var variables: seq<Binding>
    var topic: string

    /** The record's keys are variable names, each present once. */
    ghost predicate Valid()
      reads this
    {
      DistinctKeys(variables) && forall b :: b in variables ==> IsName(b.key)
    }

    constructor ()
      ensures Valid() && variables == [] && topic == ""
    {
      variables := [];
      topic := "";
    }

    /** The effect run when the selected template changes: a fresh record with every placeholder
        bound to "" (none without a template) and an empty topic. The effect depends on the
        template object, not on its id: saving an edit of the selected template or settling an
        optimisation of it maps it to a new object (App.tsx lines 29-33 and 375), which the
        lookup at line 310 then returns, so either one resets the variables and the topic too. */
    method SelectionChanged(selected: Option<Template>)
      modifies this
      ensures Valid() && topic == ""
      ensures variables == if selected.Some? then InitialBindings(Placeholders(selected.value.content)) else []
    {
      if selected.Some? {
        variables := InitialBindings(Placeholders(selected.value.content));
        assert forall i :: 0 <= i < |variables| ==> variables[i].key == Placeholders(selected.value.content)[i];
      } else {
        variables := [];
      }
      topic := "";
    }

    /** Typing into the field of a placeholder. */
    method SetVariable(key: string, value: string)
      requires Valid() && IsName(key)
      modifies this`variables
      ensures Valid() && variables == Bind(old(variables), key, value)
    {
      BindKeys(variables, key, value);
      variables := Bind(variables, key, value);
      assert forall b :: b in variables ==> b.key in Keys(variables);
    }

    method SetTopic(t: string)
      requires Valid()
      modifies this`topic
      ensures Valid() && topic == t
    {
      topic := t;
    }

    /** The generate button: without a selected template nothing is sent; otherwise every
        binding is replaced in turn and the preamble is put in front. */
    method GenerateClick(selected: Option<Template>) returns (prompt: Option<string>)
      requires Valid()
      ensures selected.None? ==> prompt == None
      ensures selected.Some? ==> prompt == Some(Instruction(topic, FillAll(selected.value.content, variables)))
    {
      if selected.None? {
        return None;
      }
      var filled := selected.value.content;
      var i := 0;
      while i < |variables|
        invariant 0 <= i <= |variables|
        invariant filled == FillAll(selected.value.content, variables[..i])
      {
        assert variables[..i + 1][..i] == variables[..i];
        filled := ReplaceAll(filled, variables[i].key, variables[i].value);
        i := i + 1;
      }
      assert variables[..i] == variables;
      prompt := Some(Instruction(topic, filled));
    }
  }
}
