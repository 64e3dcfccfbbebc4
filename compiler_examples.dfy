/** Worked examples of the template compiler, each proved from the general lemmas. */
module CompilerExamples {
  import opened Common
  import opened Text
  import opened Markers
  import opened Compiler

  /** A canonical marker `{{name}}` at the head of the text is replaced when it names the key
      and copied otherwise. */
  lemma ReplaceCanonical(name: string, t: string, key: string, value: string)
    requires IsName(name) && IsName(key)
    ensures ReplaceAll("{{" + name + "}}" + t, key, value)
      == (if name == key then value else "{{" + name + "}}") + ReplaceAll(t, key, value)
  {
    var m := "{{" + name + "}}";
    CanonicalMarker(name);
    MarkerAtPrefix(m, m + t);
    assert (m + t)[|m|..] == t;
    assert (m + t)[..|m|] == m;
    if name == key {
      ReplaceRewritesMarker(m + t, key, value);
    } else {
      ReplaceKeepsOtherMarker(m + t, key, value);
    }
  }

  /** A text with one canonical marker between brace-free parts. */
  lemma ReplaceInOneMarkerText(p: string, name: string, q: string, key: string, value: string)
    requires BraceFree(p) && BraceFree(q) && IsName(name) && IsName(key)
    ensures ReplaceAll(p + ("{{" + name + "}}" + q), key, value)
      == p + ((if name == key then value else "{{" + name + "}}") + q)
  {
    ReplaceCopiesBraceFree(q, "", key, value);
    assert q + "" == q;
    ReplaceCanonical(name, q, key, value);
    ReplaceCopiesBraceFree(p, "{{" + name + "}}" + q, key, value);
  }

  /** A text with two canonical markers between brace-free parts. */
  lemma ReplaceInTwoMarkerText(p: string, n1: string, q: string, n2: string, r: string, key: string, value: string)
    requires BraceFree(p) && BraceFree(q) && BraceFree(r) && IsName(n1) && IsName(n2) && IsName(key)
    ensures ReplaceAll(p + ("{{" + n1 + "}}" + (q + ("{{" + n2 + "}}" + r))), key, value)
      == p + ((if n1 == key then value else "{{" + n1 + "}}") + (q + ((if n2 == key then value else "{{" + n2 + "}}") + r)))
  {
    ReplaceInOneMarkerText(q, n2, r, key, value);
    ReplaceCanonical(n1, q + ("{{" + n2 + "}}" + r), key, value);
    ReplaceCopiesBraceFree(p, "{{" + n1 + "}}" + (q + ("{{" + n2 + "}}" + r)), key, value);
  }

  /** The text of the end-to-end example, split at its markers. */
  lemma RobotTemplateParts()
    ensures "Write about {{topic}} in {{setting}}." == "Write about " + ("{{" + "topic" + "}}" + (" in " + ("{{" + "setting" + "}}" + ".")))
    ensures "Write about a robot in a desert." == ("Write about " + ("a robot" + " in ")) + ("a desert" + ".")
  {
  }

  lemma RobotFilled(a: string, b: string, c: string, body: string)
    requires a == "Write about " + ("{{" + "topic" + "}}" + (" in " + ("{{" + "setting" + "}}" + ".")))
    requires b == ("Write about " + ("a robot" + " in ")) + ("{{" + "setting" + "}}" + ".")
    requires c == ("Write about " + ("a robot" + " in ")) + ("a desert" + ".")
    ensures ReplaceAll(a, "topic", "a robot") == b
    ensures ReplaceAll(b, "setting", "a desert") == c
  {
    assert IsName("topic") && IsName("setting") && "topic" != "setting";
    assert BraceFree("Write about ") && BraceFree(" in ") && BraceFree(".") && BraceFree("a robot");
    ReplaceInTwoMarkerText("Write about ", "topic", " in ", "setting", ".", "topic", "a robot");
    assert ("Write about " + ("a robot" + " in ")) + ("{{" + "setting" + "}}" + ".")
      == "Write about " + ("a robot" + (" in " + ("{{" + "setting" + "}}" + ".")));
    var pre := "Write about " + ("a robot" + " in ");
    assert BraceFree(pre);
    ReplaceInOneMarkerText(pre, "setting", ".", "setting", "a desert");
  }

  lemma FillTwo(content: string, b1: Binding, b2: Binding)
    ensures FillAll(content, [b1, b2]) == ReplaceAll(ReplaceAll(content, b1.key, b1.value), b2.key, b2.value)
  {
    assert [b1, b2][..1] == [b1] && [b1][..0] == [];
    assert FillAll(content, [b1]) == ReplaceAll(FillAll(content, []), b1.key, b1.value);
  }

  /** A two-variable template filled end to end: both values replace their markers. */
  lemma RobotInTheDesert()
    ensures FillAll("Write about {{topic}} in {{setting}}.", [Binding("topic", "a robot"), Binding("setting", "a desert")])
      == "Write about a robot in a desert."
  {
    var content, body := "Write about {{topic}} in {{setting}}.", "Write about a robot in a desert.";
    FillTwo(content, Binding("topic", "a robot"), Binding("setting", "a desert"));
    RobotTemplateParts();
    RobotFilled(content, ("Write about " + ("a robot" + " in ")) + ("{{" + "setting" + "}}" + "."), body, body);
  }

  /** ... and the filled template holds no marker. */
  lemma RobotBodyHasNoMarker()
    ensures Placeholders("Write about a robot in a desert.") == []
  {
    var body := "Write about a robot in a desert.";
    assert BraceFree(body);
    BraceFreeHasNoMarker(body);
    PlaceholdersEmptyIffNoMarker(body);
  }

  /** A marker is left verbatim when its variable has no binding (the record lacks the key). */
  lemma UnboundMarkerKept()
    ensures FillAll("Hero: {{hero}}", [Binding("villain", "a dragon")]) == "Hero: {{hero}}"
  {
    var bs := [Binding("villain", "a dragon")];
    assert bs[..0] == [];
    assert "Hero: {{hero}}" == "Hero: " + ("{{" + "hero" + "}}" + "");
    ReplaceCanonical("hero", "", "villain", "a dragon");
    ReplaceCopiesBraceFree("Hero: ", "{{" + "hero" + "}}" + "", "villain", "a dragon");
  }

  /** A brace-free text followed by one canonical marker has that marker's name as its single
      placeholder, and with the record it starts with the marker compiles to the empty string. */
  lemma TrailingMarkerCompilesEmpty(p: string, name: string)
    requires BraceFree(p) && IsName(name)
    ensures Placeholders(p + ("{{" + name + "}}")) == [name]
    ensures FillAll(p + ("{{" + name + "}}"), InitialBindings([name])) == p
  {
    var m := "{{" + name + "}}";
    CanonicalMarker(name);
    NamesOfLeadingMarker(m, "");
    assert m + "" == m;
    NamesSkipBraceFree(p, m);
    SingleDistinct(name);
    assert InitialBindings([name]) == [Binding(name, "")];
    FillOne(p + m, Binding(name, ""));
    ReplaceCanonical(name, "", name, "");
    ReplaceCopiesBraceFree(p, m + "", name, "");
    assert p + ("" + "") == p;
  }

  lemma HeroText()
    ensures "Hero: {{hero}}" == "Hero: " + ("{{" + "hero" + "}}")
    ensures BraceFree("Hero: ") && IsName("hero")
  {
  }

  /** With the record a template starts with, its marker compiles to the empty string. */
  lemma InitialHeroCompilesEmpty()
    ensures Placeholders("Hero: {{hero}}") == ["hero"]
    ensures FillAll("Hero: {{hero}}", InitialBindings(Placeholders("Hero: {{hero}}"))) == "Hero: "
  {
    HeroText();
    TrailingMarkerCompilesEmpty("Hero: ", "hero");
  }

  // ---- why the no-marker theorem needs its brace condition

  /** A stretch at none of whose positions a match starts contributes no names. */
  lemma {:induction false} NamesSkipUnmatched(p: string, t: string)
    requires forall i :: 0 <= i < |p| ==> MarkerAt((p + t)[i..]).None?
    ensures MarkerNames(p + t) == MarkerNames(t)
    decreases |p|
  {
    if p == [] {
      assert p + t == t;
    } else {
      assert (p + t)[0..] == p + t;
      assert (p + t)[1..] == p[1..] + t;
      forall i | 0 <= i < |p[1..]| ensures MarkerAt((p[1..] + t)[i..]).None? {
        assert (p[1..] + t)[i..] == (p + t)[i + 1..];
      }
      NamesSkipUnmatched(p[1..], t);
    }
  }

  /** ... and is copied by every replacement. */
  lemma ReplaceSkipsUnmatched(p: string, t: string, key: string, value: string)
    requires IsName(key)
    requires forall i :: 0 <= i < |p| ==> MarkerAt((p + t)[i..]).None?
    ensures ReplaceAll(p + t, key, value) == p + ReplaceAll(t, key, value)
  {
    var s := p + t;
    forall i | 0 <= i < |p| ensures KeyMatch(s[i..], key).None? {
      NoKeyMatchWithoutMarker(s[i..], key);
    }
    ReplaceCopiesRun(s, key, value, 0, |p|);
    assert s[0..] == s && s[0..|p|] == p && s[|p|..] == t;
  }

  /** Inside "{{outer{{inner}}}}" no match starts before the inner marker. */
  lemma NestedHeadUnmatched(outer: string, t: string)
    requires IsName(outer) && |t| >= 1 && t[0] == '{'
    ensures forall i :: 0 <= i < |"{{" + outer| ==> MarkerAt(("{{" + outer + t)[i..]).None?
  {
    var p := "{{" + outer;
    var s := p + t;
    var e := |p|;
    assert s[e] == '{';
    forall k | 2 <= k < e ensures IsWordChar(s[k]) {
      assert s[k] == outer[k - 2];
    }
    assert s[2] == outer[0];
    assert SkipWord(s, 2) == e;
    forall i | 0 <= i < |p| ensures MarkerAt(s[i..]).None? {
      if i == 0 {
        assert s[0..] == s;
      } else if i == 1 {
        assert s[1..][1] == outer[0];
      } else {
        assert s[i..][0] == outer[i - 2];
      }
    }
  }

  /** The closing braces left after the inner marker hold no match and are copied. */
  lemma ClosingBraces(key: string)
    ensures MarkerNames("}}") == [] && ReplaceAll("}}", key, "") == "}}"
  {
    assert "}}"[1..] == "}" && "}"[1..] == "";
    assert KeyMatch("}}", key).None? && KeyMatch("}", key).None?;
  }

  /** "{{outer{{inner}}}}" has the single placeholder inner ... */
  lemma NestedNames(outer: string, inner: string)
    requires IsName(outer) && IsName(inner)
    ensures MarkerNames("{{" + outer + ("{{" + inner + "}}" + "}}")) == [inner]
  {
    var t := "{{" + inner + "}}" + "}}";
    NestedHeadUnmatched(outer, t);
    NamesSkipUnmatched("{{" + outer, t);
    CanonicalMarker(inner);
    NamesOfLeadingMarker("{{" + inner + "}}", "}}");
    ClosingBraces(inner);
  }

  /** ... and binding inner to "" turns it into the marker "{{outer}}". */
  lemma NestedReplace(outer: string, inner: string)
    requires IsName(outer) && IsName(inner)
    ensures ReplaceAll("{{" + outer + ("{{" + inner + "}}" + "}}"), inner, "") == "{{" + outer + "}}"
  {
    var t := "{{" + inner + "}}" + "}}";
    NestedHeadUnmatched(outer, t);
    ReplaceSkipsUnmatched("{{" + outer, t, inner, "");
    ReplaceCanonical(inner, "}}", inner, "");
    ClosingBraces(inner);
    assert "{{" + outer + ("" + "}}") == "{{" + outer + "}}";
  }

  lemma SingleDistinct(n: string)
    ensures Distinct([n]) == [n]
  {
    assert [n][..0] == [];
  }

  lemma FillOne(content: string, b: Binding)
    ensures FillAll(content, [b]) == ReplaceAll(content, b.key, b.value)
  {
    assert [b][..0] == [];
    assert FillAll(content, [b]) == ReplaceAll(FillAll(content, []), b.key, b.value);
  }

  /** A template whose braces do not all belong to markers can compile to a text that holds a
      marker: "{{x{{a}}}}" (outer x, inner a) has the single placeholder a, and with the record it
      starts with, a bound to "", it compiles to "{{x}}", whose placeholder is x. */
  lemma NestedBracesLeaveMarker(outer: string, inner: string)
    requires IsName(outer) && IsName(inner)
    ensures Placeholders("{{" + outer + ("{{" + inner + "}}" + "}}")) == [inner]
    ensures FillAll("{{" + outer + ("{{" + inner + "}}" + "}}"), InitialBindings(Placeholders("{{" + outer + ("{{" + inner + "}}" + "}}"))))
      == "{{" + outer + "}}"
    ensures Placeholders("{{" + outer + "}}") == [outer]
  {
    var nested := "{{" + outer + ("{{" + inner + "}}" + "}}");
    var surfaced := "{{" + outer + "}}";
    NestedNames(outer, inner);
    NestedReplace(outer, inner);
    SingleDistinct(inner);
    assert Placeholders(nested) == [inner];
    var bs := InitialBindings([inner]);
    assert bs == [Binding(inner, "")];
    FillOne(nested, Binding(inner, ""));
    CanonicalMarker(outer);
    NamesOfLeadingMarker(surfaced, "");
    assert surfaced + "" == surfaced;
    SingleDistinct(outer);
  }
}
