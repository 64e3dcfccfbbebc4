/** The placeholder extractor: the names captured by `/{{\s*(\w+)\s*}}/g`, duplicates collapsed
    in first-occurrence order, as `[...new Set(matchAll(...))]` produces them. */
module Markers {
  import opened Common
  import opened Text

  /** A match of the marker pattern at the start of a string: the captured name and the match length. */
  datatype Marker = Marker(name: string, len: nat)

  /** End of the run of white space starting at i (greedy `\s*`). */
  function SkipSpaces(s: string, i: nat): (j: nat)
    requires i <= |s|
    ensures i <= j <= |s|
    ensures forall k :: i <= k < j ==> IsSpace(s[k])
    ensures j == |s| || !IsSpace(s[j])
    decreases |s| - i
  {
    if i < |s| && IsSpace(s[i]) then SkipSpaces(s, i + 1) else i
  }

  /** End of the run of word characters starting at i (greedy `\w+`, before its non-emptiness check). */
  function SkipWord(s: string, i: nat): (j: nat)
    requires i <= |s|
    ensures i <= j <= |s|
    ensures forall k :: i <= k < j ==> IsWordChar(s[k])
    ensures j == |s| || !IsWordChar(s[j])
    decreases |s| - i
  {
    if i < |s| && IsWordChar(s[i]) then SkipWord(s, i + 1) else i
  }

  /** The match of `{{\s*(\w+)\s*}}` anchored at the first character of s, if any.
      White space, word characters and braces are disjoint classes, so the greedy runs
      are the only way the pattern can match: backtracking never finds another match. */
  function MarkerAt(s: string): (r: Option<Marker>)
    ensures r.Some? ==> IsName(r.value.name) && 5 <= r.value.len <= |s|
    ensures r.Some? ==> s[0] == '{' && s[1] == '{'
  {
    if |s| >= 2 && s[0] == '{' && s[1] == '{' then
      var a := SkipSpaces(s, 2);
      var b := SkipWord(s, a);
      var c := SkipSpaces(s, b);
      if a < b && c + 2 <= |s| && s[c] == '}' && s[c + 1] == '}' then Some(Marker(s[a..b], c + 2))
      else None
    else None
  }

  /** No match of the marker pattern starts anywhere in s. */
  predicate NoMarker(s: string)
  {
    forall i :: 0 <= i <= |s| ==> MarkerAt(s[i..]).None?
  }

  /** The captured names of `matchAll`, one per match, left to right; after a match the
      scan resumes at its end, otherwise one character further. */
  function MarkerNames(s: string): (r: seq<string>)
    ensures forall n :: n in r ==> IsName(n)
    decreases |s|
  {
    if s == [] then []
    else match MarkerAt(s)
      case Some(m) => [m.name] + MarkerNames(s[m.len..])
      case None => MarkerNames(s[1..])
  }

  /** Collapse duplicates, keeping first occurrences, as inserting into a JavaScript `Set` does. */
  function Distinct(xs: seq<string>): (r: seq<string>)
    ensures forall x :: x in r <==> x in xs
    ensures forall i, j :: 0 <= i < j < |r| ==> r[i] != r[j]
  {
    if xs == [] then []
    else
      var p := Distinct(xs[..|xs| - 1]);
      if xs[|xs| - 1] in p then p else p + [xs[|xs| - 1]]
  }

  /** Position of the first occurrence of x in xs. */
  function FirstIndex(xs: seq<string>, x: string): (k: nat)
    requires x in xs
    ensures k < |xs| && xs[k] == x
    ensures forall j :: 0 <= j < k ==> xs[j] != x
  {
    if xs[0] == x then 0 else 1 + FirstIndex(xs[1..], x)
  }

  /** The placeholders of a template (App.tsx line 216). */
  function Placeholders(content: string): (r: seq<string>)
    ensures forall n :: n in r <==> n in MarkerNames(content)
    ensures forall n :: n in r ==> IsName(n)
    ensures forall i, j :: 0 <= i < j < |r| ==> r[i] != r[j]
  {
    Distinct(MarkerNames(content))
  }

  lemma FirstIndexUnderAppend(ys: seq<string>, x: string, y: string)
    requires y in ys
    ensures FirstIndex(ys + [x], y) == FirstIndex(ys, y)
  {
    var a, b := FirstIndex(ys + [x], y), FirstIndex(ys, y);
    assert (ys + [x])[b] == y;
  }

  /** Distinct lists names in the order in which they first occur. */
  lemma {:induction false} DistinctKeepsFirstOccurrenceOrder(xs: seq<string>)
    ensures forall i, j :: 0 <= i < j < |Distinct(xs)| ==>
      FirstIndex(xs, Distinct(xs)[i]) < FirstIndex(xs, Distinct(xs)[j])
  {
    if xs != [] {
      var ys, x := xs[..|xs| - 1], xs[|xs| - 1];
      assert xs == ys + [x];
      DistinctKeepsFirstOccurrenceOrder(ys);
      var p := Distinct(ys);
      forall i, j | 0 <= i < j < |Distinct(xs)|
        ensures FirstIndex(xs, Distinct(xs)[i]) < FirstIndex(xs, Distinct(xs)[j])
      {
        FirstIndexUnderAppend(ys, x, p[i]);
        if j < |p| {
          FirstIndexUnderAppend(ys, x, p[j]);
        } else {
          assert Distinct(xs)[j] == x && x !in ys;
          assert FirstIndex(xs, x) == |ys|;
        }
      }
    }
  }

  /** Extraction returns each marker name once, in order of first occurrence. */
  lemma PlaceholdersInFirstOccurrenceOrder(content: string)
    ensures forall i, j :: 0 <= i < j < |Placeholders(content)| ==>
      FirstIndex(MarkerNames(content), Placeholders(content)[i]) < FirstIndex(MarkerNames(content), Placeholders(content)[j])
  {
    DistinctKeepsFirstOccurrenceOrder(MarkerNames(content));
  }

  lemma {:induction false} NoNamesIffNoMarker(s: string)
    ensures MarkerNames(s) == [] <==> NoMarker(s)
    decreases |s|
  {
    if s == [] {
      assert s[0..] == s;
    } else if MarkerAt(s).Some? {
      assert s[0..] == s;
    } else {
      NoNamesIffNoMarker(s[1..]);
      if NoMarker(s[1..]) {
        forall i | 0 <= i <= |s| ensures MarkerAt(s[i..]).None? {
          if i > 0 {
            assert s[i..] == s[1..][i - 1..];
          }
        }
      }
      if NoMarker(s) {
        forall i | 0 <= i <= |s[1..]| ensures MarkerAt(s[1..][i..]).None? {
          assert s[1..][i..] == s[i + 1..];
        }
      }
    }
  }

  /** A template yields no placeholder exactly when no marker matches anywhere in it. */
  lemma PlaceholdersEmptyIffNoMarker(content: string)
    ensures Placeholders(content) == [] <==> NoMarker(content)
  {
    NoNamesIffNoMarker(content);
  }

  /** Text without braces holds no marker. */
  lemma BraceFreeHasNoMarker(s: string)
    requires BraceFree(s)
    ensures NoMarker(s)
  {
    forall i | 0 <= i <= |s| ensures MarkerAt(s[i..]).None? {
      if i + 2 <= |s| {
        assert s[i..][0] == s[i];
      }
    }
  }

  // ---- the marker at the head of a string depends only on the characters it spans

  lemma SkipSpacesAgree(s: string, t: string, i: nat, n: nat)
    requires i <= n <= |s| && n <= |t| && s[..n] == t[..n]
    requires SkipSpaces(s, i) < n
    ensures SkipSpaces(t, i) == SkipSpaces(s, i)
  {
    var j, j' := SkipSpaces(s, i), SkipSpaces(t, i);
    assert s[..n][j] == t[..n][j];
  }

  lemma SkipWordAgree(s: string, t: string, i: nat, n: nat)
    requires i <= n <= |s| && n <= |t| && s[..n] == t[..n]
    requires SkipWord(s, i) < n
    ensures SkipWord(t, i) == SkipWord(s, i)
  {
    var j, j' := SkipWord(s, i), SkipWord(t, i);
    assert s[..n][j] == t[..n][j];
  }

  lemma PrefixChars(s: string, t: string, n: nat)
    requires n <= |s| && n <= |t| && s[..n] == t[..n]
    ensures forall k :: 0 <= k < n ==> s[k] == t[k]
  {
    forall k | 0 <= k < n ensures s[k] == t[k] {
      assert s[..n][k] == t[..n][k];
    }
  }

  /** A match found at the head of s is found again when the text after it is replaced. */
  lemma MarkerAtPrefix(s: string, t: string)
    requires MarkerAt(s).Some?
    requires MarkerAt(s).value.len <= |t| && t[..MarkerAt(s).value.len] == s[..MarkerAt(s).value.len]
    ensures MarkerAt(t) == MarkerAt(s)
  {
    var n := MarkerAt(s).value.len;
    PrefixChars(s, t, n);
    var a := SkipSpaces(s, 2);
    var b := SkipWord(s, a);
    var c := SkipSpaces(s, b);
    SkipSpacesAgree(s, t, 2, n);
    SkipWordAgree(s, t, a, n);
    SkipSpacesAgree(s, t, b, n);
    assert t[a..b] == s[a..b];
    assert MarkerAt(s) == Some(Marker(s[a..b], c + 2));
  }

  /** Inside a match no other match can start: the pattern's characters after the first
      are never an opening `{{`. */
  lemma NoMarkerInside(s: string, j: nat)
    requires MarkerAt(s).Some? && 0 < j < MarkerAt(s).value.len
    ensures MarkerAt(s[j..]).None?
  {
  }

  // ---- a worked example: "{{a}} and {{b}} and {{a}}" yields [a, b], a repeated marker giving one placeholder

  /** Text without braces contributes no names to the scan. */
  lemma {:induction false} NamesSkipBraceFree(p: string, t: string)
    requires BraceFree(p)
    ensures MarkerNames(p + t) == MarkerNames(t)
    decreases |p|
  {
    if p != [] {
      assert (p + t)[0] == p[0] && !IsBrace(p[0]);
      assert BraceFree(p[1..]) by {
        forall i | 0 <= i < |p[1..]| ensures !IsBrace(p[1..][i]) {
          assert p[1..][i] == p[i + 1];
        }
      }
      assert (p + t)[1..] == p[1..] + t;
      assert MarkerAt(p + t).None?;
      assert MarkerNames(p + t) == MarkerNames(p[1..] + t);
      NamesSkipBraceFree(p[1..], t);
    } else {
      assert p + t == t;
    }
  }

  lemma NamesOfLeadingMarker(m: string, t: string)
    requires MarkerAt(m).Some? && MarkerAt(m).value.len == |m|
    ensures MarkerNames(m + t) == [MarkerAt(m).value.name] + MarkerNames(t)
  {
    MarkerAtPrefix(m, m + t);
    assert (m + t)[|m|..] == t;
  }

  /** A maximal run of word characters from i to j is what the greedy `\w+` consumes. */
  lemma SkipWordTo(s: string, i: nat, j: nat)
    requires i <= j <= |s|
    requires forall k :: i <= k < j ==> IsWordChar(s[k])
    requires j == |s| || !IsWordChar(s[j])
    ensures SkipWord(s, i) == j
  {
  }

  /** The marker text `{{name}}` matches with exactly that name. */
  lemma CanonicalMarker(name: string)
    requires IsName(name)
    ensures MarkerAt("{{" + name + "}}") == Some(Marker(name, |name| + 4))
  {
    var s := "{{" + name + "}}";
    var e := 2 + |name|;
    assert s[2] == name[0] && IsWordChar(name[0]);
    assert SkipSpaces(s, 2) == 2;
    forall k | 2 <= k < e ensures IsWordChar(s[k]) {
      assert s[k] == name[k - 2];
    }
    assert s[e] == '}' && s[e + 1] == '}';
    SkipWordTo(s, 2, e);
    assert SkipSpaces(s, e) == e;
    assert s[2..e] == name;
  }

  /** A maximal run of white space from i to j is what the greedy `\s*` consumes. */
  lemma SkipSpacesTo(s: string, i: nat, j: nat)
    requires i <= j <= |s|
    requires forall k :: i <= k < j ==> IsSpace(s[k])
    requires j == |s| || !IsSpace(s[j])
    ensures SkipSpaces(s, i) == j
  {
  }

  /** A prefix of s cut at 2, a, b and c, as five consecutive slices. */
  lemma SliceParts(s: string, a: nat, b: nat, c: nat)
    requires 2 <= a <= b <= c && c + 2 <= |s|
    ensures s[..c + 2] == s[..2] + s[2..a] + s[a..b] + s[b..c] + s[c..c + 2]
  {
    assert s[..a] == s[..2] + s[2..a];
    assert s[..b] == s[..a] + s[a..b];
    assert s[..c] == s[..b] + s[b..c];
    assert s[..c + 2] == s[..c] + s[c..c + 2];
  }

  /** Soundness of the matcher: the matched text is `{{`, white space, the name, white space, `}}`. */
  lemma MarkerAtSound(s: string)
    requires MarkerAt(s).Some?
    ensures exists w1, w2 ::
              AllSpace(w1) && AllSpace(w2) && s[..MarkerAt(s).value.len] == "{{" + w1 + MarkerAt(s).value.name + w2 + "}}"
  {
    var a := SkipSpaces(s, 2);
    var b := SkipWord(s, a);
    var c := SkipSpaces(s, b);
    var w1, w2 := s[2..a], s[b..c];
    assert AllSpace(w1) && AllSpace(w2);
    SliceParts(s, a, b, c);
    assert s[..2] == "{{" && s[c..c + 2] == "}}";
    assert s[..c + 2] == "{{" + w1 + s[a..b] + w2 + "}}";
  }

  /** The characters of the text `{{`, w1, n, w2, `}}`, region by region. */
  lemma MarkerTextChars(w1: string, n: string, w2: string)
    ensures var s, a := "{{" + w1 + n + w2 + "}}", 2 + |w1|;
      && s[..2] == "{{" && s[a + |n| + |w2|..] == "}}"
      && (forall k :: 2 <= k < a ==> s[k] == w1[k - 2])
      && (forall k :: a <= k < a + |n| ==> s[k] == n[k - a])
      && (forall k :: a + |n| <= k < a + |n| + |w2| ==> s[k] == w2[k - a - |n|])
  {
    var x := "{{" + w1 + n;
    assert "{{" + w1 + n + w2 + "}}" == x + (w2 + "}}");
  }

  /** The text `{{`, white space, a name, white space, `}}` is one whole match. */
  lemma MarkerTextMatches(w1: string, n: string, w2: string)
    requires AllSpace(w1) && IsName(n) && AllSpace(w2)
    ensures MarkerAt("{{" + w1 + n + w2 + "}}") == Some(Marker(n, 4 + |w1| + |n| + |w2|))
  {
    var s := "{{" + w1 + n + w2 + "}}";
    var a := 2 + |w1|;
    var b := a + |n|;
    var c := b + |w2|;
    MarkerTextChars(w1, n, w2);
    assert s[c..] == "}}";
    assert s[c] == '}' && s[c + 1] == '}';
    assert s[a] == n[0];
    SkipSpacesTo(s, 2, a);
    SkipWordTo(s, a, b);
    SkipSpacesTo(s, b, c);
    assert s[a..b] == n;
  }

  /** Completeness of the matcher: `{{`, white space, a name, white space and `}}` match, whatever
      follows, with that name and exactly that length. */
  lemma MarkerAtComplete(w1: string, n: string, w2: string, rest: string)
    requires AllSpace(w1) && IsName(n) && AllSpace(w2)
    ensures MarkerAt("{{" + w1 + n + w2 + "}}" + rest) == Some(Marker(n, 4 + |w1| + |n| + |w2|))
  {
    var p := "{{" + w1 + n + w2 + "}}";
    MarkerTextMatches(w1, n, w2);
    assert (p + rest)[..|p|] == p[..|p|];
    MarkerAtPrefix(p, p + rest);
  }

  /** How far the scan moves on from the head of s: past a match, or one character. */
  function Step(s: string): (k: nat)
    requires s != []
    ensures 1 <= k <= |s|
    ensures MarkerAt(s).Some? ==> k == MarkerAt(s).value.len
  {
    if MarkerAt(s).Some? then MarkerAt(s).value.len else 1
  }

  /** One step of the scan: the name of a match at the head, then the scan of what follows. */
  lemma NamesUnfold(s: string)
    requires s != []
    ensures MarkerNames(s) == (if MarkerAt(s).Some? then [MarkerAt(s).value.name] else []) + MarkerNames(s[Step(s)..])
  {
  }

  /** A match found i - k characters into the text after position k is the match at i. */
  lemma ShiftedMatch(s: string, k: nat, i: nat)
    requires k <= i <= |s|
    ensures MarkerAt(s[k..][i - k..]) == MarkerAt(s[i..])
  {
    assert s[k..][i - k..] == s[i..];
  }

  /** A match at the head of s is the first name of the scan. */
  lemma HeadNameListed(s: string, n: string)
    requires MarkerAt(s[0..]).Some? && MarkerAt(s[0..]).value.name == n
    ensures n in MarkerNames(s)
  {
    assert s[0..] == s;
    NamesUnfold(s);
  }

  /** A name the scan finds after its first step is a name of the whole scan. */
  lemma NameOfStepListed(s: string, n: string)
    requires s != [] && n in MarkerNames(s[Step(s)..])
    ensures n in MarkerNames(s)
  {
    NamesUnfold(s);
  }

  /** A match starting after the head of s is not skipped by one step of the scan. */
  lemma MatchNotSkipped(s: string, i: nat)
    requires 0 < i <= |s| && MarkerAt(s[i..]).Some?
    ensures Step(s) <= i
  {
    if MarkerAt(s).Some? && i < Step(s) {
      NoMarkerInside(s, i);
    }
  }

  /** Every name of the scan is captured by a match starting somewhere in s. */
  lemma {:induction false} ListedNameMatches(s: string, n: string)
    requires n in MarkerNames(s)
    ensures exists i :: 0 <= i <= |s| && MarkerAt(s[i..]).Some? && MarkerAt(s[i..]).value.name == n
    decreases |s|
  {
    NamesUnfold(s);
    if MarkerAt(s).Some? && MarkerAt(s).value.name == n {
      assert s[0..] == s;
    } else {
      var k := Step(s);
      ListedNameMatches(s[k..], n);
      var j :| 0 <= j <= |s[k..]| && MarkerAt(s[k..][j..]).Some? && MarkerAt(s[k..][j..]).value.name == n;
      ShiftedMatch(s, k, k + j);
    }
  }

  /** Every match starting anywhere in s is found by the scan: a match that begins inside an
      earlier one is impossible, so skipping past a match never loses one. */
  lemma {:induction false} MatchNameListed(s: string, i: nat, m: Marker)
    requires i <= |s| && MarkerAt(s[i..]) == Some(m)
    ensures m.name in MarkerNames(s)
    decreases |s|
  {
    if i == 0 {
      HeadNameListed(s, m.name);
    } else {
      var k := Step(s);
      MatchNotSkipped(s, i);
      ShiftedMatch(s, k, i);
      assert 0 <= i - k <= |s[k..]|;
      MatchNameListed(s[k..], i - k, m);
      NameOfStepListed(s, m.name);
    }
  }

  /** The placeholders are exactly the names captured by the matches of the pattern in the template. */
  lemma PlaceholdersAreMatchNames(content: string, n: string)
    ensures n in Placeholders(content) <==>
      exists i :: 0 <= i <= |content| && MarkerAt(content[i..]).Some? && MarkerAt(content[i..]).value.name == n
  {
    if n in MarkerNames(content) {
      ListedNameMatches(content, n);
    }
    if exists i :: 0 <= i <= |content| && MarkerAt(content[i..]).Some? && MarkerAt(content[i..]).value.name == n {
      var i :| 0 <= i <= |content| && MarkerAt(content[i..]).Some? && MarkerAt(content[i..]).value.name == n;
      MatchNameListed(content, i, MarkerAt(content[i..]).value);
    }
  }

  /** Three canonical markers separated by brace-free text yield their three names, repeats included. */
  lemma NamesOfThreeMarkers(x: string, y: string, sep: string)
    requires IsName(x) && IsName(y) && BraceFree(sep)
    ensures MarkerNames("{{" + x + "}}" + (sep + ("{{" + y + "}}" + (sep + ("{{" + x + "}}"))))) == [x, y, x]
  {
    var mx, my := "{{" + x + "}}", "{{" + y + "}}";
    CanonicalMarker(x);
    CanonicalMarker(y);
    NamesOfLeadingMarker(mx, "");
    assert mx + "" == mx;
    NamesSkipBraceFree(sep, mx);
    NamesOfLeadingMarker(my, sep + mx);
    NamesSkipBraceFree(sep, my + (sep + mx));
    NamesOfLeadingMarker(mx, sep + (my + (sep + mx)));
  }

  lemma ExampleText()
    ensures "{{a}} and {{b}} and {{a}}" == "{{" + "a" + "}}" + (" and " + ("{{" + "b" + "}}" + (" and " + ("{{" + "a" + "}}"))))
    ensures IsName("a") && IsName("b") && BraceFree(" and ")
  {
  }

  lemma ExampleNames()
    ensures MarkerNames("{{a}} and {{b}} and {{a}}") == ["a", "b", "a"]
  {
    ExampleText();
    NamesOfThreeMarkers("a", "b", " and ");
  }

  lemma ExampleDistinct()
    ensures Distinct(["a", "b", "a"]) == ["a", "b"]
  {
    var names := ["a", "b", "a"];
    assert names[..1] == ["a"] && names[..1][..0] == [];
    assert Distinct(names[..1]) == ["a"];
    assert names[..2] == ["a", "b"] && names[..2][..1] == ["a"];
    assert Distinct(names[..2]) == ["a", "b"];
    assert names[..2] == names[..|names| - 1];
  }

  /** Repeated markers collapse to one placeholder each, in first-occurrence order. */
  lemma RepeatedNamesCollapse()
    ensures Placeholders("{{a}} and {{b}} and {{a}}") == ["a", "b"]
  {
    ExampleNames();
    ExampleDistinct();
  }
}
