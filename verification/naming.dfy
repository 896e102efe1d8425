/** Identifier conversion used by the generator: table and column names in
    snake_case become Go identifiers in CamelCase, and a table name also
    yields the plural (model list) and singular (model) type names. Case
    mapping is modelled on ASCII. */
module Naming {
  import opened Text

  /** The rune loop of `UnderscoresToCamelCase`, with `inName` the loop's
      `in_name` flag: an underscore inside a name is dropped and ends the
      name; the first character of a name is upper-cased. */
  function CamelFrom(s: string, inName: bool): string {
    if |s| == 0 then ""
    else if s[0] == '_' && inName then CamelFrom(s[1..], false)
    else if !inName then [UpperChar(s[0])] + CamelFrom(s[1..], true)
    else [s[0]] + CamelFrom(s[1..], true)
  }

  function UnderscoresToCamelCase(v: string): string {
    CamelFrom(v, false)
  }

  lemma {:induction false} CamelFromLength(s: string, inName: bool)
    ensures |CamelFrom(s, inName)| <= |s|
    ensures !inName ==> (|CamelFrom(s, inName)| > 0 <==> |s| > 0)
    ensures !inName && |s| > 0 ==> CamelFrom(s, inName)[0] == UpperChar(s[0])
  {
    if |s| > 0 {
      if s[0] == '_' && inName {
        CamelFromLength(s[1..], false);
      } else {
        CamelFromLength(s[1..], true);
        assert CamelFrom(s, inName) == [if inName then s[0] else UpperChar(s[0])] + CamelFrom(s[1..], true);
      }
    }
  }

  /** The output is never longer than the input, is empty only for empty
      input, and starts with the upper-cased first input character. */
  lemma CamelCaseShape(v: string)
    ensures |UnderscoresToCamelCase(v)| <= |v|
    ensures |UnderscoresToCamelCase(v)| > 0 <==> |v| > 0
    ensures |v| > 0 ==> UnderscoresToCamelCase(v)[0] == UpperChar(v[0])
  {
    CamelFromLength(v, false);
  }

  /** Inside a name, characters other than the underscore are copied unchanged. */
  lemma {:induction false} CamelCopiesWord(a: string, rest: string)
    requires forall i :: 0 <= i < |a| ==> a[i] != '_'
    ensures CamelFrom(a + rest, true) == a + CamelFrom(rest, true)
  {
    if |a| > 0 {
      var s := a + rest;
      assert s[0] == a[0] && s[0] != '_';
      assert s[1..] == a[1..] + rest;
      assert CamelFrom(s, true) == [s[0]] + CamelFrom(s[1..], true);
      CamelCopiesWord(a[1..], rest);
      assert CamelFrom(s[1..], true) == a[1..] + CamelFrom(rest, true);
      assert a == [a[0]] + a[1..];
      assert [a[0]] + (a[1..] + CamelFrom(rest, true)) == a + CamelFrom(rest, true);
    } else {
      assert a + rest == rest;
    }
  }

  /** For input without underscores only the first character changes. */
  lemma CamelCaseWithoutUnderscore(v: string)
    requires |v| > 0
    requires forall i :: 0 <= i < |v| ==> v[i] != '_'
    ensures UnderscoresToCamelCase(v) == [UpperChar(v[0])] + v[1..]
  {
    CamelCopiesWord(v[1..], "");
    assert v[1..] + "" == v[1..];
  }

  /** A word followed by an underscore contributes its capitalised form and
      the underscore starts a fresh capitalised name. */
  lemma CamelCaseSplitsAtUnderscore(word: string, rest: string)
    requires |word| > 0
    requires forall i :: 0 <= i < |word| ==> word[i] != '_'
    ensures UnderscoresToCamelCase(word + "_" + rest)
            == [UpperChar(word[0])] + word[1..] + UnderscoresToCamelCase(rest)
  {
    assert (word + "_" + rest)[1..] == word[1..] + ("_" + rest);
    CamelCopiesWord(word[1..], "_" + rest);
    assert ("_" + rest)[1..] == rest;
  }

  lemma CreatedAtExample()
    ensures UnderscoresToCamelCase("created_at") == "CreatedAt"
  {
    CamelCaseSplitsAtUnderscore("created", "at");
    assert "created" + "_" + "at" == "created_at";
    CamelCaseWithoutUnderscore("at");
  }

  /** No underscore survives when the input neither starts with one nor has two in a row. */
  predicate SingleUnderscores(s: string) {
    forall i :: 0 <= i < |s| - 1 ==> !(s[i] == '_' && s[i + 1] == '_')
  }

  lemma {:induction false} CamelFromDropsUnderscores(s: string, inName: bool)
    requires SingleUnderscores(s)
    requires |s| > 0 && !inName ==> s[0] != '_'
    ensures forall i :: 0 <= i < |CamelFrom(s, inName)| ==> CamelFrom(s, inName)[i] != '_'
  {
    if |s| > 0 {
      assert SingleUnderscores(s[1..]);
      if s[0] == '_' && inName {
        CamelFromDropsUnderscores(s[1..], false);
      } else {
        CamelFromDropsUnderscores(s[1..], true);
      }
    }
  }

  lemma UpperCharIdempotent(c: char)
    ensures UpperChar(UpperChar(c)) == UpperChar(c)
  {
  }

  /** Converting twice is converting once, for names without leading or
      doubled underscores. */
  lemma CamelCaseIdempotent(v: string)
    requires |v| > 0 && v[0] != '_'
    requires SingleUnderscores(v)
    ensures UnderscoresToCamelCase(UnderscoresToCamelCase(v)) == UnderscoresToCamelCase(v)
  {
    var c := UnderscoresToCamelCase(v);
    CamelFromDropsUnderscores(v, false);
    CamelCaseShape(v);
    CamelCaseWithoutUnderscore(c);
    UpperCharIdempotent(v[0]);
    assert c == [c[0]] + c[1..];
  }

  /** `tempModelNamer`: the plural name is the camel-cased table name and the
      singular name drops its last character. The table name must be
      non-empty, otherwise the slice expression panics. */
  function TempModelNamer(v: string): (r: (string, string))
    requires |v| > 0
    ensures |r.0| > 0 && r.0[0] == UpperChar(v[0])
    ensures r.1 + [r.0[|r.0| - 1]] == r.0
  {
    CamelCaseShape(v);
    var plural := UnderscoresToCamelCase(v);
    (plural, plural[0..|plural| - 1])
  }

  lemma TrucksExample()
    ensures TempModelNamer("trucks") == ("Trucks", "Truck")
  {
    CamelCaseWithoutUnderscore("trucks");
    assert UpperChar('t') == 'T';
    assert UnderscoresToCamelCase("trucks") == "Trucks";
    assert "Trucks"[0..5] == "Truck";
  }
}
