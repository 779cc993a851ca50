/**
 Formatting and parsing are inverse exactly on well-formed parameters, so one round of
 both normalises any text.
 */
module SkillParameterRoundTrip {
  import opened Wrappers
  import opened Text
  import opened SkillParameters

  // ------------------------------------------------------------------ enum lists

  /** The parts the parser sees between the commas of a joined enum list. */
  function Spaced(values: seq<string>): seq<string> {
    if values == [] then [] else [" " + values[0]] + Spaced(values[1..])
  }

  predicate CleanList(values: seq<string>) {
    forall i :: 0 <= i < |values| ==> WellFormedValue(values[i])
  }

  lemma {:induction false} CleanSpaced(values: seq<string>)
    requires CleanList(values)
    ensures CleanValues(Spaced(values)) == values
  {
    if values != [] {
      TrimPadded(" ", values[0]);
      CleanSpaced(values[1..]);
    }
  }

  lemma {:induction false} SplitSpaced(pad: string, values: seq<string>)
    requires ',' !in pad && CleanList(values) && values != []
    ensures Split(pad + Join(values, ", "), ',') == [pad + values[0]] + Spaced(values[1..])
    decreases |values|
  {
    var s := pad + Join(values, ", ");
    var head := pad + values[0];
    if |values| == 1 {
      assert s == head;
      FindNone(head, ',');
      assert Spaced(values[1..]) == [];
    } else {
      var rest := " " + Join(values[1..], ", ");
      assert s == head + [','] + rest;
      FindAt(head, ',', rest);
      assert s[..|head|] == head && s[|head| + 1..] == rest;
      SplitSpaced(" ", values[1..]);
      assert Spaced(values[1..]) == [" " + values[1]] + Spaced(values[2..]);
      assert values[1..][1..] == values[2..];
    }
  }

  lemma EnumListRoundTrip(values: seq<string>)
    requires CleanList(values)
    ensures CleanValues(Split(Join(values, ", "), ',')) == values
  {
    if values == [] {
      assert Split("", ',') == [""];
    } else {
      var list := Join(values, ", ");
      assert "" + list == list && "" + values[0] == values[0];
      SplitSpaced("", values);
      CleanFirst(values);
    }
  }

  lemma CleanFirst(values: seq<string>)
    requires CleanList(values) && values != []
    ensures CleanValues([values[0]] + Spaced(values[1..])) == values
  {
    TrimFixed(values[0]);
    CleanSpaced(values[1..]);
    assert ([values[0]] + Spaced(values[1..]))[1..] == Spaced(values[1..]);
    assert [values[0]] + values[1..] == values;
  }

  lemma {:induction false} JoinAvoids(values: seq<string>, sep: string, c: char)
    requires c !in sep && forall i :: 0 <= i < |values| ==> c !in values[i]
    ensures c !in Join(values, sep)
  {
    if |values| > 1 { JoinAvoids(values[1..], sep, c); }
  }

  // ------------------------------------------------------------------ one line

  /** The text after the type, without the space before it. */
  function AfterType(p: Param): string {
    if p.required then REQUIRED + DescriptionText(p)
    else if p.description == "" then "" else "\U{2014} " + p.description
  }

  lemma TailText(p: Param)
    ensures RequiredText(p) + DescriptionText(p) == (if AfterType(p) == "" then "" else " " + AfterType(p))
  {
  }

  lemma AfterTypeTrimmed(p: Param)
    requires WellFormed(p)
    ensures Trimmed(AfterType(p))
  {
  }

  lemma AfterTypeTrims(p: Param)
    requires WellFormed(p)
    ensures Trimmed(AfterType(p))
    ensures Trim(RequiredText(p) + DescriptionText(p)) == AfterType(p)
    ensures RequiredText(p) + DescriptionText(p) == (if AfterType(p) == "" then "" else " " + AfterType(p))
  {
    TailText(p);
    AfterTypeTrimmed(p);
    if AfterType(p) != "" { TrimPadded(" ", AfterType(p)); }
  }

  lemma PlainTypeReads(p: Param, tail: string)
    requires !p.ptype.EnumType? && (tail == "" || tail[0] == ' ')
    ensures ParseType(TypeName(p.ptype) + tail) == TypePart(p.ptype, None, Trim(tail))
  {
    var s := TypeName(p.ptype) + tail;
    assert s[0] == TypeName(p.ptype)[0] && s[|TypeName(p.ptype)|..] == tail;
    assert !(ENUM_OPEN <= s) by { assert s[0] != ENUM_OPEN[0]; }
    assert StartsWithType(s, p.ptype);
    forall t | t != p.ptype && !t.EnumType? ensures !StartsWithType(s, t) {
      assert TypeName(t)[0] != s[0];
    }
  }

  lemma EnumTypeReads(values: seq<string>, tail: string)
    requires CleanList(values)
    ensures ParseType(ENUM_OPEN + Join(values, ", ") + "]" + tail) == TypePart(EnumType, Some(values), Trim(tail))
  {
    var list := Join(values, ", ");
    JoinAvoids(values, ", ", ']');
    BracketReads(list, tail);
    EnumListRoundTrip(values);
  }

  lemma BracketReads(list: string, tail: string)
    requires ']' !in list
    ensures ParseType(ENUM_OPEN + list + "]" + tail) ==
            TypePart(EnumType, Some(CleanValues(Split(list, ','))), Trim(tail))
  {
    var s := ENUM_OPEN + list + "]" + tail;
    var body := list + [']'] + tail;
    assert s == ENUM_OPEN + body && s[|ENUM_OPEN|..] == body;
    FindAt(list, ']', tail);
    assert body[..|list|] == list && body[|list| + 1..] == tail;
  }

  lemma TypeReads(p: Param)
    requires WellFormed(p)
    ensures ParseType(TypeText(p) + RequiredText(p) + DescriptionText(p)) ==
            TypePart(p.ptype, p.enumValues, AfterType(p))
  {
    var tail := RequiredText(p) + DescriptionText(p);
    AfterTypeTrims(p);
    Associate(TypeText(p), RequiredText(p), DescriptionText(p));
    TypeTextReads(p, tail);
  }

  lemma Associate(a: string, b: string, c: string)
    ensures a + b + c == a + (b + c)
  {
  }

  lemma TypeTextReads(p: Param, tail: string)
    requires WellFormed(p) && (tail == "" || tail[0] == ' ')
    ensures ParseType(TypeText(p) + tail) == TypePart(p.ptype, p.enumValues, Trim(tail))
  {
    if p.ptype.EnumType? {
      EnumTypeReads(p.enumValues.value, tail);
    } else {
      PlainTypeReads(p, tail);
    }
  }

  lemma RequiredReads(p: Param)
    requires WellFormed(p)
    ensures StartsRequired(AfterType(p)) <==> p.required
    ensures p.required ==> AfterType(p)[|REQUIRED|..] == DescriptionText(p)
  {
    var a := AfterType(p);
    if p.required {
      assert a[..|REQUIRED|] == REQUIRED;
      assert forall i :: 0 <= i < |REQUIRED| ==> LowerChar(REQUIRED[i]) == REQUIRED[i];
      assert Lower(REQUIRED) == REQUIRED;
    } else if |a| >= |REQUIRED| {
      assert Lower(a[..|REQUIRED|])[0] == LowerChar(a[0]) == '\U{2014}';
      assert REQUIRED[0] == '(';
    }
  }

  lemma DescriptionReads(d: string)
    requires Trimmed(d) && d != ""
    ensures ParseDescription("\U{2014} " + d) == d
    ensures TrimStart(" \U{2014} " + d) == "\U{2014} " + d
  {
    var s := "\U{2014} " + d;
    assert s[1..] == " " + d;
    TrimStartSkips(" ", d);
    assert TrimStart(d) == d && Trim(d) == d;
    TrimStartSkips(" ", s);
    assert " \U{2014} " + d == " " + s;
  }

  lemma RestReads(p: Param)
    requires WellFormed(p)
    ensures ParseAfterName(p.name, TypeText(p) + RequiredText(p) + DescriptionText(p)) == p
  {
    TypeReads(p);
    RequiredReads(p);
    if p.description != "" {
      DescriptionReads(p.description);
    }
  }

  lemma BodyTrimmed(p: Param)
    requires WellFormed(p)
    ensures var body := TypeText(p) + RequiredText(p) + DescriptionText(p); body != "" && Trimmed(body)
  {
  }

  lemma NameReads(name: string, body: string)
    requires WellFormedName(name) && body != "" && Trimmed(body)
    ensures SplitName("- " + name + ": " + body) == Some(NamedRest(name, body))
  {
    var line := "- " + name + ": " + body;
    var rest := name + [':'] + (" " + body);
    assert line == "- " + rest && line[2..] == rest;
    assert line[0] == '-' && line[|line| - 1] == body[|body| - 1];
    TrimFixed(line);
    FindAt(name, ':', " " + body);
    assert rest[..|name|] == name && rest[|name| + 1..] == " " + body;
    TrimFixed(name);
    TrimPadded(" ", body);
  }

  /** A formatted well-formed parameter parses back to itself. */
  lemma LineRoundTrip(p: Param)
    requires WellFormed(p)
    ensures ParseParameterLine(FormatLine(p)) == Some(p)
  {
    var body := TypeText(p) + RequiredText(p) + DescriptionText(p);
    BodyTrimmed(p);
    LineText(p);
    NameReads(p.name, body);
    RestReads(p);
  }

  lemma LineText(p: Param)
    ensures FormatLine(p) == "- " + p.name + ": " + (TypeText(p) + RequiredText(p) + DescriptionText(p))
  {
    var head := "- " + p.name + ": ";
    Associate(head, TypeText(p), RequiredText(p));
    Associate(head, TypeText(p) + RequiredText(p), DescriptionText(p));
  }

  lemma FormattedLineHasNoBreak(p: Param)
    requires WellFormed(p)
    ensures '\n' !in FormatLine(p)
  {
    if p.ptype.EnumType? {
      JoinAvoids(p.enumValues.value, ", ", '\n');
    }
    assert '\n' !in TypeText(p);
  }

  // ------------------------------------------------------------------ a whole section

  lemma {:induction false} FormatAllShape(ps: seq<Param>, i: nat)
    requires i < |ps|
    ensures |FormatAll(ps)| == |ps| && FormatAll(ps)[i] == FormatLine(ps[i])
  {
    if |ps| > 1 {
      FormatAllShape(ps[1..], if i > 0 then i - 1 else 0);
    } else {
      assert ps[1..] == [];
    }
  }

  lemma {:induction false} FormatAllLength(ps: seq<Param>)
    ensures |FormatAll(ps)| == |ps|
  {
    if ps != [] { FormatAllLength(ps[1..]); }
  }

  lemma ParseFormatted(ps: seq<Param>)
    requires AllWellFormed(ps)
    ensures ParseLines(FormatAll(ps)) == ps
  {
    var xs := ParseEach(FormatAll(ps));
    FormatAllLength(ps);
    forall i | 0 <= i < |ps| ensures xs[i] == Some(ps[i]) {
      FormatAllShape(ps, i);
      LineRoundTrip(ps[i]);
    }
    CollectMeaning(xs);
    assert forall i :: 0 <= i < |ps| ==> Some(Collect(xs)[i]) == Some(ps[i]);
  }

  /** `parse(format(ps)) = ps` for exactly the lists of well-formed parameters. */
  lemma FormatRoundTrip(ps: seq<Param>)
    ensures ParseSection(FormatParameterLines(ps)) == ps <==> AllWellFormed(ps)
  {
    if AllWellFormed(ps) {
      if ps == [] {
        assert Split("", '\n') == [""];
        assert ParseEach([""]) == [None];
        CollectMeaning(ParseEach([""]));
      } else {
        FormatAllLength(ps);
        forall line | line in FormatAll(ps) ensures '\n' !in line {
          var i :| 0 <= i < |FormatAll(ps)| && FormatAll(ps)[i] == line;
          FormatAllShape(ps, i);
          FormattedLineHasNoBreak(ps[i]);
        }
        SplitJoin(FormatAll(ps), '\n');
        ParseFormatted(ps);
      }
    }
    if ParseSection(FormatParameterLines(ps)) == ps {
      SectionYieldsWellFormed(FormatParameterLines(ps));
    }
  }

  function Normalise(text: string): string { FormatParameterLines(ParseSection(text)) }

  /**
   For every text: parsing its normal form gives what parsing the text gives, and the
   normal form is a fixed point.
   */
  lemma NormalisesEveryText(text: string)
    ensures ParseSection(Normalise(text)) == ParseSection(text)
    ensures Normalise(Normalise(text)) == Normalise(text)
  {
    SectionYieldsWellFormed(text);
    FormatRoundTrip(ParseSection(text));
  }

  /** The formatter is injective on well-formed lists: equal markdown means equal parameters. */
  lemma FormatIsInjective(a: seq<Param>, b: seq<Param>)
    requires AllWellFormed(a) && AllWellFormed(b)
    requires FormatParameterLines(a) == FormatParameterLines(b)
    ensures a == b
  {
    FormatRoundTrip(a);
    FormatRoundTrip(b);
  }
}
