/**
 Everything the line parser accepts besides the printed form: blanks, any of the three
 dashes or none, `(required)` in any case, types left out, untidy enum lists.  And which
 lines are no parameters at all.
 */
module SkillParameterSpelling {
  import opened Wrappers
  import opened Text
  import opened SkillParameters

  // ------------------------------------------------------------------ spellings

  /** A part of an enum list: a value, or nothing, between blanks. */
  datatype Part = Part(before: string, value: string, after: string)

  /** The choices a writer has.  The strings are blanks, except `required`. */
  datatype Spelling = Spelling(
    afterBullet: string,
    beforeColon: string,
    afterColon: string,
    typed: bool,
    parts: seq<Part>,
    afterType: string,
    required: string,
    afterRequired: string,
    dash: Option<char>,
    afterDash: string
  )

  function PartText(p: Part): string { p.before + p.value + p.after }

  function PartTexts(parts: seq<Part>): seq<string> {
    if parts == [] then [] else [PartText(parts[0])] + PartTexts(parts[1..])
  }

  /** The values that are there. */
  function ValuesOf(parts: seq<Part>): seq<string> {
    if parts == [] then []
    else (if parts[0].value == "" then [] else [parts[0].value]) + ValuesOf(parts[1..])
  }

  function TypeSpelled(p: Param, sp: Spelling): string {
    match p.ptype
    case EnumType => "enum[" + Join(PartTexts(sp.parts), ",") + "]"
    case NumberType => "number"
    case IntegerType => "integer"
    case BooleanType => "boolean"
    case StringType => if sp.typed then "string" else ""
  }

  function DescriptionSpelled(p: Param, sp: Spelling): string {
    if sp.dash.Some? then [sp.dash.value] + (sp.afterDash + p.description) else p.description
  }

  function TailSpelled(p: Param, sp: Spelling): string {
    if p.required then sp.required + sp.afterRequired + DescriptionSpelled(p, sp) else DescriptionSpelled(p, sp)
  }

  function BodySpelled(p: Param, sp: Spelling): string {
    TypeSpelled(p, sp) + sp.afterType + TailSpelled(p, sp)
  }

  function LineSpelled(p: Param, sp: Spelling): string {
    "- " + sp.afterBullet + p.name + sp.beforeColon + ":" + sp.afterColon + BodySpelled(p, sp)
  }

  /** `(required)` in capital or small letters. */
  predicate SpellsRequired(s: string) {
    && |s| == 10 && s[0] == '(' && s[9] == ')'
    && s[1] in {'r', 'R'} && s[2] in {'e', 'E'} && s[3] in {'q', 'Q'} && s[4] in {'u', 'U'}
    && s[5] in {'i', 'I'} && s[6] in {'r', 'R'} && s[7] in {'e', 'E'} && s[8] in {'d', 'D'}
  }

  predicate LegalPart(p: Part) {
    && Blank(p.before) && Blank(p.after) && Trimmed(p.value)
    && ',' !in p.value && ']' !in p.value
  }

  /** Starts with a type's name that is not the beginning of a longer word, or with an enum list. */
  predicate LooksTyped(s: string) {
    || StartsWithWord(s, "string") || StartsWithWord(s, "number")
    || StartsWithWord(s, "integer") || StartsWithWord(s, "boolean")
    || ("enum[" <= s && ']' in s)
  }

  predicate StartsWithWord(s: string, w: string) {
    w <= s && (|s| > |w| ==> !IsLetterLike(s[|w|]))
  }

  predicate IsLetterLike(c: char) {
    ('0' <= c && c <= '9') || ('A' <= c && c <= 'Z') || ('a' <= c && c <= 'z') || c == '_'
  }

  predicate LegalBlanks(p: Param, sp: Spelling) {
    && Blank(sp.afterBullet) && Blank(sp.beforeColon) && Blank(sp.afterColon) && Blank(sp.afterType)
    && Blank(sp.afterRequired) && Blank(sp.afterDash)
    && (BodySpelled(p, sp) == "" ==> sp.afterColon == "")
    && (TailSpelled(p, sp) == "" ==> sp.afterType == "")
    && (DescriptionSpelled(p, sp) == "" ==> sp.afterRequired == "")
    && (p.description == "" ==> sp.afterDash == "")
  }

  /** A description without a dash must not look like something else. */
  predicate LegalDescription(p: Param, sp: Spelling) {
    if sp.dash.Some? then sp.dash.value in {'-', '\U{2013}', '\U{2014}'}
    else
      && (p.description != "" ==> p.description[0] !in {'-', '\U{2013}', '\U{2014}'})
      && (!p.required ==> |p.description| >= 10 ==> !SpellsRequired(p.description[..10]))
  }

  predicate LegalType(p: Param, sp: Spelling) {
    match p.ptype
    case EnumType => sp.parts != [] && p.enumValues == Some(ValuesOf(sp.parts))
                     && forall i :: 0 <= i < |sp.parts| ==> LegalPart(sp.parts[i])
    case StringType => if sp.typed then WordEnds(p, sp) else sp.afterType == "" && !LooksTyped(TailSpelled(p, sp))
    case _ => WordEnds(p, sp)
  }

  /** The type's name is not run together with a word. */
  predicate WordEnds(p: Param, sp: Spelling) {
    sp.afterType == "" && TailSpelled(p, sp) != "" ==> !IsLetterLike(TailSpelled(p, sp)[0])
  }

  predicate Legal(p: Param, sp: Spelling)
    requires WellFormed(p)
  {
    && LegalBlanks(p, sp) && LegalDescription(p, sp) && LegalType(p, sp)
    && (p.required ==> SpellsRequired(sp.required))
  }

  // ------------------------------------------------------------------ the pieces, read back

  lemma {:induction false} PartsRead(parts: seq<Part>)
    requires forall i :: 0 <= i < |parts| ==> LegalPart(parts[i])
    ensures CleanValues(PartTexts(parts)) == ValuesOf(parts)
    ensures |PartTexts(parts)| == |parts|
    ensures forall t :: t in PartTexts(parts) ==> ',' !in t && ']' !in t
  {
    if parts != [] {
      PartReads(parts[0]);
      PartsRead(parts[1..]);
      assert PartTexts(parts)[1..] == PartTexts(parts[1..]);
    }
  }

  lemma PartReads(p: Part)
    requires LegalPart(p)
    ensures Trim(PartText(p)) == p.value && ',' !in PartText(p) && ']' !in PartText(p)
  {
    TrimBetween(p.before, p.value, p.after);
  }

  lemma {:induction false} JoinHasNo(texts: seq<string>, c: char)
    requires c != ',' && forall t :: t in texts ==> c !in t
    ensures c !in Join(texts, ",")
  {
    if |texts| > 1 { JoinHasNo(texts[1..], c); }
  }

  lemma EnumReads(parts: seq<Part>, rest: string)
    requires parts != [] && forall i :: 0 <= i < |parts| ==> LegalPart(parts[i])
    ensures ParseType("enum[" + Join(PartTexts(parts), ",") + "]" + rest) ==
            TypePart(EnumType, Some(ValuesOf(parts)), Trim(rest))
  {
    PartsRead(parts);
    JoinHasNo(PartTexts(parts), ']');
    SplitJoin(PartTexts(parts), ',');
    ListReads(Join(PartTexts(parts), ","), rest);
  }

  lemma ListReads(list: string, rest: string)
    requires ']' !in list
    ensures ParseType("enum[" + list + "]" + rest) ==
            TypePart(EnumType, Some(CleanValues(Split(list, ','))), Trim(rest))
  {
    var s, body := "enum[" + list + "]" + rest, list + [']'] + rest;
    assert s == "enum[" + body && s[5..] == body;
    FindAt(list, ']', rest);
    assert body[..|list|] == list && body[|list| + 1..] == rest;
  }

  lemma WordReads(t: ParamType, rest: string)
    requires !t.EnumType? && (rest != "" ==> !IsLetterLike(rest[0]))
    ensures ParseType(TypeName(t) + rest) == TypePart(t, None, Trim(rest))
  {
    var s := TypeName(t) + rest;
    assert s[0] == TypeName(t)[0] && s[|TypeName(t)|..] == rest;
    assert !(ENUM_OPEN <= s) by { assert s[0] != ENUM_OPEN[0]; }
    assert StartsWithType(s, t);
    forall u | u != t && !u.EnumType? ensures !StartsWithType(s, u) { assert TypeName(u)[0] != s[0]; }
  }

  lemma UntypedReads(s: string)
    requires !LooksTyped(s)
    ensures ParseType(s) == TypePart(StringType, None, s)
  {
    if "enum[" <= s {
      assert s == "enum[" + s[5..];
      assert ']' !in s[5..];
    }
    assert StartsWithType(s, StringType) ==> StartsWithWord(s, "string");
    assert StartsWithType(s, NumberType) ==> StartsWithWord(s, "number");
    assert StartsWithType(s, IntegerType) ==> StartsWithWord(s, "integer");
    assert StartsWithType(s, BooleanType) ==> StartsWithWord(s, "boolean");
  }

  lemma RequiredMeaning(s: string)
    ensures StartsRequired(s) <==> |s| >= 10 && SpellsRequired(s[..10])
  {
    if |s| >= 10 {
      var l := Lower(s[..10]);
      forall i | 0 <= i < 10 ensures l[i] == LowerChar(s[i]) { CharCases(s[i]); }
      TenChars(l);
      CharCases(s[0]);
      CharCases(s[1]);
      CharCases(s[2]);
      CharCases(s[3]);
      CharCases(s[4]);
      CharCases(s[5]);
      CharCases(s[6]);
      CharCases(s[7]);
      CharCases(s[8]);
      CharCases(s[9]);
    }
  }

  lemma TenChars(l: string)
    requires |l| == 10
    ensures l == REQUIRED <==>
            && l[0] == '(' && l[1] == 'r' && l[2] == 'e' && l[3] == 'q' && l[4] == 'u'
            && l[5] == 'i' && l[6] == 'r' && l[7] == 'e' && l[8] == 'd' && l[9] == ')'
  {
    var r := REQUIRED;
    assert r[0] == '(' && r[1] == 'r' && r[2] == 'e' && r[3] == 'q' && r[4] == 'u';
    assert r[5] == 'i' && r[6] == 'r' && r[7] == 'e' && r[8] == 'd' && r[9] == ')';
  }

  lemma CharCases(c: char)
    ensures LowerChar(c) == '(' <==> c == '('
    ensures LowerChar(c) == ')' <==> c == ')'
    ensures LowerChar(c) == 'r' <==> c == 'r' || c == 'R'
    ensures LowerChar(c) == 'e' <==> c == 'e' || c == 'E'
    ensures LowerChar(c) == 'q' <==> c == 'q' || c == 'Q'
    ensures LowerChar(c) == 'u' <==> c == 'u' || c == 'U'
    ensures LowerChar(c) == 'i' <==> c == 'i' || c == 'I'
    ensures LowerChar(c) == 'd' <==> c == 'd' || c == 'D'
  {
  }

  // ------------------------------------------------------------------ the tail

  lemma DescriptionTrimmed(p: Param, sp: Spelling)
    requires WellFormed(p) && Legal(p, sp)
    ensures Trimmed(DescriptionSpelled(p, sp))
    ensures ParseDescription(DescriptionSpelled(p, sp)) == p.description
  {
    if sp.dash.Some? {
      DashedReads(sp.dash.value, sp.afterDash, p.description);
    } else {
      UndashedReads(p.description);
    }
  }

  lemma UndashedReads(d: string)
    requires Trimmed(d) && (d != "" ==> d[0] !in {'-', '\U{2013}', '\U{2014}'})
    ensures ParseDescription(d) == d
  {
    TrimFixed(d);
  }

  lemma DashedReads(dash: char, blank: string, d: string)
    requires dash in {'-', '\U{2013}', '\U{2014}'} && Blank(blank) && Trimmed(d) && (d == "" ==> blank == "")
    ensures Trimmed([dash] + (blank + d)) && ParseDescription([dash] + (blank + d)) == d
  {
    var t := [dash] + (blank + d);
    assert t[0] == dash && t[1..] == blank + d;
    TrimStartSkips(blank, d);
    TrimFixed(d);
    assert TrimStart(d) == d;
    if d != "" { assert t[|t| - 1] == d[|d| - 1]; }
  }

  lemma TailTrimmed(p: Param, sp: Spelling)
    requires WellFormed(p) && Legal(p, sp)
    ensures Trimmed(TailSpelled(p, sp))
  {
    DescriptionTrimmed(p, sp);
    if p.required {
      var a, d := TailSpelled(p, sp), DescriptionSpelled(p, sp);
      assert a[0] == '(';
      if d == "" { assert a == sp.required; } else { assert a[|a| - 1] == d[|d| - 1]; }
    }
  }

  lemma TailReads(p: Param, sp: Spelling)
    requires WellFormed(p) && Legal(p, sp)
    ensures var a := TailSpelled(p, sp);
      && (StartsRequired(a) <==> p.required)
      && ParseDescription(if p.required then TrimStart(a[10..]) else a) == p.description
  {
    DescriptionTrimmed(p, sp);
    if p.required {
      FlagReads(sp.required, sp.afterRequired, DescriptionSpelled(p, sp));
    } else {
      NoFlagReads(p, sp);
    }
  }

  lemma FlagReads(flag: string, blank: string, d: string)
    requires SpellsRequired(flag) && Blank(blank) && Trimmed(d)
    ensures var a := flag + blank + d; StartsRequired(a) && TrimStart(a[10..]) == d
  {
    var a := flag + blank + d;
    RequiredMeaning(a);
    assert a[..10] == flag && a[10..] == blank + d;
    TrimStartSkips(blank, d);
    assert TrimStart(d) == d;
  }

  lemma NoFlagReads(p: Param, sp: Spelling)
    requires WellFormed(p) && Legal(p, sp) && !p.required
    ensures !StartsRequired(TailSpelled(p, sp))
  {
    var d := DescriptionSpelled(p, sp);
    RequiredMeaning(d);
    if sp.dash.Some? { assert d[0] == sp.dash.value; }
  }

  // ------------------------------------------------------------------ the line

  lemma TypeReadsSpelled(p: Param, sp: Spelling)
    requires WellFormed(p) && Legal(p, sp)
    ensures ParseType(BodySpelled(p, sp)) == TypePart(p.ptype, p.enumValues, TailSpelled(p, sp))
  {
    var a := TailSpelled(p, sp);
    var rest := sp.afterType + a;
    TailTrimmed(p, sp);
    TrimPadded(sp.afterType, a);
    assert BodySpelled(p, sp) == TypeSpelled(p, sp) + rest;
    if p.ptype.EnumType? {
      EnumReads(sp.parts, rest);
    } else if p.ptype.StringType? && !sp.typed {
      assert BodySpelled(p, sp) == a;
      UntypedReads(a);
    } else {
      BlankIsNoLetter(sp.afterType);
      WordReads(p.ptype, rest);
    }
  }

  lemma BlankIsNoLetter(s: string)
    requires Blank(s)
    ensures s != "" ==> !IsLetterLike(s[0])
  {
  }

  lemma BodyTrimmed(p: Param, sp: Spelling)
    requires WellFormed(p) && Legal(p, sp)
    ensures Trimmed(BodySpelled(p, sp))
  {
    var t, a, b := TypeSpelled(p, sp), TailSpelled(p, sp), BodySpelled(p, sp);
    TailTrimmed(p, sp);
    if t == "" {
      assert b == a;
    } else {
      assert b[0] == t[0];
      if a == "" { assert b == t; } else { assert b[|b| - 1] == a[|a| - 1]; }
    }
  }

  lemma NameReadsSpelled(name: string, b1: string, b2: string, b3: string, body: string)
    requires WellFormedName(name) && Blank(b1) && Blank(b2) && Blank(b3) && Trimmed(body) && (body == "" ==> b3 == "")
    ensures SplitName("- " + b1 + name + b2 + ":" + b3 + body) == Some(NamedRest(name, body))
  {
    var n, after := b1 + name + b2, b3 + body;
    LineParts(b1, name, b2, b3, body);
    BulletReads(n + [':'] + after, if body == "" then ':' else body[|body| - 1]);
    assert ':' !in n;
    ColonSplits(n, after);
    TrimBetween(b1, name, b2);
    TrimPadded(b3, body);
  }

  lemma LineParts(b1: string, name: string, b2: string, b3: string, body: string)
    ensures "- " + b1 + name + b2 + ":" + b3 + body == "- " + ((b1 + name + b2) + [':'] + (b3 + body))
  {
    var n := b1 + name + b2;
    Concat("- ", b1, name);
    Concat("- ", b1 + name, b2);
    Concat("- ", n, ":");
    Concat("- " + (n + ":"), b3, body);
    Concat("- ", n + ":", b3 + body);
  }

  /** Where the first colon splits a text. */
  lemma ColonSplits(n: string, after: string)
    requires ':' !in n
    ensures var rest := n + [':'] + after;
      Find(rest, ':') == |n| && |n| < |rest| && rest[..|n|] == n && rest[|n| + 1..] == after
  {
    FindAt(n, ':', after);
  }

  lemma BulletReads(rest: string, last: char)
    requires rest != "" && rest[|rest| - 1] == last && !IsSpace(last)
    ensures Trim("- " + rest) == "- " + rest && ("- " + rest)[2..] == rest
  {
    TrimFixed("- " + rest);
  }

  /**
   Whatever spelling the writer chose, and whatever blanks stand around the line, the
   parser reads the parameter.
   */
  lemma ReadsEverySpelling(p: Param, sp: Spelling, before: string, after: string)
    requires WellFormed(p) && Legal(p, sp) && Blank(before) && Blank(after)
    ensures ParseParameterLine(before + LineSpelled(p, sp) + after) == Some(p)
  {
    BodyTrimmed(p, sp);
    NameReadsSpelled(p.name, sp.afterBullet, sp.beforeColon, sp.afterColon, BodySpelled(p, sp));
    BodyReads(p, sp);
    NamedReads(LineSpelled(p, sp), p.name, BodySpelled(p, sp));
    PaddingIgnored(before, LineSpelled(p, sp), after);
  }

  lemma BodyReads(p: Param, sp: Spelling)
    requires WellFormed(p) && Legal(p, sp)
    ensures ParseAfterName(p.name, BodySpelled(p, sp)) == p
  {
    TypeReadsSpelled(p, sp);
    TailReads(p, sp);
  }

  lemma NamedReads(line: string, name: string, rest: string)
    requires SplitName(line) == Some(NamedRest(name, rest))
    ensures ParseParameterLine(line) == Some(ParseAfterName(name, rest))
  {
  }

  // ------------------------------------------------------------------ lines that are no parameters

  ghost predicate NamesParameter(line: string, name: string, rest: string) {
    Trim(line) == "- " + name + ":" + rest && ':' !in name && !Blank(name)
  }

  /**
   A line is read exactly when, trimmed, it is a bullet, a text that is not blank, and a
   colon; that text is the name.
   */
  lemma WhichLinesAreRead(line: string)
    ensures ParseParameterLine(line).Some? <==> exists name, rest :: NamesParameter(line, name, rest)
    ensures forall name, rest :: NamesParameter(line, name, rest) ==>
      ParseParameterLine(line).value.name == Trim(name)
  {
    if SplitName(line).Some? { NamedLineIsSplit(line); }
    forall name, rest | NamesParameter(line, name, rest)
      ensures ParseParameterLine(line).Some? && ParseParameterLine(line).value.name == Trim(name)
    {
      NamedLineIsRead(line, name, rest);
      var x := SplitName(line).value;
      NamedReads(line, x.name, x.rest);
    }
  }

  lemma NamedLineIsSplit(line: string)
    requires SplitName(line).Some?
    ensures exists name, rest :: NamesParameter(line, name, rest)
  {
    var t := Trim(line);
    var r := t[2..];
    var i := Find(r, ':');
    CutAt(t, i);
    BlankTrims(r[..i]);
    assert NamesParameter(line, r[..i], r[i + 1..]);
  }

  lemma CutAt(t: string, i: nat)
    requires "- " <= t && i < |t| - 2 && t[2..][i] == ':'
    ensures t == "- " + t[2..][..i] + ":" + t[2..][i + 1..]
  {
    var r := t[2..];
    assert r == r[..i] + (":" + r[i + 1..]);
    assert t == "- " + r;
    Concat("- ", r[..i], ":" + r[i + 1..]);
    Concat("- " + r[..i], ":", r[i + 1..]);
  }

  lemma NamedLineIsRead(line: string, name: string, rest: string)
    requires NamesParameter(line, name, rest)
    ensures SplitName(line).Some? && SplitName(line).value.name == Trim(name)
  {
    var r := name + [':'] + rest;
    Concat("- ", name, ":");
    Concat("- ", name + ":", rest);
    assert Trim(line) == "- " + r && Trim(line)[2..] == r;
    ColonSplits(name, rest);
    BlankTrims(name);
  }

  lemma BlankTrims(s: string)
    ensures Blank(s) <==> Trim(s) == ""
  {
    TrimSplits(s);
    var a, b :| Between(s, a, Trim(s), b);
    TrimMeaning(s);
    if Trim(s) != "" { assert s[|a|] == Trim(s)[0]; }
  }

  // ------------------------------------------------------------------ sections

  lemma {:induction false} CollectConcat<T>(a: seq<Option<T>>, b: seq<Option<T>>)
    ensures Collect(a + b) == Collect(a) + Collect(b)
  {
    if b == [] {
      assert a + b == a;
    } else {
      assert (a + b)[..|a + b| - 1] == a + b[..|b| - 1];
      CollectConcat(a, b[..|b| - 1]);
    }
  }

  /** A section of two halves is read half by half. */
  lemma SectionConcat(a: string, b: string)
    ensures ParseSection(a + "\n" + b) == ParseSection(a) + ParseSection(b)
  {
    SplitConcat(a, '\n', b);
    assert ParseEach(Split(a, '\n') + Split(b, '\n')) == ParseEach(Split(a, '\n')) + ParseEach(Split(b, '\n'));
    CollectConcat(ParseEach(Split(a, '\n')), ParseEach(Split(b, '\n')));
  }

  /** A section of one line gives its parameter, or nothing. */
  lemma SectionOfLine(line: string)
    requires '\n' !in line
    ensures var p := ParseParameterLine(line); ParseSection(line) == if p.Some? then [p.value] else []
  {
    FindNone(line, '\n');
    assert Split(line, '\n') == [line];
    var xs := ParseEach([line]);
    assert xs == [ParseParameterLine(line)] && xs[..0] == [];
    assert Collect(xs) == Collect(xs[..0]) + if xs[0].Some? then [xs[0].value] else [];
  }

  /** Blanks around a line never change what is read from it. */
  lemma PaddingIgnored(before: string, line: string, after: string)
    requires Blank(before) && Blank(after)
    ensures ParseParameterLine(before + line + after) == ParseParameterLine(line)
  {
    TrimIgnoresPadding(before, line, after);
  }

  /** Line ends may be CRLF. */
  lemma {:induction false} CrLfSection(lines: seq<string>)
    requires forall l :: l in lines ==> '\n' !in l
    ensures ParseSection(Join(lines, "\r\n")) == ParseSection(Join(lines, "\n"))
  {
    if |lines| > 1 {
      var rest, rest' := Join(lines[1..], "\n"), Join(lines[1..], "\r\n");
      CrLfSection(lines[1..]);
      assert Join(lines, "\r\n") == (lines[0] + "\r") + "\n" + rest';
      SectionConcat(lines[0] + "\r", rest');
      SectionConcat(lines[0], rest);
      CrIsIgnored(lines[0]);
    }
  }

  lemma CrIsIgnored(line: string)
    requires '\n' !in line
    ensures ParseSection(line + "\r") == ParseSection(line)
  {
    assert "" + line + "\r" == line + "\r";
    PaddingIgnored("", line, "\r");
    SectionOfLine(line);
    SectionOfLine(line + "\r");
  }

  // ------------------------------------------------------------------ the printed form

  /** The printed form, by example. */
  lemma PrintedForm()
    ensures FormatLine(Param("q", StringType, true, "text", None)) == "- q: string (required) \U{2014} text"
  {
  }

  lemma PrintedEnum()
    ensures FormatLine(Param("n", EnumType, false, "", Some(["a", "b"]))) == "- n: enum[a, b]"
  {
    var values := ["a", "b"];
    assert values[1..] == ["b"];
    assert Join(values, ", ") == "a, b";
  }

  /** One line for each parameter, with a line feed between two. */
  lemma FormatConcat(p: Param, ps: seq<Param>)
    ensures FormatParameterLines([p] + ps) ==
            FormatLine(p) + if ps == [] then "" else "\n" + FormatParameterLines(ps)
  {
    FormatHead(p, ps);
    JoinHead(FormatAll([p] + ps), "\n");
  }

  lemma FormatHead(p: Param, ps: seq<Param>)
    ensures FormatAll([p] + ps) == [FormatLine(p)] + FormatAll(ps)
  {
    assert ([p] + ps)[1..] == ps;
  }
}
