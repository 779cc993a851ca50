/**
 The markdown form of a skill's parameters in `shared/skillParameters.ts`: the line
 parser, the section parser and the formatter.  Parsing what was formatted gives the
 parameters back for exactly the well-formed ones, and every text is normalised by one
 round of parsing and formatting.
 */
module SkillParameters {
  import opened Wrappers
  import opened Text

  datatype ParamType = StringType | NumberType | IntegerType | BooleanType | EnumType

  datatype Param = Param(
    name: string,
    ptype: ParamType,
    required: bool,
    description: string,
    enumValues: Option<seq<string>>
  )

  function TypeName(t: ParamType): string {
    match t
    case StringType => "string"
    case NumberType => "number"
    case IntegerType => "integer"
    case BooleanType => "boolean"
    case EnumType => "enum"
  }

  // ------------------------------------------------------------------ parser

  predicate IsWordChar(c: char) { 'a' <= c <= 'z' || 'A' <= c <= 'Z' || '0' <= c <= '9' || c == '_' }

  /** `s` starts with the type's name and a word boundary follows. */
  predicate StartsWithType(s: string, t: ParamType) {
    TypeName(t) <= s && (|s| == |TypeName(t)| || !IsWordChar(s[|TypeName(t)|]))
  }

  function LowerChar(c: char): char { if 'A' <= c <= 'Z' then (c as int + 32) as char else c }

  function Lower(s: string): string { seq(|s|, i requires 0 <= i < |s| => LowerChar(s[i])) }

  const REQUIRED := "(required)"

  /** `/^\(required\)/i`. */
  predicate StartsRequired(s: string) { |s| >= |REQUIRED| && Lower(s[..|REQUIRED|]) == REQUIRED }

  predicate IsDash(c: char) { c == '\U{2014}' || c == '\U{2013}' || c == '-' }

  /** `map(trim)` and `filter(Boolean)` on the parts of an enum list. */
  function CleanValues(parts: seq<string>): seq<string> {
    if parts == [] then []
    else (if Trim(parts[0]) == "" then [] else [Trim(parts[0])]) + CleanValues(parts[1..])
  }

  /** What is read at the type's place, and the trimmed rest of the line. */
  datatype TypePart = TypePart(ptype: ParamType, enumValues: Option<seq<string>>, after: string)

  const ENUM_OPEN := "enum["

  predicate HasEnumList(s: string) {
    ENUM_OPEN <= s && Find(s[|ENUM_OPEN|..], ']') < |s| - |ENUM_OPEN|
  }

  function ParseType(s: string): TypePart {
    if HasEnumList(s) then
      var body := s[|ENUM_OPEN|..];
      var j := Find(body, ']');
      TypePart(EnumType, Some(CleanValues(Split(body[..j], ','))), Trim(body[j + 1..]))
    else if StartsWithType(s, StringType) then TypePart(StringType, None, Trim(s[|TypeName(StringType)|..]))
    else if StartsWithType(s, NumberType) then TypePart(NumberType, None, Trim(s[|TypeName(NumberType)|..]))
    else if StartsWithType(s, IntegerType) then TypePart(IntegerType, None, Trim(s[|TypeName(IntegerType)|..]))
    else if StartsWithType(s, BooleanType) then TypePart(BooleanType, None, Trim(s[|TypeName(BooleanType)|..]))
    else TypePart(StringType, None, s)
  }

  /** The description after an optional dash. */
  function ParseDescription(s: string): string {
    if s != [] && IsDash(s[0]) then Trim(TrimStart(s[1..])) else Trim(s)
  }

  function ParseAfterName(name: string, s: string): Param {
    var t := ParseType(s);
    var required := StartsRequired(t.after);
    var after := if required then TrimStart(t.after[|REQUIRED|..]) else t.after;
    Param(name, t.ptype, required, ParseDescription(after), t.enumValues)
  }

  datatype NamedRest = NamedRest(name: string, rest: string)

  /** The bullet, the name before the first colon, and the trimmed text after it. */
  function SplitName(line: string): Option<NamedRest> {
    var trimmed := Trim(line);
    if !("- " <= trimmed) then None
    else
      var rest := trimmed[2..];
      var i := Find(rest, ':');
      if i == |rest| || Trim(rest[..i]) == "" then None
      else Some(NamedRest(Trim(rest[..i]), Trim(rest[i + 1..])))
  }

  function ParseParameterLine(line: string): Option<Param> {
    var named := SplitName(line);
    if named.None? then None else Some(ParseAfterName(named.value.name, named.value.rest))
  }

  /** The values that are there, in order. */
  function Collect<T>(xs: seq<Option<T>>): seq<T> {
    if xs == [] then []
    else Collect(xs[..|xs| - 1]) + if xs[|xs| - 1].Some? then [xs[|xs| - 1].value] else []
  }

  function ParseEach(lines: seq<string>): seq<Option<Param>> {
    seq(|lines|, i requires 0 <= i < |lines| => ParseParameterLine(lines[i]))
  }

  function ParseLines(lines: seq<string>): seq<Param> { Collect(ParseEach(lines)) }

  function ParseSection(text: string): seq<Param> { ParseLines(Split(text, '\n')) }

  method ParseParameterSection(text: string) returns (params: seq<Param>)
    ensures params == ParseSection(text)
  {
    var lines := Split(text, '\n');
    params := [];
    for i := 0 to |lines|
      invariant params == Collect(ParseEach(lines)[..i])
    {
      assert ParseEach(lines)[..i + 1][..i] == ParseEach(lines)[..i];
      var param := ParseParameterLine(lines[i]);
      if param.Some? {
        params := params + [param.value];
      }
    }
    assert ParseEach(lines)[..|lines|] == ParseEach(lines);
  }

  // ------------------------------------------------------------------ formatter

  function TypeText(p: Param): string {
    if p.ptype.EnumType? && p.enumValues.Some? then ENUM_OPEN + Join(p.enumValues.value, ", ") + "]"
    else TypeName(p.ptype)
  }

  function RequiredText(p: Param): string { if p.required then " (required)" else "" }

  function DescriptionText(p: Param): string {
    if p.description == "" then "" else " \U{2014} " + p.description
  }

  function FormatLine(p: Param): string {
    "- " + p.name + ": " + TypeText(p) + RequiredText(p) + DescriptionText(p)
  }

  function FormatAll(ps: seq<Param>): seq<string> {
    if ps == [] then [] else [FormatLine(ps[0])] + FormatAll(ps[1..])
  }

  function FormatParameterLines(ps: seq<Param>): string { Join(FormatAll(ps), "\n") }

  // ------------------------------------------------------------------ well-formed parameters

  predicate WellFormedName(s: string) { s != "" && Trimmed(s) && ':' !in s && '\n' !in s }

  predicate WellFormedValue(s: string) { s != "" && Trimmed(s) && ',' !in s && ']' !in s && '\n' !in s }

  predicate WellFormed(p: Param) {
    && WellFormedName(p.name)
    && Trimmed(p.description) && '\n' !in p.description
    && (p.ptype.EnumType? <==> p.enumValues.Some?)
    && (p.enumValues.Some? ==> forall i :: 0 <= i < |p.enumValues.value| ==> WellFormedValue(p.enumValues.value[i]))
  }

  predicate AllWellFormed(ps: seq<Param>) { forall i :: 0 <= i < |ps| ==> WellFormed(ps[i]) }

  // ------------------------------------------------------------------ the parser yields well-formed parameters only

  lemma {:induction false} CleanValuesMeaning(parts: seq<string>)
    requires forall i :: 0 <= i < |parts| ==> ',' !in parts[i] && ']' !in parts[i] && '\n' !in parts[i]
    ensures forall i :: 0 <= i < |CleanValues(parts)| ==> WellFormedValue(CleanValues(parts)[i])
  {
    if parts != [] {
      TrimMeaning(parts[0]);
      CleanValuesMeaning(parts[1..]);
    }
  }

  lemma RestTrims(s: string, n: nat)
    requires '\n' !in s
    ensures n <= |s| ==> Trimmed(Trim(s[n..])) && '\n' !in Trim(s[n..])
  {
    if n <= |s| { TrimMeaning(s[n..]); }
  }

  predicate WellFormedPart(t: TypePart) {
    && Trimmed(t.after) && '\n' !in t.after
    && (t.ptype.EnumType? <==> t.enumValues.Some?)
    && (t.enumValues.Some? ==> forall i :: 0 <= i < |t.enumValues.value| ==> WellFormedValue(t.enumValues.value[i]))
  }

  lemma EnumListYields(s: string)
    requires '\n' !in s && HasEnumList(s)
    ensures WellFormedPart(ParseType(s))
  {
    var body := s[|ENUM_OPEN|..];
    var j := Find(body, ']');
    var parts := Split(body[..j], ',');
    SplitMeaning(body[..j], ',');
    forall i | 0 <= i < |parts| ensures ',' !in parts[i] && ']' !in parts[i] && '\n' !in parts[i] {
      assert parts[i] in parts;
    }
    CleanValuesMeaning(parts);
    TrimMeaning(body[j + 1..]);
  }

  lemma ParseTypeYields(s: string)
    requires '\n' !in s && Trimmed(s)
    ensures WellFormedPart(ParseType(s))
  {
    if HasEnumList(s) {
      EnumListYields(s);
    } else {
      RestTrims(s, |TypeName(StringType)|);
      RestTrims(s, |TypeName(IntegerType)|);
      PlainTypeYields(s);
    }
  }

  /** Without an enum list, what follows the type is the trimmed rest after it, or the whole text. */
  lemma PlainTypeYields(s: string)
    requires !HasEnumList(s)
    ensures var t := ParseType(s);
      && !t.ptype.EnumType? && t.enumValues.None?
      && (t.after == s ||
          (|s| >= 6 && t.after == Trim(s[6..])) || (|s| >= 7 && t.after == Trim(s[7..])))
  {
  }

  lemma ParseDescriptionYields(s: string)
    requires '\n' !in s
    ensures Trimmed(ParseDescription(s)) && '\n' !in ParseDescription(s)
  {
    TrimMeaning(s);
    if s != [] {
      TrimStartMeaning(s[1..]);
      TrimMeaning(TrimStart(s[1..]));
    }
  }

  lemma SplitNameYields(line: string)
    requires '\n' !in line && SplitName(line).Some?
    ensures var n := SplitName(line).value; WellFormedName(n.name) && Trimmed(n.rest) && '\n' !in n.rest
  {
    TrimMeaning(line);
    var rest := Trim(line)[2..];
    var i := Find(rest, ':');
    TrimMeaning(rest[..i]);
    TrimMeaning(rest[i + 1..]);
  }

  lemma LineYieldsWellFormed(line: string)
    requires '\n' !in line
    ensures ParseParameterLine(line).Some? ==> WellFormed(ParseParameterLine(line).value)
  {
    if SplitName(line).Some? {
      SplitNameYields(line);
      var s := SplitName(line).value.rest;
      ParseTypeYields(s);
      var t := ParseType(s);
      if StartsRequired(t.after) { TrimStartMeaning(t.after[|REQUIRED|..]); }
      ParseDescriptionYields(if StartsRequired(t.after) then TrimStart(t.after[|REQUIRED|..]) else t.after);
    }
  }

  lemma {:induction false} CollectMeaning<T>(xs: seq<Option<T>>)
    ensures forall i :: 0 <= i < |Collect(xs)| ==> Some(Collect(xs)[i]) in xs
    ensures (forall i :: 0 <= i < |xs| ==> xs[i].Some?) ==>
      |Collect(xs)| == |xs| && forall i :: 0 <= i < |xs| ==> Some(Collect(xs)[i]) == xs[i]
  {
    if xs != [] { CollectMeaning(xs[..|xs| - 1]); }
  }

  /** Whatever the text, every parsed parameter is well formed. */
  lemma SectionYieldsWellFormed(text: string)
    ensures AllWellFormed(ParseSection(text))
  {
    SplitMeaning(text, '\n');
    var lines := Split(text, '\n');
    forall i | 0 <= i < |lines| ensures '\n' !in lines[i] { assert lines[i] in lines; }
    CollectMeaning(ParseEach(lines));
    var ps := ParseSection(text);
    forall k | 0 <= k < |ps| ensures WellFormed(ps[k]) {
      var i :| 0 <= i < |lines| && ParseEach(lines)[i] == Some(ps[k]);
      LineYieldsWellFormed(lines[i]);
    }
  }
}
