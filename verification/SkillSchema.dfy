/**
 The conversion between parameter lists and JSON-schema objects in
 `shared/skillParameters.ts`.  A schema's properties are a JavaScript object, so the
 model keeps the order of own properties: integer-like keys first, ascending, then the
 others in order of insertion; and `__proto__` never becomes an own property.
 */
module SkillSchema {
  import opened Wrappers
  import opened Text
  import opened SkillParameters

  // ------------------------------------------------------------------ objects

  /** A property definition; every part may be missing in a schema from elsewhere. */
  datatype Def = Def(typ: Option<string>, enumVals: Option<seq<string>>, description: Option<string>)

  datatype Prop = Prop(key: string, def: Def)

  datatype Schema = Schema(properties: seq<Prop>, required: seq<string>)

  function ToNat(s: string): nat {
    if s == [] then 0
    else 10 * ToNat(s[..|s| - 1]) + if IsDigit(s[|s| - 1]) then s[|s| - 1] as int - '0' as int else 0
  }

  const MAX_INDEX := 0xFFFF_FFFE

  /** A key that JavaScript orders by number: canonical decimal, at most 2^32 - 2. */
  predicate IsIndex(k: string) {
    && k != ""
    && (forall i :: 0 <= i < |k| ==> IsDigit(k[i]))
    && (k[0] == '0' ==> |k| == 1)
    && ToNat(k) <= MAX_INDEX
  }

  /** `a` comes before `b` when both are own keys and `a` was inserted first. */
  predicate StaysBefore(a: string, b: string) {
    IsIndex(b) ==> IsIndex(a) && ToNat(a) < ToNat(b)
  }

  function Keys(o: seq<Prop>): seq<string> { seq(|o|, i requires 0 <= i < |o| => o[i].key) }

  function Insert(o: seq<Prop>, p: Prop): seq<Prop> {
    if o == [] then [p]
    else if StaysBefore(o[0].key, p.key) then [o[0]] + Insert(o[1..], p)
    else [p] + o
  }

  function Replace(o: seq<Prop>, p: Prop): seq<Prop> {
    if o == [] then []
    else if o[0].key == p.key then [p] + o[1..]
    else [o[0]] + Replace(o[1..], p)
  }

  /** `obj[key] = def`. */
  function Put(o: seq<Prop>, p: Prop): seq<Prop> {
    if p.key == "__proto__" then o
    else if p.key in Keys(o) then Replace(o, p)
    else Insert(o, p)
  }

  // ------------------------------------------------------------------ conversions

  function DefOf(p: Param): Def {
    if p.ptype.EnumType? && p.enumValues.Some? && |p.enumValues.value| > 0
    then Def(Some("string"), p.enumValues, Some(p.description))
    else Def(Some(if p.ptype.EnumType? then "string" else TypeName(p.ptype)), None, Some(p.description))
  }

  function PropertiesOf(ps: seq<Param>): seq<Prop> {
    if ps == [] then []
    else
      var n := |ps| - 1;
      Put(PropertiesOf(ps[..n]), Prop(ps[n].name, DefOf(ps[n])))
  }

  function RequiredNames(ps: seq<Param>): seq<string> {
    if ps == [] then []
    else
      var n := |ps| - 1;
      RequiredNames(ps[..n]) + if ps[n].required then [ps[n].name] else []
  }

  function ToSchema(ps: seq<Param>): Schema { Schema(PropertiesOf(ps), RequiredNames(ps)) }

  method ParametersToSchema(params: seq<Param>) returns (s: Schema)
    ensures s == ToSchema(params)
  {
    var properties: seq<Prop>, required: seq<string> := [], [];
    for i := 0 to |params|
      invariant Schema(properties, required) == ToSchema(params[..i])
    {
      assert params[..i + 1][..i] == params[..i];
      var p := params[i];
      if p.ptype.EnumType? && p.enumValues.Some? && |p.enumValues.value| > 0 {
        properties := Put(properties, Prop(p.name, Def(Some("string"), p.enumValues, Some(p.description))));
      } else {
        var typ := if p.ptype.EnumType? then "string" else TypeName(p.ptype);
        properties := Put(properties, Prop(p.name, Def(Some(typ), None, Some(p.description))));
      }
      if p.required {
        required := required + [p.name];
      }
    }
    assert params[..|params|] == params;
    s := Schema(properties, required);
  }

  /** Unknown and complex types read as string. */
  function ReadType(raw: string): ParamType {
    if raw == "string" then StringType
    else if raw == "number" then NumberType
    else if raw == "integer" then IntegerType
    else if raw == "boolean" then BooleanType
    else StringType
  }

  function ParamOf(p: Prop, required: seq<string>): Param {
    var description := if p.def.description.Some? then p.def.description.value else "";
    if p.def.enumVals.Some? then Param(p.key, EnumType, p.key in required, description, p.def.enumVals)
    else
      var typ := if p.def.typ.Some? then p.def.typ.value else "string";
      Param(p.key, ReadType(typ), p.key in required, description, None)
  }

  function ToParameters(s: Schema): seq<Param> {
    seq(|s.properties|, i requires 0 <= i < |s.properties| => ParamOf(s.properties[i], s.required))
  }

  method SchemaToParameters(s: Schema) returns (params: seq<Param>)
    ensures params == ToParameters(s)
  {
    params := [];
    for i := 0 to |s.properties|
      invariant params == ToParameters(s)[..i]
    {
      params := params + [ParamOf(s.properties[i], s.required)];
    }
  }

  // ------------------------------------------------------------------ key order

  /** A possible key order of an object: distinct, integer-like keys first and ascending, no `__proto__`. */
  ghost predicate ObjectOrder(ks: seq<string>) {
    && (forall i, j :: 0 <= i < j < |ks| ==> ks[i] != ks[j] && StaysBefore(ks[i], ks[j]))
    && (forall i :: 0 <= i < |ks| ==> ks[i] != "__proto__")
  }

  lemma {:induction false} InsertLast(o: seq<Prop>, p: Prop)
    requires forall i :: 0 <= i < |o| ==> StaysBefore(o[i].key, p.key)
    ensures Insert(o, p) == o + [p]
  {
    if o != [] {
      InsertLast(o[1..], p);
      assert [o[0]] + (o[1..] + [p]) == o + [p];
    }
  }

  lemma {:induction false} ReplaceKeepsKeys(o: seq<Prop>, p: Prop)
    ensures Keys(Replace(o, p)) == Keys(o)
    ensures forall x :: x in Replace(o, p) ==> x == p || x in o
  {
    if o != [] {
      ReplaceKeepsKeys(o[1..], p);
      assert Keys(o) == [o[0].key] + Keys(o[1..]);
      if o[0].key == p.key {
        assert Keys([p] + o[1..]) == [p.key] + Keys(o[1..]);
      } else {
        assert Keys([o[0]] + Replace(o[1..], p)) == [o[0].key] + Keys(Replace(o[1..], p));
      }
    }
  }

  lemma {:induction false} InsertElements(o: seq<Prop>, p: Prop)
    ensures forall x :: x in Insert(o, p) <==> x == p || x in o
  {
    if o != [] { InsertElements(o[1..], p); }
  }

  /** Insertion keeps the order of an object. */
  lemma {:induction false} InsertKeepsOrder(o: seq<Prop>, p: Prop)
    requires ObjectOrder(Keys(o)) && p.key !in Keys(o) && p.key != "__proto__"
    ensures ObjectOrder(Keys(Insert(o, p)))
  {
    var r := Insert(o, p);
    if o != [] && StaysBefore(o[0].key, p.key) {
      assert Keys(o[1..]) == Keys(o)[1..];
      InsertKeepsOrder(o[1..], p);
      InsertElements(o[1..], p);
      var rest := Insert(o[1..], p);
      assert forall i :: 1 <= i < |r| ==> r[i] == rest[i - 1] && Keys(r)[i] == Keys(rest)[i - 1];
      assert Keys(r)[0] == Keys(o)[0] != "__proto__";
      forall i | 1 <= i < |r| ensures r[0].key != r[i].key && StaysBefore(r[0].key, r[i].key) {
        assert rest[i - 1] in rest;
        if rest[i - 1] != p {
          var k :| 0 <= k < |o[1..]| && o[1..][k] == rest[i - 1];
          assert Keys(o)[0] == o[0].key && Keys(o)[k + 1] == r[i].key;
        } else {
          assert Keys(o)[0] == o[0].key;
        }
      }
    } else if o != [] {
      NotBeforeAny(o, p);
    }
  }

  /** Where insertion stops, the new key precedes everything that is left. */
  lemma NotBeforeAny(o: seq<Prop>, p: Prop)
    requires ObjectOrder(Keys(o)) && p.key !in Keys(o) && p.key != "__proto__"
    requires o != [] && !StaysBefore(o[0].key, p.key)
    ensures ObjectOrder(Keys([p] + o))
  {
    var r := [p] + o;
    forall i | 1 <= i < |r| ensures p.key != r[i].key && StaysBefore(p.key, r[i].key) {
      assert Keys(o)[i - 1] == r[i].key && Keys(o)[0] == o[0].key;
      if IsIndex(o[0].key) && ToNat(p.key) == ToNat(o[0].key) {
        SameNumber(p.key, o[0].key);
      }
      if i > 1 { assert StaysBefore(Keys(o)[0], Keys(o)[i - 1]); }
    }
    forall i | 0 <= i < |r| ensures Keys(r)[i] != "__proto__" {
      if i > 0 { assert Keys(r)[i] == Keys(o)[i - 1]; }
    }
    forall i, j | 0 <= i < j < |r| ensures Keys(r)[i] != Keys(r)[j] && StaysBefore(Keys(r)[i], Keys(r)[j]) {
      if i > 0 { assert Keys(r)[i] == Keys(o)[i - 1] && Keys(r)[j] == Keys(o)[j - 1]; }
    }
  }

  /** Integer-like keys with the same number are the same key. */
  lemma {:induction false} SameNumber(a: string, b: string)
    requires IsIndex(a) && IsIndex(b) && ToNat(a) == ToNat(b)
    ensures a == b
  {
    LengthFromNumber(a);
    LengthFromNumber(b);
    PowerIsMonotone(|a|, |b|);
    PowerIsMonotone(|b|, |a|);
    if |a| == |b| {
      SameDigits(a, b);
    }
  }

  function Power10(n: nat): nat { if n == 0 then 1 else 10 * Power10(n - 1) }

  lemma {:induction false} PowerIsMonotone(m: nat, n: nat)
    ensures m < n ==> Power10(m) <= Power10(n - 1)
    decreases n
  {
    if m < n - 1 { PowerIsMonotone(m, n - 1); }
  }

  lemma {:induction false} NumberBound(s: string)
    requires forall i :: 0 <= i < |s| ==> IsDigit(s[i])
    ensures ToNat(s) < Power10(|s|)
    ensures s != "" && s[0] != '0' ==> ToNat(s) >= Power10(|s| - 1)
  {
    if s != "" {
      NumberBound(s[..|s| - 1]);
      if |s| > 1 { assert s[..|s| - 1][0] == s[0]; }
    }
  }

  lemma {:induction false} LengthFromNumber(k: string)
    requires IsIndex(k)
    ensures |k| == 1 || Power10(|k| - 1) <= ToNat(k)
    ensures ToNat(k) < Power10(|k|)
  {
    NumberBound(k);
  }

  lemma {:induction false} SameDigits(a: string, b: string)
    requires |a| == |b| && ToNat(a) == ToNat(b)
    requires forall i :: 0 <= i < |a| ==> IsDigit(a[i]) && IsDigit(b[i])
    ensures a == b
  {
    if a != "" {
      var n := |a| - 1;
      assert ToNat(a[..n]) == ToNat(b[..n]) && a[n] == b[n];
      SameDigits(a[..n], b[..n]);
      assert a == a[..n] + [a[n]] && b == b[..n] + [b[n]];
    }
  }

  lemma PutKeepsOrder(o: seq<Prop>, p: Prop)
    requires ObjectOrder(Keys(o))
    ensures ObjectOrder(Keys(Put(o, p)))
    ensures forall x :: x in Put(o, p) ==> x == p || x in o
  {
    if p.key != "__proto__" {
      if p.key in Keys(o) {
        ReplaceKeepsKeys(o, p);
      } else {
        InsertKeepsOrder(o, p);
        InsertElements(o, p);
      }
    }
  }

  // ------------------------------------------------------------------ the round trip

  /** An enum list exactly for enums, and not empty. */
  predicate Convertible(p: Param) {
    && (p.ptype.EnumType? <==> p.enumValues.Some?)
    && (p.enumValues.Some? ==> p.enumValues.value != [])
  }

  function Names(ps: seq<Param>): seq<string> { seq(|ps|, i requires 0 <= i < |ps| => ps[i].name) }

  ghost predicate RoundTrips(ps: seq<Param>) {
    ObjectOrder(Names(ps)) && forall i :: 0 <= i < |ps| ==> Convertible(ps[i])
  }

  /** The property is the definition of one of the parameters. */
  ghost predicate Defines(ps: seq<Param>, x: Prop) {
    exists p :: p in ps && x == Prop(p.name, DefOf(p))
  }

  lemma {:induction false} SchemaShape(ps: seq<Param>)
    ensures ObjectOrder(Keys(PropertiesOf(ps)))
    ensures forall x :: x in PropertiesOf(ps) ==> Defines(ps, x)
  {
    if ps != [] {
      var n := |ps| - 1;
      SchemaShape(ps[..n]);
      assert ps == ps[..n] + [ps[n]];
      var o, x := PropertiesOf(ps[..n]), Prop(ps[n].name, DefOf(ps[n]));
      PutKeepsOrder(o, x);
      forall y | y in Put(o, x) ensures Defines(ps, y) {
        if y == x {
          assert ps[n] in ps;
        } else {
          assert Defines(ps[..n], y);
          var p :| p in ps[..n] && y == Prop(p.name, DefOf(p));
          assert p in ps;
        }
      }
    }
  }

  /** What comes back from any converted list would round trip. */
  lemma BackIsConvertible(ps: seq<Param>)
    ensures RoundTrips(ToParameters(ToSchema(ps)))
  {
    SchemaShape(ps);
    var s := ToSchema(ps);
    var r := ToParameters(s);
    assert Names(r) == Keys(s.properties);
    forall k | 0 <= k < |r| ensures Convertible(r[k]) {
      var x := s.properties[k];
      assert Defines(ps, x);
    }
  }

  lemma {:induction false} PropertiesOfOrdered(ps: seq<Param>)
    requires ObjectOrder(Names(ps))
    ensures |PropertiesOf(ps)| == |ps|
    ensures forall i :: 0 <= i < |ps| ==> PropertiesOf(ps)[i] == Prop(ps[i].name, DefOf(ps[i]))
  {
    if ps != [] {
      var n := |ps| - 1;
      assert Names(ps[..n]) == Names(ps)[..n];
      PropertiesOfOrdered(ps[..n]);
      var o, x := PropertiesOf(ps[..n]), Prop(ps[n].name, DefOf(ps[n]));
      forall i | 0 <= i < n ensures o[i].key != x.key && StaysBefore(o[i].key, x.key) {
        assert Names(ps)[i] == ps[i].name == o[i].key && Names(ps)[n] == x.key;
      }
      assert Names(ps)[n] == x.key;
      InsertLast(o, x);
      assert x.key !in Keys(o);
    }
  }

  lemma {:induction false} RequiredMeaning(ps: seq<Param>)
    ensures forall k :: k in RequiredNames(ps) <==> exists p :: p in ps && p.required && p.name == k
  {
    if ps != [] {
      var n := |ps| - 1;
      assert ps == ps[..n] + [ps[n]];
      RequiredMeaning(ps[..n]);
    }
  }

  lemma TypeReadsBack(p: Param, required: seq<string>)
    requires Convertible(p) && (p.name in required <==> p.required)
    ensures ParamOf(Prop(p.name, DefOf(p)), required) == p
  {
  }

  /**
   `schemaToParameters(parametersToSchema(ps)) = ps` exactly when the names could be the
   keys of an object in their order and every parameter has an enum list just when it is
   an enum, and then a non-empty one.
   */
  lemma SchemaRoundTrip(ps: seq<Param>)
    ensures ToParameters(ToSchema(ps)) == ps <==> RoundTrips(ps)
  {
    if RoundTrips(ps) {
      PropertiesOfOrdered(ps);
      RequiredMeaning(ps);
      forall i | 0 <= i < |ps| ensures ParamOf(PropertiesOf(ps)[i], RequiredNames(ps)) == ps[i] {
        assert ps[i] in ps;
        if ps[i].name in RequiredNames(ps) {
          var p :| p in ps && p.required && p.name == ps[i].name;
          var k :| 0 <= k < |ps| && ps[k] == p;
          assert Names(ps)[k] == Names(ps)[i];
        }
        TypeReadsBack(ps[i], RequiredNames(ps));
      }
    }
    if ToParameters(ToSchema(ps)) == ps {
      BackIsConvertible(ps);
    }
  }

  /** Distinct names, none integer-like or `__proto__`, are always a possible key order. */
  lemma PlainNamesRoundTrip(ps: seq<Param>)
    requires forall i, j :: 0 <= i < j < |ps| ==> ps[i].name != ps[j].name
    requires forall i :: 0 <= i < |ps| ==> !IsIndex(ps[i].name) && ps[i].name != "__proto__" && Convertible(ps[i])
    ensures ToParameters(ToSchema(ps)) == ps
  {
    SchemaRoundTrip(ps);
  }
}
