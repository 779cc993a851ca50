/**
 What the conversion of `SkillSchema` does to schemas from elsewhere and to lists that
 repeat a name, and which key orders an object can have.
 */
module SkillSchemaLaws {
  import opened Wrappers
  import opened Text
  import opened SkillParameters
  import opened SkillSchema

  // ------------------------------------------------------------------ integer-like keys

  /** A number as it is written. */
  function Decimal(n: nat): (s: string)
    ensures s != "" && forall i :: 0 <= i < |s| ==> IsDigit(s[i])
  {
    var digit := [('0' as int + n % 10) as char];
    if n < 10 then digit else Decimal(n / 10) + digit
  }

  lemma {:induction false} DecimalReads(n: nat)
    ensures ToNat(Decimal(n)) == n
    ensures Decimal(n)[0] == '0' ==> n == 0 && |Decimal(n)| == 1
  {
    if n >= 10 { DecimalReads(n / 10); }
    var s := Decimal(n);
    assert s[..|s| - 1] == if n < 10 then [] else Decimal(n / 10);
    assert ToNat([]) == 0;
  }

  /** The keys ordered by number are the written numbers up to 2^32 - 2. */
  lemma IndexMeaning(k: string)
    ensures IsIndex(k) <==> exists n: nat :: n <= 4294967294 && k == Decimal(n)
  {
    if IsIndex(k) {
      DecimalReads(ToNat(k));
      SameNumber(k, Decimal(ToNat(k)));
    }
    if n: nat :| n <= 4294967294 && k == Decimal(n) {
      DecimalReads(n);
    }
  }

  /** The numbers come first and ascend; no key occurs twice; `__proto__` is not a key. */
  ghost predicate KeysOfObject(ks: seq<string>) {
    && Distinct(ks) && "__proto__" !in ks
    && forall i, j, n: nat :: 0 <= i < j < |ks| && n <= 4294967294 && ks[j] == Decimal(n) ==> WrittenBelow(ks[i], n)
  }

  lemma ObjectOrderMeaning(ks: seq<string>)
    ensures ObjectOrder(ks) <==> KeysOfObject(ks)
  {
    if ObjectOrder(ks) {
      forall i, j, n: nat | 0 <= i < j < |ks| && n <= 4294967294 && ks[j] == Decimal(n) ensures WrittenBelow(ks[i], n) {
        StaysBelow(ks[i], ks[j], n);
      }
    }
    if KeysOfObject(ks) {
      forall i, j | 0 <= i < j < |ks| ensures ks[i] != ks[j] && StaysBefore(ks[i], ks[j]) {
        if IsIndex(ks[j]) {
          IndexMeaning(ks[j]);
          var n: nat :| n <= 4294967294 && ks[j] == Decimal(n);
          StaysBelow(ks[i], ks[j], n);
        }
      }
      forall i | 0 <= i < |ks| ensures ks[i] != "__proto__" { assert ks[i] in ks; }
    }
  }

  ghost predicate WrittenBelow(k: string, n: nat) { exists m: nat :: m < n && k == Decimal(m) }

  lemma StaysBelow(a: string, b: string, n: nat)
    requires n <= 4294967294 && b == Decimal(n)
    ensures StaysBefore(a, b) <==> WrittenBelow(a, n)
  {
    IndexMeaning(b);
    DecimalReads(n);
    if IsIndex(a) {
      IndexMeaning(a);
      var m: nat :| m <= 4294967294 && a == Decimal(m);
      DecimalReads(m);
    }
    if m: nat :| m < n && a == Decimal(m) {
      IndexMeaning(a);
      DecimalReads(m);
    }
  }

  // ------------------------------------------------------------------ lists that repeat a name

  lemma {:induction false} ReplaceElements(o: seq<Prop>, p: Prop)
    ensures p.key in Keys(o) ==> p in Replace(o, p)
    ensures forall x :: x in o && x.key != p.key ==> x in Replace(o, p)
  {
    if o != [] {
      ReplaceElements(o[1..], p);
      assert Keys(o) == [o[0].key] + Keys(o[1..]);
    }
  }

  /** Of equal names the last definition stands. */
  lemma {:induction false} LastDefinitionWins(ps: seq<Param>, i: nat)
    requires i < |ps| && ps[i].name != "__proto__" && forall j :: i < j < |ps| ==> ps[j].name != ps[i].name
    ensures Prop(ps[i].name, DefOf(ps[i])) in PropertiesOf(ps)
  {
    var n := |ps| - 1;
    var o, x := PropertiesOf(ps[..n]), Prop(ps[n].name, DefOf(ps[n]));
    ReplaceElements(o, x);
    InsertElements(o, x);
    if i < n { LastDefinitionWins(ps[..n], i); }
  }

  // ------------------------------------------------------------------ schemas from elsewhere

  /** What is read from a property, whatever its definition says. */
  lemma ReadsAnySchema(s: Schema, i: nat)
    requires i < |s.properties|
    ensures |ToParameters(s)| == |s.properties|
    ensures var p, r := s.properties[i], ToParameters(s)[i];
      && r.name == p.key && (r.required <==> exists j :: 0 <= j < |s.required| && s.required[j] == p.key)
      && (p.def.description == Some(r.description) || (p.def.description.None? && r.description == ""))
      && r.enumValues == p.def.enumVals && (r.ptype.EnumType? <==> p.def.enumVals.Some?)
      && (!r.ptype.EnumType? && TypeName(r.ptype) != "string" ==> p.def.typ == Some(TypeName(r.ptype)))
      && (!r.ptype.EnumType? && TypeName(r.ptype) == "string" ==>
            p.def.typ !in {Some("number"), Some("integer"), Some("boolean")})
  {
    assert TypeName(NumberType)[0] != TypeName(StringType)[0];
    assert TypeName(IntegerType)[0] != TypeName(StringType)[0];
    assert TypeName(BooleanType)[0] != TypeName(StringType)[0];
  }

  /** A definition as this conversion writes it. */
  predicate NativeDef(d: Def) {
    && d.description.Some? && d.typ.Some?
    && match d.enumVals
       case Some(values) => values != [] && d.typ.value == "string"
       case None => d.typ.value in {"string", "number", "integer", "boolean"}
  }

  /** Those of the keys that are required. */
  function Chosen(ks: seq<string>, required: seq<string>): seq<string> {
    if ks == [] then []
    else
      var n := |ks| - 1;
      Chosen(ks[..n], required) + if ks[n] in required then [ks[n]] else []
  }

  ghost predicate Native(s: Schema) {
    && ObjectOrder(Keys(s.properties))
    && (forall i :: 0 <= i < |s.properties| ==> NativeDef(s.properties[i].def))
    && s.required == Chosen(Keys(s.properties), s.required)
  }

  lemma {:induction false} RequiredReadBack(s: Schema, n: nat)
    requires n <= |s.properties|
    ensures RequiredNames(ToParameters(s)[..n]) == Chosen(Keys(s.properties)[..n], s.required)
  {
    if n > 0 {
      RequiredReadBack(s, n - 1);
      assert ToParameters(s)[..n][..n - 1] == ToParameters(s)[..n - 1];
      assert Keys(s.properties)[..n][..n - 1] == Keys(s.properties)[..n - 1];
    }
  }

  lemma AllRequiredReadBack(s: Schema)
    ensures RequiredNames(ToParameters(s)) == Chosen(Keys(s.properties), s.required)
  {
    var n := |s.properties|;
    RequiredReadBack(s, n);
    assert ToParameters(s)[..n] == ToParameters(s) && Keys(s.properties)[..n] == Keys(s.properties);
  }

  lemma DefReadsBack(p: Prop, required: seq<string>)
    ensures DefOf(ParamOf(p, required)) == p.def <==> NativeDef(p.def)
  {
  }

  lemma DefIsNative(p: Param)
    ensures NativeDef(DefOf(p))
  {
  }

  /**
   `parametersToSchema(schemaToParameters(s)) = s` exactly for schemas in the form this
   conversion writes: a key order an object can have, plain types with a description, enums
   that are not empty and of type string, and the required names in the order of the keys.
   */
  lemma SchemaComesBack(s: Schema)
    ensures ToSchema(ToParameters(s)) == s <==> Native(s)
  {
    var ps := ToParameters(s);
    AllRequiredReadBack(s);
    assert Names(ps) == Keys(s.properties);
    if Native(s) {
      PropertiesOfOrdered(ps);
      forall i | 0 <= i < |ps| ensures PropertiesOf(ps)[i] == s.properties[i] {
        DefReadsBack(s.properties[i], s.required);
      }
    }
    if ToSchema(ps) == s {
      SchemaShape(ps);
      forall i | 0 <= i < |s.properties| ensures NativeDef(s.properties[i].def) {
        assert Defines(ps, s.properties[i]);
        var p :| p in ps && s.properties[i] == Prop(p.name, DefOf(p));
        DefIsNative(p);
      }
    }
  }
}
