/**
 The collected list is a patch: exact, complete and minimal.
 */
module DeepDiffLaws {
  import opened Text
  import opened DeepDiff

  // ------------------------------------------------------------------ paths and patches

  function ValueAt(v: Json, p: KeyPath): Json
    decreases |p|
  {
    if p == [] then v
    else if v.Obj? then ValueAt(Get(v.fields, p[0]), p[1..])
    else Undefined
  }

  /** A field set, or removed when the value is `undefined`. */
  function Put(m: map<string, Json>, k: string, x: Json): map<string, Json> {
    if x.Undefined? then m - {k} else m[k := x]
  }

  function SetAt(v: Json, p: KeyPath, x: Json): Json
    decreases |p|
  {
    if p == [] then x
    else if v.Obj? then Obj(Put(v.fields, p[0], SetAt(Get(v.fields, p[0]), p[1..], x)))
    else v
  }

  /** Every mismatch applied in turn, its path read from position `base` on. */
  function Patch(v: Json, ds: seq<Mismatch>, base: nat): Json
    requires forall i :: 0 <= i < |ds| ==> base <= |ds[i].path|
  {
    if ds == [] then v
    else
      var n := |ds| - 1;
      SetAt(Patch(v, ds[..n], base), ds[n].path[base..], ds[n].actual)
  }

  /** No `undefined` anywhere inside. */
  predicate Clean(v: Json) {
    match v
    case Undefined => false
    case Arr(xs) => forall i :: 0 <= i < |xs| ==> Clean(xs[i])
    case Obj(m) => forall k :: k in m ==> Clean(m[k])
    case _ => true
  }

  /** What the collector meets below clean values: clean, or missing. */
  predicate CleanOrMissing(v: Json) { v.Undefined? || Clean(v) }

  // ------------------------------------------------------------------ what the entries say

  /** The entry lies at or below `path` and states two values that really stand there and differ. */
  ghost predicate Truthful(path: KeyPath, e: Json, a: Json, d: Mismatch) {
    && path <= d.path
    && d.expected == ValueAt(e, d.path[|path|..])
    && d.actual == ValueAt(a, d.path[|path|..])
    && d.expected != d.actual
    && !(d.expected.Obj? && d.actual.Obj?)
  }

  lemma TruthBelow(path: KeyPath, k: string, e: Json, a: Json, d: Mismatch)
    requires BothObjects(e, a) && Truthful(path + [k], Get(e.fields, k), Get(a.fields, k), d)
    ensures Truthful(path, e, a, d)
    ensures |path| < |d.path| && d.path[|path|] == k
  {
  }

  ghost predicate AllTruthful(path: KeyPath, e: Json, a: Json, ds: seq<Mismatch>) {
    forall i :: 0 <= i < |ds| ==> Truthful(path, e, a, ds[i])
  }

  /** Every entry goes on from `path` with one of the keys. */
  ghost predicate UnderKeys(path: KeyPath, ds: seq<Mismatch>, keys: seq<string>) {
    forall i :: 0 <= i < |ds| ==> |path| < |ds[i].path| && ds[i].path[|path|] in keys
  }

  lemma {:induction false} EntriesTruthful(path: KeyPath, e: Json, a: Json)
    ensures AllTruthful(path, e, a, Diffs(path, e, a))
    decreases BothObjects(e, a), e, 1, 0
  {
    DeepEqualIsEquality(e, a);
    if e != a {
      if BothObjects(e, a) {
        KeyEntriesTruthful(path, e, a, SortedKeys(AllKeys(e, a)));
      } else {
        assert path[|path|..] == [];
      }
    }
  }

  lemma {:induction false} KeyEntriesTruthful(path: KeyPath, e: Json, a: Json, keys: seq<string>)
    requires BothObjects(e, a)
    ensures AllTruthful(path, e, a, DiffsOver(path, e, a, keys)) && UnderKeys(path, DiffsOver(path, e, a, keys), keys)
    decreases true, e, 0, |keys|
  {
    if keys != [] {
      var n := |keys| - 1;
      var k := keys[n];
      KeyEntriesTruthful(path, e, a, keys[..n]);
      EntriesTruthful(path + [k], Get(e.fields, k), Get(a.fields, k));
      var head, below := DiffsOver(path, e, a, keys[..n]), Diffs(path + [k], Get(e.fields, k), Get(a.fields, k));
      assert DiffsOver(path, e, a, keys) == head + below;
      forall i | 0 <= i < |below|
        ensures Truthful(path, e, a, below[i]) && |path| < |below[i].path| && below[i].path[|path|] == k
      {
        TruthBelow(path, k, e, a, below[i]);
      }
      assert forall x :: x in keys[..n] ==> x in keys;
    }
  }

  // ------------------------------------------------------------------ no entry covers another

  predicate Apart(p: KeyPath, q: KeyPath) { !(p <= q) && !(q <= p) }

  ghost predicate AllApart(ds: seq<Mismatch>) {
    forall i, j :: 0 <= i < j < |ds| ==> Apart(ds[i].path, ds[j].path)
  }

  /** The first path comes before the second: where they part, its key does. */
  ghost predicate InOrder(p: KeyPath, q: KeyPath) {
    exists n :: 0 <= n < |p| && n < |q| && p[..n] == q[..n] && Before(p[n], q[n])
  }

  ghost predicate AllInOrder(ds: seq<Mismatch>) {
    forall i, j :: 0 <= i < j < |ds| ==> InOrder(ds[i].path, ds[j].path)
  }

  lemma InOrderIsApart(p: KeyPath, q: KeyPath)
    requires InOrder(p, q)
    ensures Apart(p, q)
  {
    var n :| 0 <= n < |p| && n < |q| && p[..n] == q[..n] && Before(p[n], q[n]);
    BeforeIsStrict(p[n]);
  }

  /** The report is sorted, key by key, and so no entry is on or below another. */
  lemma EntriesApart(path: KeyPath, e: Json, a: Json)
    ensures AllInOrder(Diffs(path, e, a)) && AllApart(Diffs(path, e, a))
  {
    EntriesInOrder(path, e, a);
    var ds := Diffs(path, e, a);
    forall i, j | 0 <= i < j < |ds| ensures Apart(ds[i].path, ds[j].path) {
      InOrderIsApart(ds[i].path, ds[j].path);
    }
  }

  lemma {:induction false} EntriesInOrder(path: KeyPath, e: Json, a: Json)
    ensures AllInOrder(Diffs(path, e, a))
    decreases BothObjects(e, a), e, 1, 0
  {
    if !DeepEqual(e, a) && BothObjects(e, a) {
      KeyEntriesInOrder(path, e, a, SortedKeys(AllKeys(e, a)));
    }
  }

  lemma {:induction false} KeyEntriesInOrder(path: KeyPath, e: Json, a: Json, keys: seq<string>)
    requires BothObjects(e, a) && forall i, j :: 0 <= i < j < |keys| ==> Before(keys[i], keys[j])
    ensures AllInOrder(DiffsOver(path, e, a, keys))
    decreases true, e, 0, |keys|
  {
    if keys != [] {
      var n := |keys| - 1;
      var k := keys[n];
      KeyEntriesInOrder(path, e, a, keys[..n]);
      KeyEntriesTruthful(path, e, a, keys[..n]);
      EntriesInOrder(path + [k], Get(e.fields, k), Get(a.fields, k));
      EntriesTruthful(path + [k], Get(e.fields, k), Get(a.fields, k));
      var head, below := DiffsOver(path, e, a, keys[..n]), Diffs(path + [k], Get(e.fields, k), Get(a.fields, k));
      forall i, j | 0 <= i < |head| && 0 <= j < |below| ensures InOrder(head[i].path, below[j].path) {
        TruthBelow(path, k, e, a, below[j]);
        var p, q := head[i].path, below[j].path;
        assert p[|path|] in keys[..n];
        var m :| 0 <= m < n && keys[..n][m] == p[|path|];
        assert Before(keys[m], keys[n]) && p[..|path|] == path == q[..|path|];
      }
    }
  }

  // ------------------------------------------------------------------ the patch

  ghost predicate NoUndefinedField(m: map<string, Json>) { forall k :: k in m ==> !m[k].Undefined? }

  lemma CleanFields(v: Json)
    requires v.Obj? && Clean(v)
    ensures NoUndefinedField(v.fields)
  {
  }

  lemma PutGet(m: map<string, Json>, k: string, x: Json, y: Json)
    ensures Get(Put(m, k, x), k) == x
    ensures Put(Put(m, k, x), k, y) == Put(m, k, y)
    ensures forall q :: q != k ==> Get(Put(m, k, x), q) == Get(m, q)
  {
  }

  lemma PutSame(m: map<string, Json>, k: string)
    requires NoUndefinedField(m)
    ensures Put(m, k, Get(m, k)) == m
  {
  }

  /** Entries below one key change that key only. */
  lemma {:induction false} PatchUnderKey(m: map<string, Json>, ds: seq<Mismatch>, base: nat, k: string)
    requires NoUndefinedField(m)
    requires forall i :: 0 <= i < |ds| ==> base < |ds[i].path| && ds[i].path[base] == k
    ensures Patch(Obj(m), ds, base) == Obj(Put(m, k, Patch(Get(m, k), ds, base + 1)))
  {
    if ds == [] {
      PutSame(m, k);
    } else {
      var n := |ds| - 1;
      PatchUnderKey(m, ds[..n], base, k);
      var x := Patch(Get(m, k), ds[..n], base + 1);
      var p := ds[n].path[base..];
      assert p[0] == k && p[1..] == ds[n].path[base + 1..];
      PutGet(m, k, x, SetAt(x, p[1..], ds[n].actual));
    }
  }

  lemma {:induction false} PatchConcat(v: Json, a: seq<Mismatch>, b: seq<Mismatch>, base: nat)
    requires forall i :: 0 <= i < |a| ==> base <= |a[i].path|
    requires forall i :: 0 <= i < |b| ==> base <= |b[i].path|
    ensures Patch(v, a + b, base) == Patch(Patch(v, a, base), b, base)
  {
    if b == [] {
      assert a + b == a;
    } else {
      var n := |b| - 1;
      assert (a + b)[..|a + b| - 1] == a + b[..n];
      PatchConcat(v, a, b[..n], base);
    }
  }

  /** Keys in `done` from the actual object, the others from the expected one. */
  ghost predicate Mixed(m: map<string, Json>, e: map<string, Json>, a: map<string, Json>, done: seq<string>) {
    NoUndefinedField(m) && forall k :: Get(m, k) == if k in done then Get(a, k) else Get(e, k)
  }

  lemma SameFields(m: map<string, Json>, a: map<string, Json>)
    requires NoUndefinedField(m) && NoUndefinedField(a) && forall k :: Get(m, k) == Get(a, k)
    ensures m == a
  {
    forall k ensures k in m <==> k in a { assert Get(m, k) == Get(a, k); }
    forall k | k in m ensures m[k] == a[k] { assert Get(m, k) == Get(a, k); }
  }

  lemma PutMixes(m: map<string, Json>, e: map<string, Json>, a: map<string, Json>, done: seq<string>, k: string)
    requires Mixed(m, e, a, done)
    ensures Mixed(Put(m, k, Get(a, k)), e, a, done + [k])
  {
  }

  lemma BasesFit(path: KeyPath, e: Json, a: Json)
    ensures forall i :: 0 <= i < |Diffs(path, e, a)| ==> |path| <= |Diffs(path, e, a)[i].path|
  {
    EntriesTruthful(path, e, a);
  }

  lemma {:induction false} PatchGivesActual(path: KeyPath, e: Json, a: Json)
    requires CleanOrMissing(e) && CleanOrMissing(a)
    ensures forall i :: 0 <= i < |Diffs(path, e, a)| ==> |path| <= |Diffs(path, e, a)[i].path|
    ensures Patch(e, Diffs(path, e, a), |path|) == a
    decreases BothObjects(e, a), e, 1, 0
  {
    BasesFit(path, e, a);
    DeepEqualIsEquality(e, a);
    if e != a {
      if BothObjects(e, a) {
        var keys := SortedKeys(AllKeys(e, a));
        var m := PatchKeys(path, e, a, keys);
        CleanFields(a);
        SameFields(m, a.fields);
      } else {
        assert path[|path|..] == [];
        assert Diffs(path, e, a)[..0] == [];
      }
    }
  }

  lemma {:induction false} PatchKeys(path: KeyPath, e: Json, a: Json, keys: seq<string>) returns (m: map<string, Json>)
    requires BothObjects(e, a) && Clean(e) && Clean(a)
    requires forall i, j :: 0 <= i < j < |keys| ==> Before(keys[i], keys[j])
    ensures UnderKeys(path, DiffsOver(path, e, a, keys), keys)
    ensures Patch(e, DiffsOver(path, e, a, keys), |path|) == Obj(m) && Mixed(m, e.fields, a.fields, keys)
    decreases true, e, 0, |keys|
  {
    KeyEntriesTruthful(path, e, a, keys);
    if keys == [] {
      m := e.fields;
      CleanFields(e);
    } else {
      var n := |keys| - 1;
      var front, k := keys[..n], keys[n];
      var before := DiffsOver(path, e, a, front);
      var m0 := PatchKeys(path, e, a, front);
      KeyIsNew(keys, n);
      assert Get(m0, k) == Get(e.fields, k);
      m := Put(m0, k, Get(a.fields, k));
      PatchOneMore(path, e, a, before, m0, k);
      PutMixes(m0, e.fields, a.fields, front, k);
      assert front + [k] == keys;
    }
  }

  lemma PatchOneMore(path: KeyPath, e: Json, a: Json, before: seq<Mismatch>, m0: map<string, Json>, k: string)
    requires BothObjects(e, a) && Clean(e) && Clean(a) && NoUndefinedField(m0) && Get(m0, k) == Get(e.fields, k)
    requires forall i :: 0 <= i < |before| ==> |path| <= |before[i].path|
    requires Patch(e, before, |path|) == Obj(m0)
    ensures var ds := before + Diffs(path + [k], Get(e.fields, k), Get(a.fields, k));
      && (forall i :: 0 <= i < |ds| ==> |path| <= |ds[i].path|)
      && Patch(e, ds, |path|) == Obj(Put(m0, k, Get(a.fields, k)))
    decreases true, e, 0, 0
  {
    PatchOneKey(path, e, a, m0, k);
    PatchGivesActual(path + [k], Get(e.fields, k), Get(a.fields, k));
    PatchConcat(e, before, Diffs(path + [k], Get(e.fields, k), Get(a.fields, k)), |path|);
  }

  lemma KeyIsNew(keys: seq<string>, n: nat)
    requires n < |keys| && forall i, j :: 0 <= i < j < |keys| ==> Before(keys[i], keys[j])
    ensures keys[n] !in keys[..n]
  {
    BeforeIsStrict(keys[n]);
  }

  lemma PatchOneKey(path: KeyPath, e: Json, a: Json, m: map<string, Json>, k: string)
    requires BothObjects(e, a) && NoUndefinedField(m)
    ensures var ds := Diffs(path + [k], Get(e.fields, k), Get(a.fields, k));
      && (forall i :: 0 <= i < |ds| ==> |path| + 1 <= |ds[i].path|)
      && Patch(Obj(m), ds, |path|) == Obj(Put(m, k, Patch(Get(m, k), ds, |path + [k]|)))
  {
    var ds := Diffs(path + [k], Get(e.fields, k), Get(a.fields, k));
    EntriesTruthful(path + [k], Get(e.fields, k), Get(a.fields, k));
    forall i | 0 <= i < |ds| ensures |path| < |ds[i].path| && ds[i].path[|path|] == k {
      TruthBelow(path, k, e, a, ds[i]);
    }
    PatchUnderKey(m, ds, |path|, k);
  }

  /** The report on two clean values: applying it to the expected one gives the actual one. */
  lemma ReportIsPatch(e: Json, a: Json)
    requires Clean(e) && Clean(a)
    ensures Patch(e, Diffs([], e, a), 0) == a
    ensures Diffs([], e, a) == [] <==> e == a
  {
    PatchGivesActual([], e, a);
    DeepEqualIsEquality(e, a);
  }

  // ------------------------------------------------------------------ minimality

  lemma {:induction false} SetElsewhere(v: Json, p: KeyPath, x: Json, q: KeyPath)
    requires Apart(p, q)
    ensures ValueAt(SetAt(v, p, x), q) == ValueAt(v, q)
    decreases |p|
  {
    if v.Obj? {
      var y := SetAt(Get(v.fields, p[0]), p[1..], x);
      PutGet(v.fields, p[0], y, y);
      if p[0] == q[0] {
        assert p == [p[0]] + p[1..] && q == [q[0]] + q[1..];
        SetElsewhere(Get(v.fields, p[0]), p[1..], x, q[1..]);
      }
    }
  }

  lemma {:induction false} PatchElsewhere(v: Json, ds: seq<Mismatch>, q: KeyPath)
    requires forall i :: 0 <= i < |ds| ==> Apart(ds[i].path, q)
    ensures ValueAt(Patch(v, ds, 0), q) == ValueAt(v, q)
  {
    if ds != [] {
      var n := |ds| - 1;
      PatchElsewhere(v, ds[..n], q);
      assert ds[n].path[0..] == ds[n].path;
      SetElsewhere(Patch(v, ds[..n], 0), ds[n].path, ds[n].actual, q);
    }
  }

  lemma RestApart(ds: seq<Mismatch>, i: nat)
    requires AllApart(ds) && i < |ds|
    ensures var rest := ds[..i] + ds[i + 1..]; forall k :: 0 <= k < |rest| ==> Apart(rest[k].path, ds[i].path)
  {
    var rest := ds[..i] + ds[i + 1..];
    forall k | 0 <= k < |rest| ensures Apart(rest[k].path, ds[i].path) {
      if k < i { assert rest[k] == ds[k]; } else { assert rest[k] == ds[k + 1]; }
    }
  }

  /**
   Every entry states a real difference, none lies on or below another, and without any
   one of them the patch fails.
   */
  lemma ReportIsMinimal(e: Json, a: Json, i: nat)
    requires i < |Diffs([], e, a)|
    ensures var ds := Diffs([], e, a);
      && Truthful([], e, a, ds[i])
      && AllInOrder(ds) && AllApart(ds)
      && Patch(e, ds[..i] + ds[i + 1..], 0) != a
  {
    var ds := Diffs([], e, a);
    EntriesTruthful([], e, a);
    EntriesApart([], e, a);
    var rest := ds[..i] + ds[i + 1..];
    var q := ds[i].path;
    assert q[0..] == q;
    assert Truthful([], e, a, ds[i]);
    RestApart(ds, i);
    PatchElsewhere(e, rest, q);
  }

  // ------------------------------------------------------------------ with undefined fields

  /** The value without the fields that hold `undefined`, as far as objects nest in objects. */
  function Prune(v: Json): Json {
    if v.Obj? then Obj(map k | k in v.fields && !v.fields[k].Undefined? :: Prune(v.fields[k])) else v
  }

  lemma PruneGet(m: map<string, Json>, k: string)
    ensures Get(Prune(Obj(m)).fields, k) == Prune(Get(m, k))
  {
  }

  lemma {:induction false} NothingBelow(path: KeyPath, e: Json, a: Json, keys: seq<string>)
    requires BothObjects(e, a)
    ensures DiffsOver(path, e, a, keys) == [] <==>
            forall i :: 0 <= i < |keys| ==>
              Diffs(path + [keys[i]], Get(e.fields, keys[i]), Get(a.fields, keys[i])) == []
  {
    if keys != [] {
      var n := |keys| - 1;
      NothingBelow(path, e, a, keys[..n]);
      if forall i :: 0 <= i < |keys| ==> Diffs(path + [keys[i]], Get(e.fields, keys[i]), Get(a.fields, keys[i])) == [] {
        assert forall i :: 0 <= i < n ==> keys[..n][i] == keys[i];
      }
      if DiffsOver(path, e, a, keys) == [] {
        forall i | 0 <= i < |keys|
          ensures Diffs(path + [keys[i]], Get(e.fields, keys[i]), Get(a.fields, keys[i])) == []
        {
          if i < n { assert keys[..n][i] == keys[i]; }
        }
      }
    }
  }

  /**
   On all values, `undefined` included: nothing is reported exactly when the values are
   equal once `undefined` fields are dropped.  So a field that is present with the value
   `undefined` and one that is absent are not told apart, although `deepEqual` does.
   */
  lemma {:induction false} NothingReported(path: KeyPath, e: Json, a: Json)
    ensures Diffs(path, e, a) == [] <==> Prune(e) == Prune(a)
    decreases BothObjects(e, a), e
  {
    DeepEqualIsEquality(e, a);
    if e != a && BothObjects(e, a) {
      var keys := SortedKeys(AllKeys(e, a));
      NothingBelow(path, e, a, keys);
      forall i | 0 <= i < |keys|
        ensures Diffs(path + [keys[i]], Get(e.fields, keys[i]), Get(a.fields, keys[i])) == [] <==>
                Get(Prune(e).fields, keys[i]) == Get(Prune(a).fields, keys[i])
      {
        assert keys[i] in keys;
        NothingReported(path + [keys[i]], Get(e.fields, keys[i]), Get(a.fields, keys[i]));
        PruneGet(e.fields, keys[i]);
        PruneGet(a.fields, keys[i]);
      }
      if forall i :: 0 <= i < |keys| ==> Get(Prune(e).fields, keys[i]) == Get(Prune(a).fields, keys[i]) {
        PrunedAgree(e, a, keys);
      }
    }
  }

  lemma PrunedAgree(e: Json, a: Json, keys: seq<string>)
    requires BothObjects(e, a) && forall k :: k in AllKeys(e, a) ==> k in keys
    requires forall i :: 0 <= i < |keys| ==> Get(Prune(e).fields, keys[i]) == Get(Prune(a).fields, keys[i])
    ensures Prune(e) == Prune(a)
  {
    var x, y := Prune(e).fields, Prune(a).fields;
    forall k ensures Get(x, k) == Get(y, k) {
      if k in AllKeys(e, a) {
        var i :| 0 <= i < |keys| && keys[i] == k;
      }
    }
    PrunedHasNoUndefined(e);
    PrunedHasNoUndefined(a);
    SameFields(x, y);
  }

  lemma PrunedHasNoUndefined(v: Json)
    requires v.Obj?
    ensures NoUndefinedField(Prune(v).fields)
  {
  }

  // ------------------------------------------------------------------ paths as text

  /** The path text built while descending. */
  function Render(p: KeyPath): string {
    if p == [] then ""
    else
      var n := |p| - 1;
      if Render(p[..n]) == "" then p[n] else Render(p[..n]) + "." + p[n]
  }

  /** The `field` of a report line. */
  function Field(p: KeyPath): string { if Render(p) == "" then "(root)" else Render(p) }

  predicate PlainKey(k: string) { k != "" && '.' !in k }

  lemma {:induction false} JoinAppend(parts: seq<string>, last: string, sep: string)
    requires parts != []
    ensures Join(parts + [last], sep) == Join(parts, sep) + sep + last
  {
    if |parts| == 1 {
      assert (parts + [last])[1..] == [last];
    } else {
      assert (parts + [last])[1..] == parts[1..] + [last];
      JoinAppend(parts[1..], last, sep);
    }
  }

  lemma {:induction false} RenderIsJoin(p: KeyPath)
    requires forall i :: 0 <= i < |p| ==> PlainKey(p[i])
    ensures Render(p) == Join(p, ".") && (p != [] ==> Render(p) != "")
  {
    if p != [] {
      var n := |p| - 1;
      RenderIsJoin(p[..n]);
      if n > 0 {
        JoinAppend(p[..n], p[n], ".");
        assert p[..n] + [p[n]] == p;
      }
    }
  }

  /** With non-empty keys that hold no dot, the report's field names the path: different paths, different fields. */
  lemma FieldNamesPath(p: KeyPath, q: KeyPath)
    requires p != [] && q != [] && Field(p) == Field(q)
    requires forall i :: 0 <= i < |p| ==> PlainKey(p[i])
    requires forall i :: 0 <= i < |q| ==> PlainKey(q[i])
    ensures p == q
  {
    RenderIsJoin(p);
    RenderIsJoin(q);
    SplitJoin(p, '.');
    SplitJoin(q, '.');
  }

  /** A difference at the top is reported under a name of its own. */
  lemma FieldOfPlainPath(p: KeyPath)
    requires forall i :: 0 <= i < |p| ==> PlainKey(p[i])
    ensures Field(p) == if p == [] then "(root)" else Join(p, ".")
  {
    RenderIsJoin(p);
  }

  /** A key with a dot in it is reported like a nested one. */
  lemma DottedKeyIsAmbiguous(x: string, y: string)
    requires x != ""
    ensures Field([x + "." + y]) == Field([x, y])
  {
    var xy := x + "." + y;
    assert [x][..0] == [] && [xy][..0] == [] && [x, y][..1] == [x];
    assert Render([x]) == x && Render([xy]) == xy;
    assert Render([x, y]) == xy;
  }

  /** A leading empty key does not show, alone or before another key. */
  lemma EmptyKeyIsAmbiguous(x: string)
    ensures Field(["", x]) == Field([x]) && Field([""]) == Field([])
  {
    assert [""][..0] == [] && [x][..0] == [] && ["", x][..1] == [""];
    assert Render([""]) == "" && Render([x]) == x && Render(["", x]) == x;
  }

  // ------------------------------------------------------------------ the whole registry

  /** On values without `undefined`, pruning changes nothing. */
  lemma {:induction false} PruneOfClean(v: Json)
    requires Clean(v)
    ensures Prune(v) == v
  {
    if v.Obj? {
      forall k | k in v.fields ensures Prune(v.fields[k]) == v.fields[k] { PruneOfClean(v.fields[k]); }
    }
  }

  ghost predicate SameRegistry(snapshot: map<string, Json>, current: map<string, Json>) {
    snapshot.Keys == current.Keys && forall k :: k in snapshot ==> Prune(snapshot[k]) == Prune(current[k])
  }

  lemma SameCleanRegistry(snapshot: map<string, Json>, current: map<string, Json>)
    requires forall k :: k in snapshot ==> Clean(snapshot[k])
    requires forall k :: k in current ==> Clean(current[k])
    ensures SameRegistry(snapshot, current) <==> snapshot == current
  {
    forall k | k in snapshot ensures Prune(snapshot[k]) == snapshot[k] { PruneOfClean(snapshot[k]); }
    forall k | k in current ensures Prune(current[k]) == current[k] { PruneOfClean(current[k]); }
  }

  /** The main script: added slugs, removed slugs, then the differences of the common ones. */
  method DiffRegistry(snapshot: map<string, Json>, current: map<string, Json>) returns (pass: bool)
    ensures pass <==> SameRegistry(snapshot, current)
  {
    var mismatches := 0;
    var left := current.Keys;
    while left != {}
      invariant left <= current.Keys && mismatches >= 0
      invariant mismatches == 0 <==> (current.Keys - left) <= snapshot.Keys
      decreases left
    {
      var slug :| slug in left;
      left := left - {slug};
      if slug !in snapshot { mismatches := mismatches + 1; }
    }
    left := snapshot.Keys;
    while left != {}
      invariant left <= snapshot.Keys && mismatches >= 0
      invariant mismatches == 0 <==> current.Keys <= snapshot.Keys && (snapshot.Keys - left) <= current.Keys
      decreases left
    {
      var slug :| slug in left;
      left := left - {slug};
      if slug !in current { mismatches := mismatches + 1; }
    }
    left := snapshot.Keys;
    var sameKeys := mismatches == 0;
    while left != {}
      invariant left <= snapshot.Keys && mismatches >= 0
      invariant mismatches == 0 <==>
        sameKeys && forall k :: k in snapshot.Keys - left && k in current ==> Prune(snapshot[k]) == Prune(current[k])
      decreases left
    {
      var slug :| slug in left;
      left := left - {slug};
      if slug in current {
        var c := new DiffCollector();
        c.CollectDiffs([], snapshot[slug], current[slug]);
        NothingReported([], snapshot[slug], current[slug]);
        mismatches := mismatches + |c.acc|;
      }
    }
    pass := mismatches == 0;
  }
}
