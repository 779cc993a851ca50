/**
 The deep comparison of `scripts/diff-action-registry.ts`: structural equality, and the
 collector of mismatches.  The list it collects is a patch: it is empty exactly on equal
 values, applying it to the expected value gives the actual one, and no entry can be
 dropped or is covered by another.
 */
module DeepDiff {
  /**
   Values as JSON knows them, and `undefined`, which the source meets when it reads a
   key that is not there.
   */
  datatype Json =
    | Undefined
    | Null
    | Bool(b: bool)
    | Num(n: real)
    | Str(s: string)
    | Arr(items: seq<Json>)
    | Obj(fields: map<string, Json>)

  type KeyPath = seq<string>

  /** One reported mismatch; `field` in the report is the path rendered as text. */
  datatype Mismatch = Mismatch(path: KeyPath, expected: Json, actual: Json)

  // ------------------------------------------------------------------ structural equality

  predicate DeepEqual(a: Json, b: Json)
    decreases a
  {
    match a
    case Arr(xs) => b.Arr? && |xs| == |b.items| && forall i :: 0 <= i < |xs| ==> DeepEqual(xs[i], b.items[i])
    case Obj(m) => b.Obj? && m.Keys == b.fields.Keys && forall k :: k in m ==> DeepEqual(m[k], b.fields[k])
    case _ => a == b
  }

  /** `deepEqual` decides equality of values. */
  lemma {:induction false} DeepEqualIsEquality(a: Json, b: Json)
    ensures DeepEqual(a, b) <==> a == b
    decreases a
  {
    match a
    case Arr(xs) =>
      if b.Arr? && |xs| == |b.items| {
        forall i | 0 <= i < |xs| ensures DeepEqual(xs[i], b.items[i]) <==> xs[i] == b.items[i] {
          DeepEqualIsEquality(xs[i], b.items[i]);
        }
      }
    case Obj(m) =>
      if b.Obj? && m.Keys == b.fields.Keys {
        forall k | k in m ensures DeepEqual(m[k], b.fields[k]) <==> m[k] == b.fields[k] {
          DeepEqualIsEquality(m[k], b.fields[k]);
        }
      }
    case _ =>
  }

  // ------------------------------------------------------------------ the collector

  /** `obj[key]`. */
  function Get(m: map<string, Json>, k: string): Json { if k in m then m[k] else Undefined }

  predicate BothObjects(a: Json, b: Json) { a.Obj? && b.Obj? }

  /** Lexicographic order on strings, by code. */
  predicate Before(a: string, b: string)
    decreases |a|
  {
    if a == "" then b != ""
    else b != "" && (a[0] < b[0] || (a[0] == b[0] && Before(a[1..], b[1..])))
  }

  /** The common start of two texts. */
  ghost predicate AgreeTo(n: int, a: string, b: string) { 0 <= n <= |a| && n <= |b| && a[..n] == b[..n] }

  /** The first place where two texts differ decides; the end of a text comes before any character. */
  lemma {:induction false} BeforeMeaning(a: string, b: string)
    ensures Before(a, b) <==> exists n :: AgreeTo(n, a, b) && n < |b| && (n == |a| || a[n] < b[n])
    decreases |a|
  {
    if a == "" {
      assert AgreeTo(0, a, b);
    } else if b != "" {
      BeforeMeaning(a[1..], b[1..]);
      if Before(a, b) {
        if a[0] < b[0] {
          assert AgreeTo(0, a, b);
        } else {
          var n :| AgreeTo(n, a[1..], b[1..]) && n < |b| - 1 && (n == |a| - 1 || a[1..][n] < b[1..][n]);
          assert a[..n + 1] == [a[0]] + a[1..][..n] && b[..n + 1] == [b[0]] + b[1..][..n];
          assert AgreeTo(n + 1, a, b);
        }
      }
      if n :| AgreeTo(n, a, b) && n < |b| && (n == |a| || a[n] < b[n]) {
        if n > 0 {
          assert a[0] == a[..n][0] == b[..n][0] == b[0];
          assert a[1..][..n - 1] == a[..n][1..] && b[1..][..n - 1] == b[..n][1..];
          assert AgreeTo(n - 1, a[1..], b[1..]);
        }
      }
    }
  }

  lemma {:induction false} BeforeIsTotal(a: string, b: string)
    ensures a == b || Before(a, b) || Before(b, a)
    decreases |a|
  {
    if a != "" && b != "" && a[0] == b[0] {
      BeforeIsTotal(a[1..], b[1..]);
      assert a == [a[0]] + a[1..] && b == [b[0]] + b[1..];
    }
  }

  lemma {:induction false} BeforeIsTransitive(a: string, b: string, c: string)
    requires Before(a, b) && Before(b, c)
    ensures Before(a, c)
    decreases |a|
  {
    if a != "" && a[0] == b[0] && b[0] == c[0] {
      BeforeIsTransitive(a[1..], b[1..], c[1..]);
    }
  }

  lemma {:induction false} BeforeIsStrict(a: string)
    ensures !Before(a, a)
  {
    if a != "" { BeforeIsStrict(a[1..]); }
  }

  /** The first of a set of keys. */
  lemma {:induction false} FirstExists(ks: set<string>)
    requires ks != {}
    ensures exists k :: k in ks && IsFirst(k, ks)
  {
    var x :| x in ks;
    if ks == {x} {
      assert IsFirst(x, ks);
    } else {
      var rest := ks - {x};
      FirstExists(rest);
      var y :| y in rest && IsFirst(y, rest);
      BeforeIsTotal(x, y);
      if Before(x, y) {
        forall k | k in ks && k != x ensures Before(x, k) {
          if k != y { BeforeIsTransitive(x, y, k); }
        }
        assert IsFirst(x, ks);
      } else {
        assert IsFirst(y, ks);
      }
    }
  }

  ghost predicate IsFirst(k: string, ks: set<string>) {
    forall x :: x in ks && x != k ==> Before(k, x)
  }

  ghost function First(ks: set<string>): (k: string)
    requires ks != {}
    ensures k in ks && IsFirst(k, ks)
  {
    FirstExists(ks);
    var k :| k in ks && IsFirst(k, ks);
    k
  }

  /** `Array.from(allKeys).sort()`. */
  ghost function SortedKeys(ks: set<string>): (r: seq<string>)
    ensures forall k :: k in r <==> k in ks
    ensures forall i, j :: 0 <= i < j < |r| ==> Before(r[i], r[j])
    decreases |ks|
  {
    if ks == {} then []
    else
      var k := First(ks);
      [k] + SortedKeys(ks - {k})
  }

  function AllKeys(a: Json, b: Json): set<string>
    requires BothObjects(a, b)
  {
    a.fields.Keys + b.fields.Keys
  }

  /** The mismatches below `path`, in the order they are reported. */
  ghost function Diffs(path: KeyPath, expected: Json, actual: Json): seq<Mismatch>
    decreases BothObjects(expected, actual), expected, 1, 0
  {
    if DeepEqual(expected, actual) then []
    else if BothObjects(expected, actual) then
      DiffsOver(path, expected, actual, SortedKeys(AllKeys(expected, actual)))
    else [Mismatch(path, expected, actual)]
  }

  ghost function DiffsOver(path: KeyPath, expected: Json, actual: Json, keys: seq<string>): seq<Mismatch>
    requires BothObjects(expected, actual)
    decreases true, expected, 0, |keys|
  {
    if keys == [] then []
    else
      var n := |keys| - 1;
      var e, a := Get(expected.fields, keys[n]), Get(actual.fields, keys[n]);
      DiffsOver(path, expected, actual, keys[..n]) + Diffs(path + [keys[n]], e, a)
  }

  /** The collector: pushes onto an accumulator as it descends. */
  lemma DiffsOneMore(path: KeyPath, e: Json, a: Json, keys: seq<string>, i: nat)
    requires BothObjects(e, a) && i < |keys|
    ensures DiffsOver(path, e, a, keys[..i + 1]) ==
            DiffsOver(path, e, a, keys[..i]) + Diffs(path + [keys[i]], Get(e.fields, keys[i]), Get(a.fields, keys[i]))
  {
    assert keys[..i + 1][..i] == keys[..i];
  }

  lemma Regroup(a: seq<Mismatch>, b: seq<Mismatch>, c: seq<Mismatch>)
    ensures a + b + c == a + (b + c)
  {
  }

  class DiffCollector {
    var acc: seq<Mismatch>

    constructor ()
      ensures acc == []
    {
      acc := [];
    }

    method CollectDiffs(path: KeyPath, expected: Json, actual: Json)
      modifies this
      ensures acc == old(acc) + Diffs(path, expected, actual)
      decreases BothObjects(expected, actual), expected, 1
    {
      if DeepEqual(expected, actual) { return; }
      if BothObjects(expected, actual) {
        var keys := SortKeys(AllKeys(expected, actual));
        CollectKeys(path, expected, actual, keys);
      } else {
        acc := acc + [Mismatch(path, expected, actual)];
      }
    }

    /** The loop over the keys of both objects. */
    method CollectKeys(path: KeyPath, expected: Json, actual: Json, keys: seq<string>)
      requires BothObjects(expected, actual)
      modifies this
      ensures acc == old(acc) + DiffsOver(path, expected, actual, keys)
      decreases true, expected, 0
    {
      for i := 0 to |keys|
        invariant acc == old(acc) + DiffsOver(path, expected, actual, keys[..i])
      {
        ghost var before := DiffsOver(path, expected, actual, keys[..i]);
        ghost var below := Diffs(path + [keys[i]], Get(expected.fields, keys[i]), Get(actual.fields, keys[i]));
        CollectDiffs(path + [keys[i]], Get(expected.fields, keys[i]), Get(actual.fields, keys[i]));
        DiffsOneMore(path, expected, actual, keys, i);
        Regroup(old(acc), before, below);
      }
      assert keys[..|keys|] == keys;
    }

    method SortKeys(ks: set<string>) returns (keys: seq<string>)
      ensures keys == SortedKeys(ks)
    {
      keys := [];
      var left := ks;
      while left != {}
        invariant keys + SortedKeys(left) == SortedKeys(ks)
        decreases left
      {
        var k := PickFirst(left);
        TakeFirst(keys, left);
        keys := keys + [k];
        left := left - {k};
      }
    }

    /** The next key in sorted order. */
    method PickFirst(ks: set<string>) returns (k: string)
      requires ks != {}
      ensures k == First(ks)
    {
      k :| k in ks;
      var left := ks - {k};
      while left != {}
        invariant left <= ks && k in ks - left && IsFirst(k, ks - left)
        decreases left
      {
        var x :| x in left;
        BeforeIsTotal(x, k);
        ghost var was := k;
        if Before(x, k) {
          k := x;
        }
        forall y | y in ks - (left - {x}) && y != k ensures Before(k, y) {
          if k == x && y != was { BeforeIsTransitive(x, was, y); }
        }
        left := left - {x};
      }
      assert ks - left == ks;
      FirstIsUnique(ks, k, First(ks));
    }
  }

  lemma TakeFirst(keys: seq<string>, left: set<string>)
    requires left != {}
    ensures (keys + [First(left)]) + SortedKeys(left - {First(left)}) == keys + SortedKeys(left)
  {
  }

  lemma FirstIsUnique(ks: set<string>, a: string, b: string)
    requires a in ks && b in ks && IsFirst(a, ks) && IsFirst(b, ks)
    ensures a == b
  {
    if a != b {
      BeforeIsTransitive(a, b, a);
      BeforeIsStrict(a);
    }
  }
}
