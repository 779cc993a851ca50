/** The string operations the source takes from JavaScript: `trim`, `join`, `split`, `indexOf`. */
module Text {
  /** White space and line terminators, as `trim` and `\s` know them. */
  predicate IsSpace(c: char) {
    || c == ' ' || c == '\t' || c == '\n' || c == '\r' || c == '\U{b}' || c == '\U{c}'
    || c == '\U{a0}' || c == '\U{1680}' || '\U{2000}' <= c <= '\U{200a}'
    || c == '\U{2028}' || c == '\U{2029}' || c == '\U{202f}' || c == '\U{205f}'
    || c == '\U{3000}' || c == '\U{feff}'
  }

  /** The code points of ECMAScript's white space and line terminators. */
  lemma SpaceCodes(c: char)
    ensures IsSpace(c) <==>
      c as int in {9, 10, 11, 12, 13, 32, 160, 5760, 8192, 8193, 8194, 8195, 8196, 8197, 8198, 8199, 8200, 8201, 8202,
                   8232, 8233, 8239, 8287, 12288, 65279}
  {
  }

  predicate IsDigit(c: char) { '0' <= c <= '9' }

  /** No string occurs twice. */
  ghost predicate Distinct(ss: seq<string>) {
    forall i, j :: 0 <= i < j < |ss| ==> ss[i] != ss[j]
  }

  predicate Blank(s: string) { forall i :: 0 <= i < |s| ==> IsSpace(s[i]) }

  function TrimStart(s: string): string {
    if s != [] && IsSpace(s[0]) then TrimStart(s[1..]) else s
  }

  function TrimEnd(s: string): string {
    if s != [] && IsSpace(s[|s| - 1]) then TrimEnd(s[..|s| - 1]) else s
  }

  function Trim(s: string): string { TrimEnd(TrimStart(s)) }

  /** No white space at either end. */
  predicate Trimmed(s: string) {
    s == [] || (!IsSpace(s[0]) && !IsSpace(s[|s| - 1]))
  }

  lemma {:induction false} TrimStartMeaning(s: string)
    ensures TrimStart(s) != [] ==> !IsSpace(TrimStart(s)[0]) && TrimStart(s)[|TrimStart(s)| - 1] == s[|s| - 1]
    ensures forall c :: c in TrimStart(s) ==> c in s
    ensures |TrimStart(s)| <= |s|
  {
    if s != [] && IsSpace(s[0]) { TrimStartMeaning(s[1..]); }
  }

  lemma {:induction false} TrimEndMeaning(s: string)
    ensures TrimEnd(s) != [] ==> !IsSpace(TrimEnd(s)[|TrimEnd(s)| - 1]) && TrimEnd(s)[0] == s[0]
    ensures forall c :: c in TrimEnd(s) ==> c in s
    ensures |TrimEnd(s)| <= |s|
  {
    if s != [] && IsSpace(s[|s| - 1]) { TrimEndMeaning(s[..|s| - 1]); }
  }

  lemma TrimMeaning(s: string)
    ensures Trimmed(Trim(s))
    ensures forall c :: c in Trim(s) ==> c in s
  {
    TrimStartMeaning(s);
    TrimEndMeaning(TrimStart(s));
  }

  lemma {:induction false} TrimStartSkips(pad: string, s: string)
    requires Blank(pad)
    ensures TrimStart(pad + s) == TrimStart(s)
  {
    if pad == [] {
      assert pad + s == s;
    } else {
      assert (pad + s)[1..] == pad[1..] + s;
      TrimStartSkips(pad[1..], s);
    }
  }

  /** `trim` takes leading white space away and leaves a trimmed text as it is. */
  lemma TrimPadded(pad: string, s: string)
    requires Blank(pad) && Trimmed(s)
    ensures Trim(pad + s) == s
  {
    TrimStartSkips(pad, s);
  }

  lemma TrimFixed(s: string)
    requires Trimmed(s)
    ensures Trim(s) == s
  {
  }

  lemma {:induction false} TrimEndSkips(s: string, pad: string)
    requires Blank(pad)
    ensures TrimEnd(s + pad) == TrimEnd(s)
  {
    if pad == [] {
      assert s + pad == s;
    } else {
      var n := |pad| - 1;
      assert (s + pad)[..|s + pad| - 1] == s + pad[..n] && (s + pad)[|s + pad| - 1] == pad[n];
      TrimEndSkips(s, pad[..n]);
    }
  }

  /** Of a trimmed text between blanks, `trim` keeps exactly that text. */
  lemma TrimBetween(a: string, s: string, b: string)
    requires Blank(a) && Trimmed(s) && Blank(b)
    ensures Trim(a + s + b) == s
  {
    assert a + s + b == a + (s + b);
    TrimStartSkips(a, s + b);
    if s == [] {
      assert s + b == b + [];
      TrimStartSkips(b, []);
    } else {
      assert TrimStart(s + b) == s + b;
      TrimEndSkips(s, b);
    }
  }

  lemma {:induction false} TrimStartSplits(s: string) returns (a: string)
    ensures Blank(a) && s == a + TrimStart(s)
  {
    if s != [] && IsSpace(s[0]) {
      var rest := TrimStartSplits(s[1..]);
      a := [s[0]] + rest;
    } else {
      a := [];
    }
  }

  lemma {:induction false} TrimEndSplits(s: string) returns (b: string)
    ensures Blank(b) && s == TrimEnd(s) + b
  {
    if s != [] && IsSpace(s[|s| - 1]) {
      var rest := TrimEndSplits(s[..|s| - 1]);
      b := rest + [s[|s| - 1]];
    } else {
      b := [];
    }
  }

  ghost predicate Between(s: string, a: string, t: string, b: string) {
    Blank(a) && Blank(b) && s == a + t + b
  }

  /** `trim` takes away blanks at the two ends and nothing else. */
  lemma TrimSplits(s: string)
    ensures exists a, b :: Between(s, a, Trim(s), b)
  {
    var a := TrimStartSplits(s);
    var b := TrimEndSplits(TrimStart(s));
    assert Between(s, a, Trim(s), b);
  }

  /** Blanks around a text do not matter. */
  lemma TrimIgnoresPadding(a: string, s: string, b: string)
    requires Blank(a) && Blank(b)
    ensures Trim(a + s + b) == Trim(s)
  {
    TrimSplits(s);
    var x, y :| Between(s, x, Trim(s), y);
    assert a + s + b == (a + x) + Trim(s) + (y + b);
    TrimMeaning(s);
    TrimBetween(a + x, Trim(s), y + b);
  }

  // ------------------------------------------------------------------ join and split

  function Join(parts: seq<string>, sep: string): string {
    if parts == [] then ""
    else if |parts| == 1 then parts[0]
    else parts[0] + sep + Join(parts[1..], sep)
  }

  /** The index of the first `c`, or the length. */
  function Find(s: string, c: char): (i: nat)
    ensures i <= |s|
    ensures forall k :: 0 <= k < i ==> s[k] != c
    ensures i < |s| ==> s[i] == c
  {
    if s == [] || s[0] == c then 0 else 1 + Find(s[1..], c)
  }

  function Split(s: string, c: char): (r: seq<string>)
    ensures r != []
    decreases |s|
  {
    var i := Find(s, c);
    if i == |s| then [s] else [s[..i]] + Split(s[i + 1..], c)
  }

  lemma FindAt(a: string, c: char, b: string)
    requires c !in a
    ensures Find(a + [c] + b, c) == |a|
  {
    var s := a + [c] + b;
    assert s[|a|] == c;
    assert forall k :: 0 <= k < |a| ==> s[k] == a[k];
  }

  lemma FindNone(a: string, c: char)
    requires c !in a
    ensures Find(a, c) == |a|
  {
  }

  /** Splitting what was joined by the separator gives the parts back. */
  lemma {:induction false} SplitJoin(parts: seq<string>, c: char)
    requires parts != [] && forall p :: p in parts ==> c !in p
    ensures Split(Join(parts, [c]), c) == parts
  {
    var s := Join(parts, [c]);
    if |parts| == 1 {
      FindNone(parts[0], c);
    } else {
      var rest := Join(parts[1..], [c]);
      FindAt(parts[0], c, rest);
      assert s[..|parts[0]|] == parts[0] && s[|parts[0]| + 1..] == rest;
      SplitJoin(parts[1..], c);
    }
  }

  /** Splitting loses nothing, and no part holds the separator. */
  lemma {:induction false} SplitMeaning(s: string, c: char)
    ensures forall p :: p in Split(s, c) ==> c !in p && forall x :: x in p ==> x in s
    ensures Join(Split(s, c), [c]) == s
    decreases |s|
  {
    var i := Find(s, c);
    if i < |s| {
      SplitMeaning(s[i + 1..], c);
      assert s == s[..i] + [c] + s[i + 1..];
    }
  }

  /** Splitting a text at a separator splits its two sides. */
  lemma {:induction false} SplitConcat(a: string, c: char, b: string)
    ensures Split(a + [c] + b, c) == Split(a, c) + Split(b, c)
    decreases |a|
  {
    var i := Find(a, c);
    if i == |a| {
      SplitOnce(a, c, b);
    } else {
      var front, rest := a[..i], a[i + 1..];
      assert a == front + [c] + rest;
      CutsConcat(front, [c], rest, b);
      SplitConcat(rest, c, b);
      SplitOnce(front, c, rest + [c] + b);
      SplitOnce(front, c, rest);
      Concat([front], Split(rest, c), Split(b, c));
    }
  }

  /** The part before the first separator. */
  lemma SplitOnce(a: string, c: char, b: string)
    requires c !in a
    ensures Split(a + [c] + b, c) == [a] + Split(b, c)
  {
    var s := a + [c] + b;
    FindAt(a, c, b);
    assert s[..|a|] == a && s[|a| + 1..] == b;
  }

  lemma Concat<T>(a: seq<T>, b: seq<T>, c: seq<T>)
    ensures a + b + c == a + (b + c)
  {
  }

  lemma CutsConcat(a: string, sep: string, b: string, c: string)
    ensures a + sep + b + sep + c == a + sep + (b + sep + c)
  {
    Concat(a + sep, b, sep);
    Concat(a + sep, b + sep, c);
  }

  /** A joined text starts with its first part. */
  lemma JoinHead(parts: seq<string>, sep: string)
    requires parts != []
    ensures Join(parts, sep) == parts[0] + if |parts| == 1 then "" else sep + Join(parts[1..], sep)
  {
    if |parts| > 1 { Concat(parts[0], sep, Join(parts[1..], sep)); }
  }
}
