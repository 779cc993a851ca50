/**
 When the cold build counts as failed: some directory has more than a twentieth of its
 files skipped.
 */
module SkipRate {
  import opened Wrappers
  import opened ImportGraph
  import opened ColdBuild

  /** The paths of one directory. */
  function InDir(ps: seq<Path>, d: TopDir): seq<Path> {
    if ps == [] then []
    else InDir(ps[..|ps| - 1], d) + if ShardFor(ps[|ps| - 1]) == Some(d) then [ps[|ps| - 1]] else []
  }

  /** More than one file in twenty of a directory was skipped. */
  predicate TooManyIn(w: Walk, skipped: seq<Path>, d: TopDir) {
    |w[d]| > 0 && 20 * |InDir(skipped, d)| > |w[d]|
  }

  ghost predicate TooManySkipped(w: Walk, skipped: seq<Path>) {
    exists d: TopDir :: TooManyIn(w, skipped, d)
  }

  // ------------------------------------------------------------------ what is counted

  /** Unreadable, or without a reusable record and not extractable. */
  ghost predicate IsUnusable(t: Tools, c: Cache, f: File) {
    || f.text.None?
    || (!(f.path in c && c[f.path].sha256 == t.hash(f.text.value)) && t.extract(f.path, f.text.value).None?)
  }

  ghost function Unusable(t: Tools, c: Cache, fs: seq<File>): set<Path> {
    set f | f in fs && IsUnusable(t, c, f) :: f.path
  }

  lemma UnusableMeaning(t: Tools, c: Cache, f: File)
    ensures Recall(t, c, f).None? <==> IsUnusable(t, c, f)
  {
  }

  ghost predicate DistinctPaths(ps: seq<Path>) {
    forall i, j :: 0 <= i < j < |ps| ==> ps[i] != ps[j]
  }

  ghost function PathsIn(ps: seq<Path>, d: TopDir): set<Path> { set p | p in ps && ShardFor(p) == Some(d) }

  lemma {:induction false} InDirCount(ps: seq<Path>, d: TopDir)
    requires DistinctPaths(ps)
    ensures |InDir(ps, d)| == |PathsIn(ps, d)|
  {
    if ps != [] {
      var n := |ps| - 1;
      InDirCount(ps[..n], d);
      PathsInNext(ps[..n], ps[n], d);
      assert ps == ps[..n] + [ps[n]];
      assert ps[n] !in ps[..n];
    }
  }

  lemma PathsInNext(front: seq<Path>, last: Path, d: TopDir)
    ensures PathsIn(front + [last], d) ==
            if ShardFor(last) == Some(d) then PathsIn(front, d) + {last} else PathsIn(front, d)
    ensures last !in front ==> last !in PathsIn(front, d)
  {
  }

  lemma {:induction false} SkippedDistinct(t: Tools, c: Cache, fs: seq<File>)
    requires DistinctFiles(fs)
    ensures DistinctPaths(Skipped(t, c, fs))
  {
    if fs != [] {
      var n := |fs| - 1;
      SkippedDistinct(t, c, fs[..n]);
      RecalledMeaning(t, c, fs[..n]);
      var rest := Skipped(t, c, fs[..n]);
      forall i | 0 <= i < |rest| ensures rest[i] != fs[n].path {
        assert rest[i] in rest;
        var f :| f in fs[..n] && Recall(t, c, f).None? && f.path == rest[i];
      }
    }
  }

  lemma SkippedIsUnusable(t: Tools, c: Cache, w: Walk, d: TopDir, p: Path)
    requires ProperWalk(w) && p in Skipped(t, c, WalkedFiles(w)) && ShardFor(p) == Some(d)
    ensures p in Unusable(t, c, w[d])
  {
    RecalledMeaning(t, c, WalkedFiles(w));
    var f :| f in WalkedFiles(w) && Recall(t, c, f).None? && f.path == p;
    UnusableMeaning(t, c, f);
    WalkedIn(w, |TOP_DIRS|, f, d);
  }

  lemma UnusableIsSkipped(t: Tools, c: Cache, w: Walk, d: TopDir, p: Path)
    requires ProperWalk(w) && p in Unusable(t, c, w[d])
    ensures p in Skipped(t, c, WalkedFiles(w)) && ShardFor(p) == Some(d)
  {
    var f :| f in w[d] && IsUnusable(t, c, f) && f.path == p;
    UnusableMeaning(t, c, f);
    var i :| 0 <= i < |w[d]| && w[d][i] == f;
    EveryDirListed(d);
    InWalk(w, |TOP_DIRS|, d, f);
    RecalledMeaning(t, c, WalkedFiles(w));
  }

  lemma SkippedInDir(t: Tools, c: Cache, w: Walk, d: TopDir)
    requires ProperWalk(w)
    ensures |InDir(Skipped(t, c, WalkedFiles(w)), d)| == |Unusable(t, c, w[d])|
  {
    var skipped := Skipped(t, c, WalkedFiles(w));
    SkippedDistinct(t, c, WalkedFiles(w));
    InDirCount(skipped, d);
    forall p | p in PathsIn(skipped, d) ensures p in Unusable(t, c, w[d]) { SkippedIsUnusable(t, c, w, d, p); }
    forall p | p in Unusable(t, c, w[d]) ensures p in PathsIn(skipped, d) { UnusableIsSkipped(t, c, w, d, p); }
    assert PathsIn(skipped, d) == Unusable(t, c, w[d]);
  }

  lemma {:induction false} InWalk(w: Walk, n: nat, d: TopDir, f: File)
    requires n <= |TOP_DIRS| && f in w[d] && exists k :: 0 <= k < n && TOP_DIRS[k] == d
    ensures f in FilesUpTo(w, n)
  {
    if TOP_DIRS[n - 1] != d { InWalk(w, n - 1, d, f); }
  }

  /** The check fails exactly when a non-empty directory has more than a twentieth of its files unusable. */
  lemma SkipRateMeaning(t: Tools, c: Cache, w: Walk)
    requires ProperWalk(w)
    ensures !TooManySkipped(w, Skipped(t, c, WalkedFiles(w))) <==>
            forall d :: |w[d]| > 0 ==> 20 * |Unusable(t, c, w[d])| <= |w[d]|
  {
    forall d { SkippedInDir(t, c, w, d); }
    var skipped := Skipped(t, c, WalkedFiles(w));
    forall d ensures TooManyIn(w, skipped, d) <==> |w[d]| > 0 && 20 * |Unusable(t, c, w[d])| > |w[d]| {
      SkippedInDir(t, c, w, d);
    }
  }
}
