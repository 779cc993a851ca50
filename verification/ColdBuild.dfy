/**
 The cold build: extract every walked file, reusing cached records, compute the
 reverse edges from scratch, prune the cache and fill the shards.
 */
module ColdBuild {
  import opened Wrappers
  import opened ImportGraph
  import opened ImportGraphInvariants

  /** A walked file and its text; `None` when it cannot be loaded. */
  datatype File = File(path: Path, text: Option<string>)

  /** The files of each top-level directory. */
  type Walk = m: map<TopDir, seq<File>> | forall d: TopDir :: d in m
    witness map d: TopDir | true :: []

  /** One extraction result. */
  datatype Found = Found(path: Path, sha256: string, imports: seq<Path>, exports: seq<string>)

  /** The files of the first `n` directories, in walking order. */
  function FilesUpTo(w: Walk, n: nat): seq<File>
    requires n <= |TOP_DIRS|
  {
    if n == 0 then [] else FilesUpTo(w, n - 1) + w[TOP_DIRS[n - 1]]
  }

  function WalkedFiles(w: Walk): seq<File> { FilesUpTo(w, |TOP_DIRS|) }

  /** The server is walked first, then the client, then what they share. */
  lemma WalkOrder(w: Walk)
    ensures WalkedFiles(w) == w[Server] + w[Client] + w[Shared]
  {
    assert FilesUpTo(w, 1) == [] + w[Server] && FilesUpTo(w, 2) == FilesUpTo(w, 1) + w[Client];
  }

  /** A walked file of a directory is in that directory's listing. */
  lemma {:induction false} WalkedIn(w: Walk, n: nat, f: File, d: TopDir)
    requires n <= |TOP_DIRS| && f in FilesUpTo(w, n)
    requires forall d, i :: 0 <= i < |w[d]| ==> ShardFor(w[d][i].path) == Some(d)
    requires ShardFor(f.path) == Some(d)
    ensures f in w[d]
  {
    if f in w[TOP_DIRS[n - 1]] {
      var i :| 0 <= i < |w[TOP_DIRS[n - 1]]| && w[TOP_DIRS[n - 1]][i] == f;
    } else {
      WalkedIn(w, n - 1, f, d);
    }
  }

  lemma {:induction false} WalkedHasShard(w: Walk, n: nat, f: File)
    requires n <= |TOP_DIRS| && f in FilesUpTo(w, n)
    requires forall d, i :: 0 <= i < |w[d]| ==> ShardFor(w[d][i].path) == Some(d)
    ensures ShardFor(f.path).Some?
  {
    if f in w[TOP_DIRS[n - 1]] {
      var i :| 0 <= i < |w[TOP_DIRS[n - 1]]| && w[TOP_DIRS[n - 1]][i] == f;
    } else {
      WalkedHasShard(w, n - 1, f);
    }
  }

  /** The walk lists each file once, under the directory it was found in. */
  ghost predicate ProperWalk(w: Walk) {
    && (forall d, i :: 0 <= i < |w[d]| ==> ShardFor(w[d][i].path) == Some(d))
    && DistinctFiles(WalkedFiles(w))
  }

  ghost predicate DistinctFiles(fs: seq<File>) {
    forall i, j :: 0 <= i < j < |fs| ==> fs[i].path != fs[j].path
  }

  ghost predicate DistinctFound(fs: seq<Found>) {
    forall i, j :: 0 <= i < j < |fs| ==> fs[i].path != fs[j].path
  }

  // ------------------------------------------------------------------ specification, with no cache

  predicate Extractable(t: Tools, f: File) {
    f.text.Some? && t.extract(f.path, f.text.value).Some?
  }

  function Extract(t: Tools, f: File): Found
    requires Extractable(t, f)
  {
    var e := t.extract(f.path, f.text.value).value;
    Found(f.path, t.hash(f.text.value), e.imports, e.exports)
  }

  /** What a build that remembers nothing finds. */
  function Clean(t: Tools, fs: seq<File>): (r: seq<Found>)
    ensures forall x :: x in r <==> exists f :: f in fs && Extractable(t, f) && x == Extract(t, f)
  {
    if fs == [] then []
    else
      var rest := Clean(t, fs[..|fs| - 1]);
      var f := fs[|fs| - 1];
      assert fs == fs[..|fs| - 1] + [f];
      if Extractable(t, f) then rest + [Extract(t, f)] else rest
  }

  function Failed(t: Tools, fs: seq<File>): (r: seq<Path>)
    ensures forall p :: p in r <==> exists f :: f in fs && !Extractable(t, f) && p == f.path
  {
    if fs == [] then []
    else
      var rest := Failed(t, fs[..|fs| - 1]);
      var f := fs[|fs| - 1];
      assert fs == fs[..|fs| - 1] + [f];
      if Extractable(t, f) then rest else rest + [f.path]
  }

  // ------------------------------------------------------------------ the reverse index

  /** `x` once for each time `p` occurs among the imports. */
  function Pushes(imports: seq<Path>, p: Path, x: Path): seq<Path> {
    if imports == [] then []
    else Pushes(imports[..|imports| - 1], p, x) + if imports[|imports| - 1] == p then [x] else []
  }

  /** The files that import `p`, in listing order. */
  function Importers(fs: seq<Found>, p: Path): seq<Path> {
    if fs == [] then []
    else Importers(fs[..|fs| - 1], p) + Pushes(fs[|fs| - 1].imports, p, fs[|fs| - 1].path)
  }

  lemma {:induction false} PushesMeaning(imports: seq<Path>, p: Path, x: Path)
    ensures forall q :: q in Pushes(imports, p, x) <==> q == x && p in imports
    ensures |Pushes(imports, p, x)| == multiset(imports)[p]
  {
    if imports != [] {
      var n := |imports| - 1;
      assert imports == imports[..n] + [imports[n]];
      PushesMeaning(imports[..n], p, x);
    }
  }

  /** The reverse edges computed from scratch are exactly the importers. */
  lemma {:induction false} ImportersMeaning(fs: seq<Found>, p: Path)
    ensures forall q :: q in Importers(fs, p) <==> exists f :: f in fs && f.path == q && p in f.imports
  {
    if fs != [] {
      var n := |fs| - 1;
      assert fs == fs[..n] + [fs[n]];
      ImportersMeaning(fs[..n], p);
      PushesMeaning(fs[n].imports, p, fs[n].path);
    }
  }

  lemma {:induction false} PushesCount(imports: seq<Path>, p: Path, x: Path, q: Path)
    ensures multiset(Pushes(imports, p, x))[q] == if q == x then multiset(imports)[p] else 0
  {
    if imports != [] {
      var n := |imports| - 1;
      assert imports == imports[..n] + [imports[n]];
      PushesCount(imports[..n], p, x, q);
    }
  }

  /** A file is listed under a path once for each time it imports it. */
  lemma {:induction false} ImportersCount(fs: seq<Found>, p: Path, f: Found)
    requires DistinctFound(fs) && f in fs
    ensures multiset(Importers(fs, p))[f.path] == multiset(f.imports)[p]
  {
    var n := |fs| - 1;
    var front, last := fs[..n], fs[n];
    assert fs == front + [last];
    PushesCount(last.imports, p, last.path, f.path);
    if f == last {
      ImportersMeaning(front, p);
      assert f.path !in Importers(front, p);
    } else {
      assert f in front && f.path != last.path;
      ImportersCount(front, p, f);
    }
  }

  lemma {:induction false} ImportersConcat(a: seq<Found>, b: seq<Found>, p: Path)
    ensures Importers(a + b, p) == Importers(a, p) + Importers(b, p)
  {
    if b == [] {
      assert a + b == a;
    } else {
      assert (a + b)[..|a + b| - 1] == a + b[..|b| - 1];
      ImportersConcat(a, b[..|b| - 1], p);
    }
  }

  function Listed(fs: seq<Found>): set<Path> { set f | f in fs :: f.path }

  function Named(fs: seq<Found>): set<Path> { set f, p | f in fs && p in f.imports :: p }

  lemma NamedExtend(fs: seq<Found>, f: Found)
    ensures Named(fs + [f]) == Named(fs) + Paths(f.imports)
    ensures forall p :: Importers(fs + [f], p) == Importers(fs, p) + Pushes(f.imports, p, f.path)
  {
  }

  lemma NamedSplit(fs: seq<Found>)
    requires fs != []
    ensures Named(fs) == Named(fs[..|fs| - 1]) + Paths(fs[|fs| - 1].imports)
  {
    assert fs == fs[..|fs| - 1] + [fs[|fs| - 1]];
    NamedExtend(fs[..|fs| - 1], fs[|fs| - 1]);
  }

  function Pushed(m: map<Path, seq<Path>>, p: Path): seq<Path> { if p in m then m[p] else [] }

  /** `x` appended to the list of every import, one occurrence at a time. */
  function PushAll(m: map<Path, seq<Path>>, imports: seq<Path>, x: Path): map<Path, seq<Path>> {
    if imports == [] then m
    else
      var r := PushAll(m, imports[..|imports| - 1], x);
      var imp := imports[|imports| - 1];
      r[imp := Pushed(r, imp) + [x]]
  }

  lemma {:induction false} PushAllMeaning(m: map<Path, seq<Path>>, imports: seq<Path>, x: Path)
    ensures PushAll(m, imports, x).Keys == m.Keys + Paths(imports)
    ensures forall p :: Pushed(PushAll(m, imports, x), p) == Pushed(m, p) + Pushes(imports, p, x)
  {
    if imports != [] {
      var n := |imports| - 1;
      assert imports == imports[..n] + [imports[n]];
      PushAllMeaning(m, imports[..n], x);
      var r := PushAll(m, imports[..n], x);
      forall p ensures Pushed(PushAll(m, imports, x), p) == Pushed(m, p) + Pushes(imports, p, x) {
        assert Pushed(PushAll(m, imports, x), p) == Pushed(r, p) + if imports[n] == p then [x] else [];
      }
    }
  }

  /** The index after the forward pass over some of the files. */
  function Indexed(m: map<Path, seq<Path>>, fs: seq<Found>): map<Path, seq<Path>> {
    if fs == [] then m
    else PushAll(Indexed(m, fs[..|fs| - 1]), fs[|fs| - 1].imports, fs[|fs| - 1].path)
  }

  lemma {:induction false} IndexedKeys(m: map<Path, seq<Path>>, fs: seq<Found>)
    ensures Indexed(m, fs).Keys == m.Keys + Named(fs)
  {
    if fs != [] {
      var front, f := fs[..|fs| - 1], fs[|fs| - 1];
      IndexedKeys(m, front);
      PushAllMeaning(Indexed(m, front), f.imports, f.path);
      NamedSplit(fs);
    }
  }

  lemma {:induction false} IndexedPushes(m: map<Path, seq<Path>>, fs: seq<Found>, p: Path)
    ensures Pushed(Indexed(m, fs), p) == Pushed(m, p) + Importers(fs, p)
  {
    if fs != [] {
      var front, f := fs[..|fs| - 1], fs[|fs| - 1];
      IndexedPushes(m, front, p);
      PushAllMeaning(Indexed(m, front), f.imports, f.path);
      assert Importers(fs, p) == Importers(front, p) + Pushes(f.imports, p, f.path);
    }
  }

  lemma IndexedMeaning(m: map<Path, seq<Path>>, fs: seq<Found>)
    ensures Indexed(m, fs).Keys == m.Keys + Named(fs)
    ensures forall p :: Pushed(Indexed(m, fs), p) == Pushed(m, p) + Importers(fs, p)
  {
    IndexedKeys(m, fs);
    forall p { IndexedPushes(m, fs, p); }
  }

  /**
   The reverse index: a key for every listed and every imported path, each with its
   importers.
   */
  method BuildImportedBy(fs: seq<Found>) returns (r: map<Path, seq<Path>>)
    ensures r.Keys == Listed(fs) + Named(fs)
    ensures forall p :: p in r ==> r[p] == Importers(fs, p)
  {
    r := map[];
    for i := 0 to |fs|
      invariant r.Keys == Listed(fs[..i])
      invariant forall p :: p in r ==> r[p] == []
    {
      assert fs[..i + 1] == fs[..i] + [fs[i]];
      r := r[fs[i].path := []];
    }
    assert fs[..|fs|] == fs;
    ghost var empty := r;
    r := PushAllFiles(r, fs);
    IndexedMeaning(empty, fs);
    forall p | p in r ensures r[p] == Importers(fs, p) { assert Pushed(r, p) == r[p] && Pushed(empty, p) == []; }
  }

  /** The forward pass: each file is pushed to all it imports. */
  method PushAllFiles(m: map<Path, seq<Path>>, fs: seq<Found>) returns (r: map<Path, seq<Path>>)
    ensures r == Indexed(m, fs)
  {
    r := m;
    for i := 0 to |fs|
      invariant r == Indexed(m, fs[..i])
    {
      assert fs[..i + 1][..i] == fs[..i];
      r := PushFile(r, fs[i].imports, fs[i].path);
    }
    assert fs[..|fs|] == fs;
  }

  method PushFile(m: map<Path, seq<Path>>, imports: seq<Path>, x: Path) returns (r: map<Path, seq<Path>>)
    ensures r == PushAll(m, imports, x)
  {
    r := m;
    for j := 0 to |imports|
      invariant r == PushAll(m, imports[..j], x)
    {
      assert imports[..j + 1][..j] == imports[..j];
      if imports[j] !in r {
        r := r[imports[j] := []];
      }
      r := r[imports[j] := r[imports[j]] + [x]];
    }
    assert imports[..|imports|] == imports;
  }

  // ------------------------------------------------------------------ extraction with a cache

  /** The cached record is reused: its hash is the hash of the text. */
  predicate Hit(t: Tools, c: Cache, f: File) {
    f.text.Some? && f.path in c && c[f.path].sha256 == t.hash(f.text.value)
  }

  /** What the build records for one file: the cached record on a hit, an extraction otherwise. */
  function Recall(t: Tools, c: Cache, f: File): Option<Found> {
    if Hit(t, c, f) then Some(Found(f.path, t.hash(f.text.value), c[f.path].imports, c[f.path].exports))
    else if Extractable(t, f) then Some(Extract(t, f))
    else None
  }

  function Recalled(t: Tools, c: Cache, fs: seq<File>): seq<Found> {
    if fs == [] then []
    else
      var r := Recall(t, c, fs[|fs| - 1]);
      Recalled(t, c, fs[..|fs| - 1]) + if r.Some? then [r.value] else []
  }

  function Skipped(t: Tools, c: Cache, fs: seq<File>): seq<Path> {
    if fs == [] then []
    else
      var f := fs[|fs| - 1];
      Skipped(t, c, fs[..|fs| - 1]) + if Recall(t, c, f).Some? then [] else [f.path]
  }

  method ExtractFromProject(t: Tools, files: seq<File>, cache: Cache) returns (results: seq<Found>, skipped: seq<Path>)
    ensures results == Recalled(t, cache, files)
    ensures skipped == Skipped(t, cache, files)
  {
    results, skipped := [], [];
    for i := 0 to |files|
      invariant results == Recalled(t, cache, files[..i])
      invariant skipped == Skipped(t, cache, files[..i])
    {
      var f := files[i];
      assert files[..i + 1][..i] == files[..i];
      if f.text.None? {
        skipped := skipped + [f.path];
      } else {
        var hash := t.hash(f.text.value);
        if f.path in cache && cache[f.path].sha256 == hash {
          results := results + [Found(f.path, hash, cache[f.path].imports, cache[f.path].exports)];
        } else {
          var e := t.extract(f.path, f.text.value);
          if e.None? {
            skipped := skipped + [f.path];
          } else {
            results := results + [Found(f.path, hash, e.value.imports, e.value.exports)];
          }
        }
      }
    }
    assert files[..|files|] == files;
  }

  lemma {:induction false} RecalledMeaning(t: Tools, c: Cache, fs: seq<File>)
    ensures forall x :: x in Recalled(t, c, fs) <==> exists f :: f in fs && Recall(t, c, f) == Some(x)
    ensures forall p :: p in Skipped(t, c, fs) <==> exists f :: f in fs && Recall(t, c, f).None? && f.path == p
  {
    if fs != [] {
      var n := |fs| - 1;
      assert fs == fs[..n] + [fs[n]];
      RecalledMeaning(t, c, fs[..n]);
    }
  }

  lemma {:induction false} RecalledDistinct(t: Tools, c: Cache, fs: seq<File>)
    requires DistinctFiles(fs)
    ensures DistinctFound(Recalled(t, c, fs))
  {
    if fs != [] {
      var n := |fs| - 1;
      RecalledDistinct(t, c, fs[..n]);
      RecalledMeaning(t, c, fs[..n]);
      var rest := Recalled(t, c, fs[..n]);
      forall i | 0 <= i < |rest| ensures rest[i].path != fs[n].path {
        assert rest[i] in rest;
        var f :| f in fs[..n] && Recall(t, c, f) == Some(rest[i]);
      }
    }
  }

  /** Each walked file ends in exactly one of the results and the skip list, whatever the cache holds. */
  lemma ResultOrSkipped(t: Tools, c: Cache, fs: seq<File>, f: File)
    requires DistinctFiles(fs) && f in fs
    ensures (f.path in Listed(Recalled(t, c, fs))) != (f.path in Skipped(t, c, fs))
  {
    RecalledMeaning(t, c, fs);
    if Recall(t, c, f).Some? {
      assert Recall(t, c, f).value in Recalled(t, c, fs);
    }
  }

  /** The cached record of a file that would be reused is what extraction would give. */
  ghost predicate HitsAgree(t: Tools, c: Cache, fs: seq<File>) {
    forall f :: f in fs && Hit(t, c, f) ==> Extractable(t, f) && Recall(t, c, f) == Some(Extract(t, f))
  }

  /** The cache is invisible in the results exactly when no reused record disagrees with its file. */
  lemma CacheInvisible(t: Tools, c: Cache, fs: seq<File>)
    requires DistinctFiles(fs)
    ensures Recalled(t, c, fs) == Clean(t, fs) <==> HitsAgree(t, c, fs)
  {
    if HitsAgree(t, c, fs) { AgreeingHitsAreClean(t, c, fs); }
    if Recalled(t, c, fs) == Clean(t, fs) {
      forall f | f in fs && Hit(t, c, f) ensures Extractable(t, f) && Recall(t, c, f) == Some(Extract(t, f)) {
        RecalledMeaning(t, c, fs);
        HitIsClean(t, c, fs, f);
      }
    }
  }

  /** A reused record that is among the results of a build without cache is what extraction gives. */
  lemma HitIsClean(t: Tools, c: Cache, fs: seq<File>, f: File)
    requires DistinctFiles(fs) && f in fs && Hit(t, c, f) && Recall(t, c, f).value in Clean(t, fs)
    ensures Extractable(t, f) && Recall(t, c, f) == Some(Extract(t, f))
  {
    var x := Recall(t, c, f).value;
    var f' :| f' in fs && Extractable(t, f') && x == Extract(t, f');
    assert f'.path == f.path;
  }

  lemma {:induction false} AgreeingHitsAreClean(t: Tools, c: Cache, fs: seq<File>)
    requires HitsAgree(t, c, fs)
    ensures Recalled(t, c, fs) == Clean(t, fs) && Skipped(t, c, fs) == Failed(t, fs)
  {
    if fs != [] {
      var n := |fs| - 1;
      assert fs[n] in fs;
      AgreeingHitsAreClean(t, c, fs[..n]);
    }
  }

  /** An honest cache, with stale and dead records among it, is invisible. */
  lemma HonestCacheInvisible(t: Tools, c: Cache, fs: seq<File>)
    requires Honest(t, c) && InjectiveHash(t)
    ensures Recalled(t, c, fs) == Clean(t, fs) && Skipped(t, c, fs) == Failed(t, fs)
  {
    forall f | f in fs && Hit(t, c, f) ensures Extractable(t, f) && Recall(t, c, f) == Some(Extract(t, f)) {
      assert HonestRecord(t, f.path, c[f.path]);
    }
    AgreeingHitsAreClean(t, c, fs);
  }

  // ------------------------------------------------------------------ the built graph

  function Lookup(fs: seq<Found>, p: Path): (f: Found)
    requires p in Listed(fs)
    ensures f in fs && f.path == p
  {
    var n := |fs| - 1;
    if fs[n].path == p then fs[n]
    else
      assert fs == fs[..n] + [fs[n]];
      Lookup(fs[..n], p)
  }

  /** Every found file with its reverse edges. */
  function BuiltEntries(fs: seq<Found>): map<Path, Entry> {
    map p | p in Listed(fs) :: Entry(Lookup(fs, p).imports, Lookup(fs, p).exports, Importers(fs, p))
  }

  function ShardOf(entries: map<Path, Entry>, d: TopDir): ShardMap {
    map p | p in entries && ShardFor(p) == Some(d) :: entries[p]
  }

  function BuiltShards(fs: seq<Found>): Shards { map d: TopDir | true :: ShardOf(BuiltEntries(fs), d) }

  function BuiltCache(fs: seq<Found>): Cache {
    map p | p in Listed(fs) :: Cached(Lookup(fs, p).sha256, Lookup(fs, p).imports, Lookup(fs, p).exports)
  }

  function Built(fs: seq<Found>): Graph { Graph(BuiltShards(fs), BuiltCache(fs)) }

  ghost predicate InTopDirs(fs: seq<Found>) {
    forall f :: f in fs ==> ShardFor(f.path).Some?
  }

  lemma LookupIsIt(fs: seq<Found>, f: Found)
    requires DistinctFound(fs) && f in fs
    ensures f.path in Listed(fs) && Lookup(fs, f.path) == f
  {
  }

  lemma BuiltAt(fs: seq<Found>, p: Path)
    requires InTopDirs(fs)
    ensures Present(BuiltShards(fs), p) <==> p in Listed(fs)
    ensures p in Listed(fs) ==> At(BuiltShards(fs), p) == BuiltEntries(fs)[p]
  {
  }

  lemma BuiltRecords(fs: seq<Found>, q: Path, p: Path)
    requires DistinctFound(fs) && InTopDirs(fs)
    ensures Recorded(BuiltShards(fs), q, p) <==> p in Listed(fs) && Imports(BuiltShards(fs), q, p)
  {
    BuiltAt(fs, p);
    BuiltAt(fs, q);
    ImportersMeaning(fs, p);
    if Recorded(BuiltShards(fs), q, p) {
      var f :| f in fs && f.path == q && p in f.imports;
      LookupIsIt(fs, f);
    }
    if p in Listed(fs) && Imports(BuiltShards(fs), q, p) {
      assert Lookup(fs, q) in fs;
    }
  }

  /** A freshly built graph satisfies the invariant and misses no reverse edge. */
  lemma BuiltIsExact(fs: seq<Found>)
    requires DistinctFound(fs) && InTopDirs(fs)
    ensures Inv(Built(fs)) && Complete(Built(fs).shards)
  {
    forall p { BuiltAt(fs, p); }
    forall p, q { BuiltRecords(fs, q, p); }
  }

  /** For every import between two results, the cache remembers it of the importer. */
  ghost predicate KnowsImports(c: Cache, fs: seq<Found>) {
    forall f, p :: f in fs && p in f.imports && p in Listed(fs) ==> f.path in c && p in c[f.path].imports
  }

  lemma BuiltEdges(fs: seq<Found>, q: Path, p: Path)
    requires DistinctFound(fs) && InTopDirs(fs)
    ensures Recorded(BuiltShards(fs), q, p) <==> p in Listed(fs) && q in Listed(fs) && p in Lookup(fs, q).imports
  {
    BuiltRecords(fs, q, p);
    BuiltAt(fs, q);
  }

  lemma CoverageOfBuiltShards(fs: seq<Found>, c: Cache)
    requires DistinctFound(fs) && InTopDirs(fs)
    ensures Covered(Graph(BuiltShards(fs), c)) <==> KnowsImports(c, fs)
  {
    var g := Graph(BuiltShards(fs), c);
    if KnowsImports(c, fs) {
      forall q, p | Recorded(g.shards, q, p) ensures p in OldImports(g, q) {
        BuiltEdges(fs, q, p);
        assert Lookup(fs, q) in fs;
      }
    }
    if Covered(g) {
      forall f, p | f in fs && p in f.imports && p in Listed(fs) ensures f.path in c && p in c[f.path].imports {
        LookupIsIt(fs, f);
        BuiltEdges(fs, f.path, p);
        assert p in OldImports(g, f.path);
      }
    }
  }

  /**
   Freshly built shards beside any cache, such as the one a stopped build leaves: exact
   now, and sound for good exactly when the cache knows the imports between the results.
   */
  lemma ShardsUnderCache(fs: seq<Found>, c: Cache)
    requires DistinctFound(fs) && InTopDirs(fs)
    ensures var g := Graph(BuiltShards(fs), c);
      && WellSharded(g.shards) && Sound(g.shards) && Complete(g.shards)
      && (AlwaysSound(g) <==> KnowsImports(c, fs))
  {
    BuiltIsExact(fs);
    SoundnessIsCoverage(Graph(BuiltShards(fs), c));
    CoverageOfBuiltShards(fs, c);
  }

  /**
   The smallest case: `server/a` imports `server/b`, the shards were written and the cache
   was not, and `server/a` is deleted.  Then `server/b` goes on listing it.
   */
  lemma StoppedBuildLeavesStaleEdge(t: Tools, sha: string)
    ensures var a, b := "server/a", "server/b";
      var fs := [Found(a, sha, [b], []), Found(b, sha, [], [])];
      var s := Step(t, Graph(BuiltShards(fs), map[]), Event(a, Unlink, None, None)).shards;
      Recorded(s, a, b) && !Present(s, a)
  {
    var a, b := "server/a", "server/b";
    var fs := [Found(a, sha, [b], []), Found(b, sha, [], [])];
    assert a[|a| - 1] == 'a' && b[|b| - 1] == 'b';
    InServer(a);
    InServer(b);
    BuiltIsExact(fs);
    assert fs[0] in fs && fs[1] in fs;
    LookupIsIt(fs, fs[0]);
    BuiltEdges(fs, a, b);
    assert fs[1].path in Listed(fs);
    UncoveredEdgeOutlivesSource(t, Graph(BuiltShards(fs), map[]), a, b);
  }

  lemma InServer(p: Path)
    requires "server/" <= p
    ensures ShardFor(p) == Some(Server)
  {
    assert TOP_DIRS[0] == Server && DirPrefix(Server) <= p;
    assert FirstDir(p, 0) == Some(Server);
  }

  lemma KnowsOwnImports(fs: seq<Found>)
    requires DistinctFound(fs)
    ensures KnowsImports(BuiltCache(fs), fs)
  {
    forall f | f in fs ensures f.path in BuiltCache(fs) && BuiltCache(fs)[f.path].imports == f.imports {
      LookupIsIt(fs, f);
    }
  }

  /** Whatever the cache holds, a build from a proper walk starts from well-placed, distinct results. */
  lemma RecalledIsProper(t: Tools, c: Cache, w: Walk)
    requires ProperWalk(w)
    ensures var fs := Recalled(t, c, WalkedFiles(w)); DistinctFound(fs) && InTopDirs(fs)
  {
    RecalledDistinct(t, c, WalkedFiles(w));
    RecalledMeaning(t, c, WalkedFiles(w));
    forall x | x in Recalled(t, c, WalkedFiles(w)) ensures ShardFor(x.path).Some? {
      var f :| f in WalkedFiles(w) && Recall(t, c, f) == Some(x);
      WalkedHasShard(w, |TOP_DIRS|, f);
    }
  }

  lemma CleanIsHonest(t: Tools, w: Walk)
    ensures Honest(t, BuiltCache(Clean(t, WalkedFiles(w))))
  {
  }

  // ------------------------------------------------------------------ watcher against rebuild

  /** `fs` lists the files of the graph, with their current imports. */
  ghost predicate Enumerates(fs: seq<Found>, g: Graph) {
    && DistinctFound(fs)
    && Listed(fs) == g.cache.Keys
    && forall f :: f in fs ==> f.path in g.cache && f.imports == g.cache[f.path].imports
  }

  lemma ImportersAreImports(g: Graph, fs: seq<Found>, q: Path, p: Path)
    requires InSync(g) && Enumerates(fs, g)
    ensures q in Importers(fs, p) <==> Imports(g.shards, q, p)
  {
    ImportersMeaning(fs, p);
    if Imports(g.shards, q, p) {
      assert q in g.cache && Lookup(fs, q).path == q;
    }
  }

  /** The recorded reverse edges of `p` are, as a set, those a build from scratch computes. */
  ghost predicate SameAsRebuilt(g: Graph, fs: seq<Found>, p: Path)
    requires Present(g.shards, p)
  {
    Paths(At(g.shards, p).importedBy) == Paths(Importers(fs, p))
  }

  /** The reverse edges kept in place agree with a rebuild exactly when none is missing. */
  lemma AgreesWithRebuild(g: Graph, fs: seq<Found>)
    requires Inv(g) && Enumerates(fs, g)
    ensures Complete(g.shards) <==> forall p :: Present(g.shards, p) ==> SameAsRebuilt(g, fs, p)
  {
    if forall p :: Present(g.shards, p) ==> SameAsRebuilt(g, fs, p) {
      forall p, q | Imports(g.shards, q, p) && Present(g.shards, p) ensures Recorded(g.shards, q, p) {
        ImportersAreImports(g, fs, q, p);
        assert q in Paths(Importers(fs, p));
        assert SameAsRebuilt(g, fs, p);
      }
    }
    if Complete(g.shards) {
      forall p | Present(g.shards, p) ensures SameAsRebuilt(g, fs, p) {
        CompletePathIsRebuilt(g, fs, p);
      }
    }
  }

  lemma CompletePathIsRebuilt(g: Graph, fs: seq<Found>, p: Path)
    requires Inv(g) && Enumerates(fs, g) && Present(g.shards, p)
    requires forall q :: !Missing(g.shards, q, p)
    ensures SameAsRebuilt(g, fs, p)
  {
    forall q ensures q in At(g.shards, p).importedBy <==> q in Importers(fs, p) {
      ImportersAreImports(g, fs, q, p);
      assert Recorded(g.shards, q, p) ==> Imports(g.shards, q, p);
      assert !Missing(g.shards, q, p);
    }
  }

  /**
   The index law.  From a cold build over any prior cache, after any run of events, the
   reverse edges are sound; and each is the set a build from scratch over the current
   entries computes, exactly when no entry has named another ever since that one was
   inserted by the run.
   */
  lemma WatcherMatchesRebuild(t: Tools, c: Cache, w: Walk, evs: seq<Event>, fs: seq<Found>)
    requires ProperWalk(w)
    requires Enumerates(fs, Run(t, Built(Recalled(t, c, WalkedFiles(w))), evs))
    ensures var g0 := Built(Recalled(t, c, WalkedFiles(w))); var g := Run(t, g0, evs);
      && Inv(g)
      && ((forall p :: Present(g.shards, p) ==> SameAsRebuilt(g, fs, p)) <==>
          !SomeNamedSinceInsertion(History(t, g0, evs)))
      && (NeverInsertsNamedPath(t, g0, evs) ==> forall p :: Present(g.shards, p) ==> SameAsRebuilt(g, fs, p))
  {
    RecalledIsProper(t, c, w);
    BuiltIsExact(Recalled(t, c, WalkedFiles(w)));
    RunMatchesRebuild(t, Built(Recalled(t, c, WalkedFiles(w))), evs, fs);
  }

  /** The same from any exact graph. */
  lemma RunMatchesRebuild(t: Tools, g0: Graph, evs: seq<Event>, fs: seq<Found>)
    requires Inv(g0) && Complete(g0.shards)
    requires Enumerates(fs, Run(t, g0, evs))
    ensures var g := Run(t, g0, evs);
      && Inv(g)
      && ((forall p :: Present(g.shards, p) ==> SameAsRebuilt(g, fs, p)) <==>
          !SomeNamedSinceInsertion(History(t, g0, evs)))
      && (NeverInsertsNamedPath(t, g0, evs) ==> forall p :: Present(g.shards, p) ==> SameAsRebuilt(g, fs, p))
  {
    RunKeepsInv(t, g0, evs);
    AgreesWithRebuild(Run(t, g0, evs), fs);
    CompleteAfterRun(t, g0, evs);
    if NeverInsertsNamedPath(t, g0, evs) { RunKeepsComplete(t, g0, evs); }
  }
}
