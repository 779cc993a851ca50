/**
 The two programs of `scripts/build-code-graph.ts` that own state: the cold build,
 which fills the files on disk, and the watcher, which keeps its copy in memory,
 edits it in place for each event and flushes what it touched.
 */
module CodeGraphWatcher {
  import opened Wrappers
  import opened ImportGraph
  import opened ImportGraphInvariants
  import opened ColdBuild
  import opened SkipRate

  /** One file per directory; `None` when it is absent or cannot be read. */
  type ShardFiles = m: map<TopDir, Option<ShardMap>> | forall d: TopDir :: d in m
    witness map d: TopDir | true :: None

  /** What a process loads: an unreadable shard is an empty one. */
  function Loaded(files: ShardFiles): Shards {
    map d: TopDir | true :: if files[d].Some? then files[d].value else map[]
  }

  /** The shard files and the cache file; the latter is `None` also when it has another version. */
  class Disk {
    var shardFiles: ShardFiles
    var cacheFile: Option<Cache>

    constructor ()
      ensures cacheFile == None && forall d :: shardFiles[d] == None
    {
      shardFiles := map d | d in NoShards() :: None;
      cacheFile := None;
    }

    ghost function LoadedShards(): Shards
      reads this
    {
      Loaded(shardFiles)
    }

    function LoadedCache(): Cache
      reads this
    {
      if cacheFile.Some? then cacheFile.value else map[]
    }
  }

  // ------------------------------------------------------------------ cold build

  lemma {:induction false} RecalledConcat(t: Tools, c: Cache, a: seq<File>, b: seq<File>)
    ensures Recalled(t, c, a + b) == Recalled(t, c, a) + Recalled(t, c, b)
    ensures Skipped(t, c, a + b) == Skipped(t, c, a) + Skipped(t, c, b)
  {
    if b == [] {
      assert a + b == a;
    } else {
      var n := |b| - 1;
      assert (a + b)[..|a + b| - 1] == a + b[..n];
      RecalledConcat(t, c, a, b[..n]);
    }
  }

  /**
   The cold build over what the walk saw, from any prior cache: the shards and the saved
   cache are exactly those of the recalled results, with no dead path left over.  When too
   many files were skipped it stops after the shards, with the cache file as it was.
   */
  method RunColdBuild(t: Tools, disk: Disk, w: Walk) returns (ok: bool, skipped: seq<Path>)
    requires ProperWalk(w)
    modifies disk
    ensures skipped == Skipped(t, old(disk.LoadedCache()), WalkedFiles(w))
    ensures ok == !TooManySkipped(w, skipped)
    ensures ok <==> forall d :: |w[d]| > 0 ==> 20 * |Unusable(t, old(disk.LoadedCache()), w[d])| <= |w[d]|
    ensures var all := Recalled(t, old(disk.LoadedCache()), WalkedFiles(w));
      && disk.LoadedShards() == BuiltShards(all)
      && disk.cacheFile == if ok then Some(BuiltCache(all)) else old(disk.cacheFile)
  {
    var cache := disk.LoadedCache();
    var all: seq<Found>;
    all, skipped := ExtractAll(t, w, cache);
    RecalledIsProper(t, cache, w);
    RecalledIsWalked(t, cache, w);
    cache := PruneAndUpdate(cache, all);
    var shards := BuildShards(w, all);
    SaveShards(disk, shards);
    ok := SkipRateAcceptable(w, skipped);
    SkipRateMeaning(t, old(disk.LoadedCache()), w);
    if ok {
      disk.cacheFile := Some(cache);
    }
  }

  method SaveShards(disk: Disk, shards: Shards)
    modifies disk`shardFiles
    ensures disk.LoadedShards() == shards && forall d :: disk.shardFiles[d] == Some(shards[d])
  {
    for i := 0 to |TOP_DIRS|
      invariant forall k :: 0 <= k < i ==> disk.shardFiles[TOP_DIRS[k]] == Some(shards[TOP_DIRS[k]])
    {
      disk.shardFiles := disk.shardFiles[TOP_DIRS[i] := Some(shards[TOP_DIRS[i]])];
    }
    forall d: TopDir ensures disk.shardFiles[d] == Some(shards[d]) { EveryDirListed(d); }
    SameShards(disk.LoadedShards(), shards);
  }

  /** The reverse index, the final entries and the shards cut from them. */
  method BuildShards(w: Walk, all: seq<Found>) returns (shards: Shards)
    requires ProperWalk(w) && DistinctFound(all) && Listed(all) <= WalkedPaths(w)
    ensures shards == BuiltShards(all)
  {
    var importedBy := BuildImportedBy(all);
    var entries := AssembleEntries(all, importedBy);
    assert entries == BuiltEntries(all);
    shards := WriteShards(w, entries);
    assert forall d :: shards[d] == BuiltShards(all)[d];
  }

  method ExtractAll(t: Tools, w: Walk, cache: Cache) returns (all: seq<Found>, skipped: seq<Path>)
    ensures all == Recalled(t, cache, WalkedFiles(w)) && skipped == Skipped(t, cache, WalkedFiles(w))
  {
    all, skipped := [], [];
    for i := 0 to |TOP_DIRS|
      invariant all == Recalled(t, cache, FilesUpTo(w, i)) && skipped == Skipped(t, cache, FilesUpTo(w, i))
    {
      var results, failed := ExtractFromProject(t, w[TOP_DIRS[i]], cache);
      RecalledConcat(t, cache, FilesUpTo(w, i), w[TOP_DIRS[i]]);
      all := all + results;
      skipped := skipped + failed;
    }
  }

  function WalkedPaths(w: Walk): set<Path> { set f | f in WalkedFiles(w) :: f.path }

  lemma RecalledIsWalked(t: Tools, c: Cache, w: Walk)
    ensures Listed(Recalled(t, c, WalkedFiles(w))) <= WalkedPaths(w)
  {
    RecalledMeaning(t, c, WalkedFiles(w));
    forall p | p in Listed(Recalled(t, c, WalkedFiles(w))) ensures p in WalkedPaths(w) {
      var x := Lookup(Recalled(t, c, WalkedFiles(w)), p);
      var f :| f in WalkedFiles(w) && Recall(t, c, f) == Some(x);
      assert f.path == p;
    }
  }

  /** The percentage check, directory by directory. */
  method SkipRateAcceptable(w: Walk, skipped: seq<Path>) returns (ok: bool)
    ensures ok == !TooManySkipped(w, skipped)
  {
    ok := true;
    for i := 0 to |TOP_DIRS|
      invariant ok <==> forall k :: 0 <= k < i ==> !TooManyIn(w, skipped, TOP_DIRS[k])
    {
      var d := TOP_DIRS[i];
      if |w[d]| == 0 { continue; }
      if 20 * |InDir(skipped, d)| > |w[d]| {
        ok := false;
      }
    }
    forall d | TooManyIn(w, skipped, d) ensures !ok {
      EveryDirListed(d);
      var k :| 0 <= k < |TOP_DIRS| && TOP_DIRS[k] == d;
    }
  }

  /** A result with its reverse edges, none when the index has no key for it. */
  function EntryOf(f: Found, importedBy: map<Path, seq<Path>>): Entry {
    Entry(f.imports, f.exports, if f.path in importedBy then importedBy[f.path] else [])
  }

  /** The final entries. */
  function Assembled(all: seq<Found>, importedBy: map<Path, seq<Path>>): map<Path, Entry> {
    map p | p in Listed(all) :: EntryOf(Lookup(all, p), importedBy)
  }

  method AssembleEntries(all: seq<Found>, importedBy: map<Path, seq<Path>>) returns (entries: map<Path, Entry>)
    requires DistinctFound(all)
    ensures entries == Assembled(all, importedBy)
  {
    entries := map[];
    ghost var want := Assembled(all, importedBy);
    for i := 0 to |all|
      invariant entries.Keys == Listed(all[..i])
      invariant forall p :: p in entries ==> p in want && entries[p] == want[p]
    {
      ListedNext(all, i);
      AssembledAt(all, importedBy, all[i]);
      entries := entries[all[i].path := EntryOf(all[i], importedBy)];
    }
    assert all[..|all|] == all;
    SameEntries(entries, want);
  }

  lemma SameEntries(a: map<Path, Entry>, b: map<Path, Entry>)
    requires a.Keys == b.Keys && forall p :: p in a ==> a[p] == b[p]
    ensures a == b
  {
  }

  lemma ListedNext(all: seq<Found>, i: nat)
    requires i < |all|
    ensures Listed(all[..i + 1]) == Listed(all[..i]) + {all[i].path}
  {
    assert all[..i + 1] == all[..i] + [all[i]];
    assert all[i] in all[..i + 1];
  }

  lemma AssembledAt(all: seq<Found>, importedBy: map<Path, seq<Path>>, f: Found)
    requires DistinctFound(all) && f in all
    ensures f.path in Assembled(all, importedBy) && Assembled(all, importedBy)[f.path] == EntryOf(f, importedBy)
  {
  }

  /** Dead paths leave the cache, then every result is stored in it. */
  method PruneAndUpdate(was: Cache, all: seq<Found>) returns (cache: Cache)
    requires DistinctFound(all)
    ensures cache == BuiltCache(all)
  {
    cache := was;
    var left := was.Keys;
    while left != {}
      invariant left <= cache.Keys
      invariant cache.Keys - left <= Listed(all)
      decreases left
    {
      var p :| p in left;
      left := left - {p};
      if p !in Listed(all) {
        cache := cache - {p};
      }
    }
    for i := 0 to |all|
      invariant cache.Keys <= Listed(all) && Listed(all[..i]) <= cache.Keys
      invariant forall k :: 0 <= k < i ==> cache[all[k].path] == Cached(all[k].sha256, all[k].imports, all[k].exports)
    {
      assert all[..i + 1] == all[..i] + [all[i]];
      cache := cache[all[i].path := Cached(all[i].sha256, all[i].imports, all[i].exports)];
    }
    assert all[..|all|] == all;
    assert cache.Keys == BuiltCache(all).Keys;
    forall p | p in Listed(all) ensures cache[p] == BuiltCache(all)[p] {
      var k :| 0 <= k < |all| && all[k] == Lookup(all, p);
    }
  }

  /** One shard per directory, holding the entries of its walked files. */
  method WriteShards(w: Walk, entries: map<Path, Entry>) returns (shards: Shards)
    requires ProperWalk(w) && entries.Keys <= WalkedPaths(w)
    ensures forall d :: shards[d] == ShardOf(entries, d)
  {
    shards := NoShards();
    for i := 0 to |TOP_DIRS|
      invariant forall k :: 0 <= k < i ==> shards[TOP_DIRS[k]] == ShardOf(entries, TOP_DIRS[k])
    {
      var shard := WriteShardOf(w, TOP_DIRS[i], entries);
      shards := shards[TOP_DIRS[i] := shard];
    }
    forall d: TopDir ensures shards[d] == ShardOf(entries, d) { EveryDirListed(d); }
  }

  method WriteShardOf(w: Walk, d: TopDir, entries: map<Path, Entry>) returns (shard: ShardMap)
    requires ProperWalk(w) && entries.Keys <= WalkedPaths(w)
    ensures shard == ShardOf(entries, d)
  {
    ShardPaths(w, d, entries);
    shard := WriteShard(w[d], entries);
  }

  method WriteShard(files: seq<File>, entries: map<Path, Entry>) returns (shard: ShardMap)
    ensures shard.Keys == entries.Keys * PathsOf(files)
    ensures forall p :: p in shard ==> shard[p] == entries[p]
  {
    shard := map[];
    for i := 0 to |files|
      invariant shard.Keys == entries.Keys * PathsOf(files[..i])
      invariant forall p :: p in shard ==> shard[p] == entries[p]
    {
      var p := files[i].path;
      PathsOfExtend(files[..i], files[i]);
      assert files[..i + 1] == files[..i] + [files[i]];
      if p in entries {
        shard := shard[p := entries[p]];
      }
    }
    assert files[..|files|] == files;
  }

  function PathsOf(fs: seq<File>): set<Path> { set f | f in fs :: f.path }

  lemma PathsOfExtend(fs: seq<File>, f: File)
    ensures PathsOf(fs + [f]) == PathsOf(fs) + {f.path}
  {
  }

  /** A walked path is filed under a directory just when that directory's listing has it. */
  lemma FiledWhereWalked(w: Walk, d: TopDir, p: Path)
    requires ProperWalk(w) && p in WalkedPaths(w)
    ensures ShardFor(p) == Some(d) <==> p in PathsOf(w[d])
  {
    if ShardFor(p) == Some(d) {
      var f :| f in WalkedFiles(w) && f.path == p;
      WalkedIn(w, |TOP_DIRS|, f, d);
    }
    if p in PathsOf(w[d]) {
      var f :| f in w[d] && f.path == p;
      var i :| 0 <= i < |w[d]| && w[d][i] == f;
    }
  }

  lemma ShardPaths(w: Walk, d: TopDir, entries: map<Path, Entry>)
    requires ProperWalk(w) && entries.Keys <= WalkedPaths(w)
    ensures ShardOf(entries, d).Keys == entries.Keys * PathsOf(w[d])
  {
    forall p | p in entries ensures ShardFor(p) == Some(d) <==> p in PathsOf(w[d]) { FiledWhereWalked(w, d, p); }
  }

  // ------------------------------------------------------------------ watcher

  /** One entry replaced in place. */
  function WithEntry(s: Shards, p: Path, e: Entry): Shards
    requires Present(s, p)
  {
    var d := ShardFor(p).value;
    s[d := s[d][p := e]]
  }

  lemma SameShards(a: Shards, b: Shards)
    requires forall d :: a[d] == b[d]
    ensures a == b
  {
  }

  lemma DropInStep(m: ShardMap, done: set<Path>, p: Path, x: Path)
    ensures p in m ==> DropIn(m, done + {p}, x) == DropIn(m, done, x)[p := DropFrom(DropIn(m, done, x)[p], x)]
    ensures p !in m ==> DropIn(m, done + {p}, x) == DropIn(m, done, x)
  {
  }

  lemma AddInStep(m: ShardMap, done: set<Path>, p: Path, x: Path)
    ensures p in m ==> AddIn(m, done + {p}, x) == AddIn(m, done, x)[p := AddTo(AddIn(m, done, x)[p], x)]
    ensures p !in m ==> AddIn(m, done + {p}, x) == AddIn(m, done, x)
  {
  }

  /** The loop's edit for one more target is the specification's edit for one more target. */
  lemma DropStep(s: Shards, done: set<Path>, p: Path, x: Path)
    requires forall d :: p in s[d] ==> ShardFor(p) == Some(d)
    ensures var s1 := DropEdges(s, done, x);
      DropEdges(s, done + {p}, x) == if Present(s1, p) then WithEntry(s1, p, DropFrom(At(s1, p), x)) else s1
  {
    var s1 := DropEdges(s, done, x);
    var a, b := DropEdges(s, done + {p}, x), if Present(s1, p) then WithEntry(s1, p, DropFrom(At(s1, p), x)) else s1;
    forall d ensures a[d] == b[d] {
      assert a[d] == DropIn(s[d], done + {p}, x) && s1[d] == DropIn(s[d], done, x);
      DropInStep(s[d], done, p, x);
    }
    SameShards(a, b);
  }

  lemma AddStep(s: Shards, done: set<Path>, p: Path, x: Path)
    requires forall d :: p in s[d] ==> ShardFor(p) == Some(d)
    ensures var s1 := AddEdges(s, done, x);
      AddEdges(s, done + {p}, x) == if Present(s1, p) then WithEntry(s1, p, AddTo(At(s1, p), x)) else s1
  {
    var s1 := AddEdges(s, done, x);
    var a, b := AddEdges(s, done + {p}, x), if Present(s1, p) then WithEntry(s1, p, AddTo(At(s1, p), x)) else s1;
    forall d ensures a[d] == b[d] {
      assert a[d] == AddIn(s[d], done + {p}, x) && s1[d] == AddIn(s[d], done, x);
      AddInStep(s[d], done, p, x);
    }
    SameShards(a, b);
  }

  lemma UnchangedEntry(s: Shards, p: Path)
    requires Present(s, p)
    ensures WithEntry(s, p, At(s, p)) == s
  {
    var d := ShardFor(p).value;
    assert s[d][p := s[d][p]] == s[d];
    SameShards(WithEntry(s, p, At(s, p)), s);
  }

  lemma EditsKeepSharding(s: Shards, targets: set<Path>, x: Path)
    requires WellSharded(s)
    ensures WellSharded(DropEdges(s, targets, x)) && WellSharded(AddEdges(s, targets, x))
  {
  }

  lemma OneMoreEvent(t: Tools, g: Graph, batch: seq<Event>, i: nat)
    requires WellSharded(g.shards) && i < |batch|
    ensures Run(t, g, batch[..i + 1]) == Step(t, Run(t, g, batch[..i]), batch[i])
    ensures WellSharded(Run(t, g, batch[..i]).shards)
  {
    assert batch[..i + 1] == batch[..i] + [batch[i]];
    assert WellSharded(Run(t, g, batch[..i]).shards) by { RunKeepsSharding(t, g, batch[..i]); }
    RunAppend(t, g, batch[..i], batch[i]);
  }

  lemma RunKeepsAll(t: Tools, g: Graph, evs: seq<Event>)
    ensures WellSharded(g.shards) ==> WellSharded(Run(t, g, evs).shards)
    ensures Tracked(g) ==> Tracked(Run(t, g, evs))
    ensures Inv(g) ==> Inv(Run(t, g, evs))
  {
    if WellSharded(g.shards) { RunKeepsSharding(t, g, evs); }
    if Tracked(g) { RunKeepsTracked(t, g, evs); }
    if Inv(g) { RunKeepsInv(t, g, evs); }
  }

  method LoadShards(disk: Disk) returns (shards: Shards)
    ensures shards == disk.LoadedShards()
  {
    shards := NoShards();
    for i := 0 to |TOP_DIRS|
      invariant forall d :: shards[d] == if d in TOP_DIRS[..i] then disk.LoadedShards()[d] else map[]
    {
      var d := TOP_DIRS[i];
      assert TOP_DIRS[..i + 1] == TOP_DIRS[..i] + [d];
      if disk.shardFiles[d].Some? {
        shards := shards[d := disk.shardFiles[d].value];
      }
    }
    forall d: TopDir ensures d in TOP_DIRS[..|TOP_DIRS|] { EveryDirListed(d); }
    SameShards(disk.LoadedShards(), shards);
  }

  class Watcher {
    const tools: Tools
    const disk: Disk
    var memShards: Shards
    var watcherCache: Cache

    function State(): Graph
      reads this
    {
      Graph(memShards, watcherCache)
    }

    /** A process that starts now would load from disk what is in memory here. */
    ghost predicate Flushed()
      reads this, disk
    {
      disk.LoadedShards() == memShards && disk.LoadedCache() == watcherCache
    }

    /** Start-up: the shards and the cache are loaded from disk, as far as they can be read. */
    constructor (tools: Tools, disk: Disk)
      ensures this.tools == tools && this.disk == disk
      ensures forall d :: memShards[d] == if disk.shardFiles[d].Some? then disk.shardFiles[d].value else map[]
      ensures watcherCache == if disk.cacheFile.Some? then disk.cacheFile.value else map[]
      ensures Flushed()
    {
      this.tools, this.disk := tools, disk;
      memShards, watcherCache := NoShards(), disk.LoadedCache();
      new;
      memShards := LoadShards(disk);
    }

    /** Removes `x` from the reverse edges of the targets that are not kept. */
    method DropFromTargets(targets: seq<Path>, keep: seq<Path>, x: Path) returns (touched: set<TopDir>)
      requires WellSharded(memShards)
      modifies this`memShards
      ensures memShards == DropEdges(old(memShards), Paths(targets) - Paths(keep), x)
      ensures forall d :: d !in touched ==> memShards[d] == old(memShards)[d]
    {
      touched := {};
      ghost var done: set<Path> := {};
      NothingDropped(memShards, x);
      for i := 0 to |targets|
        invariant done == Paths(targets[..i]) - Paths(keep)
        invariant memShards == DropEdges(old(memShards), done, x)
        invariant forall d :: d !in touched ==> memShards[d] == old(memShards)[d]
      {
        var imp := targets[i];
        assert targets[..i + 1] == targets[..i] + [imp];
        if imp !in keep {
          DropStep(old(memShards), done, imp, x);
          done := done + {imp};
          var impDir := ShardFor(imp);
          if impDir.Some? && imp in memShards[impDir.value] {
            memShards := WithEntry(memShards, imp, DropFrom(memShards[impDir.value][imp], x));
            touched := touched + {impDir.value};
          }
        }
      }
      assert targets[..|targets|] == targets;
    }

    /** Adds `x` to the reverse edges of the targets that are new. */
    method AddToTargets(targets: seq<Path>, known: seq<Path>, x: Path) returns (touched: set<TopDir>)
      requires WellSharded(memShards)
      modifies this`memShards
      ensures memShards == AddEdges(old(memShards), Paths(targets) - Paths(known), x)
      ensures forall d :: d !in touched ==> memShards[d] == old(memShards)[d]
    {
      touched := {};
      ghost var done: set<Path> := {};
      NothingDropped(memShards, x);
      for i := 0 to |targets|
        invariant done == Paths(targets[..i]) - Paths(known)
        invariant memShards == AddEdges(old(memShards), done, x)
        invariant forall d :: d !in touched ==> memShards[d] == old(memShards)[d]
      {
        var imp := targets[i];
        assert targets[..i + 1] == targets[..i] + [imp];
        if imp !in known {
          AddStep(old(memShards), done, imp, x);
          done := done + {imp};
          var impDir := ShardFor(imp);
          if impDir.Some? && imp in memShards[impDir.value] && x !in memShards[impDir.value][imp].importedBy {
            memShards := WithEntry(memShards, imp, AddTo(memShards[impDir.value][imp], x));
            touched := touched + {impDir.value};
          } else if Present(memShards, imp) {
            UnchangedEntry(memShards, imp);
          }
        }
      }
      assert targets[..|targets|] == targets;
    }

    method HandleUnlink(x: Path, dir: TopDir) returns (touched: set<TopDir>)
      requires WellSharded(memShards) && ShardFor(x) == Some(dir)
      modifies this`memShards, this`watcherCache
      ensures State() == Unlinked(old(State()), x)
      ensures touched != {} && forall d :: d !in touched ==> memShards[d] == old(memShards)[d]
    {
      var oldImports := if x in watcherCache then watcherCache[x].imports else [];
      touched := DropFromTargets(oldImports, [], x);
      assert Paths(oldImports) - Paths([]) == Paths(oldImports);
      RemoveEntry(x, dir);
      watcherCache := watcherCache - {x};
      touched := touched + {dir};
    }

    method RemoveEntry(x: Path, dir: TopDir)
      modifies this`memShards
      ensures memShards == old(memShards)[dir := old(memShards)[dir] - {x}]
      ensures forall d :: d != dir ==> memShards[d] == old(memShards)[d]
    {
      memShards := memShards[dir := memShards[dir] - {x}];
    }

    /** The two passes over the imports: `x` leaves the ones it dropped and enters the ones it gained. */
    method EditEdges(oldImports: seq<Path>, newImports: seq<Path>, x: Path) returns (touched: set<TopDir>)
      requires WellSharded(memShards)
      modifies this`memShards
      ensures var was, now := Paths(oldImports), Paths(newImports);
        memShards == AddEdges(DropEdges(old(memShards), was - now, x), now - was, x)
      ensures forall d :: d !in touched ==> memShards[d] == old(memShards)[d]
    {
      EditsKeepSharding(memShards, Paths(oldImports) - Paths(newImports), x);
      var dropped := DropFromTargets(oldImports, newImports, x);
      var added := AddToTargets(newImports, oldImports, x);
      touched := dropped + added;
    }

    /** The new entry of `x`, with the reverse edges its old one had. */
    method PlaceEntry(x: Path, dir: TopDir, e: Extracted)
      requires ShardFor(x) == Some(dir)
      modifies this`memShards
      ensures memShards == WithOwnEntry(old(memShards), x, e)
      ensures forall d :: d != dir ==> memShards[d] == old(memShards)[d]
    {
      var back := if x in memShards[dir] then memShards[dir][x].importedBy else [];
      memShards := memShards[dir := memShards[dir][x := Entry(e.imports, e.exports, back)]];
    }

    method HandleRewrite(x: Path, dir: TopDir, hash: string, e: Extracted) returns (touched: set<TopDir>)
      requires WellSharded(memShards) && ShardFor(x) == Some(dir)
      modifies this`memShards, this`watcherCache
      ensures State() == Updated(old(State()), x, hash, e)
      ensures touched != {} && forall d :: d !in touched ==> memShards[d] == old(memShards)[d]
    {
      var oldImports := if x in watcherCache then watcherCache[x].imports else [];
      touched := EditEdges(oldImports, e.imports, x);
      PlaceEntry(x, dir, e);
      watcherCache := watcherCache[x := Cached(hash, e.imports, e.exports)];
      touched := touched + {dir};
    }

    /** One event; `touched` collects the shards to flush. */
    method HandleEvent(ev: Event) returns (touched: set<TopDir>)
      requires WellSharded(memShards)
      modifies this`memShards, this`watcherCache
      ensures State() == Step(tools, old(State()), ev)
      ensures forall d :: d !in touched ==> memShards[d] == old(memShards)[d]
      ensures touched == {} ==> State() == old(State())
      ensures touched == {} <==> Idle(tools, old(State()), ev)
    {
      touched := {};
      var dir := ShardFor(ev.path);
      if dir.None? { return; }
      if ev.kind.Unlink? {
        touched := HandleUnlink(ev.path, dir.value);
      } else {
        if ev.hashRead.None? { return; }
        var hash := tools.hash(ev.hashRead.value);
        if ev.path in watcherCache && watcherCache[ev.path].sha256 == hash { return; }
        var extracted := Extraction(tools, ev);
        if extracted.None? { return; }
        touched := HandleRewrite(ev.path, dir.value, hash, extracted.value);
      }
    }

    method FlushShards(dirs: set<TopDir>)
      modifies disk`shardFiles
      ensures forall d :: disk.shardFiles[d] == if d in dirs then Some(memShards[d]) else old(disk.shardFiles)[d]
    {
      var left := dirs;
      while left != {}
        invariant left <= dirs
        invariant forall d :: d in dirs - left ==> disk.shardFiles[d] == Some(memShards[d])
        invariant forall d :: d !in dirs - left ==> disk.shardFiles[d] == old(disk.shardFiles)[d]
        decreases left
      {
        var d :| d in left;
        disk.shardFiles := disk.shardFiles[d := Some(memShards[d])];
        left := left - {d};
      }
    }

    /** The events of a batch, one by one. */
    method ApplyBatch(batch: seq<Event>) returns (affectedShards: set<TopDir>)
      requires WellSharded(memShards)
      modifies this`memShards, this`watcherCache
      ensures State() == Run(tools, old(State()), batch)
      ensures forall d :: d !in affectedShards ==> memShards[d] == old(memShards)[d]
      ensures affectedShards == {} ==> State() == old(State())
    {
      affectedShards := {};
      for i := 0 to |batch|
        invariant State() == Run(tools, old(State()), batch[..i])
        invariant forall d :: d !in affectedShards ==> memShards[d] == old(memShards)[d]
        invariant affectedShards == {} ==> State() == old(State())
      {
        OneMoreEvent(tools, old(State()), batch, i);
        var touched := HandleEvent(batch[i]);
        affectedShards := affectedShards + touched;
      }
      assert batch[..|batch|] == batch;
    }

    /**
     A batch of events.  The new state is the run of its events, the invariants of the
     index hold again if they held, and the disk holds the new state: every shard that
     changed was flushed, and the cache never changes alone.
     */
    method ProcessEvents(batch: seq<Event>)
      requires WellSharded(memShards) && Flushed()
      modifies this`memShards, this`watcherCache, disk
      ensures State() == Run(tools, old(State()), batch)
      ensures WellSharded(memShards) && Flushed()
      ensures old(Tracked(State())) ==> Tracked(State())
      ensures old(Inv(State())) ==> Inv(State())
    {
      RunKeepsAll(tools, State(), batch);
      var affectedShards := ApplyBatch(batch);
      if affectedShards != {} {
        Flush(affectedShards);
      }
    }

    /** The shards that changed, and the cache. */
    method Flush(dirs: set<TopDir>)
      requires forall d :: d !in dirs ==> disk.LoadedShards()[d] == memShards[d]
      modifies disk
      ensures Flushed()
    {
      FlushShards(dirs);
      SameShards(disk.LoadedShards(), memShards);
      disk.cacheFile := Some(watcherCache);
    }
  }

  /**
   A cold build, then a watcher on its files unless the skip check stopped it.  From any
   prior cache the index starts sound and complete; from an honest one the start is that
   of a build without a cache.
   */
  method BuildThenWatch(t: Tools, disk: Disk, w: Walk) returns (watcher: Watcher?)
    requires ProperWalk(w)
    modifies disk
    ensures watcher == null <==> TooManySkipped(w, Skipped(t, old(disk.LoadedCache()), WalkedFiles(w)))
    ensures watcher != null ==>
      && watcher.disk == disk && watcher.tools == t && watcher.Flushed()
      && watcher.State() == Built(Recalled(t, old(disk.LoadedCache()), WalkedFiles(w)))
      && Inv(watcher.State()) && Complete(watcher.memShards)
    ensures watcher != null && InjectiveHash(t) && Honest(t, old(disk.LoadedCache())) ==>
      watcher.State() == Built(Clean(t, WalkedFiles(w))) && Honest(t, watcher.watcherCache)
  {
    ghost var c := disk.LoadedCache();
    var ok, skipped := RunColdBuild(t, disk, w);
    if !ok { return null; }
    watcher := new Watcher(t, disk);
    RecalledIsProper(t, c, w);
    BuiltIsExact(Recalled(t, c, WalkedFiles(w)));
    if InjectiveHash(t) && Honest(t, c) {
      HonestCacheInvisible(t, c, WalkedFiles(w));
      CleanIsHonest(t, w);
    }
  }

  /**
   A cold build, then a watcher started on whatever it left, as watch-only mode does.
   The index starts sound and complete also when the skip check stopped the build; but
   then its reverse edges stay sound in every run only if the old cache already knew
   every import between two results.
   */
  method BuildThenWatchOnly(t: Tools, disk: Disk, w: Walk) returns (ok: bool, watcher: Watcher)
    requires ProperWalk(w)
    modifies disk
    ensures watcher.disk == disk && watcher.tools == t && watcher.Flushed()
    ensures ok <==> !TooManySkipped(w, Skipped(t, old(disk.LoadedCache()), WalkedFiles(w)))
    ensures WellSharded(watcher.memShards) && Sound(watcher.memShards) && Complete(watcher.memShards)
    ensures AlwaysSound(watcher.State()) <==>
            ok || KnowsImports(old(disk.LoadedCache()), Recalled(t, old(disk.LoadedCache()), WalkedFiles(w)))
  {
    ghost var c := disk.LoadedCache();
    ghost var all := Recalled(t, c, WalkedFiles(w));
    var skipped: seq<Path>;
    ok, skipped := RunColdBuild(t, disk, w);
    watcher := new Watcher(t, disk);
    RecalledIsProper(t, c, w);
    ShardsUnderCache(all, if ok then BuiltCache(all) else c);
    KnowsOwnImports(all);
  }
}
