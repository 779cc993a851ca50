/**
 The import graph that `scripts/build-code-graph.ts` keeps: one shard of file
 entries per top-level directory, and a cache that remembers the hash of the
 content each entry was extracted from.

 This module holds the data model and the meaning of one watcher event.  The
 hash and the extractor are parameters (`Tools`): nothing here depends on what
 they compute.
 */
module ImportGraph {
  import opened Wrappers

  type Path = string

  datatype TopDir = Server | Client | Shared

  const TOP_DIRS := [Server, Client, Shared]

  lemma EveryDirListed(d: TopDir)
    ensures d in TOP_DIRS && exists k :: 0 <= k < |TOP_DIRS| && TOP_DIRS[k] == d
  {
  }

  function NoShards(): (s: Shards)
    ensures forall d :: s[d] == map[]
  {
    var m: map<TopDir, ShardMap> := map[Server := map[], Client := map[], Shared := map[]];
    assert forall d: TopDir :: d in m by { forall d: TopDir ensures d in m { EveryDirListed(d); } }
    m
  }

  function DirPrefix(d: TopDir): string {
    match d
    case Server => "server/"
    case Client => "client/"
    case Shared => "shared/"
  }

  function FirstDir(p: Path, i: nat): Option<TopDir>
    requires i <= |TOP_DIRS|
    decreases |TOP_DIRS| - i
  {
    if i == |TOP_DIRS| then None
    else if DirPrefix(TOP_DIRS[i]) <= p then Some(TOP_DIRS[i])
    else FirstDir(p, i + 1)
  }

  /** The shard a repository path belongs to; `None` outside the walked directories. */
  function ShardFor(p: Path): Option<TopDir> { FirstDir(p, 0) }

  datatype Entry = Entry(imports: seq<Path>, exports: seq<string>, importedBy: seq<Path>)
  datatype Cached = Cached(sha256: string, imports: seq<Path>, exports: seq<string>)
  datatype Extracted = Extracted(imports: seq<Path>, exports: seq<string>)

  type ShardMap = map<Path, Entry>
  type Cache = map<Path, Cached>

  type Shards = m: map<TopDir, ShardMap> | forall d: TopDir :: d in m
    witness map d: TopDir | true :: map[]

  datatype Graph = Graph(shards: Shards, cache: Cache)

  /** The content hash, and the extractor: `None` when the file does not parse. */
  datatype Tools = Tools(hash: string -> string, extract: (Path, string) -> Option<Extracted>)

  ghost predicate InjectiveHash(t: Tools) {
    forall a, b :: t.hash(a) == t.hash(b) ==> a == b
  }

  datatype Kind = Add | Change | Unlink

  /**
   One watcher event, with what the file system answers while it is handled.  The
   file is read twice, once for the hash and once more by the extractor, so the two
   answers are separate; `None` means the read failed.
   */
  datatype Event = Event(path: Path, kind: Kind, hashRead: Option<string>, extractRead: Option<string>)

  // ------------------------------------------------------------------ lookup

  predicate Present(s: Shards, p: Path) {
    ShardFor(p).Some? && p in s[ShardFor(p).value]
  }

  function At(s: Shards, p: Path): Entry
    requires Present(s, p)
  {
    s[ShardFor(p).value][p]
  }

  /** Every path is filed in its own shard. */
  ghost predicate WellSharded(s: Shards) {
    forall d, p :: p in s[d] ==> ShardFor(p) == Some(d)
  }

  // ------------------------------------------------------------------ edges

  /** `ps.filter(p => p !== x)`. */
  function Without(ps: seq<Path>, x: Path): (r: seq<Path>)
    ensures forall q :: q in r <==> q in ps && q != x
    ensures x !in ps ==> r == ps
  {
    if ps == [] then []
    else if ps[0] == x then Without(ps[1..], x)
    else [ps[0]] + Without(ps[1..], x)
  }

  function DropFrom(e: Entry, x: Path): Entry { e.(importedBy := Without(e.importedBy, x)) }

  function AddTo(e: Entry, x: Path): Entry {
    if x in e.importedBy then e else e.(importedBy := e.importedBy + [x])
  }

  function DropIn(m: ShardMap, targets: set<Path>, x: Path): ShardMap {
    map p | p in m :: if p in targets then DropFrom(m[p], x) else m[p]
  }

  function AddIn(m: ShardMap, targets: set<Path>, x: Path): ShardMap {
    map p | p in m :: if p in targets then AddTo(m[p], x) else m[p]
  }

  /** `x` removed from the reverse edges of every path in `targets`. */
  function DropEdges(s: Shards, targets: set<Path>, x: Path): Shards {
    map d | d in s :: DropIn(s[d], targets, x)
  }

  /** `x` present in the reverse edges of every path in `targets`, appended where it was missing. */
  function AddEdges(s: Shards, targets: set<Path>, x: Path): Shards {
    map d | d in s :: AddIn(s[d], targets, x)
  }

  function Paths(ps: seq<Path>): set<Path> { set p | p in ps }

  // ------------------------------------------------------------------ one event

  function OldImports(g: Graph, x: Path): seq<Path> {
    if x in g.cache then g.cache[x].imports else []
  }

  /** The state after `x` was deleted. */
  function Unlinked(g: Graph, x: Path): Graph
    requires ShardFor(x).Some?
  {
    var d := ShardFor(x).value;
    var s := DropEdges(g.shards, Paths(OldImports(g, x)), x);
    Graph(s[d := s[d] - {x}], g.cache - {x})
  }

  /** The entry of `x` itself, with the reverse edges it already had. */
  function WithOwnEntry(s: Shards, x: Path, e: Extracted): Shards
    requires ShardFor(x).Some?
  {
    var d := ShardFor(x).value;
    var back := if x in s[d] then s[d][x].importedBy else [];
    s[d := s[d][x := Entry(e.imports, e.exports, back)]]
  }

  /** The state after `x` was extracted again from content with the given hash. */
  function Updated(g: Graph, x: Path, sha: string, e: Extracted): Graph
    requires ShardFor(x).Some?
  {
    var was, now := Paths(OldImports(g, x)), Paths(e.imports);
    Graph(WithOwnEntry(AddEdges(DropEdges(g.shards, was - now, x), now - was, x), x, e),
          g.cache[x := Cached(sha, e.imports, e.exports)])
  }

  /** What the extractor makes of the second read. */
  function Extraction(t: Tools, ev: Event): Option<Extracted> {
    if ev.extractRead.Some? then t.extract(ev.path, ev.extractRead.value) else None
  }

  /** The hash of the first read is the cached one: the event is dropped. */
  predicate Unchanged(t: Tools, g: Graph, ev: Event) {
    && ev.hashRead.Some?
    && ev.path in g.cache
    && g.cache[ev.path].sha256 == t.hash(ev.hashRead.value)
  }

  /** The event replaces the entry of its path. */
  predicate Rewrites(t: Tools, g: Graph, ev: Event) {
    && ShardFor(ev.path).Some?
    && !ev.kind.Unlink?
    && ev.hashRead.Some?
    && !Unchanged(t, g, ev)
    && Extraction(t, ev).Some?
  }

  /** The event deletes the entry of its path. */
  predicate Deletes(ev: Event) {
    ShardFor(ev.path).Some? && ev.kind.Unlink?
  }

  /** The event is dropped. */
  predicate Idle(t: Tools, g: Graph, ev: Event) { !Deletes(ev) && !Rewrites(t, g, ev) }

  function Step(t: Tools, g: Graph, ev: Event): Graph {
    if Deletes(ev) then Unlinked(g, ev.path)
    else if Rewrites(t, g, ev) then Updated(g, ev.path, t.hash(ev.hashRead.value), Extraction(t, ev).value)
    else g
  }

  function Run(t: Tools, g: Graph, evs: seq<Event>): Graph
    decreases |evs|
  {
    if evs == [] then g else Run(t, Step(t, g, evs[0]), evs[1..])
  }

  lemma {:induction false} RunAppend(t: Tools, g: Graph, evs: seq<Event>, ev: Event)
    ensures Run(t, g, evs + [ev]) == Step(t, Run(t, g, evs), ev)
    decreases |evs|
  {
    if evs == [] {
      assert [] + [ev] == [ev];
      assert Run(t, g, [ev]) == Run(t, Step(t, g, ev), []);
    } else {
      assert (evs + [ev])[0] == evs[0] && (evs + [ev])[1..] == evs[1..] + [ev];
      RunAppend(t, Step(t, g, evs[0]), evs[1..], ev);
    }
  }
}
