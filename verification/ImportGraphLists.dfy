/**
 The reverse edges as lists: what an event does to the order and the number of times an
 importer is listed.  The watcher never lists an importer twice on its own.
 */
module ImportGraphLists {
  import opened Wrappers
  import opened ImportGraph
  import opened ImportGraphInvariants

  // ------------------------------------------------------------------ paths and events

  /** The three directories, and nothing else, have shards. */
  lemma ShardForMeaning(p: Path)
    ensures ShardFor(p) == Some(Server) <==> "server/" <= p
    ensures ShardFor(p) == Some(Client) <==> "client/" <= p
    ensures ShardFor(p) == Some(Shared) <==> "shared/" <= p
  {
    assert |TOP_DIRS| == 3 && TOP_DIRS[0] == Server && TOP_DIRS[1] == Client && TOP_DIRS[2] == Shared;
    assert "server/"[0] == 's' && "server/"[1] == 'e' && "client/"[0] == 'c' && "shared/"[1] == 'h';
    assert FirstDir(p, 3) == None;
  }

  /** Unreadable, of the cached content, or not extractable. */
  predicate NothingNew(t: Tools, g: Graph, ev: Event) {
    if ev.hashRead.None? || ev.extractRead.None? then true
    else if ev.path in g.cache && g.cache[ev.path].sha256 == t.hash(ev.hashRead.value) then true
    else t.extract(ev.path, ev.extractRead.value).None?
  }

  /** The events that are dropped are those outside the directories, and saves with nothing new. */
  lemma IdleEvent(t: Tools, g: Graph, ev: Event)
    ensures Idle(t, g, ev) <==>
            if "server/" <= ev.path || "client/" <= ev.path || "shared/" <= ev.path
            then !ev.kind.Unlink? && NothingNew(t, g, ev) else true
    ensures Idle(t, g, ev) ==> Step(t, g, ev) == g
  {
    ShardForMeaning(ev.path);
  }

  // ------------------------------------------------------------------ lists

  /** Leaving `x` out keeps all others, as often and in the order they were. */
  lemma {:induction false} WithoutMeaning(ps: seq<Path>, x: Path, q: Path)
    ensures multiset(Without(ps, x))[q] == if q == x then 0 else multiset(ps)[q]
  {
    if ps != [] {
      WithoutMeaning(ps[1..], x, q);
      assert ps == [ps[0]] + ps[1..];
    }
  }

  lemma {:induction false} WithoutConcat(a: seq<Path>, b: seq<Path>, x: Path)
    ensures Without(a + b, x) == Without(a, x) + Without(b, x)
  {
    if a == [] {
      assert a + b == b;
    } else {
      assert (a + b)[0] == a[0] && (a + b)[1..] == a[1..] + b;
      WithoutConcat(a[1..], b, x);
    }
  }

  /** The reverse edges of `p`, in their order. */
  function List(s: Shards, p: Path): seq<Path> {
    if Present(s, p) then At(s, p).importedBy else []
  }

  lemma ListAfterUnlink(g: Graph, x: Path, p: Path)
    requires ShardFor(x).Some? && Present(Unlinked(g, x).shards, p)
    ensures List(Unlinked(g, x).shards, p) ==
            if p in OldImports(g, x) then Without(List(g.shards, p), x) else List(g.shards, p)
  {
  }

  lemma ListDropped(s: Shards, targets: set<Path>, x: Path, p: Path)
    ensures List(DropEdges(s, targets, x), p) == if p in targets then Without(List(s, p), x) else List(s, p)
  {
  }

  lemma ListAdded(s: Shards, targets: set<Path>, x: Path, p: Path)
    ensures var l := List(s, p);
      List(AddEdges(s, targets, x), p) == if Present(s, p) && p in targets && x !in l then l + [x] else l
  {
  }

  lemma ListOwn(s: Shards, x: Path, e: Extracted, p: Path)
    requires ShardFor(x).Some?
    ensures List(WithOwnEntry(s, x, e), p) == List(s, p)
  {
  }

  lemma ListAfterUpdate(g: Graph, x: Path, sha: string, e: Extracted, p: Path)
    requires ShardFor(x).Some?
    ensures var l := List(g.shards, p);
      List(Updated(g, x, sha, e).shards, p) ==
        if !Present(g.shards, p) || (p in OldImports(g, x)) == (p in e.imports) then l
        else if p !in e.imports then Without(l, x)
        else if x in l then l
        else l + [x]
  {
    var was, now := Paths(OldImports(g, x)), Paths(e.imports);
    var s1 := DropEdges(g.shards, was - now, x);
    ListDropped(g.shards, was - now, x, p);
    DroppedAt(g.shards, was - now, x, p);
    ListAdded(s1, now - was, x, p);
    ListOwn(AddEdges(s1, now - was, x), x, e, p);
  }

  /**
   What an event of `x` does to the list of a path that stays: if the edge from `x` is
   recorded afterwards, the list is as it was or has `x` new at its end; otherwise it is
   the old list without `x`.  The list of a path that was not there is empty.
   */
  lemma ListAfterStep(t: Tools, g: Graph, ev: Event, p: Path)
    requires Present(Step(t, g, ev).shards, p)
    ensures var l, l', x := List(g.shards, p), List(Step(t, g, ev).shards, p), ev.path;
      if x in l' then l' == if x in l then l else l + [x]
      else l' == Without(l, x) || l' == l
    ensures !Present(g.shards, p) ==> List(Step(t, g, ev).shards, p) == []
  {
    if Deletes(ev) {
      ListAfterUnlink(g, ev.path, p);
    } else if Rewrites(t, g, ev) {
      ListAfterUpdate(g, ev.path, t.hash(ev.hashRead.value), Extraction(t, ev).value, p);
    }
  }

  /** How often `q` is listed as an importer of `p`. */
  function Times(s: Shards, q: Path, p: Path): nat { multiset(List(s, p))[q] }

  /**
   Of every event: an importer that becomes recorded is listed once, one that stays
   recorded as often as before.
   */
  lemma CountAfterStep(t: Tools, g: Graph, ev: Event, q: Path, p: Path)
    ensures var s, s' := g.shards, Step(t, g, ev).shards;
      Times(s', q, p) == if !Recorded(s', q, p) then 0 else if Recorded(s, q, p) then Times(s, q, p) else 1
  {
    var s, s' := g.shards, Step(t, g, ev).shards;
    if Present(s', p) {
      ListAfterStep(t, g, ev, p);
      WithoutMeaning(List(s, p), ev.path, q);
      assert q in List(s', p) <==> Times(s', q, p) > 0;
      assert q in List(s, p) <==> Times(s, q, p) > 0;
      assert multiset(List(s, p) + [ev.path]) == multiset(List(s, p)) + multiset{ev.path};
    }
  }

  /** No importer is listed twice. */
  ghost predicate NoRepeats(s: Shards) {
    forall q, p :: Times(s, q, p) <= 1
  }

  lemma {:induction false} RunKeepsNoRepeats(t: Tools, g: Graph, evs: seq<Event>)
    requires NoRepeats(g.shards)
    ensures NoRepeats(Run(t, g, evs).shards)
    decreases |evs|
  {
    if evs != [] {
      forall q, p ensures Times(Step(t, g, evs[0]).shards, q, p) <= 1 { CountAfterStep(t, g, evs[0], q, p); }
      RunKeepsNoRepeats(t, Step(t, g, evs[0]), evs[1..]);
    }
  }

  /** From any start, no run lists an importer more often than it was at the start, or once. */
  lemma {:induction false} CountAfterRun(t: Tools, g: Graph, evs: seq<Event>, q: Path, p: Path)
    ensures var n := Times(g.shards, q, p);
      Times(Run(t, g, evs).shards, q, p) in {0, 1, n}
    decreases |evs|
  {
    if evs != [] {
      CountAfterStep(t, g, evs[0], q, p);
      CountAfterRun(t, Step(t, g, evs[0]), evs[1..], q, p);
    }
  }

  /** Without repetition, the length of the list is the number of importers. */
  lemma LengthIsCount(s: Shards, p: Path)
    requires NoRepeats(s)
    ensures |List(s, p)| == |set q | q in List(s, p)|
  {
    forall q ensures multiset(List(s, p))[q] <= 1 { assert Times(s, q, p) <= 1; }
    NoRepeatsSize(List(s, p));
  }

  lemma {:induction false} NoRepeatsSize(ps: seq<Path>)
    requires forall q :: multiset(ps)[q] <= 1
    ensures |ps| == |set q | q in ps|
  {
    if ps != [] {
      var n := |ps| - 1;
      var front, last := ps[..n], ps[n];
      assert ps == front + [last];
      assert forall q :: multiset(ps)[q] == multiset(front)[q] + if q == last then 1 else 0;
      assert multiset(front)[last] == 0 && last !in front;
      NoRepeatsSize(front);
      assert (set q | q in ps) == (set q | q in front) + {last};
    }
  }
}
