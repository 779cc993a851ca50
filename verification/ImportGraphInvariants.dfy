/**
 What every watcher event keeps of the import graph, and exactly when the reverse
 edges stay complete.
 */
module ImportGraphInvariants {
  import opened Wrappers
  import opened ImportGraph

  // ------------------------------------------------------------------ invariants

  /** Shards and cache list the same paths, with the same imports and exports. */
  ghost predicate InSync(g: Graph) {
    && (forall p :: Present(g.shards, p) <==> p in g.cache)
    && (forall p :: Present(g.shards, p) ==>
          && At(g.shards, p).imports == g.cache[p].imports
          && At(g.shards, p).exports == g.cache[p].exports)
  }

  /** `q` is really there and really imports `p`. */
  ghost predicate Imports(s: Shards, q: Path, p: Path) {
    Present(s, q) && p in At(s, q).imports
  }

  /** The reverse edge from `p` back to `q` is recorded. */
  ghost predicate Recorded(s: Shards, q: Path, p: Path) {
    Present(s, p) && q in At(s, p).importedBy
  }

  /** No reverse edge is wrong. */
  ghost predicate Sound(s: Shards) {
    forall p, q :: Recorded(s, q, p) ==> Imports(s, q, p)
  }

  /** An import between two present files whose reverse edge is not recorded. */
  ghost predicate Missing(s: Shards, q: Path, p: Path) {
    Imports(s, q, p) && Present(s, p) && !Recorded(s, q, p)
  }

  /** No reverse edge is missing. */
  ghost predicate Complete(s: Shards) {
    forall p, q :: !Missing(s, q, p)
  }

  ghost predicate Inv(g: Graph) {
    WellSharded(g.shards) && InSync(g) && Sound(g.shards)
  }

  /** Every cached record was extracted from content with the cached hash. */
  ghost predicate Honest(t: Tools, c: Cache) {
    forall p :: p in c ==> HonestRecord(t, p, c[p])
  }

  ghost predicate HonestRecord(t: Tools, p: Path, r: Cached) {
    exists content :: t.hash(content) == r.sha256 && t.extract(p, content) == Some(Extracted(r.imports, r.exports))
  }

  // ------------------------------------------------------------------ pointwise view of an event

  lemma DroppedAt(s: Shards, targets: set<Path>, x: Path, p: Path)
    ensures Present(DropEdges(s, targets, x), p) <==> Present(s, p)
    ensures Present(s, p) ==>
      && At(DropEdges(s, targets, x), p).imports == At(s, p).imports
      && At(DropEdges(s, targets, x), p).exports == At(s, p).exports
    ensures forall q :: Recorded(DropEdges(s, targets, x), q, p) <==> (Recorded(s, q, p) && !(q == x && p in targets))
  {
  }

  lemma AddedAt(s: Shards, targets: set<Path>, x: Path, p: Path)
    ensures Present(AddEdges(s, targets, x), p) <==> Present(s, p)
    ensures Present(s, p) ==>
      && At(AddEdges(s, targets, x), p).imports == At(s, p).imports
      && At(AddEdges(s, targets, x), p).exports == At(s, p).exports
    ensures forall q :: Recorded(AddEdges(s, targets, x), q, p) <==>
      (Recorded(s, q, p) || (Present(s, p) && q == x && p in targets))
  {
  }

  lemma OwnEntryAt(s: Shards, x: Path, e: Extracted, p: Path)
    requires ShardFor(x).Some?
    ensures var s' := WithOwnEntry(s, x, e);
      && (Present(s', p) <==> Present(s, p) || p == x)
      && (Present(s', p) ==>
            && At(s', p).imports == (if p == x then e.imports else At(s, p).imports)
            && At(s', p).exports == (if p == x then e.exports else At(s, p).exports))
      && forall q :: Recorded(s', q, p) <==> Recorded(s, q, p)
  {
  }

  lemma UnlinkedAt(g: Graph, x: Path, p: Path)
    requires ShardFor(x).Some?
    ensures var s := Unlinked(g, x).shards;
      && (Present(s, p) <==> Present(g.shards, p) && p != x)
      && (Present(s, p) ==>
            && At(s, p).imports == At(g.shards, p).imports
            && At(s, p).exports == At(g.shards, p).exports
            && forall q :: Recorded(s, q, p) <==>
                 (Recorded(g.shards, q, p) && !(q == x && p in OldImports(g, x))))
  {
  }

  /** Whether `p` lists `q` once `x` imports `now` where it used to import `was`. */
  ghost predicate RecordedAfter(s: Shards, x: Path, was: seq<Path>, now: seq<Path>, q: Path, p: Path) {
    && Present(s, p)
    && if q == x && (p in now) != (p in was) then p in now else Recorded(s, q, p)
  }

  lemma UpdatedAt(g: Graph, x: Path, sha: string, e: Extracted, p: Path)
    requires ShardFor(x).Some?
    ensures var s := Updated(g, x, sha, e).shards;
      && (Present(s, p) <==> Present(g.shards, p) || p == x)
      && (Present(s, p) ==>
            && At(s, p).imports == (if p == x then e.imports else At(g.shards, p).imports)
            && At(s, p).exports == (if p == x then e.exports else At(g.shards, p).exports))
      && forall q :: Recorded(s, q, p) <==> RecordedAfter(g.shards, x, OldImports(g, x), e.imports, q, p)
  {
    var was, now := Paths(OldImports(g, x)), Paths(e.imports);
    var s1 := DropEdges(g.shards, was - now, x);
    DroppedAt(g.shards, was - now, x, p);
    AddedAt(s1, now - was, x, p);
    OwnEntryAt(AddEdges(s1, now - was, x), x, e, p);
  }

  // ------------------------------------------------------------------ soundness, from any start

  /**
   Every recorded edge is among the imports that the cache remembers for its source, so
   that the next event of the source can find it.
   */
  ghost predicate Covered(g: Graph) {
    forall q, p :: Recorded(g.shards, q, p) ==> p in OldImports(g, q)
  }

  ghost predicate Tracked(g: Graph) { Sound(g.shards) && Covered(g) }

  lemma UnlinkKeepsTracked(g: Graph, x: Path)
    requires Tracked(g) && ShardFor(x).Some?
    ensures Tracked(Unlinked(g, x))
  {
    var g' := Unlinked(g, x);
    forall q, p | Recorded(g'.shards, q, p) ensures Imports(g'.shards, q, p) && p in OldImports(g', q) {
      UnlinkedAt(g, x, p);
      UnlinkedAt(g, x, q);
    }
  }

  lemma UpdateKeepsTracked(g: Graph, x: Path, sha: string, e: Extracted)
    requires Tracked(g) && ShardFor(x).Some?
    ensures Tracked(Updated(g, x, sha, e))
  {
    var g' := Updated(g, x, sha, e);
    forall q, p | Recorded(g'.shards, q, p) ensures Imports(g'.shards, q, p) && p in OldImports(g', q) {
      UpdatedAt(g, x, sha, e, p);
      UpdatedAt(g, x, sha, e, q);
      assert RecordedAfter(g.shards, x, OldImports(g, x), e.imports, q, p);
    }
  }

  lemma {:induction false} RunKeepsTracked(t: Tools, g: Graph, evs: seq<Event>)
    requires Tracked(g)
    ensures Tracked(Run(t, g, evs))
    decreases |evs|
  {
    if evs != [] {
      if Deletes(evs[0]) {
        UnlinkKeepsTracked(g, evs[0].path);
      } else if Rewrites(t, g, evs[0]) {
        UpdateKeepsTracked(g, evs[0].path, t.hash(evs[0].hashRead.value), Extraction(t, evs[0]).value);
      }
      RunKeepsTracked(t, Step(t, g, evs[0]), evs[1..]);
    }
  }

  /** An uncovered edge outlives its source: deleting the source leaves the edge recorded. */
  lemma UncoveredEdgeOutlivesSource(t: Tools, g: Graph, q: Path, p: Path)
    requires Sound(g.shards) && Recorded(g.shards, q, p) && q != p && p !in OldImports(g, q)
    ensures var s := Step(t, g, Event(q, Unlink, None, None)).shards;
      Recorded(s, q, p) && !Present(s, q)
  {
    assert Imports(g.shards, q, p);
    UnlinkedAt(g, q, p);
    UnlinkedAt(g, q, q);
  }

  /** An uncovered edge from a file to itself outlives the import: extracting the file anew leaves it recorded. */
  lemma UncoveredLoopOutlivesImport(t: Tools, g: Graph, q: Path, ev: Event)
    requires Recorded(g.shards, q, q) && q !in OldImports(g, q)
    requires ev.path == q && Rewrites(t, g, ev) && q !in Extraction(t, ev).value.imports
    ensures var s := Step(t, g, ev).shards; Recorded(s, q, q) && !Imports(s, q, q)
  {
    UpdatedAt(g, q, t.hash(ev.hashRead.value), Extraction(t, ev).value, q);
  }

  /** No run of any watcher can make a reverse edge wrong. */
  ghost predicate AlwaysSound(g: Graph) {
    forall t, evs :: Sound(Run(t, g, evs).shards)
  }

  /** A run of one event. */
  lemma RunOfOne(t: Tools, g: Graph, ev: Event)
    ensures Run(t, g, [ev]) == Step(t, g, ev) && Run(t, g, []) == g
  {
    assert [ev][1..] == [];
  }

  /** Exactly the starts from which the reverse edges stay sound, whatever happens. */
  lemma SoundnessIsCoverage(g: Graph)
    ensures AlwaysSound(g) <==> Sound(g.shards) && Covered(g)
  {
    if Sound(g.shards) && Covered(g) {
      forall t, evs ensures Sound(Run(t, g, evs).shards) { RunKeepsTracked(t, g, evs); }
    }
    if AlwaysSound(g) {
      RunOfOne(FORGETFUL, g, Event("", Unlink, None, None));
      assert Sound(Run(FORGETFUL, g, []).shards);
      forall q, p | Recorded(g.shards, q, p) ensures p in OldImports(g, q) {
        if p !in OldImports(g, q) { UncoveredMeansUnsound(g, q, p); }
      }
    }
  }

  /** Hashes nothing together, and finds no imports in any file. */
  const FORGETFUL := Tools((s: string) => s, (p: Path, s: string) => Some(Extracted([], [])))

  lemma UncoveredMeansUnsound(g: Graph, q: Path, p: Path)
    requires Sound(g.shards) && Recorded(g.shards, q, p) && p !in OldImports(g, q)
    ensures !AlwaysSound(g)
  {
    assert Imports(g.shards, q, p);
    var text := if q in g.cache then g.cache[q].sha256 + "x" else "";
    var ev := if q != p then Event(q, Unlink, None, None) else Event(q, Change, Some(text), Some(text));
    if q != p {
      UncoveredEdgeOutlivesSource(FORGETFUL, g, q, p);
    } else {
      assert FORGETFUL.hash(text) == text;
      UncoveredLoopOutlivesImport(FORGETFUL, g, q, ev);
    }
    RunOfOne(FORGETFUL, g, ev);
    assert !Sound(Run(FORGETFUL, g, [ev]).shards);
  }

  // ------------------------------------------------------------------ shards and cache in agreement

  /** With shards and cache in agreement, every sound edge is covered. */
  lemma InvIsTracked(g: Graph)
    requires Inv(g)
    ensures Tracked(g)
  {
    forall q, p | Recorded(g.shards, q, p) ensures p in OldImports(g, q) { assert Imports(g.shards, q, p); }
  }

  lemma UnlinkKeepsInSync(g: Graph, x: Path)
    requires InSync(g) && ShardFor(x).Some?
    ensures InSync(Unlinked(g, x))
  {
    forall p { UnlinkedAt(g, x, p); }
  }

  lemma UnlinkKeepsInv(g: Graph, x: Path)
    requires Inv(g) && ShardFor(x).Some?
    ensures Inv(Unlinked(g, x))
  {
    UnlinkKeepsInSync(g, x);
    InvIsTracked(g);
    UnlinkKeepsTracked(g, x);
  }

  lemma UpdateKeepsInSync(g: Graph, x: Path, sha: string, e: Extracted)
    requires Inv(g) && ShardFor(x).Some?
    ensures InSync(Updated(g, x, sha, e)) && WellSharded(Updated(g, x, sha, e).shards)
  {
    var g' := Updated(g, x, sha, e);
    forall p
      ensures Present(g'.shards, p) <==> p in g'.cache
      ensures Present(g'.shards, p) ==> At(g'.shards, p).imports == g'.cache[p].imports
                                        && At(g'.shards, p).exports == g'.cache[p].exports
    {
      UpdatedAt(g, x, sha, e, p);
    }
  }

  lemma UpdateKeepsInv(g: Graph, x: Path, sha: string, e: Extracted)
    requires Inv(g) && ShardFor(x).Some?
    ensures Inv(Updated(g, x, sha, e))
  {
    UpdateKeepsInSync(g, x, sha, e);
    InvIsTracked(g);
    UpdateKeepsTracked(g, x, sha, e);
  }

  lemma StepKeepsInv(t: Tools, g: Graph, ev: Event)
    requires Inv(g)
    ensures Inv(Step(t, g, ev))
  {
    if Deletes(ev) {
      UnlinkKeepsInv(g, ev.path);
    } else if Rewrites(t, g, ev) {
      UpdateKeepsInv(g, ev.path, t.hash(ev.hashRead.value), Extraction(t, ev).value);
    }
  }

  /** Soundness of the reverse edges over every run: adds, changes, deletions, failed reads and parses. */
  lemma {:induction false} RunKeepsInv(t: Tools, g: Graph, evs: seq<Event>)
    requires Inv(g)
    ensures Inv(Run(t, g, evs))
    decreases |evs|
  {
    if evs != [] {
      StepKeepsInv(t, g, evs[0]);
      RunKeepsInv(t, Step(t, g, evs[0]), evs[1..]);
    }
  }

  lemma StepKeepsSharding(t: Tools, g: Graph, ev: Event)
    requires WellSharded(g.shards)
    ensures WellSharded(Step(t, g, ev).shards)
  {
  }

  lemma {:induction false} RunKeepsSharding(t: Tools, g: Graph, evs: seq<Event>)
    requires WellSharded(g.shards)
    ensures WellSharded(Run(t, g, evs).shards)
    decreases |evs|
  {
    if evs != [] {
      StepKeepsSharding(t, g, evs[0]);
      RunKeepsSharding(t, Step(t, g, evs[0]), evs[1..]);
    }
  }

  // ------------------------------------------------------------------ completeness

  /** How a deletion changes the missing edges: those that touch the path go, no other changes. */
  lemma MissingAfterUnlink(g: Graph, x: Path, q: Path, p: Path)
    requires ShardFor(x).Some?
    ensures Missing(Unlinked(g, x).shards, q, p) <==> Missing(g.shards, q, p) && q != x && p != x
  {
    UnlinkedAt(g, x, q);
    UnlinkedAt(g, x, p);
  }

  /**
   How an extraction of `x` changes the missing edges.  An edge into a path that was
   just inserted is missing for everyone who names it, `x` itself included; an edge out
   of `x` stays missing only while `x` goes on importing its target; nothing else changes.
   */
  lemma MissingAfterUpdate(g: Graph, x: Path, sha: string, e: Extracted, q: Path, p: Path)
    requires Inv(g) && ShardFor(x).Some?
    ensures
      var s := Updated(g, x, sha, e).shards;
      Missing(s, q, p) <==>
        if p == x && !Present(g.shards, x) then Imports(s, q, x)
        else if q == x then p in e.imports && Missing(g.shards, x, p)
        else Missing(g.shards, q, p)
  {
    UpdatedAt(g, x, sha, e, q);
    UpdatedAt(g, x, sha, e, p);
  }

  /** The event inserts a path that a present entry, or the new entry itself, already names. */
  ghost predicate InsertsNamedPath(t: Tools, g: Graph, ev: Event) {
    && Rewrites(t, g, ev)
    && !Present(g.shards, ev.path)
    && (ev.path in Extraction(t, ev).value.imports || exists q :: Imports(g.shards, q, ev.path))
  }

  /** Completeness survives an event exactly when the event does not insert a path already named. */
  lemma StepKeepsComplete(t: Tools, g: Graph, ev: Event)
    requires Inv(g) && Complete(g.shards)
    ensures Complete(Step(t, g, ev).shards) <==> !InsertsNamedPath(t, g, ev)
  {
    if Deletes(ev) {
      forall q, p { MissingAfterUnlink(g, ev.path, q, p); }
    } else if Rewrites(t, g, ev) {
      UpdateKeepsComplete(g, ev.path, t.hash(ev.hashRead.value), Extraction(t, ev).value);
    }
  }

  lemma UpdateKeepsComplete(g: Graph, x: Path, sha: string, e: Extracted)
    requires Inv(g) && Complete(g.shards) && ShardFor(x).Some?
    ensures Complete(Updated(g, x, sha, e).shards) <==>
            Present(g.shards, x) || (x !in e.imports && forall q :: !Imports(g.shards, q, x))
  {
    var s := Updated(g, x, sha, e).shards;
    forall q ensures Imports(s, q, x) <==> if q == x then x in e.imports else Imports(g.shards, q, x) {
      UpdatedAt(g, x, sha, e, q);
    }
    forall q, p
      ensures Missing(s, q, p) <==> p == x && !Present(g.shards, x) && Imports(s, q, x)
    {
      MissingAfterUpdate(g, x, sha, e, q, p);
    }
    if !Present(g.shards, x) {
      if x in e.imports {
        assert Missing(s, x, x);
      } else if q :| Imports(g.shards, q, x) {
        assert Missing(s, q, x);
      }
    }
  }

  ghost predicate NeverInsertsNamedPath(t: Tools, g: Graph, evs: seq<Event>)
    decreases |evs|
  {
    evs == [] || (!InsertsNamedPath(t, g, evs[0]) && NeverInsertsNamedPath(t, Step(t, g, evs[0]), evs[1..]))
  }

  lemma {:induction false} RunKeepsComplete(t: Tools, g: Graph, evs: seq<Event>)
    requires Inv(g) && Complete(g.shards) && NeverInsertsNamedPath(t, g, evs)
    ensures Complete(Run(t, g, evs).shards)
    decreases |evs|
  {
    if evs != [] {
      StepKeepsInv(t, g, evs[0]);
      StepKeepsComplete(t, g, evs[0]);
      RunKeepsComplete(t, Step(t, g, evs[0]), evs[1..]);
    }
  }

  /** Both are present and `q` imports `p`: a build from scratch would record the edge. */
  ghost predicate Linked(s: Shards, q: Path, p: Path) {
    Present(s, p) && Imports(s, q, p)
  }

  /**
   One event, of any kind: an edge is missing afterwards exactly when it is there to be
   recorded and its target was just inserted, or the edge was missing before.
   */
  lemma MissingAfterStep(t: Tools, g: Graph, ev: Event, q: Path, p: Path)
    requires Inv(g)
    ensures var s := Step(t, g, ev).shards;
      Missing(s, q, p) <==> Linked(s, q, p) && (!Present(g.shards, p) || Missing(g.shards, q, p))
  {
    if Deletes(ev) {
      UnlinkedAt(g, ev.path, q);
      UnlinkedAt(g, ev.path, p);
    } else if Rewrites(t, g, ev) {
      UpdatedAt(g, ev.path, t.hash(ev.hashRead.value), Extraction(t, ev).value, q);
      UpdatedAt(g, ev.path, t.hash(ev.hashRead.value), Extraction(t, ev).value, p);
    }
  }

  /** The index before the run and after each of its events. */
  ghost function History(t: Tools, g: Graph, evs: seq<Event>): seq<Graph> {
    if evs == [] then [g] else History(t, g, evs[..|evs| - 1]) + [Run(t, g, evs)]
  }

  /** `p` is absent at moment `i`, and linked from `q` at every later one. */
  ghost predicate LinkedAfter(h: seq<Graph>, q: Path, p: Path, i: int) {
    && 0 <= i < |h| - 1
    && !Present(h[i].shards, p)
    && forall j :: i < j < |h| ==> Linked(h[j].shards, q, p)
  }

  /** `q` has named `p` ever since `p` was last inserted.  Nothing here looks at `importedBy`. */
  ghost predicate NamedSinceInsertion(h: seq<Graph>, q: Path, p: Path) {
    exists i :: LinkedAfter(h, q, p, i)
  }

  lemma NamedBefore(h: seq<Graph>, g: Graph, q: Path, p: Path, i: int)
    requires h != [] && LinkedAfter(h + [g], q, p, i)
    ensures Linked(g.shards, q, p) && (!Present(h[|h| - 1].shards, p) || NamedSinceInsertion(h, q, p))
  {
    var h', n := h + [g], |h|;
    assert h'[n] == g && forall j :: 0 <= j < n ==> h'[j] == h[j];
    if i < n - 1 { assert LinkedAfter(h, q, p, i); }
  }

  lemma NamedOneMore(h: seq<Graph>, g: Graph, q: Path, p: Path)
    requires h != []
    ensures NamedSinceInsertion(h + [g], q, p) <==>
            Linked(g.shards, q, p) && (!Present(h[|h| - 1].shards, p) || NamedSinceInsertion(h, q, p))
  {
    if i :| LinkedAfter(h + [g], q, p, i) { NamedBefore(h, g, q, p, i); }
    if Linked(g.shards, q, p) {
      if !Present(h[|h| - 1].shards, p) {
        assert LinkedAfter(h + [g], q, p, |h| - 1);
      } else if i :| LinkedAfter(h, q, p, i) {
        assert LinkedAfter(h + [g], q, p, i);
      }
    }
  }

  lemma HistoryEnds(t: Tools, g: Graph, evs: seq<Event>)
    ensures var h := History(t, g, evs); h != [] && h[0] == g && h[|h| - 1] == Run(t, g, evs)
  {
    if evs != [] { HistoryEnds(t, g, evs[..|evs| - 1]); }
  }

  /**
   Exactly which reverse edges are missing after a run from a complete start: those whose
   target was inserted during the run and has been named by the importer ever since.
   */
  lemma {:induction false} MissingAfterRun(t: Tools, g: Graph, evs: seq<Event>, q: Path, p: Path)
    requires Inv(g) && Complete(g.shards)
    ensures Missing(Run(t, g, evs).shards, q, p) <==> NamedSinceInsertion(History(t, g, evs), q, p)
    decreases |evs|
  {
    if evs != [] {
      var front, ev := evs[..|evs| - 1], evs[|evs| - 1];
      assert evs == front + [ev];
      RunAppend(t, g, front, ev);
      RunKeepsInv(t, g, front);
      MissingAfterStep(t, Run(t, g, front), ev, q, p);
      MissingAfterRun(t, g, front, q, p);
      HistoryEnds(t, g, front);
      NamedOneMore(History(t, g, front), Run(t, g, evs), q, p);
    }
  }

  ghost predicate SomeNamedSinceInsertion(h: seq<Graph>) {
    exists q, p :: NamedSinceInsertion(h, q, p)
  }

  lemma CompleteAfterRun(t: Tools, g: Graph, evs: seq<Event>)
    requires Inv(g) && Complete(g.shards)
    ensures Complete(Run(t, g, evs).shards) <==> !SomeNamedSinceInsertion(History(t, g, evs))
  {
    var s, h := Run(t, g, evs).shards, History(t, g, evs);
    if !Complete(s) {
      var p, q :| Missing(s, q, p);
      MissingAfterRun(t, g, evs, q, p);
    }
    if SomeNamedSinceInsertion(h) {
      var q, p :| NamedSinceInsertion(h, q, p);
      MissingAfterRun(t, g, evs, q, p);
      assert Missing(s, q, p);
    }
  }

  // ------------------------------------------------------------------ completeness, from any start

  /** The event changes the entry of `q`. */
  ghost predicate Touches(t: Tools, g: Graph, ev: Event, q: Path) {
    ev.path == q && (Deletes(ev) || Rewrites(t, g, ev))
  }

  /** Some event of the run changes the entry of `q`. */
  ghost predicate TouchedBy(t: Tools, g: Graph, evs: seq<Event>, q: Path)
    decreases |evs|
  {
    evs != [] && (TouchedBy(t, g, evs[..|evs| - 1], q) ||
                  Touches(t, Run(t, g, evs[..|evs| - 1]), evs[|evs| - 1], q))
  }

  /** `q` imports `p`, as the cache has it or as the shards have it. */
  ghost predicate Claims(g: Graph, cached: bool, q: Path, p: Path) {
    if cached then p in OldImports(g, q) else Imports(g.shards, q, p)
  }

  /** Not recorded at the start, or absent at moment `i`; and present and claimed at every later moment. */
  ghost predicate ClaimedAfter(h: seq<Graph>, cached: bool, q: Path, p: Path, i: int) {
    && -1 <= i < |h| - 1
    && (if i == -1 then !Recorded(h[0].shards, q, p) else !Present(h[i].shards, p))
    && forall j :: i < j < |h| ==> Present(h[j].shards, p) && Claims(h[j], cached, q, p)
  }

  ghost predicate ClaimedEverSince(h: seq<Graph>, cached: bool, q: Path, p: Path) {
    exists i :: ClaimedAfter(h, cached, q, p, i)
  }

  /** The cache claims the edge, which is not recorded. */
  ghost predicate Overlooked(g: Graph, q: Path, p: Path) {
    Present(g.shards, p) && p in OldImports(g, q) && !Recorded(g.shards, q, p)
  }

  lemma ClaimedBefore(h: seq<Graph>, g: Graph, cached: bool, q: Path, p: Path, i: int)
    requires h != [] && ClaimedAfter(h + [g], cached, q, p, i)
    ensures Present(g.shards, p) && Claims(g, cached, q, p)
    ensures !Present(h[|h| - 1].shards, p) || ClaimedEverSince(h, cached, q, p)
  {
    var h', n := h + [g], |h|;
    assert h'[n] == g && forall j :: 0 <= j < n ==> h'[j] == h[j];
    if i < n - 1 { assert ClaimedAfter(h, cached, q, p, i); }
  }

  lemma ClaimedOneMore(h: seq<Graph>, g: Graph, cached: bool, q: Path, p: Path)
    requires h != []
    ensures ClaimedEverSince(h + [g], cached, q, p) <==>
            && Present(g.shards, p) && Claims(g, cached, q, p)
            && (!Present(h[|h| - 1].shards, p) || ClaimedEverSince(h, cached, q, p))
  {
    if i :| ClaimedAfter(h + [g], cached, q, p, i) { ClaimedBefore(h, g, cached, q, p, i); }
    if Present(g.shards, p) && Claims(g, cached, q, p) {
      if !Present(h[|h| - 1].shards, p) {
        assert ClaimedAfter(h + [g], cached, q, p, |h| - 1);
      } else if i :| ClaimedAfter(h, cached, q, p, i) {
        assert ClaimedAfter(h + [g], cached, q, p, i);
      }
    }
  }

  lemma ClaimedAtStart(g: Graph, cached: bool, q: Path, p: Path)
    ensures ClaimedEverSince([g], cached, q, p) <==>
            Present(g.shards, p) && Claims(g, cached, q, p) && !Recorded(g.shards, q, p)
  {
    if Present(g.shards, p) && Claims(g, cached, q, p) && !Recorded(g.shards, q, p) {
      assert ClaimedAfter([g], cached, q, p, -1);
    }
    if i :| ClaimedAfter([g], cached, q, p, i) { assert i == -1 && [g][0] == g; }
  }

  lemma OverlookedAfterStep(t: Tools, g: Graph, ev: Event, q: Path, p: Path)
    ensures var g' := Step(t, g, ev);
      Overlooked(g', q, p) <==>
        Present(g'.shards, p) && p in OldImports(g', q) && (!Present(g.shards, p) || Overlooked(g, q, p))
  {
    if Deletes(ev) {
      UnlinkedAt(g, ev.path, p);
    } else if Rewrites(t, g, ev) {
      UpdatedAt(g, ev.path, t.hash(ev.hashRead.value), Extraction(t, ev).value, p);
    }
  }

  lemma UntouchedAfterStep(t: Tools, g: Graph, ev: Event, q: Path, p: Path)
    requires !Touches(t, g, ev, q)
    ensures var s := Step(t, g, ev).shards;
      Missing(s, q, p) <==> Present(s, p) && Imports(s, q, p) && (!Present(g.shards, p) || Missing(g.shards, q, p))
  {
    if Deletes(ev) {
      UnlinkedAt(g, ev.path, p);
      UnlinkedAt(g, ev.path, q);
    } else if Rewrites(t, g, ev) {
      UpdatedAt(g, ev.path, t.hash(ev.hashRead.value), Extraction(t, ev).value, p);
      UpdatedAt(g, ev.path, t.hash(ev.hashRead.value), Extraction(t, ev).value, q);
    }
  }

  lemma {:induction false} OverlookedAfterRun(t: Tools, g: Graph, evs: seq<Event>, q: Path, p: Path)
    ensures Overlooked(Run(t, g, evs), q, p) <==> ClaimedEverSince(History(t, g, evs), true, q, p)
    decreases |evs|
  {
    if evs == [] {
      ClaimedAtStart(g, true, q, p);
    } else {
      var front, ev := evs[..|evs| - 1], evs[|evs| - 1];
      assert evs == front + [ev];
      RunAppend(t, g, front, ev);
      OverlookedAfterRun(t, g, front, q, p);
      OverlookedAfterStep(t, Run(t, g, front), ev, q, p);
      HistoryEnds(t, g, front);
      ClaimedOneMore(History(t, g, front), Run(t, g, evs), true, q, p);
    }
  }

  lemma {:induction false} UntouchedAfterRun(t: Tools, g: Graph, evs: seq<Event>, q: Path, p: Path)
    requires !TouchedBy(t, g, evs, q)
    ensures Missing(Run(t, g, evs).shards, q, p) <==> ClaimedEverSince(History(t, g, evs), false, q, p)
    decreases |evs|
  {
    if evs == [] {
      ClaimedAtStart(g, false, q, p);
    } else {
      var front, ev := evs[..|evs| - 1], evs[|evs| - 1];
      assert evs == front + [ev];
      RunAppend(t, g, front, ev);
      UntouchedAfterRun(t, g, front, q, p);
      UntouchedAfterStep(t, Run(t, g, front), ev, q, p);
      HistoryEnds(t, g, front);
      ClaimedOneMore(History(t, g, front), Run(t, g, evs), false, q, p);
    }
  }

  /** Once an event has changed the entry of `q`, shards and cache agree on its imports. */
  lemma {:induction false} TouchedAgrees(t: Tools, g: Graph, evs: seq<Event>, q: Path, p: Path)
    requires TouchedBy(t, g, evs, q)
    ensures p in OldImports(Run(t, g, evs), q) <==> Imports(Run(t, g, evs).shards, q, p)
    decreases |evs|
  {
    var front, ev := evs[..|evs| - 1], evs[|evs| - 1];
    assert evs == front + [ev];
    RunAppend(t, g, front, ev);
    if !Touches(t, Run(t, g, front), ev, q) { TouchedAgrees(t, g, front, q, p); }
    StepAgrees(t, Run(t, g, front), ev, q, p);
  }

  /** An event that touches `q` makes shards and cache agree on it, and no event undoes that. */
  lemma StepAgrees(t: Tools, g: Graph, ev: Event, q: Path, p: Path)
    requires Touches(t, g, ev, q) || (p in OldImports(g, q) <==> Imports(g.shards, q, p))
    ensures p in OldImports(Step(t, g, ev), q) <==> Imports(Step(t, g, ev).shards, q, p)
  {
    if Deletes(ev) {
      UnlinkedAt(g, ev.path, q);
    } else if Rewrites(t, g, ev) {
      UpdatedAt(g, ev.path, t.hash(ev.hashRead.value), Extraction(t, ev).value, q);
    }
  }

  /**
   Exactly which reverse edges are missing after a run, whatever the start: those that
   were not recorded at the start, or whose target was inserted during the run, and that
   have been claimed ever since; by the cache if the run changed the entry of the
   importer, else by the shards.
   */
  lemma MissingFromAnyStart(t: Tools, g: Graph, evs: seq<Event>, q: Path, p: Path)
    ensures Missing(Run(t, g, evs).shards, q, p) <==>
            ClaimedEverSince(History(t, g, evs), TouchedBy(t, g, evs, q), q, p)
  {
    if TouchedBy(t, g, evs, q) {
      OverlookedAfterRun(t, g, evs, q, p);
      TouchedAgrees(t, g, evs, q, p);
    } else {
      UntouchedAfterRun(t, g, evs, q, p);
    }
  }

  /**
   A save that reaches the watcher as a deletion and, some events of other paths later, an
   insertion loses every reverse edge into the file: each file that imports it by then ends
   up missing from `importedBy`.
   */
  lemma DeleteThenAddLosesEdges(t: Tools, g: Graph, del: Event, mid: seq<Event>, add: Event, q: Path)
    requires Inv(g) && Deletes(del) && add.path == del.path
    requires forall i :: 0 <= i < |mid| ==> mid[i].path != del.path
    requires var g2 := Run(t, g, [del] + mid); Rewrites(t, g2, add) && Imports(g2.shards, q, del.path)
    ensures Missing(Run(t, g, [del] + mid + [add]).shards, q, del.path)
  {
    var x, g2 := del.path, Run(t, g, [del] + mid);
    assert ([del] + mid)[1..] == mid;
    RunKeepsRecord(t, Step(t, g, del), mid, x);
    RunKeepsInv(t, g, [del] + mid);
    assert x !in g2.cache && !Present(g2.shards, x);
    RunAppend(t, g, [del] + mid, add);
    InsertionMisses(g2, x, t.hash(add.hashRead.value), Extraction(t, add).value, q);
  }

  /** Inserting a path misses the edge of every other present importer. */
  lemma InsertionMisses(g: Graph, x: Path, sha: string, e: Extracted, q: Path)
    requires Inv(g) && ShardFor(x).Some? && !Present(g.shards, x) && q != x && Imports(g.shards, q, x)
    ensures Missing(Updated(g, x, sha, e).shards, q, x)
  {
    MissingAfterUpdate(g, x, sha, e, q, x);
    UpdatedAt(g, x, sha, e, q);
  }

  // ------------------------------------------------------------------ the hash short cut

  /** What the event would do without the equal-hash short cut. */
  function Reprocessed(t: Tools, g: Graph, ev: Event): Graph
    requires ShardFor(ev.path).Some? && ev.hashRead.Some? && Extraction(t, ev).Some?
  {
    Updated(g, ev.path, t.hash(ev.hashRead.value), Extraction(t, ev).value)
  }

  lemma NothingDropped(s: Shards, x: Path)
    ensures DropEdges(s, {}, x) == s && AddEdges(s, {}, x) == s
  {
    var r, r' := DropEdges(s, {}, x), AddEdges(s, {}, x);
    forall d | d in s ensures r[d] == s[d] && r'[d] == s[d] {
      assert r[d].Keys == s[d].Keys == r'[d].Keys;
    }
  }

  /** Skipping an event on an equal hash gives the state that processing it in full would give. */
  lemma SkipIsReprocess(t: Tools, g: Graph, ev: Event)
    requires Inv(g) && Honest(t, g.cache) && InjectiveHash(t)
    requires ShardFor(ev.path).Some? && !ev.kind.Unlink? && Unchanged(t, g, ev)
    requires ev.extractRead == ev.hashRead
    ensures Extraction(t, ev).Some? && Reprocessed(t, g, ev) == Step(t, g, ev) == g
  {
    var x := ev.path;
    var r := g.cache[x];
    assert HonestRecord(t, x, r);
    var content :| t.hash(content) == r.sha256 && t.extract(x, content) == Some(Extracted(r.imports, r.exports));
    assert content == ev.hashRead.value;
    assert Present(g.shards, x);
    UpdateWithOwnRecord(g, x);
  }

  /** Writing the record a path has changes nothing. */
  lemma UpdateWithOwnRecord(g: Graph, x: Path)
    requires InSync(g) && Present(g.shards, x)
    ensures var r := g.cache[x]; Updated(g, x, r.sha256, Extracted(r.imports, r.exports)) == g
  {
    var r := g.cache[x];
    NothingDropped(g.shards, x);
    var none: set<Path> := {};
    assert Paths(r.imports) - Paths(r.imports) == none;
    var d := ShardFor(x).value;
    assert g.shards[d][x := At(g.shards, x)] == g.shards[d];
    assert g.shards[d := g.shards[d]] == g.shards;
    assert g.cache[x := r] == g.cache;
  }

  /** An event keeps the cache honest when both reads of the file saw the same content. */
  lemma StepKeepsHonest(t: Tools, g: Graph, ev: Event)
    requires Honest(t, g.cache)
    requires ev.extractRead == ev.hashRead
    ensures Honest(t, Step(t, g, ev).cache)
  {
  }

  /**
   Exactly when a rewriting event leaves an honest record: the content that was hashed
   extracts to what was stored.  A file that changes between the two reads fails this,
   and the short cut then keeps the stale imports for as long as the hashed content stays.
   */
  lemma HonestAfterRewrite(t: Tools, g: Graph, ev: Event)
    requires InjectiveHash(t) && Rewrites(t, g, ev)
    ensures HonestRecord(t, ev.path, Step(t, g, ev).cache[ev.path]) <==>
            t.extract(ev.path, ev.hashRead.value) == t.extract(ev.path, ev.extractRead.value)
  {
  }

  /**
   The race, run out: the later event that reports the hashed content is dropped, so the
   other content's record stays, and differs from the hashed content's if their extractions do.
   */
  lemma TornReadSticks(t: Tools, g: Graph, torn: Event, later: Event)
    requires Rewrites(t, g, torn)
    requires later.path == torn.path && !later.kind.Unlink? && later.hashRead == torn.hashRead
    ensures var g1 := Step(t, g, torn); var x, hashed := torn.path, t.extract(torn.path, torn.hashRead.value);
      && Step(t, g1, later) == g1
      && Present(g1.shards, x)
      && At(g1.shards, x).imports == Extraction(t, torn).value.imports
      && At(g1.shards, x).exports == Extraction(t, torn).value.exports
      && (hashed.Some? && hashed != Extraction(t, torn) ==>
            At(g1.shards, x).imports != hashed.value.imports || At(g1.shards, x).exports != hashed.value.exports)
  {
    UpdatedAt(g, torn.path, t.hash(torn.hashRead.value), Extraction(t, torn).value, torn.path);
  }

  // ------------------------------------------------------------------ what decides a path's record

  function Record(g: Graph, x: Path): Option<Cached> {
    if x in g.cache then Some(g.cache[x]) else None
  }

  /** The event says what becomes of its path: a deletion, or one readable, parsable content. */
  predicate Settles(t: Tools, ev: Event) {
    && ShardFor(ev.path).Some?
    && (ev.kind.Unlink? || (ev.hashRead.Some? && ev.extractRead == ev.hashRead && Extraction(t, ev).Some?))
  }

  function Outcome(t: Tools, ev: Event): Option<Cached>
    requires Settles(t, ev)
  {
    if ev.kind.Unlink? then None
    else Some(Cached(t.hash(ev.hashRead.value), Extraction(t, ev).value.imports, Extraction(t, ev).value.exports))
  }

  ghost predicate NoTornReads(evs: seq<Event>) {
    forall ev :: ev in evs ==> ev.extractRead == ev.hashRead
  }

  lemma StepTouchesItsPath(t: Tools, g: Graph, ev: Event, x: Path)
    ensures x != ev.path ==> Record(Step(t, g, ev), x) == Record(g, x)
  {
  }

  lemma StepSettles(t: Tools, g: Graph, ev: Event)
    requires Honest(t, g.cache) && InjectiveHash(t) && Settles(t, ev)
    ensures Record(Step(t, g, ev), ev.path) == Outcome(t, ev)
  {
  }

  lemma {:induction false} RunKeepsRecord(t: Tools, g: Graph, evs: seq<Event>, x: Path)
    requires forall i :: 0 <= i < |evs| ==> evs[i].path != x
    ensures Record(Run(t, g, evs), x) == Record(g, x)
    decreases |evs|
  {
    if evs != [] {
      StepTouchesItsPath(t, g, evs[0], x);
      RunKeepsRecord(t, Step(t, g, evs[0]), evs[1..], x);
    }
  }

  /** What a run leaves for a path is what its last settling event says, whatever came before it. */
  lemma {:induction false} LastEventWins(t: Tools, g: Graph, evs: seq<Event>, i: nat)
    requires Honest(t, g.cache) && InjectiveHash(t) && NoTornReads(evs)
    requires i < |evs| && Settles(t, evs[i])
    requires forall j :: i < j < |evs| ==> evs[j].path != evs[i].path
    ensures Record(Run(t, g, evs), evs[i].path) == Outcome(t, evs[i])
    decreases |evs|
  {
    var g1 := Step(t, g, evs[0]);
    if i == 0 {
      StepSettles(t, g, evs[0]);
      RunKeepsRecord(t, g1, evs[1..], evs[0].path);
    } else {
      assert evs[0] in evs;
      StepKeepsHonest(t, g, evs[0]);
      assert evs[1..][i - 1] == evs[i];
      LastEventWins(t, g1, evs[1..], i - 1);
    }
  }
}
