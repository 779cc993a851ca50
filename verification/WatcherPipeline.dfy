/**
 From the file events that reach the scheduler to the index: once the queue is empty and
 the last batch is processed, only the last event scheduled for each path counts, and a
 watcher whose last reads saw the final files has the index of a cold build over them.
 */
module WatcherPipeline {
  import opened Wrappers
  import opened ImportGraph
  import opened ImportGraphInvariants
  import opened ColdBuild
  import opened DebounceQueue

  /** The events processed for what was handed over, each with what was read of its file. */
  ghost predicate Processes(evs: seq<Event>, handed: seq<Pending>) {
    && |evs| == |handed|
    && forall i :: 0 <= i < |evs| ==> evs[i].path == handed[i].path && evs[i].kind == handed[i].kind
  }

  /** No later event has the path of the `i`-th. */
  ghost predicate IsLast(evs: seq<Event>, i: nat) {
    i < |evs| && forall j :: i < j < |evs| ==> evs[j].path != evs[i].path
  }

  /** Processing batch after batch is processing all their events. */
  lemma {:induction false} RunConcat(t: Tools, g: Graph, a: seq<Event>, b: seq<Event>)
    ensures Run(t, g, a + b) == Run(t, Run(t, g, a), b)
    decreases |a|
  {
    if a == [] {
      assert a + b == b;
    } else {
      assert (a + b)[0] == a[0] && (a + b)[1..] == a[1..] + b;
      RunConcat(t, Step(t, g, a[0]), a[1..], b);
    }
  }

  /** The last event of a path in a list. */
  lemma {:induction false} LastOf(h: seq<Pending>, p: Path) returns (i: nat)
    requires Of(h, p) != []
    ensures i < |h| && h[i].path == p && forall j :: i < j < |h| ==> h[j].path != p
    ensures Of(h, p)[|Of(h, p)| - 1] == h[i].kind
  {
    var n := |h| - 1;
    if h[n].path == p {
      i := n;
    } else {
      i := LastOf(h[..n], p);
      assert forall j :: 0 <= j < n ==> h[..n][j] == h[j];
    }
  }

  /** An event that neither deletes nor yields an extraction leaves everything as it was. */
  lemma UnsettledDoesNothing(t: Tools, g: Graph, ev: Event)
    requires ev.extractRead == ev.hashRead && !Settles(t, ev)
    ensures Step(t, g, ev) == g
  {
  }

  lemma SplitAt(t: Tools, g: Graph, evs: seq<Event>, i: nat)
    requires i < |evs|
    ensures Run(t, g, evs) == Run(t, Step(t, Run(t, g, evs[..i]), evs[i]), evs[i + 1..])
  {
    var g1 := Run(t, g, evs[..i]);
    assert evs == evs[..i] + ([evs[i]] + evs[i + 1..]);
    RunConcat(t, g, evs[..i], [evs[i]] + evs[i + 1..]);
    RunConcat(t, g1, [evs[i]], evs[i + 1..]);
    RunOfOne(t, g1, evs[i]);
  }

  /** What the last event of a path decides: its outcome, or that the path stays as it was before. */
  lemma LastDecides(t: Tools, g: Graph, evs: seq<Event>, i: nat)
    requires Honest(t, g.cache) && InjectiveHash(t) && NoTornReads(evs) && IsLast(evs, i)
    ensures Record(Run(t, g, evs), evs[i].path) ==
            if Settles(t, evs[i]) then Outcome(t, evs[i]) else Record(Run(t, g, evs[..i]), evs[i].path)
  {
    if Settles(t, evs[i]) {
      LastEventWins(t, g, evs, i);
    } else {
      var g1 := Run(t, g, evs[..i]);
      assert evs[i] in evs;
      UnsettledDoesNothing(t, g1, evs[i]);
      SplitAt(t, g, evs, i);
      RunKeepsRecord(t, g1, evs[i + 1..], evs[i].path);
    }
  }

  /** The `i`-th event is the last of its path, and decides the path's record. */
  ghost predicate Decides(t: Tools, g: Graph, evs: seq<Event>, p: Path, i: nat) {
    && IsLast(evs, i) && evs[i].path == p
    && Record(Run(t, g, evs), p) ==
       if Settles(t, evs[i]) then Outcome(t, evs[i]) else Record(Run(t, g, evs[..i]), p)
  }

  /**
   The scheduler and the watcher together.  In every interleaving, once nothing is pending
   for a path, the record of the path is decided by one event: the last one scheduled for it.
   */
  lemma LastScheduledDecides(t: Tools, g: Graph, acts: seq<Action>, evs: seq<Event>, p: Path)
    requires Honest(t, g.cache) && InjectiveHash(t) && NoTornReads(evs)
    requires Allowed(IDLE, acts) && Processes(evs, Perform(IDLE, acts).handed)
    requires Of(Perform(IDLE, acts).pending, p) == [] && Of(Perform(IDLE, acts).scheduled, p) != []
    ensures var kinds := Of(Perform(IDLE, acts).scheduled, p);
      exists i: nat :: Decides(t, g, evs, p, i) && evs[i].kind == kinds[|kinds| - 1]
  {
    var s := Perform(IDLE, acts);
    IdleIsOk();
    PerformKeepsOk(IDLE, acts);
    assert Coalesces(Seen(s, p), Of(s.scheduled, p));
    OfConcat(s.handed, s.pending, p);
    var i := LastOf(s.handed, p);
    LastDecides(t, g, evs, i);
    assert Decides(t, g, evs, p, i);
  }

  // ------------------------------------------------------------------ the final files

  /** The file of a path in the walk. */
  ghost predicate IsFile(w: Walk, p: Path, text: string) {
    File(p, Some(text)) in WalkedFiles(w)
  }

  ghost predicate NoFile(w: Walk, p: Path) {
    forall f :: f in WalkedFiles(w) ==> f.path != p
  }

  /** The event saw the file as it finally is: gone, or with its final, extractable text. */
  ghost predicate SawFinal(t: Tools, ev: Event, w: Walk) {
    if ev.kind.Unlink? then NoFile(w, ev.path)
    else ev.hashRead.Some? && IsFile(w, ev.path, ev.hashRead.value) && t.extract(ev.path, ev.hashRead.value).Some?
  }

  /** What a cold build over the walk would store of a path. */
  ghost function FinalRecord(t: Tools, w: Walk, p: Path): Option<Cached> {
    Record(Built(Clean(t, WalkedFiles(w))), p)
  }

  lemma FinalRecordOfFile(t: Tools, w: Walk, p: Path, text: string)
    requires ProperWalk(w) && IsFile(w, p, text) && t.extract(p, text).Some?
    ensures ShardFor(p).Some?
    ensures FinalRecord(t, w, p) ==
            Some(Cached(t.hash(text), t.extract(p, text).value.imports, t.extract(p, text).value.exports))
  {
    var f := File(p, Some(text));
    var fs := Clean(t, WalkedFiles(w));
    WalkedHasShard(w, |TOP_DIRS|, f);
    CleanIsProper(t, w);
    assert Extract(t, f) in fs;
    LookupIsIt(fs, Extract(t, f));
  }

  lemma FinalRecordOfNoFile(t: Tools, w: Walk, p: Path)
    requires NoFile(w, p)
    ensures FinalRecord(t, w, p) == None
  {
  }

  /** A cold build over the walk starts from distinct results in the top directories. */
  lemma CleanIsProper(t: Tools, w: Walk)
    requires ProperWalk(w)
    ensures DistinctFound(Clean(t, WalkedFiles(w))) && InTopDirs(Clean(t, WalkedFiles(w)))
  {
    AgreeingHitsAreClean(t, map[], WalkedFiles(w));
    RecalledIsProper(t, map[], w);
  }

  /** An event that saw the final file leaves what a cold build would store. */
  lemma SawFinalSettles(t: Tools, ev: Event, w: Walk)
    requires ProperWalk(w) && SawFinal(t, ev, w) && ev.extractRead == ev.hashRead && ShardFor(ev.path).Some?
    ensures Settles(t, ev) && Outcome(t, ev) == FinalRecord(t, w, ev.path)
  {
    if ev.kind.Unlink? {
      FinalRecordOfNoFile(t, w, ev.path);
    } else {
      FinalRecordOfFile(t, w, ev.path, ev.hashRead.value);
    }
  }

  lemma {:induction false} OfNothing(h: seq<Pending>, p: Path)
    requires Of(h, p) == []
    ensures forall i :: 0 <= i < |h| ==> h[i].path != p
  {
    if h != [] {
      var n := |h| - 1;
      OfNothing(h[..n], p);
      assert forall i :: 0 <= i < n ==> h[i] == h[..n][i];
    }
  }

  /** A path without scheduled events keeps its record. */
  lemma UnscheduledKeepsRecord(t: Tools, g: Graph, acts: seq<Action>, evs: seq<Event>, p: Path)
    requires Allowed(IDLE, acts) && Processes(evs, Perform(IDLE, acts).handed)
    requires Of(Perform(IDLE, acts).scheduled, p) == []
    ensures Record(Run(t, g, evs), p) == Record(g, p)
  {
    var s := Perform(IDLE, acts);
    HandedCoalescesScheduled(acts, p);
    assert Of(s.handed, p) == [];
    OfNothing(s.handed, p);
    RunKeepsRecord(t, g, evs, p);
  }

  /**
   The watcher has caught up with the files of `w`: nothing is pending, the events that
   were handed over are processed, paths without events are as they were found at the
   start, and the last event of each path saw the final file, which can be extracted.
   */
  ghost predicate CaughtUp(t: Tools, g: Graph, acts: seq<Action>, evs: seq<Event>, w: Walk) {
    && ProperWalk(w) && NoTornReads(evs)
    && Allowed(IDLE, acts) && Processes(evs, Perform(IDLE, acts).handed) && Perform(IDLE, acts).pending == []
    && (forall p :: Of(Perform(IDLE, acts).scheduled, p) == [] ==> Record(g, p) == FinalRecord(t, w, p))
    && (forall i: nat :: IsLast(evs, i) && ShardFor(evs[i].path).Some? ==> SawFinal(t, evs[i], w))
  }

  lemma CaughtUpRecord(t: Tools, g: Graph, acts: seq<Action>, evs: seq<Event>, w: Walk, p: Path)
    requires Inv(g) && Honest(t, g.cache) && InjectiveHash(t) && CaughtUp(t, g, acts, evs, w)
    ensures Record(Run(t, g, evs), p) == FinalRecord(t, w, p)
  {
    if ShardFor(p).None? {
      RunKeepsInv(t, g, evs);
      OutsideHasNoRecord(Run(t, g, evs), p);
      CleanIsProper(t, w);
      BuiltIsExact(Clean(t, WalkedFiles(w)));
      OutsideHasNoRecord(Built(Clean(t, WalkedFiles(w))), p);
    } else if Of(Perform(IDLE, acts).scheduled, p) == [] {
      UnscheduledKeepsRecord(t, g, acts, evs, p);
    } else {
      LastScheduledDecides(t, g, acts, evs, p);
      var i: nat :| Decides(t, g, evs, p, i);
      assert evs[i] in evs;
      SawFinalSettles(t, evs[i], w);
    }
  }

  lemma OutsideHasNoRecord(g: Graph, p: Path)
    requires InSync(g) && ShardFor(p).None?
    ensures Record(g, p) == None
  {
    assert !Present(g.shards, p);
  }

  /**
   The law of the whole pipeline.  A watcher that has caught up has the cache of a cold
   build over the final files, and the same paths with the same imports and exports in its
   shards; the reverse edges are the same sets exactly when no file has been named by
   another ever since it was inserted.
   */
  lemma CaughtUpIsRebuilt(t: Tools, g0: Graph, acts: seq<Action>, evs: seq<Event>, w: Walk)
    requires Inv(g0) && Complete(g0.shards) && Honest(t, g0.cache) && InjectiveHash(t)
    requires CaughtUp(t, g0, acts, evs, w)
    ensures var g, built := Run(t, g0, evs), Built(Clean(t, WalkedFiles(w)));
      && g.cache == built.cache
      && (forall p :: SameEntry(g.shards, built.shards, p))
      && ((forall p :: SameImporters(g.shards, built.shards, p)) <==> !SomeNamedSinceInsertion(History(t, g0, evs)))
  {
    var g, fs := Run(t, g0, evs), Clean(t, WalkedFiles(w));
    var built := Built(fs);
    CleanIsProper(t, w);
    BuiltIsExact(fs);
    RunKeepsInv(t, g0, evs);
    forall p ensures Record(g, p) == Record(built, p) { CaughtUpRecord(t, g0, acts, evs, w, p); }
    SameRecords(g.cache, built.cache, g, built);
    forall p ensures SameEntry(g.shards, built.shards, p) { SameInSync(g, built, p); }
    BuiltEnumerates(fs);
    RunMatchesRebuild(t, g0, evs, fs);
    forall p ensures SameImporters(g.shards, built.shards, p) <==> (Present(g.shards, p) ==> SameAsRebuilt(g, fs, p)) {
      SameInSync(g, built, p);
      BuiltAt(fs, p);
    }
  }

  /** Present in both or in neither, with the same imports and exports. */
  ghost predicate SameEntry(a: Shards, b: Shards, p: Path) {
    && (Present(a, p) <==> Present(b, p))
    && (Present(a, p) ==> At(a, p).imports == At(b, p).imports && At(a, p).exports == At(b, p).exports)
  }

  /** The same importers are recorded. */
  ghost predicate SameImporters(a: Shards, b: Shards, p: Path) {
    Present(a, p) && Present(b, p) ==> Paths(At(a, p).importedBy) == Paths(At(b, p).importedBy)
  }

  lemma SameRecords(a: Cache, b: Cache, g: Graph, h: Graph)
    requires g.cache == a && h.cache == b && forall p :: Record(g, p) == Record(h, p)
    ensures a == b
  {
    assert forall p :: p in a <==> p in b by {
      forall p ensures p in a <==> p in b { assert Record(g, p) == Record(h, p); }
    }
    forall p | p in a ensures a[p] == b[p] { assert Record(g, p) == Record(h, p); }
  }

  lemma SameInSync(g: Graph, h: Graph, p: Path)
    requires InSync(g) && InSync(h) && g.cache == h.cache
    ensures SameEntry(g.shards, h.shards, p)
  {
  }

  lemma BuiltEnumerates(fs: seq<Found>)
    requires DistinctFound(fs)
    ensures Enumerates(fs, Built(fs))
  {
    forall f | f in fs ensures f.path in BuiltCache(fs) && f.imports == BuiltCache(fs)[f.path].imports {
      LookupIsIt(fs, f);
    }
  }
}
