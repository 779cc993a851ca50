/**
 One run of `scripts/migrate.ts` in its own form: list the directory, take the lock,
 loop over the pending files, stop at the first failure, unlock.  The run is proved to
 be one of the runs of the protocol in `MigrationProtocol`.
 */
module MigrationRunner {
  import opened Wrappers
  import opened Text
  import opened MigrationProtocol

  // ------------------------------------------------------------------ listing the directory

  datatype DirEntry = DirEntry(name: string, isFile: bool)

  predicate IsLineEnd(c: char) { c == '\n' || c == '\r' || c == '\U{2028}' || c == '\U{2029}' }

  /** Four digits, an underscore, anything on one line, `.sql`. */
  predicate IsMigrationName(name: string) {
    && |name| >= 9
    && (forall i :: 0 <= i < 4 ==> IsDigit(name[i]))
    && name[4] == '_'
    && (forall i :: 5 <= i < |name| - 4 ==> !IsLineEnd(name[i]))
    && name[|name| - 4..] == ".sql"
  }

  function Names(entries: seq<DirEntry>): seq<File> {
    if entries == [] then []
    else (if entries[0].isFile && IsMigrationName(entries[0].name) then [entries[0].name] else []) + Names(entries[1..])
  }

  /** The order of `localeCompare`, left open. */
  type Order = (string, string) -> bool

  ghost predicate TotalOrder(le: Order) {
    && (forall a, b :: le(a, b) || le(b, a))
    && (forall a, b :: le(a, b) && le(b, a) ==> a == b)
    && (forall a, b, c :: le(a, b) && le(b, c) ==> le(a, c))
  }

  function Insert(le: Order, x: string, s: seq<string>): seq<string> {
    if s == [] || le(x, s[0]) then [x] + s else [s[0]] + Insert(le, x, s[1..])
  }

  /** The stable sort. */
  function Sort(le: Order, s: seq<string>): seq<string> {
    if s == [] then [] else Insert(le, s[0], Sort(le, s[1..]))
  }

  function ListMigrationFiles(le: Order, entries: seq<DirEntry>): seq<File> { Sort(le, Names(entries)) }

  ghost predicate Sorted(le: Order, s: seq<string>) {
    forall i, j :: 0 <= i < j < |s| ==> le(s[i], s[j])
  }

  ghost predicate DistinctNames(entries: seq<DirEntry>) {
    forall i, j :: 0 <= i < j < |entries| ==> entries[i].name != entries[j].name
  }

  lemma {:induction false} InsertAdds(le: Order, x: string, s: seq<string>)
    ensures forall y :: y in Insert(le, x, s) <==> y == x || y in s
  {
    if s != [] && !le(x, s[0]) { InsertAdds(le, x, s[1..]); }
  }

  /** A list stays sorted under a first element that is least. */
  lemma PrependSorted(le: Order, x: string, s: seq<string>)
    requires Sorted(le, s) && forall y :: y in s ==> le(x, y)
    ensures Sorted(le, [x] + s)
  {
  }

  lemma PrependDistinct(x: string, s: seq<string>)
    requires Distinct(s) && x !in s
    ensures Distinct([x] + s)
  {
  }

  lemma {:induction false} InsertMeaning(le: Order, x: string, s: seq<string>)
    requires TotalOrder(le) && Sorted(le, s)
    ensures Sorted(le, Insert(le, x, s))
    ensures forall y :: y in Insert(le, x, s) <==> y == x || y in s
    ensures Distinct(s) && x !in s ==> Distinct(Insert(le, x, s))
  {
    InsertAdds(le, x, s);
    if s == [] || le(x, s[0]) {
      PrependSorted(le, x, s);
      if Distinct(s) && x !in s { PrependDistinct(x, s); }
    } else {
      var rest := s[1..];
      assert forall j :: 0 < j < |s| ==> s[j] == rest[j - 1];
      InsertMeaning(le, x, rest);
      PrependSorted(le, s[0], Insert(le, x, rest));
      if Distinct(s) && x !in s {
        assert s[0] !in rest;
        PrependDistinct(s[0], Insert(le, x, rest));
      }
    }
  }

  lemma {:induction false} SortMeaning(le: Order, s: seq<string>)
    requires TotalOrder(le)
    ensures Sorted(le, Sort(le, s))
    ensures forall y :: y in Sort(le, s) <==> y in s
    ensures Distinct(s) ==> Distinct(Sort(le, s))
  {
    if s != [] {
      assert forall j :: 0 < j < |s| ==> s[j] == s[1..][j - 1];
      SortMeaning(le, s[1..]);
      InsertMeaning(le, s[0], Sort(le, s[1..]));
    }
  }

  lemma {:induction false} NamesMeaning(entries: seq<DirEntry>)
    ensures forall n :: n in Names(entries) <==> DirEntry(n, true) in entries && IsMigrationName(n)
    ensures DistinctNames(entries) ==> Distinct(Names(entries))
  {
    if entries != [] {
      assert forall j :: 0 < j < |entries| ==> entries[j] == entries[1..][j - 1];
      NamesMeaning(entries[1..]);
      if DistinctNames(entries) {
        assert entries[0].name !in Names(entries[1..]);
      }
    }
  }

  lemma HeadIsIn(s: seq<string>)
    ensures s != [] ==> s[0] in s
  {
  }

  /** Two sorted lists without repetition and with the same elements are equal. */
  lemma {:induction false} SortedIsUnique(le: Order, a: seq<string>, b: seq<string>)
    requires TotalOrder(le) && Sorted(le, a) && Sorted(le, b) && Distinct(a) && Distinct(b)
    requires forall y :: y in a <==> y in b
    ensures a == b
  {
    HeadIsIn(b);
    if a != [] {
      assert a[0] in a && b != [];
      assert a[0] == b[0];
      forall y ensures y in a[1..] <==> y in b[1..] {
        assert y in a <==> y == a[0] || y in a[1..];
        assert y in b <==> y == b[0] || y in b[1..];
      }
      SortedIsUnique(le, a[1..], b[1..]);
    }
  }

  /** Runners that read the same directory get the same list, in whatever order the entries come. */
  lemma ListingIgnoresReadOrder(le: Order, a: seq<DirEntry>, b: seq<DirEntry>)
    requires TotalOrder(le) && DistinctNames(a) && DistinctNames(b)
    requires forall e :: e in a <==> e in b
    ensures ListMigrationFiles(le, a) == ListMigrationFiles(le, b)
    ensures Distinct(ListMigrationFiles(le, a)) && Sorted(le, ListMigrationFiles(le, a))
    ensures forall n :: n in ListMigrationFiles(le, a) <==> DirEntry(n, true) in a && IsMigrationName(n)
  {
    NamesMeaning(a);
    NamesMeaning(b);
    SortMeaning(le, Names(a));
    SortMeaning(le, Names(b));
    SortedIsUnique(le, ListMigrationFiles(le, a), ListMigrationFiles(le, b));
  }

  // ------------------------------------------------------------------ one run

  class Database {
    var lockedBy: Option<nat>
    var log: seq<File>

    constructor ()
      ensures lockedBy == None && log == []
    {
      lockedBy, log := None, [];
    }

    /** One transaction: the file's SQL, then its row; rolled back when either fails. */
    method ApplyMigration(f: File, works: File -> bool) returns (ok: bool)
      modifies this`log
      ensures ok == (works(f) && f !in old(log))
      ensures log == if ok then old(log) + [f] else old(log)
    {
      if !works(f) { return false; }
      if f in log { return false; }
      log := log + [f];
      return true;
    }
  }

  /** The files up to the first that does not work. */
  function TakeWorking(works: File -> bool, fs: seq<File>): seq<File> {
    if fs == [] || !works(fs[0]) then [] else [fs[0]] + TakeWorking(works, fs[1..])
  }

  predicate AllWork(works: File -> bool, fs: seq<File>) { forall f :: f in fs ==> works(f) }

  /**
   The run of one process that holds the lock.  `works` says which files' SQL
   succeeds; `setupOk` whether the bootstrap queries do.
   */
  method RunMigrations(db: Database, me: nat, le: Order, entries: seq<DirEntry>, works: File -> bool, setupOk: bool)
    returns (ok: bool)
    requires db.lockedBy.None?
    requires TotalOrder(le) && DistinctNames(entries)
    modifies db
    ensures db.lockedBy.None?
    ensures setupOk ==>
      db.log == old(db.log) + TakeWorking(works, Pending(ListMigrationFiles(le, entries), old(db.log)))
    ensures setupOk ==> ok == AllWork(works, Pending(ListMigrationFiles(le, entries), old(db.log)))
    ensures !setupOk ==> db.log == old(db.log) && !ok
  {
    db.lockedBy := Some(me);
    if !setupOk {
      db.lockedBy := None;
      return false;
    }
    var files := ListMigrationFiles(le, entries);
    var pending := Pending(files, db.log);
    NamesMeaning(entries);
    SortMeaning(le, Names(entries));
    PendingDistinct(files, db.log);
    ok := ApplyAll(db, pending, works);
    db.lockedBy := None;
  }

  lemma {:induction false} TakeWorkingFrom(works: File -> bool, fs: seq<File>, i: nat)
    requires i <= |fs| && forall k :: 0 <= k < i ==> works(fs[k])
    ensures TakeWorking(works, fs) == fs[..i] + TakeWorking(works, fs[i..])
  {
    if i > 0 {
      TakeWorkingFrom(works, fs[1..], i - 1);
      assert fs[1..][i - 1..] == fs[i..] && fs[..i] == [fs[0]] + fs[1..][..i - 1];
    }
  }

  lemma AllWorkAt(works: File -> bool, fs: seq<File>)
    ensures AllWork(works, fs) <==> forall k :: 0 <= k < |fs| ==> works(fs[k])
  {
    if AllWork(works, fs) {
      forall k | 0 <= k < |fs| ensures works(fs[k]) { assert fs[k] in fs; }
    }
  }

  lemma TakeWorkingStep(works: File -> bool, fs: seq<File>, i: nat)
    requires i < |fs| && AllWork(works, fs[..i])
    ensures TakeWorking(works, fs) == fs[..i] + TakeWorking(works, fs[i..])
    ensures works(fs[i]) ==> AllWork(works, fs[..i + 1])
    ensures !works(fs[i]) ==> TakeWorking(works, fs) == fs[..i] && !AllWork(works, fs)
  {
    AllWorkAt(works, fs[..i]);
    assert forall k :: 0 <= k < i ==> fs[..i][k] == fs[k];
    TakeWorkingFrom(works, fs, i);
    AllWorkAt(works, fs[..i + 1]);
    AllWorkAt(works, fs);
    if !works(fs[i]) { StopsHere(works, fs, i); }
  }

  lemma StopsHere(works: File -> bool, fs: seq<File>, i: nat)
    requires i < |fs| && !works(fs[i])
    ensures fs[..i] + TakeWorking(works, fs[i..]) == fs[..i]
  {
    assert fs[i..][0] == fs[i];
  }

  lemma {:induction false} TakeWorkingAll(works: File -> bool, fs: seq<File>)
    requires AllWork(works, fs)
    ensures TakeWorking(works, fs) == fs
  {
    if fs != [] { TakeWorkingAll(works, fs[1..]); }
  }

  /** The loop over the pending files, left at the first failure. */
  method ApplyAll(db: Database, pending: seq<File>, works: File -> bool) returns (ok: bool)
    requires Distinct(pending) && forall f :: f in pending ==> f !in db.log
    modifies db`log
    ensures db.log == old(db.log) + TakeWorking(works, pending)
    ensures ok == AllWork(works, pending)
  {
    for i := 0 to |pending|
      invariant db.log == old(db.log) + pending[..i]
      invariant AllWork(works, pending[..i])
    {
      assert pending[i] in pending && pending[i] !in pending[..i];
      TakeWorkingStep(works, pending, i);
      var applied := db.ApplyMigration(pending[i], works);
      if !applied { return false; }
      assert pending[..i + 1] == pending[..i] + [pending[i]];
    }
    assert pending[..|pending|] == pending;
    TakeWorkingAll(works, pending);
    return true;
  }

  // ------------------------------------------------------------------ the run is a run of the protocol

  function FileActions(r: nat, todo: seq<File>, works: File -> bool): seq<Action> {
    if todo == [] then [Unlock(r)]
    else if works(todo[0]) then [Begin(r), Commit(r)] + FileActions(r, todo[1..], works)
    else [Begin(r), Fail(r), Unlock(r)]
  }

  function SoloActions(r: nat, listing: seq<File>, log: seq<File>, works: File -> bool): seq<Action> {
    [Start(r), Acquire(r), Load(r, listing)] + FileActions(r, Pending(listing, log), works)
  }

  /** The actions are allowed, and lead to this table, a free lock and this end of the runner. */
  ghost predicate EndsAs(c: Cluster, acts: seq<Action>, r: nat, log: seq<File>, end: Phase) {
    && Allowed(c, acts)
    && Perform(c, acts).log == log
    && Perform(c, acts).lock.None?
    && r in Perform(c, acts).runners && Perform(c, acts).runners[r] == end
  }

  lemma PrependEnds(c: Cluster, a: Action, acts: seq<Action>, r: nat, log: seq<File>, end: Phase)
    requires Enabled(c, a) && EndsAs(Act(c, a), acts, r, log, end)
    ensures EndsAs(c, [a] + acts, r, log, end)
  {
  }

  lemma FailingFileRun(c: Cluster, r: nat, files: seq<File>, todo: seq<File>)
    requires r in c.runners && c.runners[r] == Applying(files, todo)
    ensures EndsAs(c, [Begin(r), Fail(r), Unlock(r)], r, c.log, Done(false, files))
  {
    var c1 := Act(c, Begin(r));
    var c2 := Act(c1, Fail(r));
    PrependEnds(c2, Unlock(r), [], r, c.log, Done(false, files));
    PrependEnds(c1, Fail(r), [Unlock(r)] + [], r, c.log, Done(false, files));
    PrependEnds(c, Begin(r), [Fail(r)] + ([Unlock(r)] + []), r, c.log, Done(false, files));
    assert [Begin(r), Fail(r), Unlock(r)] == [Begin(r)] + ([Fail(r)] + ([Unlock(r)] + []));
  }

  lemma WorkingFileRun(c: Cluster, r: nat, rest: seq<Action>, log: seq<File>, end: Phase)
    requires Enabled(c, Begin(r)) && Enabled(Act(c, Begin(r)), Commit(r))
    requires EndsAs(Act(Act(c, Begin(r)), Commit(r)), rest, r, log, end)
    ensures EndsAs(c, [Begin(r), Commit(r)] + rest, r, log, end)
  {
  }

  lemma {:induction false} FileActionsRun(c: Cluster, r: nat, files: seq<File>, todo: seq<File>, works: File -> bool)
    requires r in c.runners && c.runners[r] == Next(files, todo)
    requires Distinct(todo) && forall f :: f in todo ==> f !in c.log
    ensures EndsAs(c, FileActions(r, todo, works), r,
                   c.log + TakeWorking(works, todo), Done(AllWork(works, todo), files))
    decreases |todo|
  {
    if todo == [] {
      PrependEnds(c, Unlock(r), [], r, c.log, Done(true, files));
      assert [Unlock(r)] == [Unlock(r)] + [];
      assert c.log + [] == c.log;
    } else if works(todo[0]) {
      TodoAfterFirst(todo, c.log);
      FileActionsRun(Act(Act(c, Begin(r)), Commit(r)), r, files, todo[1..], works);
      WorkAfterFirst(todo, c.log, works);
      WorkingFileRun(c, r, FileActions(r, todo[1..], works),
                     c.log + TakeWorking(works, todo), Done(AllWork(works, todo), files));
    } else {
      assert todo[0] in todo;
      FailingFileRun(c, r, files, todo);
      assert c.log + [] == c.log;
    }
  }

  lemma TodoAfterFirst(todo: seq<File>, log: seq<File>)
    requires todo != [] && Distinct(todo) && forall f :: f in todo ==> f !in log
    ensures todo[0] in todo && Distinct(todo[1..]) && forall f :: f in todo[1..] ==> f !in log + [todo[0]]
  {
    assert forall k :: 0 < k < |todo| ==> todo[k] == todo[1..][k - 1];
  }

  lemma WorkAfterFirst(todo: seq<File>, log: seq<File>, works: File -> bool)
    requires todo != [] && works(todo[0])
    ensures AllWork(works, todo) == AllWork(works, todo[1..])
    ensures log + [todo[0]] + TakeWorking(works, todo[1..]) == log + TakeWorking(works, todo)
  {
    assert todo == [todo[0]] + todo[1..];
  }

  /**
   From any state with the lock free, a fresh runner that is left alone goes through the
   protocol to the result of the sequential run: the working prefix of what was pending is
   applied, the lock is free again, and it ends well exactly when every pending file works.
   */
  lemma SoloRunIsProtocolRun(c: Cluster, r: nat, listing: seq<File>, works: File -> bool)
    requires c.lock.None? && r !in c.runners && Distinct(listing)
    ensures var todo := Pending(listing, c.log);
      EndsAs(c, SoloActions(r, listing, c.log, works), r,
             c.log + TakeWorking(works, todo), Done(AllWork(works, todo), listing))
  {
    var todo := Pending(listing, c.log);
    PendingDistinct(listing, c.log);
    var c1 := Act(c, Start(r));
    var c2 := Act(c1, Acquire(r));
    var c3 := Act(c2, Load(r, listing));
    FileActionsRun(c3, r, listing, todo, works);
    var rest := FileActions(r, todo, works);
    var log, end := c.log + TakeWorking(works, todo), Done(AllWork(works, todo), listing);
    PrependEnds(c2, Load(r, listing), rest, r, log, end);
    PrependEnds(c1, Acquire(r), [Load(r, listing)] + rest, r, log, end);
    PrependEnds(c, Start(r), [Acquire(r)] + ([Load(r, listing)] + rest), r, log, end);
    assert SoloActions(r, listing, c.log, works) == [Start(r)] + ([Acquire(r)] + ([Load(r, listing)] + rest));
  }

  /** Running again once everything is applied does nothing and ends well. */
  lemma RerunIsNoOp(listing: seq<File>, log: seq<File>, works: File -> bool)
    requires forall f :: f in listing ==> f in log
    ensures log + TakeWorking(works, Pending(listing, log)) == log && AllWork(works, Pending(listing, log))
  {
    var p := Pending(listing, log);
    HeadIsIn(p);
  }

  /** After a crash of whoever holds the lock, a fresh runner goes on from what was committed. */
  lemma CrashIsRecovered(c: Cluster, r: nat, q: nat, listing: seq<File>, works: File -> bool)
    requires r in c.runners && Inside(c.runners[r]) && q !in c.runners && Distinct(listing)
    ensures var c1 := Act(c, Crash(r)); var todo := Pending(listing, c.log);
      EndsAs(c1, SoloActions(q, listing, c.log, works), q,
             c.log + TakeWorking(works, todo), Done(AllWork(works, todo), listing))
  {
    SoloRunIsProtocolRun(Act(c, Crash(r)), q, listing, works);
  }

  // ------------------------------------------------------------------ which files are migrations

  ghost predicate MadeOf(name: string, digits: string, middle: string) {
    && name == digits + "_" + middle + ".sql"
    && |digits| == 4 && (forall c :: c in digits ==> '0' <= c <= '9')
    && (forall c :: c in middle ==> c !in {'\n', '\r', '\U{2028}', '\U{2029}'})
  }

  /** Four digits, an underscore, a text on one line, and the ending. */
  lemma MigrationNameMeaning(name: string)
    ensures IsMigrationName(name) <==> exists digits, middle :: MadeOf(name, digits, middle)
  {
    if IsMigrationName(name) {
      var digits, middle := name[..4], name[5..|name| - 4];
      assert name == digits + "_" + middle + ".sql";
      assert MadeOf(name, digits, middle);
    }
    forall digits, middle | MadeOf(name, digits, middle) ensures IsMigrationName(name) {
      MadeIsMigration(name, digits, middle);
    }
  }

  lemma MadeIsMigration(name: string, digits: string, middle: string)
    requires MadeOf(name, digits, middle)
    ensures IsMigrationName(name)
  {
    assert name[..4] == digits && name[5..|name| - 4] == middle && name[|name| - 4..] == ".sql";
    assert forall i :: 0 <= i < 4 ==> name[i] in digits;
    assert forall i :: 5 <= i < |name| - 4 ==> name[i] == middle[i - 5] && name[i] in middle;
  }
}
