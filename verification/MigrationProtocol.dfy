/**
 The migration runner of `scripts/migrate.ts` as a protocol: any number of runners
 share one database, an advisory lock and the table of applied files.  A runner takes
 the lock, lists the directory, reads the applied set, commits one file per transaction
 and unlocks; it can fail or crash anywhere.
 */
module MigrationProtocol {
  import opened Wrappers
  import opened Text

  type File = string

  /** Where a runner is.  `files` is the directory listing it works from. */
  datatype Phase =
    | Waiting
    | Locked
    | Applying(files: seq<File>, todo: seq<File>)
    | InTransaction(files: seq<File>, todo: seq<File>)
    | Unlocking(ok: bool, files: seq<File>)
    | Done(ok: bool, files: seq<File>)
    | Crashed

  /** `log` is the table of applied files, in commit order. */
  datatype Cluster = Cluster(log: seq<File>, lock: Option<nat>, runners: map<nat, Phase>)

  datatype Action =
    | Start(r: nat)
    | Acquire(r: nat)
    | SetupFails(r: nat)
    | Load(r: nat, listing: seq<File>)
    | Begin(r: nat)
    | Commit(r: nat)
    | CommitUnacknowledged(r: nat)
    | Fail(r: nat)
    | Unlock(r: nat)
    | Crash(r: nat)

  /** The files not applied yet, in listing order. */
  function Pending(files: seq<File>, log: seq<File>): (r: seq<File>)
    ensures forall f :: f in r <==> f in files && f !in log
  {
    if files == [] then []
    else (if files[0] in log then [] else [files[0]]) + Pending(files[1..], log)
  }

  predicate Inside(p: Phase) { p.Locked? || p.Applying? || p.InTransaction? || p.Unlocking? }

  predicate IsInside(c: Cluster, r: nat) { r in c.runners && Inside(c.runners[r]) }

  predicate IsCommitting(c: Cluster, r: nat) { r in c.runners && c.runners[r].InTransaction? }

  predicate EndedWell(c: Cluster, r: nat) { r in c.runners && c.runners[r].Done? && c.runners[r].ok }

  /** A transaction can only commit while its file is not in the table, whose key is the file name. */
  predicate Enabled(c: Cluster, a: Action) {
    match a
    case Start(r) => r !in c.runners
    case Acquire(r) => r in c.runners && c.runners[r].Waiting? && c.lock.None?
    case SetupFails(r) => r in c.runners && c.runners[r].Locked?
    case Load(r, _) => r in c.runners && c.runners[r].Locked?
    case Begin(r) => r in c.runners && c.runners[r].Applying?
    case Commit(r) => r in c.runners && c.runners[r].InTransaction? && NextIsNew(c, r)
    case CommitUnacknowledged(r) => r in c.runners && c.runners[r].InTransaction? && NextIsNew(c, r)
    case Fail(r) => r in c.runners && (c.runners[r].InTransaction? || c.runners[r].Applying?)
    case Unlock(r) => r in c.runners && c.runners[r].Unlocking?
    case Crash(r) => r in c.runners && (c.runners[r].Waiting? || Inside(c.runners[r]))
  }

  predicate NextIsNew(c: Cluster, r: nat)
    requires r in c.runners && c.runners[r].InTransaction?
  {
    c.runners[r].todo != [] && c.runners[r].todo[0] !in c.log
  }

  function Go(c: Cluster, r: nat, p: Phase): Cluster { c.(runners := c.runners[r := p]) }

  /** After a file: the next one, or unlock. */
  function Next(files: seq<File>, todo: seq<File>): Phase {
    if todo == [] then Unlocking(true, files) else Applying(files, todo)
  }

  function Act(c: Cluster, a: Action): Cluster
    requires Enabled(c, a)
  {
    match a
    case Start(r) => Go(c, r, Waiting)
    case Acquire(r) => Go(c, r, Locked).(lock := Some(r))
    case SetupFails(r) => Go(c, r, Unlocking(false, []))
    case Load(r, listing) => Go(c, r, Next(listing, Pending(listing, c.log)))
    case Begin(r) => Go(c, r, InTransaction(c.runners[r].files, c.runners[r].todo))
    case Commit(r) =>
      var p := c.runners[r];
      Go(c, r, Next(p.files, p.todo[1..])).(log := c.log + [p.todo[0]])
    case CommitUnacknowledged(r) =>
      var p := c.runners[r];
      Go(c, r, Unlocking(false, p.files)).(log := c.log + [p.todo[0]])
    case Fail(r) => Go(c, r, Unlocking(false, c.runners[r].files))
    case Unlock(r) => Go(c, r, Done(c.runners[r].ok, c.runners[r].files)).(lock := None)
    case Crash(r) =>
      var c1 := Go(c, r, Crashed);
      if Inside(c.runners[r]) then c1.(lock := None) else c1
  }

  ghost predicate Allowed(c: Cluster, acts: seq<Action>)
    decreases |acts|
  {
    acts == [] || (Enabled(c, acts[0]) && Allowed(Act(c, acts[0]), acts[1..]))
  }

  ghost function Perform(c: Cluster, acts: seq<Action>): Cluster
    requires Allowed(c, acts)
    decreases |acts|
  {
    if acts == [] then c else Perform(Act(c, acts[0]), acts[1..])
  }

  // ------------------------------------------------------------------ invariants, for any listings

  /** Only the lock holder is inside. */
  ghost predicate LockOk(c: Cluster) {
    && (forall r :: r in c.runners && Inside(c.runners[r]) ==> c.lock == Some(r))
    && (c.lock.Some? ==> c.lock.value in c.runners && Inside(c.runners[c.lock.value]))
  }

  /** What one runner knows of the table. */
  ghost predicate PhaseOk(log: seq<File>, p: Phase) {
    match p
    case Applying(files, todo) => todo != [] && Distinct(todo) && Splits(log, files, todo)
    case InTransaction(files, todo) => todo != [] && Distinct(todo) && Splits(log, files, todo)
    case Unlocking(ok, files) => ok ==> forall f :: f in files ==> f in log
    case Done(ok, files) => ok ==> forall f :: f in files ==> f in log
    case _ => true
  }

  /** What is left of a listing is exactly what the table lacks. */
  ghost predicate Splits(log: seq<File>, files: seq<File>, todo: seq<File>) {
    forall f :: f in todo <==> f in files && f !in log
  }

  ghost predicate Safe(c: Cluster) {
    && LockOk(c)
    && Distinct(c.log)
    && forall r :: r in c.runners ==> PhaseOk(c.log, c.runners[r])
  }

  ghost predicate ListingsDistinct(acts: seq<Action>) {
    forall i :: 0 <= i < |acts| && acts[i].Load? ==> Distinct(acts[i].listing)
  }

  lemma {:induction false} PendingDistinct(files: seq<File>, log: seq<File>)
    requires Distinct(files)
    ensures Distinct(Pending(files, log))
  {
    if files != [] {
      assert forall j :: 0 < j < |files| ==> files[j] == files[1..][j - 1];
      PendingDistinct(files[1..], log);
    }
  }

  lemma ActKeepsLock(c: Cluster, a: Action)
    requires Safe(c) && Enabled(c, a)
    ensures LockOk(Act(c, a))
  {
  }

  /** A commit moves one file from what is left into the table, for the committing runner. */
  lemma CommitSplits(log: seq<File>, files: seq<File>, todo: seq<File>)
    requires todo != [] && Distinct(todo) && Splits(log, files, todo)
    ensures Distinct(todo[1..]) && Splits(log + [todo[0]], files, todo[1..])
  {
  }

  lemma ActKeepsPhases(c: Cluster, a: Action, r: nat)
    requires Safe(c) && Enabled(c, a) && (a.Load? ==> Distinct(a.listing))
    requires r in Act(c, a).runners
    ensures PhaseOk(Act(c, a).log, Act(c, a).runners[r])
  {
    if a.Load? {
      PendingDistinct(a.listing, c.log);
    }
    if a.Commit? || a.CommitUnacknowledged? {
      var p := c.runners[a.r];
      assert PhaseOk(c.log, p);
      CommitSplits(c.log, p.files, p.todo);
      if r != a.r {
        assert PhaseOk(c.log, c.runners[r]);
        assert !Inside(c.runners[r]);
      }
    } else if r in c.runners {
      assert PhaseOk(c.log, c.runners[r]);
    }
  }

  lemma ActKeepsSafe(c: Cluster, a: Action)
    requires Safe(c) && Enabled(c, a) && (a.Load? ==> Distinct(a.listing))
    ensures Safe(Act(c, a))
  {
    ActKeepsLock(c, a);
    forall r | r in Act(c, a).runners { ActKeepsPhases(c, a, r); }
  }

  lemma {:induction false} PerformKeepsSafe(c: Cluster, acts: seq<Action>)
    requires Safe(c) && Allowed(c, acts) && ListingsDistinct(acts)
    ensures Safe(Perform(c, acts))
    decreases |acts|
  {
    if acts != [] {
      assert acts[0].Load? ==> Distinct(acts[0].listing);
      ActKeepsSafe(c, acts[0]);
      assert forall i :: 0 <= i < |acts| - 1 ==> acts[1..][i] == acts[i + 1];
      PerformKeepsSafe(Act(c, acts[0]), acts[1..]);
    }
  }

  /** No file is ever committed twice, and no two runners are inside together, whatever the directory does. */
  lemma NeverCommittedTwice(c: Cluster, acts: seq<Action>)
    requires Safe(c) && Allowed(c, acts) && ListingsDistinct(acts)
    ensures Distinct(Perform(c, acts).log)
    ensures forall r, q :: IsInside(Perform(c, acts), r) && IsInside(Perform(c, acts), q) ==> r == q
  {
    PerformKeepsSafe(c, acts);
  }

  /** A transaction about to commit never meets its own file in the table: the key constraint never fires. */
  lemma KeyNeverFires(c: Cluster, acts: seq<Action>, r: nat)
    requires Safe(c) && Allowed(c, acts) && ListingsDistinct(acts)
    requires IsCommitting(Perform(c, acts), r)
    ensures NextIsNew(Perform(c, acts), r)
  {
    PerformKeepsSafe(c, acts);
    var c' := Perform(c, acts);
    assert PhaseOk(c'.log, c'.runners[r]);
    assert c'.runners[r].todo[0] in c'.runners[r].todo;
  }

  /** A runner that ends without failure leaves every file it listed applied, then and ever after. */
  lemma SuccessMeansApplied(c: Cluster, acts: seq<Action>, r: nat)
    requires Safe(c) && Allowed(c, acts) && ListingsDistinct(acts)
    requires EndedWell(Perform(c, acts), r)
    ensures forall f :: f in Perform(c, acts).runners[r].files ==> f in Perform(c, acts).log
  {
    PerformKeepsSafe(c, acts);
    var c' := Perform(c, acts);
    assert PhaseOk(c'.log, c'.runners[r]);
  }

  // ------------------------------------------------------------------ a directory that only grows at the end

  /** Every listing is a prefix of `master`: a fixed directory, or one that gains files at its end. */
  ghost predicate ListingsFrom(master: seq<File>, acts: seq<Action>) {
    forall i :: 0 <= i < |acts| && acts[i].Load? ==> acts[i].listing <= master
  }

  ghost predicate PhaseOrdered(master: seq<File>, log: seq<File>, p: Phase) {
    (p.Applying? || p.InTransaction?) ==> |log| <= |p.files| && p.files <= master && p.todo == p.files[|log|..]
  }

  ghost predicate Ordered(master: seq<File>, c: Cluster) {
    && c.log <= master
    && forall r :: r in c.runners ==> PhaseOrdered(master, c.log, c.runners[r])
  }

  lemma {:induction false} PendingAll(files: seq<File>, log: seq<File>)
    requires forall f :: f in files ==> f !in log
    ensures Pending(files, log) == files
  {
    if files != [] {
      assert files[0] in files;
      PendingAll(files[1..], log);
    }
  }

  lemma {:induction false} PendingSkips(files: seq<File>, n: nat, log: seq<File>)
    requires n <= |files|
    requires forall f :: f in files[..n] ==> f in log
    ensures Pending(files, log) == Pending(files[n..], log)
  {
    if n == 0 {
      assert files[0..] == files;
    } else {
      assert files[0] == files[..n][0];
      assert files[1..][..n - 1] == files[..n][1..];
      assert files[1..][n - 1..] == files[n..];
      PendingSkips(files[1..], n - 1, log);
    }
  }

  /** When the table is a prefix of the directory order, what is pending is the rest of the listing. */
  lemma PendingIsRest(master: seq<File>, listing: seq<File>, log: seq<File>)
    requires Distinct(master) && listing <= master && log <= master
    ensures Pending(listing, log) == if |log| <= |listing| then listing[|log|..] else []
  {
    var n := if |log| <= |listing| then |log| else |listing|;
    assert forall i :: 0 <= i < n ==> listing[i] == master[i] == log[i];
    PendingSkips(listing, n, log);
    forall f | f in listing[n..] ensures f !in log {
      var k :| 0 <= k < |listing[n..]| && listing[n..][k] == f;
      assert f == master[n + k];
    }
    PendingAll(listing[n..], log);
  }

  lemma ActKeepsOrdered(master: seq<File>, c: Cluster, a: Action)
    requires Distinct(master) && Safe(c) && Ordered(master, c) && Enabled(c, a)
    requires a.Load? ==> a.listing <= master
    ensures Ordered(master, Act(c, a))
  {
    var c' := Act(c, a);
    if a.Load? {
      PendingIsRest(master, a.listing, c.log);
    } else if a.Commit? || a.CommitUnacknowledged? {
      var p := c.runners[a.r];
      assert PhaseOrdered(master, c.log, p);
      assert p.todo[0] == p.files[|c.log|] == master[|c.log|];
      assert c'.log == master[..|c.log| + 1];
    }
    forall r | r in c'.runners ensures PhaseOrdered(master, c'.log, c'.runners[r]) {
      if r in c.runners { assert PhaseOrdered(master, c.log, c.runners[r]); }
    }
  }

  /**
   Over a directory that is fixed or grows only at the end of its order, the table is
   always a prefix of that order, in every interleaving with failures and crashes.
   */
  lemma {:induction false} AppliedIsPrefix(master: seq<File>, c: Cluster, acts: seq<Action>)
    requires Distinct(master) && Safe(c) && Ordered(master, c)
    requires Allowed(c, acts) && ListingsFrom(master, acts)
    ensures Ordered(master, Perform(c, acts)) && Perform(c, acts).log <= master
    decreases |acts|
  {
    if acts != [] {
      assert acts[0].Load? ==> acts[0].listing <= master;
      ActKeepsSafe(c, acts[0]);
      ActKeepsOrdered(master, c, acts[0]);
      assert forall i :: 0 <= i < |acts| - 1 ==> acts[1..][i] == acts[i + 1];
      AppliedIsPrefix(master, Act(c, acts[0]), acts[1..]);
    }
  }

  /** What the runner works on, once it has read the directory. */
  ghost predicate WorksOn(files: seq<File>, c: Cluster, r: nat) {
    r in c.runners ==>
      match c.runners[r]
      case Applying(listing, _) => listing == files
      case InTransaction(listing, _) => listing == files
      case Unlocking(ok, listing) => ok ==> listing == files
      case Done(ok, listing) => ok ==> listing == files
      case _ => true
  }

  /** Over a fixed directory, every runner that starts during the run works on it. */
  lemma {:induction false} PerformKeepsWorksOn(files: seq<File>, c: Cluster, acts: seq<Action>, r: nat)
    requires Allowed(c, acts) && forall i :: 0 <= i < |acts| && acts[i].Load? ==> acts[i].listing == files
    requires WorksOn(files, c, r)
    ensures WorksOn(files, Perform(c, acts), r)
    decreases |acts|
  {
    if acts != [] {
      assert acts[0].Load? ==> acts[0].listing == files;
      assert forall i :: 0 <= i < |acts| - 1 ==> acts[1..][i] == acts[i + 1];
      PerformKeepsWorksOn(files, Act(c, acts[0]), acts[1..], r);
    }
  }

  /** A fixed directory: a runner that starts and ends without failure leaves the table equal to the directory. */
  lemma SuccessMeansUpToDate(files: seq<File>, c: Cluster, acts: seq<Action>, r: nat)
    requires Distinct(files) && Safe(c) && Ordered(files, c) && r !in c.runners
    requires Allowed(c, acts) && forall i :: 0 <= i < |acts| && acts[i].Load? ==> acts[i].listing == files
    requires EndedWell(Perform(c, acts), r)
    ensures Perform(c, acts).log == files
  {
    AppliedIsPrefix(files, c, acts);
    SuccessMeansApplied(c, acts, r);
    PerformKeepsWorksOn(files, c, acts, r);
    NextIsMissing(Perform(c, acts).log, files);
  }

  /** A proper prefix of a list without repetition lacks the next element. */
  lemma NextIsMissing(log: seq<File>, files: seq<File>)
    requires log <= files && Distinct(files)
    ensures |log| < |files| ==> files[|log|] in files && files[|log|] !in log
  {
  }

  /**
   Exactly when a complete run leaves the table in directory order: the table was a
   prefix of the listing.  A file that sorts before one already applied is applied all
   the same, but late, and the order is lost.
   */
  lemma OrderAfterCompleteRun(listing: seq<File>, log: seq<File>)
    requires Distinct(listing)
    ensures log + Pending(listing, log) == listing <==> log <= listing
  {
    if log <= listing {
      PendingIsRest(listing, listing, log);
    }
  }

  // ------------------------------------------------------------------ what one step may do

  /** The table grows by a commit only, by the next file of the committing runner. */
  lemma OnlyCommitsGrowTheLog(c: Cluster, a: Action)
    requires Enabled(c, a)
    ensures a.Commit? || a.CommitUnacknowledged? ==>
      c.runners[a.r].InTransaction? && Act(c, a).log == c.log + [c.runners[a.r].todo[0]]
    ensures !(a.Commit? || a.CommitUnacknowledged?) ==> Act(c, a).log == c.log
  {
  }

  /** A step moves its own runner only, and the lock only when it is taken, given back or lost in a crash. */
  lemma OnlyOwnPhaseMoves(c: Cluster, a: Action)
    requires Enabled(c, a)
    ensures Act(c, a).runners.Keys == c.runners.Keys + {a.r}
    ensures forall q :: q in c.runners && q != a.r ==> Act(c, a).runners[q] == c.runners[q]
    ensures Act(c, a).lock ==
            if a.Acquire? then Some(a.r)
            else if a.Unlock? || (a.Crash? && !c.runners[a.r].Waiting?) then None
            else c.lock
  {
  }

  /** A runner that is not at its end can crash at any moment, which loses nothing that was committed. */
  lemma AnyoneCanCrash(c: Cluster, r: nat)
    requires r in c.runners && !c.runners[r].Done? && !c.runners[r].Crashed?
    ensures Enabled(c, Crash(r))
    ensures Act(c, Crash(r)).runners[r] == Crashed && Act(c, Crash(r)).log == c.log
  {
  }

  /** The lock holder can always go on; a waiting runner can take the lock just when it is free. */
  lemma NobodyIsStuck(c: Cluster, r: nat)
    requires Safe(c) && r in c.runners
    ensures Inside(c.runners[r]) ==> exists a: Action :: a.r == r && !a.Crash? && Enabled(c, a)
    ensures c.runners[r].Waiting? ==> (Enabled(c, Acquire(r)) <==> c.lock.None?)
    ensures c.lock.Some? ==> c.lock.value in c.runners && Inside(c.runners[c.lock.value])
  {
    match c.runners[r]
    case Locked => assert Enabled(c, Load(r, []));
    case Applying(_, _) => assert Enabled(c, Begin(r));
    case InTransaction(_, _) => assert Enabled(c, Commit(r));
    case Unlocking(_, _) => assert Enabled(c, Unlock(r));
    case _ =>
  }

  /** The run of this runner has gone wrong. */
  predicate Doomed(c: Cluster, r: nat) {
    && r in c.runners
    && match c.runners[r]
       case Unlocking(ok, _) => !ok
       case Done(ok, _) => !ok
       case Crashed => true
       case _ => false
  }

  lemma {:induction false} DoomedStays(c: Cluster, acts: seq<Action>, r: nat)
    requires Allowed(c, acts) && Doomed(c, r)
    ensures Doomed(Perform(c, acts), r)
    decreases |acts|
  {
    if acts != [] { DoomedStays(Act(c, acts[0]), acts[1..], r); }
  }

  /** A failed set-up, file or acknowledgement, and a crash: the runner does not end in success any more. */
  lemma FailureIsReported(c: Cluster, a: Action, rest: seq<Action>)
    requires Enabled(c, a) && Allowed(Act(c, a), rest)
    requires a.SetupFails? || a.Fail? || a.CommitUnacknowledged? || a.Crash?
    ensures !EndedWell(Perform(Act(c, a), rest), a.r)
  {
    DoomedStays(Act(c, a), rest, a.r);
  }
}
