/**
 The debounce queue in front of the watcher: pending events coalesce per path, a
 timer hands them over in one batch, and one batch is processed at a time.

 The model is the class `EventScheduler`, which edits the source's variables in
 place.  Each method is proved equal to a step on the value `Queue`; the laws are
 about every interleaving of those steps.
 */
module DebounceQueue {
  import opened Wrappers
  import opened ImportGraph

  datatype Pending = Pending(path: Path, kind: Kind)

  const DEBOUNCE_BULK := 10
  const WINDOW_MS := 500

  /**
   The variables of the scheduler.  `timers` holds the handles that have been set and
   have neither fired nor been cleared; `debounce` is the variable, which may hold a
   handle that is no longer live.  `scheduled`, `handed` and the two counters are the
   history the laws speak about.
   */
  datatype Queue = Queue(
    pending: seq<Pending>,
    timers: set<nat>,
    debounce: Option<nat>,
    windowStart: Option<int>,
    processing: bool,
    nextTimer: nat,
    scheduled: seq<Pending>,
    handed: seq<Pending>,
    started: nat,
    finished: nat
  )

  const IDLE := Queue([], {}, None, None, false, 0, [], [], 0, 0)

  // ------------------------------------------------------------------ steps

  /** `pendingEvents.set(path, kind)`: a known path keeps its place, the last write wins. */
  function Put(q: seq<Pending>, e: Pending): seq<Pending> {
    if q == [] then [e]
    else if q[0].path == e.path then [e] + q[1..]
    else [q[0]] + Put(q[1..], e)
  }

  function ClearTimer(s: Queue): Queue {
    if s.debounce.Some? then s.(timers := s.timers - {s.debounce.value}, debounce := None) else s
  }

  function SetTimer(s: Queue): Queue {
    s.(timers := s.timers + {s.nextTimer}, debounce := Some(s.nextTimer), nextTimer := s.nextTimer + 1)
  }

  function Drain(s: Queue): Queue {
    if s.processing then s
    else
      var s1 := ClearTimer(s).(windowStart := None, pending := []);
      if s.pending == [] then s1
      else s1.(processing := true, handed := s.handed + s.pending, started := s.started + 1)
  }

  function Schedule(s: Queue, e: Pending, now: int): Queue {
    var start := if s.windowStart.None? then now else s.windowStart.value;
    var s1 := ClearTimer(s.(pending := Put(s.pending, e), windowStart := Some(start), scheduled := s.scheduled + [e]));
    if |s1.pending| >= DEBOUNCE_BULK && now - start < WINDOW_MS then Drain(s1) else SetTimer(s1)
  }

  function Fire(s: Queue, timer: nat): Queue { Drain(s.(timers := s.timers - {timer})) }

  /** `processEvents` ended, well or badly: the `finally` block. */
  function Finish(s: Queue): Queue {
    var s1 := s.(processing := false, finished := s.finished + 1);
    if s.pending == [] then s1 else SetTimer(s1)
  }

  datatype Action = DoSchedule(event: Pending, now: int) | DoFire(timer: nat) | DoFinish

  predicate Enabled(s: Queue, a: Action) {
    match a
    case DoSchedule(_, _) => true
    case DoFire(t) => t in s.timers
    case DoFinish => s.processing
  }

  function Act(s: Queue, a: Action): Queue {
    match a
    case DoSchedule(e, now) => Schedule(s, e, now)
    case DoFire(t) => Fire(s, t)
    case DoFinish => Finish(s)
  }

  ghost predicate Allowed(s: Queue, acts: seq<Action>)
    decreases |acts|
  {
    acts == [] || (Enabled(s, acts[0]) && Allowed(Act(s, acts[0]), acts[1..]))
  }

  function Perform(s: Queue, acts: seq<Action>): Queue
    decreases |acts|
  {
    if acts == [] then s else Perform(Act(s, acts[0]), acts[1..])
  }

  // ------------------------------------------------------------------ histories

  /** The events of one path, in order. */
  function Of(es: seq<Pending>, p: Path): seq<Kind> {
    if es == [] then []
    else Of(es[..|es| - 1], p) + if es[|es| - 1].path == p then [es[|es| - 1].kind] else []
  }

  /** `a` is `b` with some elements left out. */
  ghost predicate Subsequence<T>(a: seq<T>, b: seq<T>) {
    if a == [] then true
    else if b == [] then false
    else
      || (a[|a| - 1] == b[|b| - 1] && Subsequence(a[..|a| - 1], b[..|b| - 1]))
      || Subsequence(a, b[..|b| - 1])
  }

  /** `a` keeps a subsequence of `b`, and its last element when there is one. */
  ghost predicate Coalesces<T>(a: seq<T>, b: seq<T>) {
    && Subsequence(a, b)
    && (a == [] <==> b == [])
    && (a != [] ==> a[|a| - 1] == b[|b| - 1])
  }

  lemma {:induction false} DropLastOfSubsequence<T>(a: seq<T>, x: T, b: seq<T>)
    requires Subsequence(a + [x], b)
    ensures Subsequence(a, b)
  {
    assert (a + [x])[..|a|] == a;
    if a != [] {
      var b' := b[..|b| - 1];
      if x == b[|b| - 1] && Subsequence(a, b') {
      } else {
        DropLastOfSubsequence(a, x, b');
      }
    }
  }

  /** A new last event keeps coalescing, whether it is added or takes the place of the last one. */
  lemma CoalesceNext<T>(a: seq<T>, b: seq<T>, x: T, replaced: bool)
    requires Coalesces(a, b)
    requires replaced ==> a != []
    ensures Coalesces((if replaced then a[..|a| - 1] else a) + [x], b + [x])
  {
    var kept := if replaced then a[..|a| - 1] else a;
    if replaced {
      assert kept + [a[|a| - 1]] == a;
      DropLastOfSubsequence(kept, a[|a| - 1], b);
    }
    assert (kept + [x])[..|kept|] == kept && (b + [x])[..|b|] == b;
  }

  // ------------------------------------------------------------------ the invariant

  ghost predicate DistinctPaths(q: seq<Pending>) {
    forall i, j :: 0 <= i < j < |q| ==> q[i].path != q[j].path
  }

  /** What was handed over for `p`, and what is still pending for it. */
  function Seen(s: Queue, p: Path): seq<Kind> { Of(s.handed + s.pending, p) }

  ghost predicate HistoryOk(s: Queue) {
    forall p :: Coalesces(Seen(s, p), Of(s.scheduled, p))
  }

  ghost predicate TimersOk(s: Queue) {
    && (forall t :: t in s.timers ==> t < s.nextTimer)
    && (!s.processing && s.pending != [] ==> s.debounce.Some? && s.debounce.value in s.timers)
  }

  ghost predicate Ok(s: Queue) {
    && DistinctPaths(s.pending)
    && TimersOk(s)
    && HistoryOk(s)
    && s.started == s.finished + if s.processing then 1 else 0
  }

  lemma {:induction false} OfConcat(a: seq<Pending>, b: seq<Pending>, p: Path)
    ensures Of(a + b, p) == Of(a, p) + Of(b, p)
  {
    if b == [] {
      assert a + b == a;
    } else {
      assert (a + b)[..|a + b| - 1] == a + b[..|b| - 1];
      OfConcat(a, b[..|b| - 1], p);
    }
  }

  lemma {:induction false} OfNone(q: seq<Pending>, p: Path)
    requires forall i :: 0 <= i < |q| ==> q[i].path != p
    ensures Of(q, p) == []
  {
    if q != [] { OfNone(q[..|q| - 1], p); }
  }

  lemma OfHead(q: seq<Pending>, p: Path)
    requires q != []
    ensures Of(q, p) == (if q[0].path == p then [q[0].kind] else []) + Of(q[1..], p)
  {
    assert q == [q[0]] + q[1..];
    OfConcat([q[0]], q[1..], p);
    assert [q[0]][..0] == [];
  }

  lemma {:induction false} PutKeepsDistinct(q: seq<Pending>, e: Pending)
    requires DistinctPaths(q)
    ensures DistinctPaths(Put(q, e)) && Put(q, e) != []
    ensures forall x :: x in Put(q, e) ==> x == e || x in q
  {
    if q != [] && q[0].path != e.path {
      var rest := Put(q[1..], e);
      PutKeepsDistinct(q[1..], e);
      forall j | 0 <= j < |rest| ensures rest[j].path != q[0].path { assert rest[j] in rest; }
    }
  }

  lemma {:induction false} PutAt(q: seq<Pending>, e: Pending, p: Path)
    requires DistinctPaths(q)
    ensures Of(Put(q, e), p) == if p == e.path then [e.kind] else Of(q, p)
    ensures |Put(q, e)| == |q| + if Of(q, e.path) == [] then 1 else 0
    ensures |Of(q, e.path)| <= 1
  {
    if q == [] {
      assert [e][..0] == [];
    } else {
      OfHead(q, p);
      OfHead(q, e.path);
      OfHead(Put(q, e), p);
      if q[0].path == e.path {
        OfNone(q[1..], e.path);
      } else {
        PutAt(q[1..], e, p);
      }
    }
  }

  /** `Put` changes the event of its own path and no other; the paths stay distinct. */
  lemma PutMeaning(q: seq<Pending>, e: Pending)
    requires DistinctPaths(q)
    ensures DistinctPaths(Put(q, e)) && Put(q, e) != []
    ensures Of(Put(q, e), e.path) == [e.kind]
    ensures |Of(q, e.path)| <= 1
    ensures forall p :: p != e.path ==> Of(Put(q, e), p) == Of(q, p)
    ensures forall x :: x in Put(q, e) ==> x == e || x in q
    ensures |Put(q, e)| == |q| + if Of(q, e.path) == [] then 1 else 0
  {
    PutKeepsDistinct(q, e);
    PutAt(q, e, e.path);
    forall p { PutAt(q, e, p); }
  }

  lemma ScheduleCoalesces(s: Queue, e: Pending, p: Path)
    requires DistinctPaths(s.pending) && Coalesces(Seen(s, p), Of(s.scheduled, p))
    ensures Coalesces(Of(s.handed + Put(s.pending, e), p), Of(s.scheduled + [e], p))
  {
    PutMeaning(s.pending, e);
    OfConcat(s.handed, s.pending, p);
    OfConcat(s.handed, Put(s.pending, e), p);
    OfConcat(s.scheduled, [e], p);
    assert [e][..0] == [];
    if p == e.path {
      var replaced := Of(s.pending, p) != [];
      var a := Seen(s, p);
      assert (if replaced then a[..|a| - 1] else a) == Of(s.handed, p);
      CoalesceNext(a, Of(s.scheduled, p), e.kind, replaced);
      assert Of([e], p) == [e.kind];
    } else {
      assert Of([e], p) == [];
      assert Of(s.scheduled + [e], p) == Of(s.scheduled, p);
    }
  }

  lemma ScheduleKeepsHistory(s: Queue, e: Pending)
    requires DistinctPaths(s.pending) && HistoryOk(s)
    ensures HistoryOk(s.(pending := Put(s.pending, e), scheduled := s.scheduled + [e]))
  {
    var s1 := s.(pending := Put(s.pending, e), scheduled := s.scheduled + [e]);
    forall p ensures Coalesces(Seen(s1, p), Of(s1.scheduled, p)) {
      assert Coalesces(Seen(s, p), Of(s.scheduled, p));
      ScheduleCoalesces(s, e, p);
    }
  }

  /** The invariant's history part depends only on the three event lists. */
  lemma SameHistory(s: Queue, s': Queue)
    requires HistoryOk(s)
    requires s'.scheduled == s.scheduled && s'.handed + s'.pending == s.handed + s.pending
    ensures HistoryOk(s')
  {
  }

  lemma DrainKeepsOk(s: Queue)
    requires DistinctPaths(s.pending) && HistoryOk(s)
    requires s.started == s.finished + if s.processing then 1 else 0
    requires forall t :: t in s.timers ==> t < s.nextTimer
    ensures Ok(Drain(s))
    ensures !s.processing ==> Drain(s).pending == [] && Drain(s).handed == s.handed + s.pending
  {
    var s1 := Drain(s);
    if !s.processing {
      assert s1.handed + s1.pending == s.handed + s.pending;
      SameHistory(s, s1);
    }
  }

  lemma ScheduleKeepsOk(s: Queue, e: Pending, now: int)
    requires Ok(s)
    ensures Ok(Schedule(s, e, now))
  {
    ScheduleKeepsHistory(s, e);
    PutMeaning(s.pending, e);
    var start := if s.windowStart.None? then now else s.windowStart.value;
    var s1 := ClearTimer(s.(pending := Put(s.pending, e), windowStart := Some(start), scheduled := s.scheduled + [e]));
    SameHistory(s.(pending := Put(s.pending, e), scheduled := s.scheduled + [e]), s1);
    DrainKeepsOk(s1);
    SameHistory(s1, SetTimer(s1));
  }

  lemma ActKeepsOk(s: Queue, a: Action)
    requires Ok(s) && Enabled(s, a)
    ensures Ok(Act(s, a))
  {
    match a {
      case DoSchedule(e, now) =>
        ScheduleKeepsOk(s, e, now);
      case DoFire(t) =>
        var s0 := s.(timers := s.timers - {t});
        SameHistory(s, s0);
        DrainKeepsOk(s0);
      case DoFinish =>
        SameHistory(s, Finish(s));
    }
  }

  /** Every interleaving of schedules, timer firings and ends of processing keeps the invariant. */
  lemma {:induction false} PerformKeepsOk(s: Queue, acts: seq<Action>)
    requires Ok(s) && Allowed(s, acts)
    ensures Ok(Perform(s, acts))
    decreases |acts|
  {
    if acts != [] {
      ActKeepsOk(s, acts[0]);
      PerformKeepsOk(Act(s, acts[0]), acts[1..]);
    }
  }

  // ------------------------------------------------------------------ the laws

  lemma IdleIsOk()
    ensures Ok(IDLE)
  {
  }

  /** Pending events are never stranded: a batch is being processed, or a timer is live. */
  lemma NeverStranded(acts: seq<Action>)
    requires Allowed(IDLE, acts)
    ensures var s := Perform(IDLE, acts); s.pending != [] ==> s.processing || s.timers != {}
  {
    IdleIsOk();
    PerformKeepsOk(IDLE, acts);
    var s := Perform(IDLE, acts);
    if s.pending != [] && !s.processing {
      assert s.debounce.value in s.timers;
    }
  }

  /** At most one batch is in flight, and the flag says so. */
  lemma OneBatchInFlight(acts: seq<Action>)
    requires Allowed(IDLE, acts)
    ensures var s := Perform(IDLE, acts);
      s.finished <= s.started <= s.finished + 1 && (s.processing <==> s.started == s.finished + 1)
  {
    IdleIsOk();
    PerformKeepsOk(IDLE, acts);
  }

  /** Whichever live timer fires first while nothing is processed, it hands over everything pending. */
  lemma AnyTimerHandsOverAll(s: Queue, t: nat)
    requires Ok(s) && !s.processing && t in s.timers
    ensures Fire(s, t).pending == [] && Fire(s, t).handed == s.handed + s.pending
  {
  }

  /** While a batch is processed, its end and then one firing hand over everything pending; the timer is there. */
  lemma FinishThenFireHandsOverAll(s: Queue, t: nat)
    requires Ok(s) && s.processing
    requires t in Finish(s).timers
    ensures Fire(Finish(s), t).pending == [] && Fire(Finish(s), t).handed == s.handed + s.pending
    ensures s.pending != [] ==> Finish(s).debounce.Some? && Finish(s).debounce.value in Finish(s).timers
  {
  }

  /**
   Per path, what was handed over is a subsequence of what was scheduled, and once the
   queue is empty the last event handed over is the last one scheduled.
   */
  lemma HandedCoalescesScheduled(acts: seq<Action>, p: Path)
    requires Allowed(IDLE, acts)
    ensures var s := Perform(IDLE, acts);
      && Subsequence(Of(s.handed, p), Of(s.scheduled, p))
      && (s.pending == [] ==> Coalesces(Of(s.handed, p), Of(s.scheduled, p)))
  {
    IdleIsOk();
    PerformKeepsOk(IDLE, acts);
    var s := Perform(IDLE, acts);
    assert Coalesces(Seen(s, p), Of(s.scheduled, p));
    OfConcat(s.handed, s.pending, p);
    PrefixOfSubsequence(Of(s.handed, p), Of(s.pending, p), Of(s.scheduled, p));
    if s.pending == [] { assert s.handed + s.pending == s.handed; }
  }

  lemma {:induction false} PrefixOfSubsequence<T>(a: seq<T>, rest: seq<T>, b: seq<T>)
    requires Subsequence(a + rest, b)
    ensures Subsequence(a, b)
    decreases |rest|
  {
    if rest == [] {
      assert a + rest == a;
    } else {
      var n := |rest| - 1;
      assert a + rest == (a + rest[..n]) + [rest[n]];
      DropLastOfSubsequence(a + rest[..n], rest[n], b);
      PrefixOfSubsequence(a, rest[..n], b);
    }
  }

  // ------------------------------------------------------------------ the scheduler

  class EventScheduler {
    var pendingEvents: seq<Pending>
    var liveTimers: set<nat>
    var debounceTimer: Option<nat>
    var windowStart: Option<int>
    var isProcessing: bool
    var nextTimer: nat
    ghost var scheduled: seq<Pending>
    ghost var handed: seq<Pending>
    ghost var started: nat
    ghost var finished: nat

    ghost function State(): Queue
      reads this
    {
      Queue(pendingEvents, liveTimers, debounceTimer, windowStart, isProcessing, nextTimer,
            scheduled, handed, started, finished)
    }

    constructor ()
      ensures State() == IDLE
    {
      pendingEvents, liveTimers, debounceTimer, windowStart := [], {}, None, None;
      isProcessing, nextTimer := false, 0;
      scheduled, handed, started, finished := [], [], 0, 0;
    }

    method ClearDebounceTimer()
      modifies this`liveTimers, this`debounceTimer
      ensures State() == ClearTimer(old(State()))
    {
      if debounceTimer.Some? {
        liveTimers := liveTimers - {debounceTimer.value};
        debounceTimer := None;
      }
    }

    method SetDebounceTimer()
      modifies this`liveTimers, this`debounceTimer, this`nextTimer
      ensures State() == SetTimer(old(State()))
    {
      liveTimers := liveTimers + {nextTimer};
      debounceTimer := Some(nextTimer);
      nextTimer := nextTimer + 1;
    }

    /** Returns the batch it hands to `processEvents`; empty when it hands over nothing. */
    method DrainQueue() returns (batch: seq<Pending>)
      modifies this
      ensures State() == Drain(old(State()))
      ensures handed == old(handed) + batch
      ensures batch == if old(isProcessing) then [] else old(pendingEvents)
    {
      if isProcessing { return []; }
      ClearDebounceTimer();
      windowStart := None;
      batch := pendingEvents;
      pendingEvents := [];
      if batch == [] { return; }
      isProcessing := true;
      handed, started := handed + batch, started + 1;
    }

    method PutPending(e: Pending)
      modifies this`pendingEvents
      ensures pendingEvents == Put(old(pendingEvents), e)
    {
      var i := 0;
      while i < |pendingEvents| && pendingEvents[i].path != e.path
        invariant 0 <= i <= |pendingEvents|
        invariant Put(pendingEvents, e) == pendingEvents[..i] + Put(pendingEvents[i..], e)
      {
        i := i + 1;
      }
      pendingEvents := pendingEvents[..i] + [e] + if i < |pendingEvents| then pendingEvents[i + 1..] else [];
    }

    method ScheduleProcess(e: Pending, now: int) returns (batch: seq<Pending>)
      modifies this
      ensures State() == Schedule(old(State()), e, now)
      ensures handed == old(handed) + batch
    {
      scheduled := scheduled + [e];
      PutPending(e);
      if windowStart.None? {
        windowStart := Some(now);
      }
      ClearDebounceTimer();
      var inWindow := now - windowStart.value < WINDOW_MS;
      if |pendingEvents| >= DEBOUNCE_BULK && inWindow {
        batch := DrainQueue();
      } else {
        SetDebounceTimer();
        batch := [];
      }
    }

    method TimerFired(timer: nat) returns (batch: seq<Pending>)
      requires timer in liveTimers
      modifies this
      ensures State() == Fire(old(State()), timer)
      ensures handed == old(handed) + batch
    {
      liveTimers := liveTimers - {timer};
      batch := DrainQueue();
    }

    method ProcessingDone()
      requires isProcessing
      modifies this
      ensures State() == Finish(old(State()))
    {
      isProcessing := false;
      finished := finished + 1;
      if |pendingEvents| > 0 {
        SetDebounceTimer();
      }
    }
  }
}
