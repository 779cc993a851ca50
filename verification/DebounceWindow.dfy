/**
 When the scheduler hands over at once and when it waits: the window of 500 ms that starts
 with the first pending event, the bulk of ten, and the one timer that each event renews.
 */
module DebounceWindow {
  import opened Wrappers
  import opened ImportGraph
  import opened DebounceQueue

  // ------------------------------------------------------------------ the pending events

  function PathsOf(q: seq<Pending>): seq<Path> { seq(|q|, i requires 0 <= i < |q| => q[i].path) }

  /** A path keeps its place in the queue when its event is replaced; a new one comes last. */
  lemma {:induction false} PutOrder(q: seq<Pending>, e: Pending)
    ensures PathsOf(Put(q, e)) == if e.path in PathsOf(q) then PathsOf(q) else PathsOf(q) + [e.path]
  {
    if q != [] {
      assert PathsOf(q) == [q[0].path] + PathsOf(q[1..]);
      if q[0].path == e.path {
        assert PathsOf([e] + q[1..]) == [e.path] + PathsOf(q[1..]);
      } else {
        PutOrder(q[1..], e);
        assert PathsOf([q[0]] + Put(q[1..], e)) == [q[0].path] + PathsOf(Put(q[1..], e));
      }
    }
  }

  /** How many paths are pending once `e` is. */
  function CountWith(s: Queue, e: Pending): nat {
    |s.pending| + if exists x :: x in s.pending && x.path == e.path then 0 else 1
  }

  function StartWith(s: Queue, now: int): int { if s.windowStart.Some? then s.windowStart.value else now }

  lemma {:induction false} PutLength(q: seq<Pending>, e: Pending)
    ensures |Put(q, e)| == |q| + if exists x :: x in q && x.path == e.path then 0 else 1
  {
    PutOrder(q, e);
    assert |PathsOf(Put(q, e))| == |Put(q, e)| && |PathsOf(q)| == |q|;
    if e.path in PathsOf(q) {
      var i :| 0 <= i < |q| && PathsOf(q)[i] == e.path;
      assert q[i] in q;
    }
    if x :| x in q && x.path == e.path {
      var i :| 0 <= i < |q| && q[i] == x;
      assert PathsOf(q)[i] == e.path;
    }
  }

  // ------------------------------------------------------------------ one step

  /**
   An event while nothing is processed: if it makes ten pending paths or more, less than
   500 ms after the first of them, everything is handed over at once; otherwise it waits
   for a timer of its own.
   */
  lemma ScheduleIdle(s: Queue, e: Pending, now: int)
    requires !s.processing
    ensures var s', n, start := Schedule(s, e, now), CountWith(s, e), StartWith(s, now);
      if n >= 10 && now - start < 500 then
        && s'.pending == [] && s'.handed == s.handed + Put(s.pending, e) && s'.processing
        && s'.windowStart == None && s'.debounce == None
      else
        && s'.pending == Put(s.pending, e) && s'.handed == s.handed && !s'.processing
        && s'.windowStart == Some(start) && s'.debounce.Some? && s'.debounce.value in s'.timers
  {
    PutLength(s.pending, e);
  }

  /** An event while a batch is processed waits; when the bulk is reached it even leaves no timer of its own. */
  lemma ScheduleBusy(s: Queue, e: Pending, now: int)
    requires s.processing
    ensures var s', n, start := Schedule(s, e, now), CountWith(s, e), StartWith(s, now);
      && s'.pending == Put(s.pending, e) && s'.handed == s.handed && s'.processing
      && s'.windowStart == Some(start)
      && (if n >= 10 && now - start < 500 then s'.debounce == None
          else s'.debounce.Some? && s'.debounce.value in s'.timers)
  {
    PutLength(s.pending, e);
  }

  /** Each event takes the timer of the one before it away, and no other. */
  lemma ScheduleRenewsTimer(s: Queue, e: Pending, now: int)
    requires forall t :: t in s.timers ==> t < s.nextTimer
    ensures var s' := Schedule(s, e, now);
      forall t :: t < s.nextTimer ==> (t in s'.timers <==> t in s.timers && s.debounce != Some(t))
    ensures |Schedule(s, e, now).timers - s.timers| <= 1
  {
    var s' := Schedule(s, e, now);
    assert s'.timers - s.timers <= {s.nextTimer};
    if s.nextTimer in s'.timers - s.timers {
      assert s'.timers - s.timers == {s.nextTimer};
    } else {
      assert s'.timers - s.timers == {};
    }
  }

  /** A timer that fires is spent; during processing that is all it does. */
  lemma FireSpendsTimer(s: Queue, t: nat)
    ensures t !in Fire(s, t).timers
    ensures s.processing ==> Fire(s, t) == s.(timers := s.timers - {t})
    ensures !s.processing ==> Fire(s, t).debounce == None && Fire(s, t).windowStart == None
    ensures !s.processing ==> (Fire(s, t).processing <==> s.pending != [])
  {
  }

  /** The end of processing leaves queue and window alone, and sets a timer just when something is pending. */
  lemma FinishLeavesQueue(s: Queue)
    ensures Finish(s).pending == s.pending && Finish(s).handed == s.handed && Finish(s).windowStart == s.windowStart
    ensures !Finish(s).processing
    ensures s.pending == [] ==> Finish(s).timers == s.timers && Finish(s).debounce == s.debounce
  {
  }

  // ------------------------------------------------------------------ over every run

  lemma {:induction false} PerformAppend(s: Queue, acts: seq<Action>, a: Action)
    ensures Perform(s, acts + [a]) == Act(Perform(s, acts), a)
    ensures Allowed(s, acts + [a]) <==> Allowed(s, acts) && Enabled(Perform(s, acts), a)
    decreases |acts|
  {
    if acts == [] {
      assert [] + [a] == [a] && [a][1..] == [];
      assert Perform(s, [a]) == Perform(Act(s, a), []);
    } else {
      assert (acts + [a])[0] == acts[0] && (acts + [a])[1..] == acts[1..] + [a];
      PerformAppend(Act(s, acts[0]), acts[1..], a);
    }
  }

  /** The window was opened by the `i`-th action, when the queue was empty, which it has not been since. */
  ghost predicate OpenedBy(acts: seq<Action>, i: nat) {
    && i < |acts| && acts[i].DoSchedule?
    && Perform(IDLE, acts[..i]).pending == []
    && (forall j :: i < j <= |acts| ==> Perform(IDLE, acts[..j]).pending != [])
    && Perform(IDLE, acts).windowStart == Some(acts[i].now)
  }

  /** The window is open exactly while events are pending, and starts with the first of them. */
  lemma {:induction false} WindowStartsWithFirstPending(acts: seq<Action>)
    requires Allowed(IDLE, acts)
    ensures var s := Perform(IDLE, acts);
      && (s.windowStart.None? <==> s.pending == [])
      && (s.pending != [] ==> exists i: nat :: OpenedBy(acts, i))
  {
    if acts != [] {
      var front, a := acts[..|acts| - 1], acts[|acts| - 1];
      assert acts == front + [a];
      PerformAppend(IDLE, front, a);
      WindowStartsWithFirstPending(front);
      WindowStep(front, a);
    }
  }

  lemma WindowStep(front: seq<Action>, a: Action)
    requires Allowed(IDLE, front + [a])
    requires var s := Perform(IDLE, front);
      && (s.windowStart.None? <==> s.pending == [])
      && (s.pending != [] ==> exists i: nat :: OpenedBy(front, i))
    ensures var s := Perform(IDLE, front + [a]);
      && (s.windowStart.None? <==> s.pending == [])
      && (s.pending != [] ==> exists i: nat :: OpenedBy(front + [a], i))
  {
    var s, acts := Perform(IDLE, front), front + [a];
    PerformAppend(IDLE, front, a);
    var s' := Perform(IDLE, acts);
    PutOrderNonEmpty(s, a);
    if s'.pending != [] {
      assert acts[..|acts|] == acts && acts[..|front|] == front;
      if s.pending == [] {
        assert OpenedBy(acts, |front|);
      } else {
        var i: nat :| OpenedBy(front, i);
        forall j | i < j <= |acts| ensures Perform(IDLE, acts[..j]).pending != [] {
          if j <= |front| { assert acts[..j] == front[..j]; }
        }
        assert acts[..i] == front[..i];
        assert OpenedBy(acts, i);
      }
    }
  }

  lemma PutOrderNonEmpty(s: Queue, a: Action)
    ensures a.DoSchedule? ==> Put(s.pending, a.event) != []
  {
  }
}
