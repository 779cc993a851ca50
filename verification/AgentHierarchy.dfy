/**
 The order in which `scripts/seed.ts` activates system agents: a breadth-first
 topological sort, roots first, with the agents of broken hierarchies appended.
 */
module AgentHierarchy {
  import opened Wrappers

  datatype Agent = Agent(id: string, parent: Option<string>, slug: string, orgScoped: bool)

  predicate DistinctIds(s: seq<Agent>) {
    forall i, j :: 0 <= i < j < |s| ==> s[i].id != s[j].id
  }

  function Ids(s: seq<Agent>): set<string> { set a | a in s :: a.id }

  /** The parent reference is set; the empty text counts as unset. */
  predicate HasParent(a: Agent) { a.parent.Some? && a.parent.value != "" }

  /** No parent, or a parent outside the list. */
  predicate IsRoot(agents: seq<Agent>, a: Agent) {
    !HasParent(a) || a.parent.value !in Ids(agents)
  }

  predicate IsParent(b: Agent, a: Agent) { HasParent(a) && a.parent.value == b.id }

  /** The parent chain of `a` reaches a root after exactly `n` steps. */
  ghost predicate RootedAt(agents: seq<Agent>, a: Agent, n: nat)
    decreases n
  {
    if n == 0 then IsRoot(agents, a)
    else !IsRoot(agents, a) && exists b :: b in agents && IsParent(b, a) && RootedAt(agents, b, n - 1)
  }

  ghost predicate Rooted(agents: seq<Agent>, a: Agent) {
    exists n: nat :: RootedAt(agents, a, n)
  }

  /** The agents whose parent chain never leaves the list, in list order. */
  ghost function Unrooted(agents: seq<Agent>, s: seq<Agent>): seq<Agent> {
    if s == [] then []
    else Unrooted(agents, s[..|s| - 1]) + if Rooted(agents, s[|s| - 1]) then [] else [s[|s| - 1]]
  }

  /** Everyone but the roots comes after its parent. */
  ghost predicate ParentsFirst(agents: seq<Agent>, s: seq<Agent>) {
    forall i :: 0 <= i < |s| && !IsRoot(agents, s[i]) ==> exists j :: 0 <= j < i && IsParent(s[j], s[i])
  }

  /** Nearer to a root means earlier. */
  ghost predicate LevelOrder(agents: seq<Agent>, s: seq<Agent>) {
    forall i, j, m: nat, n: nat :: 0 <= i < j < |s| && RootedAt(agents, s[i], m) && RootedAt(agents, s[j], n) ==> m <= n
  }

  // ------------------------------------------------------------------ facts about chains

  lemma SameAgent(agents: seq<Agent>, a: Agent, b: Agent)
    requires DistinctIds(agents) && a in agents && b in agents && a.id == b.id
    ensures a == b
  {
  }

  lemma DifferentAgents(agents: seq<Agent>, a: Agent, b: Agent)
    requires DistinctIds(agents) && a in agents && b in agents && a != b
    ensures a.id != b.id
  {
  }

  lemma {:induction false} DepthIsUnique(agents: seq<Agent>, a: Agent, m: nat, n: nat)
    requires DistinctIds(agents) && RootedAt(agents, a, m) && RootedAt(agents, a, n)
    ensures m == n
    decreases m
  {
    if m > 0 && n > 0 {
      var b :| b in agents && IsParent(b, a) && RootedAt(agents, b, m - 1);
      var c :| c in agents && IsParent(c, a) && RootedAt(agents, c, n - 1);
      SameAgent(agents, b, c);
      DepthIsUnique(agents, b, m - 1, n - 1);
    }
  }

  lemma ChildIsDeeper(agents: seq<Agent>, b: Agent, a: Agent, n: nat)
    requires b in agents && IsParent(b, a) && RootedAt(agents, b, n)
    ensures RootedAt(agents, a, n + 1)
  {
  }

  /** A list that holds every root and every child of its members holds every rooted agent. */
  lemma {:induction false} ClosedHoldsRooted(agents: seq<Agent>, s: seq<Agent>, a: Agent, n: nat)
    requires forall r :: r in agents && IsRoot(agents, r) ==> r in s
    requires forall b, c :: b in s && c in agents && IsParent(b, c) ==> c in s
    requires a in agents && RootedAt(agents, a, n)
    ensures a in s
    decreases n
  {
    if n > 0 {
      var b :| b in agents && IsParent(b, a) && RootedAt(agents, b, n - 1);
      ClosedHoldsRooted(agents, s, b, n - 1);
    }
  }

  lemma {:induction false} DistinctIsShort(s: seq<Agent>, agents: seq<Agent>)
    requires DistinctIds(s) && forall a :: a in s ==> a in agents
    ensures |s| <= |agents|
  {
    SetOfDistinct(s);
    SetIsShort(agents);
    var t := set a | a in agents;
    SubsetIsSmaller((set a | a in s), t);
  }

  lemma {:induction false} SetOfDistinct(s: seq<Agent>)
    requires DistinctIds(s)
    ensures |set a | a in s| == |s|
  {
    if s != [] {
      var n := |s| - 1;
      SetOfDistinct(s[..n]);
      assert (set a | a in s) == (set a | a in s[..n]) + {s[n]};
    }
  }

  lemma {:induction false} SetIsShort(s: seq<Agent>)
    ensures |set a | a in s| <= |s|
  {
    if s != [] {
      var n := |s| - 1;
      SetIsShort(s[..n]);
      assert (set a | a in s) == (set a | a in s[..n]) + {s[n]};
    }
  }

  lemma {:induction false} SubsetIsSmaller<T>(a: set<T>, b: set<T>)
    requires a <= b
    ensures |a| <= |b|
  {
    assert b == a + (b - a);
  }

  lemma {:induction false} UnrootedMeaning(agents: seq<Agent>, s: seq<Agent>)
    ensures forall a :: a in Unrooted(agents, s) <==> a in s && !Rooted(agents, a)
    ensures DistinctIds(s) ==> DistinctIds(Unrooted(agents, s))
  {
    if s != [] {
      var n := |s| - 1;
      assert s == s[..n] + [s[n]];
      UnrootedMeaning(agents, s[..n]);
      var u := Unrooted(agents, s[..n]);
      if DistinctIds(s) {
        forall i | 0 <= i < |u| ensures u[i].id != s[n].id {
          assert u[i] in s[..n];
        }
      }
    }
  }

  /** Without repetition, the same members make a permutation. */
  lemma {:induction false} SameMembersPermute(a: seq<Agent>, b: seq<Agent>)
    requires DistinctIds(a) && DistinctIds(b) && forall x :: x in a <==> x in b
    ensures multiset(a) == multiset(b)
  {
    forall x ensures multiset(a)[x] == multiset(b)[x] {
      CountOfDistinct(a, x);
      CountOfDistinct(b, x);
    }
  }

  lemma {:induction false} CountOfDistinct(s: seq<Agent>, x: Agent)
    requires DistinctIds(s)
    ensures multiset(s)[x] == if x in s then 1 else 0
  {
    if s != [] {
      var n := |s| - 1;
      assert s == s[..n] + [s[n]];
      CountOfDistinct(s[..n], x);
    }
  }

  // ------------------------------------------------------------------ the sort

  /** What holds of `sorted + queue` throughout; `done` of them have left the queue. */
  ghost predicate Bfs(agents: seq<Agent>, all: seq<Agent>, done: nat) {
    && done <= |all|
    && DistinctIds(all)
    && (forall i :: 0 <= i < |all| ==> all[i] in agents && Rooted(agents, all[i]))
    && (forall r :: r in agents && IsRoot(agents, r) ==> r in all)
    && (forall k, c :: 0 <= k < done && c in agents && IsParent(all[k], c) ==> c in all)
    && ParentsFirst(agents, all)
    && LevelOrder(agents, all)
    && (done < |all| ==> OneLevelAhead(agents, all[done], all))
  }

  /** No one in the list is more than one level below the head of the queue. */
  ghost predicate OneLevelAhead(agents: seq<Agent>, head: Agent, all: seq<Agent>) {
    forall i, m: nat, n: nat :: 0 <= i < |all| && RootedAt(agents, head, m) && RootedAt(agents, all[i], n) ==>
      n <= m + 1
  }

  function Roots(agents: seq<Agent>, s: seq<Agent>): seq<Agent> {
    if s == [] then []
    else Roots(agents, s[..|s| - 1]) + if IsRoot(agents, s[|s| - 1]) then [s[|s| - 1]] else []
  }

  /** The children of `p` in `s`, in list order. */
  function Kids(s: seq<Agent>, p: Agent): seq<Agent> {
    if s == [] then []
    else Kids(s[..|s| - 1], p) + if IsParent(p, s[|s| - 1]) then [s[|s| - 1]] else []
  }

  /** The children of each of `ps`, one after the other. */
  function KidsOf(agents: seq<Agent>, ps: seq<Agent>): seq<Agent> {
    if ps == [] then [] else KidsOf(agents, ps[..|ps| - 1]) + Kids(agents, ps[|ps| - 1])
  }

  lemma {:induction false} RootsMeaning(agents: seq<Agent>, s: seq<Agent>)
    ensures forall a :: a in Roots(agents, s) <==> a in s && IsRoot(agents, a)
    ensures DistinctIds(s) ==> DistinctIds(Roots(agents, s))
  {
    if s != [] {
      var n := |s| - 1;
      assert s == s[..n] + [s[n]];
      RootsMeaning(agents, s[..n]);
      var u := Roots(agents, s[..n]);
      if DistinctIds(s) {
        forall i | 0 <= i < |u| ensures u[i].id != s[n].id {
          assert u[i] in s[..n];
        }
      }
    }
  }

  lemma RootsAreBfs(agents: seq<Agent>)
    requires DistinctIds(agents)
    ensures Bfs(agents, Roots(agents, agents), 0)
  {
    var all := Roots(agents, agents);
    RootsMeaning(agents, agents);
    forall i | 0 <= i < |all| ensures all[i] in agents && RootedAt(agents, all[i], 0) {
      assert all[i] in all;
    }
    forall i, m: nat | 0 <= i < |all| && RootedAt(agents, all[i], m) ensures m == 0 {
      DepthIsUnique(agents, all[i], 0, m);
    }
  }

  lemma PushKeepsParents(agents: seq<Agent>, all: seq<Agent>, done: nat, c: Agent)
    requires ParentsFirst(agents, all) && done < |all| && IsParent(all[done], c)
    ensures ParentsFirst(agents, all + [c])
  {
    var all' := all + [c];
    forall i | 0 <= i < |all'| && !IsRoot(agents, all'[i])
      ensures exists j :: 0 <= j < i && IsParent(all'[j], all'[i])
    {
      if i < |all| {
        var j :| 0 <= j < i && IsParent(all[j], all[i]);
        assert IsParent(all'[j], all'[i]);
      } else {
        assert IsParent(all'[done], all'[i]);
      }
    }
  }

  lemma PushKeepsLevels(agents: seq<Agent>, all: seq<Agent>, done: nat, c: Agent)
    requires DistinctIds(agents) && LevelOrder(agents, all) && done < |all| && OneLevelAhead(agents, all[done], all)
    requires all[done] in agents && Rooted(agents, all[done]) && IsParent(all[done], c)
    ensures Rooted(agents, c) && LevelOrder(agents, all + [c]) && OneLevelAhead(agents, all[done], all + [c])
  {
    var head := all[done];
    var h: nat :| RootedAt(agents, head, h);
    ChildIsDeeper(agents, head, c, h);
    forall n: nat | RootedAt(agents, c, n) ensures n == h + 1 { DepthIsUnique(agents, c, n, h + 1); }
    forall m: nat | RootedAt(agents, head, m) ensures m == h { DepthIsUnique(agents, head, m, h); }
  }

  /** A child of the head of the queue that was not seen yet goes to the end. */
  lemma PushKeepsBfs(agents: seq<Agent>, all: seq<Agent>, done: nat, c: Agent)
    requires DistinctIds(agents) && Bfs(agents, all, done) && done < |all|
    requires c in agents && IsParent(all[done], c) && c.id !in Ids(all)
    ensures Bfs(agents, all + [c], done)
  {
    PushKeepsParents(agents, all, done, c);
    PushKeepsLevels(agents, all, done, c);
    forall i | 0 <= i < |all| ensures all[i].id != c.id { assert all[i] in all; }
  }

  /** Once all its children are in, the head leaves the queue. */
  lemma ShiftKeepsBfs(agents: seq<Agent>, all: seq<Agent>, done: nat)
    requires DistinctIds(agents) && Bfs(agents, all, done) && done < |all|
    requires forall c :: c in agents && IsParent(all[done], c) ==> c in all
    ensures Bfs(agents, all, done + 1)
  {
  }

  /** The queue is empty: the list is exactly the rooted agents. */
  lemma BfsEnd(agents: seq<Agent>, all: seq<Agent>)
    requires DistinctIds(agents) && Bfs(agents, all, |all|)
    ensures forall a :: a in agents ==> (a in all <==> Rooted(agents, a)) && (a in all <==> a.id in Ids(all))
  {
    forall a | a in agents ensures (a in all <==> Rooted(agents, a)) && (a in all <==> a.id in Ids(all)) {
      if Rooted(agents, a) {
        var n: nat :| RootedAt(agents, a, n);
        ClosedHoldsRooted(agents, all, a, n);
      }
      if a.id in Ids(all) {
        var b :| b in all && b.id == a.id;
        SameAgent(agents, a, b);
      }
    }
  }

  /**
   The result: the rooted agents, parents before children and level by level, then the
   others in their given order.  The rooted ones are the roots in list order, followed by
   the children of each of them in turn, siblings in list order.
   */
  ghost predicate TopoSorted(agents: seq<Agent>, sorted: seq<Agent>) {
    var tail := Unrooted(agents, agents);
    var n := |sorted| - |tail|;
    && n >= 0
    && sorted[n..] == tail
    && (forall a :: a in sorted[..n] <==> a in agents && Rooted(agents, a))
    && sorted[..n] == Roots(agents, agents) + KidsOf(agents, sorted[..n])
    && ParentsFirst(agents, sorted[..n])
    && LevelOrder(agents, sorted[..n])
  }

  /**
   A permutation of the agents: first the rooted ones, parents before children and level
   by level, then the others in their given order.
   */
  method TopoSort(agents: seq<Agent>) returns (sorted: seq<Agent>)
    requires DistinctIds(agents)
    ensures multiset(sorted) == multiset(agents) && DistinctIds(sorted)
    ensures TopoSorted(agents, sorted)
  {
    var visited;
    sorted, visited := Reach(agents);
    ghost var front := sorted;
    BfsEnd(agents, front);
    sorted := AppendUnvisited(agents, sorted, visited);
    assert sorted[..|front|] == front && sorted[|front|..] == Unrooted(agents, agents);
  }

  /** The queue loop: everything that can be reached from the roots. */
  method Reach(agents: seq<Agent>) returns (sorted: seq<Agent>, visited: set<string>)
    requires DistinctIds(agents)
    ensures Bfs(agents, sorted, |sorted|) && visited == Ids(sorted)
    ensures sorted == Roots(agents, agents) + KidsOf(agents, sorted)
  {
    var queue := Roots(agents, agents);
    visited := Ids(queue);
    sorted := [];
    RootsReached(agents);
    while queue != []
      invariant Reached(agents, sorted, queue, visited)
      decreases |agents| - |sorted|
    {
      BfsIsShort(agents, sorted + queue, |sorted|);
      var current := queue[0];
      queue, visited := PushChildren(agents, sorted, queue, visited);
      sorted, queue := sorted + [current], queue[1..];
    }
    AllReached(agents, sorted, visited);
  }

  lemma RootsReached(agents: seq<Agent>)
    requires DistinctIds(agents)
    ensures var queue := Roots(agents, agents); Reached(agents, [], queue, Ids(queue))
  {
    var queue := Roots(agents, agents);
    RootsAreBfs(agents);
    assert [] + queue == queue && queue + [] == queue;
  }

  lemma AllReached(agents: seq<Agent>, sorted: seq<Agent>, visited: set<string>)
    requires Reached(agents, sorted, [], visited)
    ensures Bfs(agents, sorted, |sorted|) && visited == Ids(sorted)
    ensures sorted == Roots(agents, agents) + KidsOf(agents, sorted)
  {
    assert sorted + [] == sorted;
  }

  /** What holds whenever the loop looks at its queue: `sorted` has left it. */
  ghost predicate Reached(agents: seq<Agent>, sorted: seq<Agent>, queue: seq<Agent>, visited: set<string>) {
    var all := sorted + queue;
    all == Roots(agents, agents) + KidsOf(agents, sorted) && Bfs(agents, all, |sorted|) && visited == Ids(all)
  }

  lemma BfsIsShort(agents: seq<Agent>, all: seq<Agent>, done: nat)
    requires Bfs(agents, all, done)
    ensures |all| <= |agents|
  {
    DistinctIsShort(all, agents);
  }

  /** The inner loop over all agents: the unvisited children of the head of the queue. */
  method PushChildren(agents: seq<Agent>, ghost sorted: seq<Agent>, was: seq<Agent>, seen: set<string>)
    returns (queue: seq<Agent>, visited: set<string>)
    requires DistinctIds(agents) && was != [] && Reached(agents, sorted, was, seen)
    ensures was <= queue && Reached(agents, sorted + [was[0]], queue[1..], visited)
  {
    queue, visited := ScanChildren(agents, sorted, was, seen);
    ghost var all := sorted + queue;
    assert all[|sorted|] == was[0];
    HeadDone(agents, all, |sorted|, visited);
    KidsOfNext(agents, sorted, was[0]);
    Associate(Roots(agents, agents), KidsOf(agents, sorted), Kids(agents, was[0]));
    Regroup(sorted, queue);
  }

  lemma KidsOfNext(agents: seq<Agent>, ps: seq<Agent>, p: Agent)
    ensures KidsOf(agents, ps + [p]) == KidsOf(agents, ps) + Kids(agents, p)
  {
    assert (ps + [p])[..|ps|] == ps;
  }

  method ScanChildren(agents: seq<Agent>, ghost sorted: seq<Agent>, was: seq<Agent>, seen: set<string>)
    returns (queue: seq<Agent>, visited: set<string>)
    requires DistinctIds(agents) && was != [] && Reached(agents, sorted, was, seen)
    ensures Scanned(agents, sorted, was, agents, queue, visited)
  {
    queue, visited := was, seen;
    assert sorted + was + [] == sorted + was;
    for i := 0 to |agents|
      invariant Scanned(agents, sorted, was, agents[..i], queue, visited)
    {
      var child := agents[i];
      ScanNext(agents, sorted, was, i, queue, visited);
      if IsParent(was[0], child) && child.id !in visited {
        visited := visited + {child.id};
        queue := queue + [child];
      }
    }
    assert agents[..|agents|] == agents;
  }

  /** The children of the head among `done` are in the queue and marked. */
  ghost predicate Scanned(
    agents: seq<Agent>, sorted: seq<Agent>, was: seq<Agent>, done: seq<Agent>, queue: seq<Agent>, visited: set<string>)
    requires was != []
  {
    var all := sorted + queue;
    && was <= queue && all == sorted + was + Kids(done, was[0])
    && Bfs(agents, all, |sorted|) && visited == Ids(all) && SeenChildren(was[0], done, visited)
  }

  lemma ScanNext(
    agents: seq<Agent>, sorted: seq<Agent>, was: seq<Agent>, i: nat, queue: seq<Agent>, visited: set<string>)
    requires DistinctIds(agents) && was != [] && i < |agents|
    requires sorted + was == Roots(agents, agents) + KidsOf(agents, sorted)
    requires Scanned(agents, sorted, was, agents[..i], queue, visited)
    ensures var child := agents[i];
      if IsParent(was[0], child) && child.id !in visited
      then Scanned(agents, sorted, was, agents[..i + 1], queue + [child], visited + {child.id})
      else Scanned(agents, sorted, was, agents[..i + 1], queue, visited)
  {
    var child, all := agents[i], sorted + queue;
    KidsNext(agents, was[0], i);
    if IsParent(was[0], child) {
      NotSeenYet(agents, sorted, all, was[0], i);
      PushChild(agents, all, |sorted|, child);
      Associate(sorted, queue, [child]);
      Associate(sorted + was, Kids(agents[..i], was[0]), [child]);
      SeenOneMore(was[0], agents, i, visited + {child.id});
    } else {
      SeenOneMore(was[0], agents, i, visited);
    }
  }

  lemma KidsNext(s: seq<Agent>, p: Agent, i: nat)
    requires i < |s|
    ensures Kids(s[..i + 1], p) == Kids(s[..i], p) + if IsParent(p, s[i]) then [s[i]] else []
  {
    assert s[..i + 1][..i] == s[..i];
  }

  lemma {:induction false} KidsMeaning(s: seq<Agent>, p: Agent, c: Agent)
    ensures c in Kids(s, p) <==> c in s && IsParent(p, c)
  {
    if s != [] {
      KidsMeaning(s[..|s| - 1], p, c);
      assert s == s[..|s| - 1] + [s[|s| - 1]];
    }
  }

  lemma {:induction false} KidOfSome(agents: seq<Agent>, ps: seq<Agent>, c: Agent) returns (k: nat)
    requires c in KidsOf(agents, ps)
    ensures c in agents && k < |ps| && IsParent(ps[k], c)
  {
    var n := |ps| - 1;
    KidsMeaning(agents, ps[n], c);
    if c in Kids(agents, ps[n]) {
      k := n;
    } else {
      k := KidOfSome(agents, ps[..n], c);
    }
  }

  /** A child of the head is new when its turn comes: it has one parent, and one place in the list. */
  lemma NotSeenYet(agents: seq<Agent>, sorted: seq<Agent>, all: seq<Agent>, head: Agent, i: nat)
    requires DistinctIds(agents) && Bfs(agents, all, |sorted|) && |sorted| < |all| && all[|sorted|] == head
    requires sorted == all[..|sorted|] && i < |agents| && IsParent(head, agents[i])
    requires all == Roots(agents, agents) + KidsOf(agents, sorted) + Kids(agents[..i], head)
    ensures agents[i].id !in Ids(all)
  {
    var child := agents[i];
    NotRoot(agents, head, child);
    NotKidBefore(agents, sorted, all, child);
    NotKidYet(agents, head, i);
    if child.id in Ids(all) {
      var b :| b in all && b.id == child.id;
      SameAgent(agents, b, child);
    }
  }

  lemma NotRoot(agents: seq<Agent>, head: Agent, child: Agent)
    requires head in agents && IsParent(head, child)
    ensures child !in Roots(agents, agents)
  {
    RootsMeaning(agents, agents);
    assert head.id in Ids(agents);
  }

  lemma NotKidBefore(agents: seq<Agent>, sorted: seq<Agent>, all: seq<Agent>, child: Agent)
    requires DistinctIds(all) && |sorted| < |all| && sorted == all[..|sorted|] && IsParent(all[|sorted|], child)
    ensures child !in KidsOf(agents, sorted)
  {
    if child in KidsOf(agents, sorted) {
      var k := KidOfSome(agents, sorted, child);
      assert false;
    }
  }

  lemma NotKidYet(agents: seq<Agent>, head: Agent, i: nat)
    requires DistinctIds(agents) && i < |agents|
    ensures agents[i] !in Kids(agents[..i], head)
  {
    KidsMeaning(agents[..i], head, agents[i]);
  }

  /** A root has no parent reference, an empty one, or one to an agent that is not in the list. */
  lemma RootMeaning(agents: seq<Agent>, a: Agent)
    ensures IsRoot(agents, a) <==>
            a.parent == None || a.parent == Some("") || forall b :: b in agents ==> a.parent != Some(b.id)
  {
    if HasParent(a) && a.parent.value in Ids(agents) {
      var b :| b in agents && b.id == a.parent.value;
    }
  }

  /** Roots, and the children of an agent, keep their list order. */
  lemma {:induction false} ListOrderKept(agents: seq<Agent>, a: seq<Agent>, b: seq<Agent>, p: Agent)
    ensures Roots(agents, a + b) == Roots(agents, a) + Roots(agents, b)
    ensures Kids(a + b, p) == Kids(a, p) + Kids(b, p)
  {
    if b == [] {
      assert a + b == a;
    } else {
      assert (a + b)[..|a + b| - 1] == a + b[..|b| - 1];
      ListOrderKept(agents, a, b[..|b| - 1], p);
    }
  }

  /** So do those that no chain leads out of. */
  lemma {:induction false} UnrootedKeepOrder(agents: seq<Agent>, a: seq<Agent>, b: seq<Agent>)
    ensures Unrooted(agents, a + b) == Unrooted(agents, a) + Unrooted(agents, b)
  {
    if b == [] {
      assert a + b == a;
    } else {
      assert (a + b)[..|a + b| - 1] == a + b[..|b| - 1];
      UnrootedKeepOrder(agents, a, b[..|b| - 1]);
    }
  }

  lemma PushChild(agents: seq<Agent>, all: seq<Agent>, done: nat, child: Agent)
    requires DistinctIds(agents) && Bfs(agents, all, done) && done < |all|
    requires child in agents && IsParent(all[done], child) && child.id !in Ids(all)
    ensures Bfs(agents, all + [child], done)
    ensures Ids(all + [child]) == Ids(all) + {child.id}
  {
    PushKeepsBfs(agents, all, done, child);
    IdsExtend(all, child);
  }

  lemma SeenOneMore(p: Agent, s: seq<Agent>, i: nat, visited: set<string>)
    requires i < |s| && SeenChildren(p, s[..i], visited)
    requires IsParent(p, s[i]) ==> s[i].id in visited
    ensures SeenChildren(p, s[..i + 1], visited)
  {
  }

  /** The children of `p` among `s` are marked. */
  predicate SeenChildren(p: Agent, s: seq<Agent>, visited: set<string>) {
    forall c :: c in s && IsParent(p, c) ==> c.id in visited
  }

  lemma Regroup(s: seq<Agent>, q: seq<Agent>)
    requires q != []
    ensures s + [q[0]] + q[1..] == s + q
  {
  }

  lemma Associate(a: seq<Agent>, b: seq<Agent>, c: seq<Agent>)
    ensures a + b + c == a + (b + c)
  {
  }

  lemma IdsExtend(s: seq<Agent>, a: Agent)
    ensures Ids(s + [a]) == Ids(s) + {a.id}
  {
  }

  lemma HeadDone(agents: seq<Agent>, all: seq<Agent>, done: nat, visited: set<string>)
    requires DistinctIds(agents) && Bfs(agents, all, done) && done < |all|
    requires visited == Ids(all) && SeenChildren(all[done], agents, visited)
    ensures Bfs(agents, all, done + 1)
  {
    forall c | c in agents && IsParent(all[done], c) ensures c in all {
      var b :| b in all && b.id == c.id;
      SameAgent(agents, b, c);
    }
    ShiftKeepsBfs(agents, all, done);
  }

  /** The agents that were never reached, in their given order. */
  method AppendUnvisited(agents: seq<Agent>, front: seq<Agent>, visited: set<string>) returns (sorted: seq<Agent>)
    requires DistinctIds(agents) && DistinctIds(front) && forall a :: a in front ==> a in agents
    requires forall a :: a in agents ==> (a in front <==> Rooted(agents, a)) && (a in front <==> a.id in visited)
    ensures sorted == front + Unrooted(agents, agents)
    ensures multiset(sorted) == multiset(agents) && DistinctIds(sorted)
  {
    sorted := front;
    for i := 0 to |agents|
      invariant sorted == front + Unrooted(agents, agents[..i])
    {
      assert agents[..i + 1][..i] == agents[..i];
      assert agents[i] in agents;
      if agents[i].id !in visited {
        sorted := sorted + [agents[i]];
      }
    }
    assert agents[..|agents|] == agents;
    var tail := Unrooted(agents, agents);
    UnrootedMeaning(agents, agents);
    forall i, j | 0 <= i < |front| && 0 <= j < |tail| ensures front[i].id != tail[j].id {
      assert front[i] in front && tail[j] in tail;
      DifferentAgents(agents, front[i], tail[j]);
    }
    SameMembersPermute(sorted, agents);
  }
}
