/**
 Why the activation never meets the one-root index of the seeded subaccount: in
 topological order every link is activated with its parent's link already known.  And,
 from an empty subaccount, exactly when it is refused and what hierarchy it leaves.
 */
module AgentActivationLaws {
  import opened Wrappers
  import opened AgentHierarchy
  import opened AgentActivation

  ghost predicate HasActivatedParent(cfg: Setup, s: seq<Agent>, a: Agent) {
    exists j :: 0 <= j < |s| && Activated(cfg, s[j]) && IsParent(s[j], a)
  }

  /** An activated agent none of whose activated companions is its parent. */
  ghost predicate Orphan(cfg: Setup, s: seq<Agent>, a: Agent) {
    Activated(cfg, a) && !HasActivatedParent(cfg, s, a)
  }

  /** An active link without a parent belongs to this agent row. */
  ghost predicate RootOnly(t: Table, row: string) {
    forall id :: id in t && IsActiveRoot(t[id]) ==> t[id].agentId == row
  }

  /** Distinct agents have distinct org-level rows: slugs are unique. */
  ghost predicate DistinctRows(cfg: Setup, s: seq<Agent>) {
    forall i, j :: 0 <= i < j < |s| ==> cfg.orgAgent(s[i].slug) != cfg.orgAgent(s[j].slug)
  }

  /** Whoever has an activated parent comes after it. */
  ghost predicate ParentEarlier(cfg: Setup, s: seq<Agent>) {
    forall i :: 0 <= i < |s| && Activated(cfg, s[i]) && HasActivatedParent(cfg, s, s[i]) ==>
      HasActivatedParent(cfg, s[..i], s[i])
  }

  ghost predicate OrphansOn(cfg: Setup, s: seq<Agent>, row: string) {
    forall i :: 0 <= i < |s| && Orphan(cfg, s, s[i]) ==> cfg.orgAgent(s[i].slug) == row
  }

  // ------------------------------------------------------------------ what the passes know

  /** After the first `n` agents, `links` holds exactly the activated ones, each with its row in the table. */
  ghost predicate LinkedIn(cfg: Setup, s: seq<Agent>, n: nat, links: map<string, nat>, t: Table)
    requires n <= |s|
  {
    && (forall i :: 0 <= i < n && Activated(cfg, s[i]) ==>
          s[i].id in links && links[s[i].id] in t && t[links[s[i].id]].agentId == cfg.orgAgent(s[i].slug))
    && (forall k :: k in links ==> LinkedAgent(cfg, s, n, k))
  }

  ghost predicate LinkedAgent(cfg: Setup, s: seq<Agent>, n: nat, k: string)
    requires n <= |s|
  {
    exists i :: 0 <= i < n && Activated(cfg, s[i]) && s[i].id == k
  }

  ghost predicate Linked(cfg: Setup, s: seq<Agent>, n: nat, st: State)
    requires n <= |s|
  {
    LinkedIn(cfg, s, n, st.links, st.table)
  }

  ghost predicate TableOk(st: State, row: string) {
    && st.ok
    && OneLinkPerAgent(st.table)
    && RootOnly(st.table, row)
    && (forall id :: id in st.table ==> id < st.nextId)
  }

  lemma RootOnlyFits(t: Table, row: string)
    requires OneLinkPerAgent(t) && RootOnly(t, row)
    ensures Fits(t)
  {
  }

  lemma ParentLinkMeaning(cfg: Setup, s: seq<Agent>, n: nat, st: State, a: Agent)
    requires n <= |s| && Linked(cfg, s, n, st)
    ensures ParentLink(st.links, a).Some? <==> HasActivatedParent(cfg, s[..n], a)
  {
  }

  /** A write to an existing or new link that keeps agents unique and is no stray root. */
  lemma SafeWrite(st: State, row: string, id: nat, l: Link)
    requires TableOk(st, row) && id <= st.nextId
    requires IsActiveRoot(l) ==> l.agentId == row
    requires forall k :: k in st.table && st.table[k].agentId == l.agentId ==> k == id
    ensures Write(st, id, l) == st.(table := st.table[id := l])
    ensures OneLinkPerAgent(st.table[id := l]) && RootOnly(st.table[id := l], row)
  {
  }

  // ------------------------------------------------------------------ the first pass

  lemma RefreshIsSafe(cfg: Setup, s: seq<Agent>, n: nat, st: State, row: string, l: Link)
    requires n < |s| && Linked(cfg, s, n, st) && Activated(cfg, s[n])
    requires ParentEarlier(cfg, s) && OrphansOn(cfg, s, row)
    requires l.agentId == cfg.orgAgent(s[n].slug)
    ensures IsActiveRoot(Refreshed(l, st.links, s[n])) ==> l.agentId == row
  {
  }

  /** Distinct agents keep their own links. */
  lemma LinkedAfter(cfg: Setup, s: seq<Agent>, n: nat, links: map<string, nat>, t: Table, id: nat, l: Link)
    requires n < |s| && DistinctIds(s) && DistinctRows(cfg, s) && LinkedIn(cfg, s, n, links, t)
    requires Activated(cfg, s[n]) && l.agentId == cfg.orgAgent(s[n].slug)
    requires id in t ==> t[id].agentId == l.agentId
    ensures LinkedIn(cfg, s, n + 1, links[s[n].id := id], t[id := l])
  {
  }

  lemma LinkedSkip(cfg: Setup, s: seq<Agent>, n: nat, st: State)
    requires n < |s| && Linked(cfg, s, n, st) && !Activated(cfg, s[n])
    ensures Linked(cfg, s, n + 1, st)
  {
  }

  lemma DeactivateKeeps(cfg: Setup, s: seq<Agent>, n: nat, st: State, row: string, id: nat)
    requires n < |s| && !Activated(cfg, s[n]) && id in st.table
    requires TableOk(st, row) && Linked(cfg, s, n, st)
    ensures TableOk(Deactivate(st, id), row) && Linked(cfg, s, n + 1, Deactivate(st, id))
  {
  }

  lemma RefreshKeeps(cfg: Setup, s: seq<Agent>, n: nat, st: State, row: string, id: nat)
    requires n < |s| && DistinctIds(s) && DistinctRows(cfg, s) && Activated(cfg, s[n])
    requires ParentEarlier(cfg, s) && OrphansOn(cfg, s, row)
    requires TableOk(st, row) && Linked(cfg, s, n, st)
    requires id in st.table && st.table[id].agentId == cfg.orgAgent(s[n].slug)
    ensures TableOk(Refresh(st, id, s[n]), row) && Linked(cfg, s, n + 1, Refresh(st, id, s[n]))
  {
    var l := Refreshed(st.table[id], st.links, s[n]);
    RefreshIsSafe(cfg, s, n, st, row, st.table[id]);
    SafeWrite(st, row, id, l);
    LinkedAfter(cfg, s, n, st.links, st.table, id, l);
  }

  lemma InsertKeeps(cfg: Setup, s: seq<Agent>, n: nat, st: State, row: string)
    requires n < |s| && DistinctIds(s) && DistinctRows(cfg, s) && Activated(cfg, s[n])
    requires TableOk(st, row) && Linked(cfg, s, n, st) && !HasLink(st.table, cfg.orgAgent(s[n].slug))
    ensures var st' := InsertLink(st, cfg.orgAgent(s[n].slug), s[n]); TableOk(st', row) && Linked(cfg, s, n + 1, st')
  {
    var l := Link(cfg.orgAgent(s[n].slug), false, None);
    SafeWrite(st, row, st.nextId, l);
    LinkedAfter(cfg, s, n, st.links, st.table, st.nextId, l);
  }

  lemma FirstStepKeeps(cfg: Setup, s: seq<Agent>, n: nat, st: State, row: string)
    requires n < |s| && DistinctIds(s) && DistinctRows(cfg, s)
    requires ParentEarlier(cfg, s) && OrphansOn(cfg, s, row)
    requires TableOk(st, row) && Linked(cfg, s, n, st)
    ensures var st' := FirstStep(cfg, st, s[n]); TableOk(st', row) && Linked(cfg, s, n + 1, st')
  {
    var own := cfg.orgAgent(s[n].slug);
    if !Activated(cfg, s[n]) {
      LinkedSkip(cfg, s, n, st);
      if HasLink(st.table, own) { DeactivateKeeps(cfg, s, n, st, row, LinkOf(st.table, own)); }
    } else if HasLink(st.table, own) {
      RefreshKeeps(cfg, s, n, st, row, LinkOf(st.table, own));
    } else {
      InsertKeeps(cfg, s, n, st, row);
    }
  }

  lemma {:induction false} FirstPassKeeps(cfg: Setup, s: seq<Agent>, n: nat, st: State, row: string)
    requires n <= |s| && DistinctIds(s) && DistinctRows(cfg, s)
    requires ParentEarlier(cfg, s) && OrphansOn(cfg, s, row)
    requires TableOk(st, row) && st.links == map[]
    ensures var st' := FirstPass(cfg, st, s[..n]); TableOk(st', row) && Linked(cfg, s, n, st')
  {
    ghost var inv := (k: nat, x: State) => k <= |s| && TableOk(x, row) && Linked(cfg, s, k, x);
    forall k: nat, x | k < n && inv(k, x) ensures inv(k + 1, FirstStep(cfg, x, s[k])) {
      FirstStepKeeps(cfg, s, k, x, row);
    }
    FirstPassInduction(cfg, st, s, n, inv);
  }

  // ------------------------------------------------------------------ the second pass

  lemma LinkedSameAgents(cfg: Setup, s: seq<Agent>, n: nat, st: State, id: nat, l: Link)
    requires n <= |s| && Linked(cfg, s, n, st)
    requires id in st.table && l.agentId == st.table[id].agentId
    ensures Linked(cfg, s, n, st.(table := st.table[id := l]))
  {
  }

  lemma NoStrayRoot(cfg: Setup, s: seq<Agent>, st: State, a: Agent, row: string)
    requires a in s && OrphansOn(cfg, s, row) && Activated(cfg, a) && Linked(cfg, s, |s|, st)
    ensures ParentLink(st.links, a).None? ==> cfg.orgAgent(a.slug) == row
  {
    ParentLinkMeaning(cfg, s, |s|, st, a);
    assert s[..|s|] == s;
    if ParentLink(st.links, a).None? { assert Orphan(cfg, s, a); }
  }

  lemma ActivateKeeps(cfg: Setup, s: seq<Agent>, st: State, k: nat, row: string)
    requires k < |s| && OrphansOn(cfg, s, row) && Activated(cfg, s[k])
    requires TableOk(st, row) && Linked(cfg, s, |s|, st) && s[k].id in st.links && st.links[s[k].id] in st.table
    ensures var id := st.links[s[k].id];
      var st' := Write(st, id, Link(st.table[id].agentId, true, ParentLink(st.links, s[k])));
      TableOk(st', row) && Linked(cfg, s, |s|, st')
  {
    var id := st.links[s[k].id];
    var l := Link(st.table[id].agentId, true, ParentLink(st.links, s[k]));
    NoStrayRoot(cfg, s, st, s[k], row);
    SafeWrite(st, row, id, l);
    LinkedSameAgents(cfg, s, |s|, st, id, l);
  }

  lemma SecondStepKeeps(cfg: Setup, s: seq<Agent>, st: State, k: nat, row: string)
    requires k < |s| && DistinctIds(s) && OrphansOn(cfg, s, row)
    requires TableOk(st, row) && Linked(cfg, s, |s|, st)
    ensures var st' := SecondStep(st, s[k]); TableOk(st', row) && Linked(cfg, s, |s|, st')
  {
    if s[k].id in st.links && st.links[s[k].id] in st.added && st.links[s[k].id] in st.table {
      UnlinkedUnlessActivated(cfg, s, k, st);
      ActivateKeeps(cfg, s, st, k, row);
    }
  }

  lemma {:induction false} SecondPassKeeps(cfg: Setup, s: seq<Agent>, n: nat, st: State, row: string)
    requires n <= |s| && DistinctIds(s) && OrphansOn(cfg, s, row)
    requires TableOk(st, row) && Linked(cfg, s, |s|, st)
    ensures var st' := SecondPass(st, s[..n]); TableOk(st', row) && Linked(cfg, s, |s|, st')
  {
    ghost var inv := (k: nat, x: State) => TableOk(x, row) && Linked(cfg, s, |s|, x);
    forall k: nat, x | k < n && inv(k, x) ensures inv(k + 1, SecondStep(x, s[k])) {
      SecondStepKeeps(cfg, s, x, k, row);
    }
    SecondPassInduction(st, s, n, inv);
  }

  // ------------------------------------------------------------------ safety of the whole activation

  /** In sorted order, an agent whose chain reaches a root comes after its parent. */
  lemma SortedParent(agents: seq<Agent>, s: seq<Agent>, i: nat, b: nat)
    requires DistinctIds(s) && TopoSorted(agents, s) && forall a :: a in s <==> a in agents
    requires i < |s| && b < |s| && IsParent(s[b], s[i]) && Rooted(agents, s[i])
    ensures b < i
  {
    var front := s[..|s| - |Unrooted(agents, agents)|];
    assert s[i] in front;
    var k :| 0 <= k < |front| && front[k] == s[i];
    assert k == i;
    assert s[b] in s && s[b].id in Ids(agents);
    var j :| 0 <= j < i && IsParent(front[j], front[i]);
    assert s[j].id == s[b].id;
  }

  /** The sort delivers what the passes rely on. */
  lemma SortGivesParentEarlier(cfg: Setup, agents: seq<Agent>, s: seq<Agent>)
    requires DistinctIds(agents) && DistinctIds(s) && TopoSorted(agents, s)
    requires forall a :: a in s <==> a in agents
    requires forall a :: a in agents && Activated(cfg, a) ==> Rooted(agents, a)
    ensures ParentEarlier(cfg, s)
  {
    forall i | 0 <= i < |s| && Activated(cfg, s[i]) && HasActivatedParent(cfg, s, s[i])
      ensures HasActivatedParent(cfg, s[..i], s[i])
    {
      var b :| 0 <= b < |s| && Activated(cfg, s[b]) && IsParent(s[b], s[i]);
      assert s[i] in agents;
      SortedParent(agents, s, i, b);
      assert s[..i][b] == s[b];
    }
  }

  /**
   With the agents in sorted order, every activated chain reaching a root, one agent row
   that all orphans share, and a table whose active roots are that row's: no write of
   either pass is refused, and after every one of them the only active link without a
   parent is the root's.
   */
  lemma SubaccountNeverRefused(
    cfg: Setup, t: Table, nextId: nat, agents: seq<Agent>, s: seq<Agent>, row: string, n: nat)
    requires DistinctIds(agents) && DistinctIds(s) && TopoSorted(agents, s)
    requires forall a :: a in s <==> a in agents
    requires forall a :: a in agents && Activated(cfg, a) ==> Rooted(agents, a)
    requires DistinctRows(cfg, s) && OrphansOn(cfg, s, row)
    requires OneLinkPerAgent(t) && RootOnly(t, row) && forall id :: id in t ==> id < nextId
    requires n <= |s|
    ensures var st1 := FirstPass(cfg, Start(t, nextId), s[..n]); st1.ok && Fits(st1.table) && RootOnly(st1.table, row)
    ensures var st2 := SecondPass(FirstPass(cfg, Start(t, nextId), s), s[..n]);
      st2.ok && Fits(st2.table) && RootOnly(st2.table, row)
    ensures ActivateHere(cfg, t, nextId, s).ok
  {
    SortGivesParentEarlier(cfg, agents, s);
    var start := Start(t, nextId);
    FirstPassKeeps(cfg, s, n, start, row);
    RootOnlyFits(FirstPass(cfg, start, s[..n]).table, row);
    FirstPassKeeps(cfg, s, |s|, start, row);
    assert s[..|s|] == s;
    var mid := FirstPass(cfg, start, s);
    SecondPassKeeps(cfg, s, n, mid, row);
    RootOnlyFits(SecondPass(mid, s[..n]).table, row);
    SecondPassKeeps(cfg, s, |s|, mid, row);
  }

  /**
   Why the order matters: refreshing a link that lacks its parent, before the parent has
   a link, activates it as a second root, and the database refuses it.
   */
  lemma RefreshBeforeParentRefused(cfg: Setup, st: State, a: Agent, root: nat)
    requires st.ok && Activated(cfg, a) && HasParent(a) && a.parent.value !in st.links
    requires OneLinkPerAgent(st.table) && HasLink(st.table, cfg.orgAgent(a.slug))
    requires st.table[LinkOf(st.table, cfg.orgAgent(a.slug))].parent.None?
    requires root in st.table && IsActiveRoot(st.table[root]) && st.table[root].agentId != cfg.orgAgent(a.slug)
    ensures !FirstStep(cfg, st, a).ok
  {
    var id := LinkOf(st.table, cfg.orgAgent(a.slug));
    var t := st.table[id := Refreshed(st.table[id], st.links, a)];
    assert IsActiveRoot(t[id]) && IsActiveRoot(t[root]) && id != root;
  }

  // ------------------------------------------------------------------ an empty subaccount, exactly

  /** After the first pass over an empty table: an inactive link for each activated agent, and nothing else. */
  ghost predicate Blank(cfg: Setup, s: seq<Agent>, n: nat, st: State)
    requires n <= |s|
  {
    && st.ok && Linked(cfg, s, n, st) && st.added == st.table.Keys
    && (forall id :: id in st.table ==> id < st.nextId && !st.table[id].isActive)
    && AllOwned(cfg, s, n, st.links, st.table)
  }

  ghost predicate Owned(cfg: Setup, s: seq<Agent>, n: nat, links: map<string, nat>, id: nat)
    requires n <= |s|
  {
    exists i :: IsLinkOf(cfg, s, n, links, i, id)
  }

  /** Row `id` is the link of the `i`-th agent. */
  ghost predicate IsLinkOf(cfg: Setup, s: seq<Agent>, n: nat, links: map<string, nat>, i: int, id: nat)
    requires n <= |s|
  {
    0 <= i < n && Activated(cfg, s[i]) && s[i].id in links && links[s[i].id] == id
  }

  /** The agent whose link a row is. */
  lemma OwnerOf(cfg: Setup, s: seq<Agent>, n: nat, st: State, id: nat) returns (i: nat)
    requires n <= |s| && Blank(cfg, s, n, st) && id in st.table
    ensures i < n && Activated(cfg, s[i]) && s[i].id in st.links && st.links[s[i].id] == id
    ensures st.table[id].agentId == cfg.orgAgent(s[i].slug)
  {
    assert Owned(cfg, s, n, st.links, id);
    i :| IsLinkOf(cfg, s, n, st.links, i, id);
  }

  lemma BlankFits(cfg: Setup, s: seq<Agent>, n: nat, st: State)
    requires n <= |s| && DistinctRows(cfg, s) && Blank(cfg, s, n, st)
    ensures OneLinkPerAgent(st.table)
  {
  }

  lemma BlankHasNoLater(cfg: Setup, s: seq<Agent>, n: nat, st: State)
    requires n < |s| && DistinctRows(cfg, s) && Blank(cfg, s, n, st)
    ensures !HasLink(st.table, cfg.orgAgent(s[n].slug))
  {
  }

  lemma {:induction false} FirstPassBlank(cfg: Setup, s: seq<Agent>, n: nat, nextId: nat)
    requires n <= |s| && DistinctIds(s) && DistinctRows(cfg, s)
    ensures Blank(cfg, s, n, FirstPass(cfg, Start(map[], nextId), s[..n]))
  {
    if n > 0 {
      FirstPassLast(cfg, Start(map[], nextId), s, n);
      FirstPassBlank(cfg, s, n - 1, nextId);
      FirstStepBlank(cfg, s, n - 1, FirstPass(cfg, Start(map[], nextId), s[..n - 1]));
    }
  }

  lemma OwnedNext(cfg: Setup, s: seq<Agent>, n: nat, links: map<string, nat>, links': map<string, nat>, id: nat)
    requires n < |s| && DistinctIds(s) && Owned(cfg, s, n, links, id)
    requires forall k :: k in links && k != s[n].id ==> k in links' && links'[k] == links[k]
    ensures Owned(cfg, s, n + 1, links', id)
  {
    var i :| IsLinkOf(cfg, s, n, links, i, id);
    assert s[i].id != s[n].id;
    assert IsLinkOf(cfg, s, n + 1, links', i, id);
  }

  lemma InsertGoesThrough(st: State, row: string, a: Agent)
    requires st.ok && OneLinkPerAgent(st.table) && !HasLink(st.table, row)
    requires forall id :: id in st.table ==> !st.table[id].isActive
    ensures InsertLink(st, row, a) ==
      State(st.table[st.nextId := Link(row, false, None)], st.links[a.id := st.nextId],
            st.added + {st.nextId}, st.nextId + 1, true)
  {
  }

  ghost predicate AllOwned(cfg: Setup, s: seq<Agent>, n: nat, links: map<string, nat>, t: Table)
    requires n <= |s|
  {
    forall id :: id in t ==> Owned(cfg, s, n, links, id)
  }

  lemma AllOwnedAfter(cfg: Setup, s: seq<Agent>, n: nat, links: map<string, nat>, t: Table, id: nat, l: Link)
    requires n < |s| && DistinctIds(s) && Activated(cfg, s[n]) && AllOwned(cfg, s, n, links, t)
    ensures AllOwned(cfg, s, n + 1, links[s[n].id := id], t[id := l])
  {
    var links', t' := links[s[n].id := id], t[id := l];
    forall k | k in t' ensures Owned(cfg, s, n + 1, links', k) {
      if k == id {
        assert IsLinkOf(cfg, s, n + 1, links', n, k);
      } else {
        assert Owned(cfg, s, n, links, k);
        OwnedNext(cfg, s, n, links, links', k);
      }
    }
  }

  lemma InsertedIsBlank(cfg: Setup, s: seq<Agent>, n: nat, st: State, l: Link)
    requires n < |s| && Blank(cfg, s, n, st) && !l.isActive
    requires LinkedIn(cfg, s, n + 1, st.links[s[n].id := st.nextId], st.table[st.nextId := l])
    requires AllOwned(cfg, s, n + 1, st.links[s[n].id := st.nextId], st.table[st.nextId := l])
    ensures Blank(cfg, s, n + 1,
      State(st.table[st.nextId := l], st.links[s[n].id := st.nextId], st.added + {st.nextId}, st.nextId + 1, true))
  {
  }

  lemma NextIdIsNew(cfg: Setup, s: seq<Agent>, n: nat, st: State)
    requires n <= |s| && Blank(cfg, s, n, st)
    ensures st.nextId !in st.table
  {
  }

  lemma InsertBlank(cfg: Setup, s: seq<Agent>, n: nat, st: State)
    requires n < |s| && DistinctIds(s) && DistinctRows(cfg, s) && Blank(cfg, s, n, st) && Activated(cfg, s[n])
    ensures Blank(cfg, s, n + 1, InsertLink(st, cfg.orgAgent(s[n].slug), s[n]))
  {
    BlankFits(cfg, s, n, st);
    BlankHasNoLater(cfg, s, n, st);
    var l := Link(cfg.orgAgent(s[n].slug), false, None);
    InsertGoesThrough(st, l.agentId, s[n]);
    NextIdIsNew(cfg, s, n, st);
    LinkedAfter(cfg, s, n, st.links, st.table, st.nextId, l);
    AllOwnedAfter(cfg, s, n, st.links, st.table, st.nextId, l);
    InsertedIsBlank(cfg, s, n, st, l);
  }

  lemma FirstStepBlank(cfg: Setup, s: seq<Agent>, n: nat, st: State)
    requires n < |s| && DistinctIds(s) && DistinctRows(cfg, s) && Blank(cfg, s, n, st)
    ensures Blank(cfg, s, n + 1, FirstStep(cfg, st, s[n]))
  {
    BlankHasNoLater(cfg, s, n, st);
    if Activated(cfg, s[n]) {
      InsertBlank(cfg, s, n, st);
    } else {
      assert FirstStep(cfg, st, s[n]) == st;
      LinkedSkip(cfg, s, n, st);
      forall id | id in st.table ensures Owned(cfg, s, n + 1, st.links, id) {
        OwnedNext(cfg, s, n, st.links, st.links, id);
      }
    }
  }

  /** The row the hierarchy asks for. */
  function Mirrored(cfg: Setup, links: map<string, nat>, a: Agent): Link {
    Link(cfg.orgAgent(a.slug), true, ParentLink(links, a))
  }

  /** After the second pass over the first `n` agents: their rows mirror the hierarchy, the others are untouched. */
  ghost predicate Half(cfg: Setup, s: seq<Agent>, n: nat, mid: State, st: State)
    requires n <= |s|
  {
    && st == mid.(table := st.table) && st.table.Keys == mid.table.Keys
    && forall i :: 0 <= i < |s| && Activated(cfg, s[i]) ==>
         s[i].id in mid.links && mid.links[s[i].id] in st.table
         && st.table[mid.links[s[i].id]] ==
              if i < n then Mirrored(cfg, mid.links, s[i]) else mid.table[mid.links[s[i].id]]
  }

  ghost predicate AtMostOneOrphan(cfg: Setup, s: seq<Agent>, n: nat)
    requires n <= |s|
  {
    forall i, j :: 0 <= i < j < n ==> !(Orphan(cfg, s, s[i]) && Orphan(cfg, s, s[j]))
  }

  lemma BlankLinksDiffer(cfg: Setup, s: seq<Agent>, mid: State, i: nat, j: nat)
    requires DistinctIds(s) && DistinctRows(cfg, s) && Blank(cfg, s, |s|, mid)
    requires i < |s| && j < |s| && i != j && Activated(cfg, s[i]) && Activated(cfg, s[j])
    ensures mid.links[s[i].id] != mid.links[s[j].id]
  {
  }

  /** In the half-done table, an active root is the link of an orphan among the first `n`. */
  lemma RootsAreOrphans(cfg: Setup, s: seq<Agent>, n: nat, mid: State, st: State, i: nat)
    requires n <= |s| && i < |s| && Blank(cfg, s, |s|, mid) && Half(cfg, s, n, mid, st)
    requires Activated(cfg, s[i])
    ensures IsActiveRoot(st.table[mid.links[s[i].id]]) <==> i < n && Orphan(cfg, s, s[i])
  {
    ParentLinkMeaning(cfg, s, |s|, mid, s[i]);
    assert s[..|s|] == s;
  }

  lemma HalfKeepsAgents(cfg: Setup, s: seq<Agent>, n: nat, mid: State, st: State)
    requires n <= |s| && DistinctRows(cfg, s) && Blank(cfg, s, |s|, mid) && Half(cfg, s, n, mid, st)
    ensures OneLinkPerAgent(st.table)
  {
    forall x, y | x in st.table && y in st.table && st.table[x].agentId == st.table[y].agentId ensures x == y {
      var i := OwnerOf(cfg, s, |s|, mid, x);
      var j := OwnerOf(cfg, s, |s|, mid, y);
      assert st.table[x].agentId == cfg.orgAgent(s[i].slug) && st.table[y].agentId == cfg.orgAgent(s[j].slug);
      assert i == j;
    }
  }

  lemma TwoOrphansClash(cfg: Setup, s: seq<Agent>, n: nat, mid: State, st: State)
    requires n <= |s| && DistinctIds(s) && DistinctRows(cfg, s)
    requires Blank(cfg, s, |s|, mid) && Half(cfg, s, n, mid, st) && !AtMostOneOrphan(cfg, s, n)
    ensures !OneRoot(st.table)
  {
    var i, j :| 0 <= i < j < n && Orphan(cfg, s, s[i]) && Orphan(cfg, s, s[j]);
    RootsAreOrphans(cfg, s, n, mid, st, i);
    RootsAreOrphans(cfg, s, n, mid, st, j);
    BlankLinksDiffer(cfg, s, mid, i, j);
  }

  lemma OneOrphanIsFine(cfg: Setup, s: seq<Agent>, n: nat, mid: State, st: State)
    requires n <= |s| && Blank(cfg, s, |s|, mid) && Half(cfg, s, n, mid, st) && AtMostOneOrphan(cfg, s, n)
    ensures OneRoot(st.table)
  {
    forall x, y | x in st.table && y in st.table && IsActiveRoot(st.table[x]) && IsActiveRoot(st.table[y])
      ensures x == y
    {
      var i := OwnerOf(cfg, s, |s|, mid, x);
      var j := OwnerOf(cfg, s, |s|, mid, y);
      RootsAreOrphans(cfg, s, n, mid, st, i);
      RootsAreOrphans(cfg, s, n, mid, st, j);
      assert i == j;
    }
  }

  lemma HalfFits(cfg: Setup, s: seq<Agent>, n: nat, mid: State, st: State)
    requires n <= |s| && DistinctIds(s) && DistinctRows(cfg, s)
    requires Blank(cfg, s, |s|, mid) && Half(cfg, s, n, mid, st)
    ensures Fits(st.table) <==> AtMostOneOrphan(cfg, s, n)
  {
    HalfKeepsAgents(cfg, s, n, mid, st);
    if AtMostOneOrphan(cfg, s, n) {
      OneOrphanIsFine(cfg, s, n, mid, st);
    } else {
      TwoOrphansClash(cfg, s, n, mid, st);
    }
  }

  /** The second pass over the first `n` agents ended in `st`: it went through as it should, or was refused. */
  ghost predicate Exact(cfg: Setup, s: seq<Agent>, n: nat, mid: State, st: State)
    requires n <= |s|
  {
    (st.ok <==> AtMostOneOrphan(cfg, s, n)) && (st.ok ==> Half(cfg, s, n, mid, st))
  }

  lemma StartIsExact(cfg: Setup, s: seq<Agent>, mid: State)
    requires Blank(cfg, s, |s|, mid)
    ensures Exact(cfg, s, 0, mid, mid)
  {
  }

  lemma RefusedStaysExact(cfg: Setup, s: seq<Agent>, n: nat, mid: State, st: State)
    requires n < |s| && Exact(cfg, s, n, mid, st) && !st.ok
    ensures Exact(cfg, s, n + 1, mid, SecondStep(st, s[n]))
  {
  }

  ghost function ExactAt(cfg: Setup, s: seq<Agent>, mid: State): (nat, State) -> bool {
    (k: nat, x: State) => k <= |s| && Exact(cfg, s, k, mid, x)
  }

  lemma ExactSteps(cfg: Setup, s: seq<Agent>, mid: State)
    requires DistinctIds(s) && DistinctRows(cfg, s) && Blank(cfg, s, |s|, mid)
    ensures forall k: nat, x :: k < |s| && ExactAt(cfg, s, mid)(k, x) ==>
      ExactAt(cfg, s, mid)(k + 1, SecondStep(x, s[k]))
  {
    forall k: nat, x | k < |s| && Exact(cfg, s, k, mid, x) ensures Exact(cfg, s, k + 1, mid, SecondStep(x, s[k])) {
      ExactStep(cfg, s, k, mid, x);
    }
  }

  lemma SecondPassExact(cfg: Setup, s: seq<Agent>, n: nat, mid: State)
    requires n <= |s| && DistinctIds(s) && DistinctRows(cfg, s) && Blank(cfg, s, |s|, mid)
    ensures Exact(cfg, s, n, mid, SecondPass(mid, s[..n]))
  {
    StartIsExact(cfg, s, mid);
    ExactSteps(cfg, s, mid);
    SecondPassInduction(mid, s, n, ExactAt(cfg, s, mid));
  }

  lemma ExactStep(cfg: Setup, s: seq<Agent>, n: nat, mid: State, st: State)
    requires n < |s| && DistinctIds(s) && DistinctRows(cfg, s) && Blank(cfg, s, |s|, mid)
    requires Exact(cfg, s, n, mid, st)
    ensures Exact(cfg, s, n + 1, mid, SecondStep(st, s[n]))
  {
    if st.ok {
      SecondStepExact(cfg, s, n, mid, st);
    } else {
      RefusedStaysExact(cfg, s, n, mid, st);
    }
  }

  lemma MirrorOneMore(cfg: Setup, s: seq<Agent>, n: nat, mid: State, st: State)
    requires n < |s| && DistinctIds(s) && DistinctRows(cfg, s) && Blank(cfg, s, |s|, mid)
    requires Half(cfg, s, n, mid, st) && Activated(cfg, s[n])
    ensures Half(cfg, s, n + 1, mid, st.(table := st.table[mid.links[s[n].id] := Mirrored(cfg, mid.links, s[n])]))
  {
    forall i | 0 <= i < |s| && Activated(cfg, s[i]) && i != n ensures mid.links[s[i].id] != mid.links[s[n].id] {
      BlankLinksDiffer(cfg, s, mid, i, n);
    }
    HalfWrite(cfg, s, n, mid, st);
  }

  lemma HalfWrite(cfg: Setup, s: seq<Agent>, n: nat, mid: State, st: State)
    requires n < |s| && Half(cfg, s, n, mid, st) && Activated(cfg, s[n])
    requires forall i :: 0 <= i < |s| && Activated(cfg, s[i]) && i != n ==> mid.links[s[i].id] != mid.links[s[n].id]
    ensures Half(cfg, s, n + 1, mid, st.(table := st.table[mid.links[s[n].id] := Mirrored(cfg, mid.links, s[n])]))
  {
  }

  /** For an activated agent, the second pass writes the row the hierarchy asks for. */
  lemma WriteMirrors(cfg: Setup, s: seq<Agent>, n: nat, mid: State, st: State)
    requires n < |s| && Blank(cfg, s, |s|, mid) && st.ok && Half(cfg, s, n, mid, st) && Activated(cfg, s[n])
    ensures SecondStep(st, s[n]) == Write(st, mid.links[s[n].id], Mirrored(cfg, mid.links, s[n]))
  {
  }

  lemma NoOrphanSkipped(cfg: Setup, s: seq<Agent>, n: nat)
    requires n < |s| && !Activated(cfg, s[n])
    ensures AtMostOneOrphan(cfg, s, n) <==> AtMostOneOrphan(cfg, s, n + 1)
  {
  }

  lemma HalfSkips(cfg: Setup, s: seq<Agent>, n: nat, mid: State, st: State)
    requires n < |s| && Half(cfg, s, n, mid, st) && !Activated(cfg, s[n])
    ensures Half(cfg, s, n + 1, mid, st)
  {
  }

  lemma UnlinkedIsSkipped(cfg: Setup, s: seq<Agent>, n: nat, mid: State, st: State)
    requires n < |s| && DistinctIds(s) && Blank(cfg, s, |s|, mid) && Half(cfg, s, n, mid, st) && !Activated(cfg, s[n])
    ensures SecondStep(st, s[n]) == st
  {
    UnlinkedUnlessActivated(cfg, s, n, mid);
    assert s[n].id !in st.links;
  }

  lemma SecondStepExact(cfg: Setup, s: seq<Agent>, n: nat, mid: State, st: State)
    requires n < |s| && DistinctIds(s) && DistinctRows(cfg, s) && Blank(cfg, s, |s|, mid)
    requires st.ok && Half(cfg, s, n, mid, st) && AtMostOneOrphan(cfg, s, n)
    ensures Exact(cfg, s, n + 1, mid, SecondStep(st, s[n]))
  {
    if Activated(cfg, s[n]) {
      var st' := st.(table := st.table[mid.links[s[n].id] := Mirrored(cfg, mid.links, s[n])]);
      MirrorOneMore(cfg, s, n, mid, st);
      HalfFits(cfg, s, n + 1, mid, st');
      WriteMirrors(cfg, s, n, mid, st);
    } else {
      NoOrphanSkipped(cfg, s, n);
      UnlinkedIsSkipped(cfg, s, n, mid, st);
      HalfSkips(cfg, s, n, mid, st);
    }
  }

  lemma UnlinkedUnlessActivated(cfg: Setup, s: seq<Agent>, k: nat, st: State)
    requires k < |s| && DistinctIds(s) && Linked(cfg, s, |s|, st)
    ensures s[k].id in st.links ==>
      Activated(cfg, s[k]) && st.table[st.links[s[k].id]].agentId == cfg.orgAgent(s[k].slug)
  {
  }

  /** Every activated agent has the row the hierarchy asks for, on top just when it is an orphan. */
  ghost predicate Mirrors(cfg: Setup, s: seq<Agent>, st: State) {
    forall i :: 0 <= i < |s| && Activated(cfg, s[i]) ==>
      && s[i].id in st.links && st.links[s[i].id] in st.table
      && st.table[st.links[s[i].id]] == Mirrored(cfg, st.links, s[i])
      && (ParentLink(st.links, s[i]).None? <==> Orphan(cfg, s, s[i]))
  }

  /**
   From an empty subaccount, in whatever order the agents come: the activation goes
   through exactly when at most one activated agent is without an activated parent; and
   then each activated agent has an active link whose parent is the link of its parent,
   or none when that is not activated.
   */
  lemma EmptySubaccountExact(cfg: Setup, nextId: nat, s: seq<Agent>)
    requires DistinctIds(s) && DistinctRows(cfg, s)
    ensures var st := ActivateHere(cfg, map[], nextId, s);
      && (st.ok <==> AtMostOneOrphan(cfg, s, |s|))
      && (st.ok ==> Mirrors(cfg, s, st))
  {
    FirstPassBlank(cfg, s, |s|, nextId);
    assert s[..|s|] == s;
    var mid := FirstPass(cfg, Start(map[], nextId), s);
    SecondPassExact(cfg, s, |s|, mid);
    var st := SecondPass(mid, s);
    if st.ok { HalfMirrors(cfg, s, mid, st); }
  }

  lemma HalfMirrors(cfg: Setup, s: seq<Agent>, mid: State, st: State)
    requires Linked(cfg, s, |s|, mid) && Half(cfg, s, |s|, mid, st)
    ensures Mirrors(cfg, s, st)
  {
    assert s[..|s|] == s;
    forall i | 0 <= i < |s| && Activated(cfg, s[i])
      ensures ParentLink(mid.links, s[i]).None? <==> Orphan(cfg, s, s[i])
    {
      ParentLinkMeaning(cfg, s, |s|, mid, s[i]);
    }
  }
}
