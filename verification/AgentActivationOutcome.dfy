/**
 What the activation leaves: every row of the final table, from any table it may start
 from; and that seeding again, in whatever order, changes nothing.
 */
module AgentActivationOutcome {
  import opened Wrappers
  import opened AgentHierarchy
  import opened AgentActivation
  import opened AgentActivationLaws

  /** None of the first `n` agents owns the row. */
  ghost predicate Foreign(cfg: Setup, s: seq<Agent>, n: nat, agentId: string)
    requires n <= |s|
  {
    forall i :: 0 <= i < n && s[i].slug !in cfg.customSlugs ==> cfg.orgAgent(s[i].slug) != agentId
  }

  function Inserted(cfg: Setup, a: Agent): Link { Link(cfg.orgAgent(a.slug), false, None) }

  // ------------------------------------------------------------------ the first pass, row by row

  /** After the first `n` agents, from the table `t0`. */
  ghost predicate Passed(cfg: Setup, s: seq<Agent>, n: nat, t0: Table, st: State)
    requires n <= |s|
  {
    && LinkedIn(cfg, s, n, st.links, st.table)
    && LinkedRows(cfg, s, n, t0, st)
    && OwnedRows(cfg, s, n, st.links, st.added)
    && RowsKept(cfg, s, n, t0, st)
  }

  ghost predicate OwnedRows(cfg: Setup, s: seq<Agent>, n: nat, links: map<string, nat>, added: set<nat>)
    requires n <= |s|
  {
    forall id :: id in added ==> Owned(cfg, s, n, links, id)
  }

  /** The rows from before are there, beside those that were inserted. */
  ghost predicate RowsKept(cfg: Setup, s: seq<Agent>, n: nat, t0: Table, st: State)
    requires n <= |s|
  {
    && st.table.Keys == t0.Keys + st.added && st.added !! t0.Keys
    && (forall id :: id in t0 ==> st.table[id].agentId == t0[id].agentId)
    && OtherRows(cfg, s, n, t0, st.table)
  }

  ghost predicate LinkedRows(cfg: Setup, s: seq<Agent>, n: nat, t0: Table, st: State)
    requires n <= |s| && LinkedIn(cfg, s, n, st.links, st.table)
  {
    forall i :: 0 <= i < n && Activated(cfg, s[i]) ==>
      st.table[st.links[s[i].id]] == FirstRow(cfg, t0, st.links, s[i], st.links[s[i].id])
  }

  function FirstRow(cfg: Setup, t0: Table, links: map<string, nat>, a: Agent, id: nat): Link {
    if id in t0 then Refreshed(t0[id], links, a) else Inserted(cfg, a)
  }

  /** Rows of org-scoped agents are switched off, and rows of no agent are as they were. */
  ghost predicate OtherRows(cfg: Setup, s: seq<Agent>, n: nat, t0: Table, t: Table)
    requires n <= |s| && t0.Keys <= t.Keys
  {
    && (forall id, i :: id in t0 && 0 <= i < n && OrgScoped(cfg, s[i]) && t0[id].agentId == cfg.orgAgent(s[i].slug)
          ==> t[id] == t0[id].(isActive := false))
    && (forall id :: id in t0 && Foreign(cfg, s, n, t0[id].agentId) ==> t[id] == t0[id])
  }

  /** Linking one more agent does not give an earlier one its parent: that was there already. */
  lemma ParentLinkStable(cfg: Setup, s: seq<Agent>, n: nat, links: map<string, nat>, i: nat, id: nat)
    requires i <= n < |s| && DistinctIds(s) && ParentEarlier(cfg, s) && Activated(cfg, s[i]) && Activated(cfg, s[n])
    ensures ParentLink(links[s[n].id := id], s[i]) == ParentLink(links, s[i])
  {
    if IsParent(s[n], s[i]) { assert false; }
  }

  /** The row of the next agent is not one that was inserted for an earlier agent. */
  lemma NextRowIsOld(cfg: Setup, s: seq<Agent>, n: nat, t0: Table, st: State, id: nat)
    requires n < |s| && DistinctRows(cfg, s) && Passed(cfg, s, n, t0, st)
    requires id in st.table && st.table[id].agentId == cfg.orgAgent(s[n].slug)
    ensures id in t0 && st.table[id] == t0[id] && id !in st.added
  {
    if id in st.added { assert false; }
    assert Foreign(cfg, s, n, t0[id].agentId);
  }

  /** Writing the row of an agent leaves the rows of others as they were. */
  lemma OtherRowsWrite(cfg: Setup, s: seq<Agent>, n: nat, t0: Table, t: Table, id: nat, l: Link)
    requires n < |s| && DistinctRows(cfg, s) && s[n].slug !in cfg.customSlugs
    requires t0.Keys <= t.Keys && OtherRows(cfg, s, n, t0, t)
    requires forall k :: k in t0 ==> (t0[k].agentId == cfg.orgAgent(s[n].slug) <==> k == id)
    requires OrgScoped(cfg, s[n]) && id in t0 ==> l == t0[id].(isActive := false)
    ensures OtherRows(cfg, s, n + 1, t0, t[id := l])
  {
    forall k | k in t0 && Foreign(cfg, s, n + 1, t0[k].agentId) ensures t[id := l][k] == t0[k] {
      assert Foreign(cfg, s, n, t0[k].agentId);
    }
  }

  /** The row of an earlier agent does not change when the next one gets its link. */
  lemma LinkedRowStays(
    cfg: Setup, s: seq<Agent>, n: nat, t0: Table, links: map<string, nat>, t: Table, i: nat, id: nat, l: Link)
    requires i < n < |s| && DistinctIds(s) && DistinctRows(cfg, s) && ParentEarlier(cfg, s)
    requires Activated(cfg, s[i]) && Activated(cfg, s[n]) && LinkedIn(cfg, s, n, links, t)
    requires id in t ==> t[id].agentId == cfg.orgAgent(s[n].slug)
    requires t[links[s[i].id]] == FirstRow(cfg, t0, links, s[i], links[s[i].id])
    ensures var links', t' := links[s[n].id := id], t[id := l];
      t'[links'[s[i].id]] == FirstRow(cfg, t0, links', s[i], links'[s[i].id])
  {
    LinkStays(cfg, s, n, links, t, i, id);
    SameFirstRow(cfg, s, n, t0, links, i, id, links[s[i].id]);
  }

  lemma LinkedRowsWrite(cfg: Setup, s: seq<Agent>, n: nat, t0: Table, st: State, st': State, id: nat, l: Link)
    requires n < |s| && DistinctIds(s) && DistinctRows(cfg, s) && ParentEarlier(cfg, s) && Activated(cfg, s[n])
    requires LinkedIn(cfg, s, n, st.links, st.table) && LinkedRows(cfg, s, n, t0, st)
    requires id in st.table ==> st.table[id].agentId == cfg.orgAgent(s[n].slug)
    requires st'.links == st.links[s[n].id := id] && st'.table == st.table[id := l]
    requires l == FirstRow(cfg, t0, st.links, s[n], id)
    requires LinkedIn(cfg, s, n + 1, st'.links, st'.table)
    ensures LinkedRows(cfg, s, n + 1, t0, st')
  {
    forall i | 0 <= i < n && Activated(cfg, s[i])
      ensures st'.table[st'.links[s[i].id]] == FirstRow(cfg, t0, st'.links, s[i], st'.links[s[i].id])
    {
      LinkedRowStays(cfg, s, n, t0, st.links, st.table, i, id, l);
    }
    SameFirstRow(cfg, s, n, t0, st.links, n, id, id);
  }

  lemma SameFirstRow(cfg: Setup, s: seq<Agent>, n: nat, t0: Table, links: map<string, nat>, i: nat, id: nat, k: nat)
    requires i <= n < |s| && DistinctIds(s) && ParentEarlier(cfg, s) && Activated(cfg, s[i]) && Activated(cfg, s[n])
    ensures FirstRow(cfg, t0, links[s[n].id := id], s[i], k) == FirstRow(cfg, t0, links, s[i], k)
  {
    ParentLinkStable(cfg, s, n, links, i, id);
  }

  lemma LinkStays(cfg: Setup, s: seq<Agent>, n: nat, links: map<string, nat>, t: Table, i: nat, id: nat)
    requires i < n < |s| && DistinctIds(s) && DistinctRows(cfg, s) && LinkedIn(cfg, s, n, links, t)
    requires Activated(cfg, s[i]) && (id in t ==> t[id].agentId == cfg.orgAgent(s[n].slug))
    ensures s[i].id != s[n].id && links[s[i].id] != id
  {
  }

  lemma OwnedAfter(cfg: Setup, s: seq<Agent>, n: nat, links: map<string, nat>, added: set<nat>, id: nat)
    requires n < |s| && DistinctIds(s) && Activated(cfg, s[n]) && OwnedRows(cfg, s, n, links, added)
    ensures OwnedRows(cfg, s, n + 1, links[s[n].id := id], added)
    ensures OwnedRows(cfg, s, n + 1, links[s[n].id := id], added + {id})
  {
    var links' := links[s[n].id := id];
    forall k | k in added ensures Owned(cfg, s, n + 1, links', k) { OwnedNext(cfg, s, n, links, links', k); }
    assert IsLinkOf(cfg, s, n + 1, links', n, id);
  }

  /** What a write of the next agent's row leaves, as far as its link goes. */
  lemma PassedLinks(cfg: Setup, s: seq<Agent>, n: nat, t0: Table, st: State, st': State, id: nat)
    requires n < |s| && DistinctIds(s) && DistinctRows(cfg, s) && ParentEarlier(cfg, s) && Activated(cfg, s[n])
    requires LinkedIn(cfg, s, n, st.links, st.table) && LinkedRows(cfg, s, n, t0, st)
    requires id in t0 ==> t0[id].agentId == cfg.orgAgent(s[n].slug)
    requires id in st.table ==> st.table[id].agentId == cfg.orgAgent(s[n].slug)
    requires st'.links == st.links[s[n].id := id]
    requires st'.table == st.table[id := FirstRow(cfg, t0, st.links, s[n], id)]
    ensures LinkedIn(cfg, s, n + 1, st'.links, st'.table) && LinkedRows(cfg, s, n + 1, t0, st')
  {
    var l := FirstRow(cfg, t0, st.links, s[n], id);
    LinkedAfter(cfg, s, n, st.links, st.table, id, l);
    LinkedRowsWrite(cfg, s, n, t0, st, st', id, l);
  }

  lemma KeptWrite(cfg: Setup, s: seq<Agent>, n: nat, t0: Table, st: State, st': State, id: nat, l: Link)
    requires n < |s| && DistinctRows(cfg, s) && s[n].slug !in cfg.customSlugs
    requires RowsKept(cfg, s, n, t0, st) && (id in st.table ==> id in t0)
    requires OrgScoped(cfg, s[n]) ==> id in t0 && l == t0[id].(isActive := false)
    requires forall k :: k in t0 ==> (t0[k].agentId == cfg.orgAgent(s[n].slug) <==> k == id)
    requires l.agentId == cfg.orgAgent(s[n].slug)
    requires st'.table == st.table[id := l] && st'.added == if id in t0 then st.added else st.added + {id}
    ensures RowsKept(cfg, s, n + 1, t0, st')
  {
    OtherRowsWrite(cfg, s, n, t0, st.table, id, l);
  }

  /** An existing link of the next agent is refreshed. */
  lemma PassedRefresh(cfg: Setup, s: seq<Agent>, n: nat, t0: Table, st: State, st': State, id: nat)
    requires n < |s| && DistinctIds(s) && DistinctRows(cfg, s) && ParentEarlier(cfg, s) && Activated(cfg, s[n])
    requires Passed(cfg, s, n, t0, st) && OneLinkPerAgent(t0)
    requires id in t0 && t0[id].agentId == cfg.orgAgent(s[n].slug)
    requires st' == st.(links := st.links[s[n].id := id], table := st.table[id := Refreshed(t0[id], st.links, s[n])])
    ensures Passed(cfg, s, n + 1, t0, st')
  {
    PassedLinks(cfg, s, n, t0, st, st', id);
    OwnedAfter(cfg, s, n, st.links, st.added, id);
    KeptWrite(cfg, s, n, t0, st, st', id, Refreshed(t0[id], st.links, s[n]));
  }

  /** A link is inserted for the next agent. */
  lemma PassedInsert(cfg: Setup, s: seq<Agent>, n: nat, t0: Table, st: State, st': State, id: nat)
    requires n < |s| && DistinctIds(s) && DistinctRows(cfg, s) && ParentEarlier(cfg, s) && Activated(cfg, s[n])
    requires Passed(cfg, s, n, t0, st) && id !in st.table && id !in t0
    requires forall k :: k in t0 ==> t0[k].agentId != cfg.orgAgent(s[n].slug)
    requires st'.links == st.links[s[n].id := id] && st'.added == st.added + {id}
    requires st'.table == st.table[id := Inserted(cfg, s[n])]
    ensures Passed(cfg, s, n + 1, t0, st')
  {
    PassedLinks(cfg, s, n, t0, st, st', id);
    OwnedAfter(cfg, s, n, st.links, st.added, id);
    KeptWrite(cfg, s, n, t0, st, st', id, Inserted(cfg, s[n]));
  }

  /** An agent without a link here, and with no row to switch off. */
  lemma PassedSkip(cfg: Setup, s: seq<Agent>, n: nat, t0: Table, st: State)
    requires n < |s| && Passed(cfg, s, n, t0, st) && !Activated(cfg, s[n])
    requires OrgScoped(cfg, s[n]) ==> !HasLink(st.table, cfg.orgAgent(s[n].slug))
    ensures Passed(cfg, s, n + 1, t0, st)
  {
    LinkedSkip(cfg, s, n, st);
    OwnedSkip(cfg, s, n, st.links, st.added);
    KeptSkip(cfg, s, n, t0, st);
  }

  lemma OwnedSkip(cfg: Setup, s: seq<Agent>, n: nat, links: map<string, nat>, added: set<nat>)
    requires n < |s| && OwnedRows(cfg, s, n, links, added)
    ensures OwnedRows(cfg, s, n + 1, links, added)
  {
    forall id | id in added ensures Owned(cfg, s, n + 1, links, id) {
      assert Owned(cfg, s, n, links, id);
      var i :| IsLinkOf(cfg, s, n, links, i, id);
      assert IsLinkOf(cfg, s, n + 1, links, i, id);
    }
  }

  lemma KeptSkip(cfg: Setup, s: seq<Agent>, n: nat, t0: Table, st: State)
    requires n < |s| && RowsKept(cfg, s, n, t0, st) && !Activated(cfg, s[n])
    requires OrgScoped(cfg, s[n]) ==> !HasLink(st.table, cfg.orgAgent(s[n].slug))
    ensures RowsKept(cfg, s, n + 1, t0, st)
  {
    forall k | k in t0 && Foreign(cfg, s, n + 1, t0[k].agentId) ensures Foreign(cfg, s, n, t0[k].agentId) {}
    forall k | k in t0 && Foreign(cfg, s, n, t0[k].agentId) ensures st.table[k] == t0[k] {}
  }

  /** The row of an org-scoped agent is switched off. */
  lemma PassedSwitchOff(cfg: Setup, s: seq<Agent>, n: nat, t0: Table, st: State, st': State, id: nat)
    requires n < |s| && DistinctRows(cfg, s) && OrgScoped(cfg, s[n])
    requires Passed(cfg, s, n, t0, st) && OneLinkPerAgent(t0)
    requires id in t0 && t0[id].agentId == cfg.orgAgent(s[n].slug)
    requires st' == st.(table := st.table[id := t0[id].(isActive := false)])
    ensures Passed(cfg, s, n + 1, t0, st')
  {
    LinksSwitchOff(cfg, s, n, t0, st, id);
    OwnedSkip(cfg, s, n, st.links, st.added);
    KeptWrite(cfg, s, n, t0, st, st', id, t0[id].(isActive := false));
  }

  lemma LinksSwitchOff(cfg: Setup, s: seq<Agent>, n: nat, t0: Table, st: State, id: nat)
    requires n < |s| && DistinctRows(cfg, s) && OrgScoped(cfg, s[n])
    requires LinkedIn(cfg, s, n, st.links, st.table) && LinkedRows(cfg, s, n, t0, st)
    requires id in t0 && id in st.table && st.table[id].agentId == t0[id].agentId == cfg.orgAgent(s[n].slug)
    ensures var st' := st.(table := st.table[id := t0[id].(isActive := false)]);
      LinkedIn(cfg, s, n + 1, st'.links, st'.table) && LinkedRows(cfg, s, n + 1, t0, st')
  {
    var st' := st.(table := st.table[id := t0[id].(isActive := false)]);
    assert LinkedIn(cfg, s, n, st'.links, st'.table);
    LinkedSkip(cfg, s, n, st');
  }

  /** What an accepted step of the first pass does, case by case. */
  lemma AcceptedStep(cfg: Setup, st: State, a: Agent)
    requires st.ok && FirstStep(cfg, st, a).ok && a.slug !in cfg.customSlugs
    ensures HasLink(st.table, cfg.orgAgent(a.slug)) ==>
      var id := LinkOf(st.table, cfg.orgAgent(a.slug));
      if a.orgScoped then
        FirstStep(cfg, st, a) == st.(table := st.table[id := st.table[id].(isActive := false)])
      else
        FirstStep(cfg, st, a) == st.(links := st.links[a.id := id],
                                     table := st.table[id := Refreshed(st.table[id], st.links, a)])
    ensures !HasLink(st.table, cfg.orgAgent(a.slug)) ==>
      if a.orgScoped then FirstStep(cfg, st, a) == st
      else FirstStep(cfg, st, a) == InsertLink(st, cfg.orgAgent(a.slug), a)
  {
    if HasLink(st.table, cfg.orgAgent(a.slug)) && a.orgScoped {
      var id := LinkOf(st.table, cfg.orgAgent(a.slug));
      if !st.table[id].isActive { assert st.table[id := st.table[id].(isActive := false)] == st.table; }
    }
  }

  lemma FirstStepPassed(cfg: Setup, s: seq<Agent>, n: nat, t0: Table, st: State, row: string)
    requires n < |s| && DistinctIds(s) && DistinctRows(cfg, s)
    requires ParentEarlier(cfg, s) && OrphansOn(cfg, s, row)
    requires TableOk(st, row) && Passed(cfg, s, n, t0, st) && OneLinkPerAgent(t0)
    ensures Passed(cfg, s, n + 1, t0, FirstStep(cfg, st, s[n]))
  {
    FirstStepKeeps(cfg, s, n, st, row);
    var st' := FirstStep(cfg, st, s[n]);
    if s[n].slug in cfg.customSlugs {
      PassedSkip(cfg, s, n, t0, st);
    } else {
      AcceptedStep(cfg, st, s[n]);
      if HasLink(st.table, cfg.orgAgent(s[n].slug)) {
        StepOnOldRow(cfg, s, n, t0, st, st', LinkOf(st.table, cfg.orgAgent(s[n].slug)));
      } else if s[n].orgScoped {
        PassedSkip(cfg, s, n, t0, st);
      } else {
        StepOnNewRow(cfg, s, n, t0, st, st');
      }
    }
  }

  lemma StepOnOldRow(cfg: Setup, s: seq<Agent>, n: nat, t0: Table, st: State, st': State, id: nat)
    requires n < |s| && DistinctIds(s) && DistinctRows(cfg, s) && ParentEarlier(cfg, s)
    requires Passed(cfg, s, n, t0, st) && OneLinkPerAgent(t0) && s[n].slug !in cfg.customSlugs
    requires id in st.table && st.table[id].agentId == cfg.orgAgent(s[n].slug)
    requires if s[n].orgScoped then st' == st.(table := st.table[id := st.table[id].(isActive := false)])
             else st' == st.(links := st.links[s[n].id := id],
                             table := st.table[id := Refreshed(st.table[id], st.links, s[n])])
    ensures Passed(cfg, s, n + 1, t0, st')
  {
    NextRowIsOld(cfg, s, n, t0, st, id);
    if s[n].orgScoped {
      PassedSwitchOff(cfg, s, n, t0, st, st', id);
    } else {
      PassedRefresh(cfg, s, n, t0, st, st', id);
    }
  }

  lemma StepOnNewRow(cfg: Setup, s: seq<Agent>, n: nat, t0: Table, st: State, st': State)
    requires n < |s| && DistinctIds(s) && DistinctRows(cfg, s) && ParentEarlier(cfg, s)
    requires Passed(cfg, s, n, t0, st) && Activated(cfg, s[n]) && st.nextId !in st.table
    requires !HasLink(st.table, cfg.orgAgent(s[n].slug))
    requires st' == InsertLink(st, cfg.orgAgent(s[n].slug), s[n]) && st'.ok && st.ok
    ensures Passed(cfg, s, n + 1, t0, st')
  {
    NoOldRow(cfg, s, n, t0, st);
    PassedInsert(cfg, s, n, t0, st, st', st.nextId);
  }

  lemma NoOldRow(cfg: Setup, s: seq<Agent>, n: nat, t0: Table, st: State)
    requires n < |s| && RowsKept(cfg, s, n, t0, st) && !HasLink(st.table, cfg.orgAgent(s[n].slug))
    ensures forall k :: k in t0 ==> t0[k].agentId != cfg.orgAgent(s[n].slug)
  {
    forall k | k in t0 ensures t0[k].agentId != cfg.orgAgent(s[n].slug) {
      assert k in st.table && st.table[k].agentId == t0[k].agentId;
    }
  }

  ghost function PassedAt(cfg: Setup, s: seq<Agent>, t0: Table, row: string): (nat, State) -> bool {
    (k: nat, x: State) => k <= |s| && TableOk(x, row) && Passed(cfg, s, k, t0, x)
  }

  lemma PassedStep(cfg: Setup, s: seq<Agent>, t0: Table, row: string, k: nat, x: State)
    requires k < |s| && DistinctIds(s) && DistinctRows(cfg, s)
    requires ParentEarlier(cfg, s) && OrphansOn(cfg, s, row) && OneLinkPerAgent(t0)
    requires PassedAt(cfg, s, t0, row)(k, x)
    ensures PassedAt(cfg, s, t0, row)(k + 1, FirstStep(cfg, x, s[k]))
  {
    FirstStepKeeps(cfg, s, k, x, row);
    FirstStepPassed(cfg, s, k, t0, x, row);
  }

  lemma PassedStart(cfg: Setup, s: seq<Agent>, t0: Table, nextId: nat, row: string)
    requires TableOk(Start(t0, nextId), row)
    ensures PassedAt(cfg, s, t0, row)(0, Start(t0, nextId))
  {
  }

  lemma FirstPassPassed(cfg: Setup, s: seq<Agent>, n: nat, t0: Table, nextId: nat, row: string)
    requires n <= |s| && DistinctIds(s) && DistinctRows(cfg, s)
    requires ParentEarlier(cfg, s) && OrphansOn(cfg, s, row)
    requires TableOk(Start(t0, nextId), row)
    ensures Passed(cfg, s, n, t0, FirstPass(cfg, Start(t0, nextId), s[..n]))
  {
    PassedStart(cfg, s, t0, nextId, row);
    forall k: nat, x | k < n && PassedAt(cfg, s, t0, row)(k, x)
      ensures PassedAt(cfg, s, t0, row)(k + 1, FirstStep(cfg, x, s[k]))
    {
      PassedStep(cfg, s, t0, row, k, x);
    }
    FirstPassInduction(cfg, Start(t0, nextId), s, n, PassedAt(cfg, s, t0, row));
  }

  // ------------------------------------------------------------------ the second pass, row by row

  /** After the second pass over the first `n` agents: their inserted links are complete. */
  ghost predicate Completed(cfg: Setup, s: seq<Agent>, n: nat, mid: State, st: State)
    requires n <= |s|
  {
    && st == mid.(table := st.table) && st.table.Keys == mid.table.Keys
    && (forall id :: id in mid.table && id !in mid.added ==> st.table[id] == mid.table[id])
    && LinkedIn(cfg, s, |s|, mid.links, st.table)
    && forall i :: 0 <= i < |s| && Activated(cfg, s[i]) && mid.links[s[i].id] in mid.added ==>
         st.table[mid.links[s[i].id]] == if i < n then Mirrored(cfg, mid.links, s[i]) else Inserted(cfg, s[i])
  }

  /** Two agents have two links. */
  lemma LinksDiffer(cfg: Setup, s: seq<Agent>, links: map<string, nat>, t: Table, i: nat, j: nat)
    requires i < |s| && j < |s| && i != j && DistinctRows(cfg, s) && LinkedIn(cfg, s, |s|, links, t)
    requires Activated(cfg, s[i]) && Activated(cfg, s[j])
    ensures links[s[i].id] != links[s[j].id]
  {
    assert t[links[s[i].id]].agentId != t[links[s[j].id]].agentId;
  }

  lemma CompletedWrite(cfg: Setup, s: seq<Agent>, n: nat, mid: State, st: State)
    requires n < |s| && DistinctRows(cfg, s) && Completed(cfg, s, n, mid, st)
    requires Activated(cfg, s[n]) && mid.links[s[n].id] in mid.added
    ensures Completed(cfg, s, n + 1, mid,
              st.(table := st.table[mid.links[s[n].id] := Mirrored(cfg, mid.links, s[n])]))
  {
    forall i | 0 <= i < |s| && i != n && Activated(cfg, s[i]) ensures mid.links[s[i].id] != mid.links[s[n].id] {
      LinksDiffer(cfg, s, mid.links, st.table, i, n);
    }
  }

  /** What an accepted step of the second pass does. */
  lemma AcceptedSecondStep(st: State, a: Agent)
    requires st.ok && SecondStep(st, a).ok
    requires a.id in st.links && st.links[a.id] in st.added && st.links[a.id] in st.table
    ensures var id := st.links[a.id];
      SecondStep(st, a) == st.(table := st.table[id := Link(st.table[id].agentId, true, ParentLink(st.links, a))])
  {
  }

  lemma CompletedSkip(cfg: Setup, s: seq<Agent>, n: nat, mid: State, st: State)
    requires n < |s| && Completed(cfg, s, n, mid, st)
    requires Activated(cfg, s[n]) ==> mid.links[s[n].id] !in mid.added
    ensures Completed(cfg, s, n + 1, mid, st)
  {
  }

  lemma SecondStepCompletes(cfg: Setup, s: seq<Agent>, n: nat, mid: State, st: State, row: string)
    requires n < |s| && DistinctIds(s) && DistinctRows(cfg, s) && OrphansOn(cfg, s, row)
    requires TableOk(st, row) && Completed(cfg, s, n, mid, st)
    ensures Completed(cfg, s, n + 1, mid, SecondStep(st, s[n]))
  {
    UnlinkedUnlessActivated(cfg, s, n, st);
    if Activated(cfg, s[n]) && st.links[s[n].id] in st.added {
      assert SecondStep(st, s[n]).ok by { SecondStepKeeps(cfg, s, st, n, row); }
      AcceptedSecondStep(st, s[n]);
      assert st.table[st.links[s[n].id]].agentId == cfg.orgAgent(s[n].slug);
      CompletedWrite(cfg, s, n, mid, st);
    } else {
      assert SecondStep(st, s[n]) == st;
      CompletedSkip(cfg, s, n, mid, st);
    }
  }

  lemma {:induction false} SecondPassCompletes(cfg: Setup, s: seq<Agent>, n: nat, mid: State, row: string)
    requires n <= |s| && DistinctIds(s) && DistinctRows(cfg, s) && OrphansOn(cfg, s, row)
    requires TableOk(mid, row) && Completed(cfg, s, 0, mid, mid)
    ensures Completed(cfg, s, n, mid, SecondPass(mid, s[..n]))
  {
    ghost var inv := (k: nat, x: State) => k <= |s| && TableOk(x, row) && Completed(cfg, s, k, mid, x);
    forall k: nat, x | k < n && inv(k, x) ensures inv(k + 1, SecondStep(x, s[k])) {
      SecondStepKeeps(cfg, s, x, k, row);
      SecondStepCompletes(cfg, s, k, mid, x, row);
    }
    SecondPassInduction(mid, s, n, inv);
  }

  // ------------------------------------------------------------------ the final table

  /** An activated agent's row in the end: active, under the parent it had, or else under its parent's link. */
  function FinalLink(cfg: Setup, t0: Table, links: map<string, nat>, a: Agent): Link
    requires a.id in links
  {
    var id := links[a.id];
    Link(cfg.orgAgent(a.slug), true,
         if id in t0 && t0[id].parent.Some? then t0[id].parent else ParentLink(links, a))
  }

  /** What becomes of every row of `t0`, and which rows are new; `links` maps the activated agents to theirs. */
  ghost predicate Outcome(cfg: Setup, agents: seq<Agent>, t0: Table, t: Table, links: map<string, nat>) {
    && (forall k :: k in links ==> exists a :: a in agents && Activated(cfg, a) && a.id == k)
    && (forall a :: a in agents && Activated(cfg, a) ==>
          a.id in links && links[a.id] in t && t[links[a.id]] == FinalLink(cfg, t0, links, a))
    && t0.Keys <= t.Keys && (forall id :: id in t0 ==> t[id].agentId == t0[id].agentId)
    && (forall id :: id in t && id !in t0 ==> exists a :: OwnsRow(cfg, agents, links, a, id))
    && (forall id, a :: id in t0 && a in agents && OrgScoped(cfg, a) && t0[id].agentId == cfg.orgAgent(a.slug) ==>
          t[id] == t0[id].(isActive := false))
    && (forall id :: id in t0 && Unowned(cfg, agents, t0[id].agentId) ==> t[id] == t0[id])
  }

  ghost predicate OwnsRow(cfg: Setup, agents: seq<Agent>, links: map<string, nat>, a: Agent, id: nat) {
    a in agents && Activated(cfg, a) && a.id in links && links[a.id] == id
  }

  /** The row belongs to no agent the seed handles. */
  ghost predicate Unowned(cfg: Setup, agents: seq<Agent>, agentId: string) {
    forall a :: a in agents && a.slug !in cfg.customSlugs ==> cfg.orgAgent(a.slug) != agentId
  }

  lemma StartCompletes(cfg: Setup, s: seq<Agent>, t0: Table, mid: State)
    requires Passed(cfg, s, |s|, t0, mid)
    ensures Completed(cfg, s, 0, mid, mid)
  {
  }

  /** The rows of the activated agents, once both passes are done. */
  lemma FinalRow(cfg: Setup, s: seq<Agent>, t0: Table, mid: State, st: State, i: nat)
    requires i < |s| && Activated(cfg, s[i])
    requires Passed(cfg, s, |s|, t0, mid) && Completed(cfg, s, |s|, mid, st)
    ensures s[i].id in st.links && st.links[s[i].id] in st.table
    ensures st.table[st.links[s[i].id]] == FinalLink(cfg, t0, st.links, s[i])
  {
    var id := mid.links[s[i].id];
    assert mid.table[id] == FirstRow(cfg, t0, mid.links, s[i], id);
    if id !in t0 { assert id in mid.added; }
  }

  /** The rows that are no agent's link, once both passes are done. */
  lemma FinalOthers(cfg: Setup, s: seq<Agent>, t0: Table, mid: State, st: State)
    requires Passed(cfg, s, |s|, t0, mid) && Completed(cfg, s, |s|, mid, st)
    ensures t0.Keys <= st.table.Keys && forall id :: id in t0 ==> st.table[id].agentId == t0[id].agentId
    ensures forall id, a :: id in t0 && a in s && OrgScoped(cfg, a) && t0[id].agentId == cfg.orgAgent(a.slug) ==>
      st.table[id] == t0[id].(isActive := false)
    ensures forall id :: id in t0 && Unowned(cfg, s, t0[id].agentId) ==> st.table[id] == t0[id]
  {
    forall id, a | id in t0 && a in s && OrgScoped(cfg, a) && t0[id].agentId == cfg.orgAgent(a.slug)
      ensures st.table[id] == t0[id].(isActive := false)
    {
      var i :| 0 <= i < |s| && s[i] == a;
      assert mid.table[id] == t0[id].(isActive := false);
    }
    forall id | id in t0 && Unowned(cfg, s, t0[id].agentId) ensures st.table[id] == t0[id] {
      assert Foreign(cfg, s, |s|, t0[id].agentId);
    }
  }

  lemma FinalOwners(cfg: Setup, s: seq<Agent>, t0: Table, mid: State, st: State)
    requires Passed(cfg, s, |s|, t0, mid) && Completed(cfg, s, |s|, mid, st)
    ensures forall k :: k in st.links ==> exists a :: a in s && Activated(cfg, a) && a.id == k
    ensures forall id :: id in st.table && id !in t0 ==> exists a :: OwnsRow(cfg, s, st.links, a, id)
  {
    forall k | k in st.links ensures exists a :: a in s && Activated(cfg, a) && a.id == k {
      assert LinkedAgent(cfg, s, |s|, k);
      var i :| 0 <= i < |s| && Activated(cfg, s[i]) && s[i].id == k;
      assert s[i] in s;
    }
    forall id | id in st.table && id !in t0 ensures exists a :: OwnsRow(cfg, s, st.links, a, id) {
      assert Owned(cfg, s, |s|, st.links, id);
      var i :| IsLinkOf(cfg, s, |s|, st.links, i, id);
      assert OwnsRow(cfg, s, st.links, s[i], id);
    }
  }

  /**
   From any table whose active roots are the root's: every activated agent ends with an
   active link under the parent it had, or, if it had none or was inserted, under the link
   of its parent; links of org-scoped agents are off, and all other rows are as they were.
   */
  lemma ActivationOutcome(cfg: Setup, t: Table, nextId: nat, s: seq<Agent>, row: string)
    requires DistinctIds(s) && DistinctRows(cfg, s) && ParentEarlier(cfg, s) && OrphansOn(cfg, s, row)
    requires OneLinkPerAgent(t) && RootOnly(t, row) && forall id :: id in t ==> id < nextId
    ensures var st := ActivateHere(cfg, t, nextId, s); TableOk(st, row) && Outcome(cfg, s, t, st.table, st.links)
  {
    var start := Start(t, nextId);
    assert s[..|s|] == s;
    FirstPassKeeps(cfg, s, |s|, start, row);
    FirstPassPassed(cfg, s, |s|, t, nextId, row);
    var mid := FirstPass(cfg, start, s);
    SecondPassKeeps(cfg, s, |s|, mid, row);
    StartCompletes(cfg, s, t, mid);
    SecondPassCompletes(cfg, s, |s|, mid, row);
    var st := SecondPass(mid, s);
    FinalOthers(cfg, s, t, mid, st);
    FinalOwners(cfg, s, t, mid, st);
    forall a | a in s && Activated(cfg, a)
      ensures a.id in st.links && st.links[a.id] in st.table
      ensures st.table[st.links[a.id]] == FinalLink(cfg, t, st.links, a)
    {
      var i :| 0 <= i < |s| && s[i] == a;
      FinalRow(cfg, s, t, mid, st, i);
    }
  }

  // ------------------------------------------------------------------ seeding again

  /** Nothing is left to do for these agents. */
  ghost predicate Settled(cfg: Setup, agents: seq<Agent>, t: Table) {
    && (forall a :: a in agents && Activated(cfg, a) ==> LinkSettled(cfg, agents, t, a))
    && (forall a, id :: a in agents && OrgScoped(cfg, a) && id in t && t[id].agentId == cfg.orgAgent(a.slug) ==>
          !t[id].isActive)
  }

  /** The agent's link is there and active, and lacks a parent only when there is none to give. */
  ghost predicate LinkSettled(cfg: Setup, agents: seq<Agent>, t: Table, a: Agent) {
    && HasLink(t, cfg.orgAgent(a.slug))
    && var l := t[LinkOf(t, cfg.orgAgent(a.slug))];
       l.isActive && (l.parent.None? ==> !HasActivatedParent(cfg, agents, a))
  }

  /** During a second seed: the table is as it was, and nothing was inserted. */
  ghost predicate Idle(cfg: Setup, s: seq<Agent>, n: nat, t: Table, nextId: nat, st: State)
    requires n <= |s|
  {
    st == State(t, st.links, {}, nextId, true) && forall k :: k in st.links ==> LinkedAgent(cfg, s, n, k)
  }

  lemma RefreshChangesNothing(cfg: Setup, s: seq<Agent>, n: nat, t: Table, links: map<string, nat>)
    requires n < |s| && LinkSettled(cfg, s, t, s[n]) && forall k :: k in links ==> LinkedAgent(cfg, s, n, k)
    ensures var l := t[LinkOf(t, cfg.orgAgent(s[n].slug))]; Refreshed(l, links, s[n]) == l
  {
    if ParentLink(links, s[n]).Some? {
      var i :| 0 <= i < n && Activated(cfg, s[i]) && s[i].id == s[n].parent.value;
      assert HasActivatedParent(cfg, s, s[n]);
    }
  }

  lemma IdleStep(cfg: Setup, s: seq<Agent>, n: nat, t: Table, nextId: nat, st: State)
    requires n < |s| && Settled(cfg, s, t) && Fits(t) && Idle(cfg, s, n, t, nextId, st)
    ensures Idle(cfg, s, n + 1, t, nextId, FirstStep(cfg, st, s[n]))
  {
    var row := cfg.orgAgent(s[n].slug);
    assert s[n] in s;
    if Activated(cfg, s[n]) {
      assert LinkSettled(cfg, s, t, s[n]);
      var id := LinkOf(t, row);
      RefreshChangesNothing(cfg, s, n, t, st.links);
      assert t[id := t[id]] == t;
    }
  }

  lemma {:induction false} IdleFirstPass(cfg: Setup, s: seq<Agent>, n: nat, t: Table, nextId: nat)
    requires n <= |s| && Settled(cfg, s, t) && Fits(t)
    ensures Idle(cfg, s, n, t, nextId, FirstPass(cfg, Start(t, nextId), s[..n]))
  {
    ghost var inv := (k: nat, x: State) => k <= |s| && Idle(cfg, s, k, t, nextId, x);
    forall k: nat, x | k < n && inv(k, x) ensures inv(k + 1, FirstStep(cfg, x, s[k])) {
      IdleStep(cfg, s, k, t, nextId, x);
    }
    FirstPassInduction(cfg, Start(t, nextId), s, n, inv);
  }

  lemma {:induction false} IdleSecondPass(st: State, s: seq<Agent>)
    requires st.added == {}
    ensures SecondPass(st, s) == st
  {
    if s != [] { IdleSecondPass(st, s[..|s| - 1]); }
  }

  /** A settled table is a fixed point of the activation, in whatever order the agents come. */
  lemma SettledIsFixed(cfg: Setup, t: Table, nextId: nat, s: seq<Agent>)
    requires Settled(cfg, s, t) && Fits(t)
    ensures var st := ActivateHere(cfg, t, nextId, s); st.ok && st.table == t && st.nextId == nextId
  {
    assert s[..|s|] == s;
    IdleFirstPass(cfg, s, |s|, t, nextId);
    IdleSecondPass(FirstPass(cfg, Start(t, nextId), s), s);
  }

  /** What the activation leaves is settled. */
  lemma OutcomeIsSettled(cfg: Setup, s: seq<Agent>, t0: Table, t: Table, links: map<string, nat>)
    requires DistinctIds(s) && DistinctRows(cfg, s) && OneLinkPerAgent(t) && Outcome(cfg, s, t0, t, links)
    ensures Settled(cfg, s, t)
  {
    forall a | a in s && Activated(cfg, a) ensures LinkSettled(cfg, s, t, a) {
      FinalIsSettled(cfg, s, t0, t, links, a);
    }
    forall a, id | a in s && OrgScoped(cfg, a) && id in t && t[id].agentId == cfg.orgAgent(a.slug)
      ensures !t[id].isActive
    {
      OffIsSettled(cfg, s, t0, t, links, a, id);
    }
  }

  lemma FinalIsSettled(cfg: Setup, s: seq<Agent>, t0: Table, t: Table, links: map<string, nat>, a: Agent)
    requires OneLinkPerAgent(t) && Outcome(cfg, s, t0, t, links) && a in s && Activated(cfg, a)
    ensures LinkSettled(cfg, s, t, a)
  {
    var id, row := links[a.id], cfg.orgAgent(a.slug);
    assert t[id] == FinalLink(cfg, t0, links, a);
    assert LinkOf(t, row) == id;
    if t[id].parent.None? && HasActivatedParent(cfg, s, a) { assert false; }
  }

  lemma OffIsSettled(cfg: Setup, s: seq<Agent>, t0: Table, t: Table, links: map<string, nat>, a: Agent, id: nat)
    requires DistinctRows(cfg, s) && Outcome(cfg, s, t0, t, links)
    requires a in s && OrgScoped(cfg, a) && id in t && t[id].agentId == cfg.orgAgent(a.slug)
    ensures !t[id].isActive
  {
    if b :| OwnsRow(cfg, s, links, b, id) {
      assert t[id] == FinalLink(cfg, t0, links, b);
      SameRowSameAgent(cfg, s, a, b);
      assert false;
    }
    assert id in t0;
  }

  lemma SameRowSameAgent(cfg: Setup, s: seq<Agent>, a: Agent, b: Agent)
    requires DistinctRows(cfg, s) && a in s && b in s && cfg.orgAgent(a.slug) == cfg.orgAgent(b.slug)
    ensures a == b
  {
    var i :| 0 <= i < |s| && s[i] == a;
    var j :| 0 <= j < |s| && s[j] == b;
  }

  // ------------------------------------------------------------------ sorted or not

  /** The seed over the sorted agents, said of the agents as they were given. */
  lemma SortedSeed(cfg: Setup, t: Table, nextId: nat, agents: seq<Agent>, sorted: seq<Agent>, row: string)
    requires DistinctIds(agents) && DistinctRows(cfg, agents) && OrphansOn(cfg, agents, row)
    requires forall a :: a in agents && Activated(cfg, a) ==> Rooted(agents, a)
    requires multiset(sorted) == multiset(agents) && DistinctIds(sorted) && TopoSorted(agents, sorted)
    requires OneLinkPerAgent(t) && RootOnly(t, row) && forall id :: id in t ==> id < nextId
    ensures var st := ActivateHere(cfg, t, nextId, sorted);
      && TableOk(st, row) && Fits(st.table)
      && Outcome(cfg, agents, t, st.table, st.links)
      && Settled(cfg, agents, st.table)
      && (Settled(cfg, agents, t) ==> st.table == t && st.nextId == nextId)
  {
    SameMembers(agents, sorted);
    PermutedSetup(cfg, agents, sorted, row);
    SortGivesParentEarlier(cfg, agents, sorted);
    ActivationOutcome(cfg, t, nextId, sorted, row);
    var st := ActivateHere(cfg, t, nextId, sorted);
    RootOnlyFits(st.table, row);
    PermutedOutcome(cfg, sorted, agents, t, st.table, st.links);
    OutcomeIsSettled(cfg, agents, t, st.table, st.links);
    if Settled(cfg, agents, t) {
      RootOnlyFits(t, row);
      PermutedSettled(cfg, agents, sorted, t);
      SettledIsFixed(cfg, t, nextId, sorted);
    }
  }

  lemma SameMembers(a: seq<Agent>, b: seq<Agent>)
    requires multiset(a) == multiset(b)
    ensures forall x :: x in a <==> x in b
  {
    forall x ensures x in a <==> x in b {
      assert x in multiset(a) <==> x in multiset(b);
    }
  }

  /** What is assumed of the agents does not depend on their order. */
  lemma PermutedSetup(cfg: Setup, a: seq<Agent>, b: seq<Agent>, row: string)
    requires DistinctIds(a) && DistinctIds(b) && forall x :: x in a <==> x in b
    requires DistinctRows(cfg, a) && OrphansOn(cfg, a, row)
    ensures DistinctRows(cfg, b) && OrphansOn(cfg, b, row)
  {
    forall i, j | 0 <= i < j < |b| ensures cfg.orgAgent(b[i].slug) != cfg.orgAgent(b[j].slug) {
      assert b[i] in a && b[j] in a;
      var k, l :| 0 <= k < |a| && 0 <= l < |a| && a[k] == b[i] && a[l] == b[j];
      assert k != l;
    }
    forall i | 0 <= i < |b| && Orphan(cfg, b, b[i]) ensures cfg.orgAgent(b[i].slug) == row {
      assert b[i] in a;
      var k :| 0 <= k < |a| && a[k] == b[i];
      ParentPermuted(cfg, a, b, b[i]);
      assert Orphan(cfg, a, a[k]);
    }
  }

  lemma ParentPermuted(cfg: Setup, a: seq<Agent>, b: seq<Agent>, x: Agent)
    requires forall y :: y in a ==> y in b
    ensures HasActivatedParent(cfg, a, x) ==> HasActivatedParent(cfg, b, x)
  {
    if HasActivatedParent(cfg, a, x) {
      var j :| 0 <= j < |a| && Activated(cfg, a[j]) && IsParent(a[j], x);
      assert a[j] in b;
      var m :| 0 <= m < |b| && b[m] == a[j];
    }
  }

  lemma PermutedSettled(cfg: Setup, a: seq<Agent>, b: seq<Agent>, t: Table)
    requires forall x :: x in a <==> x in b
    requires Settled(cfg, a, t)
    ensures Settled(cfg, b, t)
  {
    forall x | x in b && Activated(cfg, x) ensures LinkSettled(cfg, b, t, x) {
      assert LinkSettled(cfg, a, t, x);
      ParentPermuted(cfg, b, a, x);
    }
  }

  lemma PermutedOutcome(cfg: Setup, a: seq<Agent>, b: seq<Agent>, t0: Table, t: Table, links: map<string, nat>)
    requires forall x :: x in a <==> x in b
    requires Outcome(cfg, a, t0, t, links)
    ensures Outcome(cfg, b, t0, t, links)
  {
    forall id | id in t && id !in t0 ensures exists x :: OwnsRow(cfg, b, links, x, id) {
      var x :| OwnsRow(cfg, a, links, x, id);
      assert OwnsRow(cfg, b, links, x, id);
    }
    forall id | id in t0 && Unowned(cfg, b, t0[id].agentId) ensures t[id] == t0[id] {
      assert Unowned(cfg, a, t0[id].agentId);
    }
  }

  lemma TwiceCounts(s: seq<Agent>, i: nat, j: nat)
    requires i < j < |s| && s[i] == s[j]
    ensures multiset(s)[s[i]] >= 2
  {
    assert s == s[..i] + [s[i]] + s[i + 1..j] + [s[j]] + s[j + 1..];
  }

  lemma PermutationIsDistinct(a: seq<Agent>, b: seq<Agent>)
    requires DistinctIds(a) && multiset(a) == multiset(b)
    ensures DistinctIds(b)
  {
    SameMembers(a, b);
    forall i, j | 0 <= i < j < |b| ensures b[i].id != b[j].id {
      if b[i].id == b[j].id {
        SameAgent(a, b[i], b[j]);
        CountOfDistinct(a, b[i]);
        TwiceCounts(b, i, j);
        assert false;
      }
    }
  }

  lemma PermutedRooted(a: seq<Agent>, b: seq<Agent>, x: Agent)
    requires (forall y :: y in a <==> y in b) && Rooted(a, x)
    ensures Rooted(b, x)
  {
    var n: nat :| RootedAt(a, x, n);
    PermutedRootedAt(a, b, x, n);
  }

  lemma {:induction false} PermutedRootedAt(a: seq<Agent>, b: seq<Agent>, x: Agent, n: nat)
    requires (forall y :: y in a <==> y in b) && RootedAt(a, x, n)
    ensures RootedAt(b, x, n)
    decreases n
  {
    assert Ids(a) == Ids(b);
    if n > 0 {
      var p :| p in a && IsParent(p, x) && RootedAt(a, p, n - 1);
      PermutedRootedAt(a, b, p, n - 1);
    }
  }
}
