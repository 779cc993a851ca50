/**
 The seed as a whole: the seeded subaccount and the org subaccount together.  Where the
 seeded subaccount alone would not stop it, it goes through exactly when the org
 subaccount accepts the org-scoped agents.
 */
module AgentSeed {
  import opened Wrappers
  import opened AgentHierarchy
  import opened AgentActivation
  import opened AgentActivationLaws
  import opened AgentActivationOutcome

  // ------------------------------------------------------------------ two halves

  /** The first pass goes through when both of its halves would, and then does what both do. */
  lemma {:induction false} SeedSplits(cfg: Setup, sd: Seed, s: seq<Agent>)
    ensures var end, here, org := SeedPass(cfg, sd, s), FirstPass(cfg, sd.here, s), OrgPass(cfg, sd.org, s);
      && (end.Runs() <==> here.ok && org.ok)
      && (end.Runs() ==> end == Seed(here, org))
  {
    if s != [] { SeedSplits(cfg, sd, s[..|s| - 1]); }
  }

  // ------------------------------------------------------------------ the org subaccount, exactly

  /** The agent row has an active link on top. */
  ghost predicate HasRoot(t: Table, row: string) {
    exists id :: id in t && IsActiveRoot(t[id]) && t[id].agentId == row
  }

  /** The agent row has no link under a parent. */
  ghost predicate Parentless(t: Table, row: string) {
    forall id :: id in t && t[id].agentId == row ==> t[id].parent.None?
  }

  /** The row has an active link on top, or an org-scoped agent of the list will give it one. */
  ghost predicate WillBeRoot(cfg: Setup, s: seq<Agent>, t0: Table, row: string) {
    HasRoot(t0, row) || (Parentless(t0, row) && OwnedByOrg(cfg, s, row))
  }

  ghost predicate OwnedByOrg(cfg: Setup, s: seq<Agent>, row: string) {
    exists a :: a in s && OrgScoped(cfg, a) && cfg.orgAgent(a.slug) == row
  }

  /** All active roots there are and will be belong to one agent row. */
  ghost predicate OneTop(cfg: Setup, s: seq<Agent>, t0: Table) {
    forall x, y :: WillBeRoot(cfg, s, t0, x) && WillBeRoot(cfg, s, t0, y) ==> x == y
  }

  lemma RootsAreRows(t: Table)
    requires OneLinkPerAgent(t)
    ensures OneRoot(t) <==> forall x, y :: HasRoot(t, x) && HasRoot(t, y) ==> x == y
  {
    if forall x, y :: HasRoot(t, x) && HasRoot(t, y) ==> x == y {
      forall i, j | i in t && j in t && IsActiveRoot(t[i]) && IsActiveRoot(t[j]) ensures i == j {
        assert HasRoot(t, t[i].agentId) && HasRoot(t, t[j].agentId);
      }
    }
  }

  /** The table with the row's link in it, switched on. */
  ghost function WithOrgLink(o: Org, row: string): Table {
    if HasLink(o.table, row) then
      var id := LinkOf(o.table, row);
      o.table[id := o.table[id].(isActive := true)]
    else o.table[o.nextId := Link(row, true, None)]
  }

  ghost predicate OrgOk(o: Org) {
    OneLinkPerAgent(o.table) && forall id :: id in o.table ==> id < o.nextId
  }

  /** Linking a row adds it to the roots if it has no parent there, and leaves the others alone. */
  lemma LinkRoots(o: Org, row: string, x: string)
    requires OrgOk(o)
    ensures var t := WithOrgLink(o, row);
      && (HasRoot(t, x) <==> HasRoot(o.table, x) || (x == row && Parentless(o.table, row)))
      && (Parentless(t, x) <==> Parentless(o.table, x))
  {
    var t := WithOrgLink(o, row);
    var id := if HasLink(o.table, row) then LinkOf(o.table, row) else o.nextId;
    assert t[id].agentId == row && t[id].isActive;
    assert forall k :: k in o.table && k != id ==> k in t && t[k] == o.table[k] && t[k].agentId != row;
    if HasRoot(o.table, x) {
      var k :| k in o.table && IsActiveRoot(o.table[k]) && o.table[k].agentId == x;
      assert k in t && IsActiveRoot(t[k]) && t[k].agentId == x;
    }
    if x == row && Parentless(o.table, row) { assert IsActiveRoot(t[id]); }
  }

  lemma LinkKeepsOrgOk(o: Org, row: string)
    requires OrgOk(o)
    ensures OneLinkPerAgent(WithOrgLink(o, row))
    ensures LinkToOrg(o, row).ok <==> o.ok && OneRoot(WithOrgLink(o, row))
    ensures LinkToOrg(o, row).ok ==> LinkToOrg(o, row).table == WithOrgLink(o, row) && OrgOk(LinkToOrg(o, row))
  {
  }

  lemma OwnedOneMore(cfg: Setup, s: seq<Agent>, a: Agent, row: string)
    ensures OwnedByOrg(cfg, s + [a], row) <==>
            OwnedByOrg(cfg, s, row) || (OrgScoped(cfg, a) && cfg.orgAgent(a.slug) == row)
  {
    if b :| b in s && OrgScoped(cfg, b) && cfg.orgAgent(b.slug) == row { assert b in s + [a]; }
    assert a in s + [a];
  }

  /** The roots of the org subaccount are those that were and those the agents bring. */
  ghost predicate RootsAreWanted(cfg: Setup, s: seq<Agent>, t0: Table, t: Table) {
    forall x :: (HasRoot(t, x) <==> WillBeRoot(cfg, s, t0, x)) && (Parentless(t, x) <==> Parentless(t0, x))
  }

  lemma WantedMeansOneTop(cfg: Setup, s: seq<Agent>, t0: Table, t: Table)
    requires OneLinkPerAgent(t) && RootsAreWanted(cfg, s, t0, t)
    ensures OneRoot(t) <==> OneTop(cfg, s, t0)
  {
    RootsAreRows(t);
    if OneTop(cfg, s, t0) {
      forall x, y | HasRoot(t, x) && HasRoot(t, y) ensures x == y {
        assert WillBeRoot(cfg, s, t0, x) && WillBeRoot(cfg, s, t0, y);
      }
    } else {
      var x, y :| WillBeRoot(cfg, s, t0, x) && WillBeRoot(cfg, s, t0, y) && x != y;
      assert HasRoot(t, x) && HasRoot(t, y);
    }
  }

  lemma TopsOnlyGrow(cfg: Setup, s: seq<Agent>, a: Agent, t0: Table)
    requires OneTop(cfg, s + [a], t0)
    ensures OneTop(cfg, s, t0)
  {
    forall x, y | WillBeRoot(cfg, s, t0, x) && WillBeRoot(cfg, s, t0, y) ensures x == y {
      OwnedOneMore(cfg, s, a, x);
      OwnedOneMore(cfg, s, a, y);
      assert WillBeRoot(cfg, s + [a], t0, x) && WillBeRoot(cfg, s + [a], t0, y);
    }
  }

  lemma WantedSkip(cfg: Setup, s: seq<Agent>, a: Agent, t0: Table, t: Table)
    requires RootsAreWanted(cfg, s, t0, t) && !OrgScoped(cfg, a)
    ensures RootsAreWanted(cfg, s + [a], t0, t)
  {
    forall x { OwnedOneMore(cfg, s, a, x); }
  }

  lemma WantedLink(cfg: Setup, s: seq<Agent>, a: Agent, t0: Table, o: Org)
    requires RootsAreWanted(cfg, s, t0, o.table) && OrgScoped(cfg, a) && OrgOk(o)
    ensures RootsAreWanted(cfg, s + [a], t0, WithOrgLink(o, cfg.orgAgent(a.slug)))
  {
    var row := cfg.orgAgent(a.slug);
    var t := WithOrgLink(o, row);
    forall x
      ensures (HasRoot(t, x) <==> WillBeRoot(cfg, s + [a], t0, x)) && (Parentless(t, x) <==> Parentless(t0, x))
    {
      OwnedOneMore(cfg, s, a, x);
      LinkRoots(o, row, x);
      assert HasRoot(o.table, x) <==> WillBeRoot(cfg, s, t0, x);
    }
  }

  /** With an org subaccount: the org-scoped agents all get their links exactly when one row is on top in the end. */
  lemma {:induction false} OpenedPass(cfg: Setup, s: seq<Agent>, t0: Table, nextId: nat)
    requires cfg.orgAccess.Opened? && Fits(t0) && forall id :: id in t0 ==> id < nextId
    ensures var o := OrgPass(cfg, Org(t0, nextId, true), s);
      && (o.ok <==> OneTop(cfg, s, t0))
      && (o.ok ==> OrgOk(o) && RootsAreWanted(cfg, s, t0, o.table))
  {
    if s == [] {
      assert RootsAreWanted(cfg, s, t0, t0);
      WantedMeansOneTop(cfg, s, t0, t0);
    } else {
      var front, a := s[..|s| - 1], s[|s| - 1];
      assert s == front + [a];
      OpenedPass(cfg, front, t0, nextId);
      OpenedStep(cfg, front, a, t0, OrgPass(cfg, Org(t0, nextId, true), front));
    }
  }

  lemma OpenedStep(cfg: Setup, s: seq<Agent>, a: Agent, t0: Table, o: Org)
    requires cfg.orgAccess.Opened? && (o.ok <==> OneTop(cfg, s, t0))
    requires o.ok ==> OrgOk(o) && RootsAreWanted(cfg, s, t0, o.table)
    ensures var o' := OrgStep(cfg, o, a);
      && (o'.ok <==> OneTop(cfg, s + [a], t0))
      && (o'.ok ==> OrgOk(o') && RootsAreWanted(cfg, s + [a], t0, o'.table))
  {
    if !o.ok {
      if OneTop(cfg, s + [a], t0) { TopsOnlyGrow(cfg, s, a, t0); }
    } else if OrgScoped(cfg, a) {
      var row := cfg.orgAgent(a.slug);
      LinkKeepsOrgOk(o, row);
      WantedLink(cfg, s, a, t0, o);
      WantedMeansOneTop(cfg, s + [a], t0, WithOrgLink(o, row));
    } else {
      WantedSkip(cfg, s, a, t0, o.table);
      SameTop(cfg, s, a, t0);
    }
  }

  lemma SameTop(cfg: Setup, s: seq<Agent>, a: Agent, t0: Table)
    requires !OrgScoped(cfg, a)
    ensures OneTop(cfg, s + [a], t0) <==> OneTop(cfg, s, t0)
  {
    forall x ensures WillBeRoot(cfg, s + [a], t0, x) <==> WillBeRoot(cfg, s, t0, x) { OwnedOneMore(cfg, s, a, x); }
    if OneTop(cfg, s + [a], t0) { TopsOnlyGrow(cfg, s, a, t0); }
    if OneTop(cfg, s, t0) {
      forall x, y | WillBeRoot(cfg, s + [a], t0, x) && WillBeRoot(cfg, s + [a], t0, y) ensures x == y {
        assert WillBeRoot(cfg, s, t0, x) && WillBeRoot(cfg, s, t0, y);
      }
    }
  }

  ghost predicate SomeOrgScoped(cfg: Setup, s: seq<Agent>) {
    exists a :: a in s && OrgScoped(cfg, a)
  }

  /**
   What the org subaccount asks of the list, from its links `t0`: if any agent is org-scoped,
   then asking for the org subaccount does not throw, and if there is one, its roots fit.
   */
  ghost predicate OrgAllows(cfg: Setup, s: seq<Agent>, t0: Table) {
    SomeOrgScoped(cfg, s) ==> !cfg.orgAccess.Unreachable? && (cfg.orgAccess.Opened? ==> OneTop(cfg, s, t0))
  }

  lemma {:induction false} ClosedPass(cfg: Setup, s: seq<Agent>, o: Org)
    requires o.ok && !cfg.orgAccess.Opened?
    ensures var o' := OrgPass(cfg, o, s);
      && (o'.ok <==> cfg.orgAccess.NotThere? || !SomeOrgScoped(cfg, s))
      && o'.table == o.table && o'.nextId == o.nextId
  {
    if s != [] {
      var front, a := s[..|s| - 1], s[|s| - 1];
      assert s == front + [a];
      ClosedPass(cfg, front, o);
      if SomeOrgScoped(cfg, front) {
        var b :| b in front && OrgScoped(cfg, b);
        assert b in s;
      }
      assert a in s;
    }
  }

  /** The org half of the first pass, exactly, from any links of the org subaccount. */
  lemma OrgPassExact(cfg: Setup, s: seq<Agent>, t0: Table, nextId: nat)
    requires Fits(t0) && forall id :: id in t0 ==> id < nextId
    ensures var o := OrgPass(cfg, Org(t0, nextId, true), s);
      && (o.ok <==> OrgAllows(cfg, s, t0))
      && (o.ok ==> Fits(o.table))
  {
    if cfg.orgAccess.Opened? {
      OpenedPass(cfg, s, t0, nextId);
      if !SomeOrgScoped(cfg, s) { NoneOnTop(cfg, s, t0); }
      var o := OrgPass(cfg, Org(t0, nextId, true), s);
      if o.ok { WantedMeansOneTop(cfg, s, t0, o.table); }
    } else {
      ClosedPass(cfg, s, Org(t0, nextId, true));
    }
  }

  lemma NoneOnTop(cfg: Setup, s: seq<Agent>, t0: Table)
    requires Fits(t0) && !SomeOrgScoped(cfg, s)
    ensures OneTop(cfg, s, t0)
  {
    RootsAreRows(t0);
    forall x, y | WillBeRoot(cfg, s, t0, x) && WillBeRoot(cfg, s, t0, y) ensures x == y {
      assert HasRoot(t0, x) && HasRoot(t0, y);
    }
  }

  // ------------------------------------------------------------------ the org subaccount, row by row

  /** Links of org-scoped agents are on, under the parent they had or on top; no other row changed. */
  ghost predicate OrgRows(cfg: Setup, s: seq<Agent>, t0: Table, t: Table) {
    && t0.Keys <= t.Keys
    && (forall id :: id in t0 ==>
          t[id] == if OwnedByOrg(cfg, s, t0[id].agentId) then t0[id].(isActive := true) else t0[id])
    && (forall id :: id in t && id !in t0 ==>
          IsActiveRoot(t[id]) && OwnedByOrg(cfg, s, t[id].agentId) && !HasLink(t0, t[id].agentId))
    && (forall x :: OwnedByOrg(cfg, s, x) ==> HasLink(t, x))
  }

  /** What the first pass leaves in the org subaccount. */
  ghost predicate OrgOutcome(cfg: Setup, s: seq<Agent>, t0: Table, t: Table) {
    if cfg.orgAccess.Opened? then OrgRows(cfg, s, t0, t) else t == t0
  }

  lemma RowsSkip(cfg: Setup, s: seq<Agent>, a: Agent, t0: Table, t: Table)
    requires OrgRows(cfg, s, t0, t) && !OrgScoped(cfg, a)
    ensures OrgRows(cfg, s + [a], t0, t)
  {
    forall x ensures OwnedByOrg(cfg, s + [a], x) <==> OwnedByOrg(cfg, s, x) { OwnedOneMore(cfg, s, a, x); }
  }

  lemma RowsLink(cfg: Setup, s: seq<Agent>, a: Agent, t0: Table, o: Org)
    requires OrgRows(cfg, s, t0, o.table) && OrgScoped(cfg, a) && OrgOk(o)
    ensures OrgRows(cfg, s + [a], t0, WithOrgLink(o, cfg.orgAgent(a.slug)))
  {
    var row := cfg.orgAgent(a.slug);
    var t := WithOrgLink(o, row);
    forall x ensures OwnedByOrg(cfg, s + [a], x) <==> OwnedByOrg(cfg, s, x) || x == row { OwnedOneMore(cfg, s, a, x); }
    forall x ensures HasLink(t, x) <==> HasLink(o.table, x) || x == row { LinkStaysIn(o, row, x); }
    forall id | id in t ensures id in t0 || (IsActiveRoot(t[id]) && !HasLink(t0, t[id].agentId)) {
      LinkedRowAt(cfg, s, t0, o, row, id);
    }
    forall id | id in t0
      ensures t[id] == if OwnedByOrg(cfg, s, t0[id].agentId) || t0[id].agentId == row
                       then t0[id].(isActive := true) else t0[id]
    {
      LinkedRowAt(cfg, s, t0, o, row, id);
    }
  }

  /** One row after the link of an agent row was switched on or inserted. */
  lemma LinkedRowAt(cfg: Setup, s: seq<Agent>, t0: Table, o: Org, row: string, id: nat)
    requires OrgRows(cfg, s, t0, o.table) && OrgOk(o) && id in WithOrgLink(o, row)
    ensures var t := WithOrgLink(o, row);
      if id in t0 then
        t[id] == if OwnedByOrg(cfg, s, t0[id].agentId) || t0[id].agentId == row
                 then t0[id].(isActive := true) else t0[id]
      else
        && IsActiveRoot(t[id]) && !HasLink(t0, t[id].agentId)
        && (OwnedByOrg(cfg, s, t[id].agentId) || t[id].agentId == row)
  {
  }

  lemma LinkStaysIn(o: Org, row: string, x: string)
    requires OrgOk(o)
    ensures HasLink(WithOrgLink(o, row), x) <==> HasLink(o.table, x) || x == row
  {
    var t := WithOrgLink(o, row);
    if HasLink(o.table, x) {
      var k := LinkOf(o.table, x);
      assert k in t && t[k].agentId == x;
    }
    if x == row && !HasLink(o.table, row) { assert t[o.nextId].agentId == row; }
  }

  lemma {:induction false} OpenedRows(cfg: Setup, s: seq<Agent>, t0: Table, nextId: nat)
    requires cfg.orgAccess.Opened? && Fits(t0) && forall id :: id in t0 ==> id < nextId
    ensures var o := OrgPass(cfg, Org(t0, nextId, true), s); o.ok ==> OrgRows(cfg, s, t0, o.table)
  {
    if s != [] {
      var front, a := s[..|s| - 1], s[|s| - 1];
      assert s == front + [a];
      OpenedRows(cfg, front, t0, nextId);
      OpenedPass(cfg, front, t0, nextId);
      var o := OrgPass(cfg, Org(t0, nextId, true), front);
      if o.ok {
        if OrgScoped(cfg, a) {
          LinkKeepsOrgOk(o, cfg.orgAgent(a.slug));
          RowsLink(cfg, front, a, t0, o);
        } else {
          RowsSkip(cfg, front, a, t0, o.table);
        }
      }
    }
  }

  lemma OrgPassOutcome(cfg: Setup, s: seq<Agent>, t0: Table, nextId: nat)
    requires Fits(t0) && forall id :: id in t0 ==> id < nextId
    ensures var o := OrgPass(cfg, Org(t0, nextId, true), s); o.ok ==> OrgOutcome(cfg, s, t0, o.table)
  {
    if cfg.orgAccess.Opened? {
      OpenedRows(cfg, s, t0, nextId);
    } else {
      ClosedPass(cfg, s, Org(t0, nextId, true));
    }
  }

  /** Every org-scoped agent has its link in the org subaccount, if there is one, switched on. */
  ghost predicate OrgSettled(cfg: Setup, s: seq<Agent>, t: Table) {
    cfg.orgAccess.Opened? ==> forall x :: OwnedByOrg(cfg, s, x) ==> HasLink(t, x) && t[LinkOf(t, x)].isActive
  }

  lemma OrgOutcomeIsSettled(cfg: Setup, s: seq<Agent>, t0: Table, t: Table)
    requires OrgOutcome(cfg, s, t0, t)
    ensures OrgSettled(cfg, s, t)
  {
    if cfg.orgAccess.Opened? {
      forall x | OwnedByOrg(cfg, s, x) ensures HasLink(t, x) && t[LinkOf(t, x)].isActive {
        var id := LinkOf(t, x);
        if id in t0 { assert t[id].agentId == t0[id].agentId; }
      }
    }
  }

  /** On a settled org subaccount the pass changes nothing. */
  lemma {:induction false} OrgIsFixed(cfg: Setup, s: seq<Agent>, t: Table, nextId: nat)
    requires Fits(t) && OrgSettled(cfg, s, t) && (SomeOrgScoped(cfg, s) ==> !cfg.orgAccess.Unreachable?)
    ensures OrgPass(cfg, Org(t, nextId, true), s) == Org(t, nextId, true)
  {
    if s != [] {
      var front, a := s[..|s| - 1], s[|s| - 1];
      assert s == front + [a];
      forall x | OwnedByOrg(cfg, front, x) ensures OwnedByOrg(cfg, s, x) { OwnedOneMore(cfg, front, a, x); }
      if b :| b in front && OrgScoped(cfg, b) { assert b in s; }
      OrgIsFixed(cfg, front, t, nextId);
      if OrgScoped(cfg, a) {
        assert a in s && OwnedByOrg(cfg, s, cfg.orgAgent(a.slug));
        if cfg.orgAccess.Opened? {
          var id := LinkOf(t, cfg.orgAgent(a.slug));
          assert t[id := t[id].(isActive := true)] == t;
        }
      }
    }
  }

  lemma SettledAllows(cfg: Setup, s: seq<Agent>, t: Table)
    requires Fits(t) && OrgSettled(cfg, s, t) && (SomeOrgScoped(cfg, s) ==> !cfg.orgAccess.Unreachable?)
    ensures OrgAllows(cfg, s, t)
  {
    RootsAreRows(t);
    if cfg.orgAccess.Opened? {
      forall x | WillBeRoot(cfg, s, t, x) ensures HasRoot(t, x) {
        if !HasRoot(t, x) { assert IsActiveRoot(t[LinkOf(t, x)]); }
      }
    }
  }

  // ------------------------------------------------------------------ both together

  lemma {:induction false} RefusedStaysRefused(st: State, s: seq<Agent>)
    requires !st.ok
    ensures SecondPass(st, s) == st
  {
    if s != [] { RefusedStaysRefused(st, s[..|s| - 1]); }
  }

  /** The seed goes through when both subaccounts alone would, and then does what both do. */
  lemma ActivateSplits(cfg: Setup, t: Table, nextId: nat, o: Table, orgNextId: nat, s: seq<Agent>)
    ensures var end := Activate(cfg, StartSeed(t, nextId, o, orgNextId), s);
      var here, org := ActivateHere(cfg, t, nextId, s), OrgPass(cfg, Org(o, orgNextId, true), s);
      && (end.Runs() <==> here.ok && org.ok)
      && (end.Runs() ==> end == Seed(here, org))
  {
    var start := StartSeed(t, nextId, o, orgNextId);
    SeedSplits(cfg, start, s);
    var first := FirstPass(cfg, start.here, s);
    if !first.ok { RefusedStaysRefused(first, s); }
  }

  /**
   With the agents in sorted order, every activated chain reaching a root, one agent row
   that all orphans share, and a table whose active roots are that row's: at every moment
   the seed goes on exactly when the org subaccount accepts the org-scoped agents so far;
   while it does, both tables fit their indexes, and the only active link without a parent
   in the seeded subaccount is the root's.
   */
  lemma ActivationExact(
    cfg: Setup, t: Table, nextId: nat, o: Table, orgNextId: nat, agents: seq<Agent>, s: seq<Agent>, row: string, n: nat)
    requires DistinctIds(agents) && DistinctIds(s) && TopoSorted(agents, s)
    requires forall a :: a in s <==> a in agents
    requires forall a :: a in agents && Activated(cfg, a) ==> Rooted(agents, a)
    requires DistinctRows(cfg, s) && OrphansOn(cfg, s, row)
    requires OneLinkPerAgent(t) && RootOnly(t, row) && forall id :: id in t ==> id < nextId
    requires Fits(o) && forall id :: id in o ==> id < orgNextId
    requires n <= |s|
    ensures var sd := SeedPass(cfg, StartSeed(t, nextId, o, orgNextId), s[..n]);
      && (sd.Runs() <==> OrgAllows(cfg, s[..n], o))
      && (sd.Runs() ==> Fits(sd.here.table) && RootOnly(sd.here.table, row) && Fits(sd.org.table))
    ensures var mid := SeedPass(cfg, StartSeed(t, nextId, o, orgNextId), s);
      mid.Runs() ==> var st := SecondPass(mid.here, s[..n]); st.ok && Fits(st.table) && RootOnly(st.table, row)
    ensures Activate(cfg, StartSeed(t, nextId, o, orgNextId), s).Runs() <==> OrgAllows(cfg, s, o)
  {
    var start := StartSeed(t, nextId, o, orgNextId);
    SubaccountNeverRefused(cfg, t, nextId, agents, s, row, n);
    SeedSplits(cfg, start, s[..n]);
    OrgPassExact(cfg, s[..n], o, orgNextId);
    SeedSplits(cfg, start, s);
    ActivateSplits(cfg, t, nextId, o, orgNextId, s);
    OrgPassExact(cfg, s, o, orgNextId);
  }

  // ------------------------------------------------------------------ from empty subaccounts

  ghost predicate AtMostOneOrgScoped(cfg: Setup, s: seq<Agent>) {
    forall i, j :: 0 <= i < j < |s| ==> !(OrgScoped(cfg, s[i]) && OrgScoped(cfg, s[j]))
  }

  lemma OneTopOfNone(cfg: Setup, s: seq<Agent>)
    requires DistinctRows(cfg, s)
    ensures OneTop(cfg, s, map[]) <==> AtMostOneOrgScoped(cfg, s)
  {
    if OneTop(cfg, s, map[]) {
      forall i, j | 0 <= i < j < |s| && OrgScoped(cfg, s[i]) && OrgScoped(cfg, s[j]) ensures false {
        assert s[i] in s && s[j] in s;
        assert WillBeRoot(cfg, s, map[], cfg.orgAgent(s[i].slug)) && WillBeRoot(cfg, s, map[], cfg.orgAgent(s[j].slug));
      }
    }
    if AtMostOneOrgScoped(cfg, s) {
      forall x, y | WillBeRoot(cfg, s, map[], x) && WillBeRoot(cfg, s, map[], y) ensures x == y {
        var a :| a in s && OrgScoped(cfg, a) && cfg.orgAgent(a.slug) == x;
        var b :| b in s && OrgScoped(cfg, b) && cfg.orgAgent(b.slug) == y;
      }
    }
  }

  /**
   From empty subaccounts, in whatever order the agents come: the seed goes through exactly
   when at most one activated agent is without an activated parent and, if some agent is
   org-scoped, asking for the org subaccount does not throw, and if there is one, only one
   agent is.  Then each activated agent has an active link whose parent is the link of its
   parent, or none when that is not activated.
   */
  lemma EmptyStartExact(cfg: Setup, nextId: nat, orgNextId: nat, s: seq<Agent>)
    requires DistinctIds(s) && DistinctRows(cfg, s)
    ensures var end := Activate(cfg, StartSeed(map[], nextId, map[], orgNextId), s);
      && (end.Runs() <==>
            && AtMostOneOrphan(cfg, s, |s|)
            && (SomeOrgScoped(cfg, s) ==>
                  !cfg.orgAccess.Unreachable? && (cfg.orgAccess.Opened? ==> AtMostOneOrgScoped(cfg, s))))
      && (end.Runs() ==>
            && Mirrors(cfg, s, end.here)
            && OrgOutcome(cfg, s, map[], end.org.table))
  {
    EmptySubaccountExact(cfg, nextId, s);
    OrgPassExact(cfg, s, map[], orgNextId);
    OrgPassOutcome(cfg, s, map[], orgNextId);
    OneTopOfNone(cfg, s);
    ActivateSplits(cfg, map[], nextId, map[], orgNextId, s);
  }

  /**
   Two org-scoped agents cannot both be linked to an empty org subaccount: the second ends
   the seed, and the first one's link is all that is left.
   */
  lemma TwoOrgAgentsRefused(cfg: Setup, a: Agent, b: Agent, nextId: nat, orgNextId: nat)
    requires cfg.orgAccess.Opened? && OrgScoped(cfg, a) && OrgScoped(cfg, b) && a.id != b.id
    requires cfg.orgAgent(a.slug) != cfg.orgAgent(b.slug)
    ensures var end := Activate(cfg, StartSeed(map[], nextId, map[], orgNextId), [a, b]);
      && !end.Runs()
      && end.here.table == map[]
      && end.org.table == map[orgNextId := Link(cfg.orgAgent(a.slug), true, None)]
  {
    EmptyStartExact(cfg, nextId, orgNextId, [a, b]);
    assert [a, b][0] == a && [a, b][1] == b && a in [a, b];
    var start := StartSeed(map[], nextId, map[], orgNextId);
    var s := [a, b];
    assert s[..1] == [a] && s[..2] == s && [a][..0] == [];
    NothingToSwitchOff(cfg, nextId, s);
    NothingToSwitchOff(cfg, nextId, [a]);
    assert OrgPass(cfg, start.org, [a]) == LinkToOrg(start.org, cfg.orgAgent(a.slug));
    var one: Table := map[orgNextId := Link(cfg.orgAgent(a.slug), true, None)];
    assert Fits(one) && OrgPass(cfg, start.org, [a]).table == one;
    ActivateSplits(cfg, map[], nextId, map[], orgNextId, s);
    assert ActivateHere(cfg, map[], nextId, s).ok by { IdleSecondPass(start.here, s); }
    SeedStops(cfg, start, s, 1);
  }

  /** Over empty links, org-scoped agents change nothing in the seeded subaccount. */
  lemma {:induction false} NothingToSwitchOff(cfg: Setup, nextId: nat, s: seq<Agent>)
    requires forall a :: a in s ==> OrgScoped(cfg, a)
    ensures FirstPass(cfg, Start(map[], nextId), s) == Start(map[], nextId)
  {
    if s != [] {
      assert s[|s| - 1] in s;
      NothingToSwitchOff(cfg, nextId, s[..|s| - 1]);
    }
  }

  /**
   Without an org context the seed ends at the first org-scoped agent, from any tables: its
   link in the seeded subaccount is switched off, the agents before it are done, nobody
   after it is, and the org subaccount is as it was.
   */
  lemma OrgContextMissing(cfg: Setup, t: Table, nextId: nat, o: Table, orgNextId: nat, s: seq<Agent>, k: nat)
    requires cfg.orgAccess.Unreachable? && k < |s| && OrgScoped(cfg, s[k])
    requires forall i :: 0 <= i < k ==> !OrgScoped(cfg, s[i])
    ensures var end := Activate(cfg, StartSeed(t, nextId, o, orgNextId), s);
      && !end.Runs()
      && end.org.table == o
      && (FirstPass(cfg, Start(t, nextId), s[..k]).ok ==> end.here == FirstPass(cfg, Start(t, nextId), s[..k + 1]))
  {
    assert s[k] in s;
    ClosedPass(cfg, s, Org(o, orgNextId, true));
    ActivateSplits(cfg, t, nextId, o, orgNextId, s);
    var start := StartSeed(t, nextId, o, orgNextId);
    OrgOnlyReads(cfg, start, s);
    ClosedPass(cfg, s[..k], start.org);
    assert s[k] in s[..k + 1];
    ClosedPass(cfg, s[..k + 1], start.org);
    if FirstPass(cfg, start.here, s[..k]).ok { SeedStops(cfg, start, s, k); }
  }

  /** Without an opened org subaccount its table never changes. */
  lemma {:induction false} OrgOnlyReads(cfg: Setup, sd: Seed, s: seq<Agent>)
    requires !cfg.orgAccess.Opened?
    ensures SeedPass(cfg, sd, s).org.table == sd.org.table
  {
    if s != [] { OrgOnlyReads(cfg, sd, s[..|s| - 1]); }
  }

  // ------------------------------------------------------------------ where the seed stops

  lemma {:induction false} FirstPassStays(cfg: Setup, st: State, s: seq<Agent>)
    requires !st.ok
    ensures FirstPass(cfg, st, s) == st
  {
    if s != [] { FirstPassStays(cfg, st, s[..|s| - 1]); }
  }

  lemma {:induction false} OrgPassStays(cfg: Setup, o: Org, s: seq<Agent>)
    requires !o.ok
    ensures OrgPass(cfg, o, s) == o
  {
    if s != [] { OrgPassStays(cfg, o, s[..|s| - 1]); }
  }

  /** The `k`-th agent is the first at which one of the two subaccounts alone would stop the seed. */
  ghost predicate StopsAt(cfg: Setup, sd: Seed, s: seq<Agent>, k: nat) {
    && k < |s|
    && FirstPass(cfg, sd.here, s[..k]).ok && OrgPass(cfg, sd.org, s[..k]).ok
    && !(FirstPass(cfg, sd.here, s[..k + 1]).ok && OrgPass(cfg, sd.org, s[..k + 1]).ok)
  }

  lemma {:induction false} StoppedStays(cfg: Setup, sd: Seed, s: seq<Agent>, n: nat)
    requires n <= |s| && !SeedPass(cfg, sd, s[..n]).Runs()
    ensures SeedPass(cfg, sd, s) == SeedPass(cfg, sd, s[..n])
    decreases |s| - n
  {
    if n < |s| {
      assert s[..n + 1][..n] == s[..n];
      StoppedStays(cfg, sd, s, n + 1);
    } else {
      assert s[..n] == s;
    }
  }

  /**
   Once stopped, nothing more happens: the seeded subaccount is as the first pass leaves it
   after that agent, the org subaccount as it leaves it before, and there is no second pass.
   */
  lemma SeedStops(cfg: Setup, sd: Seed, s: seq<Agent>, k: nat)
    requires sd.Runs() && StopsAt(cfg, sd, s, k)
    ensures var end := Activate(cfg, sd, s);
      && !end.Runs()
      && end.here == FirstPass(cfg, sd.here, s[..k + 1])
      && end.org.table == OrgPass(cfg, sd.org, s[..k]).table
      && end.org.nextId == OrgPass(cfg, sd.org, s[..k]).nextId
  {
    SeedSplits(cfg, sd, s[..k]);
    SeedSplits(cfg, sd, s[..k + 1]);
    StoppedStays(cfg, sd, s, k + 1);
    assert s[..k + 1][..k] == s[..k];
    var before := SeedPass(cfg, sd, s[..k]);
    assert SeedPass(cfg, sd, s[..k + 1]) == SeedStep(cfg, before, s[k]);
    RefusedOrgStep(cfg, before.org, s[k]);
  }

  lemma RefusedOrgStep(cfg: Setup, o: Org, a: Agent)
    ensures !OrgStep(cfg, o, a).ok ==> OrgStep(cfg, o, a).table == o.table && OrgStep(cfg, o, a).nextId == o.nextId
  {
  }

  /** A first pass that does not go through stops at some agent. */
  lemma {:induction false} SeedStopsSomewhere(cfg: Setup, sd: Seed, s: seq<Agent>)
    requires sd.Runs() && !SeedPass(cfg, sd, s).Runs()
    ensures exists k: nat :: StopsAt(cfg, sd, s, k)
  {
    var n := |s| - 1;
    SeedSplits(cfg, sd, s);
    SeedSplits(cfg, sd, s[..n]);
    if SeedPass(cfg, sd, s[..n]).Runs() {
      assert s[..n + 1] == s;
      assert StopsAt(cfg, sd, s, n);
    } else {
      SeedStopsSomewhere(cfg, sd, s[..n]);
      var k: nat :| StopsAt(cfg, sd, s[..n], k);
      assert s[..n][..k] == s[..k] && s[..n][..k + 1] == s[..k + 1];
      assert StopsAt(cfg, sd, s, k);
    }
  }

  /** The rows of one agent row. */
  ghost function RowsOf(t: Table, agentId: string): Table {
    map id | id in t && t[id].agentId == agentId :: t[id]
  }

  /** What the ids of a table are below. */
  ghost predicate Below(t: Table, nextId: nat) { forall id :: id in t ==> id < nextId }

  /** The first pass over a list changes and inserts rows of that list's agents only. */
  lemma {:induction false} FirstPassTouches(cfg: Setup, st: State, s: seq<Agent>, agentId: string)
    requires Below(st.table, st.nextId)
    requires forall a :: a in s && a.slug !in cfg.customSlugs ==> cfg.orgAgent(a.slug) != agentId
    ensures RowsOf(FirstPass(cfg, st, s).table, agentId) == RowsOf(st.table, agentId)
    ensures Below(FirstPass(cfg, st, s).table, FirstPass(cfg, st, s).nextId)
  {
    if s != [] {
      var front, a := s[..|s| - 1], s[|s| - 1];
      assert s == front + [a];
      FirstPassTouches(cfg, st, front, agentId);
      FirstStepTouches(cfg, FirstPass(cfg, st, front), a, agentId);
    }
  }

  lemma FirstStepTouches(cfg: Setup, st: State, a: Agent, agentId: string)
    requires Below(st.table, st.nextId) && (a.slug !in cfg.customSlugs ==> cfg.orgAgent(a.slug) != agentId)
    ensures RowsOf(FirstStep(cfg, st, a).table, agentId) == RowsOf(st.table, agentId)
    ensures Below(FirstStep(cfg, st, a).table, FirstStep(cfg, st, a).nextId)
  {
    var row := cfg.orgAgent(a.slug);
    if st.ok && a.slug !in cfg.customSlugs {
      if HasLink(st.table, row) {
        var id := LinkOf(st.table, row);
        WriteTouches(st, id, st.table[id].(isActive := false), agentId);
        WriteTouches(st, id, Refreshed(st.table[id], st.links, a), agentId);
      } else {
        WriteTouches(st, st.nextId, Link(row, false, None), agentId);
      }
    }
  }

  /** Only rows of the written link's agent change. */
  lemma WriteTouches(st: State, id: nat, l: Link, agentId: string)
    requires Below(st.table, st.nextId) && l.agentId != agentId
    requires id in st.table ==> st.table[id].agentId != agentId
    ensures RowsOf(Write(st, id, l).table, agentId) == RowsOf(st.table, agentId)
    ensures Write(st, id, l).nextId == st.nextId && forall k :: k in Write(st, id, l).table ==> k < st.nextId || k == id
  {
  }

  /** Agents after the one that stopped the seed have the rows they had. */
  lemma LaterAgentsUntouched(cfg: Setup, sd: Seed, s: seq<Agent>, k: nat, j: nat)
    requires sd.Runs() && StopsAt(cfg, sd, s, k) && k < j < |s| && DistinctRows(cfg, s)
    requires Below(sd.here.table, sd.here.nextId)
    ensures var row := cfg.orgAgent(s[j].slug);
      RowsOf(Activate(cfg, sd, s).here.table, row) == RowsOf(sd.here.table, row)
  {
    SeedStops(cfg, sd, s, k);
    var row := cfg.orgAgent(s[j].slug);
    forall a | a in s[..k + 1] ensures cfg.orgAgent(a.slug) != row {
      var i :| 0 <= i < k + 1 && s[i] == a;
    }
    FirstPassTouches(cfg, sd.here, s[..k + 1], row);
  }

  // ------------------------------------------------------------------ the seed in place

  /** The list may come in any order. */
  lemma PermutedOwners(cfg: Setup, a: seq<Agent>, b: seq<Agent>)
    requires forall x :: x in a <==> x in b
    ensures forall x :: OwnedByOrg(cfg, a, x) <==> OwnedByOrg(cfg, b, x)
    ensures SomeOrgScoped(cfg, a) <==> SomeOrgScoped(cfg, b)
  {
  }

  lemma PermutedAllows(cfg: Setup, a: seq<Agent>, b: seq<Agent>, t0: Table)
    requires (forall x :: x in a <==> x in b) && OrgAllows(cfg, a, t0)
    ensures OrgAllows(cfg, b, t0)
  {
    PermutedOwners(cfg, a, b);
    if cfg.orgAccess.Opened? && SomeOrgScoped(cfg, b) {
      forall x, y | WillBeRoot(cfg, b, t0, x) && WillBeRoot(cfg, b, t0, y) ensures x == y {
        assert WillBeRoot(cfg, a, t0, x) && WillBeRoot(cfg, a, t0, y);
      }
    }
  }

  lemma PermutedOrg(cfg: Setup, a: seq<Agent>, b: seq<Agent>, t0: Table, t: Table)
    requires forall x :: x in a <==> x in b
    ensures OrgOutcome(cfg, a, t0, t) ==> OrgOutcome(cfg, b, t0, t)
    ensures OrgSettled(cfg, a, t) ==> OrgSettled(cfg, b, t)
  {
    PermutedOwners(cfg, a, b);
  }

  /** Both subaccounts have nothing left to do. */
  ghost predicate AllSettled(cfg: Setup, agents: seq<Agent>, t: Table, o: Table) {
    Settled(cfg, agents, t) && OrgSettled(cfg, agents, o)
  }

  /** The org half of the seed over the sorted agents, said of the agents as they were given. */
  lemma SortedOrg(cfg: Setup, o: Table, orgNextId: nat, agents: seq<Agent>, sorted: seq<Agent>)
    requires (forall x :: x in agents <==> x in sorted) && Fits(o) && forall id :: id in o ==> id < orgNextId
    ensures var end := OrgPass(cfg, Org(o, orgNextId, true), sorted);
      && (end.ok <==> OrgAllows(cfg, agents, o))
      && (end.ok ==> OrgOutcome(cfg, agents, o, end.table) && OrgSettled(cfg, agents, end.table))
      && (end.ok && OrgSettled(cfg, agents, o) ==> end.table == o && end.nextId == orgNextId)
  {
    OrgPassExact(cfg, sorted, o, orgNextId);
    OrgPassOutcome(cfg, sorted, o, orgNextId);
    if OrgAllows(cfg, agents, o) { PermutedAllows(cfg, agents, sorted, o); }
    if OrgAllows(cfg, sorted, o) { PermutedAllows(cfg, sorted, agents, o); }
    var end := OrgPass(cfg, Org(o, orgNextId, true), sorted);
    if end.ok {
      PermutedOrg(cfg, sorted, agents, o, end.table);
      OrgOutcomeIsSettled(cfg, agents, o, end.table);
      if OrgSettled(cfg, agents, o) {
        PermutedOrg(cfg, agents, sorted, o, o);
        OrgIsFixed(cfg, sorted, o, orgNextId);
      }
    }
  }

  /**
   Sort, then both passes.  Under the law's assumptions the seed goes through exactly when
   the org subaccount allows it; then only the root's link is left on top, every row of
   both subaccounts is as the outcomes say, and both are settled; and from settled tables
   the seed leaves them as they were.
   */
  method ActivateBaseline(
    here: SubaccountLinks, org: SubaccountLinks, cfg: Setup, agents: seq<Agent>, ghost row: string)
    returns (ok: bool, ghost links: map<string, nat>)
    requires here != org && here.Valid() && org.Valid() && RootOnly(here.rows, row)
    requires DistinctIds(agents) && DistinctRows(cfg, agents) && OrphansOn(cfg, agents, row)
    requires forall a :: a in agents && Activated(cfg, a) ==> Rooted(agents, a)
    modifies here, org
    ensures here.Valid() && org.Valid()
    ensures ok <==> OrgAllows(cfg, agents, old(org.rows))
    ensures ok ==> RootOnly(here.rows, row)
    ensures ok ==> Outcome(cfg, agents, old(here.rows), here.rows, links)
    ensures ok ==> OrgOutcome(cfg, agents, old(org.rows), org.rows)
    ensures ok ==> AllSettled(cfg, agents, here.rows, org.rows)
    ensures ok && old(AllSettled(cfg, agents, here.rows, org.rows)) ==>
      here.rows == old(here.rows) && org.rows == old(org.rows)
  {
    var sorted := TopoSort(agents);
    SameMembers(agents, sorted);
    SortedSeed(cfg, here.rows, here.nextId, agents, sorted, row);
    SortedOrg(cfg, org.rows, org.nextId, agents, sorted);
    ActivateSplits(cfg, here.rows, here.nextId, org.rows, org.nextId, sorted);
    ghost var end;
    ok, end := ActivateAll(here, org, cfg, sorted);
    links := end.here.links;
  }

  /** Seeding twice, with the agents read in another order the second time, is seeding once. */
  method ActivateTwice(
    here: SubaccountLinks, org: SubaccountLinks, cfg: Setup,
    agents: seq<Agent>, again: seq<Agent>, ghost row: string)
    returns (first: bool, second: bool, ghost once: Table, ghost onceOrg: Table)
    requires here != org && here.Valid() && org.Valid() && RootOnly(here.rows, row)
    requires DistinctIds(agents) && DistinctRows(cfg, agents) && OrphansOn(cfg, agents, row)
    requires forall a :: a in agents && Activated(cfg, a) ==> Rooted(agents, a)
    requires multiset(again) == multiset(agents)
    modifies here, org
    ensures first <==> OrgAllows(cfg, agents, old(org.rows))
    ensures first ==> exists links :: Outcome(cfg, agents, old(here.rows), once, links)
    ensures first ==> OrgOutcome(cfg, agents, old(org.rows), onceOrg)
    ensures first ==> second && here.rows == once && org.rows == onceOrg
  {
    ghost var links;
    first, links := ActivateBaseline(here, org, cfg, agents, row);
    once, onceOrg, second := here.rows, org.rows, false;
    if first {
      SecondSeedAllowed(cfg, agents, again, here.rows, org.rows, row);
      ghost var unused;
      second, unused := ActivateBaseline(here, org, cfg, again, row);
    }
  }

  lemma SecondSeedAllowed(cfg: Setup, agents: seq<Agent>, again: seq<Agent>, t: Table, o: Table, row: string)
    requires DistinctIds(agents) && DistinctRows(cfg, agents) && OrphansOn(cfg, agents, row)
    requires forall a :: a in agents && Activated(cfg, a) ==> Rooted(agents, a)
    requires multiset(again) == multiset(agents) && AllSettled(cfg, agents, t, o) && Fits(o)
    requires SomeOrgScoped(cfg, agents) ==> !cfg.orgAccess.Unreachable?
    ensures DistinctIds(again) && DistinctRows(cfg, again) && OrphansOn(cfg, again, row)
    ensures forall a :: a in again && Activated(cfg, a) ==> Rooted(again, a)
    ensures AllSettled(cfg, again, t, o) && OrgAllows(cfg, again, o)
  {
    SameMembers(agents, again);
    PermutationIsDistinct(agents, again);
    PermutedSetup(cfg, agents, again, row);
    PermutedSettled(cfg, agents, again, t);
    PermutedOrg(cfg, agents, again, o, o);
    PermutedOwners(cfg, agents, again);
    SettledAllows(cfg, again, o);
    forall a | a in again && Activated(cfg, a) ensures Rooted(again, a) { PermutedRooted(agents, again, a); }
  }
}
