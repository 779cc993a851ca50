/**
 The two passes of `activateBaselineSystemAgents` in `scripts/seed.ts` over the links of
 two subaccounts: the one that is seeded, and the org subaccount, which org-scoped agents
 are linked to.  Each has a unique index on the agent and a partial unique index that
 allows one active link without a parent; a write that breaks either is refused by the
 database and ends the seed.
 */
module AgentActivation {
  import opened Wrappers
  import opened AgentHierarchy

  /** A `subaccount_agents` row of a subaccount. */
  datatype Link = Link(agentId: string, isActive: bool, parent: Option<nat>)

  type Table = map<nat, Link>

  /** Asking for the org subaccount gives it, or nothing, or throws because there is no org context. */
  datatype OrgAccess = Opened | NotThere | Unreachable

  /** Slugs taken by custom agents, the org-level agent row of each slug, and the org subaccount. */
  datatype Setup = Setup(customSlugs: set<string>, orgAgent: string -> string, orgAccess: OrgAccess)

  /** The agent gets a link in the seeded subaccount. */
  predicate Activated(cfg: Setup, a: Agent) { a.slug !in cfg.customSlugs && !a.orgScoped }

  /** The agent's link in the seeded subaccount is switched off, and it gets one in the org subaccount. */
  predicate OrgScoped(cfg: Setup, a: Agent) { a.slug !in cfg.customSlugs && a.orgScoped }

  // ------------------------------------------------------------------ the indexes

  predicate IsActiveRoot(l: Link) { l.isActive && l.parent.None? }

  predicate OneRoot(t: Table) {
    forall i, j :: i in t && j in t && IsActiveRoot(t[i]) && IsActiveRoot(t[j]) ==> i == j
  }

  predicate OneLinkPerAgent(t: Table) {
    forall i, j :: i in t && j in t && t[i].agentId == t[j].agentId ==> i == j
  }

  predicate Fits(t: Table) { OneRoot(t) && OneLinkPerAgent(t) }

  // ------------------------------------------------------------------ the seeded subaccount

  /** `links` maps a system agent to its link; `added` holds the links inserted in this run. */
  datatype State = State(table: Table, links: map<string, nat>, added: set<nat>, nextId: nat, ok: bool)

  /** One write; refused when an index would break. */
  function Write(st: State, id: nat, l: Link): State {
    if Fits(st.table[id := l]) then st.(table := st.table[id := l]) else st.(ok := false)
  }

  predicate HasLink(t: Table, agentId: string) { exists id :: id in t && t[id].agentId == agentId }

  ghost function LinkOf(t: Table, agentId: string): (id: nat)
    requires HasLink(t, agentId)
    ensures id in t && t[id].agentId == agentId
  {
    var id :| id in t && t[id].agentId == agentId;
    id
  }

  /** The link of the agent's parent, when it has one already. */
  function ParentLink(links: map<string, nat>, a: Agent): Option<nat> {
    if HasParent(a) && a.parent.value in links then Some(links[a.parent.value]) else None
  }

  /** The refreshed link: active, and with the parent repaired when it lacked one it should have. */
  function Refreshed(l: Link, links: map<string, nat>, a: Agent): Link {
    Link(l.agentId, true, if l.parent.None? && HasParent(a) then ParentLink(links, a) else l.parent)
  }

  /** An org-scoped agent's link in the seeded subaccount is switched off. */
  function Deactivate(st: State, id: nat): State
    requires id in st.table
  {
    if st.table[id].isActive then Write(st, id, st.table[id].(isActive := false)) else st
  }

  /** An existing link is refreshed. */
  function Refresh(st: State, id: nat, a: Agent): State
    requires id in st.table
  {
    var st1 := Write(st, id, Refreshed(st.table[id], st.links, a));
    if st1.ok then st1.(links := st.links[a.id := id]) else st1
  }

  /** A new link is inserted, inactive and without a parent. */
  function InsertLink(st: State, row: string, a: Agent): State {
    var st1 := Write(st, st.nextId, Link(row, false, None));
    if st1.ok
    then st1.(links := st.links[a.id := st.nextId], added := st.added + {st.nextId}, nextId := st.nextId + 1)
    else st1
  }

  ghost function FirstStep(cfg: Setup, st: State, a: Agent): State {
    if !st.ok || a.slug in cfg.customSlugs then st
    else
      var row := cfg.orgAgent(a.slug);
      if a.orgScoped then
        if HasLink(st.table, row) then Deactivate(st, LinkOf(st.table, row)) else st
      else if HasLink(st.table, row) then Refresh(st, LinkOf(st.table, row), a)
      else InsertLink(st, row, a)
  }

  function SecondStep(st: State, a: Agent): State {
    if !st.ok || a.id !in st.links || st.links[a.id] !in st.added || st.links[a.id] !in st.table then st
    else
      var id := st.links[a.id];
      Write(st, id, Link(st.table[id].agentId, true, ParentLink(st.links, a)))
  }

  ghost function FirstPass(cfg: Setup, st: State, s: seq<Agent>): State {
    if s == [] then st else FirstStep(cfg, FirstPass(cfg, st, s[..|s| - 1]), s[|s| - 1])
  }

  function SecondPass(st: State, s: seq<Agent>): State {
    if s == [] then st else SecondStep(SecondPass(st, s[..|s| - 1]), s[|s| - 1])
  }

  /** What holds before a pass and is kept by each of its steps holds after it. */
  lemma {:induction false} FirstPassInduction(
    cfg: Setup, st: State, s: seq<Agent>, n: nat, inv: (nat, State) -> bool)
    requires n <= |s| && inv(0, st)
    requires forall k: nat, x :: k < n && inv(k, x) ==> inv(k + 1, FirstStep(cfg, x, s[k]))
    ensures inv(n, FirstPass(cfg, st, s[..n]))
  {
    if n > 0 {
      FirstPassInduction(cfg, st, s, n - 1, inv);
      assert s[..n][..n - 1] == s[..n - 1];
    }
  }

  lemma {:induction false} SecondPassInduction(st: State, s: seq<Agent>, n: nat, inv: (nat, State) -> bool)
    requires n <= |s| && inv(0, st)
    requires forall k: nat, x :: k < n && inv(k, x) ==> inv(k + 1, SecondStep(x, s[k]))
    ensures inv(n, SecondPass(st, s[..n]))
  {
    if n > 0 {
      SecondPassInduction(st, s, n - 1, inv);
      assert s[..n][..n - 1] == s[..n - 1];
    }
  }

  /** The last step of a first pass over the first `n` agents. */
  lemma FirstPassLast(cfg: Setup, st: State, s: seq<Agent>, n: nat)
    requires 0 < n <= |s|
    ensures FirstPass(cfg, st, s[..n]) == FirstStep(cfg, FirstPass(cfg, st, s[..n - 1]), s[n - 1])
  {
    assert s[..n][..n - 1] == s[..n - 1];
  }

  ghost function Start(t: Table, nextId: nat): State { State(t, map[], {}, nextId, true) }

  /** What both passes do to the seeded subaccount, if nothing else stops them. */
  ghost function ActivateHere(cfg: Setup, t: Table, nextId: nat, s: seq<Agent>): State {
    SecondPass(FirstPass(cfg, Start(t, nextId), s), s)
  }

  // ------------------------------------------------------------------ the org subaccount

  datatype Org = Org(table: Table, nextId: nat, ok: bool)

  function WriteOrg(o: Org, id: nat, l: Link): Org {
    if Fits(o.table[id := l]) then o.(table := o.table[id := l]) else o.(ok := false)
  }

  /** An existing link is switched on, under the parent it has; a missing one is inserted, active and on top. */
  ghost function LinkToOrg(o: Org, row: string): Org {
    if HasLink(o.table, row) then
      var id := LinkOf(o.table, row);
      WriteOrg(o, id, o.table[id].(isActive := true))
    else
      var o1 := WriteOrg(o, o.nextId, Link(row, true, None));
      if o1.ok then o1.(nextId := o.nextId + 1) else o1
  }

  ghost function OrgStep(cfg: Setup, o: Org, a: Agent): Org {
    if !o.ok || !OrgScoped(cfg, a) then o
    else
      match cfg.orgAccess
      case Opened => LinkToOrg(o, cfg.orgAgent(a.slug))
      case NotThere => o
      case Unreachable => o.(ok := false)
  }

  ghost function OrgPass(cfg: Setup, o: Org, s: seq<Agent>): Org {
    if s == [] then o else OrgStep(cfg, OrgPass(cfg, o, s[..|s| - 1]), s[|s| - 1])
  }

  // ------------------------------------------------------------------ the seed

  /** Both subaccounts; the seed runs on while neither has refused a write. */
  datatype Seed = Seed(here: State, org: Org) {
    predicate Runs() { here.ok && org.ok }
  }

  /** One agent: first the seeded subaccount, then, if it is org-scoped, the org subaccount. */
  ghost function SeedStep(cfg: Setup, sd: Seed, a: Agent): Seed {
    if !sd.Runs() then sd
    else
      var here := FirstStep(cfg, sd.here, a);
      Seed(here, if here.ok then OrgStep(cfg, sd.org, a) else sd.org)
  }

  ghost function SeedPass(cfg: Setup, sd: Seed, s: seq<Agent>): Seed {
    if s == [] then sd else SeedStep(cfg, SeedPass(cfg, sd, s[..|s| - 1]), s[|s| - 1])
  }

  ghost function StartSeed(t: Table, nextId: nat, o: Table, orgNextId: nat): Seed {
    Seed(Start(t, nextId), Org(o, orgNextId, true))
  }

  /** The first pass, and the second unless the first was stopped. */
  ghost function Activate(cfg: Setup, sd: Seed, s: seq<Agent>): Seed {
    var mid := SeedPass(cfg, sd, s);
    if mid.Runs() then mid.(here := SecondPass(mid.here, s)) else mid
  }

  // ------------------------------------------------------------------ the passes in place

  /** The links of one subaccount. */
  class SubaccountLinks {
    var rows: Table
    var nextId: nat

    ghost predicate Valid()
      reads this
    {
      Fits(rows) && forall id :: id in rows ==> id < nextId
    }

    constructor ()
      ensures Valid() && rows == map[]
    {
      rows, nextId := map[], 0;
    }

    method WriteLink(id: nat, l: Link) returns (ok: bool)
      modifies this`rows
      ensures ok == Fits(old(rows)[id := l])
      ensures rows == if ok then old(rows)[id := l] else old(rows)
    {
      ok := Fits(rows[id := l]);
      if ok {
        rows := rows[id := l];
      }
    }

    method FindLink(agentId: string) returns (id: Option<nat>)
      requires OneLinkPerAgent(rows)
      ensures id.Some? <==> HasLink(rows, agentId)
      ensures id.Some? ==> id.value == LinkOf(rows, agentId)
    {
      if HasLink(rows, agentId) {
        var i :| i in rows && rows[i].agentId == agentId;
        id := Some(i);
      } else {
        id := None;
      }
    }

    /** The first pass on the seeded subaccount, for one agent. */
    method LinkHere(cfg: Setup, a: Agent, links: map<string, nat>, added: set<nat>)
      returns (ok: bool, links': map<string, nat>, added': set<nat>)
      requires Valid()
      modifies this
      ensures State(rows, links', added', nextId, ok) ==
              FirstStep(cfg, State(old(rows), links, added, old(nextId), true), a)
      ensures Valid()
    {
      ok, links', added' := true, links, added;
      if a.slug in cfg.customSlugs { return; }
      var row := cfg.orgAgent(a.slug);
      var existing := FindLink(row);
      if a.orgScoped {
        if existing.Some? && rows[existing.value].isActive {
          ok := WriteLink(existing.value, rows[existing.value].(isActive := false));
        }
      } else if existing.Some? {
        ok := WriteLink(existing.value, Refreshed(rows[existing.value], links, a));
        if ok {
          links' := links[a.id := existing.value];
        }
      } else {
        ok := WriteLink(nextId, Link(row, false, None));
        if ok {
          links', added' := links[a.id := nextId], added + {nextId};
          nextId := nextId + 1;
        }
      }
    }

    /** The first pass on the org subaccount, for one agent. */
    method LinkInOrg(cfg: Setup, a: Agent) returns (ok: bool)
      requires Valid()
      modifies this
      ensures Org(rows, nextId, ok) == OrgStep(cfg, Org(old(rows), old(nextId), true), a)
      ensures Valid()
    {
      ok := true;
      if !OrgScoped(cfg, a) || cfg.orgAccess.NotThere? { return; }
      if cfg.orgAccess.Unreachable? { return false; }
      var row := cfg.orgAgent(a.slug);
      var existing := FindLink(row);
      if existing.Some? {
        ok := WriteLink(existing.value, rows[existing.value].(isActive := true));
      } else {
        ok := WriteLink(nextId, Link(row, true, None));
        if ok {
          nextId := nextId + 1;
        }
      }
    }

    /** The second pass: the inserted links get their parents and are switched on. */
    method WireParents(s: seq<Agent>, links: map<string, nat>, added: set<nat>) returns (ok: bool)
      requires Valid()
      modifies this`rows
      ensures State(rows, links, added, nextId, ok) == SecondPass(State(old(rows), links, added, nextId, true), s)
      ensures Valid()
    {
      ok := true;
      for i := 0 to |s|
        invariant State(rows, links, added, nextId, ok) ==
                  SecondPass(State(old(rows), links, added, nextId, true), s[..i])
        invariant Valid()
      {
        assert s[..i + 1][..i] == s[..i];
        var a := s[i];
        if ok && a.id in links && links[a.id] in added && links[a.id] in rows {
          var id := links[a.id];
          ok := WriteLink(id, Link(rows[id].agentId, true, ParentLink(links, a)));
        }
      }
      assert s[..|s|] == s;
    }
  }

  /** Both passes; the state they end in is that of `Activate`, refused writes included. */
  method ActivateAll(here: SubaccountLinks, org: SubaccountLinks, cfg: Setup, s: seq<Agent>)
    returns (ok: bool, ghost end: Seed)
    requires here != org && here.Valid() && org.Valid()
    modifies here, org
    ensures end == Activate(cfg, StartSeed(old(here.rows), old(here.nextId), old(org.rows), old(org.nextId)), s)
    ensures ok == end.Runs()
    ensures here.rows == end.here.table && here.nextId == end.here.nextId
    ensures org.rows == end.org.table && org.nextId == end.org.nextId
    ensures here.Valid() && org.Valid()
  {
    ghost var start := StartSeed(here.rows, here.nextId, org.rows, org.nextId);
    var links, added;
    ok, links, added, end := LinkAll(here, org, cfg, s);
    if ok {
      ok := here.WireParents(s, links, added);
      end := end.(here := State(here.rows, links, added, here.nextId, ok));
    }
  }

  /** The first pass. */
  method LinkAll(here: SubaccountLinks, org: SubaccountLinks, cfg: Setup, s: seq<Agent>)
    returns (ok: bool, links: map<string, nat>, added: set<nat>, ghost end: Seed)
    requires here != org && here.Valid() && org.Valid()
    modifies here, org
    ensures end == SeedPass(cfg, StartSeed(old(here.rows), old(here.nextId), old(org.rows), old(org.nextId)), s)
    ensures ok == end.Runs() && links == end.here.links && added == end.here.added
    ensures here.rows == end.here.table && here.nextId == end.here.nextId
    ensures org.rows == end.org.table && org.nextId == end.org.nextId
    ensures here.Valid() && org.Valid()
  {
    ghost var start := StartSeed(here.rows, here.nextId, org.rows, org.nextId);
    ok, links, added := true, map[], {};
    var okOrg := true;
    for i := 0 to |s|
      invariant Seed(State(here.rows, links, added, here.nextId, ok), Org(org.rows, org.nextId, okOrg)) ==
                SeedPass(cfg, start, s[..i])
      invariant here.Valid() && org.Valid()
    {
      assert s[..i + 1][..i] == s[..i];
      if ok && okOrg {
        ok, links, added := here.LinkHere(cfg, s[i], links, added);
        if ok {
          okOrg := org.LinkInOrg(cfg, s[i]);
        }
      }
    }
    assert s[..|s|] == s;
    end := SeedPass(cfg, start, s);
    ok := ok && okOrg;
  }
}
