/** One agent for each host (frontend/src/pages/ProcessTree.jsx, dedupedAgents). */
module AgentList {
  import opened Options

  /** `active` tells whether the lower-cased status is "active" or "online";
      times are instants. */
  datatype Agent = Agent(id: string, hostname: string, active: bool, lastSeen: Option<int>, createdAt: Option<int>)

  function Key(a: Agent): string { if a.hostname != "" then a.hostname else a.id }

  function Stamp(a: Agent): Option<int> { if a.lastSeen.Some? then a.lastSeen else a.createdAt }

  /** Active before not; then later before earlier; a missing time is lowest. */
  predicate Better(a: Agent, b: Agent) {
    if a.active != b.active then a.active
    else Stamp(a).Some? && (Stamp(b).None? || Stamp(a).value > Stamp(b).value)
  }

  /** The keys, each where it appears first. */
  function Hosts(agents: seq<Agent>): seq<string> {
    if agents == [] then []
    else
      var before, k := Hosts(agents[..|agents| - 1]), Key(agents[|agents| - 1]);
      if k in before then before else before + [k]
  }

  /** The first agent of the host that no other one of it beats. */
  predicate Chosen(agents: seq<Agent>, host: string, i: int) {
    && 0 <= i < |agents| && Key(agents[i]) == host
    && (forall j :: 0 <= j < i && Key(agents[j]) == host ==> Better(agents[i], agents[j]))
    && (forall j :: i < j < |agents| && Key(agents[j]) == host ==> !Better(agents[j], agents[i]))
  }

  lemma OnlyOneChosen(agents: seq<Agent>, host: string, i: int, j: int)
    requires Chosen(agents, host, i) && Chosen(agents, host, j)
    ensures i == j
  {
  }

  lemma {:induction false} HostsHold(agents: seq<Agent>)
    ensures forall k :: k in Hosts(agents) <==> exists i :: 0 <= i < |agents| && Key(agents[i]) == k
    ensures forall i, j :: 0 <= i < j < |Hosts(agents)| ==> Hosts(agents)[i] != Hosts(agents)[j]
  {
    if agents != [] {
      var front, last := agents[..|agents| - 1], agents[|agents| - 1];
      HostsHold(front);
      forall k
        ensures k in Hosts(agents) <==> exists i :: 0 <= i < |agents| && Key(agents[i]) == k
      {
        if k in Hosts(agents) {
          if k in Hosts(front) {
            var i :| 0 <= i < |front| && Key(front[i]) == k;
            assert Key(agents[i]) == k;
          } else {
            assert Key(agents[|agents| - 1]) == k;
          }
        }
        if i :| 0 <= i < |agents| && Key(agents[i]) == k {
          if i < |front| {
            assert Key(front[i]) == k;
          }
        }
      }
    }
  }

  /** The agent chosen for the host. */
  ghost predicate Represents(agents: seq<Agent>, host: string, a: Agent) {
    exists i :: Chosen(agents, host, i) && agents[i] == a
  }

  /** What the table of hosts holds after some agents. */
  ghost predicate Holds(table: map<string, Agent>, agents: seq<Agent>) {
    && table.Keys == (set k | k in Hosts(agents))
    && forall k :: k in table ==> Represents(agents, k, table[k])
  }

  /** One more agent of a host already there: the winner is chosen in the longer
      list. */
  lemma ChosenNext(agents: seq<Agent>, a: Agent, i: int)
    requires Chosen(agents, Key(a), i)
    ensures Chosen(agents + [a], Key(a), if Better(a, agents[i]) then |agents| else i)
  {
  }

  lemma ChosenKept(agents: seq<Agent>, a: Agent, host: string, i: int)
    requires Chosen(agents, host, i) && Key(a) != host
    ensures Chosen(agents + [a], host, i)
  {
  }

  lemma {:induction false} ChosenNew(agents: seq<Agent>, a: Agent)
    requires Key(a) !in Hosts(agents)
    ensures Chosen(agents + [a], Key(a), |agents|)
  {
    HostsHold(agents);
  }

  /** The table after one more agent. */
  function Entered(table: map<string, Agent>, a: Agent): map<string, Agent> {
    if Key(a) in table && !Better(a, table[Key(a)]) then table else table[Key(a) := a]
  }

  lemma RepresentsKept(agents: seq<Agent>, a: Agent, host: string, chosen: Agent)
    requires Represents(agents, host, chosen) && Key(a) != host
    ensures Represents(agents + [a], host, chosen)
  {
    var i :| Chosen(agents, host, i) && agents[i] == chosen;
    ChosenKept(agents, a, host, i);
    assert (agents + [a])[i] == agents[i];
  }

  lemma RepresentsNext(agents: seq<Agent>, a: Agent, chosen: Agent)
    requires Represents(agents, Key(a), chosen)
    ensures Represents(agents + [a], Key(a), if Better(a, chosen) then a else chosen)
  {
    var i :| Chosen(agents, Key(a), i) && agents[i] == chosen;
    ChosenNext(agents, a, i);
    assert (agents + [a])[i] == agents[i] && (agents + [a])[|agents|] == a;
  }

  lemma RepresentsNew(agents: seq<Agent>, a: Agent)
    requires Key(a) !in Hosts(agents)
    ensures Represents(agents + [a], Key(a), a)
  {
    ChosenNew(agents, a);
    assert (agents + [a])[|agents|] == a;
  }

  lemma {:induction false} HoldsNext(table: map<string, Agent>, agents: seq<Agent>, a: Agent)
    requires Holds(table, agents)
    ensures Holds(Entered(table, a), agents + [a])
  {
    var next := Entered(table, a);
    forall k | k in next
      ensures Represents(agents + [a], k, next[k])
    {
      if k != Key(a) {
        RepresentsKept(agents, a, k, table[k]);
      } else if k in table {
        RepresentsNext(agents, a, table[k]);
      } else {
        RepresentsNew(agents, a);
      }
    }
    KeysNext(table, agents, a);
  }

  lemma KeysNext(table: map<string, Agent>, agents: seq<Agent>, a: Agent)
    requires table.Keys == set k | k in Hosts(agents)
    ensures Entered(table, a).Keys == set k | k in Hosts(agents + [a])
  {
    assert (agents + [a])[..|agents|] == agents;
  }

  method Enter(table: map<string, Agent>, a: Agent) returns (next: map<string, Agent>)
    ensures next == Entered(table, a)
  {
    next := table;
    if Key(a) !in table {
      next := table[Key(a) := a];
    } else {
      var existing := table[Key(a)];
      if a.active && !existing.active {
        next := table[Key(a) := a];
      } else if a.active || !existing.active {
        var aTs, eTs := Stamp(a), Stamp(existing);
        if aTs.Some? && (eTs.None? || aTs.value > eTs.value) {
          next := table[Key(a) := a];
        }
      }
    }
  }

  lemma OrderNext(table: map<string, Agent>, agents: seq<Agent>, a: Agent)
    requires Holds(table, agents)
    ensures Hosts(agents + [a]) == if Key(a) in table then Hosts(agents) else Hosts(agents) + [Key(a)]
  {
  }

  method Table(agents: seq<Agent>) returns (table: map<string, Agent>, order: seq<string>)
    ensures Holds(table, agents) && order == Hosts(agents)
  {
    table, order := map[], [];
    for n := 0 to |agents|
      invariant order == Hosts(agents[..n])
      invariant Holds(table, agents[..n])
    {
      assert agents[..n + 1] == agents[..n] + [agents[n]];
      HoldsNext(table, agents[..n], agents[n]);
      OrderNext(table, agents[..n], agents[n]);
      if Key(agents[n]) !in table {
        order := order + [Key(agents[n])];
      }
      table := Enter(table, agents[n]);
    }
    assert agents[..|agents|] == agents;
  }

  // ---------- The list, said of the agents ----------

  predicate SameHost(a: Agent, b: Agent) {
    (if a.hostname != "" then a.hostname else a.id) == (if b.hostname != "" then b.hostname else b.id)
  }

  /** Its last sighting, or without one its creation, is later. */
  predicate LaterSeen(a: Agent, b: Agent) {
    var s, t := if a.lastSeen.Some? then a.lastSeen else a.createdAt, if b.lastSeen.Some? then b.lastSeen else b.createdAt;
    s.Some? && (t.None? || s.value > t.value)
  }

  /** An active agent of the host if there is one, of those the latest seen, and of
      those the first. */
  predicate FirstBest(agents: seq<Agent>, i: nat)
    requires i < |agents|
  {
    forall j :: 0 <= j < |agents| && SameHost(agents[j], agents[i]) ==>
      && (agents[j].active ==> agents[i].active)
      && (agents[j].active == agents[i].active ==>
            !LaterSeen(agents[j], agents[i]) && (j < i ==> LaterSeen(agents[i], agents[j])))
  }

  ghost predicate IsFirstBest(agents: seq<Agent>, a: Agent) {
    exists i :: 0 <= i < |agents| && agents[i] == a && FirstBest(agents, i)
  }

  /** The first of the host of `a` comes before any of the host of `b`. */
  ghost predicate AppearsFirst(agents: seq<Agent>, a: Agent, b: Agent) {
    exists i :: 0 <= i < |agents| && SameHost(agents[i], a) && forall j :: 0 <= j <= i ==> !SameHost(agents[j], b)
  }

  /** Every host once, where it first appears, by the first best of its agents. */
  ghost predicate OneForEachHost(r: seq<Agent>, agents: seq<Agent>) {
    && (forall h :: 0 <= h < |r| ==> IsFirstBest(agents, r[h]))
    && (forall i :: 0 <= i < |agents| ==> exists h :: 0 <= h < |r| && SameHost(r[h], agents[i]))
    && (forall g, h :: 0 <= g < h < |r| ==> AppearsFirst(agents, r[g], r[h]))
  }

  ghost predicate KeyFirst(agents: seq<Agent>, k: string, l: string) {
    exists i :: 0 <= i < |agents| && Key(agents[i]) == k && forall j :: 0 <= j <= i ==> Key(agents[j]) != l
  }

  lemma {:induction false} HostsOrdered(agents: seq<Agent>, g: nat, h: nat)
    requires g < h < |Hosts(agents)|
    ensures KeyFirst(agents, Hosts(agents)[g], Hosts(agents)[h])
  {
    var front := agents[..|agents| - 1];
    HostsHold(front);
    var k, l := Hosts(agents)[g], Hosts(agents)[h];
    if h < |Hosts(front)| {
      HostsOrdered(front, g, h);
      var i :| 0 <= i < |front| && Key(front[i]) == k && forall j :: 0 <= j <= i ==> Key(front[j]) != l;
      assert Key(agents[i]) == k && forall j :: 0 <= j <= i ==> agents[j] == front[j];
    } else {
      assert k in Hosts(front) && l !in Hosts(front);
      var i :| 0 <= i < |front| && Key(front[i]) == k;
      assert Key(agents[i]) == k;
      assert forall j :: 0 <= j <= i ==> agents[j] == front[j] && Key(front[j]) in Hosts(front);
    }
  }

  lemma ChosenIsFirstBest(agents: seq<Agent>, host: string, a: Agent)
    requires Represents(agents, host, a)
    ensures IsFirstBest(agents, a) && Key(a) == host
  {
    var i :| Chosen(agents, host, i) && agents[i] == a;
    assert FirstBest(agents, i);
  }

  lemma SameHostIsKey(a: Agent, b: Agent)
    ensures SameHost(a, b) <==> Key(a) == Key(b)
  {
  }

  lemma KeyFirstAppears(agents: seq<Agent>, a: Agent, b: Agent)
    requires KeyFirst(agents, Key(a), Key(b))
    ensures AppearsFirst(agents, a, b)
  {
    var i :| 0 <= i < |agents| && Key(agents[i]) == Key(a) && forall j :: 0 <= j <= i ==> Key(agents[j]) != Key(b);
    SameHostIsKey(agents[i], a);
    forall j | 0 <= j <= i
      ensures !SameHost(agents[j], b)
    {
      SameHostIsKey(agents[j], b);
      assert Key(agents[j]) != Key(b);
    }
  }

  lemma HostListed(r: seq<Agent>, agents: seq<Agent>, a: Agent)
    requires |r| == |Hosts(agents)| && forall h :: 0 <= h < |r| ==> Key(r[h]) == Hosts(agents)[h]
    requires Key(a) in Hosts(agents)
    ensures exists h :: 0 <= h < |r| && SameHost(r[h], a)
  {
    var h :| 0 <= h < |r| && Hosts(agents)[h] == Key(a);
    SameHostIsKey(r[h], a);
  }

  lemma {:induction false} RepresentedHosts(r: seq<Agent>, agents: seq<Agent>)
    requires |r| == |Hosts(agents)| && forall h :: 0 <= h < |r| ==> Represents(agents, Hosts(agents)[h], r[h])
    ensures OneForEachHost(r, agents)
  {
    forall h | 0 <= h < |r|
      ensures IsFirstBest(agents, r[h]) && Key(r[h]) == Hosts(agents)[h]
    {
      ChosenIsFirstBest(agents, Hosts(agents)[h], r[h]);
    }
    forall i | 0 <= i < |agents|
      ensures exists h :: 0 <= h < |r| && SameHost(r[h], agents[i])
    {
      KeyIsHost(agents, i);
      HostListed(r, agents, agents[i]);
    }
    forall g, h | 0 <= g < h < |r|
      ensures AppearsFirst(agents, r[g], r[h])
    {
      HostsOrdered(agents, g, h);
      KeyFirstAppears(agents, r[g], r[h]);
    }
  }

  lemma KeyIsHost(agents: seq<Agent>, i: nat)
    requires i < |agents|
    ensures Key(agents[i]) in Hosts(agents)
  {
    HostsHold(agents);
  }

  /** One agent for each host, hosts where they first appear, and each the first
      best of its host. */
  method Deduped(agents: seq<Agent>) returns (r: seq<Agent>)
    ensures |r| == |Hosts(agents)|
    ensures forall h :: 0 <= h < |r| ==> Represents(agents, Hosts(agents)[h], r[h])
    ensures OneForEachHost(r, agents)
  {
    var byHostname, order := Table(agents);
    r := [];
    for h := 0 to |order|
      invariant |r| == h
      invariant forall g :: 0 <= g < h ==> order[g] in byHostname && r[g] == byHostname[order[g]]
    {
      assert order[h] in order;
      r := r + [byHostname[order[h]]];
    }
    RepresentedHosts(r, agents);
  }
}
