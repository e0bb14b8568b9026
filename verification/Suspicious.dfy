/** The list of suspicious connections
    (manager/app/repositories/network_repository.py, get_suspicious). */
module Suspicious {
  import opened Sequences

  /** `program` is the process name, or "" when there is none; `lowered` is it in
      lower case. */
  datatype Flow = Flow(id: string, program: string, lowered: string, dstIp: string, dstPort: int, createdAt: int)

  datatype Reason = Port | Program | Feed

  datatype Item = Item(id: string, program: string, dstIp: string, dstPort: int, reasons: seq<Reason>, lastSeen: int)

  /** What makes a flow suspicious; the addresses come from the threat feed. */
  datatype Signs = Signs(ports: set<int>, procs: set<string>, iocs: set<string>)

  const SUSPICIOUS_PORTS: set<int> := {4444, 4445, 5555, 1337, 31337, 9001, 9002}

  const SUSPICIOUS_PROCS: set<string> := {
    "msbuild.exe", "certutil.exe", "rundll32.exe", "regsvr32.exe", "mshta.exe", "wmic.exe",
    "powershell.exe", "cmd.exe", "bitsadmin.exe"
  }

  function Reasons(f: Flow, signs: Signs): seq<Reason> {
    (if f.dstPort in signs.ports then [Port] else [])
    + (if f.program != "" && f.lowered in signs.procs then [Program] else [])
    + if f.dstIp in signs.iocs then [Feed] else []
  }

  function ItemOf(f: Flow, signs: Signs): Item {
    Item(f.id, if f.program != "" then f.program else "unknown", f.dstIp, f.dstPort, Reasons(f, signs), f.createdAt)
  }

  /** Everything suspicious is of high risk; an empty filter lets it pass. */
  predicate Listed(f: Flow, signs: Signs, risk: string) {
    Reasons(f, signs) != [] && (risk == "" || risk == "high")
  }

  type Key = (string, string, int)

  function KeyOf(i: Item): Key { (i.program, i.dstIp, i.dstPort) }

  function Picked(f: Flow, signs: Signs, risk: string): seq<Item> {
    if Listed(f, signs, risk) then [ItemOf(f, signs)] else []
  }

  function Picker(signs: Signs, risk: string): Flow -> seq<Item> { f => Picked(f, signs, risk) }

  function Collect(flows: seq<Flow>, pick: Flow -> seq<Item>): seq<Item> {
    if flows == [] then [] else Collect(flows[..|flows| - 1], pick) + pick(flows[|flows| - 1])
  }

  lemma {:induction false} CollectAppend(a: seq<Flow>, b: seq<Flow>, pick: Flow -> seq<Item>)
    ensures Collect(a + b, pick) == Collect(a, pick) + Collect(b, pick)
  {
    if b == [] {
      assert a + b == a;
    } else {
      CollectAppend(a, b[..|b| - 1], pick);
      FrontAppend(a, b);
      Associative(Collect(a, pick), Collect(b[..|b| - 1], pick), pick(b[|b| - 1]));
    }
  }

  /** The suspicious ones of the flows, in their order. */
  function Matching(flows: seq<Flow>, signs: Signs, risk: string): seq<Item> {
    Collect(flows, Picker(signs, risk))
  }

  /** No earlier item has the same key. */
  predicate Leads(items: seq<Item>, i: int)
    requires 0 <= i < |items|
  {
    forall j :: 0 <= j < i ==> KeyOf(items[j]) != KeyOf(items[i])
  }

  function Deduped(items: seq<Item>): seq<Item> {
    if items == [] then []
    else
      Deduped(items[..|items| - 1]) + if Leads(items, |items| - 1) then [items[|items| - 1]] else []
  }

  function Keys(items: seq<Item>): set<Key> { set i | 0 <= i < |items| :: KeyOf(items[i]) }

  function Take(items: seq<Item>, limit: nat): seq<Item> {
    if |items| <= limit then items else items[..limit]
  }

  function Answer(flows: seq<Flow>, signs: Signs, risk: string, limit: nat): seq<Item> {
    Take(Deduped(Matching(flows, signs, risk)), limit)
  }

  method Classify(f: Flow, signs: Signs) returns (riskLevel: string, reasons: seq<Reason>)
    ensures reasons == Reasons(f, signs)
    ensures riskLevel == if reasons == [] then "low" else "high"
  {
    riskLevel, reasons := "low", [];
    if f.dstPort in signs.ports {
      riskLevel := "high";
      reasons := reasons + [Port];
    }
    if f.program != "" && f.lowered in signs.procs {
      riskLevel := "high";
      reasons := reasons + [Program];
    }
    if f.dstIp in signs.iocs {
      riskLevel := "high";
      reasons := reasons + [Feed];
    }
  }

  method Classified(flows: seq<Flow>, signs: Signs, risk: string) returns (out: seq<Item>)
    ensures out == Matching(flows, signs, risk)
  {
    out := [];
    for n := 0 to |flows|
      invariant out == Matching(flows[..n], signs, risk)
    {
      assert flows[..n + 1][..n] == flows[..n];
      assert Matching(flows[..n + 1], signs, risk) == out + Picked(flows[n], signs, risk);
      var f := flows[n];
      var riskLevel, reasons := Classify(f, signs);
      if reasons == [] {
        continue;
      }
      if risk != "" && riskLevel != risk {
        continue;
      }
      out := out + [Item(f.id, if f.program != "" then f.program else "unknown", f.dstIp, f.dstPort, reasons, f.createdAt)];
    }
    assert flows[..|flows|] == flows;
  }

  /** `flows` is what the query fetched. */
  method GetSuspicious(flows: seq<Flow>, iocs: set<string>, risk: string, limit: nat) returns (r: seq<Item>)
    ensures r == Answer(flows, Signs(SUSPICIOUS_PORTS, SUSPICIOUS_PROCS, iocs), risk, limit)
    ensures Fetched(flows) && risk in {"", "high"} ==> ListsSuspects(r, flows, iocs, limit)
    ensures risk !in {"", "high"} ==> r == []
  {
    if risk !in {"", "high"} {
      OtherRiskListsNothing(flows, Signs(SUSPICIOUS_PORTS, SUSPICIOUS_PROCS, iocs), risk, limit);
    } else if Fetched(flows) {
      AnswerListsSuspects(flows, iocs, risk, limit);
    }
    var out := Classified(flows, Signs(SUSPICIOUS_PORTS, SUSPICIOUS_PROCS, iocs), risk);
    var deduped := Dedupe(out);
    return if |deduped| <= limit then deduped else deduped[..limit];
  }

  method Dedupe(out: seq<Item>) returns (deduped: seq<Item>)
    ensures deduped == Deduped(out)
  {
    deduped := [];
    var seen: set<Key> := {};
    for n := 0 to |out|
      invariant seen == Keys(out[..n])
      invariant deduped == Deduped(out[..n])
    {
      assert out[..n + 1] == out[..n] + [out[n]];
      DedupedPush(out[..n], out[n]);
      KeysPush(out[..n], out[n]);
      assert Deduped(out[..n + 1]) == deduped + if KeyOf(out[n]) in seen then [] else [out[n]];
      assert Keys(out[..n + 1]) == seen + {KeyOf(out[n])};
      var key := KeyOf(out[n]);
      if key !in seen {
        seen := seen + {key};
        deduped := deduped + [out[n]];
      }
    }
    assert out[..|out|] == out;
  }

  lemma KeysPush(items: seq<Item>, i: Item)
    ensures Keys(items + [i]) == Keys(items) + {KeyOf(i)}
  {
    var longer := items + [i];
    assert longer[|items|] == i;
    forall k | k in Keys(items)
      ensures k in Keys(longer)
    {
      var j :| 0 <= j < |items| && KeyOf(items[j]) == k;
      assert longer[j] == items[j];
    }
  }

  lemma LeadsPush(items: seq<Item>, i: Item)
    ensures Leads(items + [i], |items|) <==> KeyOf(i) !in Keys(items)
  {
    var longer := items + [i];
    assert longer[|items|] == i && forall j :: 0 <= j < |items| ==> longer[j] == items[j];
  }

  lemma DedupedPush(items: seq<Item>, i: Item)
    ensures Deduped(items + [i]) == Deduped(items) + if KeyOf(i) in Keys(items) then [] else [i]
  {
    LeadsPush(items, i);
    FrontAppend(items, [i]);
    assert [i][..0] == [] && items + [] == items;
  }

  // ---------- What the list holds ----------

  /** The positions of the leading items, in order. */
  function Leaders(items: seq<Item>): seq<nat> {
    if items == [] then []
    else Leaders(items[..|items| - 1]) + if Leads(items, |items| - 1) then [|items| - 1] else []
  }

  /** What is kept is the leading items, all of them, in their old order. */
  lemma {:induction false} DedupedKeepsLeaders(items: seq<Item>)
    ensures |Deduped(items)| == |Leaders(items)|
    ensures forall k :: 0 <= k < |Leaders(items)| ==>
      Leaders(items)[k] < |items| && Deduped(items)[k] == items[Leaders(items)[k]] && Leads(items, Leaders(items)[k])
    ensures forall i, j :: 0 <= i < j < |Leaders(items)| ==> Leaders(items)[i] < Leaders(items)[j]
    ensures forall i :: 0 <= i < |items| && Leads(items, i) ==> i in Leaders(items)
  {
    if items != [] {
      var front := items[..|items| - 1];
      DedupedKeepsLeaders(front);
      forall i | 0 <= i < |front|
        ensures Leads(front, i) == Leads(items, i)
      {
        LeadsInFront(items, i);
      }
    }
  }

  lemma LeadsInFront(items: seq<Item>, i: nat)
    requires i < |items| - 1
    ensures Leads(items[..|items| - 1], i) == Leads(items, i)
  {
  }

  lemma {:induction false} LeaderOf(items: seq<Item>, i: nat) returns (l: nat)
    requires i < |items|
    ensures l <= i && KeyOf(items[l]) == KeyOf(items[i]) && Leads(items, l)
  {
    if Leads(items, i) {
      l := i;
    } else {
      var j :| 0 <= j < i && KeyOf(items[j]) == KeyOf(items[i]);
      l := LeaderOf(items, j);
    }
  }

  predicate NewestFirst(items: seq<Item>) {
    forall i, j :: 0 <= i < j < |items| ==> items[i].lastSeen >= items[j].lastSeen
  }

  predicate DistinctKeys(r: seq<Item>) { forall i, j :: 0 <= i < j < |r| ==> KeyOf(r[i]) != KeyOf(r[j]) }

  lemma {:induction false} KeyKept(items: seq<Item>, i: nat)
    requires i < |items|
    ensures KeyOf(items[i]) in Keys(Deduped(items))
  {
    var r, at := Deduped(items), Leaders(items);
    DedupedKeepsLeaders(items);
    var l := LeaderOf(items, i);
    var k :| 0 <= k < |at| && at[k] == l;
    assert KeyOf(r[k]) == KeyOf(items[i]);
  }

  lemma {:induction false} KeptKey(items: seq<Item>, k: nat)
    requires k < |Deduped(items)|
    ensures KeyOf(Deduped(items)[k]) in Keys(items)
  {
    DedupedKeepsLeaders(items);
    var i := Leaders(items)[k];
    assert Deduped(items)[k] == items[i];
  }

  lemma KeptDistinct(items: seq<Item>)
    ensures DistinctKeys(Deduped(items))
  {
    var r, at := Deduped(items), Leaders(items);
    DedupedKeepsLeaders(items);
    forall i, j | 0 <= i < j < |r|
      ensures KeyOf(r[i]) != KeyOf(r[j])
    {
      assert at[i] < at[j] && Leads(items, at[j]);
    }
  }

  /** Keys are distinct, and no key is missing. */
  lemma OneForEachKey(items: seq<Item>)
    ensures DistinctKeys(Deduped(items)) && Keys(Deduped(items)) == Keys(items)
  {
    KeptDistinct(items);
    forall i | 0 <= i < |items|
      ensures KeyOf(items[i]) in Keys(Deduped(items))
    {
      KeyKept(items, i);
    }
    forall k | 0 <= k < |Deduped(items)|
      ensures KeyOf(Deduped(items)[k]) in Keys(items)
    {
      KeptKey(items, k);
    }
  }

  /** When the items come newest first, so does what is kept, and each is the
      newest of its key. */
  lemma NewestForEachKey(items: seq<Item>)
    requires NewestFirst(items)
    ensures NewestFirst(Deduped(items))
    ensures forall k, i :: 0 <= k < |Deduped(items)| && 0 <= i < |items| && KeyOf(items[i]) == KeyOf(Deduped(items)[k]) ==>
      Deduped(items)[k].lastSeen >= items[i].lastSeen
  {
    var r, at := Deduped(items), Leaders(items);
    DedupedKeepsLeaders(items);
    forall k, i | 0 <= k < |r| && 0 <= i < |items| && KeyOf(items[i]) == KeyOf(r[k])
      ensures r[k].lastSeen >= items[i].lastSeen
    {
      assert at[k] <= i;
    }
  }

  predicate Fetched(flows: seq<Flow>) {
    forall i, j :: 0 <= i < j < |flows| ==> flows[i].createdAt >= flows[j].createdAt
  }

  /** The item is what the flow at this position gives. */
  predicate Gives(flows: seq<Flow>, signs: Signs, risk: string, k: int, i: Item) {
    0 <= k < |flows| && Listed(flows[k], signs, risk) && ItemOf(flows[k], signs) == i
  }

  ghost predicate Given(flows: seq<Flow>, signs: Signs, risk: string, i: Item) {
    exists k :: Gives(flows, signs, risk, k, i)
  }

  lemma GivenNext(front: seq<Flow>, last: Flow, signs: Signs, risk: string, i: Item)
    ensures Given(front + [last], signs, risk, i) <==> Given(front, signs, risk, i) || i in Picked(last, signs, risk)
  {
    var flows := front + [last];
    if k :| Gives(front, signs, risk, k, i) {
      assert Gives(flows, signs, risk, k, i);
    }
    if i in Picked(last, signs, risk) {
      assert Gives(flows, signs, risk, |front|, i);
    }
    if k :| Gives(flows, signs, risk, k, i) && k < |front| {
      assert Gives(front, signs, risk, k, i);
    }
  }

  lemma {:induction false} MatchingHolds(flows: seq<Flow>, signs: Signs, risk: string, i: Item)
    ensures i in Matching(flows, signs, risk) <==> Given(flows, signs, risk, i)
  {
    if flows != [] {
      var front, last := flows[..|flows| - 1], flows[|flows| - 1];
      MatchingHolds(front, signs, risk, i);
      GivenNext(front, last, signs, risk, i);
      assert flows == front + [last];
    }
  }

  lemma {:induction false} MatchingOrdered(flows: seq<Flow>, signs: Signs, risk: string)
    requires Fetched(flows)
    ensures NewestFirst(Matching(flows, signs, risk))
    ensures flows != [] ==>
      forall i :: i in Matching(flows, signs, risk) ==> i.lastSeen >= flows[|flows| - 1].createdAt
  {
    if flows != [] {
      MatchingOrdered(flows[..|flows| - 1], signs, risk);
    }
  }

  /** The list keeps up with an item: its key is there, unless the list was cut
      before it, and nothing with its key is older. */
  predicate Covers(r: seq<Item>, item: Item, limit: nat) {
    && (KeyOf(item) in Keys(r) || (|r| == limit && forall i :: 0 <= i < |r| ==> r[i].lastSeen >= item.lastSeen))
    && forall i :: 0 <= i < |r| && KeyOf(r[i]) == KeyOf(item) ==> r[i].lastSeen >= item.lastSeen
  }

  lemma TakenCovers(items: seq<Item>, limit: nat, item: Item)
    requires NewestFirst(items) && item in items
    ensures Covers(Take(Deduped(items), limit), item, limit)
  {
    OneForEachKey(items);
    NewestForEachKey(items);
    var all, r := Deduped(items), Take(Deduped(items), limit);
    var n :| 0 <= n < |items| && items[n] == item;
    assert KeyOf(items[n]) in Keys(all);
    var k :| 0 <= k < |all| && KeyOf(all[k]) == KeyOf(item);
    assert all[k].lastSeen >= items[n].lastSeen;
    if k < |r| {
      assert r[k] == all[k];
    } else {
      assert forall i :: 0 <= i < |r| ==> r[i] == all[i];
    }
  }

  lemma TakenFrom(items: seq<Item>, limit: nat)
    requires NewestFirst(items)
    ensures var r := Take(Deduped(items), limit);
      |r| <= limit && NewestFirst(r) && DistinctKeys(r) && forall i :: 0 <= i < |r| ==> r[i] in items
  {
    OneForEachKey(items);
    NewestForEachKey(items);
    DedupedKeepsLeaders(items);
    var all, r := Deduped(items), Take(Deduped(items), limit);
    forall i | 0 <= i < |r|
      ensures r[i] in items
    {
      assert r[i] == all[i];
    }
  }

  lemma {:induction false} TakenHolds(items: seq<Item>, limit: nat)
    requires NewestFirst(items)
    ensures var r := Take(Deduped(items), limit);
      && |r| <= limit && NewestFirst(r) && DistinctKeys(r)
      && (forall i :: 0 <= i < |r| ==> r[i] in items)
      && forall item :: item in items ==> Covers(r, item, limit)
  {
    TakenFrom(items, limit);
    forall item | item in items
      ensures Covers(Take(Deduped(items), limit), item, limit)
    {
      TakenCovers(items, limit, item);
    }
  }

  /** The answer over flows fetched newest first: keys are distinct, each entry
      is a suspicious flow and the newest of its key, the list is newest first,
      and every suspicious key is there unless the limit cut the list. */
  lemma {:induction false} AnswerIsNewestOfEach(flows: seq<Flow>, signs: Signs, risk: string, limit: nat)
    requires Fetched(flows)
    ensures var r := Answer(flows, signs, risk, limit);
      && |r| <= limit && NewestFirst(r) && DistinctKeys(r)
      && (forall i :: 0 <= i < |r| ==> Given(flows, signs, risk, r[i]))
      && forall item :: Given(flows, signs, risk, item) ==> Covers(r, item, limit)
  {
    forall item
      ensures item in Matching(flows, signs, risk) <==> Given(flows, signs, risk, item)
    {
      MatchingHolds(flows, signs, risk, item);
    }
    MatchingOrdered(flows, signs, risk);
    TakenHolds(Matching(flows, signs, risk), limit);
  }

  // ---------- The same, said of the flows ----------

  predicate Suspect(f: Flow, iocs: set<string>) {
    || f.dstPort in {1337, 4444, 4445, 5555, 9001, 9002, 31337}
    || (f.program != "" && f.lowered in {"bitsadmin.exe", "certutil.exe", "cmd.exe", "mshta.exe", "msbuild.exe",
                                         "powershell.exe", "regsvr32.exe", "rundll32.exe", "wmic.exe"})
    || f.dstIp in iocs
  }

  function Shown(f: Flow): string { if f.program == "" then "unknown" else f.program }

  /** Two flows of one program to one address and port. */
  predicate SameConnection(f: Flow, g: Flow) {
    Shown(f) == Shown(g) && f.dstIp == g.dstIp && f.dstPort == g.dstPort
  }

  /** The entry is about the flow and gives each reason that applies, once: the
      port, the program, the threat feed. */
  predicate Tells(i: Item, f: Flow, iocs: set<string>) {
    && i.id == f.id && i.program == Shown(f) && i.dstIp == f.dstIp && i.dstPort == f.dstPort && i.lastSeen == f.createdAt
    && (Port in i.reasons <==> f.dstPort in {1337, 4444, 4445, 5555, 9001, 9002, 31337})
    && (Program in i.reasons <==>
          f.program != "" && f.lowered in {"bitsadmin.exe", "certutil.exe", "cmd.exe", "mshta.exe", "msbuild.exe",
                                           "powershell.exe", "regsvr32.exe", "rundll32.exe", "wmic.exe"})
    && (Feed in i.reasons <==> f.dstIp in iocs)
    && forall m, n :: 0 <= m < n < |i.reasons| ==> i.reasons[m] != i.reasons[n]
  }

  /** The entry is the newest suspicious flow of its connection. */
  ghost predicate TellsNewest(i: Item, flows: seq<Flow>, iocs: set<string>) {
    exists k :: 0 <= k < |flows| && Suspect(flows[k], iocs) && Tells(i, flows[k], iocs)
      && forall m :: 0 <= m < |flows| && Suspect(flows[m], iocs) && SameConnection(flows[m], flows[k]) ==>
           flows[m].createdAt <= flows[k].createdAt
  }

  predicate Names(i: Item, f: Flow) { i.program == Shown(f) && i.dstIp == f.dstIp && i.dstPort == f.dstPort }

  /** The list has an entry of the flow's connection, or is full before it. */
  ghost predicate Reached(r: seq<Item>, f: Flow, limit: nat) {
    || (exists i :: 0 <= i < |r| && Names(r[i], f))
    || (|r| == limit && forall i :: 0 <= i < |r| ==> r[i].lastSeen >= f.createdAt)
  }

  /** The list of suspicious connections: one entry for each, the newest first, and
      all of them, or the newest as many as the limit allows. */
  ghost predicate ListsSuspects(r: seq<Item>, flows: seq<Flow>, iocs: set<string>, limit: nat) {
    && |r| <= limit
    && (forall i :: 0 <= i < |r| ==> TellsNewest(r[i], flows, iocs))
    && (forall i, j :: 0 <= i < j < |r| ==>
          && r[i].lastSeen >= r[j].lastSeen
          && !(r[i].program == r[j].program && r[i].dstIp == r[j].dstIp && r[i].dstPort == r[j].dstPort))
    && (forall k :: 0 <= k < |flows| && Suspect(flows[k], iocs) ==> Reached(r, flows[k], limit))
  }

  lemma ReasonsHold(f: Flow, signs: Signs)
    ensures var rs := Reasons(f, signs);
      && (Port in rs <==> f.dstPort in signs.ports)
      && (Program in rs <==> f.program != "" && f.lowered in signs.procs)
      && (Feed in rs <==> f.dstIp in signs.iocs)
      && (rs != [] <==> Port in rs || Program in rs || Feed in rs)
      && forall m, n :: 0 <= m < n < |rs| ==> rs[m] != rs[n]
  {
  }

  lemma SameSigns(f: Flow)
    ensures f.dstPort in SUSPICIOUS_PORTS <==> f.dstPort in {1337, 4444, 4445, 5555, 9001, 9002, 31337}
    ensures f.lowered in SUSPICIOUS_PROCS
       <==> f.lowered in {"bitsadmin.exe", "certutil.exe", "cmd.exe", "mshta.exe", "msbuild.exe",
                          "powershell.exe", "regsvr32.exe", "rundll32.exe", "wmic.exe"}
  {
  }

  lemma ItemTells(f: Flow, iocs: set<string>)
    ensures var signs := Signs(SUSPICIOUS_PORTS, SUSPICIOUS_PROCS, iocs);
      && (Reasons(f, signs) != [] <==> Suspect(f, iocs)) && Tells(ItemOf(f, signs), f, iocs)
  {
    ReasonsHold(f, Signs(SUSPICIOUS_PORTS, SUSPICIOUS_PROCS, iocs));
    SameSigns(f);
  }

  lemma GivenTellsNewest(flows: seq<Flow>, iocs: set<string>, risk: string, r: seq<Item>, i: Item, limit: nat)
    requires risk in {"", "high"} && i in r
    requires var signs := Signs(SUSPICIOUS_PORTS, SUSPICIOUS_PROCS, iocs);
      && Given(flows, signs, risk, i)
      && forall item :: Given(flows, signs, risk, item) ==> Covers(r, item, limit)
    ensures TellsNewest(i, flows, iocs)
  {
    var signs := Signs(SUSPICIOUS_PORTS, SUSPICIOUS_PROCS, iocs);
    var k :| Gives(flows, signs, risk, k, i);
    ItemTells(flows[k], iocs);
    forall m | 0 <= m < |flows| && Suspect(flows[m], iocs) && SameConnection(flows[m], flows[k])
      ensures flows[m].createdAt <= flows[k].createdAt
    {
      ItemTells(flows[m], iocs);
      assert Gives(flows, signs, risk, m, ItemOf(flows[m], signs));
      assert Covers(r, ItemOf(flows[m], signs), limit);
    }
  }

  lemma SuspectReached(flows: seq<Flow>, iocs: set<string>, risk: string, r: seq<Item>, k: nat, limit: nat)
    requires risk in {"", "high"} && k < |flows| && Suspect(flows[k], iocs)
    requires var signs := Signs(SUSPICIOUS_PORTS, SUSPICIOUS_PROCS, iocs);
      forall item :: Given(flows, signs, risk, item) ==> Covers(r, item, limit)
    ensures Reached(r, flows[k], limit)
  {
    var signs := Signs(SUSPICIOUS_PORTS, SUSPICIOUS_PROCS, iocs);
    ItemTells(flows[k], iocs);
    var item := ItemOf(flows[k], signs);
    assert Gives(flows, signs, risk, k, item);
    assert Covers(r, item, limit);
    if KeyOf(item) in Keys(r) {
      var i :| 0 <= i < |r| && KeyOf(r[i]) == KeyOf(item);
      assert Names(r[i], flows[k]);
    }
  }

  /** Over flows fetched newest first the answer is that list. */
  lemma {:induction false} AnswerListsSuspects(flows: seq<Flow>, iocs: set<string>, risk: string, limit: nat)
    requires Fetched(flows) && risk in {"", "high"}
    ensures ListsSuspects(Answer(flows, Signs(SUSPICIOUS_PORTS, SUSPICIOUS_PROCS, iocs), risk, limit), flows, iocs, limit)
  {
    var signs := Signs(SUSPICIOUS_PORTS, SUSPICIOUS_PROCS, iocs);
    var r := Answer(flows, signs, risk, limit);
    AnswerIsNewestOfEach(flows, signs, risk, limit);
    forall i | 0 <= i < |r|
      ensures TellsNewest(r[i], flows, iocs)
    {
      GivenTellsNewest(flows, iocs, risk, r, r[i], limit);
    }
    forall k | 0 <= k < |flows| && Suspect(flows[k], iocs)
      ensures Reached(r, flows[k], limit)
    {
      SuspectReached(flows, iocs, risk, r, k, limit);
    }
  }

  /** A risk level that no flow has lists nothing. */
  lemma {:induction false} OtherRiskListsNothing(flows: seq<Flow>, signs: Signs, risk: string, limit: nat)
    requires risk !in {"", "high"}
    ensures Answer(flows, signs, risk, limit) == []
  {
    var items := Matching(flows, signs, risk);
    if items != [] {
      MatchingHolds(flows, signs, risk, items[0]);
      assert false;
    }
  }

  // ---------- The fetched window ----------

  lemma KeysAppend(a: seq<Item>, b: seq<Item>)
    ensures Keys(a + b) == Keys(a) + Keys(b)
  {
    forall k
      ensures k in Keys(a + b) <==> k in Keys(a) + Keys(b)
    {
      if i :| 0 <= i < |a| && KeyOf(a[i]) == k {
        assert (a + b)[i] == a[i];
      }
      if i :| 0 <= i < |b| && KeyOf(b[i]) == k {
        assert (a + b)[|a| + i] == b[i];
      }
      if i :| 0 <= i < |a + b| && KeyOf((a + b)[i]) == k {
        assert (a + b)[i] == if i < |a| then a[i] else b[i - |a|];
      }
    }
  }

  lemma {:induction false} DedupedGrows(a: seq<Item>, b: seq<Item>)
    ensures Deduped(a) <= Deduped(a + b)
  {
    if b == [] {
      assert a + b == a;
    } else {
      var front, last := b[..|b| - 1], b[|b| - 1];
      DedupedGrows(a, front);
      assert a + b == (a + front) + [last];
      DedupedPush(a + front, last);
    }
  }

  lemma LongerHasNewKey(short: seq<Item>, long: seq<Item>)
    requires short <= long && |short| < |long| && DistinctKeys(long)
    ensures KeyOf(long[|short|]) in Keys(long) - Keys(short)
  {
  }

  /** More items add nothing exactly when they have no new keys. */
  lemma {:induction false} DedupedExtends(a: seq<Item>, b: seq<Item>)
    ensures Deduped(a) <= Deduped(a + b)
    ensures Deduped(a + b) == Deduped(a) <==> Keys(b) <= Keys(a)
  {
    DedupedGrows(a, b);
    KeysAppend(a, b);
    OneForEachKey(a);
    OneForEachKey(a + b);
    var short, long := Deduped(a), Deduped(a + b);
    if |short| < |long| {
      LongerHasNewKey(short, long);
    }
  }

  lemma TakeSame(a: seq<Item>, b: seq<Item>, limit: nat)
    requires a <= b
    ensures Take(a, limit) == Take(b, limit) <==> |a| >= limit || a == b
  {
  }

  /** Only the newest flows are fetched, before the suspicious ones are picked.
      Older ones would not change the answer exactly when the fetched ones fill
      the limit, or when no older one has a new key. */
  lemma {:induction false} WindowSufficesExactlyWhen(fetched: seq<Flow>, older: seq<Flow>, signs: Signs, risk: string, limit: nat)
    ensures var near, far := Matching(fetched, signs, risk), Matching(older, signs, risk);
      Answer(fetched, signs, risk, limit) == Answer(fetched + older, signs, risk, limit)
      <==> |Deduped(near)| >= limit || Keys(far) <= Keys(near)
  {
    var near, far := Matching(fetched, signs, risk), Matching(older, signs, risk);
    CollectAppend(fetched, older, Picker(signs, risk));
    DedupedExtends(near, far);
    TakeSame(Deduped(near), Deduped(near + far), limit);
  }
}
