/** The host firewall an agent rewrites to isolate and release its machine
    (agent/commands/isolate.py, agent/commands/unisolate.py).

    A filter table has three built-in chains, each with a policy, and user
    chains that rules can jump to.  A packet takes the verdict of the first
    rule that decides it, else the policy of the chain.  Each `iptables` run is
    issued with `check=False`, so a run the kernel refuses goes unnoticed. */
module Firewall {
  import opened Options

  type Addr = nat

  /** `meta` stands for every header field a rule can test besides the addresses. */
  datatype Packet = Packet(src: Addr, dst: Addr, meta: nat)

  datatype Hook = Input | Output | Forward
  datatype Verdict = Accept | Drop
  datatype Target = Decide(verdict: Verdict) | Jump(chain: string) | Return

  /** `None` in a field of a rule means the rule does not test that field. */
  datatype Rule = Rule(src: Option<Addr>, dst: Option<Addr>, meta: Option<set<nat>>, target: Target)

  datatype Chain = Chain(policy: Verdict, rules: seq<Rule>)

  datatype Table = Table(input: Chain, output: Chain, forward: Chain, user: map<string, seq<Rule>>) {
    function At(h: Hook): Chain {
      match h
      case Input => input
      case Output => output
      case Forward => forward
    }

    function With(h: Hook, c: Chain): Table {
      match h
      case Input => this.(input := c)
      case Output => this.(output := c)
      case Forward => this.(forward := c)
    }
  }

  // ---------- What a table does to a packet ----------

  predicate Matches(r: Rule, p: Packet) {
    && (r.src.Some? ==> r.src.value == p.src)
    && (r.dst.Some? ==> r.dst.value == p.dst)
    && (r.meta.Some? ==> p.meta in r.meta.value)
  }

  /** The verdict of a rule list, or `None` when it ends or returns undecided.
      A chain cannot jump back into itself, so a jump takes its chain out of
      reach for the nested walk. */
  function Walk(user: map<string, seq<Rule>>, rules: seq<Rule>, p: Packet): Option<Verdict>
    decreases user.Keys, |rules|
  {
    if rules == [] then None
    else if !Matches(rules[0], p) then Walk(user, rules[1..], p)
    else
      match rules[0].target
      case Decide(v) => Some(v)
      case Return => None
      case Jump(c) =>
        if c !in user then Walk(user, rules[1..], p)
        else
          var nested := Walk(user - {c}, user[c], p);
          if nested.Some? then nested else Walk(user, rules[1..], p)
  }

  predicate Passes(t: Table, h: Hook, p: Packet) {
    var verdict := Walk(t.user, t.At(h).rules, p);
    if verdict.Some? then verdict.value == Accept else t.At(h).policy == Accept
  }

  /** Nothing enters except from `peer`, nothing leaves except to `peer`, nothing is forwarded. */
  ghost predicate Confined(t: Table, peer: Addr) {
    && (forall p :: Passes(t, Input, p) ==> p.src == peer)
    && (forall p :: Passes(t, Output, p) ==> p.dst == peer)
    && (forall p :: !Passes(t, Forward, p))
  }

  /** Every packet from and to `peer` gets through. */
  ghost predicate Reaches(t: Table, peer: Addr) {
    && (forall p: Packet :: p.src == peer ==> Passes(t, Input, p))
    && (forall p: Packet :: p.dst == peer ==> Passes(t, Output, p))
  }

  ghost predicate Open(t: Table) {
    forall h, p :: Passes(t, h, p)
  }

  /** `u` lets through at least what `t` lets through. */
  ghost predicate Wider(t: Table, u: Table) {
    forall h, p :: Passes(t, h, p) ==> Passes(u, h, p)
  }

  // ---------- The iptables commands ----------

  datatype Command = Flush | DeleteChains | SetPolicy(hook: Hook, verdict: Verdict) | Append(hook: Hook, rule: Rule)

  predicate Referenced(rules: seq<Rule>) {
    exists i :: 0 <= i < |rules| && rules[i].target.Jump?
  }

  /** User chains can be deleted only when they are empty and no rule jumps to one. */
  predicate Deletable(t: Table) {
    && (forall c :: c in t.user ==> t.user[c] == [])
    && !Referenced(t.input.rules) && !Referenced(t.output.rules) && !Referenced(t.forward.rules)
  }

  function Apply(t: Table, c: Command): Table {
    match c
    case Flush =>
      Table(t.input.(rules := []), t.output.(rules := []), t.forward.(rules := []), map k | k in t.user :: [])
    case DeleteChains => if Deletable(t) then t.(user := map[]) else t
    case SetPolicy(h, v) => t.With(h, t.At(h).(policy := v))
    case Append(h, r) => t.With(h, t.At(h).(rules := t.At(h).rules + [r]))
  }

  /** What became of one `subprocess.run`: the kernel obeyed it, refused it
      (ignored, `check=False`), or the run itself raised an exception. */
  datatype Outcome = Obeyed | Refused | Raised

  /** The table after the first `k` commands of a script, and whether they were
      all run: an exception ends the script. */
  function Execute(t: Table, script: seq<Command>, outcomes: seq<Outcome>, k: nat): (Table, bool)
    requires k <= |script| == |outcomes|
  {
    if k == 0 then (t, true)
    else
      var (u, running) := Execute(t, script, outcomes, k - 1);
      if !running || outcomes[k-1] == Raised then (u, false)
      else if outcomes[k-1] == Refused then (u, true)
      else (Apply(u, script[k-1]), true)
  }

  function FromPeer(peer: Addr): Rule { Rule(Some(peer), None, None, Decide(Accept)) }

  function ToPeer(peer: Addr): Rule { Rule(None, Some(peer), None, Decide(Accept)) }

  function IsolateScript(peer: Addr): seq<Command> {
    [ Flush, DeleteChains,
      SetPolicy(Input, Drop), SetPolicy(Output, Drop), SetPolicy(Forward, Drop),
      Append(Input, FromPeer(peer)), Append(Output, ToPeer(peer)) ]
  }

  const RELEASE_SCRIPT: seq<Command> :=
    [ SetPolicy(Input, Accept), SetPolicy(Output, Accept), SetPolicy(Forward, Accept), Flush, DeleteChains ]

  function IsolatedTable(peer: Addr): Table {
    Table(Chain(Drop, [FromPeer(peer)]), Chain(Drop, [ToPeer(peer)]), Chain(Drop, []), map[])
  }

  const OPEN_TABLE := Table(Chain(Accept, []), Chain(Accept, []), Chain(Accept, []), map[])

  predicate AllObeyed(outcomes: seq<Outcome>) {
    forall i :: 0 <= i < |outcomes| ==> outcomes[i] == Obeyed
  }

  predicate NoneRaised(outcomes: seq<Outcome>) {
    forall i :: 0 <= i < |outcomes| ==> outcomes[i] != Raised
  }

  /** A run that was made, because none before it raised, and obeyed. */
  predicate Done(outcomes: seq<Outcome>, i: nat)
    requires i < |outcomes|
  {
    outcomes[i] == Obeyed && NoneRaised(outcomes[..i])
  }

  /** Nothing that was run was obeyed. */
  predicate Untouched(outcomes: seq<Outcome>) {
    forall i :: 0 <= i < |outcomes| ==> !Done(outcomes, i)
  }

  // ---------- Packets and rule lists ----------

  /** Without jumps the user chains play no part. */
  lemma {:induction false} WalkIgnoresUser(user: map<string, seq<Rule>>, user': map<string, seq<Rule>>, rules: seq<Rule>, p: Packet)
    requires !Referenced(rules)
    ensures Walk(user, rules, p) == Walk(user', rules, p)
    decreases |rules|
  {
    if rules != [] {
      assert !rules[0].target.Jump?;
      assert forall i :: 0 <= i < |rules[1..]| ==> rules[1..][i] == rules[i+1];
      WalkIgnoresUser(user, user', rules[1..], p);
    }
  }

  /** Deleting chains changes no packet's fate. */
  lemma {:induction false} DeleteChainsIsNeutral(t: Table)
    ensures forall h, p :: Passes(Apply(t, DeleteChains), h, p) == Passes(t, h, p)
  {
    var u := Apply(t, DeleteChains);
    forall h, p ensures Passes(u, h, p) == Passes(t, h, p) {
      if Deletable(t) {
        WalkIgnoresUser(t.user, u.user, t.At(h).rules, p);
      }
    }
  }

  /** A chain with the one rule `isolate` appends lets through what that rule names. */
  lemma SingleRule(t: Table, h: Hook, r: Rule, p: Packet)
    requires t.At(h) == Chain(Drop, [r]) && r.target == Decide(Accept)
    ensures Passes(t, h, p) <==> Matches(r, p)
  {
    assert [r][1..] == [];
    assert Walk(t.user, [], p) == None;
  }

  // ---------- Isolation ----------

  function Picked<T>(done: bool, yes: T, no: T): T {
    if done then yes else no
  }

  /** The table after a run that was obeyed or not. */
  function Did(t: Table, c: Command, done: bool): Table {
    if done then Apply(t, c) else t
  }

  lemma {:induction false} ExecuteNext(t: Table, script: seq<Command>, outcomes: seq<Outcome>, k: nat)
    requires k < |script| == |outcomes|
    ensures Execute(t, script, outcomes, k + 1).0 == Did(Execute(t, script, outcomes, k).0, script[k], Done(outcomes, k))
  {
    RunningExactlyWhen(t, script, outcomes, k);
  }

  lemma {:induction false} RunningExactlyWhen(t: Table, script: seq<Command>, outcomes: seq<Outcome>, k: nat)
    requires k <= |script| == |outcomes|
    ensures Execute(t, script, outcomes, k).1 <==> NoneRaised(outcomes[..k])
  {
    if k > 0 {
      RunningExactlyWhen(t, script, outcomes, k - 1);
      assert outcomes[..k] == outcomes[..k-1] + [outcomes[k-1]];
    }
  }

  lemma {:induction false} UntouchedChangesNothing(t: Table, script: seq<Command>, outcomes: seq<Outcome>, k: nat)
    requires k <= |script| == |outcomes| && Untouched(outcomes)
    ensures Execute(t, script, outcomes, k).0 == t
  {
    if k > 0 {
      UntouchedChangesNothing(t, script, outcomes, k - 1);
      ExecuteNext(t, script, outcomes, k - 1);
    }
  }

  /** The table after clearing: the policies are as found. */
  function Emptied(t: Table, flush: bool, delete: bool): Table {
    Did(Did(t, Flush, flush), DeleteChains, delete)
  }

  lemma EmptiedHolds(t: Table, flush: bool, delete: bool)
    ensures var u := Emptied(t, flush, delete);
            && u.input == Chain(t.input.policy, Picked(flush, [], t.input.rules))
            && u.output == Chain(t.output.policy, Picked(flush, [], t.output.rules))
            && u.forward == Chain(t.forward.policy, Picked(flush, [], t.forward.rules))
            && (flush && delete ==> u.user == map[])
            && (delete && Deletable(t) ==> u.user == map[])
            && (!delete && (forall c :: c in t.user ==> t.user[c] == []) ==> u.user == t.user)
  {
  }

  /** The table after the first five runs: cleared, with the three policies. */
  lemma Closed(t: Table, peer: Addr, outcomes: seq<Outcome>)
    requires |outcomes| == 7
    ensures var u := Emptied(t, Done(outcomes, 0), Done(outcomes, 1));
      Execute(t, IsolateScript(peer), outcomes, 5).0
      == u.(input := u.input.(policy := Picked(Done(outcomes, 2), Drop, u.input.policy)),
            output := u.output.(policy := Picked(Done(outcomes, 3), Drop, u.output.policy)),
            forward := u.forward.(policy := Picked(Done(outcomes, 4), Drop, u.forward.policy)))
  {
    var s := IsolateScript(peer);
    ExecuteNext(t, s, outcomes, 0);
    ExecuteNext(t, s, outcomes, 1);
    assert Execute(t, s, outcomes, 2).0 == Emptied(t, Done(outcomes, 0), Done(outcomes, 1));
    ExecuteNext(t, s, outcomes, 2);
    ExecuteNext(t, s, outcomes, 3);
    ExecuteNext(t, s, outcomes, 4);
  }

  /** The two rules that let the manager through. */
  function Accepted(t: Table, peer: Addr, input: bool, output: bool): Table {
    Did(Did(t, Append(Input, FromPeer(peer)), input), Append(Output, ToPeer(peer)), output)
  }

  lemma AcceptedHolds(t: Table, peer: Addr, input: bool, output: bool)
    ensures Accepted(t, peer, input, output)
         == t.(input := Chain(t.input.policy, t.input.rules + Picked(input, [FromPeer(peer)], [])),
               output := Chain(t.output.policy, t.output.rules + Picked(output, [ToPeer(peer)], [])))
  {
    assert t.input.rules + [] == t.input.rules && t.output.rules + [] == t.output.rules;
  }

  lemma Appended(t: Table, peer: Addr, outcomes: seq<Outcome>)
    requires |outcomes| == 7
    ensures Execute(t, IsolateScript(peer), outcomes, 7)
         == (Accepted(Execute(t, IsolateScript(peer), outcomes, 5).0, peer, Done(outcomes, 5), Done(outcomes, 6)),
             NoneRaised(outcomes))
  {
    ExecuteNext(t, IsolateScript(peer), outcomes, 5);
    ExecuteNext(t, IsolateScript(peer), outcomes, 6);
    RunningExactlyWhen(t, IsolateScript(peer), outcomes, 7);
    assert outcomes[..7] == outcomes;
  }

  /** What `isolate` leaves, for any mix of obeyed, refused and raising runs. */
  lemma {:induction false} IsolateResult(t: Table, peer: Addr, outcomes: seq<Outcome>)
    requires |outcomes| == 7
    ensures var (u, completed) := Execute(t, IsolateScript(peer), outcomes, 7);
            && completed == NoneRaised(outcomes)
            && u.input == Chain(Picked(Done(outcomes, 2), Drop, t.input.policy),
                                Picked(Done(outcomes, 0), [], t.input.rules) + Picked(Done(outcomes, 5), [FromPeer(peer)], []))
            && u.output == Chain(Picked(Done(outcomes, 3), Drop, t.output.policy),
                                 Picked(Done(outcomes, 0), [], t.output.rules) + Picked(Done(outcomes, 6), [ToPeer(peer)], []))
            && u.forward == Chain(Picked(Done(outcomes, 4), Drop, t.forward.policy), Picked(Done(outcomes, 0), [], t.forward.rules))
            && u.user == Emptied(t, Done(outcomes, 0), Done(outcomes, 1)).user
  {
    Closed(t, peer, outcomes);
    EmptiedHolds(t, Done(outcomes, 0), Done(outcomes, 1));
    Appended(t, peer, outcomes);
    var u := Execute(t, IsolateScript(peer), outcomes, 5).0;
    AcceptedHolds(u, peer, Done(outcomes, 5), Done(outcomes, 6));
  }

  /** When every run is obeyed the result does not depend on the table found,
      so isolating again changes nothing. */
  lemma {:induction false} IsolateReplacesTable(t: Table, peer: Addr, outcomes: seq<Outcome>)
    requires |outcomes| == 7 && AllObeyed(outcomes)
    ensures Execute(t, IsolateScript(peer), outcomes, 7) == (IsolatedTable(peer), true)
  {
    IsolateResult(t, peer, outcomes);
    EmptiedHolds(t, true, true);
    assert forall i :: 0 <= i < 7 ==> Done(outcomes, i);
    var u := Execute(t, IsolateScript(peer), outcomes, 7).0;
    assert u.input == Chain(Drop, [FromPeer(peer)]) && u.output == Chain(Drop, [ToPeer(peer)]);
  }

  lemma {:induction false} IsolatedTableConfines(peer: Addr)
    ensures Confined(IsolatedTable(peer), peer) && Reaches(IsolatedTable(peer), peer)
  {
    var t := IsolatedTable(peer);
    forall p: Packet
      ensures Passes(t, Input, p) <==> p.src == peer
      ensures Passes(t, Output, p) <==> p.dst == peer
    {
      SingleRule(t, Input, FromPeer(peer), p);
      SingleRule(t, Output, ToPeer(peer), p);
    }
  }

  ghost predicate AlwaysConfines(peer: Addr, outcomes: seq<Outcome>)
    requires |outcomes| == 7
  {
    forall t :: Confined(Execute(t, IsolateScript(peer), outcomes, 7).0, peer)
  }

  ghost predicate AlwaysReaches(peer: Addr, outcomes: seq<Outcome>)
    requires |outcomes| == 7
  {
    forall t :: Reaches(Execute(t, IsolateScript(peer), outcomes, 7).0, peer)
  }

  /** A table that decides every packet by its first rule. */
  function Decided(policy: Verdict, verdict: Verdict): Table {
    var c := Chain(policy, [Rule(None, None, None, Decide(verdict))]);
    Table(c, c, c, map["" := []])
  }

  lemma DecidedPasses(t: Table, h: Hook, verdict: Verdict, p: Packet)
    requires t.At(h).rules != [] && t.At(h).rules[0] == Rule(None, None, None, Decide(verdict))
    ensures Passes(t, h, p) <==> verdict == Accept
  {
  }

  predicate Locks(outcomes: seq<Outcome>)
    requires |outcomes| == 7
  {
    Done(outcomes, 0) && Done(outcomes, 2) && Done(outcomes, 3) && Done(outcomes, 4)
  }

  lemma {:induction false} LockedConfines(t: Table, peer: Addr, outcomes: seq<Outcome>)
    requires |outcomes| == 7 && Locks(outcomes)
    ensures Confined(Execute(t, IsolateScript(peer), outcomes, 7).0, peer)
  {
    IsolateResult(t, peer, outcomes);
    var u := Execute(t, IsolateScript(peer), outcomes, 7).0;
    forall p: Packet
      ensures Passes(u, Input, p) ==> p.src == peer
      ensures Passes(u, Output, p) ==> p.dst == peer
    {
      if Done(outcomes, 5) { SingleRule(u, Input, FromPeer(peer), p); }
      if Done(outcomes, 6) { SingleRule(u, Output, ToPeer(peer), p); }
    }
  }

  /** A table that no such script confines to anyone. */
  function Leaky(outcomes: seq<Outcome>): Table
    requires |outcomes| == 7
  {
    if Done(outcomes, 0) then OPEN_TABLE else Decided(Accept, Accept)
  }

  lemma {:induction false} LeakyLeaks(peer: Addr, outcomes: seq<Outcome>, q: Addr)
    requires |outcomes| == 7 && !Locks(outcomes)
    ensures !Confined(Execute(Leaky(outcomes), IsolateScript(peer), outcomes, 7).0, q)
  {
    var t := Leaky(outcomes);
    IsolateResult(t, peer, outcomes);
    var u := Execute(t, IsolateScript(peer), outcomes, 7).0;
    var p := Packet(peer + q + 1, peer + q + 1, 0);
    if !Done(outcomes, 0) {
      DecidedPasses(u, Forward, Accept, p);
    } else if !Done(outcomes, 4) {
      assert u.forward == Chain(Accept, []);
      assert Passes(u, Forward, p);
    } else if !Done(outcomes, 2) {
      Undecided(u, Input, FromPeer(peer), p);
    } else {
      Undecided(u, Output, ToPeer(peer), p);
    }
  }

  /** Whatever table it starts from, `isolate` confines the host exactly when
      the flush and the three policy runs were made and obeyed. */
  lemma {:induction false} IsolateConfinesExactlyWhen(peer: Addr, outcomes: seq<Outcome>)
    requires |outcomes| == 7
    ensures AlwaysConfines(peer, outcomes) <==> Locks(outcomes)
  {
    if Locks(outcomes) {
      forall t
        ensures Confined(Execute(t, IsolateScript(peer), outcomes, 7).0, peer)
      {
        LockedConfines(t, peer, outcomes);
      }
    } else {
      LeakyLeaks(peer, outcomes, peer);
    }
  }

  /** A packet the appended rule does not name falls to the policy. */
  lemma Undecided(t: Table, h: Hook, r: Rule, p: Packet)
    requires t.At(h).rules == [r] || t.At(h).rules == []
    requires !Matches(r, p)
    ensures Passes(t, h, p) <==> t.At(h).policy == Accept
  {
    assert [r][1..] == [];
    assert Walk(t.user, [], p) == None;
  }

  predicate Admits(outcomes: seq<Outcome>)
    requires |outcomes| == 7
  {
    Done(outcomes, 0) && Done(outcomes, 5) && Done(outcomes, 6)
  }

  /** The manager stays reachable from every starting table exactly when the
      flush and the two appends were made and obeyed. */
  lemma {:induction false} IsolateReachesExactlyWhen(peer: Addr, outcomes: seq<Outcome>)
    requires |outcomes| == 7
    ensures AlwaysReaches(peer, outcomes) <==> Admits(outcomes)
  {
    if Admits(outcomes) {
      forall t
        ensures Reaches(Execute(t, IsolateScript(peer), outcomes, 7).0, peer)
      {
        IsolateResult(t, peer, outcomes);
      }
    } else {
      UnreachableFrom(peer, outcomes);
    }
  }

  lemma {:induction false} UnreachableFrom(peer: Addr, outcomes: seq<Outcome>)
    requires |outcomes| == 7 && !Admits(outcomes)
    ensures !Reaches(Execute(Decided(Drop, Drop), IsolateScript(peer), outcomes, 7).0, peer)
  {
    var t := Decided(Drop, Drop);
    IsolateResult(t, peer, outcomes);
    var u := Execute(t, IsolateScript(peer), outcomes, 7).0;
    var p := Packet(peer, peer, 0);
    if !Done(outcomes, 0) {
      DecidedPasses(u, Input, Drop, p);
    } else if !Done(outcomes, 5) {
      assert u.input == Chain(Drop, []);
      assert !Passes(u, Input, p);
    } else {
      assert u.output == Chain(Drop, []);
      assert !Passes(u, Output, p);
    }
  }

  /** If anything was obeyed, some table is changed without being opened. */
  function Changed(outcomes: seq<Outcome>): Table
    requires |outcomes| == 7
  {
    if Done(outcomes, 0) then Decided(Drop, Drop) else Decided(Accept, Drop)
  }

  lemma {:induction false} IsolateChanges(peer: Addr, outcomes: seq<Outcome>)
    requires |outcomes| == 7 && !Untouched(outcomes)
    ensures var u := Execute(Changed(outcomes), IsolateScript(peer), outcomes, 7).0;
      u != Changed(outcomes) && !Open(u)
  {
    var t := Changed(outcomes);
    IsolateResult(t, peer, outcomes);
    EmptiedHolds(t, Done(outcomes, 0), Done(outcomes, 1));
    var u := Execute(t, IsolateScript(peer), outcomes, 7).0;
    var p := Packet(0, 0, 0);
    if Done(outcomes, 0) {
      assert u.forward == Chain(Drop, []);
      assert !Passes(u, Forward, p);
    } else {
      DecidedPasses(u, Forward, Drop, p);
      var i: nat :| i < 7 && Done(outcomes, i);
      assert i == 1 || i == 2 || i == 3 || i == 4 || i == 5 || i == 6;
      if i == 1 {
        assert "" in t.user && u.user == map[];
      } else if i == 5 {
        assert |u.input.rules| == 2;
      } else if i == 6 {
        assert |u.output.rules| == 2;
      }
    }
  }

  // ---------- Release ----------

  /** The flush never runs under a policy that is not yet ACCEPT. */
  predicate PoliciesBeforeFlush(outcomes: seq<Outcome>)
    requires |outcomes| == 5
  {
    Done(outcomes, 3) ==> Done(outcomes, 0) && Done(outcomes, 1) && Done(outcomes, 2)
  }

  ghost predicate NeverShutsOut(outcomes: seq<Outcome>)
    requires |outcomes| == 5
  {
    forall t, k: nat | k < 5 ::
      Wider(Execute(t, RELEASE_SCRIPT, outcomes, k).0, Execute(t, RELEASE_SCRIPT, outcomes, k + 1).0)
  }

  lemma AcceptPolicyIsWider(t: Table, h: Hook)
    ensures Wider(t, Apply(t, SetPolicy(h, Accept)))
  {
  }

  lemma FlushUnderAcceptOpens(t: Table)
    requires t.input.policy == t.output.policy == t.forward.policy == Accept
    ensures Open(Apply(t, Flush))
  {
  }

  /** The table after the first three runs of a release. */
  lemma {:induction false} ReleasePolicies(t: Table, outcomes: seq<Outcome>)
    requires |outcomes| == 5
    ensures Execute(t, RELEASE_SCRIPT, outcomes, 3).0
         == Table(t.input.(policy := Picked(Done(outcomes, 0), Accept, t.input.policy)),
                  t.output.(policy := Picked(Done(outcomes, 1), Accept, t.output.policy)),
                  t.forward.(policy := Picked(Done(outcomes, 2), Accept, t.forward.policy)), t.user)
  {
    ExecuteNext(t, RELEASE_SCRIPT, outcomes, 0);
    ExecuteNext(t, RELEASE_SCRIPT, outcomes, 1);
    ExecuteNext(t, RELEASE_SCRIPT, outcomes, 2);
  }

  /** What a release leaves, for any mix of obeyed, refused and raising runs. */
  lemma {:induction false} ReleaseResult(t: Table, outcomes: seq<Outcome>)
    requires |outcomes| == 5
    ensures var (u, completed) := Execute(t, RELEASE_SCRIPT, outcomes, 5);
            && completed == NoneRaised(outcomes)
            && u.input == Chain(Picked(Done(outcomes, 0), Accept, t.input.policy), Picked(Done(outcomes, 3), [], t.input.rules))
            && u.output == Chain(Picked(Done(outcomes, 1), Accept, t.output.policy), Picked(Done(outcomes, 3), [], t.output.rules))
            && u.forward == Chain(Picked(Done(outcomes, 2), Accept, t.forward.policy), Picked(Done(outcomes, 3), [], t.forward.rules))
            && (Done(outcomes, 4) && Deletable(t) ==> u.user == map[])
  {
    ReleasePolicies(t, outcomes);
    ExecuteNext(t, RELEASE_SCRIPT, outcomes, 3);
    ExecuteNext(t, RELEASE_SCRIPT, outcomes, 4);
    RunningExactlyWhen(t, RELEASE_SCRIPT, outcomes, 5);
    assert outcomes[..5] == outcomes;
  }

  lemma ReleaseStepIsWider(t: Table, outcomes: seq<Outcome>, k: nat)
    requires |outcomes| == 5 && k < 5 && PoliciesBeforeFlush(outcomes)
    ensures Wider(Execute(t, RELEASE_SCRIPT, outcomes, k).0, Execute(t, RELEASE_SCRIPT, outcomes, k + 1).0)
  {
    var u := Execute(t, RELEASE_SCRIPT, outcomes, k).0;
    ExecuteNext(t, RELEASE_SCRIPT, outcomes, k);
    if Done(outcomes, k) {
      if k < 3 {
        AcceptPolicyIsWider(u, RELEASE_SCRIPT[k].hook);
      } else if k == 3 {
        ReleasePolicies(t, outcomes);
        FlushUnderAcceptOpens(u);
      } else {
        DeleteChainsIsNeutral(u);
      }
    }
  }

  /** A release only ever opens the host further, from every starting table,
      exactly when its flush never runs under a policy that was refused. */
  lemma {:induction false} ReleaseNeverShutsOutExactlyWhen(outcomes: seq<Outcome>)
    requires |outcomes| == 5
    ensures NeverShutsOut(outcomes) <==> PoliciesBeforeFlush(outcomes)
  {
    if PoliciesBeforeFlush(outcomes) {
      forall t, k: nat | k < 5
        ensures Wider(Execute(t, RELEASE_SCRIPT, outcomes, k).0, Execute(t, RELEASE_SCRIPT, outcomes, k + 1).0)
      {
        ReleaseStepIsWider(t, outcomes, k);
      }
    } else {
      FlushShutsOut(outcomes);
    }
  }

  lemma {:induction false} FlushShutsOut(outcomes: seq<Outcome>)
    requires |outcomes| == 5 && !PoliciesBeforeFlush(outcomes)
    ensures !NeverShutsOut(outcomes)
  {
    var t := Decided(Drop, Accept);
    ReleasePolicies(t, outcomes);
    ExecuteNext(t, RELEASE_SCRIPT, outcomes, 3);
    var u, v := Execute(t, RELEASE_SCRIPT, outcomes, 3).0, Execute(t, RELEASE_SCRIPT, outcomes, 4).0;
    var h := if !Done(outcomes, 0) then Input else if !Done(outcomes, 1) then Output else Forward;
    var p := Packet(0, 0, 0);
    DecidedPasses(u, h, Accept, p);
    assert v.At(h) == Chain(Drop, []);
    assert !Passes(v, h, p);
    assert !Wider(u, v);
    assert 3 + 1 == 4;
  }

  ghost predicate AlwaysOpens(outcomes: seq<Outcome>)
    requires |outcomes| == 5
  {
    forall t :: Open(Execute(t, RELEASE_SCRIPT, outcomes, 5).0)
  }

  predicate Unlocks(outcomes: seq<Outcome>)
    requires |outcomes| == 5
  {
    Done(outcomes, 0) && Done(outcomes, 1) && Done(outcomes, 2) && Done(outcomes, 3)
  }

  lemma UnlockedOpens(t: Table, outcomes: seq<Outcome>)
    requires |outcomes| == 5 && Unlocks(outcomes)
    ensures Open(Execute(t, RELEASE_SCRIPT, outcomes, 5).0)
  {
    ReleaseResult(t, outcomes);
  }

  /** Otherwise a table that decides everything stays shut somewhere. */
  lemma {:induction false} LockedStaysShut(outcomes: seq<Outcome>)
    requires |outcomes| == 5 && !Unlocks(outcomes)
    ensures var u := Execute(Decided(Drop, Drop), RELEASE_SCRIPT, outcomes, 5).0;
      && !Open(u)
      && (!Untouched(outcomes) ==> u != Decided(Drop, Drop))
  {
    var t := Decided(Drop, Drop);
    ReleaseResult(t, outcomes);
    var u := Execute(t, RELEASE_SCRIPT, outcomes, 5).0;
    var p := Packet(0, 0, 0);
    if !Done(outcomes, 3) {
      DecidedPasses(u, Forward, Drop, p);
      if !Untouched(outcomes) {
        var i: nat :| i < 5 && Done(outcomes, i);
        assert i == 0 || i == 1 || i == 2 || i == 4;
        if i == 4 {
          assert "" in t.user && u.user == map[];
        }
      }
    } else {
      var h := if !Done(outcomes, 0) then Input else if !Done(outcomes, 1) then Output else Forward;
      assert u.At(h) == Chain(Drop, []);
      assert !Passes(u, h, p);
    }
  }

  /** The host ends open, whatever table it had, exactly when the three policy
      runs and the flush were made and obeyed. */
  lemma {:induction false} ReleaseOpensExactlyWhen(outcomes: seq<Outcome>)
    requires |outcomes| == 5
    ensures AlwaysOpens(outcomes) <==> Unlocks(outcomes)
  {
    if Unlocks(outcomes) {
      forall t
        ensures Open(Execute(t, RELEASE_SCRIPT, outcomes, 5).0)
      {
        UnlockedOpens(t, outcomes);
      }
    } else {
      LockedStaysShut(outcomes);
    }
  }

  lemma {:induction false} RefusedRunsChangeNothing(t: Table, script: seq<Command>, outcomes: seq<Outcome>, k: nat)
    requires k <= |script| == |outcomes| && forall i :: 0 <= i < |outcomes| ==> outcomes[i] == Refused
    ensures Execute(t, script, outcomes, k) == (t, true)
  {
    if k > 0 { RefusedRunsChangeNothing(t, script, outcomes, k - 1); }
  }

  // ---------- The host ----------

  /** The table and the reported status of `IsolateCommand.execute`.  Writing the
      marker file can fail after the rules are in place. */
  function IsolateHost(t: Table, peer: Addr, outcomes: seq<Outcome>, markerWritten: bool): (Table, bool)
    requires |outcomes| == 7
  {
    var (u, done) := Execute(t, IsolateScript(peer), outcomes, 7);
    (u, done && markerWritten)
  }

  function ReleaseHost(t: Table, outcomes: seq<Outcome>): (Table, bool)
    requires |outcomes| == 5
  {
    Execute(t, RELEASE_SCRIPT, outcomes, 5)
  }

  class Host {
    var table: Table
    var marker: bool

    constructor (t: Table)
      ensures table == t && !marker
    {
      table := t;
      marker := false;
    }

    /** Runs commands until one raises. */
    method Run(script: seq<Command>, outcomes: seq<Outcome>) returns (completed: bool)
      requires |script| == |outcomes|
      modifies this`table
      ensures (table, completed) == Execute(old(table), script, outcomes, |script|)
    {
      var i := 0;
      completed := true;
      while i < |script| && completed
        invariant i <= |script|
        invariant (table, completed) == Execute(old(table), script, outcomes, i)
      {
        if outcomes[i] == Raised {
          completed := false;
        } else if outcomes[i] == Obeyed {
          table := Apply(table, script[i]);
        }
        i := i + 1;
      }
      if !completed {
        StaysRaised(old(table), script, outcomes, i);
      }
    }

    method Isolate(peer: Addr, outcomes: seq<Outcome>, markerWritten: bool) returns (success: bool)
      requires |outcomes| == 7
      modifies this
      ensures (table, success) == IsolateHost(old(table), peer, outcomes, markerWritten)
      ensures marker == (old(marker) || success)
    {
      var completed := Run(IsolateScript(peer), outcomes);
      if completed && markerWritten {
        marker := true;
        success := true;
      } else {
        success := false;
      }
    }

    /** A marker that cannot be removed is left without a word. */
    method Unisolate(outcomes: seq<Outcome>, markerRemovable: bool) returns (success: bool)
      requires |outcomes| == 5
      modifies this
      ensures (table, success) == ReleaseHost(old(table), outcomes)
      ensures marker == (old(marker) && !(success && markerRemovable))
    {
      success := Run(RELEASE_SCRIPT, outcomes);
      if success && marker && markerRemovable {
        marker := false;
      }
    }
  }

  lemma {:induction false} StaysRaised(t: Table, script: seq<Command>, outcomes: seq<Outcome>, k: nat)
    requires k <= |script| == |outcomes| && !Execute(t, script, outcomes, k).1
    ensures Execute(t, script, outcomes, |script|) == Execute(t, script, outcomes, k)
    decreases |script| - k
  {
    if k < |script| { StaysRaised(t, script, outcomes, k + 1); }
  }
}
