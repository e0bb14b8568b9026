/** Does the manager know whether the host is contained?  What it shows is the
    host's state with the acknowledgements still on the way not yet applied, so
    it is never more than one executed command behind. */
module Containment {
  import opened Options
  import opened Records
  import opened Manager
  import opened Protocol
  import RequestReply
  import Firewall

  // ---------- Catching up with the queue ----------

  /** The containment flag after one acknowledgement. */
  function Effect(isolated: bool, action: Action, report: AckStatus): bool {
    if report != Known(SUCCESS) then isolated
    else
      match action
      case Isolate => true
      case AutoIsolate => true
      case Unisolate => false
      case Quarantine => isolated
      case OtherAction(_) => isolated
  }

  predicate Concerns(action: Action) { action in {Isolate, AutoIsolate, Unisolate} }

  function ActionAt(commands: seq<CommandRow>, id: nat): Action {
    if id < |commands| then commands[id].action else OtherAction("")
  }

  function Applied(isolated: bool, m: Upstream, commands: seq<CommandRow>): bool {
    if m.CommandAck? then Effect(isolated, ActionAt(commands, m.command), m.status) else isolated
  }

  /** The flag once the manager has worked through the queue. */
  function Drained(isolated: bool, up: seq<Upstream>, commands: seq<CommandRow>): bool
    decreases |up|
  {
    if up == [] then isolated else Drained(Applied(isolated, up[0], commands), up[1..], commands)
  }

  /** The flag, brought up to date with what is on the way to the manager. */
  function Caught(flag: bool, up: seq<Upstream>, p: Phase, commands: seq<CommandRow>): bool {
    var drained := Drained(flag, up, commands);
    if p.Executed? then Effect(drained, ActionAt(commands, p.command), p.report) else drained
  }

  /** The flag once everything executed so far is acknowledged. */
  function CaughtUp(s: State): bool { Caught(s.db.Isolated(), s.up, s.phase, s.db.commands) }

  // ---------- The host ----------

  ghost predicate Contained(t: Firewall.Table) {
    exists peer :: Firewall.Confined(t, peer)
  }

  /** A host shown as isolated is confined to the manager; one that is not is as
      it was at the start, or open. */
  ghost predicate Fits(isolated: bool, host: Firewall.Table, start: Firewall.Table) {
    if isolated then Contained(host) else host == start || Firewall.Open(host)
  }

  /** Whether a report says where the host is now. */
  predicate Decides(action: Action, report: AckStatus) { report == Known(SUCCESS) && Concerns(action) }

  // ---------- Executions that can be believed ----------

  /** Success means that the runs that matter were obeyed, anything else that no
      run was. */
  predicate Candid(action: Action, env: Env)
    requires Suits(env, action)
  {
    match action
    case Isolate =>
      if Firewall.NoneRaised(env.outcomes) && env.marker then Firewall.Locks(env.outcomes)
      else Firewall.Untouched(env.outcomes)
    case Unisolate =>
      if Firewall.NoneRaised(env.outcomes) then Firewall.Unlocks(env.outcomes)
      else Firewall.Untouched(env.outcomes)
    case _ => true
  }

  /** A flag that fits the host still does when the report is applied. */
  ghost predicate KeepsFit(host: Firewall.Table, start: Firewall.Table, isolated: bool, action: Action, env: Env)
    requires Suits(env, action)
  {
    Fits(isolated, host, start) ==>
      var (t, report) := Perform(host, action, env); Fits(Effect(isolated, action, report), t, start)
  }

  ghost predicate AlwaysFits(action: Action, env: Env)
    requires Suits(env, action)
  {
    forall host, start, isolated :: KeepsFit(host, start, isolated, action, env)
  }

  /** A candid success puts the host where the report says, wherever it was. */
  lemma DecisiveFits(host: Firewall.Table, start: Firewall.Table, isolated: bool, action: Action, env: Env)
    requires Suits(env, action) && Candid(action, env) && Decides(action, Perform(host, action, env).1)
    ensures var (t, report) := Perform(host, action, env); Fits(Effect(isolated, action, report), t, start)
  {
    if action == Isolate {
      Firewall.RunningExactlyWhen(host, Firewall.IsolateScript(env.peer), env.outcomes, 7);
      assert env.outcomes[..7] == env.outcomes;
      Firewall.LockedConfines(host, env.peer, env.outcomes);
    } else {
      Firewall.RunningExactlyWhen(host, Firewall.RELEASE_SCRIPT, env.outcomes, 5);
      assert env.outcomes[..5] == env.outcomes;
      Firewall.UnlockedOpens(host, env.outcomes);
    }
  }

  /** Any other candid execution leaves the host alone. */
  lemma IndecisiveKeeps(host: Firewall.Table, action: Action, env: Env)
    requires Suits(env, action) && Candid(action, env) && !Decides(action, Perform(host, action, env).1)
    ensures Perform(host, action, env).0 == host
  {
    if action == Isolate {
      Firewall.RunningExactlyWhen(host, Firewall.IsolateScript(env.peer), env.outcomes, 7);
      assert env.outcomes[..7] == env.outcomes;
      Firewall.UntouchedChangesNothing(host, Firewall.IsolateScript(env.peer), env.outcomes, 7);
    } else if action == Unisolate {
      Firewall.RunningExactlyWhen(host, Firewall.RELEASE_SCRIPT, env.outcomes, 5);
      assert env.outcomes[..5] == env.outcomes;
      Firewall.UntouchedChangesNothing(host, Firewall.RELEASE_SCRIPT, env.outcomes, 5);
    }
  }

  lemma CandidFits(host: Firewall.Table, start: Firewall.Table, isolated: bool, action: Action, env: Env)
    requires Suits(env, action) && Candid(action, env)
    ensures KeepsFit(host, start, isolated, action, env)
  {
    if Decides(action, Perform(host, action, env).1) {
      DecisiveFits(host, start, isolated, action, env);
    } else {
      IndecisiveKeeps(host, action, env);
    }
  }

  lemma OpenIsNotContained(t: Firewall.Table)
    requires Firewall.Open(t)
    ensures !Contained(t)
  {
    assert Firewall.Passes(t, Firewall.Forward, Firewall.Packet(0, 0, 0));
  }

  lemma IsolationMisfits(env: Env)
    requires Suits(env, Isolate) && !Candid(Isolate, env)
    ensures !AlwaysFits(Isolate, env)
  {
    if Firewall.NoneRaised(env.outcomes) && env.marker {
      var host := Firewall.Leaky(env.outcomes);
      Firewall.IsolateResult(host, env.peer, env.outcomes);
      var (t, report) := Perform(host, Isolate, env);
      forall q
        ensures !Firewall.Confined(t, q)
      {
        Firewall.LeakyLeaks(env.peer, env.outcomes, q);
      }
      assert !KeepsFit(host, host, false, Isolate, env);
    } else {
      var host := Firewall.Changed(env.outcomes);
      Firewall.IsolateResult(host, env.peer, env.outcomes);
      Firewall.IsolateChanges(env.peer, env.outcomes);
      var (t, report) := Perform(host, Isolate, env);
      assert !KeepsFit(host, host, false, Isolate, env);
    }
  }

  /** A release that does it all and then raises. */
  lemma LateRaiseMisfits(env: Env)
    requires Suits(env, Unisolate) && Firewall.Unlocks(env.outcomes) && !Firewall.NoneRaised(env.outcomes)
    ensures !AlwaysFits(Unisolate, env)
  {
    var host := Firewall.IsolatedTable(0);
    Firewall.IsolatedTableConfines(0);
    Firewall.ReleaseResult(host, env.outcomes);
    Firewall.UnlockedOpens(host, env.outcomes);
    OpenIsNotContained(Perform(host, Unisolate, env).0);
    assert Contained(host);
    assert !KeepsFit(host, host, true, Unisolate, env);
  }

  lemma PartialReleaseMisfits(env: Env)
    requires Suits(env, Unisolate) && !Candid(Unisolate, env) && !Firewall.Unlocks(env.outcomes)
    ensures !AlwaysFits(Unisolate, env)
  {
    var host := Firewall.Decided(Firewall.Drop, Firewall.Drop);
    Firewall.RunningExactlyWhen(host, Firewall.RELEASE_SCRIPT, env.outcomes, 5);
    assert env.outcomes[..5] == env.outcomes;
    Firewall.LockedStaysShut(env.outcomes);
    if Firewall.NoneRaised(env.outcomes) {
      assert Firewall.Confined(host, 0);
      assert Firewall.Open(Firewall.OPEN_TABLE);
      assert !KeepsFit(host, Firewall.OPEN_TABLE, true, Unisolate, env);
    } else {
      assert !KeepsFit(host, host, false, Unisolate, env);
    }
  }

  lemma ReleaseMisfits(env: Env)
    requires Suits(env, Unisolate) && !Candid(Unisolate, env)
    ensures !AlwaysFits(Unisolate, env)
  {
    if Firewall.Unlocks(env.outcomes) {
      LateRaiseMisfits(env);
    } else {
      PartialReleaseMisfits(env);
    }
  }

  /** The executions whose reports keep every fitting flag fitting, on every host,
      are exactly the candid ones. */
  lemma CandidExactlyWhen(action: Action, env: Env)
    requires Suits(env, action)
    ensures AlwaysFits(action, env) <==> Candid(action, env)
  {
    if Candid(action, env) {
      forall host, start, isolated
        ensures KeepsFit(host, start, isolated, action, env)
      {
        CandidFits(host, start, isolated, action, env);
      }
    } else if action == Isolate {
      IsolationMisfits(env);
    } else {
      ReleaseMisfits(env);
    }
  }

  // ---------- The invariant ----------

  /** Jobs carry the action of their command. */
  predicate Knows(commands: seq<CommandRow>, jobs: seq<Job>) {
    forall i :: 0 <= i < |jobs| ==> jobs[i].id < |commands| && jobs[i].action == commands[jobs[i].id].action
  }

  predicate Consistent(s: State) {
    && (!s.phase.AwaitBeat? ==> Knows(s.db.commands, s.phase.jobs))
    && (s.phase.Executed? ==> s.phase.command < |s.db.commands|)
    && (forall i :: 0 <= i < |s.down| && s.down[i].BeatReply? ==> Knows(s.db.commands, s.down[i].jobs))
    && AcksKnown(s.up, s.db.commands)
    && (s.db.commands != [] ==> s.db.agent.Some?)
  }

  lemma KnowsFrame(commands: seq<CommandRow>, commands': seq<CommandRow>, jobs: seq<Job>)
    requires SameActions(commands, commands') && Knows(commands, jobs)
    ensures Knows(commands', jobs)
  {
  }

  lemma HandleKeepsActions(db: Db, m: Upstream, order: seq<nat>, fault: bool)
    requires ListsPending(db.commands, order)
    ensures var (db', reply) := Handle(db, m, order, fault);
      && SameActions(db.commands, db'.commands) && |db'.commands| == |db.commands|
      && (db.agent.Some? ==> db'.agent.Some?)
      && (reply.Some? && reply.value.BeatReply? ==> Knows(db.commands, reply.value.jobs))
  {
  }

  lemma ConsistentServe(s: State, order: seq<nat>, fault: bool)
    requires Consistent(s) && Enabled(s, Serve(order, fault))
    ensures var s' := Next(s, Serve(order, fault)); Consistent(s') && SameActions(s.db.commands, s'.db.commands)
  {
    var s' := Next(s, Serve(order, fault));
    HandleKeepsActions(s.db, s.up[0], order, fault);
    AcksKnownTail(s.up, s.db.commands);
    var reply := Handle(s.db, s.up[0], order, fault).1;
    forall i | 0 <= i < |s'.down| && s'.down[i].BeatReply?
      ensures Knows(s'.db.commands, s'.down[i].jobs)
    {
      assert Knows(s.db.commands, s'.down[i].jobs) by {
        if i < |s.down| {
          assert s'.down[i] == s.down[i];
        }
      }
      KnowsFrame(s.db.commands, s'.db.commands, s'.down[i].jobs);
    }
  }

  /** New commands come last, so what is known of the old ones stays known. */
  lemma ConsistentWrite(s: State, step: Step)
    requires Consistent(s) && Enabled(s, step)
    requires step.Issue? || step.Respond? || step.Sweep? || step.Put? || step.Rollback? || step.Edit? || step.Register?
    ensures Consistent(Next(s, step)) && SameActions(s.db.commands, Next(s, step).db.commands)
  {
    var s' := Next(s, step);
    assert SameActions(s.db.commands, s'.db.commands);
    if !s.phase.AwaitBeat? {
      KnowsFrame(s.db.commands, s'.db.commands, s.phase.jobs);
    }
    forall i | 0 <= i < |s.down| && s.down[i].BeatReply?
      ensures Knows(s'.db.commands, s.down[i].jobs)
    {
      KnowsFrame(s.db.commands, s'.db.commands, s.down[i].jobs);
    }
  }

  lemma ConsistentAgent(s: State, step: Step)
    requires Consistent(s) && Enabled(s, step)
    requires step.SendBeat? || step.SendTelemetry? || step.Receive? || step.GiveUp? || step.Run? || step.Abort? || step.SendAck?
    ensures Consistent(Next(s, step)) && SameActions(s.db.commands, Next(s, step).db.commands)
  {
  }

  lemma ConsistentStep(s: State, step: Step)
    requires Consistent(s) && Enabled(s, step)
    ensures Consistent(Next(s, step)) && SameActions(s.db.commands, Next(s, step).db.commands)
  {
    match step
    case Serve(order, fault) => ConsistentServe(s, order, fault);
    case SendBeat(_) => ConsistentAgent(s, step);
    case SendTelemetry => ConsistentAgent(s, step);
    case Receive => ConsistentAgent(s, step);
    case GiveUp => ConsistentAgent(s, step);
    case Run(_) => ConsistentAgent(s, step);
    case Abort => ConsistentAgent(s, step);
    case SendAck(_) => ConsistentAgent(s, step);
    case _ => ConsistentWrite(s, step);
  }

  predicate SameActions(commands: seq<CommandRow>, commands': seq<CommandRow>) {
    && |commands| <= |commands'|
    && forall i :: 0 <= i < |commands| ==> commands'[i].action == commands[i].action
  }

  predicate AcksKnown(up: seq<Upstream>, commands: seq<CommandRow>) {
    forall i :: 0 <= i < |up| && up[i].CommandAck? ==> up[i].command < |commands|
  }

  lemma {:induction false} DrainedFrame(isolated: bool, up: seq<Upstream>, commands: seq<CommandRow>, commands': seq<CommandRow>)
    requires SameActions(commands, commands') && AcksKnown(up, commands)
    ensures Drained(isolated, up, commands') == Drained(isolated, up, commands)
    decreases |up|
  {
    if up != [] {
      assert Applied(isolated, up[0], commands') == Applied(isolated, up[0], commands);
      DrainedFrame(Applied(isolated, up[0], commands), up[1..], commands, commands');
    }
  }

  lemma {:induction false} DrainedPush(isolated: bool, up: seq<Upstream>, m: Upstream, commands: seq<CommandRow>)
    ensures Drained(isolated, up + [m], commands) == Applied(Drained(isolated, up, commands), m, commands)
    decreases |up|
  {
    if up == [] {
      assert [] + [m] == [m] && [m][1..] == [];
    } else {
      DrainedPush(Applied(isolated, up[0], commands), up[1..], m, commands);
      assert (up + [m])[1..] == up[1..] + [m];
    }
  }

  // ---------- What the manager is told, and what it tells itself ----------

  /** A successful containment acknowledgement. */
  predicate IsNews(m: Upstream, commands: seq<CommandRow>) {
    m.CommandAck? && Decides(ActionAt(commands, m.command), m.status)
  }

  predicate News(up: seq<Upstream>, commands: seq<CommandRow>) {
    exists i :: 0 <= i < |up| && IsNews(up[i], commands)
  }

  /** News is on its way, so what the flag is now does not matter. */
  predicate Coming(up: seq<Upstream>, p: Phase, commands: seq<CommandRow>) {
    News(up, commands) || (p.Executed? && Decides(ActionAt(commands, p.command), p.report))
  }

  lemma {:induction false} DrainedForgets(a: bool, b: bool, up: seq<Upstream>, commands: seq<CommandRow>)
    ensures News(up, commands) ==> Drained(a, up, commands) == Drained(b, up, commands)
    ensures !News(up, commands) ==> Drained(a, up, commands) == a
    decreases |up|
  {
    if up != [] {
      DrainedForgets(Applied(a, up[0], commands), Applied(b, up[0], commands), up[1..], commands);
      assert News(up, commands) <==> IsNews(up[0], commands) || News(up[1..], commands) by {
        if i :| 0 <= i < |up| && IsNews(up[i], commands) && i > 0 {
          assert up[1..][i - 1] == up[i];
        }
        if i :| 0 <= i < |up[1..]| && IsNews(up[1..][i], commands) {
          assert up[i + 1] == up[1..][i];
        }
      }
    }
  }

  /** The flag set to another value: it shows unless news is on its way. */
  lemma CaughtForgets(a: bool, b: bool, up: seq<Upstream>, p: Phase, commands: seq<CommandRow>)
    ensures Coming(up, p, commands) ==> Caught(a, up, p, commands) == Caught(b, up, p, commands)
    ensures !Coming(up, p, commands) ==> Caught(a, up, p, commands) == a
  {
    DrainedForgets(a, b, up, commands);
  }

  /** What a step writes to the flag past the agent. */
  function Written(s: State, step: Step): Option<bool> {
    match step
    case Put(d, _) => Some(d.DirectQuarantine? || d.DirectIsolate?)
    case Rollback(a, _) => if a < |s.db.actions| && Restores(s.db.actions[a].kind) then Some(false) else None
    case Edit(_, newFlag) => newFlag
    case _ => None
  }

  /** News that the manager fails on. */
  predicate DropsNews(s: State, step: Step) {
    step.Serve? && step.fault && s.up != [] && IsNews(s.up[0], s.db.commands)
  }

  /** The flag is turned with nothing on the way to set it right: it is written
      past the agent, or the news that would change it is dropped. */
  predicate Flips(s: State, step: Step) {
    var flag := s.db.Isolated();
    || (var written := Written(s, step);
        written.Some? && written.value != flag && !Coming(s.up, s.phase, s.db.commands))
    || (&& DropsNews(s, step)
        && Applied(flag, s.up[0], s.db.commands) != flag
        && !Coming(s.up[1..], s.phase, s.db.commands))
  }

  lemma CaughtFrame(flag: bool, up: seq<Upstream>, p: Phase, commands: seq<CommandRow>, commands': seq<CommandRow>)
    requires SameActions(commands, commands') && AcksKnown(up, commands) && (p.Executed? ==> p.command < |commands|)
    ensures Caught(flag, up, p, commands') == Caught(flag, up, p, commands)
  {
    DrainedFrame(flag, up, commands, commands');
  }

  lemma AcksKnownTail(up: seq<Upstream>, commands: seq<CommandRow>)
    requires up != [] && AcksKnown(up, commands)
    ensures AcksKnown(up[1..], commands)
  {
    assert forall i :: 0 <= i < |up[1..]| ==> up[1..][i] == up[i+1];
  }

  /** What a served message does to the flag. */
  lemma ServedFlag(s: State, order: seq<nat>, fault: bool)
    requires Consistent(s) && Enabled(s, Serve(order, fault))
    ensures Next(s, Serve(order, fault)).db.Isolated()
         == if fault then s.db.Isolated() else Applied(s.db.Isolated(), s.up[0], s.db.commands)
  {
  }

  lemma ServeAccounts(s: State, order: seq<nat>, fault: bool)
    requires Consistent(s) && Enabled(s, Serve(order, fault))
    ensures CaughtUp(Next(s, Serve(order, fault))) == (CaughtUp(s) != Flips(s, Serve(order, fault)))
  {
    var s' := Next(s, Serve(order, fault));
    var flag, rest := s.db.Isolated(), s.up[1..];
    var applied := Applied(flag, s.up[0], s.db.commands);
    ConsistentServe(s, order, fault);
    AcksKnownTail(s.up, s.db.commands);
    CaughtFrame(s'.db.Isolated(), rest, s.phase, s.db.commands, s'.db.commands);
    ServedFlag(s, order, fault);
    assert CaughtUp(s) == Caught(applied, rest, s.phase, s.db.commands);
    CaughtForgets(applied, flag, rest, s.phase, s.db.commands);
    CaughtForgets(flag, applied, rest, s.phase, s.db.commands);
  }

  lemma WriteAccounts(s: State, step: Step)
    requires Consistent(s) && Enabled(s, step)
    requires step.Put? || step.Rollback? || step.Edit?
    ensures CaughtUp(Next(s, step)) == (CaughtUp(s) != Flips(s, step))
  {
    var s' := Next(s, step);
    var flag, flag' := s.db.Isolated(), s'.db.Isolated();
    ConsistentStep(s, step);
    assert AcksKnown(s.up, s.db.commands);
    CaughtFrame(flag', s.up, s.phase, s.db.commands, s'.db.commands);
    CaughtForgets(flag, flag', s.up, s.phase, s.db.commands);
    CaughtForgets(flag', flag, s.up, s.phase, s.db.commands);
    assert flag' == if Written(s, step).Some? then Written(s, step).value else flag;
  }

  lemma SendAccounts(s: State, step: Step)
    requires Consistent(s) && Enabled(s, step)
    requires step.SendBeat? || step.SendTelemetry? || step.SendAck?
    ensures CaughtUp(Next(s, step)) == CaughtUp(s)
  {
    match step
    case SendBeat(beat) => DrainedPush(s.db.Isolated(), s.up, Heartbeat(s.next, beat), s.db.commands);
    case SendTelemetry => DrainedPush(s.db.Isolated(), s.up, Telemetry(s.next), s.db.commands);
    case SendAck(error) =>
      DrainedPush(s.db.Isolated(), s.up, CommandAck(s.next, s.phase.command, s.phase.report, error), s.db.commands);
  }

  lemma QuietAccounts(s: State, step: Step)
    requires Consistent(s) && Enabled(s, step)
    requires step.Receive? || step.GiveUp? || step.Abort? || step.Sweep? || step.Register? || step.Issue? || step.Respond?
    ensures CaughtUp(Next(s, step)) == CaughtUp(s)
  {
    var s' := Next(s, step);
    ConsistentStep(s, step);
    assert AcksKnown(s.up, s.db.commands);
    CaughtFrame(s.db.Isolated(), s.up, s.phase, s.db.commands, s'.db.commands);
  }

  /** The effect of every step on the flag, brought up to date. */
  lemma StepAccounts(s: State, step: Step)
    requires Consistent(s) && Enabled(s, step)
    ensures CaughtUp(Next(s, step)) ==
      if step.Run? then
        var action := s.phase.jobs[0].action;
        Effect(CaughtUp(s), action, Perform(s.host, action, step.env).1)
      else CaughtUp(s) != Flips(s, step)
  {
    match step
    case Run(_) =>
    case Serve(order, fault) => ServeAccounts(s, order, fault);
    case Put(_, _) => WriteAccounts(s, step);
    case Rollback(_, _) => WriteAccounts(s, step);
    case Edit(_, _) => WriteAccounts(s, step);
    case SendBeat(_) => SendAccounts(s, step);
    case SendTelemetry => SendAccounts(s, step);
    case SendAck(_) => SendAccounts(s, step);
    case _ => QuietAccounts(s, step);
  }

  // ---------- Runs ----------

  /** The report of the execution that ends a run. */
  ghost function LastReport(host: Firewall.Table, steps: seq<Step>): (Action, AckStatus)
    requires steps != [] && After(Start(host), steps).Some? && steps[|steps|-1].Run?
  {
    var s := After(Start(host), steps[..|steps|-1]).value;
    var action := s.phase.jobs[0].action;
    (action, Perform(s.host, action, steps[|steps|-1].env).1)
  }

  /** The last successful containment execution was an isolation. */
  ghost predicate RanIsolated(host: Firewall.Table, steps: seq<Step>)
    requires After(Start(host), steps).Some?
  {
    steps != []
    && (if steps[|steps|-1].Run? then
          var (action, report) := LastReport(host, steps);
          Effect(RanIsolated(host, steps[..|steps|-1]), action, report)
        else RanIsolated(host, steps[..|steps|-1]))
  }

  /** Since the last successful containment execution the flag was turned an odd
      number of times. */
  ghost predicate Turned(host: Firewall.Table, steps: seq<Step>)
    requires After(Start(host), steps).Some?
  {
    steps != []
    && (var front, step := steps[..|steps|-1], steps[|steps|-1];
        if step.Run? then
          var (action, report) := LastReport(host, steps);
          !Decides(action, report) && Turned(host, front)
        else Turned(host, front) != Flips(After(Start(host), front).value, step))
  }

  /** Every execution was candid since the last successful one about containment,
      that one included. */
  ghost predicate Sure(host: Firewall.Table, steps: seq<Step>)
    requires After(Start(host), steps).Some?
  {
    steps == []
    || (var front, step := steps[..|steps|-1], steps[|steps|-1];
        if step.Run? then
          var (action, report) := LastReport(host, steps);
          Candid(action, step.env) && (Decides(action, report) || Sure(host, front))
        else Sure(host, front))
  }

  /** Over every run without any condition: brought up to date, the flag tells the
      last successful containment execution, unless it is turned. */
  lemma {:induction false} FlagIsLastRunUnlessTurned(host: Firewall.Table, steps: seq<Step>)
    requires After(Start(host), steps).Some?
    ensures Consistent(After(Start(host), steps).value)
    ensures CaughtUp(After(Start(host), steps).value) == (RanIsolated(host, steps) != Turned(host, steps))
  {
    if steps != [] {
      var front, step := steps[..|steps|-1], steps[|steps|-1];
      FlagIsLastRunUnlessTurned(host, front);
      var s := After(Start(host), front).value;
      ConsistentStep(s, step);
      StepAccounts(s, step);
    }
  }

  /** The host is where the last successful containment execution put it. */
  lemma {:induction false} HostIsLastRun(host: Firewall.Table, steps: seq<Step>)
    requires After(Start(host), steps).Some? && Sure(host, steps)
    ensures Fits(RanIsolated(host, steps), After(Start(host), steps).value.host, host)
  {
    if steps != [] {
      var front, step := steps[..|steps|-1], steps[|steps|-1];
      var s := After(Start(host), front).value;
      if step.Run? {
        var (action, report) := LastReport(host, steps);
        if Decides(action, report) {
          DecisiveFits(s.host, host, RanIsolated(host, front), action, step.env);
        } else {
          HostIsLastRun(host, front);
          IndecisiveKeeps(s.host, action, step.env);
        }
      } else {
        HostIsLastRun(host, front);
      }
    }
  }

  /** The manager's flag, brought up to date, is the state of the host, through
      any timeouts, lost replies, aborted batches, edits, rollbacks, orders of
      operators and dropped news, whenever these have not turned it an odd number
      of times since the last successful containment execution. */
  lemma FlagFitsHost(host: Firewall.Table, steps: seq<Step>)
    requires After(Start(host), steps).Some? && Sure(host, steps) && !Turned(host, steps)
    ensures var s := After(Start(host), steps).value; Fits(CaughtUp(s), s.host, host)
  {
    FlagIsLastRunUnlessTurned(host, steps);
    HostIsLastRun(host, steps);
  }

  /** On a host that starts open the flag fits exactly then. */
  lemma FlagFitsHostExactlyWhen(host: Firewall.Table, steps: seq<Step>)
    requires After(Start(host), steps).Some? && Sure(host, steps) && Firewall.Open(host)
    ensures var s := After(Start(host), steps).value; Fits(CaughtUp(s), s.host, host) <==> !Turned(host, steps)
  {
    FlagIsLastRunUnlessTurned(host, steps);
    HostIsLastRun(host, steps);
    var t := After(Start(host), steps).value.host;
    if Firewall.Open(t) {
      OpenIsNotContained(t);
    }
  }

  /** Whatever happened before, a candid successful containment execution makes
      the flag fit again. */
  lemma NextRunHeals(host: Firewall.Table, steps: seq<Step>, env: Env)
    requires After(Start(host), steps + [Run(env)]).Some?
    requires var (action, report) := LastReport(host, steps + [Run(env)]);
      Candid(action, env) && Decides(action, report)
    ensures var s := After(Start(host), steps + [Run(env)]).value; Fits(CaughtUp(s), s.host, host)
  {
    var all := steps + [Run(env)];
    assert all[|all|-1] == Run(env);
    FlagFitsHost(host, all);
  }

  // ---------- The lag ----------

  function Acks(up: seq<Upstream>): nat {
    if up == [] then 0 else Acks(up[..|up|-1]) + (if up[|up|-1].CommandAck? then 1 else 0)
  }

  /** Commands carried out whose outcome the manager has not been told. */
  function Unacknowledged(s: State): nat {
    Acks(s.up) + (if s.phase.Executed? then 1 else 0)
  }

  lemma {:induction false} AcksAreOwed(up: seq<Upstream>, next: nat)
    requires RequestReply.Ordered(up, [], next)
    ensures Acks(up) <= |RequestReply.RequestTags(up)|
    ensures forall t :: t in RequestReply.RequestTags(up) ==> exists i :: 0 <= i < |up| && up[i].tag == t
  {
    if up != [] {
      var n := |up| - 1;
      AcksAreOwed(up[..n], next);
      forall t | t in RequestReply.RequestTags(up) ensures exists i :: 0 <= i < |up| && up[i].tag == t {
        if t in RequestReply.RequestTags(up[..n]) {
          var i :| 0 <= i < n && up[..n][i].tag == t;
          assert up[i].tag == t;
        } else {
          assert up[n].tag == t;
        }
      }
      assert up[n].tag !in RequestReply.RequestTags(up[..n]);
    }
  }

  /** The manager is at most one executed command behind, and one more for every
      reply or request lost on the way. */
  lemma {:induction false} LagBounded(host: Firewall.Table, steps: seq<Step>)
    requires After(Start(host), steps).Some?
    ensures var s := After(Start(host), steps).value; Unacknowledged(s) <= 1 + |s.lost|
  {
    RequestReply.RunKeeps(host, steps);
    var s := After(Start(host), steps).value;
    AcksAreOwed(s.up, s.next);
    var owed := RequestReply.Owed(s.up, s.down);
    assert RequestReply.RequestTags(s.up) <= owed;
    Within(RequestReply.RequestTags(s.up), owed);
  }

  lemma Within(a: set<nat>, b: set<nat>)
    requires a <= b
    ensures |a| <= |b|
  {
    assert b == a + (b - a);
  }

  lemma {:induction false} NoAcksDrainNothing(isolated: bool, up: seq<Upstream>, commands: seq<CommandRow>)
    requires forall i :: 0 <= i < |up| ==> !up[i].CommandAck?
    ensures Drained(isolated, up, commands) == isolated
    decreases |up|
  {
    if up != [] {
      NoAcksDrainNothing(isolated, up[1..], commands);
    }
  }

  /** With nothing unacknowledged the flag itself is the truth: an agent shown as
      isolated lets nothing pass but its manager's packets, and on a host that
      started open the condition is exact. */
  lemma QuietFlagIsTrue(host: Firewall.Table, steps: seq<Step>)
    requires After(Start(host), steps).Some? && Sure(host, steps)
    requires var s := After(Start(host), steps).value;
             !s.phase.Executed? && forall i :: 0 <= i < |s.up| ==> !s.up[i].CommandAck?
    ensures var s := After(Start(host), steps).value;
            && (!Turned(host, steps) ==> Fits(s.db.Isolated(), s.host, host))
            && (Firewall.Open(host) && Turned(host, steps) ==> !Fits(s.db.Isolated(), s.host, host))
  {
    var s := After(Start(host), steps).value;
    NoAcksDrainNothing(s.db.Isolated(), s.up, s.db.commands);
    if !Turned(host, steps) {
      FlagFitsHost(host, steps);
    } else if Firewall.Open(host) {
      FlagFitsHostExactlyWhen(host, steps);
    }
  }

  // ---------- Status and flag ----------

  /** A step that sets status and flag together, or a status that goes with both. */
  predicate Settling(s: State, step: Step) {
    match step
    case Put(_, _) => true
    case Rollback(a, _) => a < |s.db.actions| && Restores(s.db.actions[a].kind)
    case Sweep(cutoff) => s.db.agent.Some? && s.db.agent.value.Swept(cutoff) != s.db.agent.value
    case Serve(_, fault) =>
      && !fault && s.up != [] && s.up[0].CommandAck? && s.up[0].status == Known(SUCCESS)
      && (ActionAt(s.db.commands, s.up[0].command) in {Isolate, AutoIsolate, Unisolate, Quarantine})
    case _ => false
  }

  /** The last step to settle, edit or register was an edit or a registration that
      made status and flag clash. */
  ghost predicate Clashes(host: Firewall.Table, steps: seq<Step>)
    requires After(Start(host), steps).Some?
  {
    steps != []
    && (var front, step := steps[..|steps|-1], steps[|steps|-1];
        var s := After(Start(host), front).value;
        if Settling(s, step) then false
        else if step.Edit? then !s.db.agent.value.Edited(step.newStatus, step.newFlag).Coherent()
        else if step.Register? then step.status == ISOLATED
        else Clashes(host, front))
  }

  lemma StepClashes(s: State, step: Step)
    requires Consistent(s) && Enabled(s, step)
    ensures var db, db' := s.db, Next(s, step).db;
      (db'.agent.Some? && !db'.agent.value.Coherent()) <==>
      if Settling(s, step) then false
      else if step.Edit? then !db.agent.value.Edited(step.newStatus, step.newFlag).Coherent()
      else if step.Register? then step.status == ISOLATED
      else db.agent.Some? && !db.agent.value.Coherent()
  {
  }

  /** Over every run, the status on display clashes with the flag exactly while
      such an edit or registration stands. */
  lemma {:induction false} StatusClashesExactlyWhen(host: Firewall.Table, steps: seq<Step>)
    requires After(Start(host), steps).Some?
    ensures var agent := After(Start(host), steps).value.db.agent;
      (agent.Some? && !agent.value.Coherent()) <==> Clashes(host, steps)
  {
    if steps != [] {
      var front, step := steps[..|steps|-1], steps[|steps|-1];
      StatusClashesExactlyWhen(host, front);
      FlagIsLastRunUnlessTurned(host, front);
      StepClashes(After(Start(host), front).value, step);
    }
  }

  // ---------- Executions that mislead ----------

  /** The command at the head of the batch is run and acknowledged, and the
      acknowledgement served. */
  function Handled(env: Env): seq<Step> { [Run(env), SendAck(None), Serve([], false)] }

  lemma HandledReaches(s: State, env: Env)
    requires s.up == [] && s.phase.Idle? && s.phase.jobs != [] && Suits(env, s.phase.jobs[0].action)
    requires s.phase.jobs[0].id < |s.db.commands| && ListsPending(s.db.commands, [])
    ensures After(s, Handled(env)).Some?
    ensures var job := s.phase.jobs[0];
            var (host, report) := Perform(s.host, job.action, env);
            var t := After(s, Handled(env)).value;
            && t.host == host && t.up == []
            && (report.Unknown? ==> t.db == s.db)
            && (report.Known? ==> t.db == Acked(s.db, job.id, report.status, None))
  {
    var s1 := Next(s, Run(env));
    var s2 := Next(s1, SendAck(None));
    assert s2.up == [CommandAck(s.next, s.phase.jobs[0].id, s1.phase.report, None)];
    AfterStep(s, [], s, Run(env));
    AfterStep(s, [] + [Run(env)], s1, SendAck(None));
    AfterStep(s, [] + [Run(env)] + [SendAck(None)], s2, Serve([], false));
    assert [] + [Run(env)] + [SendAck(None)] + [Serve([], false)] == Handled(env);
  }

  predicate AboutToIsolate(s: State, id: nat) {
    && s.up == [] && s.phase.Idle? && s.phase.jobs != [] && s.phase.jobs[0] == Job(id, Isolate)
    && id < |s.db.commands| && s.db.commands[id].action == Isolate
    && s.db.agent.Some?
    && forall c :: 0 <= c < |s.db.commands| ==> s.db.commands[c].status != PENDING
  }

  /** The firewall refuses every run, which the handler does not check: the host
      is as open as before and the manager shows it as isolated. */
  lemma {:induction false} RefusedRunsMislead(s: State, id: nat, peer: Firewall.Addr)
    requires AboutToIsolate(s, id) && Firewall.Open(s.host)
    ensures var env := Env(peer, seq(7, _ => Firewall.Refused), true, Unknown);
            && After(s, Handled(env)).Some?
            && Firewall.Open(After(s, Handled(env)).value.host)
            && After(s, Handled(env)).value.db.Isolated()
  {
    var outcomes := seq(7, _ => Firewall.Refused);
    var env := Env(peer, outcomes, true, Unknown);
    Firewall.RefusedRunsChangeNothing(s.host, Firewall.IsolateScript(peer), outcomes, 7);
    HandledReaches(s, env);
  }

  /** The marker file cannot be written: the host is isolated and the manager
      never learns of it. */
  lemma {:induction false} UnwrittenMarkerMisleads(s: State, id: nat, peer: Firewall.Addr)
    requires AboutToIsolate(s, id)
    ensures var env := Env(peer, seq(7, _ => Firewall.Obeyed), false, Unknown);
            && After(s, Handled(env)).Some?
            && After(s, Handled(env)).value.host == Firewall.IsolatedTable(peer)
            && After(s, Handled(env)).value.db == s.db
  {
    var outcomes := seq(7, _ => Firewall.Obeyed);
    Firewall.IsolateReplacesTable(s.host, peer, outcomes);
    HandledReaches(s, Env(peer, outcomes, false, Unknown));
  }

  /** Undoing an isolation shows the agent as active at once, and its host stays
      cut off until the release it queues is carried out. */
  lemma RollbackMisleads(s: State, a: nat, maxRetries: nat)
    requires Enabled(s, Rollback(a, maxRetries)) && s.db.actions[a].kind == Isolate
    requires s.db.Isolated() && Contained(s.host) && !Coming(s.up, s.phase, s.db.commands)
    ensures var t := Next(s, Rollback(a, maxRetries));
            && t.host == s.host && !t.db.Isolated() && t.db.agent.value.status == ACTIVE
            && t.db.commands == s.db.commands + [NewCommand(Unisolate, None, maxRetries)]
            && Flips(s, Rollback(a, maxRetries))
            && (forall start :: Firewall.Open(start) ==> !Fits(t.db.Isolated(), t.host, start))
  {
    if Firewall.Open(s.host) {
      OpenIsNotContained(s.host);
    }
  }
}
