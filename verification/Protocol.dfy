/** One agent, one manager and the socket between them (agent/agent.py,
    manager/app/websocket/agent_ws.py), as a state machine over their steps.

    The socket is a queue each way.  The agent's heartbeat loop sends requests
    one at a time under a lock and reads one message for each; its other loops
    send telemetry that nobody is meant to answer.  Any of these steps can come
    in any order, with operators, rollbacks and the manager's sweep in between.  Timeouts and failures are steps too. */
module Protocol {
  import opened Options
  import opened Records
  import opened Manager
  import Firewall

  /** Where the heartbeat loop is.  `Idle` with jobs is in the middle of a batch;
      the two waiting phases hold the request lock. */
  datatype Phase =
    | Idle(jobs: seq<Job>)
    | AwaitBeat(tag: nat)
    | Executed(command: nat, report: AckStatus, jobs: seq<Job>)
    | AwaitAck(tag: nat, jobs: seq<Job>)
  {
    predicate Locked() { AwaitBeat? || AwaitAck? }
  }

  /** Message numbers and the last four fields record what happened; the system
      does not look at them.  `lost` holds the numbers of the requests given up
      on and of the telemetry answered with an error; `orphans` the commands
      sent whose outcome can no longer arrive; `sends` and `runs` count for
      each command its deliveries and its executions. */
  datatype State = State(
    phase: Phase, up: seq<Upstream>, down: seq<Downstream>, host: Firewall.Table, db: Db,
    next: nat, lost: set<nat>, orphans: set<nat>, sends: seq<nat>, runs: seq<nat>)

  /** How one command goes on the host: the fate of each firewall run, or for a
      command that is not about containment the status its handler returns. */
  datatype Env = Env(peer: Firewall.Addr, outcomes: seq<Firewall.Outcome>, marker: bool, report: AckStatus)

  /** `Respond` makes a response action and its command, `Issue` a bare command;
      `Put`, `Rollback`, `Edit` and `Register` write the agent's row themselves. */
  datatype Step =
    | SendBeat(beat: Beat)
    | SendTelemetry
    | Receive
    | GiveUp
    | Run(env: Env)
    | Abort
    | SendAck(error: Option<string>)
    | Serve(order: seq<nat>, fault: bool)
    | Issue(action: Action, actionId: Option<nat>, maxRetries: nat)
    | Respond(kind: Action, maxRetries: nat)
    | Sweep(cutoff: int)
    | Put(d: Direct, maxRetries: nat)
    | Rollback(a: nat, maxRetries: nat)
    | Edit(newStatus: Option<AgentStatus>, newFlag: Option<bool>)
    | Register(status: AgentStatus, beat: Beat)

  function Start(host: Firewall.Table): State {
    State(Idle([]), [], [], host, Db(None, [], [], []), 0, {}, {}, [], [])
  }

  // ---------- Executing a command ----------

  predicate Suits(env: Env, action: Action) {
    && (action == Isolate ==> |env.outcomes| == 7)
    && (action == Unisolate ==> |env.outcomes| == 5)
    && env.report in {Known(SUCCESS), Known(FAILED), Unknown}
  }

  /** `execute_command`.  The handlers of isolate and unisolate report "success"
      or "error"; "error" is not a status the manager knows, and neither is
      `auto_isolate` an action the agent knows. */
  function Perform(host: Firewall.Table, action: Action, env: Env): (Firewall.Table, AckStatus)
    requires Suits(env, action)
  {
    match action
    case Isolate =>
      var (t, ok) := Firewall.IsolateHost(host, env.peer, env.outcomes, env.marker);
      (t, if ok then Known(SUCCESS) else Unknown)
    case Unisolate =>
      var (t, ok) := Firewall.ReleaseHost(host, env.outcomes);
      (t, if ok then Known(SUCCESS) else Unknown)
    case AutoIsolate => (host, Unknown)
    case Quarantine => (host, Known(SUCCESS))
    case OtherAction(_) => (host, env.report)
  }

  // ---------- Steps ----------

  ghost predicate Enabled(s: State, step: Step) {
    match step
    case SendBeat(_) => s.phase == Idle([])
    case SendTelemetry => true
    case Receive => s.phase.Locked() && s.down != []
    case GiveUp => s.phase.Locked()
    case Run(env) => s.phase.Idle? && s.phase.jobs != [] && Suits(env, s.phase.jobs[0].action)
    case Abort => s.phase.Idle? && s.phase.jobs != [] && s.phase.jobs[0].action.OtherAction?
    case SendAck(_) => s.phase.Executed?
    case Serve(order, _) => s.up != [] && ListsPending(s.db.commands, order)
    case Issue(_, _, _) => s.db.agent.Some?
    case Respond(_, _) => s.db.agent.Some?
    case Sweep(_) => s.db.agent.Some?
    case Put(_, _) => s.db.agent.Some?
    case Rollback(a, _) => s.db.agent.Some? && a < |s.db.actions| && s.db.actions[a].status == Applied
    case Edit(_, _) => s.db.agent.Some?
    case Register(_, _) => s.db.agent.None?
  }

  function Ids(jobs: seq<Job>): set<nat> {
    set j | j in jobs :: j.id
  }

  function Queued(s: State, c: CommandRow): State {
    s.(db := s.db.(commands := s.db.commands + [c]), sends := s.sends + [0], runs := s.runs + [0])
  }

  /** The counts for commands that may have been added. */
  function Counted(counts: seq<nat>, commands: seq<CommandRow>): seq<nat> {
    if |counts| < |commands| then counts + seq(|commands| - |counts|, _ => 0) else counts
  }

  /** The message at the head is an acknowledgement the manager does not take. */
  predicate Rejects(m: Upstream, fault: bool) {
    m.CommandAck? && (fault || m.status.Unknown?)
  }

  function Delivered(sends: seq<nat>, commands: seq<CommandRow>): seq<nat> {
    seq(|sends|, i requires 0 <= i < |sends| => if Pending(commands, i) then sends[i] + 1 else sends[i])
  }

  ghost function Next(s: State, step: Step): State
    requires Enabled(s, step)
  {
    match step
    case SendBeat(beat) =>
      s.(phase := AwaitBeat(s.next), up := s.up + [Heartbeat(s.next, beat)], next := s.next + 1)
    case SendTelemetry =>
      s.(up := s.up + [Telemetry(s.next)], next := s.next + 1)
    case Receive =>
      var reply := s.down[0];
      var jobs := if reply.BeatReply? then reply.jobs else [];
      if s.phase.AwaitBeat? then s.(phase := Idle(jobs), down := s.down[1..])
      else s.(phase := Idle(s.phase.jobs), down := s.down[1..], orphans := s.orphans + Ids(jobs))
    case GiveUp =>
      s.(phase := Idle(if s.phase.AwaitAck? then s.phase.jobs else []), lost := s.lost + {s.phase.tag})
    case Run(env) =>
      var job := s.phase.jobs[0];
      var (host, report) := Perform(s.host, job.action, env);
      s.(phase := Executed(job.id, report, s.phase.jobs[1..]), host := host,
         runs := if job.id < |s.runs| then s.runs[job.id := s.runs[job.id] + 1] else s.runs)
    case Abort =>
      s.(phase := Idle([]), orphans := s.orphans + Ids(s.phase.jobs))
    case SendAck(error) =>
      s.(phase := AwaitAck(s.next, s.phase.jobs),
         up := s.up + [CommandAck(s.next, s.phase.command, s.phase.report, error)], next := s.next + 1)
    case Serve(order, fault) =>
      var m := s.up[0];
      var (db, reply) := Handle(s.db, m, order, fault);
      s.(up := s.up[1..], db := db,
         down := if reply.Some? then s.down + [reply.value] else s.down,
         lost := if m.Telemetry? && fault then s.lost + {m.tag} else s.lost,
         orphans := if Rejects(m, fault) then s.orphans + {m.command} else s.orphans,
         sends := if m.Heartbeat? && !fault && Valid(m.beat) then Delivered(s.sends, s.db.commands) else s.sends)
    case Issue(action, actionId, maxRetries) =>
      Queued(s, NewCommand(action, actionId, maxRetries))
    case Respond(kind, maxRetries) =>
      var n := |s.db.actions|;
      Queued(s.(db := s.db.(actions := s.db.actions + [ActionRow(kind, Waiting)])),
             NewCommand(if kind == AutoIsolate then Isolate else kind, Some(n), maxRetries))
    case Sweep(cutoff) =>
      s.(db := s.db.(agent := Some(s.db.agent.value.Swept(cutoff))))
    case Put(d, maxRetries) =>
      Queued(s.(db := s.db.(agent := Some(DirectRow(s.db.agent.value, d)))),
             NewCommand(DirectAction(d), None, maxRetries))
    case Rollback(a, maxRetries) =>
      var db := RolledBack(s.db, a, maxRetries);
      s.(db := db, sends := Counted(s.sends, db.commands), runs := Counted(s.runs, db.commands))
    case Edit(newStatus, newFlag) =>
      s.(db := s.db.(agent := Some(s.db.agent.value.Edited(newStatus, newFlag))))
    case Register(status, beat) =>
      s.(db := s.db.(agent := Some(AgentRow(status, false, beat))))
  }

  // ---------- Runs ----------

  /** The state after a sequence of steps, if each is possible when its turn comes. */
  ghost function After(s: State, steps: seq<Step>): Option<State> {
    if steps == [] then Some(s)
    else
      var before := After(s, steps[..|steps|-1]);
      var step := steps[|steps|-1];
      if before.Some? && Enabled(before.value, step) then Some(Next(before.value, step)) else None
  }

  lemma AfterPush(s: State, steps: seq<Step>, step: Step)
    ensures After(s, steps + [step]) ==
            (var before := After(s, steps);
             if before.Some? && Enabled(before.value, step) then Some(Next(before.value, step)) else None)
  {
  }

  lemma AfterStep(s: State, steps: seq<Step>, t: State, step: Step)
    requires After(s, steps) == Some(t) && Enabled(t, step)
    ensures After(s, steps + [step]) == Some(Next(t, step))
  {
    AfterPush(s, steps, step);
  }

  /** A run continued is two runs. */
  lemma {:induction false} AfterSplit(s: State, steps: seq<Step>, more: seq<Step>)
    ensures After(s, steps + more) ==
            (var before := After(s, steps); if before.Some? then After(before.value, more) else None)
  {
    if more == [] {
      assert steps + more == steps;
    } else {
      var n := |more| - 1;
      assert steps + more == (steps + more[..n]) + [more[n]];
      AfterSplit(s, steps, more[..n]);
      AfterPush(s, steps + more[..n], more[n]);
    }
  }
}
