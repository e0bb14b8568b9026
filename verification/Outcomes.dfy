/** How do commands about containment end?  The agent's handlers say "error" when
    they fail, which the manager does not take for a status, so over every run no
    such command is ever shown as failed, retried, or sent a second time. */
module Outcomes {
  import opened Options
  import opened Records
  import opened Manager
  import opened Protocol
  import Containment
  import Delivery
  import Firewall

  /** What the agent can report of a command. */
  predicate Possible(action: Action, report: AckStatus) {
    match action
    case Isolate => report == Known(SUCCESS) || report == Unknown
    case Unisolate => report == Known(SUCCESS) || report == Unknown
    case AutoIsolate => report == Unknown
    case Quarantine => report == Known(SUCCESS)
    case OtherAction(_) => report in {Known(SUCCESS), Known(FAILED), Unknown}
  }

  predicate ReportsPossible(s: State) {
    && (s.phase.Executed? ==>
          s.phase.command < |s.db.commands| && Possible(s.db.commands[s.phase.command].action, s.phase.report))
    && (forall i :: 0 <= i < |s.up| && s.up[i].CommandAck? ==>
          s.up[i].command < |s.db.commands| && Possible(s.db.commands[s.up[i].command].action, s.up[i].status))
  }

  /** Untouched by failure: not retried, and waiting, sent or done; an `auto_isolate`
      is never even done. */
  predicate Unfailing(row: CommandRow) {
    match row.action
    case OtherAction(_) => true
    case AutoIsolate => row.retryCount == 0 && row.status in {PENDING, SENT}
    case _ => row.retryCount == 0 && row.status in {PENDING, SENT, SUCCESS}
  }

  predicate AllUnfailing(commands: seq<CommandRow>) {
    forall c :: 0 <= c < |commands| ==> Unfailing(commands[c])
  }

  lemma PerformReports(host: Firewall.Table, action: Action, env: Env)
    requires Suits(env, action)
    ensures Possible(action, Perform(host, action, env).1)
  {
  }

  lemma StepReports(s: State, step: Step)
    requires Containment.Consistent(s) && ReportsPossible(s) && Enabled(s, step)
    ensures ReportsPossible(Next(s, step))
  {
    var t := Next(s, step);
    Containment.ConsistentStep(s, step);
    match step
    case Run(env) =>
      PerformReports(s.host, s.phase.jobs[0].action, env);
      assert Containment.Knows(s.db.commands, s.phase.jobs);
    case _ =>
  }

  lemma AnsweredUnfailing(before: Db, id: nat, s: CommandStatus, e: Option<string>, after: Db)
    requires id < |before.commands| && AllUnfailing(before.commands)
    requires AnswersCommand(before, id, s, e, after) && Possible(before.commands[id].action, Known(s))
    ensures AllUnfailing(after.commands)
  {
  }

  lemma StepUnfailing(s: State, step: Step)
    requires ReportsPossible(s) && AllUnfailing(s.db.commands) && Enabled(s, step)
    ensures AllUnfailing(Next(s, step).db.commands)
  {
    if step.Serve? {
      var m, db := s.up[0], Next(s, step).db;
      HandleTreats(s.db, m, step.order, step.fault);
      if m.CommandAck? && m.status.Known? && !step.fault {
        AnsweredUnfailing(s.db, m.command, m.status.status, m.error, db);
      }
    }
  }

  lemma {:induction false} EveryRunUnfailing(host: Firewall.Table, steps: seq<Step>)
    requires After(Start(host), steps).Some?
    ensures var s := After(Start(host), steps).value; ReportsPossible(s) && AllUnfailing(s.db.commands)
  {
    if steps != [] {
      var front, step := steps[..|steps|-1], steps[|steps|-1];
      EveryRunUnfailing(host, front);
      Containment.FlagIsLastRunUnlessTurned(host, front);
      StepReports(After(Start(host), front).value, step);
      StepUnfailing(After(Start(host), front).value, step);
    }
  }

  /** Over every run a command to isolate, release or quarantine waits, is sent or
      has succeeded: it is never shown as failed, never retried and sent at most
      once, however it went on the host; an `auto_isolate` never even succeeds. */
  lemma {:induction false} ContainmentNeverFails(host: Firewall.Table, steps: seq<Step>, c: nat)
    requires After(Start(host), steps).Some? && c < |After(Start(host), steps).value.db.commands|
    requires !After(Start(host), steps).value.db.commands[c].action.OtherAction?
    ensures var s := After(Start(host), steps).value;
      && s.db.commands[c].status in {PENDING, SENT, SUCCESS} && s.db.commands[c].retryCount == 0
      && (s.db.commands[c].action == AutoIsolate ==> s.db.commands[c].status != SUCCESS)
      && c < |s.sends| == |s.runs| && s.runs[c] <= s.sends[c] <= 1
  {
    EveryRunUnfailing(host, steps);
    Delivery.EveryRunSettles(host, steps);
    assert Delivery.Settled(After(Start(host), steps).value, c);
  }
}
