/** Where is each command?  Over every run, with whatever is lost on the way, a
    command marked as sent is in exactly one place, and none is carried out more
    often than it was sent. */
module Delivery {
  import opened Options
  import opened Records
  import opened Manager
  import opened Protocol
  import RequestReply
  import Firewall

  // ---------- How often a command occurs in the queues ----------

  function One(b: bool): nat { if b then 1 else 0 }

  function InJobs(jobs: seq<Job>, c: nat): nat {
    if jobs == [] then 0 else One(jobs[0].id == c) + InJobs(jobs[1..], c)
  }

  function InReply(m: Downstream, c: nat): nat {
    if m.BeatReply? then InJobs(m.jobs, c) else 0
  }

  function InReplies(down: seq<Downstream>, c: nat): nat {
    if down == [] then 0 else InReply(down[0], c) + InReplies(down[1..], c)
  }

  function InAck(m: Upstream, c: nat): nat {
    One(m.CommandAck? && m.command == c)
  }

  function InAcks(up: seq<Upstream>, c: nat): nat {
    if up == [] then 0 else InAck(up[0], c) + InAcks(up[1..], c)
  }

  /** Commands received and not yet started. */
  function Queue(p: Phase): seq<Job> {
    if p.AwaitBeat? then [] else p.jobs
  }

  /** On the way to being carried out. */
  function ToRun(p: Phase, down: seq<Downstream>, c: nat): nat {
    InReplies(down, c) + InJobs(Queue(p), c)
  }

  /** On the way to being acknowledged. */
  function InFlight(p: Phase, up: seq<Upstream>, down: seq<Downstream>, c: nat): nat {
    ToRun(p, down, c) + One(p.Executed? && p.command == c) + InAcks(up, c)
  }

  lemma {:induction false} RepliesPush(down: seq<Downstream>, m: Downstream, c: nat)
    ensures InReplies(down + [m], c) == InReplies(down, c) + InReply(m, c)
  {
    if down == [] {
      assert [] + [m] == [m] && [m][1..] == [];
    } else {
      RepliesPush(down[1..], m, c);
      assert (down + [m])[1..] == down[1..] + [m];
    }
  }

  lemma {:induction false} AcksPush(up: seq<Upstream>, m: Upstream, c: nat)
    ensures InAcks(up + [m], c) == InAcks(up, c) + InAck(m, c)
  {
    if up == [] {
      assert [] + [m] == [m] && [m][1..] == [];
    } else {
      AcksPush(up[1..], m, c);
      assert (up + [m])[1..] == up[1..] + [m];
    }
  }

  lemma {:induction false} IdsAreCounted(jobs: seq<Job>, c: nat)
    ensures c in Ids(jobs) <==> InJobs(jobs, c) > 0
  {
    if jobs != [] {
      IdsAreCounted(jobs[1..], c);
      assert jobs == [jobs[0]] + jobs[1..];
      assert forall j :: j in jobs <==> j == jobs[0] || j in jobs[1..];
      if jobs[0].id == c {
        assert jobs[0] in jobs;
      } else if c in Ids(jobs[1..]) {
        var j :| j in jobs[1..] && j.id == c;
        assert j in jobs;
      }
    }
  }

  // ---------- A batch ----------

  lemma {:induction false} BatchCount(commands: seq<CommandRow>, order: seq<nat>, c: nat)
    requires forall i :: 0 <= i < |order| ==> order[i] < |commands|
    requires forall i, j :: 0 <= i < j < |order| ==> order[i] != order[j]
    ensures InJobs(JobsOf(commands, order), c) == One(c in order)
  {
    if order != [] {
      BatchCount(commands, order[1..], c);
      assert JobsOf(commands, order)[1..] == JobsOf(commands, order[1..]);
      assert order == [order[0]] + order[1..];
      assert order[0] !in order[1..];
    }
  }

  /** A heartbeat's reply holds each pending command once. */
  lemma BatchIsPending(commands: seq<CommandRow>, order: seq<nat>, c: nat)
    requires ListsPending(commands, order)
    ensures InJobs(JobsOf(commands, order), c) == One(Pending(commands, c))
  {
    BatchCount(commands, order, c);
    if c in order {
      var i :| 0 <= i < |order| && order[i] == c;
    }
  }

  // ---------- The account of one command ----------

  predicate IsSent(commands: seq<CommandRow>, c: nat) {
    c < |commands| && commands[c].status == SENT
  }

  predicate Sized(s: State) {
    |s.sends| == |s.runs| == |s.db.commands|
  }

  /** A command is sent and not orphaned exactly when it is in flight, in one
      place; deliveries stay within the retries, and executions within the
      deliveries. */
  predicate Settled(s: State, c: nat)
    requires Sized(s)
  {
    && InFlight(s.phase, s.up, s.down, c) == One(IsSent(s.db.commands, c) && c !in s.orphans)
    && (c in s.orphans ==> IsSent(s.db.commands, c))
    && (c < |s.db.commands| ==>
          var row := s.db.commands[c];
          && row.retryCount <= row.maxRetries
          && s.sends[c] + One(row.status == PENDING) <= 1 + row.retryCount
          && s.runs[c] + ToRun(s.phase, s.down, c) <= s.sends[c])
  }

  predicate Plausible(report: AckStatus) {
    report in {Known(SUCCESS), Known(FAILED), Unknown}
  }

  predicate Reports(p: Phase, up: seq<Upstream>) {
    && (p.Executed? ==> Plausible(p.report))
    && (forall i :: 0 <= i < |up| && up[i].CommandAck? ==> Plausible(up[i].status))
  }

  lemma StepKeepsReports(s: State, step: Step)
    requires Reports(s.phase, s.up) && Enabled(s, step)
    ensures var s' := Next(s, step); Reports(s'.phase, s'.up)
  {
  }

  lemma StepKeepsSize(s: State, step: Step)
    requires Sized(s) && Enabled(s, step)
    ensures Sized(Next(s, step))
  {
  }

  // ---------- Every step settles ----------

  lemma SendSettles(s: State, step: Step, c: nat)
    requires Sized(s) && Enabled(s, step) && Settled(s, c)
    requires step.SendBeat? || step.SendTelemetry? || step.SendAck?
    ensures Sized(Next(s, step)) && Settled(Next(s, step), c)
  {
    match step
    case SendBeat(beat) => AcksPush(s.up, Heartbeat(s.next, beat), c);
    case SendTelemetry => AcksPush(s.up, Telemetry(s.next), c);
    case SendAck(error) => AcksPush(s.up, CommandAck(s.next, s.phase.command, s.phase.report, error), c);
  }

  lemma ReceiveSettles(s: State, c: nat)
    requires Sized(s) && Enabled(s, Receive) && Settled(s, c)
    ensures Sized(Next(s, Receive)) && Settled(Next(s, Receive), c)
  {
    if s.down[0].BeatReply? {
      IdsAreCounted(s.down[0].jobs, c);
    }
  }

  lemma BatchSettles(s: State, step: Step, c: nat)
    requires Sized(s) && Enabled(s, step) && Settled(s, c)
    requires step.GiveUp? || step.Run? || step.Abort?
    ensures Sized(Next(s, step)) && Settled(Next(s, step), c)
  {
    if step.Abort? {
      IdsAreCounted(s.phase.jobs, c);
    }
  }

  /** A command that waits is added. */
  lemma AddingSettles(s: State, step: Step, c: nat)
    requires Sized(s) && Enabled(s, step) && Settled(s, c)
    requires step.Issue? || step.Respond? || step.Put?
    ensures Sized(Next(s, step)) && Settled(Next(s, step), c)
  {
  }

  lemma RollbackSettles(s: State, step: Step, c: nat)
    requires Sized(s) && Enabled(s, step) && Settled(s, c) && step.Rollback?
    ensures Sized(Next(s, step)) && Settled(Next(s, step), c)
  {
  }

  lemma RowWriteSettles(s: State, step: Step, c: nat)
    requires Sized(s) && Enabled(s, step) && Settled(s, c)
    requires step.Sweep? || step.Edit? || step.Register?
    ensures Sized(Next(s, step)) && Settled(Next(s, step), c)
  {
  }

  lemma AgentStepSettles(s: State, step: Step, c: nat)
    requires Sized(s) && Enabled(s, step) && Settled(s, c) && !step.Serve?
    ensures Sized(Next(s, step)) && Settled(Next(s, step), c)
  {
    match step
    case SendBeat(_) => SendSettles(s, step, c);
    case SendTelemetry => SendSettles(s, step, c);
    case SendAck(_) => SendSettles(s, step, c);
    case Receive => ReceiveSettles(s, c);
    case GiveUp => BatchSettles(s, step, c);
    case Run(_) => BatchSettles(s, step, c);
    case Abort => BatchSettles(s, step, c);
    case Rollback(_, _) => RollbackSettles(s, step, c);
    case Issue(_, _, _) => AddingSettles(s, step, c);
    case Respond(_, _) => AddingSettles(s, step, c);
    case Put(_, _) => AddingSettles(s, step, c);
    case _ => RowWriteSettles(s, step, c);
  }

  lemma ServeSettles(s: State, order: seq<nat>, fault: bool, c: nat)
    requires Sized(s) && Enabled(s, Serve(order, fault)) && Settled(s, c) && Reports(s.phase, s.up)
    ensures Sized(Next(s, Serve(order, fault))) && Settled(Next(s, Serve(order, fault)), c)
  {
    StepKeepsSize(s, Serve(order, fault));
    var m := s.up[0];
    var reply := Handle(s.db, m, order, fault).1;
    if reply.Some? {
      RepliesPush(s.down, reply.value, c);
    }
    if m.Heartbeat? {
      BatchIsPending(s.db.commands, order, c);
    }
  }

  ghost predicate Inv(s: State) {
    Sized(s) && Reports(s.phase, s.up) && forall c: nat :: Settled(s, c)
  }

  lemma {:induction false} EveryRunSettles(host: Firewall.Table, steps: seq<Step>)
    requires After(Start(host), steps).Some?
    ensures Inv(After(Start(host), steps).value)
  {
    if steps != [] {
      EveryRunSettles(host, steps[..|steps|-1]);
      var s := After(Start(host), steps[..|steps|-1]).value;
      var step := steps[|steps|-1];
      StepKeepsSize(s, step);
      StepKeepsReports(s, step);
      forall c: nat ensures Settled(Next(s, step), c) {
        if step.Serve? {
          ServeSettles(s, step.order, step.fault, c);
        } else {
          AgentStepSettles(s, step, c);
        }
      }
    }
  }

  // ---------- What follows for a run ----------

  /** No command is delivered or carried out twice for one send, and the number
      of sends is bounded by the retries. */
  lemma {:induction false} AtMostOncePerSend(host: Firewall.Table, steps: seq<Step>, c: nat)
    requires After(Start(host), steps).Some?
    requires c < |After(Start(host), steps).value.db.commands|
    ensures var s := After(Start(host), steps).value;
            && Sized(s)
            && s.runs[c] <= s.sends[c] <= 1 + s.db.commands[c].maxRetries
            && InFlight(s.phase, s.up, s.down, c) <= 1
            && (s.db.commands[c].status == SENT <==> InFlight(s.phase, s.up, s.down, c) == 1 || c in s.orphans)
            && !(InFlight(s.phase, s.up, s.down, c) == 1 && c in s.orphans)
  {
    EveryRunSettles(host, steps);
    assert Settled(After(Start(host), steps).value, c);
  }

  /** An orphaned command is never heard of again: it shows as sent for good, is
      not retried and not carried out. */
  lemma {:induction false} OrphansStaySent(host: Firewall.Table, steps: seq<Step>, more: seq<Step>, c: nat)
    requires After(Start(host), steps).Some? && c in After(Start(host), steps).value.orphans
    requires After(Start(host), steps + more).Some?
    ensures var s, t := After(Start(host), steps).value, After(Start(host), steps + more).value;
            && c in t.orphans && IsSent(t.db.commands, c)
            && Sized(s) && Sized(t) && c < |s.sends| <= |t.sends|
            && t.sends[c] == s.sends[c] && t.runs[c] == s.runs[c]
  {
    EveryRunSettles(host, steps + more);
    var t := After(Start(host), steps + more).value;
    if more == [] {
      assert steps + more == steps;
      assert Settled(t, c);
    } else {
      var n := |more| - 1;
      assert (steps + more)[..|steps|+n] == steps + more[..n] && (steps + more)[|steps|+n] == more[n];
      OrphansStaySent(host, steps, more[..n], c);
      EveryRunSettles(host, steps + more[..n]);
      var u := After(Start(host), steps + more[..n]).value;
      assert Settled(u, c) && Settled(t, c);
      assert t == Next(u, more[n]);
      OrphanStep(u, more[n], c);
    }
  }

  lemma OrphanStep(s: State, step: Step, c: nat)
    requires Sized(s) && Enabled(s, step) && Settled(s, c) && c in s.orphans
    ensures var t := Next(s, step);
            Sized(t) && c in t.orphans && c < |s.sends| <= |t.sends| && t.sends[c] == s.sends[c] && t.runs[c] == s.runs[c]
  {
    if step.Run? {
      assert ToRun(s.phase, s.down, c) == 0;
    }
  }

  /** The steps that strand a command: giving up a batch, refusing an
      acknowledgement, and taking a batch for the answer to an acknowledgement. */
  predicate Strands(s: State, step: Step) {
    || step.Abort?
    || (step.Serve? && s.up != [] && Rejects(s.up[0], step.fault))
    || (step.Receive? && s.phase.AwaitAck? && s.down != [] && s.down[0].BeatReply? && s.down[0].jobs != [])
  }

  /** The last of them. */
  predicate Misreads(s: State, step: Step) {
    Strands(s, step) && step.Receive?
  }

  ghost predicate Smooth(s: State, steps: seq<Step>) {
    steps == [] ||
    (var before := After(s, steps[..|steps|-1]);
     Smooth(s, steps[..|steps|-1]) && before.Some? && !Strands(before.value, steps[|steps|-1]))
  }

  lemma StepStrandsExactlyWhen(s: State, step: Step)
    requires Enabled(s, step)
    ensures s.orphans <= Next(s, step).orphans
    ensures Next(s, step).orphans == {} <==> s.orphans == {} && !Strands(s, step)
  {
    match step
    case Abort =>
      assert s.phase.jobs[0].id in Ids(s.phase.jobs);
    case Receive =>
      if Strands(s, step) {
        assert s.down[0].jobs[0].id in Ids(s.down[0].jobs);
      } else if s.phase.AwaitAck? && s.down[0].BeatReply? {
        assert Ids(s.down[0].jobs) == {};
      }
    case _ =>
  }

  /** Over every run, a command is orphaned exactly when one of these steps is taken. */
  lemma {:induction false} NoneOrphanedExactlyWhen(host: Firewall.Table, steps: seq<Step>)
    requires After(Start(host), steps).Some?
    ensures After(Start(host), steps).value.orphans == {} <==> Smooth(Start(host), steps)
  {
    if steps != [] {
      NoneOrphanedExactlyWhen(host, steps[..|steps|-1]);
      StepStrandsExactlyWhen(After(Start(host), steps[..|steps|-1]).value, steps[|steps|-1]);
    }
  }

  /** A batch is never misread unless a reply was lost before. */
  lemma MisreadOnlyWhenDisturbed(host: Firewall.Table, steps: seq<Step>)
    requires After(Start(host), steps).Some?
    requires Enabled(After(Start(host), steps).value, Receive) && Misreads(After(Start(host), steps).value, Receive)
    ensures !RequestReply.Undisturbed(Start(host), steps)
  {
    if RequestReply.Undisturbed(Start(host), steps) {
      RequestReply.UndisturbedRunsPairUp(host, steps);
      RequestReply.RunKeepsKinds(host, steps);
      assert false;
    }
  }

  /** Every command sent is still on its way to the agent, in its hands, or on its
      way back as an acknowledgement, exactly when no such step was taken. */
  lemma NothingStrandedExactlyWhen(host: Firewall.Table, steps: seq<Step>)
    requires After(Start(host), steps).Some?
    ensures var s := After(Start(host), steps).value;
            (forall c: nat :: IsSent(s.db.commands, c) <==> InFlight(s.phase, s.up, s.down, c) == 1)
            <==> Smooth(Start(host), steps)
  {
    EveryRunSettles(host, steps);
    NoneOrphanedExactlyWhen(host, steps);
    var s := After(Start(host), steps).value;
    if s.orphans != {} {
      var c :| c in s.orphans;
      assert Settled(s, c);
      assert IsSent(s.db.commands, c) && InFlight(s.phase, s.up, s.down, c) == 0;
    } else {
      forall c: nat
        ensures IsSent(s.db.commands, c) <==> InFlight(s.phase, s.up, s.down, c) == 1
      {
        assert Settled(s, c);
      }
    }
  }

  /** No batch was given up and no acknowledgement refused. */
  ghost predicate Taken(s: State, steps: seq<Step>) {
    steps == [] ||
    (var before, step := After(s, steps[..|steps|-1]), steps[|steps|-1];
     && Taken(s, steps[..|steps|-1]) && before.Some?
     && (Strands(before.value, step) ==> Misreads(before.value, step)))
  }

  /** Together with an undisturbed connection that is enough. */
  lemma {:induction false} TakenIsSmooth(host: Firewall.Table, steps: seq<Step>)
    requires After(Start(host), steps).Some?
    requires Taken(Start(host), steps) && RequestReply.Undisturbed(Start(host), steps)
    ensures Smooth(Start(host), steps)
  {
    if steps != [] {
      var front := steps[..|steps|-1];
      TakenIsSmooth(host, front);
      if Misreads(After(Start(host), front).value, steps[|steps|-1]) {
        MisreadOnlyWhenDisturbed(host, front);
      }
    }
  }

  lemma SmoothRunsStrandNothing(host: Firewall.Table, steps: seq<Step>)
    requires After(Start(host), steps).Some?
    requires Taken(Start(host), steps) && RequestReply.Undisturbed(Start(host), steps)
    ensures var s := After(Start(host), steps).value;
            && s.orphans == {}
            && forall c: nat :: IsSent(s.db.commands, c) <==> InFlight(s.phase, s.up, s.down, c) == 1
  {
    TakenIsSmooth(host, steps);
    NoneOrphanedExactlyWhen(host, steps);
    NothingStrandedExactlyWhen(host, steps);
  }

  /** An acknowledgement with a status the manager does not know, which is what
      the agent's handlers send when they fail, orphans its command. */
  lemma {:induction false} UnknownStatusOrphans(s: State, order: seq<nat>)
    requires Inv(s) && Enabled(s, Serve(order, false))
    requires s.up[0].CommandAck? && s.up[0].status.Unknown?
    ensures var t := Next(s, Serve(order, false));
            && s.up[0].command in t.orphans && IsSent(t.db.commands, s.up[0].command)
            && t.db == s.db && t.down == s.down + [ErrorReply(s.up[0].tag)]
  {
    var c := s.up[0].command;
    assert Settled(s, c);
    assert InAcks(s.up, c) >= 1;
  }

  // ---------- Response actions ----------

  /** The command that spoke for an action has succeeded, and it names the action
      or is of its kind. */
  predicate Vouched(db: Db, a: nat, k: nat) {
    && a < |db.actions| && k < |db.commands|
    && db.commands[k].status == SUCCESS
    && (db.commands[k].actionId == Some(a) || db.commands[k].action == db.actions[a].kind)
  }

  ghost predicate Audited(db: Db) {
    && (forall i :: 0 <= i < |db.audit| ==> Vouched(db, db.audit[i].0, db.audit[i].1))
    && (forall a :: 0 <= a < |db.actions| && db.actions[a].status == Applied ==>
          exists i :: 0 <= i < |db.audit| && db.audit[i].0 == a)
  }

  lemma AckedKeepsAudit(db: Db, id: nat, status: CommandStatus, e: Option<string>)
    requires Audited(db) && id < |db.commands| && db.commands[id].status == SENT
    ensures Audited(Acked(db, id, status, e))
  {
    var db' := Acked(db, id, status, e);
    var row := db.commands[id].Verified(status, e);
    var found := ActionOf(db.actions, row);
    forall i | 0 <= i < |db'.audit| ensures Vouched(db', db'.audit[i].0, db'.audit[i].1) {
      if i < |db.audit| {
        assert db'.audit[i] == db.audit[i];
        assert Vouched(db, db.audit[i].0, db.audit[i].1);
      }
    }
    forall a | 0 <= a < |db'.actions| && db'.actions[a].status == Applied
      ensures exists i :: 0 <= i < |db'.audit| && db'.audit[i].0 == a
    {
      if found == Some(a) {
        assert db'.audit[|db.audit|].0 == a;
      } else {
        var i :| 0 <= i < |db.audit| && db.audit[i].0 == a;
        assert db'.audit[i] == db.audit[i];
      }
    }
  }

  lemma StepKeepsAudit(s: State, step: Step)
    requires Inv(s) && Enabled(s, step) && Audited(s.db)
    ensures Audited(Next(s, step).db)
  {
    var s' := Next(s, step);
    if step.Serve? && s.up[0].CommandAck? && !Rejects(s.up[0], step.fault) && s.up[0].command < |s.db.commands| {
      var c := s.up[0].command;
      assert Settled(s, c) && InAcks(s.up, c) >= 1;
      AckedKeepsAudit(s.db, c, s.up[0].status.status, s.up[0].error);
    } else {
      KeepsAuditUnacked(s.db, s'.db);
    }
  }

  lemma KeepsAuditUnacked(db: Db, db': Db)
    requires Audited(db) && db'.audit == db.audit && |db.actions| <= |db'.actions|
    requires forall a :: 0 <= a < |db.actions| ==> db'.actions[a].kind == db.actions[a].kind
    requires forall a :: 0 <= a < |db'.actions| && db'.actions[a].status == Applied ==>
      a < |db.actions| && db.actions[a].status == Applied
    requires |db.commands| <= |db'.commands|
    requires forall k :: 0 <= k < |db.commands| && db.commands[k].status != PENDING ==> db'.commands[k] == db.commands[k]
    ensures Audited(db')
  {
  }

  /** Nothing is shown as applied before an agent has confirmed it: every applied
      action is in the audit log with a command that succeeded. */
  lemma {:induction false} AppliedOnlyOnSuccess(host: Firewall.Table, steps: seq<Step>, a: nat)
    requires After(Start(host), steps).Some?
    requires a < |After(Start(host), steps).value.db.actions|
    requires After(Start(host), steps).value.db.actions[a].status == Applied
    ensures var db := After(Start(host), steps).value.db;
            exists k :: (a, k) in db.audit && Vouched(db, a, k)
  {
    EveryRunIsAudited(host, steps);
    var db := After(Start(host), steps).value.db;
    var i :| 0 <= i < |db.audit| && db.audit[i].0 == a;
    assert (a, db.audit[i].1) in db.audit;
  }

  lemma {:induction false} EveryRunIsAudited(host: Firewall.Table, steps: seq<Step>)
    requires After(Start(host), steps).Some?
    ensures Audited(After(Start(host), steps).value.db)
  {
    if steps != [] {
      EveryRunIsAudited(host, steps[..|steps|-1]);
      EveryRunSettles(host, steps[..|steps|-1]);
      StepKeepsAudit(After(Start(host), steps[..|steps|-1]).value, steps[|steps|-1]);
    }
  }
}
