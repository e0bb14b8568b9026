/** Which acknowledgement moves which response action?  Over every run, an
    action's status is what the last word about it said, and an action made with
    its command listens to that command, or to one that names no action. */
module Responses {
  import opened Options
  import opened Records
  import opened Manager
  import opened Protocol
  import Firewall

  // ---------- One step ----------

  /** The manager takes an acknowledgement of a command it knows. */
  predicate Hears(s: State, step: Step) {
    && step.Serve? && s.up != [] && s.up[0].CommandAck?
    && !step.fault && s.up[0].status.Known? && s.up[0].command < |s.db.commands|
  }

  function Heard(s: State, step: Step): CommandRow
    requires Hears(s, step)
  {
    s.db.commands[s.up[0].command]
  }

  /** The acknowledgement speaks for the action. */
  predicate SpokenFor(s: State, step: Step, a: nat) {
    Hears(s, step) && SpeaksFor(Heard(s, step), s.db.actions, a)
  }

  function Verdict(status: AckStatus): ActionStatus {
    if status == Known(SUCCESS) then Applied else ActionFailed
  }

  /** Nothing but word about its command and a rollback moves an action. */
  lemma StepMoves(s: State, step: Step, a: nat)
    requires Enabled(s, step) && a < |s.db.actions|
    ensures var t := Next(s, step);
      a < |t.db.actions| && t.db.actions[a] == ActionRow(s.db.actions[a].kind,
        if SpokenFor(s, step, a) then Verdict(s.up[0].status)
        else if step.Rollback? && step.a == a then Reverted
        else s.db.actions[a].status)
  {
    if step.Serve? {
      HandleTreats(s.db, s.up[0], step.order, step.fault);
    }
  }

  /** Only a response adds an action, waiting, together with a command that names
      it. */
  lemma StepAdds(s: State, step: Step)
    requires Enabled(s, step)
    ensures var (before, after) := (s.db, Next(s, step).db);
      && |after.actions| == |before.actions| + (if step.Respond? then 1 else 0)
      && (step.Respond? ==> after.actions[|before.actions|] == ActionRow(step.kind, Waiting))
  {
  }

  /** What a command names is settled when it is made. */
  lemma StepNames(s: State, step: Step, c: nat)
    requires Enabled(s, step) && c < |Next(s, step).db.commands|
    ensures |s.db.commands| <= |Next(s, step).db.commands|
    ensures Next(s, step).db.commands[c].actionId ==
      if c < |s.db.commands| then s.db.commands[c].actionId
      else if step.Respond? then Some(|s.db.actions|)
      else if step.Issue? then step.actionId
      else None
    ensures c >= |s.db.commands| ==> c == |s.db.commands|
  {
  }

  // ---------- Whole runs ----------

  /** What the last step about an action said of it; nothing before it is made. */
  ghost function LastWord(host: Firewall.Table, steps: seq<Step>, a: nat): Option<ActionStatus>
    requires After(Start(host), steps).Some?
  {
    if steps == [] then None
    else
      var front, step := steps[..|steps|-1], steps[|steps|-1];
      var s := After(Start(host), front).value;
      if step.Respond? && a == |s.db.actions| then Some(Waiting)
      else if SpokenFor(s, step, a) then Some(Verdict(s.up[0].status))
      else if step.Rollback? && step.a == a then Some(Reverted)
      else LastWord(host, front, a)
  }

  /** Over every run the status of an action is the last word about it. */
  lemma {:induction false} StatusIsLastWord(host: Firewall.Table, steps: seq<Step>, a: nat)
    requires After(Start(host), steps).Some?
    ensures var actions := After(Start(host), steps).value.db.actions;
      LastWord(host, steps, a) == if a < |actions| then Some(actions[a].status) else None
  {
    if steps != [] {
      var front, step := steps[..|steps|-1], steps[|steps|-1];
      var s := After(Start(host), front).value;
      StatusIsLastWord(host, front, a);
      StepAdds(s, step);
      if a < |s.db.actions| {
        StepMoves(s, step, a);
      }
    }
  }

  /** The command that was made together with an action. */
  ghost function OwnCommand(host: Firewall.Table, steps: seq<Step>, a: nat): Option<nat>
    requires After(Start(host), steps).Some?
  {
    if steps == [] then None
    else
      var front, step := steps[..|steps|-1], steps[|steps|-1];
      var s := After(Start(host), front).value;
      if step.Respond? && a == |s.db.actions| then Some(|s.db.commands|) else OwnCommand(host, front, a)
  }

  /** No command was issued by hand in the name of the action. */
  predicate Unclaimed(steps: seq<Step>, a: nat) {
    forall i :: 0 <= i < |steps| && steps[i].Issue? ==> steps[i].actionId != Some(a)
  }

  lemma {:induction false} OwnCommandExists(host: Firewall.Table, steps: seq<Step>, a: nat)
    requires After(Start(host), steps).Some?
    ensures var db := After(Start(host), steps).value.db;
      && (OwnCommand(host, steps, a).Some? <==> a < |db.actions|)
      && (OwnCommand(host, steps, a).Some? ==> OwnCommand(host, steps, a).value < |db.commands|)
  {
    if steps != [] {
      var front, step := steps[..|steps|-1], steps[|steps|-1];
      var s := After(Start(host), front).value;
      OwnCommandExists(host, front, a);
      StepAdds(s, step);
      CommandsGrow(s, step);
    }
  }

  lemma CommandsGrow(s: State, step: Step)
    requires Enabled(s, step)
    ensures |Next(s, step).db.commands| >= |s.db.commands| + (if step.Respond? then 1 else 0)
  {
  }

  /** The only command that names an action is its own. */
  lemma {:induction false} NamedByItsOwn(host: Firewall.Table, steps: seq<Step>, a: nat, c: nat)
    requires After(Start(host), steps).Some? && Unclaimed(steps, a)
    requires c < |After(Start(host), steps).value.db.commands|
    ensures After(Start(host), steps).value.db.commands[c].actionId == Some(a) <==> OwnCommand(host, steps, a) == Some(c)
  {
    if steps != [] {
      var front, step := steps[..|steps|-1], steps[|steps|-1];
      var s := After(Start(host), front).value;
      StepNames(s, step, c);
      OwnCommandExists(host, front, a);
      assert step.Issue? ==> step.actionId != Some(a);
      if c < |s.db.commands| {
        assert Unclaimed(front, a);
        NamedByItsOwn(host, front, a, c);
      }
    }
  }

  predicate NamesNone(c: CommandRow, actions: seq<ActionRow>) {
    c.actionId.None? || c.actionId.value >= |actions|
  }

  /** An action listens to its own command, whatever else waits, and apart from
      that only to a command that names no action, when it is the youngest of that
      command's kind to wait. */
  lemma {:induction false} SpokenForExactlyWhen(host: Firewall.Table, steps: seq<Step>, step: Step, a: nat)
    requires After(Start(host), steps).Some? && Enabled(After(Start(host), steps).value, step)
    requires a < |After(Start(host), steps).value.db.actions| && Unclaimed(steps, a)
    ensures var s := After(Start(host), steps).value;
      SpokenFor(s, step, a) <==>
      Hears(s, step) && (|| OwnCommand(host, steps, a) == Some(s.up[0].command)
                         || (NamesNone(Heard(s, step), s.db.actions) && Youngest(s.db.actions, Heard(s, step).action, a)))
  {
    var s := After(Start(host), steps).value;
    if Hears(s, step) {
      NamedByItsOwn(host, steps, a, s.up[0].command);
    }
  }

  /** Every word the manager heard was about a command that names an action, and
      nobody issued a command in an action's name. */
  ghost predicate Named(host: Firewall.Table, steps: seq<Step>)
    requires After(Start(host), steps).Some?
  {
    steps == [] ||
    (var front, step := steps[..|steps|-1], steps[|steps|-1];
     var s := After(Start(host), front).value;
     && Named(host, front)
     && (step.Issue? ==> step.actionId == None)
     && (Hears(s, step) ==> !NamesNone(Heard(s, step), s.db.actions)))
  }

  lemma {:induction false} NamedUnclaimed(host: Firewall.Table, steps: seq<Step>, a: nat)
    requires After(Start(host), steps).Some? && Named(host, steps)
    ensures Unclaimed(steps, a)
  {
    if steps != [] {
      NamedUnclaimed(host, steps[..|steps|-1], a);
      assert forall i :: 0 <= i < |steps| - 1 ==> steps[i] == steps[..|steps|-1][i];
    }
  }

  lemma StepRecords(s: State, step: Step, i: nat)
    requires Enabled(s, step) && i < |Next(s, step).db.audit|
    ensures var (earlier, later) := (s.db.audit, Next(s, step).db.audit);
      if i < |earlier| then later[i] == earlier[i]
      else SpokenFor(s, step, later[i].0) && later[i].1 == s.up[0].command && s.up[0].status == Known(SUCCESS)
  {
    if step.Serve? {
      HandleTreats(s.db, s.up[0], step.order, step.fault);
      if Hears(s, step) {
        AuditOf(s.db, s.up[0].command, s.up[0].status.status, Next(s, step).db);
      }
    }
  }

  lemma AuditOf(before: Db, id: nat, s: CommandStatus, after: Db)
    requires id < |before.commands| && MovesActions(before, id, s, after)
    ensures after.audit == before.audit
      || exists a: nat :: SpeaksFor(before.commands[id], before.actions, a) && s == SUCCESS && after.audit == before.audit + [(a, id)]
  {
  }

  /** Then every application on record is by the action's own command. */
  lemma {:induction false} AppliedOnOwnWord(host: Firewall.Table, steps: seq<Step>, i: nat)
    requires After(Start(host), steps).Some? && Named(host, steps)
    requires i < |After(Start(host), steps).value.db.audit|
    ensures var (a, c) := After(Start(host), steps).value.db.audit[i]; OwnCommand(host, steps, a) == Some(c)
  {
    if steps != [] {
      var front, step := steps[..|steps|-1], steps[|steps|-1];
      var s := After(Start(host), front).value;
      var (a, c) := After(Start(host), steps).value.db.audit[i];
      StepRecords(s, step, i);
      OwnCommandExists(host, front, a);
      if i < |s.db.audit| {
        AppliedOnOwnWord(host, front, i);
      } else {
        NamedUnclaimed(host, front, a);
        SpokenForExactlyWhen(host, front, step, a);
      }
    }
  }
}
