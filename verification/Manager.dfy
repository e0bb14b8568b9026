/** The manager's side of the agent connection (manager/app/websocket/agent_ws.py,
    manager/app/services/core/command_dispatcher.py): one message at a time,
    each in a transaction that commits or rolls back, answered only when the
    message asks for it or its handling fails. */
module Manager {
  import opened Options
  import opened Records

  // ---------- The tables of one agent ----------

  datatype ActionStatus = Waiting | Applied | Reverting | Reverted | ActionFailed

  /** A response action; its row number is its identity and its age. */
  datatype ActionRow = ActionRow(kind: Action, status: ActionStatus)

  /** `audit` lists the applications: which action, on which command's word. */
  datatype Db = Db(agent: Option<AgentRow>, commands: seq<CommandRow>, actions: seq<ActionRow>, audit: seq<(nat, nat)>) {
    predicate Isolated() { agent.Some? && agent.value.isolated }
  }

  // ---------- Messages ----------

  /** The status text of an acknowledgement, which may be none of the schema's. */
  datatype AckStatus = Known(status: CommandStatus) | Unknown

  datatype Upstream =
    | Heartbeat(tag: nat, beat: Beat)
    | CommandAck(tag: nat, command: nat, status: AckStatus, error: Option<string>)
    | Telemetry(tag: nat)

  datatype Job = Job(id: nat, action: Action)

  datatype Downstream =
    | BeatReply(tag: nat, jobs: seq<Job>)
    | AckReply(tag: nat)
    | ErrorReply(tag: nat)

  /** Percentages outside 0 to 100 fail validation. */
  predicate Valid(b: Beat) {
    0.0 <= b.cpu <= 100.0 && 0.0 <= b.ram <= 100.0 && 0.0 <= b.disk <= 100.0
  }

  // ---------- Heartbeats ----------

  /** An unknown agent is registered by its first heartbeat. */
  function Registered(a: Option<AgentRow>, b: Beat): AgentRow {
    (if a.Some? then a.value else AgentRow(ACTIVE, false, b)).Beaten(b)
  }

  function Pending(commands: seq<CommandRow>, id: nat): bool {
    id < |commands| && commands[id].status == PENDING
  }

  /** The query for pending commands has no order: any listing of them will do. */
  ghost predicate ListsPending(commands: seq<CommandRow>, order: seq<nat>) {
    && (forall i, j :: 0 <= i < j < |order| ==> order[i] != order[j])
    && (forall i :: 0 <= i < |order| ==> Pending(commands, order[i]))
    && (forall id: nat :: Pending(commands, id) ==> id in order)
  }

  function AllSent(commands: seq<CommandRow>): seq<CommandRow> {
    seq(|commands|, i requires 0 <= i < |commands| =>
      if commands[i].status == PENDING then commands[i].Sent() else commands[i])
  }

  ghost function JobsOf(commands: seq<CommandRow>, order: seq<nat>): seq<Job>
    requires forall i :: 0 <= i < |order| ==> order[i] < |commands|
  {
    seq(|order|, i requires 0 <= i < |order| => Job(order[i], commands[order[i]].action))
  }

  // ---------- Acknowledgements ----------

  predicate Awaits(a: ActionRow, kind: Action) { a.kind == kind && a.status == Waiting }

  /** The youngest waiting action of a kind. */
  function Latest(actions: seq<ActionRow>, kind: Action): (r: Option<nat>)
    ensures r.Some? ==> r.value < |actions| && Awaits(actions[r.value], kind)
                        && forall i :: r.value < i < |actions| ==> !Awaits(actions[i], kind)
    ensures r.None? ==> forall i :: 0 <= i < |actions| ==> !Awaits(actions[i], kind)
  {
    if actions == [] then None
    else
      var n := |actions| - 1;
      if Awaits(actions[n], kind) then Some(n) else Latest(actions[..n], kind)
  }

  /** The action a command names, or else the youngest waiting one of its kind. */
  function ActionOf(actions: seq<ActionRow>, c: CommandRow): (r: Option<nat>)
    ensures r.Some? ==> r.value < |actions| && (c.actionId == r || Awaits(actions[r.value], c.action))
  {
    if c.actionId.Some? && c.actionId.value < |actions| then c.actionId else Latest(actions, c.action)
  }

  /** The action at `a` is the youngest of a kind that still waits. */
  predicate Youngest(actions: seq<ActionRow>, kind: Action, a: nat) {
    && a < |actions| && actions[a] == ActionRow(kind, Waiting)
    && forall i :: a < i < |actions| ==> actions[i] != ActionRow(kind, Waiting)
  }

  /** The action that word about a command is taken for: the one it names, if
      there is such a one, whatever else waits; otherwise the youngest of its kind
      that waits. */
  predicate SpeaksFor(c: CommandRow, actions: seq<ActionRow>, a: nat) {
    if c.actionId.Some? && c.actionId.value < |actions| then c.actionId.value == a
    else Youngest(actions, c.action, a)
  }

  lemma ActionOfSpeaks(actions: seq<ActionRow>, c: CommandRow, a: nat)
    ensures ActionOf(actions, c) == Some(a) <==> SpeaksFor(c, actions, a)
  {
    var r := ActionOf(actions, c);
    if Youngest(actions, c.action, a) {
      assert Awaits(actions[a], c.action);
    }
    if r.Some? && Youngest(actions, c.action, r.value) && Youngest(actions, c.action, a) {
      assert a == r.value;
    }
  }

  /** Word on a command changes the action it speaks for and no other, and only
      a success is put on record. */
  ghost predicate MovesActions(before: Db, id: nat, s: CommandStatus, after: Db)
    requires id < |before.commands|
  {
    var c, actions := before.commands[id], before.actions;
    && |after.actions| == |actions|
    && (forall a :: 0 <= a < |actions| ==>
          after.actions[a] ==
            if SpeaksFor(c, actions, a) then ActionRow(actions[a].kind, if s == SUCCESS then Applied else ActionFailed)
            else actions[a])
    && (forall a: nat :: SpeaksFor(c, actions, a) && s == SUCCESS ==> after.audit == before.audit + [(a, id)])
    && (s != SUCCESS || (forall a: nat :: !SpeaksFor(c, actions, a)) ==> after.audit == before.audit)
  }

  /** The command takes the status told, a failure going on to a retry. */
  predicate AnswersCommand(before: Db, id: nat, s: CommandStatus, e: Option<string>, after: Db)
    requires id < |before.commands|
  {
    var row := before.commands[id];
    && |after.commands| == |before.commands|
    && (forall c :: 0 <= c < |before.commands| && c != id ==> after.commands[c] == before.commands[c])
    && after.commands[id] ==
         if s != FAILED then row.(status := s, error := e)
         else if row.retryCount < row.maxRetries then row.(status := PENDING, retryCount := row.retryCount + 1, error := None)
         else row.(status := FAILED, error := e)
  }

  /** The agent's row changes on the success of a command about containment or
      quarantine. */
  predicate ConfirmsAgent(before: Db, id: nat, s: CommandStatus, after: Db)
    requires id < |before.commands|
  {
    if before.agent.None? || s != SUCCESS then after.agent == before.agent
    else
      var row, action := before.agent.value, before.commands[id].action;
      after.agent == Some(
        if action in {Isolate, AutoIsolate} then row.(status := ISOLATED, isolated := true)
        else if action == Unisolate then row.(status := ACTIVE, isolated := false)
        else if action == Quarantine then row.(status := QUARANTINE)
        else row)
  }

  /** What a confirmed command does to the agent. */
  function Confirmed(a: AgentRow, action: Action): AgentRow {
    match action
    case Isolate => a.Isolate()
    case AutoIsolate => a.Isolate()
    case Unisolate => a.Unisolate()
    case Quarantine => a.Quarantined()
    case OtherAction(_) => a
  }

  function Acked(db: Db, id: nat, s: CommandStatus, e: Option<string>): Db
    requires id < |db.commands|
  {
    var row := db.commands[id].Verified(s, e);
    var found := ActionOf(db.actions, row);
    var status := if s == SUCCESS then Applied else ActionFailed;
    Db(if s == SUCCESS && db.agent.Some? then Some(Confirmed(db.agent.value, row.action)) else db.agent,
       db.commands[id := row],
       if found.Some? then db.actions[found.value := db.actions[found.value].(status := status)] else db.actions,
       if found.Some? && s == SUCCESS then db.audit + [(found.value, id)] else db.audit)
  }

  lemma {:induction false} AckedMoves(db: Db, id: nat, s: CommandStatus, e: Option<string>)
    requires id < |db.commands|
    ensures MovesActions(db, id, s, Acked(db, id, s, e))
  {
    var row := db.commands[id].Verified(s, e);
    forall a: nat
      ensures ActionOf(db.actions, row) == Some(a) <==> SpeaksFor(db.commands[id], db.actions, a)
    {
      ActionOfSpeaks(db.actions, row, a);
    }
  }

  lemma AckedAnswers(db: Db, id: nat, s: CommandStatus, e: Option<string>)
    requires id < |db.commands|
    ensures AnswersCommand(db, id, s, e, Acked(db, id, s, e)) && ConfirmsAgent(db, id, s, Acked(db, id, s, e))
  {
  }

  // ---------- Writes past the agent ----------

  /** What sets an agent's row at once and queues the command for later: the
      quarantine and release of an operator, isolation when no response action
      can be made, and the release of an incident that has none. */
  datatype Direct = DirectQuarantine | DirectRelease | DirectIsolate | DirectActivate

  function DirectRow(a: AgentRow, d: Direct): AgentRow {
    match d
    case DirectQuarantine => a.HandQuarantined()
    case DirectRelease => a.Activated()
    case DirectIsolate => a.Isolate()
    case DirectActivate => a.Activated()
  }

  function DirectAction(d: Direct): Action {
    match d
    case DirectQuarantine => Quarantine
    case DirectRelease => OtherAction("release_quarantine")
    case DirectIsolate => Isolate
    case DirectActivate => Unisolate
  }

  /** The command that undoes an action of a kind. */
  function Compensation(kind: Action): Option<Action> {
    match kind
    case Isolate => Some(Unisolate)
    case AutoIsolate => Some(Unisolate)
    case Unisolate => None
    case Quarantine => Some(OtherAction("release_quarantine"))
    case OtherAction(name) => if name == "block_ip" then Some(OtherAction("unblock_ip")) else None
  }

  /** The kinds whose rollback shows the agent as active again. */
  predicate Restores(kind: Action) { kind in {Isolate, AutoIsolate, Quarantine} }

  function RestoredRow(a: Option<AgentRow>, kind: Action): Option<AgentRow> {
    if a.Some? && Restores(kind) then Some(a.value.Activated()) else a
  }

  function RolledBack(db: Db, a: nat, maxRetries: nat): Db
    requires a < |db.actions|
  {
    var kind := db.actions[a].kind;
    var undo := Compensation(kind);
    Db(RestoredRow(db.agent, kind),
       if undo.Some? then db.commands + [NewCommand(undo.value, None, maxRetries)] else db.commands,
       db.actions[a := db.actions[a].(status := Reverted)],
       db.audit)
  }

  /** What undoing an action comes to: the agent is shown as active again when
      the action kept it from the network, and the host is told to follow. */
  predicate Undone(before: Db, a: nat, maxRetries: nat, after: Db)
    requires a < |before.actions|
  {
    var kind := before.actions[a].kind;
    && after.actions == before.actions[a := ActionRow(kind, Reverted)] && after.audit == before.audit
    && after.agent == (
         if before.agent.Some? && kind in {Isolate, AutoIsolate, Quarantine}
         then Some(before.agent.value.(status := ACTIVE, isolated := false)) else before.agent)
    && after.commands == before.commands + (
         if kind in {Isolate, AutoIsolate} then [CommandRow(Unisolate, None, PENDING, 0, maxRetries, None)]
         else if kind == Quarantine then [CommandRow(OtherAction("release_quarantine"), None, PENDING, 0, maxRetries, None)]
         else if kind == OtherAction("block_ip") then [CommandRow(OtherAction("unblock_ip"), None, PENDING, 0, maxRetries, None)]
         else [])
  }

  // ---------- One message ----------

  /** The committed tables and the reply.  `fault` is a failure of the handler
      itself, say of the database: it rolls back and answers with an error,
      even when the sender does not wait for an answer. */
  ghost function Handle(db: Db, m: Upstream, order: seq<nat>, fault: bool): (Db, Option<Downstream>)
    requires ListsPending(db.commands, order)
  {
    if fault then (db, Some(ErrorReply(m.tag)))
    else
      match m
      case Telemetry(_) => (db, None)
      case Heartbeat(tag, beat) =>
        if !Valid(beat) then (db, Some(ErrorReply(tag)))
        else
          (db.(agent := Some(Registered(db.agent, beat)), commands := AllSent(db.commands)),
           Some(BeatReply(tag, JobsOf(db.commands, order))))
      case CommandAck(tag, id, status, e) =>
        if status.Unknown? then (db, Some(ErrorReply(tag)))
        else if id >= |db.commands| then (db, Some(AckReply(tag)))
        else (Acked(db, id, status.status, e), Some(AckReply(tag)))
  }

  /** What a heartbeat makes of the agent's row: the first one registers it. */
  predicate TakesBeat(before: Option<AgentRow>, b: Beat, after: Option<AgentRow>) {
    && after.Some? && after.value.lastBeat == b
    && after.value.isolated == (before.Some? && before.value.isolated)
    && after.value.status ==
         if before.None? || (before.value.status in {DEAD, INACTIVE} && !before.value.isolated) then ACTIVE
         else before.value.status
  }

  /** A heartbeat's reply carries each pending command with its action, and from
      then on they count as sent. */
  predicate Pulls(commands: seq<CommandRow>, order: seq<nat>, marked: seq<CommandRow>, jobs: seq<Job>) {
    && |marked| == |commands| && |jobs| == |order|
    && (forall c :: 0 <= c < |commands| ==>
          marked[c] == if commands[c].status == PENDING then commands[c].(status := SENT) else commands[c])
    && (forall i :: 0 <= i < |order| ==>
          order[i] < |commands| && jobs[i] == Job(order[i], commands[order[i]].action))
  }

  /** What one message comes to, by kind: a failure of any sort changes nothing
      and is answered with an error, asked for or not. */
  ghost predicate Treats(before: Db, m: Upstream, order: seq<nat>, fault: bool, after: Db, reply: Option<Downstream>) {
    var failed :=
      || fault
      || (m.Heartbeat? && !(0.0 <= m.beat.cpu <= 100.0 && 0.0 <= m.beat.ram <= 100.0 && 0.0 <= m.beat.disk <= 100.0))
      || (m.CommandAck? && m.status.Unknown?);
    if failed then after == before && reply == Some(ErrorReply(m.tag))
    else
      match m
      case Telemetry(_) => after == before && reply == None
      case Heartbeat(tag, beat) =>
        && TakesBeat(before.agent, beat, after.agent)
        && reply.Some? && reply.value.BeatReply? && reply.value.tag == tag
        && Pulls(before.commands, order, after.commands, reply.value.jobs)
        && after.actions == before.actions && after.audit == before.audit
      case CommandAck(tag, id, status, e) =>
        && reply == Some(AckReply(tag))
        && if id >= |before.commands| then after == before
           else
             && MovesActions(before, id, status.status, after)
             && AnswersCommand(before, id, status.status, e, after)
             && ConfirmsAgent(before, id, status.status, after)
  }

  lemma HandleTreats(db: Db, m: Upstream, order: seq<nat>, fault: bool)
    requires ListsPending(db.commands, order)
    ensures var (after, reply) := Handle(db, m, order, fault); Treats(db, m, order, fault, after, reply)
  {
    if m.CommandAck? && m.command < |db.commands| && m.status.Known? {
      AckedMoves(db, m.command, m.status.status, m.error);
      AckedAnswers(db, m.command, m.status.status, m.error);
    }
  }

  // ---------- The endpoint ----------

  /** The tables as last committed. */
  class Endpoint {
    var db: Db

    constructor ()
      ensures db == Db(None, [], [], [])
    {
      db := Db(None, [], [], []);
    }

    /** `pull_pending_commands`: marks the listed commands as sent, in the session only. */
    method PullPending(commands: seq<CommandRow>, order: seq<nat>) returns (marked: seq<CommandRow>, jobs: seq<Job>)
      requires ListsPending(commands, order)
      ensures marked == AllSent(commands)
      ensures jobs == JobsOf(commands, order)
      ensures Pulls(commands, order, marked, jobs)
    {
      marked, jobs := commands, [];
      var i := 0;
      while i < |order|
        invariant i <= |order| && |marked| == |commands|
        invariant jobs == JobsOf(commands, order[..i])
        invariant forall c :: 0 <= c < |commands| ==>
          marked[c] == if c in order[..i] then commands[c].Sent() else commands[c]
      {
        var id := order[i];
        assert id in order && id !in order[..i];
        marked := marked[id := marked[id].Sent()];
        jobs := jobs + [Job(id, commands[id].action)];
        assert order[..i+1] == order[..i] + [id];
        i := i + 1;
      }
      assert order[..i] == order;
    }

    /** `_handle_command_ack` for a command that exists. */
    method Acknowledge(before: Db, id: nat, s: CommandStatus, e: Option<string>) returns (work: Db)
      requires id < |before.commands|
      ensures work == Acked(before, id, s, e)
      ensures MovesActions(before, id, s, work)
      ensures AnswersCommand(before, id, s, e, work) && ConfirmsAgent(before, id, s, work)
    {
      AckedMoves(before, id, s, e);
      AckedAnswers(before, id, s, e);
      work := before;
      var cmd := work.commands[id].Acknowledged(s, e);
      if s == FAILED {
        cmd := cmd.Retried();
      }
      work := work.(commands := work.commands[id := cmd]);
      var found: Option<nat> := None;
      if cmd.actionId.Some? && cmd.actionId.value < |work.actions| {
        found := cmd.actionId;
      }
      if found.None? {
        found := Latest(work.actions, cmd.action);
      }
      if s == SUCCESS {
        if found.Some? {
          var a := found.value;
          work := work.(actions := work.actions[a := work.actions[a].(status := Applied)],
                        audit := work.audit + [(a, id)]);
        }
        if work.agent.Some? {
          work := work.(agent := Some(Confirmed(work.agent.value, cmd.action)));
        }
      } else if found.Some? {
        var a := found.value;
        work := work.(actions := work.actions[a := work.actions[a].(status := ActionFailed)]);
      }
    }

    /** One turn of `agent_websocket_endpoint`. */
    method Process(m: Upstream, order: seq<nat>, fault: bool) returns (reply: Option<Downstream>)
      requires ListsPending(db.commands, order)
      modifies this
      ensures (db, reply) == Handle(old(db), m, order, fault)
      ensures Treats(old(db), m, order, fault, db, reply)
    {
      HandleTreats(db, m, order, fault);
      var work := db;
      reply := None;
      var failed := false;
      match m {
        case Telemetry(_) =>
        case Heartbeat(tag, beat) =>
          if !Valid(beat) {
            failed := true;
          } else {
            var marked, jobs := PullPending(work.commands, order);
            work := work.(agent := Some(Registered(work.agent, beat)), commands := marked);
            reply := Some(BeatReply(tag, jobs));
          }
        case CommandAck(tag, id, status, e) =>
          if status.Unknown? {
            failed := true;
          } else {
            if id < |work.commands| {
              work := Acknowledge(work, id, status.status, e);
            }
            reply := Some(AckReply(tag));
          }
      }
      if failed || fault {
        reply := Some(ErrorReply(m.tag));  // rollback: the session's work is dropped
      } else {
        db := work;  // commit
      }
    }

    /** `rollback_action`, which the scheduler calls when an action's time is up:
        only an applied action can be undone. */
    method RollbackAction(a: nat, maxRetries: nat) returns (done: bool)
      modifies this
      ensures done == (a < |old(db).actions| && old(db).actions[a].status == Applied)
      ensures done ==> db == RolledBack(old(db), a, maxRetries)
      ensures !done ==> db == old(db)
      ensures done ==> Undone(old(db), a, maxRetries, db)
    {
      if a >= |db.actions| || db.actions[a].status != Applied {
        return false;
      }
      var work := db.(actions := db.actions[a := db.actions[a].(status := Reverting)]);
      var kind := work.actions[a].kind;
      var undo := Compensation(kind);
      if undo.Some? {
        work := work.(commands := work.commands + [NewCommand(undo.value, None, maxRetries)]);
      }
      if work.agent.Some? && Restores(kind) {
        var row := work.agent.value.(isolated := false);
        work := work.(agent := Some(row.(status := ACTIVE)));
      }
      db := work.(actions := work.actions[a := work.actions[a].(status := Reverted)]);
      return true;
    }
  }
}
