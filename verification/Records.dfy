/** The two manager records whose state moves during a response: the agent
    (manager/app/models/agent.py) and the command (manager/app/models/command.py).

    Each is a class, as in the source, together with a value type holding the
    same fields; the methods of the class are proved against functions on
    values, and the laws are about those functions. */
module Records {
  import opened Options
  import opened Sequences

  // ---------- Agents ----------

  datatype AgentStatus = ACTIVE | ISOLATED | QUARANTINE | INACTIVE | DEAD

  datatype Beat = Beat(cpu: real, ram: real, disk: real, timestamp: int, ip: string, mac: string)

  datatype AgentRow = AgentRow(status: AgentStatus, isolated: bool, lastBeat: Beat) {
    function Activated(): AgentRow { this.(isolated := false, status := ACTIVE) }

    function Isolate(): AgentRow { this.(isolated := true, status := ISOLATED) }

    function Unisolate(): AgentRow { this.(isolated := false, status := ACTIVE) }

    function Quarantined(): AgentRow { this.(status := QUARANTINE) }

    /** The operator's quarantine sets the flag too. */
    function HandQuarantined(): AgentRow { this.(isolated := true, status := QUARANTINE) }

    /** An edit sets the two fields apart; what it leaves out stays. */
    function Edited(newStatus: Option<AgentStatus>, newFlag: Option<bool>): AgentRow {
      this.(status := if newStatus.Some? then newStatus.value else status,
            isolated := if newFlag.Some? then newFlag.value else isolated)
    }

    /** A heartbeat revives a dead or inactive agent unless it is isolated. */
    function Beaten(b: Beat): AgentRow {
      this.(lastBeat := b, status := if status in {DEAD, INACTIVE} && !isolated then ACTIVE else status)
    }

    /** The dead-agent sweep takes active and isolated agents last seen before the cutoff. */
    function Swept(cutoff: int): AgentRow {
      if lastBeat.timestamp < cutoff && status in {ACTIVE, ISOLATED} then this.(status := DEAD) else this
    }

    /** What an operator reads off the status agrees with the containment flag. */
    predicate Coherent() {
      && (status == ACTIVE ==> !isolated)
      && (status == ISOLATED ==> isolated)
    }
  }

  class Agent {
    var status: AgentStatus
    var isIsolated: bool
    var cpu: real
    var ram: real
    var disk: real
    var lastSeen: int
    var ipAddress: string
    var macAddress: string

    function Row(): AgentRow
      reads this
    {
      AgentRow(status, isIsolated, Beat(cpu, ram, disk, lastSeen, ipAddress, macAddress))
    }

    constructor (row: AgentRow)
      ensures Row() == row
    {
      status, isIsolated := row.status, row.isolated;
      cpu, ram, disk := row.lastBeat.cpu, row.lastBeat.ram, row.lastBeat.disk;
      lastSeen, ipAddress, macAddress := row.lastBeat.timestamp, row.lastBeat.ip, row.lastBeat.mac;
    }

    method Activate()
      modifies this`status, this`isIsolated
      ensures Row() == old(Row()).Activated()
      ensures status == ACTIVE && !isIsolated
    {
      isIsolated := false;
      status := ACTIVE;
    }

    /** A missing address keeps the stored one; a missing timestamp is the clock's. */
    method UpdateHeartbeat(cpu: real, ram: real, disk: real, timestamp: Option<int>, now: int,
                           ip: Option<string>, mac: Option<string>)
      modifies this
      ensures Row() == old(Row()).Beaten(
        Beat(cpu, ram, disk,
             if timestamp.Some? then timestamp.value else now,
             if ip.Some? then ip.value else old(ipAddress),
             if mac.Some? then mac.value else old(macAddress)))
      ensures this.cpu == cpu && this.ram == ram && this.disk == disk && isIsolated == old(isIsolated)
      ensures lastSeen == if timestamp.Some? then timestamp.value else now
      ensures ipAddress == if ip.Some? then ip.value else old(ipAddress)
      ensures macAddress == if mac.Some? then mac.value else old(macAddress)
      ensures status == if old(status) in {DEAD, INACTIVE} && !old(isIsolated) then ACTIVE else old(status)
    {
      this.cpu, this.ram, this.disk := cpu, ram, disk;
      lastSeen := if timestamp.Some? then timestamp.value else now;
      if ip.Some? {
        ipAddress := ip.value;
      }
      if mac.Some? {
        macAddress := mac.value;
      }
      if status == DEAD || status == INACTIVE {
        if !isIsolated {
          status := ACTIVE;
        }
      }
    }

    method Isolate()
      modifies this`status, this`isIsolated
      ensures Row() == old(Row()).Isolate()
      ensures status == ISOLATED && isIsolated
    {
      isIsolated := true;
      status := ISOLATED;
    }

    method Unisolate()
      modifies this`status, this`isIsolated
      ensures Row() == old(Row()).Unisolate()
      ensures status == ACTIVE && !isIsolated
    {
      isIsolated := false;
      status := ACTIVE;
    }

    /** `update` of the repository with the fields of an edit that are set. */
    method Edit(newStatus: Option<AgentStatus>, newFlag: Option<bool>)
      modifies this`status, this`isIsolated
      ensures Row() == old(Row()).Edited(newStatus, newFlag)
      ensures status == match newStatus case Some(s) => s case None => old(status)
      ensures isIsolated == match newFlag case Some(f) => f case None => old(isIsolated)
    {
      if newStatus.Some? {
        status := newStatus.value;
      }
      if newFlag.Some? {
        isIsolated := newFlag.value;
      }
    }
  }

  /** Everything that happens to an agent row.  `ActivateEvent` is a rollback or a
      release by an operator, `QuarantineEvent` a confirmed quarantine. */
  datatype AgentEvent =
    | BeatEvent(b: Beat)
    | SweepEvent(cutoff: int)
    | IsolateEvent
    | UnisolateEvent
    | ActivateEvent
    | QuarantineEvent
    | HandQuarantineEvent
    | EditEvent(newStatus: Option<AgentStatus>, newFlag: Option<bool>)

  function AfterEvent(row: AgentRow, e: AgentEvent): AgentRow {
    match e
    case BeatEvent(b) => row.Beaten(b)
    case SweepEvent(cutoff) => row.Swept(cutoff)
    case IsolateEvent => row.Isolate()
    case UnisolateEvent => row.Unisolate()
    case ActivateEvent => row.Activated()
    case QuarantineEvent => row.Quarantined()
    case HandQuarantineEvent => row.HandQuarantined()
    case EditEvent(newStatus, newFlag) => row.Edited(newStatus, newFlag)
  }

  function AfterEvents(row: AgentRow, events: seq<AgentEvent>): AgentRow {
    if events == [] then row
    else AfterEvent(AfterEvents(row, events[..|events|-1]), events[|events|-1])
  }

  /** The last value anyone gave the containment flag. */
  function LastDecision(before: bool, events: seq<AgentEvent>): bool {
    if events == [] then before
    else
      match events[|events|-1]
      case IsolateEvent => true
      case UnisolateEvent => false
      case ActivateEvent => false
      case HandQuarantineEvent => true
      case EditEvent(_, Some(flag)) => flag
      case _ => LastDecision(before, events[..|events|-1])
  }

  /** The flag is the last decision: no heartbeat, sweep or confirmed quarantine,
      and no edit of the status alone, changes it. */
  lemma {:induction false} FlagIsLastDecision(row: AgentRow, events: seq<AgentEvent>)
    ensures AfterEvents(row, events).isolated == LastDecision(row.isolated, events)
  {
    if events != [] {
      FlagIsLastDecision(row, events[..|events|-1]);
    }
  }

  /** An event after which status and flag agree, whatever they were. */
  predicate Settles(row: AgentRow, e: AgentEvent) {
    match e
    case BeatEvent(_) => false
    case SweepEvent(cutoff) => row.Swept(cutoff) != row
    case EditEvent(_, _) => false
    case _ => true
  }

  /** The last event to settle the pair or edit it was an edit that made it clash;
      without one, it clashed from the start. */
  predicate Clashing(row: AgentRow, events: seq<AgentEvent>) {
    if events == [] then !row.Coherent()
    else
      var e, front := events[|events|-1], events[..|events|-1];
      if Settles(AfterEvents(row, front), e) then false
      else if e.EditEvent? then
        var edited := AfterEvents(row, front).Edited(e.newStatus, e.newFlag);
        (edited.status == ACTIVE && edited.isolated) || (edited.status == ISOLATED && !edited.isolated)
      else Clashing(row, front)
  }

  /** ACTIVE with the flag set, or ISOLATED with it clear, is shown exactly while
      such an edit stands: nothing else brings it about, and everything but a
      heartbeat, an idle sweep and another edit like it ends it. */
  lemma {:induction false} ClashExactlyWhenEdited(row: AgentRow, events: seq<AgentEvent>)
    ensures AfterEvents(row, events).Coherent() <==> !Clashing(row, events)
  {
    if events != [] {
      ClashExactlyWhenEdited(row, events[..|events|-1]);
    }
  }

  /** An edit of the status alone on an isolated agent, then any number of heartbeats. */
  lemma {:induction false} StatusEditClashes(row: AgentRow, beats: seq<Beat>)
    requires row.isolated
    ensures var after := AfterEvents(row, [EditEvent(Some(ACTIVE), None)] + Beats(beats));
            after.status == ACTIVE && after.isolated
  {
    var edit := [EditEvent(Some(ACTIVE), None)];
    if beats == [] {
      assert edit + [] == edit && edit[..0] == [];
      assert AfterEvents(row, edit) == row.Edited(Some(ACTIVE), None);
    } else {
      StatusEditClashes(row, beats[..|beats|-1]);
      var all := edit + Beats(beats);
      assert all[..|all|-1] == edit + Beats(beats[..|beats|-1]);
    }
  }

  function Beats(beats: seq<Beat>): (events: seq<AgentEvent>)
    ensures |events| == |beats|
  {
    seq(|beats|, i requires 0 <= i < |beats| => BeatEvent(beats[i]))
  }

  predicate Undecided(events: seq<AgentEvent>) {
    forall i :: 0 <= i < |events| ==> events[i].BeatEvent? || events[i].SweepEvent?
  }

  /** An isolated agent once swept as dead shows as dead for as long as it only
      beats: no heartbeat gives it back its ISOLATED status. */
  lemma {:induction false} IsolatedDeadStaysDead(row: AgentRow, events: seq<AgentEvent>)
    requires row.isolated && row.status == DEAD && Undecided(events)
    ensures AfterEvents(row, events).isolated && AfterEvents(row, events).status == DEAD
  {
    if events != [] {
      IsolatedDeadStaysDead(row, events[..|events|-1]);
    }
  }

  // ---------- What a run leaves of the status ----------

  lemma EventPush(row: AgentRow, events: seq<AgentEvent>, e: AgentEvent)
    ensures AfterEvents(row, events + [e]) == AfterEvent(AfterEvents(row, events), e)
  {
    FrontAppend(events, [e]);
    assert events + [] == events;
  }

  /** After any events a heartbeat leaves no unisolated agent dead or inactive: it
      makes it active, keeps every other status, the flag, and its own metrics. */
  lemma {:induction false} BeatRevives(row: AgentRow, events: seq<AgentEvent>, b: Beat)
    ensures var (before, after) := (AfterEvents(row, events), AfterEvents(row, events + [BeatEvent(b)]));
      && after.lastBeat == b && after.isolated == before.isolated
      && (!after.isolated ==> after.status != DEAD && after.status != INACTIVE)
      && (!before.isolated && before.status in {DEAD, INACTIVE} ==> after.status == ACTIVE)
      && (before.isolated || before.status !in {DEAD, INACTIVE} ==> after.status == before.status)
  {
    EventPush(row, events, BeatEvent(b));
  }

  /** The metrics shown are those of the last heartbeat. */
  lemma {:induction false} MetricsAreLastBeat(row: AgentRow, events: seq<AgentEvent>)
    ensures AfterEvents(row, events).lastBeat == LastBeat(row.lastBeat, events)
  {
    if events != [] {
      MetricsAreLastBeat(row, events[..|events|-1]);
    }
  }

  function LastBeat(before: Beat, events: seq<AgentEvent>): Beat {
    if events == [] then before
    else
      match events[|events|-1]
      case BeatEvent(b) => b
      case _ => LastBeat(before, events[..|events|-1])
  }

  /** The event at `i` declares the agent dead: a sweep that finds it active or
      isolated and not heard of since the cutoff, or an edit that says so. */
  predicate Declares(row: AgentRow, events: seq<AgentEvent>, i: nat)
    requires i < |events|
  {
    match events[i]
    case SweepEvent(cutoff) =>
      && LastBeat(row.lastBeat, events[..i]).timestamp < cutoff
      && AfterEvents(row, events[..i]).status in {ACTIVE, ISOLATED}
    case EditEvent(Some(s), _) => s == DEAD
    case _ => false
  }

  /** The last status anyone gave the agent, as sweeps and heartbeats left it. */
  function LastStatus(row: AgentRow, events: seq<AgentEvent>): AgentStatus {
    if events == [] then row.status
    else
      var last, front := |events| - 1, events[..|events|-1];
      match events[last]
      case IsolateEvent => ISOLATED
      case UnisolateEvent => ACTIVE
      case ActivateEvent => ACTIVE
      case QuarantineEvent => QUARANTINE
      case HandQuarantineEvent => QUARANTINE
      case EditEvent(newStatus, _) => if newStatus.Some? then newStatus.value else LastStatus(row, front)
      case SweepEvent(_) => if Declares(row, events, last) then DEAD else LastStatus(row, front)
      case BeatEvent(_) =>
        var before := LastStatus(row, front);
        if before in {DEAD, INACTIVE} && !LastDecision(row.isolated, front) then ACTIVE else before
  }

  lemma {:induction false} StatusIsLastWord(row: AgentRow, events: seq<AgentEvent>)
    ensures AfterEvents(row, events).status == LastStatus(row, events)
  {
    if events != [] {
      var front := events[..|events|-1];
      StatusIsLastWord(row, front);
      MetricsAreLastBeat(row, front);
      FlagIsLastDecision(row, front);
    }
  }

  /** The event at `i` does away with that: a decision, an edit to another status,
      or a heartbeat while the flag is clear. */
  predicate Overturns(row: AgentRow, events: seq<AgentEvent>, i: nat)
    requires i < |events|
  {
    match events[i]
    case BeatEvent(_) => !LastDecision(row.isolated, events[..i])
    case SweepEvent(_) => false
    case EditEvent(s, _) => s.Some? && s.value != DEAD
    case _ => true
  }

  /** It was declared dead after `n` events, or was to begin with, and nothing
      since did away with it. */
  ghost predicate DeadSince(row: AgentRow, events: seq<AgentEvent>, n: nat) {
    && n <= |events|
    && (if n == 0 then row.status == DEAD else Declares(row, events, n - 1))
    && forall i :: n <= i < |events| ==> !Overturns(row, events, i)
  }

  lemma DeadSinceFront(row: AgentRow, events: seq<AgentEvent>, n: nat)
    requires events != [] && n < |events|
    ensures DeadSince(row, events, n)
      <==> DeadSince(row, events[..|events|-1], n) && !Overturns(row, events, |events| - 1)
  {
    var front := events[..|events|-1];
    forall i | 0 <= i < |front|
      ensures front[i] == events[i] && front[..i] == events[..i]
    {
    }
    forall i | 0 <= i < |front|
      ensures Overturns(row, front, i) == Overturns(row, events, i)
      ensures Declares(row, front, i) == Declares(row, events, i)
    {
      assert front[i] == events[i] && front[..i] == events[..i];
    }
    if DeadSince(row, front, n) && !Overturns(row, events, |front|) {
      forall i | n <= i < |events|
        ensures !Overturns(row, events, i)
      {
        if i < |front| {
          assert !Overturns(row, front, i);
        }
      }
    }
  }

  /** Over every run an agent shows as dead exactly when it was declared so at
      some point, and since then nobody decided otherwise and no heartbeat came
      while its flag was clear. */
  lemma {:induction false} DeadExactlyWhen(row: AgentRow, events: seq<AgentEvent>)
    ensures AfterEvents(row, events).status == DEAD <==> exists n: nat :: DeadSince(row, events, n)
  {
    if events == [] {
      assert DeadSince(row, events, 0) <==> row.status == DEAD;
    } else {
      var last, front := |events| - 1, events[..|events|-1];
      DeadExactlyWhen(row, front);
      MetricsAreLastBeat(row, front);
      FlagIsLastDecision(row, front);
      LastStepDead(row, events);
      if AfterEvents(row, events).status == DEAD {
        if Declares(row, events, last) {
          assert DeadSince(row, events, last + 1);
        } else {
          var n :| DeadSince(row, front, n);
          DeadSinceFront(row, events, n);
        }
      }
      if n: nat :| DeadSince(row, events, n) {
        if n <= last {
          DeadSinceFront(row, events, n);
        }
      }
    }
  }

  lemma LastStepDead(row: AgentRow, events: seq<AgentEvent>)
    requires events != []
    ensures var (last, front) := (|events| - 1, events[..|events|-1]);
      AfterEvents(row, events).status == DEAD
      <==> Declares(row, events, last) || (AfterEvents(row, front).status == DEAD && !Overturns(row, events, last))
  {
    MetricsAreLastBeat(row, events[..|events|-1]);
    FlagIsLastDecision(row, events[..|events|-1]);
  }

  // ---------- Commands ----------

  datatype CommandStatus = PENDING | SENT | SUCCESS | FAILED | TIMEOUT

  datatype Action = Isolate | AutoIsolate | Unisolate | Quarantine | OtherAction(name: string)

  datatype CommandRow = CommandRow(
    action: Action, actionId: Option<nat>, status: CommandStatus,
    retryCount: nat, maxRetries: nat, error: Option<string>)
  {
    function Sent(): CommandRow { this.(status := SENT) }

    function Acknowledged(s: CommandStatus, e: Option<string>): CommandRow { this.(status := s, error := e) }

    predicate MayRetry() { retryCount < maxRetries }

    function Retried(): CommandRow {
      if MayRetry() then this.(retryCount := retryCount + 1, status := PENDING, error := None)
      else this.(status := FAILED)
    }

    /** What the dispatcher makes of an acknowledgement: a failure is retried. */
    function Verified(s: CommandStatus, e: Option<string>): CommandRow {
      var acked := Acknowledged(s, e);
      if s == FAILED then acked.Retried() else acked
    }
  }

  class Command {
    const action: Action
    const actionId: Option<nat>
    const maxRetries: nat
    var status: CommandStatus
    var retryCount: nat
    var errorMessage: Option<string>
    var executedAt: Option<int>

    function Row(): CommandRow
      reads this
    {
      CommandRow(action, actionId, status, retryCount, maxRetries, errorMessage)
    }

    constructor (action: Action, actionId: Option<nat>, maxRetries: nat)
      ensures Row() == CommandRow(action, actionId, PENDING, 0, maxRetries, None) && executedAt == None
    {
      this.action, this.actionId, this.maxRetries := action, actionId, maxRetries;
      status, retryCount, errorMessage, executedAt := PENDING, 0, None, None;
    }

    method SendToAgent()
      modifies this`status
      ensures Row() == old(Row()).Sent()
      ensures status == SENT
    {
      status := SENT;
    }

    method Acknowledge(s: CommandStatus, e: Option<string>, now: int)
      modifies this`status, this`errorMessage, this`executedAt
      ensures Row() == old(Row()).Acknowledged(s, e) && executedAt == Some(now)
      ensures status == s && errorMessage == e
    {
      status := s;
      executedAt := Some(now);
      errorMessage := e;
    }

    method Retry() returns (again: bool)
      modifies this`status, this`retryCount, this`errorMessage
      ensures Row() == old(Row()).Retried() && again == old(Row()).MayRetry()
      ensures again == (old(retryCount) < maxRetries)
      ensures again ==> status == PENDING && retryCount == old(retryCount) + 1 && errorMessage == None
      ensures !again ==> status == FAILED && retryCount == old(retryCount) && errorMessage == old(errorMessage)
    {
      if retryCount < maxRetries {
        retryCount := retryCount + 1;
        status := PENDING;
        errorMessage := None;
        return true;
      }
      status := FAILED;
      return false;
    }

    /** `CommandDispatcher.verify_execution` on a command that exists. */
    method VerifyExecution(s: CommandStatus, e: Option<string>, now: int)
      modifies this`status, this`retryCount, this`errorMessage, this`executedAt
      ensures Row() == old(Row()).Verified(s, e) && executedAt == Some(now)
      ensures s != FAILED ==> status == s && retryCount == old(retryCount) && errorMessage == e
      ensures s == FAILED && old(retryCount) < maxRetries ==>
        status == PENDING && retryCount == old(retryCount) + 1 && errorMessage == None
      ensures s == FAILED && old(retryCount) >= maxRetries ==>
        status == FAILED && retryCount == old(retryCount) && errorMessage == e
    {
      Acknowledge(s, e, now);
      if s == FAILED {
        var again := Retry();
      }
    }
  }

  // ---------- The life of one command ----------

  /** A pull sends a command that is pending; an acknowledgement can come at any
      time and any number of times. */
  datatype CommandEvent = Pull | Ack(status: CommandStatus, error: Option<string>)

  /** The row and how often it has been sent. */
  function Live(c: CommandRow, events: seq<CommandEvent>): (CommandRow, nat) {
    if events == [] then (c, 0)
    else
      var (row, sends) := Live(c, events[..|events|-1]);
      Happens(row, sends, events[|events|-1])
  }

  function Happens(row: CommandRow, sends: nat, event: CommandEvent): (CommandRow, nat) {
    match event
    case Pull => if row.status == PENDING then (row.Sent(), sends + 1) else (row, sends)
    case Ack(s, e) => (row.Verified(s, e), sends)
  }

  lemma LiveAppend(c: CommandRow, events: seq<CommandEvent>, event: CommandEvent)
    ensures Live(c, events + [event]) == Happens(Live(c, events).0, Live(c, events).1, event)
  {
    FrontAppend(events, [event]);
    assert events + [] == events;
  }

  function NewCommand(action: Action, actionId: Option<nat>, maxRetries: nat): CommandRow {
    CommandRow(action, actionId, PENDING, 0, maxRetries, None)
  }

  /** No acknowledgement claims the command is still waiting to be sent. */
  predicate NoAckIsPending(events: seq<CommandEvent>) {
    forall i :: 0 <= i < |events| ==> !(events[i].Ack? && events[i].status == PENDING)
  }

  /** A command is sent at most once more than it is retried, so at most
      `1 + maxRetries` times; it waits to be sent again only after a retry. */
  lemma {:induction false} DeliveriesBounded(c: CommandRow, events: seq<CommandEvent>)
    requires c.status == PENDING && c.retryCount == 0 && NoAckIsPending(events)
    ensures var (row, sends) := Live(c, events);
            && row.retryCount <= row.maxRetries == c.maxRetries
            && sends + (if row.status == PENDING then 1 else 0) <= 1 + row.retryCount
            && sends <= 1 + c.maxRetries
  {
    if events != [] {
      assert NoAckIsPending(events[..|events|-1]);
      DeliveriesBounded(c, events[..|events|-1]);
    }
  }

  function Failures(n: nat): seq<CommandEvent> {
    if n == 0 then [] else Failures(n - 1) + [Pull, Ack(FAILED, None)]
  }

  lemma LiveTwo(c: CommandRow, events: seq<CommandEvent>, e: CommandEvent, f: CommandEvent)
    ensures var (row, sends) := Live(c, events);
            var (next, more) := Happens(row, sends, e);
            Live(c, events + [e, f]) == Happens(next, more, f)
  {
    assert events + [e, f] == events + [e] + [f] by {
      Associative(events, [e], [f]);
    }
    LiveAppend(c, events, e);
    LiveAppend(c, events + [e], f);
  }

  /** The bound is met: an agent that always fails is asked `1 + maxRetries`
      times, and the command then stays FAILED. */
  lemma {:induction false} DeliveriesReached(c: CommandRow, n: nat)
    requires c.status == PENDING && c.retryCount == 0 && n <= c.maxRetries + 1
    ensures var (row, sends) := Live(c, Failures(n));
            && sends == n
            && row == c.(retryCount := if n <= c.maxRetries then n else c.maxRetries,
                         status := if n <= c.maxRetries then PENDING else FAILED,
                         error := if n == 0 then c.error else None)
  {
    if n > 0 {
      DeliveriesReached(c, n - 1);
      LiveTwo(c, Failures(n - 1), Pull, Ack(FAILED, None));
    }
  }

  function Echoes(n: nat): seq<CommandEvent> {
    if n == 0 then [] else Echoes(n - 1) + [Pull, Ack(PENDING, None)]
  }

  /** Without that condition there is no bound: acknowledging with the status
      `pending`, which the schema accepts, asks for another delivery for free. */
  lemma {:induction false} PendingAcksAreUnbounded(c: CommandRow, n: nat)
    requires c.status == PENDING
    ensures Live(c, Echoes(n)).1 == n && Live(c, Echoes(n)).0.status == PENDING
    ensures Live(c, Echoes(n)).0.retryCount == c.retryCount
  {
    if n > 0 {
      PendingAcksAreUnbounded(c, n - 1);
      LiveTwo(c, Echoes(n - 1), Pull, Ack(PENDING, None));
    }
  }

  /** The one step that matters: an acknowledgement leaves the command pending
      exactly when it says so itself or is a failure with a retry left, and
      only the second uses up a retry. */
  lemma PendingAgainExactlyWhen(c: CommandRow, s: CommandStatus, e: Option<string>)
    ensures c.Verified(s, e).status == PENDING <==> s == PENDING || (s == FAILED && c.MayRetry())
    ensures c.Verified(s, e).retryCount == c.retryCount + (if s == FAILED && c.MayRetry() then 1 else 0)
  {
  }
}
