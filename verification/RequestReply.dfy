/** Which request does a reply answer?  The agent matches replies to requests by
    order alone, so one answer too many shifts all later ones. */
module RequestReply {
  import opened Options
  import opened Records
  import opened Manager
  import opened Protocol
  import Firewall

  function DownTags(down: seq<Downstream>): set<nat> {
    if down == [] then {} else DownTags(down[..|down|-1]) + {down[|down|-1].tag}
  }

  function RequestTags(up: seq<Upstream>): set<nat> {
    if up == [] then {} else RequestTags(up[..|up|-1]) + RequestTag(up[|up|-1])
  }

  function RequestTag(m: Upstream): set<nat> {
    if m.Telemetry? then {} else {m.tag}
  }

  /** The numbers of the messages the manager has answered, unread, or will answer. */
  function Owed(up: seq<Upstream>, down: seq<Downstream>): set<nat> {
    DownTags(down) + RequestTags(up)
  }

  function Below(tags: set<nat>, tag: nat): set<nat> {
    set t | t in tags && t < tag
  }

  /** Message numbers grow along the two queues and are all in use. */
  predicate Ordered(up: seq<Upstream>, down: seq<Downstream>, next: nat) {
    && (forall i, j :: 0 <= i < j < |up| ==> up[i].tag < up[j].tag)
    && (forall i, j :: 0 <= i < j < |down| ==> down[i].tag < down[j].tag)
    && (forall i, j :: 0 <= i < |down| && 0 <= j < |up| ==> down[i].tag < up[j].tag)
    && (forall i :: 0 <= i < |up| ==> up[i].tag < next)
    && (forall i :: 0 <= i < |down| ==> down[i].tag < next)
  }

  /** The balance of answers: one is owed for the request being waited for and
      one for every lost message, on the whole and among the older messages. */
  predicate Balanced(owed: set<nat>, next: nat, lost: set<nat>, waiting: Option<nat>) {
    && (forall t :: t in lost ==> t < next)
    && (forall t :: t in owed ==> t < next)
    && |owed| == |lost| + (if waiting.Some? then 1 else 0)
    && (waiting.Some? ==>
          && waiting.value in owed && waiting.value !in lost
          && |Below(owed, waiting.value)| == |Below(lost, waiting.value)|)
  }

  predicate Silent(up: seq<Upstream>, lost: set<nat>) {
    forall i :: 0 <= i < |up| && up[i].Telemetry? ==> up[i].tag !in lost
  }

  predicate InvOf(up: seq<Upstream>, down: seq<Downstream>, next: nat, lost: set<nat>, waiting: Option<nat>) {
    && Ordered(up, down, next)
    && Silent(up, lost)
    && Balanced(Owed(up, down), next, lost, waiting)
  }

  function Waiting(p: Phase): Option<nat> {
    if p.Locked() then Some(p.tag) else None
  }

  predicate Inv(s: State) {
    InvOf(s.up, s.down, s.next, s.lost, Waiting(s.phase))
  }

  // ---------- Queue ends ----------

  lemma {:induction false} RequestTagsPop(up: seq<Upstream>)
    requires up != []
    ensures RequestTags(up) == RequestTag(up[0]) + RequestTags(up[1..])
  {
    var n := |up| - 1;
    if n == 0 {
      assert up[..0] == [] && up[1..] == [];
    } else {
      RequestTagsPop(up[..n]);
      assert up[..n][1..] == up[1..][..n-1] && up[1..][n-1] == up[n];
    }
  }

  lemma DownTagsPush(down: seq<Downstream>, m: Downstream)
    ensures DownTags(down + [m]) == DownTags(down) + {m.tag}
  {
  }

  lemma {:induction false} DownTagsPop(down: seq<Downstream>)
    requires down != []
    ensures DownTags(down) == {down[0].tag} + DownTags(down[1..])
  {
    var n := |down| - 1;
    if n == 0 {
      assert down[..0] == [] && down[1..] == [];
    } else {
      DownTagsPop(down[..n]);
      assert down[..n][1..] == down[1..][..n-1] && down[1..][n-1] == down[n];
    }
  }

  lemma {:induction false} RequestIndex(up: seq<Upstream>, t: nat)
    requires t in RequestTags(up)
    ensures exists i :: 0 <= i < |up| && !up[i].Telemetry? && up[i].tag == t
  {
    var n := |up| - 1;
    if t !in RequestTag(up[n]) {
      RequestIndex(up[..n], t);
      var i :| 0 <= i < n && !up[..n][i].Telemetry? && up[..n][i].tag == t;
      assert up[i].tag == t;
    }
  }

  lemma {:induction false} DownIndex(down: seq<Downstream>, t: nat)
    requires t in DownTags(down)
    ensures exists i :: 0 <= i < |down| && down[i].tag == t
  {
    var n := |down| - 1;
    if t != down[n].tag {
      DownIndex(down[..n], t);
      var i :| 0 <= i < n && down[..n][i].tag == t;
      assert down[i].tag == t;
    }
  }

  /** A bound on the queued numbers is a bound on the owed ones. */
  lemma OwedIndex(up: seq<Upstream>, down: seq<Downstream>, t: nat)
    requires t in Owed(up, down)
    ensures (exists i :: 0 <= i < |down| && down[i].tag == t)
         || (exists i :: 0 <= i < |up| && !up[i].Telemetry? && up[i].tag == t)
  {
    if t in DownTags(down) { DownIndex(down, t); } else { RequestIndex(up, t); }
  }

  lemma SilentNotOwed(up: seq<Upstream>, down: seq<Downstream>, next: nat, i: nat)
    requires Ordered(up, down, next) && i < |up| && up[i].Telemetry?
    ensures up[i].tag !in Owed(up, down)
  {
    if up[i].tag in Owed(up, down) {
      OwedIndex(up, down, up[i].tag);
      assert false;
    }
  }

  lemma OldestIsFirst(up: seq<Upstream>, down: seq<Downstream>, next: nat)
    requires Ordered(up, down, next) && down != []
    ensures down[0].tag in Owed(up, down) && Owed(up, down) == {down[0].tag} + Owed(up, down[1..])
    ensures forall t :: t in Owed(up, down) ==> down[0].tag <= t
    ensures down[0].tag !in Owed(up, down[1..])
  {
    DownTagsPop(down);
    forall t | t in Owed(up, down) ensures down[0].tag <= t {
      OwedIndex(up, down, t);
    }
    forall t | t in Owed(up, down[1..]) ensures t != down[0].tag {
      OwedIndex(up, down[1..], t);
    }
  }

  // ---------- Counting ----------

  /** A new number counts as older only if it is. */
  lemma BelowAdd(tags: set<nat>, t: nat, tag: nat)
    requires t !in tags
    ensures |Below(tags + {t}, tag)| == |Below(tags, tag)| + (if t < tag then 1 else 0)
  {
    if t < tag {
      assert Below(tags + {t}, tag) == Below(tags, tag) + {t};
    } else {
      assert Below(tags + {t}, tag) == Below(tags, tag);
    }
  }

  lemma BelowAll(tags: set<nat>, tag: nat)
    requires forall t :: t in tags ==> t < tag
    ensures Below(tags, tag) == tags
  {
  }

  /** A request goes out: everything older is stale, and there is as much of it as was lost. */
  lemma BalancedAsk(owed: set<nat>, next: nat, lost: set<nat>)
    requires Balanced(owed, next, lost, None)
    ensures Balanced(owed + {next}, next + 1, lost, Some(next))
  {
    BelowAdd(owed, next, next);
    BelowAll(owed, next);
    BelowAll(lost, next);
  }

  lemma BalancedError(owed: set<nat>, next: nat, lost: set<nat>, waiting: Option<nat>, t: nat)
    requires Balanced(owed, next, lost, waiting) && t !in owed && t !in lost && t < next
    ensures Balanced(owed + {t}, next, lost + {t}, waiting)
  {
    if waiting.Some? {
      BelowAdd(owed, t, waiting.value);
      BelowAdd(lost, t, waiting.value);
    }
  }

  // ---------- Every step keeps the balance ----------

  lemma OrderedPush(up: seq<Upstream>, down: seq<Downstream>, next: nat, m: Upstream)
    requires Ordered(up, down, next) && m.tag == next
    ensures Ordered(up + [m], down, next + 1)
  {
  }

  lemma SilentPush(up: seq<Upstream>, lost: set<nat>, next: nat, m: Upstream)
    requires Silent(up, lost) && m.tag == next && forall t :: t in lost ==> t < next
    ensures Silent(up + [m], lost)
  {
  }

  lemma OwedPush(up: seq<Upstream>, down: seq<Downstream>, m: Upstream)
    ensures Owed(up + [m], down) == if m.Telemetry? then Owed(up, down) else Owed(up, down) + {m.tag}
  {
  }

  lemma Ask(up: seq<Upstream>, down: seq<Downstream>, next: nat, lost: set<nat>, m: Upstream)
    requires InvOf(up, down, next, lost, None) && m.tag == next && !m.Telemetry?
    ensures InvOf(up + [m], down, next + 1, lost, Some(next))
  {
    OwedPush(up, down, m);
    BalancedAsk(Owed(up, down), next, lost);
    OrderedPush(up, down, next, m);
    SilentPush(up, lost, next, m);
  }

  lemma BalancedTell(owed: set<nat>, next: nat, lost: set<nat>, waiting: Option<nat>)
    requires Balanced(owed, next, lost, waiting)
    ensures Balanced(owed, next + 1, lost, waiting)
  {
  }

  lemma Tell(up: seq<Upstream>, down: seq<Downstream>, next: nat, lost: set<nat>, waiting: Option<nat>)
    requires InvOf(up, down, next, lost, waiting)
    ensures InvOf(up + [Telemetry(next)], down, next + 1, lost, waiting)
  {
    OwedPush(up, down, Telemetry(next));
    BalancedTell(Owed(up, down), next, lost, waiting);
    OrderedPush(up, down, next, Telemetry(next));
    SilentPush(up, lost, next, Telemetry(next));
  }

  lemma Read(up: seq<Upstream>, down: seq<Downstream>, next: nat, lost: set<nat>, waiting: Option<nat>)
    requires InvOf(up, down, next, lost, waiting) && waiting.Some? && down != []
    ensures InvOf(up, down[1..], next, lost, None)
  {
    OldestIsFirst(up, down, next);
  }

  lemma Abandon(up: seq<Upstream>, down: seq<Downstream>, next: nat, lost: set<nat>, waiting: Option<nat>)
    requires InvOf(up, down, next, lost, waiting) && waiting.Some?
    ensures InvOf(up, down, next, lost + {waiting.value}, None)
  {
    forall i | 0 <= i < |up| && up[i].Telemetry? ensures up[i].tag !in lost + {waiting.value} {
      SilentNotOwed(up, down, next, i);
    }
  }

  lemma OrderedAnswer(up: seq<Upstream>, down: seq<Downstream>, next: nat, r: Downstream)
    requires Ordered(up, down, next) && up != [] && r.tag == up[0].tag
    ensures Ordered(up[1..], down + [r], next)
  {
  }

  lemma OrderedPop(up: seq<Upstream>, down: seq<Downstream>, next: nat)
    requires Ordered(up, down, next) && up != []
    ensures Ordered(up[1..], down, next)
  {
  }

  lemma SilentPop(up: seq<Upstream>, down: seq<Downstream>, next: nat, lost: set<nat>)
    requires Ordered(up, down, next) && Silent(up, lost) && up != []
    ensures Silent(up[1..], lost) && Silent(up[1..], lost + {up[0].tag})
  {
  }

  lemma OwedAnswered(up: seq<Upstream>, down: seq<Downstream>, r: Downstream)
    requires up != [] && r.tag == up[0].tag
    ensures Owed(up[1..], down + [r]) == Owed(up, down) + {r.tag}
    ensures up[0].Telemetry? ==> Owed(up[1..], down) == Owed(up, down)
    ensures !up[0].Telemetry? ==> r.tag in Owed(up, down)
  {
    RequestTagsPop(up);
    DownTagsPush(down, r);
  }

  lemma Answer(up: seq<Upstream>, down: seq<Downstream>, next: nat, lost: set<nat>, waiting: Option<nat>, r: Downstream)
    requires InvOf(up, down, next, lost, waiting) && up != [] && r.tag == up[0].tag
    ensures InvOf(up[1..], down + [r], next, if up[0].Telemetry? then lost + {up[0].tag} else lost, waiting)
  {
    OrderedAnswer(up, down, next, r);
    SilentPop(up, down, next, lost);
    OwedAnswered(up, down, r);
    var owed := Owed(up, down);
    if up[0].Telemetry? {
      SilentNotOwed(up, down, next, 0);
      BalancedError(owed, next, lost, waiting, r.tag);
    } else {
      assert owed + {r.tag} == owed;
    }
  }

  lemma Swallow(up: seq<Upstream>, down: seq<Downstream>, next: nat, lost: set<nat>, waiting: Option<nat>)
    requires InvOf(up, down, next, lost, waiting) && up != [] && up[0].Telemetry?
    ensures InvOf(up[1..], down, next, lost, waiting)
  {
    OwedAnswered(up, down, ErrorReply(up[0].tag));
    OrderedPop(up, down, next);
    SilentPop(up, down, next, lost);
  }

  lemma ReplyTag(db: Db, m: Upstream, order: seq<nat>, fault: bool)
    requires ListsPending(db.commands, order)
    ensures var reply := Handle(db, m, order, fault).1;
            && (reply.None? <==> m.Telemetry? && !fault)
            && (reply.Some? ==> reply.value.tag == m.tag)
  {
  }

  lemma ServeKeeps(s: State, order: seq<nat>, fault: bool)
    requires Inv(s) && Enabled(s, Serve(order, fault))
    ensures Inv(Next(s, Serve(order, fault)))
  {
    ReplyTag(s.db, s.up[0], order, fault);
    var reply := Handle(s.db, s.up[0], order, fault).1;
    if reply.Some? {
      Answer(s.up, s.down, s.next, s.lost, Waiting(s.phase), reply.value);
    } else {
      Swallow(s.up, s.down, s.next, s.lost, Waiting(s.phase));
    }
  }

  lemma BeatKeeps(s: State, beat: Beat)
    requires Inv(s) && Enabled(s, SendBeat(beat))
    ensures Inv(Next(s, SendBeat(beat)))
  {
    Ask(s.up, s.down, s.next, s.lost, Heartbeat(s.next, beat));
  }

  lemma AckKeeps(s: State, error: Option<string>)
    requires Inv(s) && Enabled(s, SendAck(error))
    ensures Inv(Next(s, SendAck(error)))
  {
    Ask(s.up, s.down, s.next, s.lost, CommandAck(s.next, s.phase.command, s.phase.report, error));
  }

  lemma ReceiveKeeps(s: State)
    requires Inv(s) && Enabled(s, Receive)
    ensures Inv(Next(s, Receive))
  {
    Read(s.up, s.down, s.next, s.lost, Waiting(s.phase));
  }

  lemma GiveUpKeeps(s: State)
    requires Inv(s) && Enabled(s, GiveUp)
    ensures Inv(Next(s, GiveUp))
  {
    Abandon(s.up, s.down, s.next, s.lost, Waiting(s.phase));
  }

  /** Whether the queues, and the request waited for, are as before. */
  predicate SameQueues(s: State, t: State) {
    t.up == s.up && t.down == s.down && t.next == s.next && t.lost == s.lost && Waiting(t.phase) == Waiting(s.phase)
  }

  lemma OthersLeaveQueues(s: State, step: Step)
    requires Enabled(s, step)
    requires !step.SendBeat? && !step.SendTelemetry? && !step.Receive? && !step.GiveUp? && !step.SendAck? && !step.Serve?
    ensures SameQueues(s, Next(s, step))
  {
  }

  lemma StepKeeps(s: State, step: Step)
    requires Inv(s) && Enabled(s, step)
    ensures Inv(Next(s, step))
  {
    match step
    case SendBeat(beat) => BeatKeeps(s, beat);
    case SendTelemetry => Tell(s.up, s.down, s.next, s.lost, Waiting(s.phase));
    case Receive => ReceiveKeeps(s);
    case GiveUp => GiveUpKeeps(s);
    case SendAck(error) => AckKeeps(s, error);
    case Serve(order, fault) => ServeKeeps(s, order, fault);
    case _ => OthersLeaveQueues(s, step);
  }

  lemma {:induction false} RunKeeps(host: Firewall.Table, steps: seq<Step>)
    requires After(Start(host), steps).Some?
    ensures Inv(After(Start(host), steps).value)
  {
    if steps == [] {
      assert Owed([], []) == {};
    } else {
      RunKeeps(host, steps[..|steps|-1]);
      StepKeeps(After(Start(host), steps[..|steps|-1]).value, steps[|steps|-1]);
    }
  }

  // ---------- What follows for a run ----------

  lemma OldestIsAsked(owed: set<nat>, lost: set<nat>, tag: nat, oldest: nat)
    requires oldest in owed && tag in owed && tag !in lost
    requires forall t :: t in owed ==> oldest <= t
    requires |Below(owed, tag)| == |Below(lost, tag)|
    ensures oldest == tag <==> forall t :: t in lost ==> tag < t
  {
    if oldest == tag {
      assert Below(owed, tag) == {} && Below(lost, tag) == {};
      forall t | t in lost ensures tag < t {
        assert t !in Below(lost, tag);
      }
    } else {
      assert oldest in Below(owed, tag);
      var t :| t in Below(lost, tag);
    }
  }

  /** The reply about to be read answers the request being waited for exactly
      when nothing older than that request was lost. */
  lemma {:induction false} ReplyAnswersRequestExactlyWhen(host: Firewall.Table, steps: seq<Step>)
    requires After(Start(host), steps).Some?
    requires Enabled(After(Start(host), steps).value, Receive)
    ensures var s := After(Start(host), steps).value;
            s.down[0].tag == s.phase.tag <==> forall t :: t in s.lost ==> s.phase.tag < t
  {
    RunKeeps(host, steps);
    var s := After(Start(host), steps).value;
    var tag := s.phase.tag;
    var owed := Owed(s.up, s.down);
    OldestIsFirst(s.up, s.down, s.next);
    OldestIsAsked(owed, s.lost, tag, s.down[0].tag);
  }

  /** A step that leaves one answer too many on the way. */
  predicate Disturbs(s: State, step: Step) {
    step.GiveUp? || (step.Serve? && step.fault && s.up != [] && s.up[0].Telemetry?)
  }

  ghost predicate Undisturbed(s: State, steps: seq<Step>) {
    steps == [] ||
    (var before := After(s, steps[..|steps|-1]);
     Undisturbed(s, steps[..|steps|-1]) && before.Some? && !Disturbs(before.value, steps[|steps|-1]))
  }

  /** Only timeouts and failed telemetry lose anything. */
  lemma {:induction false} LostExactlyWhenDisturbed(host: Firewall.Table, steps: seq<Step>)
    requires After(Start(host), steps).Some?
    ensures After(Start(host), steps).value.lost == {} <==> Undisturbed(Start(host), steps)
  {
    if steps != [] {
      LostExactlyWhenDisturbed(host, steps[..|steps|-1]);
      var s := After(Start(host), steps[..|steps|-1]).value;
      var s' := Next(s, steps[|steps|-1]);
      assert s.lost <= s'.lost;
      if Disturbs(s, steps[|steps|-1]) {
        var t := if steps[|steps|-1].GiveUp? then s.phase.tag else s.up[0].tag;
        assert t in s'.lost;
      } else {
        assert s'.lost == s.lost;
      }
    }
  }

  /** In a run without them at most one answer is owed, the lock is held exactly
      while one is, and every reply read answers the request just sent. */
  lemma {:induction false} UndisturbedRunsPairUp(host: Firewall.Table, steps: seq<Step>)
    requires After(Start(host), steps).Some? && Undisturbed(Start(host), steps)
    ensures var s := After(Start(host), steps).value;
            && |Owed(s.up, s.down)| == (if s.phase.Locked() then 1 else 0)
            && (s.phase.Locked() ==> Owed(s.up, s.down) == {s.phase.tag})
            && (Enabled(s, Receive) ==> s.down[0].tag == s.phase.tag && s.down == [s.down[0]])
  {
    RunKeeps(host, steps);
    LostExactlyWhenDisturbed(host, steps);
    var s := After(Start(host), steps).value;
    var owed := Owed(s.up, s.down);
    if s.phase.Locked() {
      assert |owed - {s.phase.tag}| == 0;
      assert owed == {s.phase.tag};
    }
    if Enabled(s, Receive) {
      ReplyAnswersRequestExactlyWhen(host, steps);
      OldestIsFirst(s.up, s.down, s.next);
      assert Owed(s.up, s.down[1..]) == {};
      assert DownTags(s.down[1..]) == {};
    }
  }

  lemma {:induction false} LostOnlyGrows(s: State, steps: seq<Step>)
    requires After(s, steps).Some?
    ensures s.lost <= After(s, steps).value.lost
  {
    if steps != [] {
      LostOnlyGrows(s, steps[..|steps|-1]);
    }
  }

  /** A shift never heals: after one loss, no request sent later on the
      connection ever reads its own answer. */
  lemma {:induction false} ShiftNeverHeals(host: Firewall.Table, steps: seq<Step>, more: seq<Step>)
    requires After(Start(host), steps).Some? && After(Start(host), steps).value.lost != {}
    requires After(Start(host), steps + more).Some?
    requires Enabled(After(Start(host), steps + more).value, Receive)
    requires After(Start(host), steps + more).value.phase.tag >= After(Start(host), steps).value.next
    ensures var s := After(Start(host), steps + more).value; s.down[0].tag != s.phase.tag
  {
    var s := After(Start(host), steps).value;
    RunKeeps(host, steps);
    AfterSplit(Start(host), steps, more);
    LostOnlyGrows(s, more);
    ReplyAnswersRequestExactlyWhen(host, steps + more);
    var t :| t in s.lost;
    assert t < s.next;
  }

  // ---------- Kinds of replies ----------

  /** What is on the way for the request being waited for is of its kind. */
  predicate KindsOf(up: seq<Upstream>, down: seq<Downstream>, p: Phase) {
    && (p.AwaitBeat? ==> forall i :: 0 <= i < |up| && up[i].tag == p.tag ==> up[i].Heartbeat?)
    && (p.AwaitAck? ==> forall i :: 0 <= i < |up| && up[i].tag == p.tag ==> up[i].CommandAck?)
    && (p.AwaitAck? ==> forall i :: 0 <= i < |down| && down[i].tag == p.tag ==> !down[i].BeatReply?)
    && (p.AwaitBeat? ==> forall i :: 0 <= i < |down| && down[i].tag == p.tag ==> !down[i].AckReply?)
  }

  lemma StepKeepsKinds(s: State, step: Step)
    requires Inv(s) && Enabled(s, step) && KindsOf(s.up, s.down, s.phase)
    ensures var s' := Next(s, step); KindsOf(s'.up, s'.down, s'.phase)
  {
    var s' := Next(s, step);
    match step
    case Serve(order, fault) =>
      ServeKeepsKinds(s, order, fault);
    case _ =>
  }

  lemma ServeKeepsKinds(s: State, order: seq<nat>, fault: bool)
    requires Inv(s) && Enabled(s, Serve(order, fault)) && KindsOf(s.up, s.down, s.phase)
    ensures var s' := Next(s, Serve(order, fault)); KindsOf(s'.up, s'.down, s'.phase)
  {
    var s' := Next(s, Serve(order, fault));
    var reply := Handle(s.db, s.up[0], order, fault).1;
    ReplyTag(s.db, s.up[0], order, fault);
    assert forall j :: 0 <= j < |s'.up| ==> s'.up[j] == s.up[j+1];
    assert reply.Some? ==> (reply.value.BeatReply? ==> s.up[0].Heartbeat?) && (reply.value.AckReply? ==> s.up[0].CommandAck?);
    assert forall i :: 0 <= i < |s'.down| ==> if i < |s.down| then s'.down[i] == s.down[i] else reply == Some(s'.down[i]);
  }

  lemma {:induction false} RunKeepsKinds(host: Firewall.Table, steps: seq<Step>)
    requires After(Start(host), steps).Some?
    ensures var s := After(Start(host), steps).value; KindsOf(s.up, s.down, s.phase)
  {
    if steps != [] {
      RunKeepsKinds(host, steps[..|steps|-1]);
      RunKeeps(host, steps[..|steps|-1]);
      StepKeepsKinds(After(Start(host), steps[..|steps|-1]).value, steps[|steps|-1]);
    }
  }

  // ---------- The two ways to lose one ----------

  const BEAT := Beat(0.0, 0.0, 0.0, 0, "127.0.0.1", "00:00:00:00:00:00")

  /** A reply that comes after its timeout is taken for the next one. */
  lemma {:induction false} LateReplyIsMisread(host: Firewall.Table)
    ensures var steps := [SendBeat(BEAT), GiveUp, SendBeat(BEAT), Serve([], false)];
            && After(Start(host), steps).Some?
            && Enabled(After(Start(host), steps).value, Receive)
            && After(Start(host), steps).value.down[0].tag == 0
            && After(Start(host), steps).value.phase.tag == 1
  {
    var s := Start(host);
    AfterPush(s, [], SendBeat(BEAT));
    assert [] + [SendBeat(BEAT)] == [SendBeat(BEAT)];
    var a := [SendBeat(BEAT)];
    AfterPush(s, a, GiveUp);
    AfterPush(s, a + [GiveUp], SendBeat(BEAT));
    AfterPush(s, a + [GiveUp] + [SendBeat(BEAT)], Serve([], false));
    assert a + [GiveUp] + [SendBeat(BEAT)] + [Serve([], false)] == [SendBeat(BEAT), GiveUp, SendBeat(BEAT), Serve([], false)];
  }

  /** The manager answers telemetry it fails on, although nobody waits for it. */
  lemma {:induction false} UnaskedErrorIsMisread(host: Firewall.Table)
    ensures var steps := [SendTelemetry, Serve([], true), SendBeat(BEAT)];
            && After(Start(host), steps).Some?
            && Enabled(After(Start(host), steps).value, Receive)
            && After(Start(host), steps).value.down[0].tag == 0
            && After(Start(host), steps).value.phase.tag == 1
  {
    var s := Start(host);
    AfterPush(s, [], SendTelemetry);
    assert [] + [SendTelemetry] == [SendTelemetry];
    var a := [SendTelemetry];
    AfterPush(s, a, Serve([], true));
    AfterPush(s, a + [Serve([], true)], SendBeat(BEAT));
    assert a + [Serve([], true)] + [SendBeat(BEAT)] == [SendTelemetry, Serve([], true), SendBeat(BEAT)];
  }
}
