/** Killing a process and its descendants (agent/commands/kill_process_tree.py).
    The listing of descendants comes from the operating system; `above(a, d)`
    says that `a` is an ancestor of `d`. */
module KillTree {
  import opened Options
  import opened Sequences

  type Pid = nat

  datatype Outcome = Killed | Gone | Denied

  /** Read backwards. */
  function Reversed(s: seq<Pid>): (r: seq<Pid>)
    ensures |r| == |s|
    ensures forall i :: 0 <= i < |s| ==> r[i] == s[|s| - 1 - i]
  {
    seq(|s|, i requires 0 <= i < |s| => s[|s| - 1 - i])
  }

  /** No process stands after one of its descendants. */
  ghost predicate ParentsFirst(s: seq<Pid>, above: (Pid, Pid) -> bool) {
    forall i, j :: 0 <= i < j < |s| ==> !above(s[j], s[i])
  }

  /** No process stands before one of its descendants. */
  ghost predicate ChildrenFirst(s: seq<Pid>, above: (Pid, Pid) -> bool) {
    forall i, j :: 0 <= i < j < |s| ==> !above(s[i], s[j])
  }

  /** The order in which a family is killed. */
  function KillOrder(root: Pid, descendants: seq<Pid>): seq<Pid> { Reversed(descendants) + [root] }

  lemma {:induction false} OrderIsBottomUpExactlyWhen(root: Pid, descendants: seq<Pid>, above: (Pid, Pid) -> bool)
    ensures ChildrenFirst(KillOrder(root, descendants), above) <==> ParentsFirst([root] + descendants, above)
  {
    var s, order := [root] + descendants, KillOrder(root, descendants);
    assert forall i :: 0 <= i < |s| ==> order[i] == s[|s| - 1 - i];
    if ParentsFirst(s, above) {
      forall i, j | 0 <= i < j < |order|
        ensures !above(order[i], order[j])
      {
        assert !above(s[|s| - 1 - i], s[|s| - 1 - j]);
      }
    }
    if ChildrenFirst(order, above) {
      forall i, j | 0 <= i < j < |s|
        ensures !above(s[j], s[i])
      {
        assert order[|s| - 1 - j] == s[j] && order[|s| - 1 - i] == s[i];
      }
    }
  }

  /** By pid: a process that cannot be killed is passed over. */
  function Felled(order: seq<Pid>, live: set<Pid>, guarded: set<Pid>): seq<Pid> {
    if order == [] then []
    else if order[0] in live - guarded then [order[0]] + Felled(order[1..], live - {order[0]}, guarded)
    else Felled(order[1..], live, guarded)
  }

  lemma {:induction false} FelledHolds(order: seq<Pid>, live: set<Pid>, guarded: set<Pid>)
    ensures forall p :: p in Felled(order, live, guarded) <==> p in order && p in live && p !in guarded
  {
    if order != [] {
      FelledHolds(order[1..], if order[0] in live - guarded then live - {order[0]} else live, guarded);
      assert order == [order[0]] + order[1..];
    }
  }

  /** By name: the first process that cannot be killed ends the family. */
  function FelledUntil(order: seq<Pid>, live: set<Pid>, guarded: set<Pid>): seq<Pid> {
    if order != [] && order[0] in live - guarded
    then [order[0]] + FelledUntil(order[1..], live - {order[0]}, guarded)
    else []
  }

  function Elements(s: seq<Pid>): set<Pid> { set p | p in s }

  lemma ElementsAppend(s: seq<Pid>, t: seq<Pid>)
    ensures Elements(s + t) == Elements(s) + Elements(t)
  {
  }

  predicate Distinct(s: seq<Pid>) { forall i, j :: 0 <= i < j < |s| ==> s[i] != s[j] }

  /** A family in order, up to the first process that cannot be killed. */
  predicate UpToRefused(killed: seq<Pid>, order: seq<Pid>, live: set<Pid>, guarded: set<Pid>) {
    && killed <= order && Distinct(killed) && (forall i :: 0 <= i < |killed| ==> killed[i] in live - guarded)
    && (|killed| < |order| ==> order[|killed|] !in live - Elements(killed) - guarded)
  }

  lemma {:induction false} FelledUntilHolds(order: seq<Pid>, live: set<Pid>, guarded: set<Pid>)
    ensures UpToRefused(FelledUntil(order, live, guarded), order, live, guarded)
  {
    if order != [] && order[0] in live - guarded {
      var rest := FelledUntil(order[1..], live - {order[0]}, guarded);
      FelledUntilHolds(order[1..], live - {order[0]}, guarded);
      ElementsAppend([order[0]], rest);
      assert live - Elements([order[0]] + rest) == live - {order[0]} - Elements(rest);
      assert order == [order[0]] + order[1..];
    }
  }

  /** Everything that can be killed, once, and no child after its parent. */
  ghost predicate AllKillable(killed: seq<Pid>, order: seq<Pid>, live: set<Pid>, guarded: set<Pid>) {
    && Distinct(killed)
    && (forall p :: p in killed <==> p in order && p in live && p !in guarded)
    && forall above: (Pid, Pid) -> bool :: ChildrenFirst(order, above) ==> ChildrenFirst(killed, above)
  }

  lemma {:induction false} FelledInOrder(order: seq<Pid>, live: set<Pid>, guarded: set<Pid>, above: (Pid, Pid) -> bool)
    requires ChildrenFirst(order, above)
    ensures ChildrenFirst(Felled(order, live, guarded), above)
  {
    if order != [] {
      var left := if order[0] in live - guarded then live - {order[0]} else live;
      FelledHolds(order[1..], left, guarded);
      FelledInOrder(order[1..], left, guarded, above);
      forall d | d in order[1..]
        ensures !above(order[0], d)
      {
        var j :| 0 <= j < |order[1..]| && order[1..][j] == d;
        assert order[j + 1] == d;
      }
    }
  }

  lemma {:induction false} FelledDistinct(order: seq<Pid>, live: set<Pid>, guarded: set<Pid>)
    ensures Distinct(Felled(order, live, guarded))
  {
    if order != [] {
      var left := if order[0] in live - guarded then live - {order[0]} else live;
      FelledHolds(order[1..], left, guarded);
      FelledDistinct(order[1..], left, guarded);
    }
  }

  lemma FelledIsAllKillable(order: seq<Pid>, live: set<Pid>, guarded: set<Pid>)
    ensures AllKillable(Felled(order, live, guarded), order, live, guarded)
  {
    FelledHolds(order, live, guarded);
    FelledDistinct(order, live, guarded);
    forall above: (Pid, Pid) -> bool | ChildrenFirst(order, above)
      ensures ChildrenFirst(Felled(order, live, guarded), above)
    {
      FelledInOrder(order, live, guarded, above);
    }
  }

  /** A process whose name matches, and the descendants found when its turn in
      the search comes. */
  datatype Match = Match(proc: Pid, descendants: seq<Pid>)

  /** The search by name: the matching families one after the other. */
  function FelledAll(matches: seq<Match>, live: set<Pid>, guarded: set<Pid>): seq<Pid> {
    if matches == [] then []
    else
      var felled := FelledUntil(KillOrder(matches[0].proc, matches[0].descendants), live, guarded);
      felled + FelledAll(matches[1..], live - Elements(felled), guarded)
  }

  /** The whole command: by pid, and by name only if that killed nothing. */
  function FelledByCommand(
      target: Option<Match>, matches: seq<Match>, live: set<Pid>, guarded: set<Pid>): seq<Pid> {
    var byPid :=
      if target.None? then []
      else Felled(KillOrder(target.value.proc, target.value.descendants), live, guarded);
    if byPid != [] then byPid else FelledAll(matches, live, guarded)
  }

  class Machine {
    var live: set<Pid>
    const guarded: set<Pid>

    constructor (live: set<Pid>, guarded: set<Pid>)
      ensures this.live == live && this.guarded == guarded
    {
      this.live := live;
      this.guarded := guarded;
    }

    method Kill(p: Pid) returns (r: Outcome)
      modifies this
      ensures r == if p !in old(live) then Gone else if p in guarded then Denied else Killed
      ensures live == if r == Killed then old(live) - {p} else old(live)
    {
      if p !in live {
        return Gone;
      }
      if p in guarded {
        return Denied;
      }
      live := live - {p};
      return Killed;
    }

    method KillByPid(root: Pid, descendants: seq<Pid>) returns (killedPids: seq<Pid>)
      modifies this
      ensures killedPids == Felled(KillOrder(root, descendants), old(live), guarded)
      ensures live == old(live) - Elements(killedPids)
    {
      killedPids := [];
      ghost var order := KillOrder(root, descendants);
      var i := |descendants|;
      while i > 0
        invariant 0 <= i <= |descendants|
        invariant Felled(order, old(live), guarded) == killedPids + Felled(order[|descendants| - i..], live, guarded)
        invariant live == old(live) - Elements(killedPids)
      {
        ghost var rest := order[|descendants| - i..];
        i := i - 1;
        assert rest[0] == descendants[i] && rest[1..] == order[|descendants| - i..];
        var r := Kill(descendants[i]);
        if r == Killed {
          killedPids := killedPids + [descendants[i]];
        }
      }
      assert order[|descendants|..] == [root];
      var r := Kill(root);
      if r == Killed {
        killedPids := killedPids + [root];
      }
    }

    method KillNamed(proc: Pid, descendants: seq<Pid>) returns (killedPids: seq<Pid>)
      modifies this
      ensures killedPids == FelledUntil(KillOrder(proc, descendants), old(live), guarded)
      ensures live == old(live) - Elements(killedPids)
    {
      killedPids := [];
      ghost var order := KillOrder(proc, descendants);
      var i := |descendants|;
      while i > 0
        invariant 0 <= i <= |descendants|
        invariant FelledUntil(order, old(live), guarded)
               == killedPids + FelledUntil(order[|descendants| - i..], live, guarded)
        invariant live == old(live) - Elements(killedPids)
      {
        ghost var rest := order[|descendants| - i..];
        i := i - 1;
        assert rest[0] == descendants[i] && rest[1..] == order[|descendants| - i..];
        var r := Kill(descendants[i]);
        if r != Killed {
          return;
        }
        killedPids := killedPids + [descendants[i]];
      }
      assert order[|descendants|..] == [proc];
      var r := Kill(proc);
      if r == Killed {
        killedPids := killedPids + [proc];
      }
    }

    method KillAllNamed(matches: seq<Match>) returns (killedPids: seq<Pid>)
      modifies this
      ensures killedPids == FelledAll(matches, old(live), guarded)
      ensures live == old(live) - Elements(killedPids)
    {
      killedPids := [];
      var i := 0;
      assert matches[i..] == matches;
      while i < |matches|
        invariant 0 <= i <= |matches|
        invariant FelledAll(matches, old(live), guarded) == killedPids + FelledAll(matches[i..], live, guarded)
        invariant live == old(live) - Elements(killedPids)
      {
        ghost var before, rest := live, matches[i..];
        var felled := KillNamed(matches[i].proc, matches[i].descendants);
        assert FelledAll(rest, before, guarded) == felled + FelledAll(matches[i + 1..], live, guarded) by {
          assert rest[0] == matches[i] && rest[1..] == matches[i + 1..];
        }
        ElementsAppend(killedPids, felled);
        Associative(killedPids, felled, FelledAll(matches[i + 1..], live, guarded));
        killedPids := killedPids + felled;
        i := i + 1;
      }
    }

    /** `execute`, given the target that the pid names, if it exists, and the
        matches that a search by name finds. */
    method Execute(target: Option<Match>, matches: seq<Match>) returns (killedPids: seq<Pid>)
      modifies this
      ensures killedPids == FelledByCommand(target, matches, old(live), guarded)
      ensures live == old(live) - Elements(killedPids)
    {
      killedPids := [];
      if target.Some? {
        killedPids := KillByPid(target.value.proc, target.value.descendants);
      }
      if killedPids == [] {
        assert live == old(live);
        killedPids := KillAllNamed(matches);
      }
    }
  }

  // ---------- What is left alive ----------

  /** Some killed process has a descendant in the listing that still lives. */
  ghost predicate Orphans(killed: seq<Pid>, order: seq<Pid>, live: set<Pid>, above: (Pid, Pid) -> bool) {
    exists a, d :: a in killed && d in order && above(a, d) && d in live && d !in killed
  }

  /** At every moment of a kill by pid the only living descendants of killed
      processes are those whose own kill was refused. */
  lemma {:induction false} OnlyGuardedOutlive(
      order: seq<Pid>, k: nat, live: set<Pid>, guarded: set<Pid>, above: (Pid, Pid) -> bool, a: Pid, d: Pid)
    requires ChildrenFirst(order, above) && k <= |order|
    requires a in Felled(order[..k], live, guarded) && d in order && d != a && above(a, d)
    requires d in live - Elements(Felled(order[..k], live, guarded))
    ensures d in guarded
  {
    FelledHolds(order[..k], live, guarded);
    var i :| 0 <= i < k && order[i] == a;
    var j :| 0 <= j < |order| && order[j] == d;
    assert j < i;
    assert d in order[..k] by {
      assert order[..k][j] == d;
    }
  }

  /** A kill by pid leaves an orphan exactly when a guarded process lives below
      an unguarded one. */
  lemma {:induction false} OrphansExactlyWhen(order: seq<Pid>, live: set<Pid>, guarded: set<Pid>, above: (Pid, Pid) -> bool)
    ensures Orphans(Felled(order, live, guarded), order, live, above)
      <==> exists a, d :: a in order && d in order && above(a, d) && a in live - guarded && d in live * guarded
  {
    FelledHolds(order, live, guarded);
    if Orphans(Felled(order, live, guarded), order, live, above) {
      var a, d :| a in Felled(order, live, guarded) && d in order && above(a, d) && d in live
        && d !in Felled(order, live, guarded);
      assert a in order && above(a, d) && a in live - guarded && d in live * guarded;
    }
  }

  lemma {:induction false} FelledUntilIsPrefix(order: seq<Pid>, live: set<Pid>, guarded: set<Pid>)
    ensures FelledUntil(order, live, guarded) <= order
  {
    if order != [] && order[0] in live - guarded {
      FelledUntilIsPrefix(order[1..], live - {order[0]}, guarded);
    }
  }

  /** A kill by name leaves none, whatever is refused. */
  lemma {:induction false} NamedLeavesNoOrphan(order: seq<Pid>, live: set<Pid>, guarded: set<Pid>, above: (Pid, Pid) -> bool)
    requires ChildrenFirst(order, above)
    ensures !Orphans(FelledUntil(order, live, guarded), order, live, above)
  {
    var killed := FelledUntil(order, live, guarded);
    FelledUntilIsPrefix(order, live, guarded);
    forall a, d | a in killed && d in order && above(a, d)
      ensures d in killed
    {
      var i :| 0 <= i < |killed| && killed[i] == a;
      var j :| 0 <= j < |order| && order[j] == d;
      assert order[i] == a;
      assert j <= i && killed[j] == d;
    }
  }

  // ---------- The whole search ----------

  /** The listing misses no living process below one of its own. */
  ghost predicate Complete(order: seq<Pid>, live: set<Pid>, above: (Pid, Pid) -> bool) {
    forall a, d :: a in order && d in live && above(a, d) ==> d in order
  }

  /** What is left alive when the turn of a match comes. */
  function LiveAt(matches: seq<Match>, i: nat, live: set<Pid>, guarded: set<Pid>): set<Pid>
    requires i <= |matches|
  {
    live - Elements(FelledAll(matches[..i], live, guarded))
  }

  ghost predicate FallsWith(matches: seq<Match>, i: nat, live: set<Pid>, guarded: set<Pid>, p: Pid) {
    i < |matches| && exists killed ::
      && UpToRefused(killed, Reversed(matches[i].descendants) + [matches[i].proc], LiveAt(matches, i, live, guarded), guarded)
      && p in killed
  }

  /** The next of a family that dies further down could have been killed. */
  lemma NextCanDie(a: seq<Pid>, b: seq<Pid>, order: seq<Pid>, live: set<Pid>, guarded: set<Pid>)
    requires a <= order && b <= order && |a| < |b| && Distinct(b)
    requires forall i :: 0 <= i < |b| ==> b[i] in live - guarded
    ensures order[|a|] in live - Elements(a) - guarded
  {
    assert b[|a|] == order[|a|];
    forall i | 0 <= i < |a|
      ensures a[i] != order[|a|]
    {
      assert a[i] == order[i] == b[i];
    }
  }

  lemma UpToRefusedUnique(a: seq<Pid>, b: seq<Pid>, order: seq<Pid>, live: set<Pid>, guarded: set<Pid>)
    requires UpToRefused(a, order, live, guarded) && UpToRefused(b, order, live, guarded)
    ensures a == b
  {
    if |a| < |b| {
      NextCanDie(a, b, order, live, guarded);
    } else if |b| < |a| {
      NextCanDie(b, a, order, live, guarded);
    }
  }

  lemma LiveAtNext(matches: seq<Match>, i: nat, live: set<Pid>, guarded: set<Pid>)
    requires i < |matches|
    ensures var felled := FelledUntil(KillOrder(matches[0].proc, matches[0].descendants), live, guarded);
      LiveAt(matches, i + 1, live, guarded) == LiveAt(matches[1..], i, live - Elements(felled), guarded)
  {
    var felled := FelledUntil(KillOrder(matches[0].proc, matches[0].descendants), live, guarded);
    assert matches[..i + 1][1..] == matches[1..][..i] && matches[..i + 1][0] == matches[0];
    ElementsAppend(felled, FelledAll(matches[1..][..i], live - Elements(felled), guarded));
  }

  lemma FirstFalls(matches: seq<Match>, live: set<Pid>, guarded: set<Pid>, p: Pid)
    requires matches != []
    ensures FallsWith(matches, 0, live, guarded, p)
       <==> p in FelledUntil(KillOrder(matches[0].proc, matches[0].descendants), live, guarded)
  {
    var order := KillOrder(matches[0].proc, matches[0].descendants);
    assert LiveAt(matches, 0, live, guarded) == live by { assert matches[..0] == []; }
    FelledUntilHolds(order, live, guarded);
    if killed :| UpToRefused(killed, order, live, guarded) && p in killed {
      UpToRefusedUnique(killed, FelledUntil(order, live, guarded), order, live, guarded);
    }
  }

  lemma LaterFalls(matches: seq<Match>, i: nat, live: set<Pid>, guarded: set<Pid>, p: Pid)
    requires matches != []
    ensures var felled := FelledUntil(KillOrder(matches[0].proc, matches[0].descendants), live, guarded);
      FallsWith(matches, i + 1, live, guarded, p) <==> FallsWith(matches[1..], i, live - Elements(felled), guarded, p)
  {
    if i + 1 < |matches| {
      LiveAtNext(matches, i, live, guarded);
      assert matches[1..][i] == matches[i + 1];
    }
  }

  /** A process is killed by name exactly when some matching family, in its turn,
      gets down to it before it meets one that cannot be killed. */
  lemma {:induction false} FelledAllExactlyWhen(matches: seq<Match>, live: set<Pid>, guarded: set<Pid>, p: Pid)
    ensures p in FelledAll(matches, live, guarded) <==> exists i: nat :: FallsWith(matches, i, live, guarded, p)
  {
    if matches != [] {
      var felled := FelledUntil(KillOrder(matches[0].proc, matches[0].descendants), live, guarded);
      var left := live - Elements(felled);
      FelledAllExactlyWhen(matches[1..], left, guarded, p);
      FirstFalls(matches, live, guarded, p);
      if i: nat :| FallsWith(matches[1..], i, left, guarded, p) {
        LaterFalls(matches, i, live, guarded, p);
      }
      if i: nat :| FallsWith(matches, i, live, guarded, p) {
        if i > 0 {
          LaterFalls(matches, i - 1, live, guarded, p);
        }
      }
    }
  }

  /** A family dies out exactly when each of its listing is alive and can be killed. */
  lemma {:induction false} WholeFamilyExactlyWhen(order: seq<Pid>, live: set<Pid>, guarded: set<Pid>)
    ensures FelledUntil(order, live, guarded) == order
       <==> Distinct(order) && forall i :: 0 <= i < |order| ==> order[i] in live - guarded
  {
    FelledUntilHolds(order, live, guarded);
    var killed := FelledUntil(order, live, guarded);
    if Distinct(order) && (forall i :: 0 <= i < |order| ==> order[i] in live - guarded) && |killed| < |order| {
      NextCanDie(killed, order, order, live, guarded);
    }
  }

  /** Every family, when its turn comes, is listed completely and bottom-up. */
  ghost predicate WellListed(matches: seq<Match>, live: set<Pid>, guarded: set<Pid>, above: (Pid, Pid) -> bool) {
    matches == []
    || (var order := KillOrder(matches[0].proc, matches[0].descendants);
        && ChildrenFirst(order, above)
        && Complete(order, live, above)
        && WellListed(matches[1..], live - Elements(FelledUntil(order, live, guarded)), guarded, above))
  }

  /** However the families overlap and whatever is refused, a search by name
      leaves no living process below a killed one. */
  lemma {:induction false} SearchLeavesNoOrphan(
      matches: seq<Match>, live: set<Pid>, guarded: set<Pid>, above: (Pid, Pid) -> bool, a: Pid, d: Pid)
    requires WellListed(matches, live, guarded, above)
    requires a in FelledAll(matches, live, guarded) && above(a, d) && d in live
    ensures d in FelledAll(matches, live, guarded)
  {
    var order := KillOrder(matches[0].proc, matches[0].descendants);
    var felled := FelledUntil(order, live, guarded);
    if a in felled {
      FelledUntilIsPrefix(order, live, guarded);
      NamedLeavesNoOrphan(order, live, guarded, above);
      assert a in order;
    } else if d !in felled {
      SearchLeavesNoOrphan(matches[1..], live - Elements(felled), guarded, above, a, d);
    }
  }

  /** The command leaves a living process below a killed one exactly when the
      pid named a family in which a guarded process lives below an unguarded
      one: falling back on the name never adds one. */
  lemma {:induction false} CommandOrphansExactlyWhen(
      target: Option<Match>, matches: seq<Match>, live: set<Pid>, guarded: set<Pid>, above: (Pid, Pid) -> bool)
    requires WellListed(matches, live, guarded, above)
    requires target.Some? ==> Complete(KillOrder(target.value.proc, target.value.descendants), live, above)
    ensures (exists a, d :: a in FelledByCommand(target, matches, live, guarded) && above(a, d)
                && d in live && d !in FelledByCommand(target, matches, live, guarded))
      <==> target.Some? &&
           (var order := KillOrder(target.value.proc, target.value.descendants);
            exists a, d :: a in order && d in order && above(a, d) && a in live - guarded && d in live * guarded)
  {
    var felled := FelledByCommand(target, matches, live, guarded);
    if target.Some? {
      var order := KillOrder(target.value.proc, target.value.descendants);
      var byPid := Felled(order, live, guarded);
      FelledHolds(order, live, guarded);
      assert byPid == [] ==> forall a :: a in order ==> a !in live - guarded;
    }
    if target.None? || Felled(KillOrder(target.value.proc, target.value.descendants), live, guarded) == [] {
      forall a, d | a in felled && above(a, d) && d in live
        ensures d in felled
      {
        SearchLeavesNoOrphan(matches, live, guarded, above, a, d);
      }
    }
  }
}
