/** The process tree page: removing a killed process from the displayed forest
    (frontend/src/hooks/useProcessTree.js) and opening the nodes that lead to a
    focused one (frontend/src/pages/ProcessTree.jsx).

    A forest is read through the list of its root-to-node paths, in preorder:
    one path per node, and no two forests have the same list. */
module ProcessTree {
  import opened Options
  import opened Sequences

  /** `important` tells whether the name matches one of the page's programs. */
  datatype Process = Process(pid: int, important: bool, suspicious: bool)

  datatype Tree = Node(top: Process, children: seq<Tree>)

  type Path = seq<Process>

  function Below(top: Process, paths: seq<Path>): (r: seq<Path>)
    ensures |r| == |paths|
    ensures forall i :: 0 <= i < |r| ==> r[i] == [top] + paths[i]
  {
    seq(|paths|, i requires 0 <= i < |paths| => [top] + paths[i])
  }

  /** The path to every node, nodes in preorder. */
  function Paths(forest: seq<Tree>): (r: seq<Path>)
    ensures Roots(r)
    decreases forest
  {
    if forest == [] then [] else TreePaths(forest[0]) + Paths(forest[1..])
  }

  function TreePaths(t: Tree): (r: seq<Path>)
    ensures |r| == 1 + |Paths(t.children)| && r[0] == [t.top]
    decreases t
  {
    [[t.top]] + Below(t.top, Paths(t.children))
  }

  predicate Roots(paths: seq<Path>) { paths == [] || |paths[0]| == 1 }

  predicate Proper(paths: seq<Path>) {
    forall i :: 0 <= i < |paths| ==> |paths[i]| > 0
  }

  lemma {:induction false} PathsProper(forest: seq<Tree>)
    ensures Proper(Paths(forest))
    decreases forest
  {
    if forest != [] {
      PathsProper(forest[1..]);
    }
  }

  // ---------- A forest is determined by its paths ----------

  /** Where the paths below one root end. */
  function Block(paths: seq<Path>): nat {
    if paths == [] || |paths[0]| <= 1 then 0 else 1 + Block(paths[1..])
  }

  lemma {:induction false} BlockOfBelow(top: Process, inner: seq<Path>, rest: seq<Path>)
    requires Proper(inner) && Roots(rest)
    ensures Block(Below(top, inner) + rest) == |inner|
  {
    var all := Below(top, inner) + rest;
    if inner == [] {
      assert all == rest;
    } else {
      BlockOfBelow(top, inner[1..], rest);
      assert all[0] == [top] + inner[0];
      assert all[1..] == Below(top, inner[1..]) + rest;
    }
  }

  lemma SameSplit(top: Process, a: seq<Path>, b: seq<Path>, c: seq<Path>, d: seq<Path>)
    requires Below(top, a) + b == Below(top, c) + d
    requires Proper(a) && Proper(c) && Roots(b) && Roots(d)
    ensures a == c && b == d
  {
    BlockOfBelow(top, a, b);
    BlockOfBelow(top, c, d);
    var all := Below(top, a) + b;
    assert Below(top, a) == all[..|a|] == Below(top, c);
    assert b == all[|a|..] == d;
    BelowInjective(top, a, c);
  }

  lemma BelowInjective(top: Process, a: seq<Path>, b: seq<Path>)
    requires Below(top, a) == Below(top, b)
    ensures a == b
  {
    assert |a| == |b|;
    forall i | 0 <= i < |a|
      ensures a[i] == b[i]
    {
      assert a[i] == Below(top, a)[i][1..] && b[i] == Below(top, b)[i][1..];
    }
  }

  lemma {:induction false} PathsInjective(a: seq<Tree>, b: seq<Tree>)
    requires Paths(a) == Paths(b)
    ensures a == b
    decreases a
  {
    if a != [] {
      PathsStart(a);
      assert b != [];
      SameFirstTree(a, b);
      assert a[0] == Node(a[0].top, a[0].children) && b[0] == Node(b[0].top, b[0].children);
      PathsInjective(a[0].children, b[0].children);
      PathsInjective(a[1..], b[1..]);
      SameForest(a, b);
    }
  }

  lemma SameForest(a: seq<Tree>, b: seq<Tree>)
    requires a != [] && b != [] && a[0] == b[0] && a[1..] == b[1..]
    ensures a == b
  {
    assert a == [a[0]] + a[1..] && b == [b[0]] + b[1..];
  }

  lemma PathsStart(a: seq<Tree>)
    requires a != []
    ensures Paths(a) != []
  {
  }

  lemma SameHead(ta: Process, ca: seq<Path>, ra: seq<Path>, tb: Process, cb: seq<Path>, rb: seq<Path>)
    requires ([[ta]] + Below(ta, ca)) + ra == ([[tb]] + Below(tb, cb)) + rb
    requires Proper(ca) && Proper(cb) && Roots(ra) && Roots(rb)
    ensures ta == tb && ca == cb && ra == rb
  {
    var a, b := ([[ta]] + Below(ta, ca)) + ra, ([[tb]] + Below(tb, cb)) + rb;
    assert [ta] == a[0] == b[0] == [tb];
    assert ta == [ta][0] == [tb][0] == tb;
    assert Below(ta, ca) + ra == a[1..] == b[1..] == Below(tb, cb) + rb;
    SameSplit(ta, ca, ra, cb, rb);
  }

  lemma {:induction false} SameFirstTree(a: seq<Tree>, b: seq<Tree>)
    requires a != [] && b != [] && Paths(a) == Paths(b)
    ensures a[0].top == b[0].top && Paths(a[0].children) == Paths(b[0].children) && Paths(a[1..]) == Paths(b[1..])
  {
    PathsProper(a[0].children);
    PathsProper(b[0].children);
    SameHead(a[0].top, Paths(a[0].children), Paths(a[1..]), b[0].top, Paths(b[0].children), Paths(b[1..]));
  }

  // ---------- filterTreeNodes ----------

  function FilterTreeNodes(nodes: seq<Tree>, targetPid: int): seq<Tree>
    decreases nodes
  {
    if nodes == [] then []
    else
      var rest := FilterTreeNodes(nodes[1..], targetPid);
      if nodes[0].top.pid == targetPid then rest
      else [Node(nodes[0].top, FilterTreeNodes(nodes[0].children, targetPid))] + rest
  }

  /** No node of the path has the pid: neither the last one nor an ancestor. */
  predicate Avoids(path: Path, pid: int) {
    forall i :: 0 <= i < |path| ==> path[i].pid != pid
  }

  function Avoiding(paths: seq<Path>, pid: int): seq<Path> {
    if paths == [] then []
    else (if Avoids(paths[0], pid) then [paths[0]] else []) + Avoiding(paths[1..], pid)
  }

  lemma {:induction false} AvoidingAppend(a: seq<Path>, b: seq<Path>, pid: int)
    ensures Avoiding(a + b, pid) == Avoiding(a, pid) + Avoiding(b, pid)
  {
    if a == [] {
      assert a + b == b;
    } else {
      AvoidingAppend(a[1..], b, pid);
      assert (a + b)[0] == a[0] && (a + b)[1..] == a[1..] + b;
      Associative(if Avoids(a[0], pid) then [a[0]] else [], Avoiding(a[1..], pid), Avoiding(b, pid));
    }
  }

  lemma {:induction false} AvoidingBelow(top: Process, paths: seq<Path>, pid: int)
    ensures Avoiding(Below(top, paths), pid) == if top.pid == pid then [] else Below(top, Avoiding(paths, pid))
  {
    if paths == [] {
      assert Below(top, paths) == [];
    } else {
      AvoidingBelow(top, paths[1..], pid);
      assert Below(top, paths)[1..] == Below(top, paths[1..]);
      AvoidsBelow(top, paths[0], pid);
      if top.pid != pid && Avoids(paths[0], pid) {
        assert Below(top, [paths[0]] + Avoiding(paths[1..], pid))
            == [[top] + paths[0]] + Below(top, Avoiding(paths[1..], pid));
      }
    }
  }

  lemma AvoidsBelow(top: Process, path: Path, pid: int)
    ensures Avoids([top] + path, pid) <==> top.pid != pid && Avoids(path, pid)
  {
    if Avoids([top] + path, pid) {
      assert ([top] + path)[0] == top;
      forall i | 0 <= i < |path|
        ensures path[i].pid != pid
      {
        assert ([top] + path)[i + 1] == path[i];
      }
    }
  }

  /** Removal keeps exactly the nodes with no ancestor-or-self of that pid, each
      under its old ancestors, in the old preorder. */
  lemma {:induction false} RemovalKeepsTheRest(nodes: seq<Tree>, pid: int)
    ensures Paths(FilterTreeNodes(nodes, pid)) == Avoiding(Paths(nodes), pid)
    decreases nodes
  {
    if nodes != [] {
      RemovalKeepsTheRest(nodes[0].children, pid);
      RemovalKeepsTheRest(nodes[1..], pid);
      AvoidingAppend(TreePaths(nodes[0]), Paths(nodes[1..]), pid);
      AvoidingTree(nodes[0], pid);
      if nodes[0].top.pid != pid {
        var kept := Node(nodes[0].top, FilterTreeNodes(nodes[0].children, pid));
        var rest := FilterTreeNodes(nodes[1..], pid);
        assert ([kept] + rest)[0] == kept && ([kept] + rest)[1..] == rest;
      }
    }
  }

  lemma AvoidingTree(t: Tree, pid: int)
    ensures Avoiding(TreePaths(t), pid)
         == if t.top.pid == pid then [] else [[t.top]] + Below(t.top, Avoiding(Paths(t.children), pid))
  {
    AvoidingAppend([[t.top]], Below(t.top, Paths(t.children)), pid);
    AvoidingBelow(t.top, Paths(t.children), pid);
    assert [t.top][0] == t.top;
    assert Avoids([t.top], pid) <==> t.top.pid != pid;
    assert Avoiding([[t.top]], pid) == if Avoids([t.top], pid) then [[t.top]] else [];
  }

  /** Membership in what is kept, and the order of what is kept. */
  lemma {:induction false} AvoidingHolds(paths: seq<Path>, pid: int)
    ensures forall p :: p in Avoiding(paths, pid) <==> p in paths && Avoids(p, pid)
    ensures Avoiding(paths, pid) == paths <==> forall i :: 0 <= i < |paths| ==> Avoids(paths[i], pid)
    ensures |Avoiding(paths, pid)| <= |paths|
  {
    if paths != [] {
      AvoidingHolds(paths[1..], pid);
      assert paths == [paths[0]] + paths[1..];
      assert Avoids(paths[0], pid) ==>
          (Avoiding(paths, pid) == paths <==> Avoiding(paths[1..], pid) == paths[1..])
      by {
        if Avoids(paths[0], pid) && Avoiding(paths, pid) == paths {
          assert Avoiding(paths[1..], pid) == Avoiding(paths, pid)[1..] == paths[1..];
        }
      }
    }
  }

  lemma {:induction false} AvoidingCommutes(paths: seq<Path>, p: int, q: int)
    ensures Avoiding(Avoiding(paths, p), q) == Avoiding(Avoiding(paths, q), p)
  {
    if paths != [] {
      AvoidingCommutes(paths[1..], p, q);
      var a, b := if Avoids(paths[0], p) then [paths[0]] else [], if Avoids(paths[0], q) then [paths[0]] else [];
      AvoidingAppend(a, Avoiding(paths[1..], p), q);
      AvoidingAppend(b, Avoiding(paths[1..], q), p);
    }
  }

  /** A second removal of the same pid finds nothing, and two removals may be
      swapped. */
  lemma {:induction false} RemovalsSettle(nodes: seq<Tree>, p: int, q: int)
    ensures FilterTreeNodes(FilterTreeNodes(nodes, p), p) == FilterTreeNodes(nodes, p)
    ensures FilterTreeNodes(FilterTreeNodes(nodes, p), q) == FilterTreeNodes(FilterTreeNodes(nodes, q), p)
  {
    var once, other := FilterTreeNodes(nodes, p), FilterTreeNodes(nodes, q);
    RemovalKeepsTheRest(nodes, p);
    RemovalKeepsTheRest(nodes, q);
    RemovalKeepsTheRest(once, p);
    RemovalKeepsTheRest(once, q);
    RemovalKeepsTheRest(other, p);
    AvoidingCommutes(Paths(nodes), p, q);
    AvoidingHolds(Paths(nodes), p);
    AvoidingHolds(Avoiding(Paths(nodes), p), p);
    forall i | 0 <= i < |Avoiding(Paths(nodes), p)|
      ensures Avoids(Avoiding(Paths(nodes), p)[i], p)
    {
      assert Avoiding(Paths(nodes), p)[i] in Avoiding(Paths(nodes), p);
    }
    PathsInjective(FilterTreeNodes(once, p), once);
    PathsInjective(FilterTreeNodes(once, q), FilterTreeNodes(other, p));
  }

  /** A pid that no node has is on no path. */
  lemma AbsentIsAvoided(paths: seq<Path>, pid: int, path: Path)
    requires Closed(paths) && Proper(paths)
    requires First(paths, pid).None? && path in paths
    ensures Avoids(path, pid)
  {
    FirstIsFirst(paths, pid);
    forall k | 0 <= k < |path|
      ensures path[k].pid != pid
    {
      assert path[..k + 1] in paths;
      var j :| 0 <= j < |paths| && paths[j] == path[..k + 1];
      assert Last(paths[j]) == path[k];
    }
  }

  lemma PresentIsNotAvoided(paths: seq<Path>, pid: int)
    requires Proper(paths) && First(paths, pid).Some?
    ensures Avoiding(paths, pid) != paths
  {
    FirstIsFirst(paths, pid);
    var i :| IsFirst(paths, pid, i);
    AvoidingHolds(paths, pid);
    assert !Avoids(paths[i], pid);
  }

  /** Removal changes nothing exactly when no node has the pid. */
  lemma {:induction false} RemovalIsNeutralExactlyWhenAbsent(nodes: seq<Tree>, pid: int)
    ensures FilterTreeNodes(nodes, pid) == nodes <==> First(Paths(nodes), pid).None?
  {
    var paths := Paths(nodes);
    RemovalKeepsTheRest(nodes, pid);
    AncestorsArePaths(nodes);
    PathsProper(nodes);
    if First(paths, pid).None? {
      AvoidingHolds(paths, pid);
      forall i | 0 <= i < |paths|
        ensures Avoids(paths[i], pid)
      {
        AbsentIsAvoided(paths, pid, paths[i]);
      }
      PathsInjective(FilterTreeNodes(nodes, pid), nodes);
    } else {
      PresentIsNotAvoided(paths, pid);
    }
  }

  predicate Closed(paths: seq<Path>) {
    forall p, k :: p in paths && 0 < k <= |p| ==> p[..k] in paths
  }

  lemma ClosedBelow(top: Process, inner: seq<Path>)
    requires Closed(inner) && Proper(inner)
    ensures Closed([[top]] + Below(top, inner))
  {
    var all := [[top]] + Below(top, inner);
    forall p, k | p in all && 0 < k <= |p|
      ensures p[..k] in all
    {
      if k == 1 {
        assert p[..1] == [top] == all[0];
      } else {
        var i :| 0 <= i < |inner| && p == [top] + inner[i];
        var up := inner[i][..k - 1];
        assert inner[i] in inner && up in inner;
        var j :| 0 <= j < |inner| && inner[j] == up;
        assert all[j + 1] == [top] + up == p[..k];
      }
    }
  }

  lemma ClosedAppend(a: seq<Path>, b: seq<Path>)
    requires Closed(a) && Closed(b)
    ensures Closed(a + b)
  {
  }

  /** Every ancestor of a node is a node. */
  lemma {:induction false} AncestorsArePaths(nodes: seq<Tree>)
    ensures Closed(Paths(nodes))
    decreases nodes
  {
    if nodes != [] {
      AncestorsArePaths(nodes[0].children);
      AncestorsArePaths(nodes[1..]);
      PathsProper(nodes[0].children);
      ClosedBelow(nodes[0].top, Paths(nodes[0].children));
      ClosedAppend(TreePaths(nodes[0]), Paths(nodes[1..]));
    }
  }

  // ---------- Opening the way to a focused node ----------

  function Last(path: Path): Process
    requires path != []
  {
    path[|path| - 1]
  }

  /** The path to the first node, in preorder, with the pid. */
  function First(paths: seq<Path>, target: int): Option<Path> {
    if paths == [] then None
    else if paths[0] != [] && Last(paths[0]).pid == target then Some(paths[0])
    else First(paths[1..], target)
  }

  lemma {:induction false} FirstAppend(a: seq<Path>, b: seq<Path>, target: int)
    ensures First(a + b, target) == if First(a, target).Some? then First(a, target) else First(b, target)
  {
    if a == [] {
      assert a + b == b;
    } else {
      FirstAppend(a[1..], b, target);
      assert (a + b)[0] == a[0] && (a + b)[1..] == a[1..] + b;
    }
  }

  lemma {:induction false} FirstBelow(top: Process, paths: seq<Path>, target: int)
    requires Proper(paths)
    ensures First(Below(top, paths), target)
         == if First(paths, target).Some? then Some([top] + First(paths, target).value) else None
  {
    if paths != [] {
      FirstBelow(top, paths[1..], target);
      assert Below(top, paths)[1..] == Below(top, paths[1..]);
      assert Last([top] + paths[0]) == Last(paths[0]);
    }
  }

  predicate IsFirst(paths: seq<Path>, target: int, i: int) {
    && 0 <= i < |paths| && paths[i] != [] && Last(paths[i]).pid == target
    && forall j :: 0 <= j < i && paths[j] != [] ==> Last(paths[j]).pid != target
  }

  lemma {:induction false} FirstIsFirst(paths: seq<Path>, target: int)
    requires Proper(paths)
    ensures First(paths, target).Some? <==> exists i :: 0 <= i < |paths| && Last(paths[i]).pid == target
    ensures First(paths, target).Some? ==> exists i :: IsFirst(paths, target, i)
    ensures forall i :: IsFirst(paths, target, i) ==> First(paths, target) == Some(paths[i])
  {
    if paths != [] {
      FirstIsFirst(paths[1..], target);
      if Last(paths[0]).pid == target {
        assert IsFirst(paths, target, 0);
      } else {
        forall i
          ensures IsFirst(paths, target, i) <==> IsFirst(paths[1..], target, i - 1)
        {
          IsFirstTail(paths, target, i);
        }
        if First(paths, target).Some? {
          var i :| IsFirst(paths[1..], target, i);
          assert IsFirst(paths, target, i + 1);
        }
      }
    }
  }

  lemma IsFirstTail(paths: seq<Path>, target: int, i: int)
    requires paths != [] && paths[0] != [] && Last(paths[0]).pid != target
    ensures IsFirst(paths, target, i) <==> IsFirst(paths[1..], target, i - 1)
  {
  }

  function Pids(path: Path): set<int> { set i | 0 <= i < |path| :: path[i].pid }

  /** What opening the way to a pid adds: the proper ancestors. */
  function Ancestors(path: Option<Path>): set<int> {
    if path.Some? && path.value != [] then Pids(path.value[..|path.value| - 1]) else {}
  }

  lemma AncestorsBelow(top: Process, path: Path)
    requires path != []
    ensures Ancestors(Some([top] + path)) == {top.pid} + Ancestors(Some(path))
  {
    var init := path[..|path| - 1];
    assert ([top] + path)[..|path|] == [top] + init;
    var all := [top] + init;
    assert all[0] == top;
    forall i | 0 <= i < |init|
      ensures init[i].pid in Pids(all)
    {
      assert all[i + 1] == init[i];
    }
    assert Pids(all) == {top.pid} + Pids(init);
  }

  lemma {:induction false} FirstTree(t: Tree, target: int)
    ensures First(TreePaths(t), target)
         == if t.top.pid == target then Some([t.top])
            else if First(Paths(t.children), target).Some? then Some([t.top] + First(Paths(t.children), target).value)
            else None
    ensures t.top.pid != target && First(Paths(t.children), target).Some? ==>
      Ancestors(First(TreePaths(t), target)) == {t.top.pid} + Ancestors(First(Paths(t.children), target))
    ensures t.top.pid == target ==> Ancestors(First(TreePaths(t), target)) == {}
  {
    var inner := Paths(t.children);
    PathsProper(t.children);
    FirstAppend([[t.top]], Below(t.top, inner), target);
    FirstBelow(t.top, inner, target);
    assert Last([t.top]) == t.top;
    if First(inner, target).Some? {
      FirstIsFirst(inner, target);
      AncestorsBelow(t.top, First(inner, target).value);
    }
  }

  /** The pids opened on the way to the target, or nothing when it is absent. */
  function Way(nodes: seq<Tree>, target: int): Option<set<int>>
    decreases nodes
  {
    if nodes == [] then None
    else if nodes[0].top.pid == target then Some({})
    else
      var below := Way(nodes[0].children, target);
      if below.Some? then Some({nodes[0].top.pid} + below.value) else Way(nodes[1..], target)
  }

  /** The way leads to the first node with the pid, and opens exactly its proper
      ancestors. */
  lemma {:induction false} WayLeadsToFirst(nodes: seq<Tree>, target: int)
    ensures var first := First(Paths(nodes), target);
      Way(nodes, target) == if first.Some? then Some(Ancestors(first)) else None
    decreases nodes
  {
    if nodes != [] {
      FirstTree(nodes[0], target);
      FirstAppend(TreePaths(nodes[0]), Paths(nodes[1..]), target);
      WayLeadsToFirst(nodes[0].children, target);
      WayLeadsToFirst(nodes[1..], target);
    }
  }

  // ---------- Opening the nodes worth seeing ----------

  predicate Worth(path: Path, depth: nat)
    requires path != []
  {
    depth + |path| - 1 < 2 || Last(path).important || Last(path).suspicious
  }

  function Marked(paths: seq<Path>, depth: nat): set<int> {
    if paths == [] then {}
    else (if paths[0] != [] && Worth(paths[0], depth) then {Last(paths[0]).pid} else {}) + Marked(paths[1..], depth)
  }

  lemma {:induction false} MarkedAppend(a: seq<Path>, b: seq<Path>, depth: nat)
    ensures Marked(a + b, depth) == Marked(a, depth) + Marked(b, depth)
  {
    if a == [] {
      assert a + b == b;
    } else {
      MarkedAppend(a[1..], b, depth);
      assert (a + b)[0] == a[0] && (a + b)[1..] == a[1..] + b;
    }
  }

  lemma {:induction false} MarkedBelow(top: Process, paths: seq<Path>, depth: nat)
    requires Proper(paths)
    ensures Marked(Below(top, paths), depth) == Marked(paths, depth + 1)
  {
    if paths != [] {
      MarkedBelow(top, paths[1..], depth);
      assert Below(top, paths)[1..] == Below(top, paths[1..]);
      assert Last([top] + paths[0]) == Last(paths[0]);
    }
  }

  lemma MarkedTree(t: Tree, depth: nat)
    ensures Marked(TreePaths(t), depth)
         == (if depth < 2 || t.top.important || t.top.suspicious then {t.top.pid} else {})
          + Marked(Paths(t.children), depth + 1)
  {
    PathsProper(t.children);
    MarkedAppend([[t.top]], Below(t.top, Paths(t.children)), depth);
    MarkedBelow(t.top, Paths(t.children), depth);
    assert Last([t.top]) == t.top;
  }

  /** The pids the walk adds. */
  function Wanted(nodes: seq<Tree>, depth: nat): set<int>
    decreases nodes
  {
    if nodes == [] then {}
    else
      var t := nodes[0].top;
      (if depth < 2 || t.important || t.suspicious then {t.pid} else {})
      + Wanted(nodes[0].children, depth + 1) + Wanted(nodes[1..], depth)
  }

  lemma {:induction false} WalkMarks(nodes: seq<Tree>, depth: nat)
    ensures Wanted(nodes, depth) == Marked(Paths(nodes), depth)
    decreases nodes
  {
    if nodes != [] {
      MarkedStep(nodes, depth);
      WalkMarks(nodes[0].children, depth + 1);
      WalkMarks(nodes[1..], depth);
    }
  }

  lemma {:induction false} MarkedStep(nodes: seq<Tree>, depth: nat)
    requires nodes != []
    ensures var t := nodes[0].top;
      Marked(Paths(nodes), depth)
      == (if depth < 2 || t.important || t.suspicious then {t.pid} else {})
       + Marked(Paths(nodes[0].children), depth + 1) + Marked(Paths(nodes[1..]), depth)
  {
    MarkedTree(nodes[0], depth);
    MarkedAppend(TreePaths(nodes[0]), Paths(nodes[1..]), depth);
  }

  predicate Marks(paths: seq<Path>, depth: nat, pid: int, i: int) {
    0 <= i < |paths| && paths[i] != [] && Worth(paths[i], depth) && Last(paths[i]).pid == pid
  }

  /** The marked pids are those of the nodes less than two levels down, of the
      page's programs and of the suspicious processes, wherever they are. */
  lemma {:induction false} MarkedHolds(paths: seq<Path>, depth: nat, pid: int)
    ensures pid in Marked(paths, depth) <==> exists i :: Marks(paths, depth, pid, i)
  {
    if paths != [] {
      MarkedHolds(paths[1..], depth, pid);
      if Marks(paths, depth, pid, 0) {
      } else if pid in Marked(paths[1..], depth) {
        var i :| Marks(paths[1..], depth, pid, i);
        assert Marks(paths, depth, pid, i + 1);
      } else if exists i :: Marks(paths, depth, pid, i) {
        var i :| Marks(paths, depth, pid, i);
        assert Marks(paths[1..], depth, pid, i - 1);
      }
    }
  }

  // ---------- The page's effect ----------

  class Expansion {
    var next: set<int>
    var changed: bool

    constructor (prev: set<int>)
      ensures next == prev && !changed
    {
      next := prev;
      changed := false;
    }

    method ExpandPath(nodes: seq<Tree>, target: int) returns (found: bool)
      modifies this
      ensures found == Way(nodes, target).Some?
      ensures next == old(next) + if found then Way(nodes, target).value else {}
      ensures changed == (old(changed) || (found && Way(nodes, target).value != {}))
      decreases nodes
    {
      for i := 0 to |nodes|
        invariant next == old(next) && changed == old(changed)
        invariant Way(nodes, target) == Way(nodes[i..], target)
      {
        var n := nodes[i];
        assert nodes[i..][0] == n && nodes[i..][1..] == nodes[i + 1..];
        if n.top.pid == target {
          return true;
        }
        if |n.children| > 0 {
          var below := ExpandPath(n.children, target);
          if below {
            next := next + {n.top.pid};
            changed := true;
            return true;
          }
        }
      }
      return false;
    }

    method Walk(nodes: seq<Tree>, depth: nat)
      modifies this
      ensures next == old(next) + Wanted(nodes, depth)
      ensures changed == (old(changed) || next != old(next))
      decreases nodes
    {
      assert nodes[0..] == nodes;
      for i := 0 to |nodes|
        invariant old(next) <= next
        invariant next + Wanted(nodes[i..], depth) == old(next) + Wanted(nodes, depth)
        invariant changed == (old(changed) || next != old(next))
      {
        var n := nodes[i];
        assert nodes[i..][0] == n && nodes[i..][1..] == nodes[i + 1..];
        if (depth < 2 || n.top.important || n.top.suspicious) && n.top.pid !in next {
          next := next + {n.top.pid};
          changed := true;
        }
        Walk(n.children, depth + 1);
      }
    }
  }

  function Focus(roots: seq<Tree>, queryPid: Option<int>): set<int> {
    if queryPid.Some? then {queryPid.value} + Ancestors(First(Paths(roots), queryPid.value)) else {}
  }

  /** A node with the pid stands at the top or just below it, is one of the page's
      programs, or is suspicious. */
  ghost predicate WorthOpening(paths: seq<Path>, pid: int) {
    exists i :: 0 <= i < |paths| && paths[i] != [] && paths[i][|paths[i]| - 1].pid == pid
      && (|paths[i]| <= 2 || paths[i][|paths[i]| - 1].important || paths[i][|paths[i]| - 1].suspicious)
  }

  /** The pid is that of a proper ancestor of the first node with the target pid. */
  ghost predicate AboveFirst(paths: seq<Path>, target: int, pid: int) {
    exists i, k :: IsFirst(paths, target, i) && 0 <= k < |paths[i]| - 1 && paths[i][k].pid == pid
  }

  /** What is open afterwards: what was, the focused pid, what lies above its first
      node, and what is worth opening; nothing else. */
  ghost predicate Opens(prev: set<int>, roots: seq<Tree>, queryPid: Option<int>, r: set<int>) {
    forall pid :: pid in r <==>
      || pid in prev || WorthOpening(Paths(roots), pid)
      || (queryPid.Some? && (pid == queryPid.value || AboveFirst(Paths(roots), queryPid.value, pid)))
  }

  lemma MarkedIsWorth(paths: seq<Path>, pid: int)
    ensures pid in Marked(paths, 0) <==> WorthOpening(paths, pid)
  {
    MarkedHolds(paths, 0, pid);
    if i :| Marks(paths, 0, pid, i) {
      assert paths[i] != [];
    }
    if WorthOpening(paths, pid) {
      var i :| 0 <= i < |paths| && paths[i] != [] && paths[i][|paths[i]| - 1].pid == pid
        && (|paths[i]| <= 2 || paths[i][|paths[i]| - 1].important || paths[i][|paths[i]| - 1].suspicious);
      assert Marks(paths, 0, pid, i);
    }
  }

  lemma PidsInFront(path: Path, pid: int)
    requires path != []
    ensures pid in Ancestors(Some(path)) <==> exists k :: 0 <= k < |path| - 1 && path[k].pid == pid
  {
    var front := path[..|path| - 1];
    if k :| 0 <= k < |path| - 1 && path[k].pid == pid {
      assert front[k].pid == pid;
    }
  }

  lemma AncestorsAbove(paths: seq<Path>, target: int, pid: int)
    requires Proper(paths)
    ensures pid in Ancestors(First(paths, target)) <==> AboveFirst(paths, target, pid)
  {
    FirstIsFirst(paths, target);
    if First(paths, target).Some? {
      var i :| IsFirst(paths, target, i);
      PidsInFront(paths[i], pid);
      OnlyOneFirst(paths, target, pid, i);
    }
  }

  lemma OnlyOneFirst(paths: seq<Path>, target: int, pid: int, i: int)
    requires IsFirst(paths, target, i)
    ensures AboveFirst(paths, target, pid) <==> exists k :: 0 <= k < |paths[i]| - 1 && paths[i][k].pid == pid
  {
    if j, k :| IsFirst(paths, target, j) && 0 <= k < |paths[j]| - 1 && paths[j][k].pid == pid {
      assert i == j;
    }
  }

  lemma {:induction false} EffectOpens(prev: set<int>, roots: seq<Tree>, queryPid: Option<int>)
    ensures Opens(prev, roots, queryPid, prev + Focus(roots, queryPid) + Marked(Paths(roots), 0))
  {
    PathsProper(roots);
    forall pid
      ensures pid in Marked(Paths(roots), 0) <==> WorthOpening(Paths(roots), pid)
      ensures queryPid.Some? ==>
        (pid in Ancestors(First(Paths(roots), queryPid.value)) <==> AboveFirst(Paths(roots), queryPid.value, pid))
    {
      MarkedIsWorth(Paths(roots), pid);
      if queryPid.Some? {
        AncestorsAbove(Paths(roots), queryPid.value, pid);
      }
    }
  }

  /** The effect run when a tree arrives. */
  method AutoExpand(prev: set<int>, roots: seq<Tree>, queryPid: Option<int>) returns (r: set<int>)
    ensures r == prev + Focus(roots, queryPid) + Marked(Paths(roots), 0)
    ensures Opens(prev, roots, queryPid, r)
  {
    EffectOpens(prev, roots, queryPid);
    var e := new Expansion(prev);
    if queryPid.Some? {
      var _ := e.ExpandPath(roots, queryPid.value);
      WayLeadsToFirst(roots, queryPid.value);
      e.next := e.next + {queryPid.value};
      e.changed := true;
    }
    WalkMarks(roots, 0);
    e.Walk(roots, 0);
    return if e.changed then e.next else prev;
  }

  /** A node is on screen when each of its proper ancestors is expanded. */
  predicate Shown(path: Path, expanded: set<int>) {
    forall i :: 0 <= i < |path| - 1 ==> path[i].pid in expanded
  }

  lemma AncestorsShow(path: Path, expanded: set<int>)
    requires Ancestors(Some(path)) <= expanded
    ensures Shown(path, expanded)
  {
  }

  lemma ShallowShows(paths: seq<Path>, p: Path, expanded: set<int>)
    requires Closed(paths) && p in paths && |p| <= 3 && Marked(paths, 0) <= expanded
    ensures Shown(p, expanded)
  {
    forall k | 0 <= k < |p| - 1
      ensures p[k].pid in expanded
    {
      assert p[..k + 1] in paths;
      var j :| 0 <= j < |paths| && paths[j] == p[..k + 1];
      assert Last(paths[j]) == p[k];
      assert Marks(paths, 0, p[k].pid, j);
      MarkedHolds(paths, 0, p[k].pid);
    }
  }

  /** After the effect the first node with the focused pid is on screen, as is
      every node down to depth two and everything that was on screen before. */
  lemma {:induction false} FocusIsShown(prev: set<int>, roots: seq<Tree>, queryPid: Option<int>)
    ensures var r := prev + Focus(roots, queryPid) + Marked(Paths(roots), 0);
      && (queryPid.Some? && First(Paths(roots), queryPid.value).Some? ==>
            Shown(First(Paths(roots), queryPid.value).value, r))
      && (forall p :: p in Paths(roots) && (|p| <= 3 || Shown(p, prev)) ==> Shown(p, r))
  {
    var paths := Paths(roots);
    var r := prev + Focus(roots, queryPid) + Marked(paths, 0);
    if queryPid.Some? && First(paths, queryPid.value).Some? {
      AncestorsShow(First(paths, queryPid.value).value, r);
    }
    AncestorsArePaths(roots);
    forall p: Path | p in paths && (|p| <= 3 || Shown(p, prev))
      ensures Shown(p, r)
    {
      if !Shown(p, prev) {
        ShallowShows(paths, p, r);
      }
    }
  }
}
