/** The file integrity monitor (agent/fim.py): a cache of hashes, brought up to
    date by each check, and the alerts that tell what changed.  A check sees one
    snapshot of the file system. */
module Fim {
  import opened Options

  type Path = string
  type Hash = string

  /** A path that exists: a file with a hash, or something that cannot be hashed. */
  datatype Entry = Readable(hash: Hash) | Unreadable

  /** `walked` holds the files found below the watched directories. */
  datatype Snapshot = Snapshot(files: map<Path, Entry>, walked: set<Path>) {
    predicate Exists(p: Path) { p in files }

    /** `calculate_sha256`. */
    function HashOf(p: Path): Option<Hash> {
      if p in files && files[p].Readable? then Some(files[p].hash) else None
    }
  }

  datatype Change = CREATED | MODIFIED | DELETED

  datatype Alert = Alert(path: Path, oldHash: Hash, newHash: Hash, change: Change)

  type Cache = map<Path, Hash>

  // ---------- What a check should do, path by path ----------

  function CachedAfter(cache: Cache, targets: set<Path>, snap: Snapshot, p: Path): Option<Hash> {
    if p in cache then
      if !snap.Exists(p) then None
      else if snap.HashOf(p).Some? then snap.HashOf(p)
      else Some(cache[p])
    else if p in targets then snap.HashOf(p)
    else None
  }

  function After(cache: Cache, targets: set<Path>, snap: Snapshot): Cache {
    map p | p in cache.Keys + targets && CachedAfter(cache, targets, snap, p).Some? ::
      CachedAfter(cache, targets, snap, p).value
  }

  function ChangeAt(cache: Cache, targets: set<Path>, snap: Snapshot, p: Path): Option<Alert> {
    if p in cache then
      if !snap.Exists(p) then Some(Alert(p, cache[p], "", DELETED))
      else
        var h := snap.HashOf(p);
        if h.Some? && h.value != cache[p] then Some(Alert(p, cache[p], h.value, MODIFIED)) else None
    else if p in targets && snap.HashOf(p).Some? then Some(Alert(p, "", snap.HashOf(p).value, CREATED))
    else None
  }

  predicate DistinctPaths(alerts: seq<Alert>) {
    forall i, j :: 0 <= i < j < |alerts| ==> alerts[i].path != alerts[j].path
  }

  /** The alerts are exactly the changes, each once, in any order. */
  ghost predicate Reports(alerts: seq<Alert>, cache: Cache, targets: set<Path>, snap: Snapshot) {
    && DistinctPaths(alerts)
    && (forall i :: 0 <= i < |alerts| ==> ChangeAt(cache, targets, snap, alerts[i].path) == Some(alerts[i]))
    && (forall p :: ChangeAt(cache, targets, snap, p).Some? ==> ChangeAt(cache, targets, snap, p).value in alerts)
  }

  // ---------- The same, said of the two caches ----------

  function Find(cache: Cache, p: Path): Option<Hash> {
    if p in cache then Some(cache[p]) else None
  }

  predicate Watched(watchedFiles: seq<Path>, snap: Snapshot, p: Path) { p in watchedFiles || p in snap.walked }

  predicate ReadableAt(snap: Snapshot, p: Path) { p in snap.files && snap.files[p].Readable? }

  predicate RebasedAt(before: Cache, watchedFiles: seq<Path>, snap: Snapshot, after: Cache, p: Path) {
    Find(after, p) == if Watched(watchedFiles, snap, p) && ReadableAt(snap, p) then Some(snap.files[p].hash) else Find(before, p)
  }

  /** A baseline adds the hash of what is watched and can be read, and keeps the rest. */
  ghost predicate Rebases(before: Cache, watchedFiles: seq<Path>, snap: Snapshot, after: Cache) {
    forall p :: RebasedAt(before, watchedFiles, snap, after, p)
  }

  /** After a check a path is cached exactly when it exists and either was cached
      before or is watched and can be read; what can be read is cached with its
      hash, and what cannot keeps its old one. */
  ghost predicate Updates(before: Cache, watchedFiles: seq<Path>, snap: Snapshot, after: Cache) {
    && (forall p :: p in after <==>
          p in snap.files && (p in before || (Watched(watchedFiles, snap, p) && ReadableAt(snap, p))))
    && (forall p :: p in after && p in snap.files ==>
          if snap.files[p].Readable? then after[p] == snap.files[p].hash else p in before && after[p] == before[p])
  }

  /** There is one alert for each path whose hash differs between the two caches,
      and it tells both hashes and which way the change went. */
  ghost predicate Tells(alerts: seq<Alert>, before: Cache, after: Cache) {
    && DistinctPaths(alerts)
    && (forall i :: 0 <= i < |alerts| ==>
          var a := alerts[i];
          && Find(before, a.path) != Find(after, a.path)
          && a.oldHash == (if a.path in before then before[a.path] else "")
          && a.newHash == (if a.path in after then after[a.path] else "")
          && a.change == if a.path !in before then CREATED else if a.path !in after then DELETED else MODIFIED)
    && (forall p :: Find(before, p) != Find(after, p) ==> exists i :: 0 <= i < |alerts| && alerts[i].path == p)
  }

  lemma AfterUpdates(before: Cache, watchedFiles: seq<Path>, snap: Snapshot)
    ensures Updates(before, watchedFiles, snap, After(before, Targets(watchedFiles, snap), snap))
  {
    var targets := Targets(watchedFiles, snap);
    assert forall p :: p in targets <==> Watched(watchedFiles, snap, p);
  }

  lemma ChangeIsDifference(cache: Cache, targets: set<Path>, snap: Snapshot, p: Path)
    ensures var (after, change) := (After(cache, targets, snap), ChangeAt(cache, targets, snap, p));
      && (change.Some? <==> Find(cache, p) != Find(after, p))
      && (change.Some? ==>
            change.value == Alert(p, if p in cache then cache[p] else "", if p in after then after[p] else "",
              if p !in cache then CREATED else if p !in after then DELETED else MODIFIED))
  {
  }

  lemma ReportsTell(alerts: seq<Alert>, cache: Cache, targets: set<Path>, snap: Snapshot)
    requires Reports(alerts, cache, targets, snap)
    ensures Tells(alerts, cache, After(cache, targets, snap))
  {
    forall p
      ensures var (after, change) := (After(cache, targets, snap), ChangeAt(cache, targets, snap, p));
        && (change.Some? <==> Find(cache, p) != Find(after, p))
        && (change.Some? ==>
              change.value == Alert(p, if p in cache then cache[p] else "", if p in after then after[p] else "",
                if p !in cache then CREATED else if p !in after then DELETED else MODIFIED))
    {
      ChangeIsDifference(cache, targets, snap, p);
    }
  }

  // ---------- The monitor ----------

  class FileIntegrityMonitor {
    const watchedFiles: seq<Path>
    var fileHashes: Cache
    var initialized: bool

    constructor (watchedFiles: seq<Path>, snap: Snapshot)
      ensures this.watchedFiles == watchedFiles && initialized
      ensures fileHashes == After(map[], Targets(watchedFiles, snap), snap)
    {
      this.watchedFiles := watchedFiles;
      fileHashes := map[];
      initialized := false;
      new;
      InitializeBaseline(snap);
      assert Baselined(map[], Targets(watchedFiles, snap), snap) == After(map[], Targets(watchedFiles, snap), snap);
    }

    method GetAllTargetFiles(snap: Snapshot) returns (targets: set<Path>)
      ensures targets == Targets(watchedFiles, snap)
      ensures forall p :: p in targets <==> p in watchedFiles || p in snap.walked
    {
      targets := set p | p in watchedFiles;
      targets := targets + snap.walked;
    }

    method InitializeBaseline(snap: Snapshot)
      modifies this
      ensures fileHashes == Baselined(old(fileHashes), Targets(watchedFiles, snap), snap) && initialized
      ensures Rebases(old(fileHashes), watchedFiles, snap, fileHashes)
    {
      var targets := GetAllTargetFiles(snap);
      var left := targets;
      while left != {}
        invariant left <= targets && fileHashes == Baselined(old(fileHashes), targets - left, snap)
        decreases left
      {
        var filepath :| filepath in left;
        ghost var before := targets - left;
        left := left - {filepath};
        assert targets - left == before + {filepath};
        var h := snap.HashOf(filepath);
        BaselineStep(old(fileHashes), before, snap, filepath);
        if h.Some? {
          fileHashes := fileHashes[filepath := h.value];
        }
      }
      assert targets - {} == targets;
      forall p
        ensures RebasedAt(old(fileHashes), watchedFiles, snap, fileHashes, p)
      {
        BaselinedFind(old(fileHashes), targets, snap, p);
      }
      initialized := true;
    }

    /** Both loops take their paths in any order. */
    method CheckIntegrity(snap: Snapshot) returns (alerts: seq<Alert>)
      requires initialized
      modifies this`fileHashes
      ensures fileHashes == After(old(fileHashes), Targets(watchedFiles, snap), snap)
      ensures Reports(alerts, old(fileHashes), Targets(watchedFiles, snap), snap)
      ensures Updates(old(fileHashes), watchedFiles, snap, fileHashes) && Tells(alerts, old(fileHashes), fileHashes)
    {
      ghost var cache := fileHashes;
      var targets := GetAllTargetFiles(snap);
      alerts := [];
      var left := fileHashes.Keys;
      while left != {}
        invariant left <= cache.Keys
        invariant Progress(fileHashes, alerts, cache, targets, snap, cache.Keys - left)
        decreases left
      {
        var filepath :| filepath in left;
        ghost var done := cache.Keys - left;
        left := left - {filepath};
        assert cache.Keys - left == done + {filepath};
        var oldHash := fileHashes[filepath];
        ProgressStep(fileHashes, alerts, cache, targets, snap, done, filepath);
        if !snap.Exists(filepath) {
          alerts := alerts + [Alert(filepath, oldHash, "", DELETED)];
          fileHashes := fileHashes - {filepath};
        } else {
          var currHash := snap.HashOf(filepath);
          if currHash.Some? && currHash.value != oldHash {
            alerts := alerts + [Alert(filepath, oldHash, currHash.value, MODIFIED)];
            fileHashes := fileHashes[filepath := currHash.value];
          }
        }
      }
      assert cache.Keys - {} == cache.Keys;
      left := targets;
      assert cache.Keys + (targets - left) == cache.Keys;
      while left != {}
        invariant left <= targets
        invariant Progress(fileHashes, alerts, cache, targets, snap, cache.Keys + (targets - left))
        decreases left
      {
        var filepath :| filepath in left;
        ghost var done := cache.Keys + (targets - left);
        left := left - {filepath};
        assert cache.Keys + (targets - left) == done + {filepath};
        if filepath !in cache {
          ProgressStep(fileHashes, alerts, cache, targets, snap, done, filepath);
        } else {
          assert done + {filepath} == done;
        }
        if filepath !in fileHashes && snap.Exists(filepath) {
          var newHash := snap.HashOf(filepath);
          if newHash.Some? {
            if initialized {
              alerts := alerts + [Alert(filepath, "", newHash.value, CREATED)];
            }
            fileHashes := fileHashes[filepath := newHash.value];
          }
        }
      }
      assert cache.Keys + (targets - {}) == cache.Keys + targets;
      ProgressEnds(fileHashes, alerts, cache, targets, snap);
      AfterUpdates(cache, watchedFiles, snap);
      ReportsTell(alerts, cache, targets, snap);
    }
  }

  /** The cache with the hashes of some targets added. */
  function Baselined(cache: Cache, done: set<Path>, snap: Snapshot): Cache {
    cache + After(map[], done, snap)
  }

  lemma BaselinedFind(cache: Cache, done: set<Path>, snap: Snapshot, q: Path)
    ensures Find(Baselined(cache, done, snap), q)
         == if q in done && snap.HashOf(q).Some? then snap.HashOf(q) else Find(cache, q)
  {
  }

  lemma SameFinds(a: Cache, b: Cache)
    requires forall q :: Find(a, q) == Find(b, q)
    ensures a == b
  {
    assert forall q :: q in a <==> Find(a, q).Some?;
    assert forall q :: q in b <==> Find(b, q).Some?;
  }

  function Put(cache: Cache, p: Path, h: Option<Hash>): Cache {
    if h.Some? then cache[p := h.value] else cache
  }

  lemma BaselineStep(cache: Cache, done: set<Path>, snap: Snapshot, p: Path)
    requires p !in done
    ensures Baselined(cache, done + {p}, snap) == Put(Baselined(cache, done, snap), p, snap.HashOf(p))
  {
    forall q
      ensures Find(Baselined(cache, done + {p}, snap), q) == Find(Put(Baselined(cache, done, snap), p, snap.HashOf(p)), q)
    {
      BaselinedFind(cache, done, snap, q);
      BaselinedFind(cache, done + {p}, snap, q);
    }
    SameFinds(Baselined(cache, done + {p}, snap), Put(Baselined(cache, done, snap), p, snap.HashOf(p)));
  }

  /** The paths of `done` have been dealt with, the others are as they were. */
  ghost predicate Progress(now: Cache, alerts: seq<Alert>, cache: Cache, targets: set<Path>, snap: Snapshot, done: set<Path>) {
    && (forall p :: Find(now, p) == if p in done then CachedAfter(cache, targets, snap, p) else Find(cache, p))
    && DistinctPaths(alerts)
    && (forall i :: 0 <= i < |alerts| ==>
          alerts[i].path in done && ChangeAt(cache, targets, snap, alerts[i].path) == Some(alerts[i]))
    && (forall p :: p in done && ChangeAt(cache, targets, snap, p).Some? ==>
          ChangeAt(cache, targets, snap, p).value in alerts)
  }

  /** One path more: the alert for it, if any, is added and applied. */
  lemma ProgressStep(now: Cache, alerts: seq<Alert>, cache: Cache, targets: set<Path>, snap: Snapshot, done: set<Path>, p: Path)
    requires Progress(now, alerts, cache, targets, snap, done) && p !in done
    ensures var change := ChangeAt(cache, targets, snap, p);
            if change.None? then Progress(now, alerts, cache, targets, snap, done + {p})
            else Progress(Apply(now, change.value), alerts + [change.value], cache, targets, snap, done + {p})
    ensures Find(now, p) == Find(cache, p)
  {
  }

  lemma ProgressEnds(now: Cache, alerts: seq<Alert>, cache: Cache, targets: set<Path>, snap: Snapshot)
    requires Progress(now, alerts, cache, targets, snap, cache.Keys + targets)
    ensures now == After(cache, targets, snap) && Reports(alerts, cache, targets, snap)
  {
  }

  function Targets(watchedFiles: seq<Path>, snap: Snapshot): set<Path> {
    (set p | p in watchedFiles) + snap.walked
  }

  // ---------- Alerts replayed ----------

  function Apply(cache: Cache, a: Alert): Cache {
    if a.change == DELETED then cache - {a.path} else cache[a.path := a.newHash]
  }

  function Replay(cache: Cache, alerts: seq<Alert>): Cache {
    if alerts == [] then cache else Apply(Replay(cache, alerts[..|alerts|-1]), alerts[|alerts|-1])
  }

  /** The alert says what it finds: the old hash, or none for a file that is new. */
  predicate Legal(cache: Cache, a: Alert) {
    match a.change
    case CREATED => a.path !in cache && a.oldHash == ""
    case MODIFIED => a.path in cache && a.oldHash == cache[a.path] != a.newHash
    case DELETED => a.path in cache && a.oldHash == cache[a.path] && a.newHash == ""
  }

  predicate LegalAt(cache: Cache, alerts: seq<Alert>, i: nat)
    requires i < |alerts|
  {
    Legal(Replay(cache, alerts[..i]), alerts[i])
  }

  ghost predicate AllLegal(cache: Cache, alerts: seq<Alert>) {
    forall i :: 0 <= i < |alerts| ==> LegalAt(cache, alerts, i)
  }

  /** Alerts about other paths do not matter. */
  lemma {:induction false} ReplayElsewhere(cache: Cache, alerts: seq<Alert>, p: Path)
    requires forall i :: 0 <= i < |alerts| ==> alerts[i].path != p
    ensures p in Replay(cache, alerts) <==> p in cache
    ensures p in cache ==> Replay(cache, alerts)[p] == cache[p]
  {
    if alerts != [] { ReplayElsewhere(cache, alerts[..|alerts|-1], p); }
  }

  lemma {:induction false} ReplayAt(cache: Cache, alerts: seq<Alert>, i: nat)
    requires DistinctPaths(alerts) && i < |alerts|
    ensures var a := alerts[i];
            && (a.path in Replay(cache, alerts) <==> a.change != DELETED)
            && (a.change != DELETED ==> Replay(cache, alerts)[a.path] == a.newHash)
  {
    var n := |alerts| - 1;
    if i < n {
      ReplayAt(cache, alerts[..n], i);
    }
  }

  /** Whatever order a check's alerts come in, replaying them over the cache it
      started from gives the cache it ends with, and each is legal in its turn. */
  lemma {:induction false} CheckReplays(alerts: seq<Alert>, cache: Cache, targets: set<Path>, snap: Snapshot)
    requires Reports(alerts, cache, targets, snap)
    ensures Replay(cache, alerts) == After(cache, targets, snap)
    ensures AllLegal(cache, alerts)
  {
    var replayed, after := Replay(cache, alerts), After(cache, targets, snap);
    forall p
      ensures p in replayed <==> p in after
      ensures p in replayed && p in after ==> replayed[p] == after[p]
    {
      var change := ChangeAt(cache, targets, snap, p);
      if change.Some? {
        var i :| 0 <= i < |alerts| && alerts[i] == change.value;
        ReplayAt(cache, alerts, i);
      } else {
        ReplayElsewhere(cache, alerts, p);
      }
    }
    assert replayed == after;
    forall i | 0 <= i < |alerts|
      ensures LegalAt(cache, alerts, i)
    {
      ReplayElsewhere(cache, alerts[..i], alerts[i].path);
    }
  }

  // ---------- Runs of checks ----------

  datatype Round = Round(targets: set<Path>, snap: Snapshot, alerts: seq<Alert>)

  /** The cache after some checks. */
  function CacheAfter(cache: Cache, rounds: seq<Round>): Cache {
    if rounds == [] then cache
    else
      var r := rounds[|rounds|-1];
      After(CacheAfter(cache, rounds[..|rounds|-1]), r.targets, r.snap)
  }

  ghost predicate Checked(cache: Cache, rounds: seq<Round>) {
    forall k :: 0 <= k < |rounds| ==>
      Reports(rounds[k].alerts, CacheAfter(cache, rounds[..k]), rounds[k].targets, rounds[k].snap)
  }

  function AllAlerts(rounds: seq<Round>): seq<Alert> {
    if rounds == [] then [] else AllAlerts(rounds[..|rounds|-1]) + rounds[|rounds|-1].alerts
  }

  lemma {:induction false} ReplayAppend(cache: Cache, a: seq<Alert>, b: seq<Alert>)
    ensures Replay(cache, a + b) == Replay(Replay(cache, a), b)
  {
    if b == [] {
      assert a + b == a;
    } else {
      var n := |b| - 1;
      ReplayAppend(cache, a, b[..n]);
      assert (a + b)[..|a|+n] == a + b[..n];
    }
  }

  lemma {:induction false} LegalAppend(cache: Cache, a: seq<Alert>, b: seq<Alert>)
    requires AllLegal(cache, a) && AllLegal(Replay(cache, a), b)
    ensures AllLegal(cache, a + b)
  {
    forall i | 0 <= i < |a + b|
      ensures LegalAt(cache, a + b, i)
    {
      if i < |a| {
        LegalSooner(cache, a, b, i);
      } else {
        LegalLater(cache, a, b, i - |a|);
      }
    }
  }

  lemma LegalSooner(cache: Cache, a: seq<Alert>, b: seq<Alert>, i: nat)
    requires AllLegal(cache, a) && i < |a|
    ensures LegalAt(cache, a + b, i)
  {
    assert (a + b)[..i] == a[..i] && (a + b)[i] == a[i];
    assert LegalAt(cache, a, i);
  }

  lemma LegalLater(cache: Cache, a: seq<Alert>, b: seq<Alert>, j: nat)
    requires AllLegal(Replay(cache, a), b) && j < |b|
    ensures LegalAt(cache, a + b, |a| + j)
  {
    assert (a + b)[..|a| + j] == a + b[..j];
    ReplayAppend(cache, a, b[..j]);
    assert (a + b)[|a| + j] == b[j];
    assert LegalAt(Replay(cache, a), b, j);
  }

  /** Over any run of checks, the alerts replayed over the baseline give the
      current cache, and every alert is legal in its turn. */
  lemma {:induction false} RunReplays(baseline: Cache, rounds: seq<Round>)
    requires Checked(baseline, rounds)
    ensures Replay(baseline, AllAlerts(rounds)) == CacheAfter(baseline, rounds)
    ensures AllLegal(baseline, AllAlerts(rounds))
  {
    if rounds != [] {
      var n := |rounds| - 1;
      assert Checked(baseline, rounds[..n]) by {
        assert forall k :: 0 <= k < n ==> rounds[..n][..k] == rounds[..k];
      }
      RunReplays(baseline, rounds[..n]);
      var before := CacheAfter(baseline, rounds[..n]);
      CheckReplays(rounds[n].alerts, before, rounds[n].targets, rounds[n].snap);
      ReplayAppend(baseline, AllAlerts(rounds[..n]), rounds[n].alerts);
      LegalAppend(baseline, AllAlerts(rounds[..n]), rounds[n].alerts);
    }
  }

  /** What the log says of a path until it mentions the path again. */
  lemma ReplayBetween(cache: Cache, log: seq<Alert>, i: nat, j: nat)
    requires i < j <= |log| && forall k :: i < k < j ==> log[k].path != log[i].path
    ensures var now, p := Replay(cache, log[..j]), log[i].path;
      && (p in now <==> p in Apply(Replay(cache, log[..i]), log[i]))
      && (p in now ==> now[p] == Apply(Replay(cache, log[..i]), log[i])[p])
    decreases j
  {
    var front := log[..j];
    assert front[..j - 1] == log[..j - 1];
    if i < j - 1 {
      ReplayBetween(cache, log, i, j - 1);
    }
  }

  lemma LegalChain(cache: Cache, log: seq<Alert>, i: nat, j: nat)
    requires AllLegal(cache, log) && i < j < |log| && log[i].path == log[j].path
    requires forall k :: i < k < j ==> log[k].path != log[j].path
    ensures log[j].oldHash == log[i].newHash
    ensures log[i].change == DELETED <==> log[j].change == CREATED
    ensures log[j].change == MODIFIED ==> log[j].oldHash != log[j].newHash
  {
    ReplayBetween(cache, log, i, j);
    assert LegalAt(cache, log, i) && LegalAt(cache, log, j);
  }

  /** Two successive alerts about one path fit together: the second starts from
      the hash the first ended with, and a file is created again exactly after it
      was deleted. */
  lemma {:induction false} AlertsChain(baseline: Cache, rounds: seq<Round>, i: nat, j: nat)
    requires Checked(baseline, rounds)
    requires i < j < |AllAlerts(rounds)| && AllAlerts(rounds)[i].path == AllAlerts(rounds)[j].path
    requires forall k :: i < k < j ==> AllAlerts(rounds)[k].path != AllAlerts(rounds)[j].path
    ensures var a, b := AllAlerts(rounds)[i], AllAlerts(rounds)[j];
            && b.oldHash == a.newHash
            && (a.change == DELETED <==> b.change == CREATED)
            && (b.change == MODIFIED ==> b.oldHash != b.newHash)
  {
    RunReplays(baseline, rounds);
    LegalChain(baseline, AllAlerts(rounds), i, j);
  }

  /** The first alert about a path starts from the baseline. */
  lemma {:induction false} FirstAlert(baseline: Cache, rounds: seq<Round>, j: nat)
    requires Checked(baseline, rounds) && j < |AllAlerts(rounds)|
    requires forall k :: 0 <= k < j ==> AllAlerts(rounds)[k].path != AllAlerts(rounds)[j].path
    ensures var b := AllAlerts(rounds)[j];
            && (b.change == CREATED <==> b.path !in baseline)
            && b.oldHash == if b.path in baseline then baseline[b.path] else ""
  {
    RunReplays(baseline, rounds);
    ReplayElsewhere(baseline, AllAlerts(rounds)[..j], AllAlerts(rounds)[j].path);
    assert LegalAt(baseline, AllAlerts(rounds), j);
  }

  // ---------- The monitor over many snapshots ----------

  lemma CheckedNext(baseline: Cache, rounds: seq<Round>, r: Round)
    requires Checked(baseline, rounds)
    requires Reports(r.alerts, CacheAfter(baseline, rounds), r.targets, r.snap)
    ensures Checked(baseline, rounds + [r])
  {
    var longer := rounds + [r];
    forall k | 0 <= k < |longer|
      ensures Reports(longer[k].alerts, CacheAfter(baseline, longer[..k]), longer[k].targets, longer[k].snap)
    {
      if k < |rounds| {
        assert longer[k] == rounds[k] && longer[..k] == rounds[..k];
      } else {
        assert longer[k] == r && longer[..k] == rounds;
      }
    }
  }

  lemma RoundNext(baseline: Cache, rounds: seq<Round>, r: Round)
    ensures CacheAfter(baseline, rounds + [r]) == After(CacheAfter(baseline, rounds), r.targets, r.snap)
    ensures AllAlerts(rounds + [r]) == AllAlerts(rounds) + r.alerts
  {
    assert (rounds + [r])[..|rounds|] == rounds;
  }

  /** A monitor started on one snapshot and run on others: what it cached first,
      what it caches now and all its alerts. */
  method Watch(watchedFiles: seq<Path>, first: Snapshot, snaps: seq<Snapshot>)
    returns (baseline: Cache, cache: Cache, alerts: seq<Alert>, ghost rounds: seq<Round>)
    ensures baseline == After(map[], Targets(watchedFiles, first), first)
    ensures |rounds| == |snaps|
    ensures forall i :: 0 <= i < |snaps| ==>
      rounds[i].snap == snaps[i] && rounds[i].targets == Targets(watchedFiles, snaps[i])
    ensures Checked(baseline, rounds) && cache == CacheAfter(baseline, rounds) && alerts == AllAlerts(rounds)
    ensures Replay(baseline, alerts) == cache && AllLegal(baseline, alerts)
  {
    var monitor := new FileIntegrityMonitor(watchedFiles, first);
    baseline, alerts, rounds := monitor.fileHashes, [], [];
    for i := 0 to |snaps|
      invariant fresh(monitor) && monitor.initialized && monitor.watchedFiles == watchedFiles
      invariant |rounds| == i
      invariant forall k :: 0 <= k < i ==>
        rounds[k].snap == snaps[k] && rounds[k].targets == Targets(watchedFiles, snaps[k])
      invariant Checked(baseline, rounds) && alerts == AllAlerts(rounds)
      invariant monitor.fileHashes == CacheAfter(baseline, rounds)
    {
      var more := monitor.CheckIntegrity(snaps[i]);
      ghost var r := Round(Targets(watchedFiles, snaps[i]), snaps[i], more);
      CheckedNext(baseline, rounds, r);
      RoundNext(baseline, rounds, r);
      rounds := rounds + [r];
      alerts := alerts + more;
    }
    cache := monitor.fileHashes;
    RunReplays(baseline, rounds);
  }

  // ---------- After a check ----------

  lemma NoChangeLeft(cache: Cache, targets: set<Path>, snap: Snapshot, p: Path)
    ensures ChangeAt(After(cache, targets, snap), targets, snap, p) == None
  {
  }

  /** The cache agrees with the files, and a second check of the same files finds nothing. */
  lemma {:induction false} CheckSettles(cache: Cache, targets: set<Path>, snap: Snapshot, again: seq<Alert>)
    requires Reports(again, After(cache, targets, snap), targets, snap)
    ensures forall p :: p in targets && snap.HashOf(p).Some? ==>
              p in After(cache, targets, snap) && Some(After(cache, targets, snap)[p]) == snap.HashOf(p)
    ensures forall p :: p in After(cache, targets, snap) ==> snap.Exists(p)
    ensures again == [] && After(After(cache, targets, snap), targets, snap) == After(cache, targets, snap)
  {
    var after := After(cache, targets, snap);
    if again != [] {
      NoChangeLeft(cache, targets, snap, again[0].path);
      assert false;
    }
    assert After(after, targets, snap) == after;
  }
}
