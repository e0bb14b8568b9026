/** Storing a process list (manager/app/websocket/agent_ws.py): the agent's rows
    are replaced by the items that make a row the database takes, each inserted
    under a savepoint of its own. */
module ProcessStore {
  import opened Options
  import opened Sequences
  import opened Json
  import WindowsAgent

  const NAME_WIDTH := 128
  const PATH_WIDTH := 512
  const CMDLINE_WIDTH := 1024
  const HASH_WIDTH := 128

  datatype ProcessRow = ProcessRow(
    agentId: string, pid: int, parentPid: Option<int>, name: string, exe: string, exePath: Option<string>,
    cmdline: string, suspicious: bool, hash: Option<string>)

  /** The two conversions of the Python runtime that the rows depend on: `int` of
      a string and `str` of a value that is not one. */
  datatype Python = Python(intOf: string -> Option<int>, show: Json -> string)

  // ---------- Reading one item ----------

  predicate Truthy(j: Json): (r: bool)
    ensures r <==> j !in {Null, Bool(false), Num(0), Str(""), Arr([]), Obj([])}
  {
    match j
    case Null => false
    case Bool(b) => b
    case Num(n) => n != 0
    case Str(s) => s != ""
    case Arr(items) => items != []
    case Obj(members) => members != []
  }

  /** Python's `or`. */
  function Or(a: Json, b: Json): Json { if Truthy(a) then a else b }

  function Text(j: Json, py: Python): string { if j.Str? then j.s else py.show(j) }

  function Cut(s: string, width: nat): (r: string)
    ensures |r| <= width && r <= s
    ensures |s| <= width ==> r == s
  {
    if |s| > width then s[..width] else s
  }

  function SafeStr(j: Json, width: nat, default: string, py: Python): string {
    if j.Null? then default else Cut(Text(j, py), width)
  }

  function SafeInt(j: Json, py: Python): Option<int> {
    match j
    case Num(n) => Some(n)
    case Bool(b) => Some(if b then 1 else 0)
    case Str(s) => py.intOf(s)
    case _ => None
  }

  function Joined(items: seq<Json>, py: Python): string {
    if items == [] then ""
    else if |items| == 1 then Text(items[0], py)
    else Text(items[0], py) + " " + Joined(items[1..], py)
  }

  function CommandLine(j: Json, py: Python): string {
    if !Truthy(j) then "" else if j.Arr? then Joined(j.items, py) else Text(j, py)
  }

  function NonEmpty(s: string): Option<string> { if s == "" then None else Some(s) }

  /** The row of an item, unless its pid is missing, unreadable or negative. */
  function RowOf(agentId: string, m: seq<Member>, py: Python): Option<ProcessRow> {
    var pid := SafeInt(Lookup(m, "pid"), py);
    if pid.None? || pid.value < 0 then None
    else
      var parent := Lookup(m, "parent_pid");
      var path := Or(Lookup(m, "exe"), Lookup(m, "path"));
      Some(ProcessRow(
        agentId, pid.value,
        SafeInt(if parent.Null? then Lookup(m, "ppid") else parent, py),
        SafeStr(Lookup(m, "name"), NAME_WIDTH, "unknown", py),
        SafeStr(path, PATH_WIDTH, "", py),
        NonEmpty(SafeStr(Or(Lookup(m, "exe_path"), path), PATH_WIDTH, "", py)),
        Cut(CommandLine(Lookup(m, "cmdline"), py), CMDLINE_WIDTH),
        Truthy(Lookup(m, "is_suspicious")),
        NonEmpty(SafeStr(Lookup(m, "hash"), HASH_WIDTH, "", py))))
  }

  // ---------- The whole list ----------

  function Collect(items: seq<Json>, pick: Json -> seq<ProcessRow>): seq<ProcessRow> {
    if items == [] then [] else Collect(items[..|items| - 1], pick) + pick(items[|items| - 1])
  }

  function Keeper(agentId: string, py: Python, accepts: ProcessRow -> bool): Json -> seq<ProcessRow> {
    item => KeptOne(agentId, item, py, accepts)
  }

  /** The rows kept of a list, given which rows the database takes. */
  function Kept(agentId: string, items: seq<Json>, py: Python, accepts: ProcessRow -> bool): seq<ProcessRow> {
    Collect(items, Keeper(agentId, py, accepts))
  }

  function KeptOne(agentId: string, item: Json, py: Python, accepts: ProcessRow -> bool): (rows: seq<ProcessRow>)
    ensures |rows| <= 1
  {
    if !item.Obj? then []
    else
      var row := RowOf(agentId, item.members, py);
      if row.Some? && accepts(row.value) then [row.value] else []
  }

  function Others(table: seq<ProcessRow>, agentId: string): seq<ProcessRow> {
    if table == [] then []
    else
      var n := |table| - 1;
      Others(table[..n], agentId) + OtherOne(table[n], agentId)
  }

  /** A list of which every item is an object: on anything else `.get` raises. */
  predicate AllObjects(items: seq<Json>) { forall i :: 0 <= i < |items| ==> items[i].Obj? }

  lemma ObjectsNext(items: seq<Json>, i: nat)
    requires i < |items| && AllObjects(items[..i]) && items[i].Obj?
    ensures AllObjects(items[..i + 1])
  {
    assert items[..i + 1] == items[..i] + [items[i]];
  }

  datatype Outcome = Raised | Saved(count: nat, skipped: nat)

  class Session {
    var table: seq<ProcessRow>

    constructor (table: seq<ProcessRow>)
      ensures this.table == table
    {
      this.table := table;
    }

    method DeleteByAgent(agentId: string)
      modifies this
      ensures table == Others(old(table), agentId)
    {
      var kept := [];
      var i := 0;
      while i < |table|
        invariant i <= |table| && table == old(table)
        invariant kept == Others(table[..i], agentId)
      {
        assert table[..i+1][..i] == table[..i];
        if table[i].agentId != agentId {
          kept := kept + [table[i]];
        }
        i := i + 1;
      }
      assert table[..i] == table;
      table := kept;
    }

    /** `begin_nested` around one insert: a refused row leaves no trace. */
    method AddNested(row: ProcessRow, accepts: ProcessRow -> bool) returns (ok: bool)
      modifies this
      ensures ok == accepts(row)
      ensures table == old(table) + if accepts(row) then [row] else []
    {
      var savepoint := table;
      table := table + [row];
      ok := accepts(row);
      if !ok {
        table := savepoint;
      }
    }

    method SaveItem(agentId: string, members: seq<Member>, py: Python, accepts: ProcessRow -> bool) returns (ok: bool)
      modifies this
      ensures table == old(table) + KeptOne(agentId, Obj(members), py, accepts)
      ensures |KeptOne(agentId, Obj(members), py, accepts)| == if ok then 1 else 0
    {
      var row := RowOf(agentId, members, py);
      if row.None? {
        return false;
      }
      ok := AddNested(row.value, accepts);
    }

    /** One round of the loop, in terms of the rows kept so far. */
    method SaveNext(ghost others: seq<ProcessRow>, ghost kept: seq<ProcessRow>, agentId: string, item: Json,
        py: Python, accepts: ProcessRow -> bool) returns (ok: bool, ghost next: seq<ProcessRow>)
      requires item.Obj? && table == others + kept
      modifies this
      ensures next == kept + KeptOne(agentId, item, py, accepts) && table == others + next
      ensures |next| == |kept| + if ok then 1 else 0
    {
      next := kept + KeptOne(agentId, item, py, accepts);
      Associative(others, kept, KeptOne(agentId, item, py, accepts));
      ok := SaveItem(agentId, item.members, py, accepts);
    }

    /** The loop over the items, from a table without the agent's rows. */
    method SaveItems(agentId: string, items: seq<Json>, py: Python, accepts: ProcessRow -> bool) returns (r: Outcome)
      modifies this
      ensures r.Raised? <==> !AllObjects(items)
      ensures r.Saved? ==>
        && table == old(table) + Kept(agentId, items, py, accepts)
        && r.count == |Kept(agentId, items, py, accepts)|
        && r.count + r.skipped == |items|
    {
      ghost var others, kept := table, Kept(agentId, items[..0], py, accepts);
      var count, skipped := 0, 0;
      var i := 0;
      while i < |items|
        invariant i <= |items| && AllObjects(items[..i])
        invariant kept == Kept(agentId, items[..i], py, accepts)
        invariant table == others + kept && count == |kept|
        invariant count + skipped == i
      {
        if !items[i].Obj? {
          return Raised;
        }
        ObjectsNext(items, i);
        KeptNext(agentId, items, i, py, accepts);
        var ok;
        ok, kept := SaveNext(others, kept, agentId, items[i], py, accepts);
        if ok {
          count := count + 1;
        } else {
          skipped := skipped + 1;
        }
        i := i + 1;
      }
      assert items[..i] == items;
      return Saved(count, skipped);
    }

    /** An exception leaves the table to the rollback of the whole message. */
    method SaveProcessList(agentId: string, data: Json, py: Python, accepts: ProcessRow -> bool) returns (r: Outcome)
      modifies this
      ensures !data.Arr? || data.items == [] ==> r == Saved(0, 0) && table == old(table)
      ensures data.Arr? && data.items != [] ==>
        && (r.Raised? <==> !AllObjects(data.items))
        && (r.Saved? ==>
              && table == Others(old(table), agentId) + Kept(agentId, data.items, py, accepts)
              && r.count == |Kept(agentId, data.items, py, accepts)|
              && r.count + r.skipped == |data.items|)
    {
      if !data.Arr? || data.items == [] {
        return Saved(0, 0);
      }
      DeleteByAgent(agentId);
      r := SaveItems(agentId, data.items, py, accepts);
    }
  }

  // ---------- What is kept ----------

  lemma KeptNext(agentId: string, items: seq<Json>, i: nat, py: Python, accepts: ProcessRow -> bool)
    requires i < |items|
    ensures Kept(agentId, items[..i + 1], py, accepts)
         == Kept(agentId, items[..i], py, accepts) + KeptOne(agentId, items[i], py, accepts)
  {
    assert items[..i + 1][..i] == items[..i];
  }

  lemma {:induction false} CollectAppend(a: seq<Json>, b: seq<Json>, pick: Json -> seq<ProcessRow>)
    ensures Collect(a + b, pick) == Collect(a, pick) + Collect(b, pick)
  {
    if b == [] {
      assert a + b == a;
    } else {
      CollectAppend(a, b[..|b| - 1], pick);
      FrontAppend(a, b);
      Associative(Collect(a, pick), Collect(b[..|b| - 1], pick), pick(b[|b| - 1]));
    }
  }

  /** Items are kept or skipped one by one, in order. */
  lemma {:induction false} KeptAppend(agentId: string, a: seq<Json>, b: seq<Json>, py: Python, accepts: ProcessRow -> bool)
    ensures Kept(agentId, a + b, py, accepts) == Kept(agentId, a, py, accepts) + Kept(agentId, b, py, accepts)
  {
    CollectAppend(a, b, Keeper(agentId, py, accepts));
  }

  /** The first characters of a text, as many as the column takes. */
  predicate Cuts(column: string, text: string, width: nat) {
    column <= text && |column| == Least(|text|, width)
  }

  function Least(a: nat, b: nat): nat { if a < b then a else b }

  /** The parent is `parent_pid`, and only when that is null `ppid`. */
  predicate ReadsParent(row: ProcessRow, m: seq<Member>, py: Python) {
    var parent := if Lookup(m, "parent_pid") != Null then Lookup(m, "parent_pid") else Lookup(m, "ppid");
    match parent
    case Num(n) => row.parentPid == Some(n)
    case Str(s) => row.parentPid == py.intOf(s)
    case Bool(b) => row.parentPid == Some(if b then 1 else 0)
    case _ => row.parentPid == None
  }

  predicate ReadsName(row: ProcessRow, m: seq<Member>, py: Python) {
    var name := Lookup(m, "name");
    if name == Null then row.name == "unknown" else Cuts(row.name, Text(name, py), 128)
  }

  /** `exe`, or when that is empty `path`; the full path prefers `exe_path`, and an
      empty one is missing. */
  predicate ReadsPaths(row: ProcessRow, m: seq<Member>, py: Python) {
    var exe := if Truthy(Lookup(m, "exe")) then Lookup(m, "exe") else Lookup(m, "path");
    var full := if Truthy(Lookup(m, "exe_path")) then Lookup(m, "exe_path") else exe;
    && Cuts(row.exe, if exe == Null then "" else Text(exe, py), 512)
    && Cuts(if row.exePath.Some? then row.exePath.value else "", if full == Null then "" else Text(full, py), 512)
    && row.exePath != Some("")
  }

  /** The texts of a list are joined by spaces. */
  predicate ReadsCommand(row: ProcessRow, m: seq<Member>, py: Python) {
    var cmd := Lookup(m, "cmdline");
    Cuts(row.cmdline, if !Truthy(cmd) then "" else if cmd.Arr? then Joined(cmd.items, py) else Text(cmd, py), 1024)
  }

  predicate ReadsHash(row: ProcessRow, m: seq<Member>, py: Python) {
    var hash := Lookup(m, "hash");
    && Cuts(if row.hash.Some? then row.hash.value else "", if hash == Null then "" else Text(hash, py), 128)
    && row.hash != Some("")
  }

  /** Whatever the item, its row says what its members say, and it is suspicious
      exactly when the item says so; an item is passed over when its pid is no
      number or negative, and when the database refuses its row. */
  lemma {:induction false} KeptReads(agentId: string, m: seq<Member>, py: Python, accepts: ProcessRow -> bool)
    ensures var (kept, pid) := (KeptOne(agentId, Obj(m), py, accepts), SafeInt(Lookup(m, "pid"), py));
      && (pid.None? || pid.value < 0 ==> kept == [])
      && (pid.Some? && pid.value >= 0 && (forall row :: accepts(row)) ==> kept != [])
      && (kept != [] ==>
            var row := kept[0];
            && accepts(row) && row.agentId == agentId && pid == Some(row.pid)
            && (row.suspicious <==> Lookup(m, "is_suspicious") !in {Null, Bool(false), Num(0), Str(""), Arr([]), Obj([])})
            && ReadsParent(row, m, py) && ReadsName(row, m, py) && ReadsPaths(row, m, py)
            && ReadsCommand(row, m, py) && ReadsHash(row, m, py))
  {
  }

  predicate Fits(row: ProcessRow) {
    && row.pid >= 0
    && |row.name| <= NAME_WIDTH && |row.exe| <= PATH_WIDTH && |row.cmdline| <= CMDLINE_WIDTH
    && (row.exePath.Some? ==> 0 < |row.exePath.value| <= PATH_WIDTH)
    && (row.hash.Some? ==> 0 < |row.hash.value| <= HASH_WIDTH)
  }

  lemma {:induction false} KeptFits(agentId: string, items: seq<Json>, py: Python, accepts: ProcessRow -> bool)
    ensures forall i :: 0 <= i < |Kept(agentId, items, py, accepts)| ==>
              var row := Kept(agentId, items, py, accepts)[i];
              Fits(row) && row.agentId == agentId && accepts(row)
  {
    if items != [] {
      var n := |items| - 1;
      KeptFits(agentId, items[..n], py, accepts);
      KeptOneFits(agentId, items[n], py, accepts);
      KeptNext(agentId, items, n, py, accepts);
      assert items[..n + 1] == items;
    }
  }

  lemma KeptOneFits(agentId: string, item: Json, py: Python, accepts: ProcessRow -> bool)
    ensures forall row :: row in KeptOne(agentId, item, py, accepts) ==>
      Fits(row) && row.agentId == agentId && accepts(row)
  {
  }

  function OtherOne(row: ProcessRow, agentId: string): seq<ProcessRow> {
    if row.agentId == agentId then [] else [row]
  }

  lemma {:induction false} OthersOfAppend(a: seq<ProcessRow>, b: seq<ProcessRow>, agentId: string)
    ensures Others(a + b, agentId) == Others(a, agentId) + Others(b, agentId)
  {
    if b == [] {
      assert a + b == a;
    } else {
      var n := |b| - 1;
      OthersOfAppend(a, b[..n], agentId);
      FrontAppend(a, b);
      Associative(Others(a, agentId), Others(b[..n], agentId), OtherOne(b[n], agentId));
    }
  }

  lemma {:induction false} OthersOfOwn(rows: seq<ProcessRow>, agentId: string)
    requires forall i :: 0 <= i < |rows| ==> rows[i].agentId == agentId
    ensures Others(rows, agentId) == []
  {
    if rows != [] { OthersOfOwn(rows[..|rows|-1], agentId); }
  }

  lemma {:induction false} OthersTwice(table: seq<ProcessRow>, agentId: string)
    ensures Others(Others(table, agentId), agentId) == Others(table, agentId)
  {
    if table != [] {
      var n := |table| - 1;
      OthersTwice(table[..n], agentId);
      var last := if table[n].agentId == agentId then [] else [table[n]];
      OthersOfAppend(Others(table[..n], agentId), last, agentId);
      if last != [] {
        assert last[..0] == [];
      }
    }
  }

  lemma OthersReplace(table: seq<ProcessRow>, rows: seq<ProcessRow>, agentId: string)
    requires forall i :: 0 <= i < |rows| ==> rows[i].agentId == agentId
    ensures Others(Others(table, agentId) + rows, agentId) == Others(table, agentId)
  {
    OthersOfAppend(Others(table, agentId), rows, agentId);
    OthersTwice(table, agentId);
    OthersOfOwn(rows, agentId);
  }

  /** What a successful save makes of the table. */
  function AfterSave(table: seq<ProcessRow>, agentId: string, items: seq<Json>, py: Python, accepts: ProcessRow -> bool): seq<ProcessRow> {
    Others(table, agentId) + Kept(agentId, items, py, accepts)
  }

  /** A later list replaces an earlier one entirely. */
  lemma {:induction false} SaveReplaces(table: seq<ProcessRow>, agentId: string, first: seq<Json>, second: seq<Json>, py: Python, accepts: ProcessRow -> bool)
    ensures AfterSave(AfterSave(table, agentId, first, py, accepts), agentId, second, py, accepts)
         == AfterSave(table, agentId, second, py, accepts)
  {
    KeptFits(agentId, first, py, accepts);
    OthersReplace(table, Kept(agentId, first, py, accepts), agentId);
  }

  lemma {:induction false} OthersKeepsForeign(table: seq<ProcessRow>, agentId: string, other: string)
    requires other != agentId
    ensures Own(Others(table, agentId), other) == Own(table, other)
  {
    if table != [] {
      var n := |table| - 1;
      OthersKeepsForeign(table[..n], agentId, other);
      var last := if table[n].agentId == agentId then [] else [table[n]];
      OwnAppend(Others(table[..n], agentId), last, other);
      if last != [] { assert last[..0] == []; }
    }
  }

  function Own(table: seq<ProcessRow>, agentId: string): seq<ProcessRow> {
    if table == [] then []
    else
      var n := |table| - 1;
      Own(table[..n], agentId) + OwnOne(table[n], agentId)
  }

  function OwnOne(row: ProcessRow, agentId: string): seq<ProcessRow> {
    if row.agentId == agentId then [row] else []
  }

  lemma {:induction false} OwnAppend(a: seq<ProcessRow>, b: seq<ProcessRow>, agentId: string)
    ensures Own(a + b, agentId) == Own(a, agentId) + Own(b, agentId)
  {
    if b == [] {
      assert a + b == a;
    } else {
      var n := |b| - 1;
      OwnAppend(a, b[..n], agentId);
      FrontAppend(a, b);
      Associative(Own(a, agentId), Own(b[..n], agentId), OwnOne(b[n], agentId));
    }
  }

  lemma LastPut(rows: seq<ProcessRow>)
    requires rows != []
    ensures rows[..|rows|-1] + [rows[|rows|-1]] == rows
  {
  }

  lemma {:induction false} OwnOfAll(rows: seq<ProcessRow>, agentId: string, asked: string)
    requires forall i :: 0 <= i < |rows| ==> rows[i].agentId == agentId
    ensures Own(rows, asked) == if asked == agentId then rows else []
  {
    if rows != [] {
      var n := |rows| - 1;
      assert forall i :: 0 <= i < n ==> rows[..n][i] == rows[i];
      OwnOfAll(rows[..n], agentId, asked);
      assert rows[n].agentId == agentId;
      assert OwnOne(rows[n], asked) == if asked == agentId then [rows[n]] else [];
      LastPut(rows);
    }
  }

  lemma {:induction false} OwnOfOthers(table: seq<ProcessRow>, agentId: string)
    ensures Own(Others(table, agentId), agentId) == []
  {
    if table != [] {
      var n := |table| - 1;
      OwnOfOthers(table[..n], agentId);
      var last := if table[n].agentId == agentId then [] else [table[n]];
      OwnAppend(Others(table[..n], agentId), last, agentId);
      if last != [] { assert last[..0] == []; }
    }
  }

  /** After a save an agent's rows are exactly the kept ones, and every other
      agent's rows are what they were. */
  lemma {:induction false} SaveIsLocal(table: seq<ProcessRow>, agentId: string, items: seq<Json>, py: Python, accepts: ProcessRow -> bool, asked: string)
    ensures Own(AfterSave(table, agentId, items, py, accepts), asked)
         == if asked == agentId then Kept(agentId, items, py, accepts) else Own(table, asked)
  {
    var kept := Kept(agentId, items, py, accepts);
    OwnAppend(Others(table, agentId), kept, asked);
    KeptFits(agentId, items, py, accepts);
    OwnOfAll(kept, agentId, asked);
    if asked == agentId {
      OwnOfOthers(table, agentId);
    } else {
      OthersKeepsForeign(table, agentId, asked);
    }
  }

  // ---------- From the Windows agent to the table ----------

  /** The row a Windows process should become. */
  function WindowsRow(agentId: string, p: WindowsAgent.ProcessInfo): ProcessRow {
    ProcessRow(agentId, p.pid, Some(p.ppid), Cut(p.name, NAME_WIDTH), Cut(p.exe, PATH_WIDTH),
               NonEmpty(Cut(p.exe, PATH_WIDTH)), Cut(p.cmdline, CMDLINE_WIDTH), false, None)
  }

  function WindowsRows(agentId: string, procs: seq<WindowsAgent.ProcessInfo>): seq<ProcessRow> {
    seq(|procs|, i requires 0 <= i < |procs| => WindowsRow(agentId, procs[i]))
  }

  /** A printed process has the five fields and the flag, and no other key. */
  lemma ItemLookup(p: WindowsAgent.ProcessInfo, key: string)
    ensures Lookup(WindowsAgent.ProcessItem(p, true).members, key) ==
            if key == "pid" then Num(p.pid) else if key == "ppid" then Num(p.ppid)
            else if key == "name" then Str(p.name) else if key == "exe" then Str(p.exe)
            else if key == "cmdline" then Str(p.cmdline) else if key == "is_suspicious" then Bool(false)
            else Null
  {
    var a := [Member("pid", Num(p.pid))];
    var b := a + [Member("ppid", Num(p.ppid))];
    var c := b + [Member("name", Str(p.name))];
    var d := c + [Member("exe", Str(p.exe))];
    var e := d + [Member("cmdline", Str(p.cmdline))];
    assert WindowsAgent.ProcessItem(p, true).members == e + [Member("is_suspicious", Bool(false))];
    LookupStep([], Member("pid", Num(p.pid)), key);
    assert [] + a == a;
    LookupStep(a, Member("ppid", Num(p.ppid)), key);
    LookupStep(b, Member("name", Str(p.name)), key);
    LookupStep(c, Member("exe", Str(p.exe)), key);
    LookupStep(d, Member("cmdline", Str(p.cmdline)), key);
    LookupStep(e, Member("is_suspicious", Bool(false)), key);
  }

  lemma {:induction false} WindowsItemRow(agentId: string, p: WindowsAgent.ProcessInfo, py: Python, accepts: ProcessRow -> bool)
    ensures KeptOne(agentId, WindowsAgent.ProcessItem(p, true), py, accepts)
         == if accepts(WindowsRow(agentId, p)) then [WindowsRow(agentId, p)] else []
  {
    ItemLookup(p, "pid"); ItemLookup(p, "parent_pid"); ItemLookup(p, "ppid"); ItemLookup(p, "name");
    ItemLookup(p, "exe"); ItemLookup(p, "path"); ItemLookup(p, "exe_path"); ItemLookup(p, "cmdline");
    ItemLookup(p, "is_suspicious"); ItemLookup(p, "hash");
  }

  lemma {:induction false} KeptEach(agentId: string, items: seq<Json>, rows: seq<ProcessRow>, py: Python, accepts: ProcessRow -> bool)
    requires |items| == |rows| && forall i :: 0 <= i < |items| ==> KeptOne(agentId, items[i], py, accepts) == [rows[i]]
    ensures Kept(agentId, items, py, accepts) == rows
  {
    if items != [] {
      var n := |items| - 1;
      KeptEach(agentId, items[..n], rows[..n], py, accepts);
      assert items[..n + 1] == items;
      KeptNext(agentId, items, n, py, accepts);
      LastPut(rows);
    }
  }

  lemma {:induction false} WindowsListKept(agentId: string, procs: seq<WindowsAgent.ProcessInfo>, py: Python, accepts: ProcessRow -> bool)
    requires forall i :: 0 <= i < |procs| ==> accepts(WindowsRow(agentId, procs[i]))
    ensures Kept(agentId, WindowsAgent.ProcessItems(procs, true), py, accepts) == WindowsRows(agentId, procs)
  {
    var items, rows := WindowsAgent.ProcessItems(procs, true), WindowsRows(agentId, procs);
    forall i | 0 <= i < |procs|
      ensures KeptOne(agentId, items[i], py, accepts) == [rows[i]]
    {
      WindowsItemRow(agentId, procs[i], py, accepts);
    }
    KeptEach(agentId, items, rows, py, accepts);
  }

  /** From the processes on the host to the rows in the table: a list without
      stray control characters is read back, and if the database takes its rows
      they are one for each process, in order, with the parent and the cut texts. */
  lemma {:induction false} WindowsListStored(agentId: string, procs: seq<WindowsAgent.ProcessInfo>, now: int, py: Python, accepts: ProcessRow -> bool)
    requires WindowsAgent.CleanList(agentId, procs)
    requires forall i :: 0 <= i < |procs| ==> accepts(WindowsRow(agentId, procs[i]))
    ensures var message := Parse(Print(WindowsAgent.Message("PROCESS_LIST", WindowsAgent.ProcessListPayload(agentId, procs, now))));
            && message.Some? && message.value.Obj?
            && Lookup(message.value.members, "payload").Obj?
            && (var payload := Lookup(message.value.members, "payload").members;
                && Lookup(payload, "agent_id") == Str(agentId)
                && Lookup(payload, "processes").Arr?
                && Kept(agentId, Lookup(payload, "processes").items, py, accepts) == WindowsRows(agentId, procs))
  {
    var payload := WindowsAgent.ProcessListPayload(agentId, procs, now);
    WindowsAgent.ProcessListRoundTrip(agentId, procs, now);
    MessagePayload("PROCESS_LIST", payload);
    ListPayload(agentId, procs, now);
    WindowsListKept(agentId, procs, py, accepts);
  }

  lemma MessagePayload(kind: string, payload: seq<Member>)
    ensures Lookup(WindowsAgent.Message(kind, payload).members, "payload") == Obj(payload)
  {
  }

  lemma ListPayload(agentId: string, procs: seq<WindowsAgent.ProcessInfo>, now: int)
    ensures var payload := WindowsAgent.ProcessListPayload(agentId, procs, now);
            && Lookup(payload, "agent_id") == Str(agentId)
            && Lookup(payload, "processes") == Arr(WindowsAgent.ProcessItems(procs, true))
  {
    var items := Arr(WindowsAgent.ProcessItems(procs, true));
    var a := [Member("agent_id", Str(agentId))];
    var b := a + [Member("processes", items)];
    assert WindowsAgent.ProcessListPayload(agentId, procs, now) == b + [Member("timestamp", Num(now))];
    assert [] + a == a;
    LookupStep([], Member("agent_id", Str(agentId)), "agent_id");
    LookupStep(a, Member("processes", items), "agent_id");
    LookupStep(a, Member("processes", items), "processes");
    LookupStep(b, Member("timestamp", Num(now)), "agent_id");
    LookupStep(b, Member("timestamp", Num(now)), "processes");
  }

  // ---------- From the Python agent to the table ----------

  /** A process as the Python agent collects it. */
  datatype PythonProcess = PythonProcess(
    pid: nat, ppid: Option<nat>, name: string, exe: string, cmdline: string, cpu: Json, memory: Json, suspicious: bool)

  function PythonItem(p: PythonProcess): Json { Obj(PythonHead(p) + PythonTail(p)) }

  function PythonHead(p: PythonProcess): seq<Member> {
    [Member("pid", Num(p.pid)), Member("parent_pid", if p.ppid.Some? then Num(p.ppid.value) else Null),
     Member("name", Str(p.name)), Member("exe", Str(p.exe)), Member("exe_path", Str(p.exe))]
  }

  function PythonTail(p: PythonProcess): seq<Member> {
    [Member("path", Str(p.exe)), Member("cmdline", Str(p.cmdline)), Member("cpu_percent", p.cpu),
     Member("memory_percent", p.memory), Member("is_suspicious", Bool(p.suspicious))]
  }

  /** The row it should become. */
  function PythonRow(agentId: string, p: PythonProcess): ProcessRow {
    ProcessRow(agentId, p.pid, p.ppid, Cut(p.name, NAME_WIDTH), Cut(p.exe, PATH_WIDTH),
               NonEmpty(Cut(p.exe, PATH_WIDTH)), Cut(p.cmdline, CMDLINE_WIDTH), p.suspicious, None)
  }

  lemma FiveMembers(before: seq<Member>, m: seq<Member>, key: string)
    requires |m| == 5
    ensures Lookup(before + m, key) ==
      if m[4].key == key then m[4].value else if m[3].key == key then m[3].value
      else if m[2].key == key then m[2].value else if m[1].key == key then m[1].value
      else if m[0].key == key then m[0].value else Lookup(before, key)
  {
    var all := before + m;
    assert before + [] == before && before + m[..0] == before;
    FivePrefixes(before, m);
    LookupStep(before, m[0], key);
    LookupStep(before + m[..1], m[1], key);
    LookupStep(before + m[..2], m[2], key);
    LookupStep(before + m[..3], m[3], key);
    LookupStep(before + m[..4], m[4], key);
  }

  lemma FivePrefixes(before: seq<Member>, m: seq<Member>)
    requires |m| == 5
    ensures before + m[..1] == before + [m[0]] && before + m[..2] == before + m[..1] + [m[1]]
    ensures before + m[..3] == before + m[..2] + [m[2]] && before + m[..4] == before + m[..3] + [m[3]]
    ensures before + m == before + m[..4] + [m[4]]
  {
  }

  lemma PythonLookup(p: PythonProcess, key: string)
    ensures Lookup(PythonItem(p).members, key) ==
            if key == "pid" then Num(p.pid)
            else if key == "parent_pid" then (if p.ppid.Some? then Num(p.ppid.value) else Null)
            else if key == "name" then Str(p.name)
            else if key == "exe" || key == "exe_path" || key == "path" then Str(p.exe)
            else if key == "cmdline" then Str(p.cmdline)
            else if key == "cpu_percent" then p.cpu
            else if key == "memory_percent" then p.memory
            else if key == "is_suspicious" then Bool(p.suspicious)
            else Null
  {
    FiveMembers([], PythonHead(p), key);
    FiveMembers(PythonHead(p), PythonTail(p), key);
    assert [] + PythonHead(p) == PythonHead(p);
  }

  lemma PythonFields(p: PythonProcess)
    ensures var m := PythonItem(p).members;
      && Lookup(m, "pid") == Num(p.pid) && Lookup(m, "ppid") == Null
      && Lookup(m, "parent_pid") == (if p.ppid.Some? then Num(p.ppid.value) else Null)
      && Lookup(m, "name") == Str(p.name) && Lookup(m, "cmdline") == Str(p.cmdline)
      && Lookup(m, "exe") == Lookup(m, "exe_path") == Lookup(m, "path") == Str(p.exe)
      && Lookup(m, "is_suspicious") == Bool(p.suspicious) && Lookup(m, "hash") == Null
  {
    PythonLookup(p, "pid"); PythonLookup(p, "parent_pid"); PythonLookup(p, "ppid"); PythonLookup(p, "name");
    PythonLookup(p, "exe"); PythonLookup(p, "path"); PythonLookup(p, "exe_path"); PythonLookup(p, "cmdline");
    PythonLookup(p, "is_suspicious"); PythonLookup(p, "hash");
  }

  lemma {:induction false} PythonItemRow(agentId: string, p: PythonProcess, py: Python, accepts: ProcessRow -> bool)
    ensures KeptOne(agentId, PythonItem(p), py, accepts)
         == if accepts(PythonRow(agentId, p)) then [PythonRow(agentId, p)] else []
  {
    PythonFields(p);
    PythonRowOf(agentId, p, PythonItem(p).members, py);
  }

  lemma PythonRowOf(agentId: string, p: PythonProcess, m: seq<Member>, py: Python)
    requires Lookup(m, "pid") == Num(p.pid) && Lookup(m, "ppid") == Null
    requires Lookup(m, "parent_pid") == (if p.ppid.Some? then Num(p.ppid.value) else Null)
    requires Lookup(m, "name") == Str(p.name) && Lookup(m, "cmdline") == Str(p.cmdline)
    requires Lookup(m, "exe") == Lookup(m, "exe_path") == Lookup(m, "path") == Str(p.exe)
    requires Lookup(m, "is_suspicious") == Bool(p.suspicious) && Lookup(m, "hash") == Null
    ensures RowOf(agentId, m, py) == Some(PythonRow(agentId, p))
  {
  }

  /** A list of the Python agent becomes one row for each process, in order, if the
      database takes them. */
  lemma {:induction false} PythonListKept(agentId: string, procs: seq<PythonProcess>, py: Python, accepts: ProcessRow -> bool)
    requires forall i :: 0 <= i < |procs| ==> accepts(PythonRow(agentId, procs[i]))
    ensures var items := seq(|procs|, i requires 0 <= i < |procs| => PythonItem(procs[i]));
      var rows := seq(|procs|, i requires 0 <= i < |procs| => PythonRow(agentId, procs[i]));
      Kept(agentId, items, py, accepts) == rows
  {
    var items := seq(|procs|, i requires 0 <= i < |procs| => PythonItem(procs[i]));
    var rows := seq(|procs|, i requires 0 <= i < |procs| => PythonRow(agentId, procs[i]));
    forall i | 0 <= i < |procs|
      ensures KeptOne(agentId, items[i], py, accepts) == [rows[i]]
    {
      PythonItemRow(agentId, procs[i], py, accepts);
    }
    KeptEach(agentId, items, rows, py, accepts);
  }
}
