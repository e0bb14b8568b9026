/** The messages the Windows agent prints by hand (agent/win_agent_cpp/main.cpp),
    each proved to be the printing of a JSON value. */
module WindowsAgent {
  import opened Options
  import opened Json
  import opened Sequences

  datatype ProcessInfo = ProcessInfo(pid: nat, ppid: nat, name: string, exe: string, cmdline: string)

  datatype NetConn = NetConn(pid: nat, processName: string, srcIp: string, srcPort: int,
                             dstIp: string, dstPort: int, protocol: string)

  // ---------- The values meant ----------

  function Message(kind: string, payload: seq<Member>): Json {
    Obj([Member("type", Str(kind)), Member("payload", Obj(payload))])
  }

  function ProcessItem(p: ProcessInfo, flagged: bool): Json {
    Obj([Member("pid", Num(p.pid)), Member("ppid", Num(p.ppid)), Member("name", Str(p.name)),
         Member("exe", Str(p.exe)), Member("cmdline", Str(p.cmdline))]
        + if flagged then [Member("is_suspicious", Bool(false))] else [])
  }

  function ProcessItems(procs: seq<ProcessInfo>, flagged: bool): seq<Json> {
    seq(|procs|, i requires 0 <= i < |procs| => ProcessItem(procs[i], flagged))
  }

  function ConnItem(c: NetConn): Json {
    Obj([Member("pid", Num(c.pid)), Member("process_name", Str(c.processName)),
         Member("src_ip", Str(c.srcIp)), Member("src_port", Num(c.srcPort)),
         Member("dst_ip", Str(c.dstIp)), Member("dst_port", Num(c.dstPort)), Member("protocol", Str(c.protocol))])
  }

  function ConnItems(conns: seq<NetConn>): seq<Json> {
    seq(|conns|, i requires 0 <= i < |conns| => ConnItem(conns[i]))
  }

  function HeartbeatPayload(agentId: string, hostname: string, ip: string, mac: string): seq<Member> {
    [Member("agent_id", Str(agentId)), Member("hostname", Str(hostname)), Member("platform", Str("windows")),
     Member("ip_address", Str(ip)), Member("mac_address", Str(mac))]
  }

  function ProcessListPayload(agentId: string, procs: seq<ProcessInfo>, now: int): seq<Member> {
    [Member("agent_id", Str(agentId)), Member("processes", Arr(ProcessItems(procs, true))), Member("timestamp", Num(now))]
  }

  function TelemetryPayload(agentId: string, procs: seq<ProcessInfo>, conns: seq<NetConn>, now: int): seq<Member> {
    [Member("agent_id", Str(agentId)), Member("platform", Str("windows")),
     Member("process_list", Arr(ProcessItems(procs, false))), Member("network_connections", Arr(ConnItems(conns))),
     Member("timestamp", Num(now))]
  }

  // ---------- Growing text ----------

  predicate Plain(s: string) {
    forall i :: 0 <= i < |s| ==> s[i] !in {'"', '\\', '\n', '\r', '\t'}
  }

  lemma {:induction false} PlainIsCopied(s: string)
    requires Plain(s)
    ensures Escaped(s) == s
  {
    if s != "" {
      assert Plain(s[1..]) by { assert forall i :: 0 <= i < |s[1..]| ==> s[1..][i] == s[i+1]; }
      PlainIsCopied(s[1..]);
    }
  }

  lemma {:induction false} MembersPush(members: seq<Member>, m: Member)
    ensures PrintMembers(members + [m]) ==
            if members == [] then PrintMember(m) else PrintMembers(members) + "," + PrintMember(m)
  {
    if members == [] {
      assert [] + [m] == [m];
    } else {
      MembersPush(members[1..], m);
      assert (members + [m])[1..] == members[1..] + [m];
    }
  }

  lemma {:induction false} ItemsPush(items: seq<Json>, j: Json)
    ensures PrintItems(items + [j]) == if items == [] then Print(j) else PrintItems(items) + "," + Print(j)
  {
    if items == [] {
      assert [] + [j] == [j];
    } else {
      ItemsPush(items[1..], j);
      assert (items + [j])[1..] == items[1..] + [j];
    }
  }

  /** An object so far: its brace and its members, not yet closed. */
  function Opened(members: seq<Member>): string { "{" + PrintMembers(members) }

  function Key(k: string): string { "\"" + k + "\":" }

  lemma {:induction false} EscapedPush(s: string, c: char)
    ensures Escaped(s + [c]) == Escaped(s) + EscapedChar(c)
  {
    if s == "" {
      assert "" + [c] == [c] && [c][1..] == "";
    } else {
      EscapedPush(s[1..], c);
      assert (s + [c])[0] == s[0] && (s + [c])[1..] == s[1..] + [c];
      Associative(EscapedChar(s[0]), Escaped(s[1..]), EscapedChar(c));
    }
  }

  function Sep(members: seq<Member>): string { if members == [] then "" else "," }

  lemma Grow(members: seq<Member>, k: string, v: Json)
    requires Plain(k)
    ensures Opened(members + [Member(k, v)]) == Opened(members) + Sep(members) + Key(k) + Print(v)
  {
    PlainIsCopied(k);
    MembersPush(members, Member(k, v));
    MemberIsKeyed(k, v);
    OpenedPush(PrintMembers(members), Sep(members), Key(k), Print(v));
  }

  lemma MemberIsKeyed(k: string, v: Json)
    requires Escaped(k) == k
    ensures PrintMember(Member(k, v)) == Key(k) + Print(v)
  {
  }

  lemma OpenedPush(a: string, sep: string, key: string, v: string)
    ensures "{" + (a + sep + (key + v)) == "{" + a + sep + key + v
  {
  }

  /** The text so far: what came before the object, the object with its members
      but not its closing brace, and what is printed already of what follows. */
  function Sofar(prefix: string, members: seq<Member>, tail: string): string {
    prefix + Opened(members) + tail
  }

  /** Any placing of the separators comes to one more member. */
  lemma ValueText(prefix: string, done: seq<Member>, tail: string, before: string, k: string, v: Json, after: string)
    requires Plain(k) && tail + before == Sep(done) + Key(k)
    ensures Sofar(prefix, done, tail) + before + Print(v) + after == Sofar(prefix, done + [Member(k, v)], after)
  {
    Grow(done, k, v);
    var o, sep, key, text := Opened(done), Sep(done), Key(k), Print(v);
    Associative(prefix + o, tail, before);
    Regroup(prefix, o, sep, key, text);
  }

  lemma Regroup(prefix: string, o: string, sep: string, key: string, text: string)
    ensures prefix + o + (sep + key) + text == prefix + (o + sep + key + text)
  {
  }

  lemma StringText(prefix: string, done: seq<Member>, tail: string, before: string, k: string, s: string,
      after: string, next: string)
    requires Plain(k) && tail + before == Sep(done) + Key(k) + "\"" && after == "\"" + next
    ensures Sofar(prefix, done, tail) + before + Escaped(s) + after == Sofar(prefix, done + [Member(k, Str(s))], next)
  {
    Bracketed(prefix, done, tail, before, k, Str(s), "\"", Escaped(s), "\"", after, next);
  }

  lemma ListText(prefix: string, done: seq<Member>, tail: string, before: string, k: string, items: seq<Json>,
      after: string, next: string)
    requires Plain(k) && tail + before == Sep(done) + Key(k) + "[" && after == "]" + next
    ensures Sofar(prefix, done, tail) + before + PrintItems(items) + after == Sofar(prefix, done + [Member(k, Arr(items))], next)
  {
    Bracketed(prefix, done, tail, before, k, Arr(items), "[", PrintItems(items), "]", after, next);
  }

  lemma Bracketed(prefix: string, done: seq<Member>, tail: string, before: string, k: string, v: Json,
      open: string, inner: string, close: string, after: string, next: string)
    requires Plain(k) && |open| == 1 && |close| == 1 && Print(v) == open + inner + close
    requires tail + before == Sep(done) + Key(k) + open && after == close + next
    ensures Sofar(prefix, done, tail) + before + inner + after == Sofar(prefix, done + [Member(k, v)], next)
  {
    Grow(done, k, v);
    var o, sep, key := Opened(done), Sep(done), Key(k);
    Associative(prefix + o, tail, before);
    RegroupBracketed(prefix, o, sep, key, open, inner, close, next);
  }

  lemma RegroupBracketed(prefix: string, o: string, sep: string, key: string, open: string, inner: string,
      close: string, next: string)
    ensures prefix + o + (sep + key + open) + inner + (close + next)
         == prefix + (o + sep + key + (open + inner + close)) + next
  {
    var x := prefix + o + sep + key;
    assert prefix + o + (sep + key + open) == x + open;
    assert prefix + (o + sep + key + (open + inner + close)) == x + (open + inner + close);
    assert x + open + inner + (close + next) == x + (open + inner + close) + next;
  }

  /** What every message starts with, up to its payload. */
  function Envelope(kind: string): string { "{" + Key("type") + "\"" + kind + "\"," + Key("payload") }

  lemma EnvelopeText(kind: string, payload: seq<Member>)
    requires Plain(kind)
    ensures Sofar(Envelope(kind), payload, "}}") == Print(Message(kind, payload))
  {
    MessageOpened(kind, payload);
    EnvelopeRegroup(Key("type"), kind, Key("payload"), PrintMembers(payload));
    assert Print(Message(kind, payload)) == Opened(Message(kind, payload).members) + "}";
  }

  lemma OneOpened(m: Member)
    requires Plain(m.key)
    ensures Opened([m]) == "{" + "" + Key(m.key) + Print(m.value)
  {
    var none: seq<Member> := [];
    Grow(none, m.key, m.value);
    assert none + [m] == [m];
  }

  lemma TwoOpened(a: Member, b: Member)
    requires Plain(b.key)
    ensures Opened([a, b]) == Opened([a]) + "," + Key(b.key) + Print(b.value)
  {
    Grow([a], b.key, b.value);
    assert [a] + [b] == [a, b];
  }

  lemma MessageOpened(kind: string, payload: seq<Member>)
    requires Plain(kind)
    ensures Opened(Message(kind, payload).members)
         == "{" + "" + Key("type") + ("\"" + kind + "\"") + "," + Key("payload") + ("{" + PrintMembers(payload) + "}")
  {
    PlainIsCopied(kind);
    OneOpened(Member("type", Str(kind)));
    TwoOpened(Member("type", Str(kind)), Member("payload", Obj(payload)));
  }

  lemma EnvelopeRegroup(typeKey: string, kind: string, payloadKey: string, inner: string)
    ensures "{" + typeKey + "\"" + kind + "\"," + payloadKey + ("{" + inner) + "}}"
         == "{" + "" + typeKey + ("\"" + kind + "\"") + "," + payloadKey + ("{" + inner + "}") + "}"
  {
    var x := "{" + typeKey;
    assert x + "\"" + kind + "\"," == x + ("\"" + kind + "\"") + ",";
    var y := x + ("\"" + kind + "\"") + "," + payloadKey;
    assert y + ("{" + inner) + "}}" == y + ("{" + inner + "}") + "}";
    assert "{" + "" + typeKey == x;
  }

  // ---------- The printers ----------

  method EscapeJson(s: string) returns (out: string)
    ensures out == Escaped(s)
  {
    out := "";
    var i := 0;
    while i < |s|
      invariant i <= |s|
      invariant out == Escaped(s[..i])
    {
      EscapedPush(s[..i], s[i]);
      assert s[..i+1] == s[..i] + [s[i]];
      match s[i] {
        case '"' => out := out + "\\\"";
        case '\\' => out := out + "\\\\";
        case '\n' => out := out + "\\n";
        case '\r' => out := out + "\\r";
        case '\t' => out := out + "\\t";
        case c => out := out + [c];
      }
      i := i + 1;
    }
    assert s[..i] == s;
  }

  /** Streams a literal, an escaped string and another literal. */
  method PutString(ss: string, before: string, s: string, after: string,
      ghost prefix: string, ghost done: seq<Member>, ghost tail: string, ghost k: string, ghost next: string)
    returns (r: string)
    requires ss == Sofar(prefix, done, tail) && Plain(k)
    requires tail + before == Sep(done) + Key(k) + "\"" && after == "\"" + next
    ensures r == Sofar(prefix, done + [Member(k, Str(s))], next)
  {
    var escaped := EscapeJson(s);
    r := ss + before + escaped + after;
    StringText(prefix, done, tail, before, k, s, after, next);
  }

  /** Streams a literal, a value that needs no escapes and another literal. */
  method PutPlain(ss: string, before: string, text: string, after: string,
      ghost prefix: string, ghost done: seq<Member>, ghost tail: string, ghost k: string, ghost v: Json)
    returns (r: string)
    requires ss == Sofar(prefix, done, tail) && Plain(k)
    requires tail + before == Sep(done) + Key(k) && text == Print(v)
    ensures r == Sofar(prefix, done + [Member(k, v)], after)
  {
    r := ss + before + text + after;
    ValueText(prefix, done, tail, before, k, v, after);
  }

  lemma ObjectEnds(prefix: string, members: seq<Member>)
    ensures Sofar(prefix, members, "}") == prefix + Print(Obj(members))
  {
    Associative(prefix, Opened(members), "}");
  }

  method PutPid(ss: string, pid: nat) returns (r: string)
    ensures r == Sofar(ss, [Member("pid", Num(pid))], "")
  {
    ghost var none: seq<Member> := [];
    r := ss + "{";
    assert r == Sofar(ss, none, "");
    r := PutPlain(r, "\"pid\":", Decimal(pid), "", ss, none, "", "pid", Num(pid));
    assert none + [Member("pid", Num(pid))] == [Member("pid", Num(pid))];
  }

  method PutIds(ss: string, p: ProcessInfo) returns (r: string)
    ensures r == Sofar(ss, [Member("pid", Num(p.pid)), Member("ppid", Num(p.ppid))], "")
  {
    ghost var a, b := Member("pid", Num(p.pid)), Member("ppid", Num(p.ppid));
    r := PutPid(ss, p.pid);
    assert [a] + [b] == [a, b];
    r := PutPlain(r, ",\"ppid\":", Decimal(p.ppid), "", ss, [a], "", "ppid", Num(p.ppid));
  }

  method PutNames(ss: string, p: ProcessInfo, ghost prefix: string, ghost done: seq<Member>) returns (r: string)
    requires done != [] && ss == Sofar(prefix, done, "")
    ensures r == Sofar(prefix, done + [Member("name", Str(p.name))] + [Member("exe", Str(p.exe))], "")
  {
    r := PutString(ss, ",\"name\":\"", p.name, "\"", prefix, done, "", "name", "");
    r := PutString(r, ",\"exe\":\"", p.exe, "\"", prefix, done + [Member("name", Str(p.name))], "", "exe", "");
  }

  method PutFlag(ss: string, ghost prefix: string, ghost done: seq<Member>) returns (r: string)
    requires done != [] && ss == Sofar(prefix, done, "")
    ensures r == Sofar(prefix, done + [Member("is_suspicious", Bool(false))], "}")
  {
    r := PutPlain(ss, ",\"is_suspicious\":", "false", "}", prefix, done, "", "is_suspicious", Bool(false));
  }

  method PutCommand(ss: string, p: ProcessInfo, flagged: bool, ghost prefix: string, ghost done: seq<Member>)
    returns (r: string)
    requires done != [] && ss == Sofar(prefix, done, "")
    ensures r == Sofar(prefix, done + [Member("cmdline", Str(p.cmdline))]
                               + (if flagged then [Member("is_suspicious", Bool(false))] else []), "}")
  {
    if flagged {
      r := PutString(ss, ",\"cmdline\":\"", p.cmdline, "\"", prefix, done, "", "cmdline", "");
      r := PutFlag(r, prefix, done + [Member("cmdline", Str(p.cmdline))]);
    } else {
      r := PutString(ss, ",\"cmdline\":\"", p.cmdline, "\"}", prefix, done, "", "cmdline", "}");
      assert done + [Member("cmdline", Str(p.cmdline))] + [] == done + [Member("cmdline", Str(p.cmdline))];
    }
  }

  /** One process of a list; only a process list flags it. */
  method AppendProcess(ss: string, p: ProcessInfo, flagged: bool) returns (r: string)
    ensures r == ss + Print(ProcessItem(p, flagged))
  {
    ghost var ids := [Member("pid", Num(p.pid)), Member("ppid", Num(p.ppid))];
    ghost var named := ids + [Member("name", Str(p.name))] + [Member("exe", Str(p.exe))];
    r := PutIds(ss, p);
    r := PutNames(r, p, ss, ids);
    r := PutCommand(r, p, flagged, ss, named);
    ghost var all := named + [Member("cmdline", Str(p.cmdline))]
                     + if flagged then [Member("is_suspicious", Bool(false))] else [];
    ObjectEnds(ss, all);
    assert Obj(all) == ProcessItem(p, flagged);
  }

  method PutSource(ss: string, c: NetConn) returns (r: string)
    ensures r == Sofar(ss, [Member("pid", Num(c.pid)), Member("process_name", Str(c.processName))], "")
  {
    ghost var a, b := Member("pid", Num(c.pid)), Member("process_name", Str(c.processName));
    r := PutPid(ss, c.pid);
    assert [a] + [b] == [a, b];
    r := PutString(r, ",\"process_name\":\"", c.processName, "\"", ss, [a], "", "process_name", "");
  }

  method PutFrom(ss: string, c: NetConn, ghost prefix: string, ghost done: seq<Member>) returns (r: string)
    requires done != [] && ss == Sofar(prefix, done, "")
    ensures r == Sofar(prefix, done + [Member("src_ip", Str(c.srcIp))] + [Member("src_port", Num(c.srcPort))], "")
  {
    r := PutString(ss, ",\"src_ip\":\"", c.srcIp, "\"", prefix, done, "", "src_ip", "");
    r := PutPlain(r, ",\"src_port\":", Decimal(c.srcPort), "", prefix, done + [Member("src_ip", Str(c.srcIp))], "",
                  "src_port", Num(c.srcPort));
  }

  method PutTo(ss: string, c: NetConn, ghost prefix: string, ghost done: seq<Member>) returns (r: string)
    requires done != [] && ss == Sofar(prefix, done, "")
    ensures r == Sofar(prefix, done + [Member("dst_ip", Str(c.dstIp))] + [Member("dst_port", Num(c.dstPort))], "")
  {
    r := PutString(ss, ",\"dst_ip\":\"", c.dstIp, "\"", prefix, done, "", "dst_ip", "");
    r := PutPlain(r, ",\"dst_port\":", Decimal(c.dstPort), "", prefix, done + [Member("dst_ip", Str(c.dstIp))], "",
                  "dst_port", Num(c.dstPort));
  }

  method PutProtocol(ss: string, c: NetConn, ghost prefix: string, ghost done: seq<Member>) returns (r: string)
    requires done != [] && ss == Sofar(prefix, done, "")
    ensures r == Sofar(prefix, done + [Member("protocol", Str(c.protocol))], "}")
  {
    r := PutString(ss, ",\"protocol\":\"", c.protocol, "\"}", prefix, done, "", "protocol", "}");
  }

  method AppendConn(ss: string, c: NetConn) returns (r: string)
    ensures r == ss + Print(ConnItem(c))
  {
    ghost var source := [Member("pid", Num(c.pid)), Member("process_name", Str(c.processName))];
    ghost var from := source + [Member("src_ip", Str(c.srcIp))] + [Member("src_port", Num(c.srcPort))];
    ghost var to := from + [Member("dst_ip", Str(c.dstIp))] + [Member("dst_port", Num(c.dstPort))];
    r := PutSource(ss, c);
    r := PutFrom(r, c, ss, source);
    r := PutTo(r, c, ss, from);
    r := PutProtocol(r, c, ss, to);
    ObjectEnds(ss, to + [Member("protocol", Str(c.protocol))]);
    assert Obj(to + [Member("protocol", Str(c.protocol))]) == ConnItem(c);
  }

  /** The text after one more item of a list. */
  lemma ItemText(start: string, items: seq<Json>, i: nat)
    requires i < |items|
    ensures start + PrintItems(items[..i + 1])
         == if i > 0 then start + PrintItems(items[..i]) + "," + Print(items[i]) else start + PrintItems(items[..i]) + Print(items[i])
  {
    assert items[..i + 1] == items[..i] + [items[i]];
    ItemsPush(items[..i], items[i]);
    ThreeParts(start, PrintItems(items[..i]), ",", Print(items[i]));
  }

  lemma ThreeParts(start: string, a: string, sep: string, b: string)
    ensures start + (a + sep + b) == start + a + sep + b
    ensures a == "" ==> start + a + b == start + b
  {
  }

  method AppendProcesses(ss: string, procs: seq<ProcessInfo>, flagged: bool) returns (r: string)
    ensures r == ss + PrintItems(ProcessItems(procs, flagged))
  {
    ghost var items := ProcessItems(procs, flagged);
    r := ss;
    for i := 0 to |procs|
      invariant r == ss + PrintItems(items[..i])
    {
      ItemText(ss, items, i);
      if i > 0 {
        r := r + ",";
      }
      r := AppendProcess(r, procs[i], flagged);
    }
    assert items[..|procs|] == items;
  }

  method AppendConns(ss: string, conns: seq<NetConn>) returns (r: string)
    ensures r == ss + PrintItems(ConnItems(conns))
  {
    ghost var items := ConnItems(conns);
    r := ss;
    for i := 0 to |conns|
      invariant r == ss + PrintItems(items[..i])
    {
      ItemText(ss, items, i);
      if i > 0 {
        r := r + ",";
      }
      r := AppendConn(r, conns[i]);
    }
    assert items[..|conns|] == items;
  }

  lemma HeartbeatStarts()
    ensures "{\"type\":\"HEARTBEAT\",\"payload\":{" == Sofar(Envelope("HEARTBEAT"), [], "")
  {
  }

  method PutAgent(ss: string, agentId: string, ghost prefix: string) returns (r: string)
    requires ss == Sofar(prefix, [], "")
    ensures r == Sofar(prefix, [Member("agent_id", Str(agentId))], ",")
  {
    ghost var none: seq<Member> := [];
    r := PutString(ss, "\"agent_id\":\"", agentId, "\",", prefix, none, "", "agent_id", ",");
    assert none + [Member("agent_id", Str(agentId))] == [Member("agent_id", Str(agentId))];
  }

  method PutHostname(ss: string, hostname: string, ghost prefix: string, ghost done: seq<Member>) returns (r: string)
    requires done != [] && ss == Sofar(prefix, done, ",")
    ensures r == Sofar(prefix, done + [Member("hostname", Str(hostname))], ",")
  {
    r := PutString(ss, "\"hostname\":\"", hostname, "\",", prefix, done, ",", "hostname", ",");
  }

  /** Streams a string that needs no escapes. */
  method PutConstant(ss: string, before: string, s: string, after: string,
      ghost prefix: string, ghost done: seq<Member>, ghost tail: string, ghost k: string, ghost next: string)
    returns (r: string)
    requires ss == Sofar(prefix, done, tail) && Plain(k) && Plain(s)
    requires tail + before == Sep(done) + Key(k) + "\"" && after == "\"" + next
    ensures r == Sofar(prefix, done + [Member(k, Str(s))], next)
  {
    PlainIsCopied(s);
    r := ss + before + s + after;
    StringText(prefix, done, tail, before, k, s, after, next);
  }

  method PutPlatform(ss: string, ghost prefix: string, ghost done: seq<Member>) returns (r: string)
    requires done != [] && ss == Sofar(prefix, done, ",")
    ensures r == Sofar(prefix, done + [Member("platform", Str("windows"))], ",")
  {
    r := PutConstant(ss, "\"platform\":\"", "windows", "\",", prefix, done, ",", "platform", ",");
  }

  method PutAddresses(ss: string, ip: string, mac: string, ghost prefix: string, ghost done: seq<Member>) returns (r: string)
    requires done != [] && ss == Sofar(prefix, done, ",")
    ensures r == Sofar(prefix, done + [Member("ip_address", Str(ip))] + [Member("mac_address", Str(mac))], "}}")
  {
    r := PutString(ss, "\"ip_address\":\"", ip, "\",", prefix, done, ",", "ip_address", ",");
    r := PutString(r, "\"mac_address\":\"", mac, "\"}}", prefix, done + [Member("ip_address", Str(ip))], ",",
                   "mac_address", "}}");
  }

  method BuildHeartbeat(agentId: string, hostname: string, ip: string, mac: string) returns (ss: string)
    ensures ss == Print(Message("HEARTBEAT", HeartbeatPayload(agentId, hostname, ip, mac)))
  {
    ghost var prefix := Envelope("HEARTBEAT");
    ghost var agent := [Member("agent_id", Str(agentId))];
    ghost var host := agent + [Member("hostname", Str(hostname))];
    ghost var platform := host + [Member("platform", Str("windows"))];
    HeartbeatStarts();
    ss := "{\"type\":\"HEARTBEAT\",\"payload\":{";
    ss := PutAgent(ss, agentId, prefix);
    ss := PutHostname(ss, hostname, prefix, agent);
    ss := PutPlatform(ss, prefix, host);
    ss := PutAddresses(ss, ip, mac, prefix, platform);
    ghost var all := platform + [Member("ip_address", Str(ip))] + [Member("mac_address", Str(mac))];
    assert all == HeartbeatPayload(agentId, hostname, ip, mac);
    EnvelopeText("HEARTBEAT", all);
  }

  lemma ProcessListStarts()
    ensures "{\"type\":\"PROCESS_LIST\",\"payload\":{" == Sofar(Envelope("PROCESS_LIST"), [], "")
  {
  }

  method PutTimestamp(ss: string, now: int, ghost prefix: string, ghost done: seq<Member>) returns (r: string)
    requires done != [] && ss == Sofar(prefix, done, "")
    ensures r == Sofar(prefix, done + [Member("timestamp", Num(now))], "}}")
  {
    r := PutPlain(ss, ",\"timestamp\":", Decimal(now), "}}", prefix, done, "", "timestamp", Num(now));
  }

  /** Streams a list of processes between the literals that open and close it. */
  method PutProcesses(ss: string, before: string, procs: seq<ProcessInfo>, flagged: bool,
      ghost prefix: string, ghost done: seq<Member>, ghost k: string) returns (r: string)
    requires ss == Sofar(prefix, done, ",") && Plain(k) && "," + before == Sep(done) + Key(k) + "["
    ensures r == Sofar(prefix, done + [Member(k, Arr(ProcessItems(procs, flagged)))], "")
  {
    r := AppendProcesses(ss + before, procs, flagged);
    r := r + "]";
    ListText(prefix, done, ",", before, k, ProcessItems(procs, flagged), "]", "");
  }

  method PutConns(ss: string, before: string, conns: seq<NetConn>, ghost prefix: string, ghost done: seq<Member>, ghost k: string)
    returns (r: string)
    requires ss == Sofar(prefix, done, "") && Plain(k) && before == Sep(done) + Key(k) + "["
    ensures r == Sofar(prefix, done + [Member(k, Arr(ConnItems(conns)))], "")
  {
    r := AppendConns(ss + before, conns);
    r := r + "]";
    assert "" + before == before;
    ListText(prefix, done, "", before, k, ConnItems(conns), "]", "");
  }

  lemma ConnectionsKey()
    ensures ",\"network_connections\":[" == "," + Key("network_connections") + "[" && Plain("network_connections")
  {
  }

  method BuildProcessList(agentId: string, procs: seq<ProcessInfo>, now: int) returns (ss: string)
    ensures ss == Print(Message("PROCESS_LIST", ProcessListPayload(agentId, procs, now)))
  {
    ghost var prefix := Envelope("PROCESS_LIST");
    ghost var agent := [Member("agent_id", Str(agentId))];
    ghost var listed := agent + [Member("processes", Arr(ProcessItems(procs, true)))];
    ProcessListStarts();
    ss := "{\"type\":\"PROCESS_LIST\",\"payload\":{";
    ss := PutAgent(ss, agentId, prefix);
    ss := PutProcesses(ss, "\"processes\":[", procs, true, prefix, agent, "processes");
    ss := PutTimestamp(ss, now, prefix, listed);
    assert listed + [Member("timestamp", Num(now))] == ProcessListPayload(agentId, procs, now);
    EnvelopeText("PROCESS_LIST", ProcessListPayload(agentId, procs, now));
  }

  lemma TelemetryStarts()
    ensures "{\"type\":\"TELEMETRY_RISK\",\"payload\":{" == Sofar(Envelope("TELEMETRY_RISK"), [], "")
  {
  }

  method BuildTelemetry(agentId: string, procs: seq<ProcessInfo>, conns: seq<NetConn>, now: int) returns (ss: string)
    ensures ss == Print(Message("TELEMETRY_RISK", TelemetryPayload(agentId, procs, conns, now)))
  {
    ghost var prefix := Envelope("TELEMETRY_RISK");
    ghost var agent := [Member("agent_id", Str(agentId))];
    ghost var platform := agent + [Member("platform", Str("windows"))];
    ghost var listed := platform + [Member("process_list", Arr(ProcessItems(procs, false)))];
    ghost var connected := listed + [Member("network_connections", Arr(ConnItems(conns)))];
    TelemetryStarts();
    ss := "{\"type\":\"TELEMETRY_RISK\",\"payload\":{";
    ss := PutAgent(ss, agentId, prefix);
    ss := PutPlatform(ss, prefix, agent);
    ss := PutProcesses(ss, "\"process_list\":[", procs, false, prefix, platform, "process_list");
    ConnectionsKey();
    ss := PutConns(ss, ",\"network_connections\":[", conns, prefix, listed, "network_connections");
    ss := PutTimestamp(ss, now, prefix, connected);
    assert connected + [Member("timestamp", Num(now))] == TelemetryPayload(agentId, procs, conns, now);
    EnvelopeText("TELEMETRY_RISK", TelemetryPayload(agentId, procs, conns, now));
  }

  // ---------- What the manager reads ----------

  predicate CleanProcess(p: ProcessInfo) {
    CleanString(p.name) && CleanString(p.exe) && CleanString(p.cmdline)
  }

  lemma CleanPush(members: seq<Member>, k: string, v: Json)
    requires CleanString(k)
    ensures CleanMembers(members + [Member(k, v)]) <==> CleanMembers(members) && Clean(v)
  {
    var all := members + [Member(k, v)];
    assert forall i :: 0 <= i < |members| ==> all[i] == members[i];
    assert all[|members|] == Member(k, v);
  }

  lemma KeysClean()
    ensures CleanString("pid") && CleanString("ppid") && CleanString("name") && CleanString("exe")
    ensures CleanString("cmdline") && CleanString("is_suspicious")
  {
  }

  function ProcessHead(p: ProcessInfo): seq<Member> {
    [Member("pid", Num(p.pid)), Member("ppid", Num(p.ppid)), Member("name", Str(p.name))]
  }

  lemma ProcessHeadClean(p: ProcessInfo)
    ensures CleanMembers(ProcessHead(p)) <==> CleanString(p.name)
  {
    KeysClean();
    var ms := ProcessHead(p);
    assert Clean(ms[0].value) && Clean(ms[1].value);
    assert Clean(ms[2].value) <==> CleanString(p.name);
  }

  lemma ProcessItemClean(p: ProcessInfo, flagged: bool)
    ensures Clean(ProcessItem(p, flagged)) <==> CleanProcess(p)
  {
    KeysClean();
    ProcessHeadClean(p);
    var c := ProcessHead(p);
    CleanPush(c, "exe", Str(p.exe));
    var d := c + [Member("exe", Str(p.exe))];
    CleanPush(d, "cmdline", Str(p.cmdline));
    var e := d + [Member("cmdline", Str(p.cmdline))];
    CleanPush(e, "is_suspicious", Bool(false));
    assert ProcessItem(p, flagged).members == if flagged then e + [Member("is_suspicious", Bool(false))] else e;
  }

  lemma ProcessItemsClean(procs: seq<ProcessInfo>, flagged: bool)
    ensures CleanItems(ProcessItems(procs, flagged)) <==> forall i :: 0 <= i < |procs| ==> CleanProcess(procs[i])
  {
    var items := ProcessItems(procs, flagged);
    forall i | 0 <= i < |procs| ensures Clean(items[i]) <==> CleanProcess(procs[i]) {
      ProcessItemClean(procs[i], flagged);
    }
  }

  predicate CleanConn(c: NetConn) {
    CleanString(c.processName) && CleanString(c.srcIp) && CleanString(c.dstIp) && CleanString(c.protocol)
  }

  lemma ConnKeysClean()
    ensures CleanString("pid") && CleanString("process_name") && CleanString("src_ip") && CleanString("src_port")
    ensures CleanString("dst_ip") && CleanString("dst_port") && CleanString("protocol")
  {
  }

  function SourceMembers(c: NetConn): seq<Member> {
    [Member("pid", Num(c.pid)), Member("process_name", Str(c.processName)),
     Member("src_ip", Str(c.srcIp)), Member("src_port", Num(c.srcPort))]
  }

  lemma SourceClean(c: NetConn)
    ensures CleanMembers(SourceMembers(c)) <==> CleanString(c.processName) && CleanString(c.srcIp)
  {
    ConnKeysClean();
    var ms := SourceMembers(c);
    assert Clean(ms[0].value) && Clean(ms[3].value);
    assert Clean(ms[1].value) <==> CleanString(c.processName);
    assert Clean(ms[2].value) <==> CleanString(c.srcIp);
  }

  lemma ConnItemClean(c: NetConn)
    ensures Clean(ConnItem(c)) <==> CleanConn(c)
  {
    ConnKeysClean();
    SourceClean(c);
    var m4 := SourceMembers(c);
    CleanPush(m4, "dst_ip", Str(c.dstIp));
    var m5 := m4 + [Member("dst_ip", Str(c.dstIp))];
    CleanPush(m5, "dst_port", Num(c.dstPort));
    var m6 := m5 + [Member("dst_port", Num(c.dstPort))];
    CleanPush(m6, "protocol", Str(c.protocol));
    assert ConnItem(c).members == m6 + [Member("protocol", Str(c.protocol))];
  }

  lemma ConnItemsClean(conns: seq<NetConn>)
    ensures CleanItems(ConnItems(conns)) <==> forall i :: 0 <= i < |conns| ==> CleanConn(conns[i])
  {
    var items := ConnItems(conns);
    forall i | 0 <= i < |conns|
      ensures Clean(items[i]) <==> CleanConn(conns[i])
    {
      ConnItemClean(conns[i]);
    }
  }

  lemma MessageClean(kind: string, payload: seq<Member>)
    requires CleanString(kind)
    ensures Clean(Message(kind, payload)) <==> CleanMembers(payload)
  {
    var ms := Message(kind, payload).members;
    assert CleanString("type") && CleanString("payload");
    assert Clean(ms[0].value);
    assert Clean(ms[1].value) <==> CleanMembers(payload);
  }

  predicate CleanList(agentId: string, procs: seq<ProcessInfo>) {
    CleanString(agentId) && forall i :: 0 <= i < |procs| ==> CleanProcess(procs[i])
  }

  lemma ListPayloadClean(agentId: string, procs: seq<ProcessInfo>, now: int)
    ensures CleanMembers(ProcessListPayload(agentId, procs, now)) <==> CleanList(agentId, procs)
  {
    var payload := ProcessListPayload(agentId, procs, now);
    ProcessItemsClean(procs, true);
    assert CleanString("agent_id") && CleanString("processes") && CleanString("timestamp");
    assert payload[0].value == Str(agentId) && payload[1].value == Arr(ProcessItems(procs, true));
  }

  /** The manager reads back the very list the agent had exactly when none of its
      strings holds a control character other than newline, return and tab; with
      one, the whole message is refused. */
  lemma {:induction false} ProcessListRoundTrip(agentId: string, procs: seq<ProcessInfo>, now: int)
    ensures var m := Message("PROCESS_LIST", ProcessListPayload(agentId, procs, now));
            Parse(Print(m)) == if CleanList(agentId, procs) then Some(m) else None
  {
    var payload := ProcessListPayload(agentId, procs, now);
    assert CleanString("PROCESS_LIST");
    MessageRoundTrip("PROCESS_LIST", payload);
    ListPayloadClean(agentId, procs, now);
  }

  lemma MessageRoundTrip(kind: string, payload: seq<Member>)
    requires CleanString(kind)
    ensures var m := Message(kind, payload);
            Parse(Print(m)) == if CleanMembers(payload) then Some(m) else None
  {
    ParsePrint(Message(kind, payload));
    MessageClean(kind, payload);
  }

  lemma HeartbeatPayloadClean(agentId: string, hostname: string, ip: string, mac: string)
    ensures CleanMembers(HeartbeatPayload(agentId, hostname, ip, mac)) <==>
            CleanString(agentId) && CleanString(hostname) && CleanString(ip) && CleanString(mac)
  {
    var payload := HeartbeatPayload(agentId, hostname, ip, mac);
    assert CleanString("agent_id") && CleanString("hostname") && CleanString("platform") && CleanString("windows");
    assert CleanString("ip_address") && CleanString("mac_address");
    assert payload[0].value == Str(agentId) && payload[1].value == Str(hostname);
    assert payload[3].value == Str(ip) && payload[4].value == Str(mac);
  }

  lemma {:induction false} HeartbeatRoundTrip(agentId: string, hostname: string, ip: string, mac: string)
    ensures var m := Message("HEARTBEAT", HeartbeatPayload(agentId, hostname, ip, mac));
            Parse(Print(m)) ==
            if CleanString(agentId) && CleanString(hostname) && CleanString(ip) && CleanString(mac) then Some(m) else None
  {
    assert CleanString("HEARTBEAT");
    MessageRoundTrip("HEARTBEAT", HeartbeatPayload(agentId, hostname, ip, mac));
    HeartbeatPayloadClean(agentId, hostname, ip, mac);
  }

  lemma PayloadKeysClean()
    ensures CleanString("agent_id") && CleanString("platform") && CleanString("windows") && CleanString("timestamp")
    ensures CleanString("process_list") && CleanString("network_connections")
  {
  }

  function TelemetryHead(agentId: string): seq<Member> {
    [Member("agent_id", Str(agentId)), Member("platform", Str("windows"))]
  }

  lemma TelemetryHeadClean(agentId: string)
    ensures CleanMembers(TelemetryHead(agentId)) <==> CleanString(agentId)
  {
    PayloadKeysClean();
    var ms := TelemetryHead(agentId);
    assert Clean(ms[0].value) <==> CleanString(agentId);
    assert Clean(ms[1].value);
  }

  lemma TelemetryTailClean(head: seq<Member>, processes: Json, connections: Json, now: int)
    ensures CleanMembers(head + [Member("process_list", processes)] + [Member("network_connections", connections)]
                         + [Member("timestamp", Num(now))])
      <==> CleanMembers(head) && Clean(processes) && Clean(connections)
  {
    PayloadKeysClean();
    CleanPush(head, "process_list", processes);
    var a := head + [Member("process_list", processes)];
    CleanPush(a, "network_connections", connections);
    CleanPush(a + [Member("network_connections", connections)], "timestamp", Num(now));
  }

  lemma TelemetryPayloadClean(agentId: string, procs: seq<ProcessInfo>, conns: seq<NetConn>, now: int)
    ensures CleanMembers(TelemetryPayload(agentId, procs, conns, now)) <==>
            CleanList(agentId, procs) && forall i :: 0 <= i < |conns| ==> CleanConn(conns[i])
  {
    ProcessItemsClean(procs, false);
    ConnItemsClean(conns);
    TelemetryHeadClean(agentId);
    var processes, connections := Arr(ProcessItems(procs, false)), Arr(ConnItems(conns));
    TelemetryTailClean(TelemetryHead(agentId), processes, connections, now);
    assert TelemetryPayload(agentId, procs, conns, now)
        == TelemetryHead(agentId) + [Member("process_list", processes)] + [Member("network_connections", connections)]
           + [Member("timestamp", Num(now))];
  }

  lemma {:induction false} TelemetryRoundTrip(agentId: string, procs: seq<ProcessInfo>, conns: seq<NetConn>, now: int)
    ensures var m := Message("TELEMETRY_RISK", TelemetryPayload(agentId, procs, conns, now));
            Parse(Print(m)) ==
            if CleanList(agentId, procs) && (forall i :: 0 <= i < |conns| ==> CleanConn(conns[i])) then Some(m) else None
  {
    assert CleanString("TELEMETRY_RISK");
    MessageRoundTrip("TELEMETRY_RISK", TelemetryPayload(agentId, procs, conns, now));
    TelemetryPayloadClean(agentId, procs, conns, now);
  }

  // ---------- The same, field by field ----------

  predicate ReadsProcess(j: Json, p: ProcessInfo, flagged: bool) {
    && j.Obj?
    && Lookup(j.members, "pid") == Num(p.pid) && Lookup(j.members, "ppid") == Num(p.ppid)
    && Lookup(j.members, "name") == Str(p.name) && Lookup(j.members, "exe") == Str(p.exe)
    && Lookup(j.members, "cmdline") == Str(p.cmdline)
    && Lookup(j.members, "is_suspicious") == if flagged then Bool(false) else Null
  }

  predicate ReadsProcesses(j: Json, procs: seq<ProcessInfo>, flagged: bool) {
    j.Arr? && |j.items| == |procs| && forall i :: 0 <= i < |procs| ==> ReadsProcess(j.items[i], procs[i], flagged)
  }

  predicate ReadsConn(j: Json, c: NetConn) {
    && j.Obj?
    && Lookup(j.members, "pid") == Num(c.pid) && Lookup(j.members, "process_name") == Str(c.processName)
    && Lookup(j.members, "src_ip") == Str(c.srcIp) && Lookup(j.members, "src_port") == Num(c.srcPort)
    && Lookup(j.members, "dst_ip") == Str(c.dstIp) && Lookup(j.members, "dst_port") == Num(c.dstPort)
    && Lookup(j.members, "protocol") == Str(c.protocol)
  }

  predicate ReadsConns(j: Json, conns: seq<NetConn>) {
    j.Arr? && |j.items| == |conns| && forall i :: 0 <= i < |conns| ==> ReadsConn(j.items[i], conns[i])
  }

  lemma ProcessReads(p: ProcessInfo, flagged: bool)
    ensures ReadsProcess(ProcessItem(p, flagged), p, flagged)
  {
    var m := ProcessItem(p, flagged).members;
    assert DistinctKeys(m);
    LookupAt(m, 0); LookupAt(m, 1); LookupAt(m, 2); LookupAt(m, 3); LookupAt(m, 4);
    if flagged {
      LookupAt(m, 5);
    } else {
      LookupMissing(m, "is_suspicious");
    }
  }

  lemma ConnReads(c: NetConn)
    ensures ReadsConn(ConnItem(c), c)
  {
    var m := ConnItem(c).members;
    assert DistinctKeys(m);
    LookupAt(m, 0); LookupAt(m, 1); LookupAt(m, 2); LookupAt(m, 3); LookupAt(m, 4); LookupAt(m, 5); LookupAt(m, 6);
  }

  lemma ListsRead(procs: seq<ProcessInfo>, flagged: bool, conns: seq<NetConn>)
    ensures ReadsProcesses(Arr(ProcessItems(procs, flagged)), procs, flagged) && ReadsConns(Arr(ConnItems(conns)), conns)
  {
    forall i | 0 <= i < |procs|
      ensures ReadsProcess(ProcessItems(procs, flagged)[i], procs[i], flagged)
    {
      ProcessReads(procs[i], flagged);
    }
    forall i | 0 <= i < |conns|
      ensures ReadsConn(ConnItems(conns)[i], conns[i])
    {
      ConnReads(conns[i]);
    }
  }

  /** The text is a message of the kind, and this is what it carries. */
  function Carried(text: string, kind: string): Option<seq<Member>> {
    var j := Parse(text);
    if j.None? || !j.value.Obj? || Lookup(j.value.members, "type") != Str(kind) then None
    else
      var payload := Lookup(j.value.members, "payload");
      if payload.Obj? then Some(payload.members) else None
  }

  lemma MessageCarries(text: string, kind: string, payload: seq<Member>)
    requires Parse(text) == Some(Message(kind, payload))
    ensures Carried(text, kind) == Some(payload)
  {
    var m := Message(kind, payload).members;
    assert DistinctKeys(m);
    LookupAt(m, 0); LookupAt(m, 1);
  }

  predicate ReadsHeartbeat(text: string, agentId: string, hostname: string, ip: string, mac: string) {
    var payload := Carried(text, "HEARTBEAT");
    && payload.Some?
    && Lookup(payload.value, "agent_id") == Str(agentId) && Lookup(payload.value, "hostname") == Str(hostname)
    && Lookup(payload.value, "platform") == Str("windows")
    && Lookup(payload.value, "ip_address") == Str(ip) && Lookup(payload.value, "mac_address") == Str(mac)
  }

  predicate ReadsProcessList(text: string, agentId: string, procs: seq<ProcessInfo>, now: int) {
    var payload := Carried(text, "PROCESS_LIST");
    && payload.Some?
    && Lookup(payload.value, "agent_id") == Str(agentId) && Lookup(payload.value, "timestamp") == Num(now)
    && ReadsProcesses(Lookup(payload.value, "processes"), procs, true)
  }

  predicate ReadsTelemetry(text: string, agentId: string, procs: seq<ProcessInfo>, conns: seq<NetConn>, now: int) {
    var payload := Carried(text, "TELEMETRY_RISK");
    && payload.Some?
    && Lookup(payload.value, "agent_id") == Str(agentId) && Lookup(payload.value, "platform") == Str("windows")
    && Lookup(payload.value, "timestamp") == Num(now)
    && ReadsProcesses(Lookup(payload.value, "process_list"), procs, false)
    && ReadsConns(Lookup(payload.value, "network_connections"), conns)
  }

  /** What the manager reads under each key of a message is what the agent put
      there, exactly when its strings are clean; otherwise it reads no message. */
  lemma {:induction false} HeartbeatReadExactlyWhen(agentId: string, hostname: string, ip: string, mac: string)
    ensures var text := Print(Message("HEARTBEAT", HeartbeatPayload(agentId, hostname, ip, mac)));
      var clean := CleanString(agentId) && CleanString(hostname) && CleanString(ip) && CleanString(mac);
      && (ReadsHeartbeat(text, agentId, hostname, ip, mac) <==> clean)
      && (Carried(text, "HEARTBEAT").None? <==> !clean)
  {
    var m := HeartbeatPayload(agentId, hostname, ip, mac);
    HeartbeatRoundTrip(agentId, hostname, ip, mac);
    if CleanString(agentId) && CleanString(hostname) && CleanString(ip) && CleanString(mac) {
      MessageCarries(Print(Message("HEARTBEAT", m)), "HEARTBEAT", m);
      assert DistinctKeys(m);
      LookupAt(m, 0); LookupAt(m, 1); LookupAt(m, 2); LookupAt(m, 3); LookupAt(m, 4);
    }
  }

  lemma {:induction false} ProcessListReadExactlyWhen(agentId: string, procs: seq<ProcessInfo>, now: int)
    ensures var text := Print(Message("PROCESS_LIST", ProcessListPayload(agentId, procs, now)));
      && (ReadsProcessList(text, agentId, procs, now) <==> CleanList(agentId, procs))
      && (Carried(text, "PROCESS_LIST").None? <==> !CleanList(agentId, procs))
  {
    var m := ProcessListPayload(agentId, procs, now);
    ProcessListRoundTrip(agentId, procs, now);
    if CleanList(agentId, procs) {
      MessageCarries(Print(Message("PROCESS_LIST", m)), "PROCESS_LIST", m);
      ListsRead(procs, true, []);
      assert DistinctKeys(m);
      LookupAt(m, 0); LookupAt(m, 1); LookupAt(m, 2);
    }
  }

  lemma {:induction false} TelemetryReadExactlyWhen(agentId: string, procs: seq<ProcessInfo>, conns: seq<NetConn>, now: int)
    ensures var text := Print(Message("TELEMETRY_RISK", TelemetryPayload(agentId, procs, conns, now)));
      var clean := CleanList(agentId, procs) && forall i :: 0 <= i < |conns| ==> CleanConn(conns[i]);
      && (ReadsTelemetry(text, agentId, procs, conns, now) <==> clean)
      && (Carried(text, "TELEMETRY_RISK").None? <==> !clean)
  {
    var m := TelemetryPayload(agentId, procs, conns, now);
    TelemetryRoundTrip(agentId, procs, conns, now);
    if CleanList(agentId, procs) && forall i :: 0 <= i < |conns| ==> CleanConn(conns[i]) {
      MessageCarries(Print(Message("TELEMETRY_RISK", m)), "TELEMETRY_RISK", m);
      ListsRead(procs, false, conns);
      assert DistinctKeys(m);
      LookupAt(m, 0); LookupAt(m, 1); LookupAt(m, 2); LookupAt(m, 3); LookupAt(m, 4);
    }
  }
}
