/** Traffic counters on their way from the agent (agent/agent.py) to the flow
    table (manager/app/websocket/agent_ws.py): totals become differences, and
    the bytes of a difference are split between a TCP and a UDP row.  Shares are
    exact fractions rounded down. */
module FlowStats {
  import opened Options
  import opened Sequences

  datatype Counters = Counters(bytesSent: nat, bytesRecv: nat, packetsSent: nat, packetsRecv: nat)

  /** The two protocol totals are missing where the system does not show them. */
  datatype Sample = Sample(io: Counters, tcpOut: Option<nat>, udpOut: Option<nat>)

  datatype Report = Report(
    bytesSent: nat, bytesRecv: nat, packetsSent: nat, packetsRecv: nat, tcpPackets: nat, udpPackets: nat)

  datatype Memory = Memory(io: Option<Counters>, tcpOut: Option<nat>, udpOut: Option<nat>)

  // ---------- The agent ----------

  function Delta(before: nat, now: nat): nat { if now > before then now - before else 0 }

  function DeltaOf(before: Option<nat>, now: Option<nat>): nat {
    if before.Some? && now.Some? then Delta(before.value, now.value) else 0
  }

  /** The first sample is only remembered, and its protocol totals are not even
      looked at. */
  function Remembered(m: Memory, s: Sample): Memory {
    if m.io.None? then m.(io := Some(s.io))
    else Memory(
      Some(s.io),
      if s.tcpOut.Some? then s.tcpOut else m.tcpOut,
      if s.udpOut.Some? then s.udpOut else m.udpOut)
  }

  function ReportOf(m: Memory, s: Sample): Report {
    if m.io.None? then Report(0, 0, 0, 0, 0, 0)
    else
      var before, packets := m.io.value, Delta(m.io.value.packetsSent, s.io.packetsSent);
      var tcp, udp := DeltaOf(m.tcpOut, s.tcpOut), DeltaOf(m.udpOut, s.udpOut);
      var guess := tcp == 0 && udp == 0;
      Report(
        Delta(before.bytesSent, s.io.bytesSent), Delta(before.bytesRecv, s.io.bytesRecv),
        packets, Delta(before.packetsRecv, s.io.packetsRecv),
        if guess then 3 * packets / 4 else tcp, if guess then packets - 3 * packets / 4 else udp)
  }

  predicate Rose(before: nat, now: nat, growth: nat) {
    if now >= before then before + growth == now else growth == 0
  }

  /** The report says how much each counter grew, and nothing of one that went back. */
  predicate Grew(before: Counters, now: Counters, r: Report) {
    && Rose(before.bytesSent, now.bytesSent, r.bytesSent) && Rose(before.bytesRecv, now.bytesRecv, r.bytesRecv)
    && Rose(before.packetsSent, now.packetsSent, r.packetsSent) && Rose(before.packetsRecv, now.packetsRecv, r.packetsRecv)
  }

  predicate RoseIfShown(before: Option<nat>, now: Option<nat>, growth: nat) {
    if before.Some? && now.Some? then Rose(before.value, now.value, growth) else growth == 0
  }

  /** The packets of each protocol are the growth of its own total; when neither
      total grew, three quarters of all packets, rounded down, count as TCP and the
      rest as UDP. */
  ghost predicate Counts(tcpBefore: Option<nat>, udpBefore: Option<nat>, s: Sample, r: Report) {
    exists tcp: nat, udp: nat ::
      && RoseIfShown(tcpBefore, s.tcpOut, tcp) && RoseIfShown(udpBefore, s.udpOut, udp)
      && if tcp > 0 || udp > 0 then r.tcpPackets == tcp && r.udpPackets == udp
         else
           && r.tcpPackets + r.udpPackets == r.packetsSent
           && 4 * r.tcpPackets <= 3 * r.packetsSent < 4 * (r.tcpPackets + 1)
  }

  lemma ReportSays(m: Memory, s: Sample)
    requires m.io.Some?
    ensures Grew(m.io.value, s.io, ReportOf(m, s)) && Counts(m.tcpOut, m.udpOut, s, ReportOf(m, s))
  {
    assert RoseIfShown(m.tcpOut, s.tcpOut, DeltaOf(m.tcpOut, s.tcpOut));
    assert RoseIfShown(m.udpOut, s.udpOut, DeltaOf(m.udpOut, s.udpOut));
  }

  class Sampler {
    var prevNetIo: Option<Counters>
    var prevTcpOut: Option<nat>
    var prevUdpOut: Option<nat>

    constructor ()
      ensures Recalled() == Memory(None, None, None)
    {
      prevNetIo, prevTcpOut, prevUdpOut := None, None, None;
    }

    function Recalled(): Memory
      reads this
    {
      Memory(prevNetIo, prevTcpOut, prevUdpOut)
    }

    method GetNetworkFlowStats(s: Sample) returns (r: Report)
      modifies this
      ensures Recalled() == Remembered(old(Recalled()), s)
      ensures r == ReportOf(old(Recalled()), s)
      ensures prevNetIo == Some(s.io)
      ensures old(prevNetIo).None? ==>
        r == Report(0, 0, 0, 0, 0, 0) && prevTcpOut == old(prevTcpOut) && prevUdpOut == old(prevUdpOut)
      ensures old(prevNetIo).Some? ==>
        && Grew(old(prevNetIo).value, s.io, r) && Counts(old(prevTcpOut), old(prevUdpOut), s, r)
        && prevTcpOut == (if s.tcpOut.Some? then s.tcpOut else old(prevTcpOut))
        && prevUdpOut == (if s.udpOut.Some? then s.udpOut else old(prevUdpOut))
    {
      if prevNetIo.None? {
        prevNetIo := Some(s.io);
        return Report(0, 0, 0, 0, 0, 0);
      }
      ReportSays(Recalled(), s);
      var before := prevNetIo.value;
      var bytesSent := Delta(before.bytesSent, s.io.bytesSent);
      var bytesRecv := Delta(before.bytesRecv, s.io.bytesRecv);
      var packetsSent := Delta(before.packetsSent, s.io.packetsSent);
      var packetsRecv := Delta(before.packetsRecv, s.io.packetsRecv);
      prevNetIo := Some(s.io);
      var tcp, udp := 0, 0;
      if s.tcpOut.Some? {
        if prevTcpOut.Some? {
          tcp := Delta(prevTcpOut.value, s.tcpOut.value);
        }
        prevTcpOut := s.tcpOut;
      }
      if s.udpOut.Some? {
        if prevUdpOut.Some? {
          udp := Delta(prevUdpOut.value, s.udpOut.value);
        }
        prevUdpOut := s.udpOut;
      }
      if tcp == 0 && udp == 0 && packetsSent > 0 {
        tcp := 3 * packetsSent / 4;
        udp := packetsSent - tcp;
      }
      return Report(bytesSent, bytesRecv, packetsSent, packetsRecv, tcp, udp);
    }
  }

  /** A report that names no packets of either protocol has none to name. */
  lemma GuessSplitsAllPackets(m: Memory, s: Sample)
    ensures var r := ReportOf(m, s);
      && (DeltaOf(m.tcpOut, s.tcpOut) + DeltaOf(m.udpOut, s.udpOut) == 0 || m.io.None? ==>
            r.tcpPackets + r.udpPackets == r.packetsSent && r.tcpPackets <= 3 * r.udpPackets)
      && (r.tcpPackets + r.udpPackets == 0 ==> r.packetsSent == 0)
  {
  }

  // ---------- Differences add up ----------

  function Reports(m: Memory, samples: seq<Sample>): seq<Report>
    decreases |samples|
  {
    if samples == [] then [] else [ReportOf(m, samples[0])] + Reports(Remembered(m, samples[0]), samples[1..])
  }

  function SentBytes(reports: seq<Report>): nat {
    if reports == [] then 0 else reports[0].bytesSent + SentBytes(reports[1..])
  }

  /** The byte counter never goes back from one sample to the next. */
  predicate Monotone(samples: seq<Sample>) {
    |samples| > 1 ==> samples[0].io.bytesSent <= samples[1].io.bytesSent && Monotone(samples[1..])
  }

  lemma {:induction false} LaterDeltas(m: Memory, samples: seq<Sample>)
    requires m.io.Some?
    ensures var start, reported := m.io.value.bytesSent, SentBytes(Reports(m, samples));
      var end := if samples == [] then start else samples[|samples| - 1].io.bytesSent;
      && start + reported >= end
      && (start + reported == end <==>
            samples == [] || (start <= samples[0].io.bytesSent && Monotone(samples)))
    decreases |samples|
  {
    if samples != [] {
      var next := Remembered(m, samples[0]);
      LaterDeltas(next, samples[1..]);
      var reports := Reports(m, samples);
      assert reports[1..] == Reports(next, samples[1..]);
      assert |samples| > 1 ==> samples[1..][|samples| - 2] == samples[|samples| - 1];
    }
  }

  /** Since startup the reported bytes are at least the growth of the counter,
      and they are exactly that growth when, and only when, it never went back. */
  lemma {:induction false} DeltasTelescopeExactlyWhen(samples: seq<Sample>)
    requires samples != []
    ensures var reported := SentBytes(Reports(Memory(None, None, None), samples));
      var first, last := samples[0].io.bytesSent, samples[|samples| - 1].io.bytesSent;
      && first + reported >= last
      && (first + reported == last <==> Monotone(samples))
  {
    var empty := Memory(None, None, None);
    var m := Remembered(empty, samples[0]);
    LaterDeltas(m, samples[1..]);
    var reports := Reports(empty, samples);
    assert reports[1..] == Reports(m, samples[1..]);
    assert |samples| > 1 ==> samples[1..][|samples| - 2] == samples[|samples| - 1];
  }

  // ---------- The manager ----------

  datatype Protocol = TCP | UDP

  datatype Row = Row(protocol: Protocol, dstPort: nat, bytes: nat, packets: nat)

  /** The rows a report should make: `part` packets of `whole` carry their share
      of the bytes. */
  function Share(bytes: nat, part: nat, whole: nat): nat
    requires whole > 0
  {
    bytes * part / whole
  }

  function RowsOf(r: Report): seq<Row> {
    var tcp, udp := r.tcpPackets, r.udpPackets;
    if tcp == 0 && udp == 0 then [Row(TCP, 80, r.bytesSent, r.packetsSent)]
    else
      (if tcp > 0 then [Row(TCP, 80, Share(r.bytesSent, tcp, tcp + udp), tcp)] else [])
      + if udp > 0 then [Row(UDP, 53, Share(r.bytesSent, udp, tcp + udp), udp)] else []
  }

  /** A row of one protocol: its own packets and port, and its share of the bytes
      rounded down. */
  predicate Carries(row: Row, protocol: Protocol, dstPort: nat, part: nat, whole: nat, bytes: nat) {
    && row.protocol == protocol && row.dstPort == dstPort && row.packets == part
    && row.bytes * whole <= bytes * part < (row.bytes + 1) * whole
  }

  /** The rows of a report: one for each protocol with packets, TCP first; without
      any packets everything goes into one TCP row. */
  predicate Apportions(r: Report, rows: seq<Row>) {
    var tcp, udp := r.tcpPackets, r.udpPackets;
    var tcpRows, udpRows := if tcp > 0 || udp == 0 then 1 else 0, if udp > 0 then 1 else 0;
    && |rows| == tcpRows + udpRows
    && (tcp == 0 && udp == 0 ==> rows[0] == Row(TCP, 80, r.bytesSent, r.packetsSent))
    && (tcp > 0 ==> Carries(rows[0], TCP, 80, tcp, tcp + udp, r.bytesSent))
    && (udp > 0 ==> Carries(rows[tcpRows], UDP, 53, udp, tcp + udp, r.bytesSent))
  }

  lemma ShareRounds(bytes: nat, part: nat, whole: nat)
    requires whole > 0
    ensures Share(bytes, part, whole) * whole <= bytes * part < (Share(bytes, part, whole) + 1) * whole
  {
    var x := bytes * part;
    assert x == whole * (x / whole) + x % whole;
  }

  lemma {:induction false} RowsApportion(r: Report)
    ensures Apportions(r, RowsOf(r))
  {
    var tcp, udp := r.tcpPackets, r.udpPackets;
    if tcp + udp > 0 {
      ShareRounds(r.bytesSent, tcp, tcp + udp);
      ShareRounds(r.bytesSent, udp, tcp + udp);
    }
  }

  class FlowTable {
    var flows: seq<Row>

    method HandleFlowStats(r: Report)
      modifies this
      ensures flows == old(flows) + RowsOf(r)
      ensures |flows| > |old(flows)| && flows[..|old(flows)|] == old(flows) && Apportions(r, flows[|old(flows)|..])
    {
      RowsApportion(r);
      var tcp, udp := r.tcpPackets, r.udpPackets;
      if tcp > 0 || (tcp == 0 && udp == 0) {
        var bytes := r.bytesSent;
        if tcp + udp > 0 {
          bytes := Share(r.bytesSent, tcp, tcp + udp);
        }
        flows := flows + [Row(TCP, 80, bytes, if tcp != 0 then tcp else r.packetsSent)];
      }
      if udp > 0 {
        var bytes := Share(r.bytesSent, udp, tcp + udp);
        flows := flows + [Row(UDP, 53, bytes, udp)];
      }
    }
  }

  function RowBytes(rows: seq<Row>): nat {
    if rows == [] then 0 else rows[0].bytes + RowBytes(rows[1..])
  }

  function RowPackets(rows: seq<Row>): nat {
    if rows == [] then 0 else rows[0].packets + RowPackets(rows[1..])
  }

  /** The split leaves a fraction on both sides. */
  predicate Uneven(r: Report) {
    r.tcpPackets > 0 && r.udpPackets > 0 && r.bytesSent * r.tcpPackets % (r.tcpPackets + r.udpPackets) != 0
  }

  lemma Between(n: nat, k: int)
    requires n > 0
    ensures 0 <= n * k < 2 * n ==> k == 0 || k == 1
  {
  }

  /** Two parts of a multiple of `n` lose one when rounded down, unless they are
      multiples themselves. */
  lemma {:induction false} FloorsOfParts(x: nat, y: nat, b: nat, n: nat)
    requires n > 0 && x + y == b * n
    ensures x / n + y / n == if x % n == 0 then b else b - 1
  {
    var qx, rx, qy, ry := x / n, x % n, y / n, y % n;
    assert x == n * qx + rx && y == n * qy + ry;
    var k := b - qx - qy;
    assert rx + ry == n * k by {
      assert n * k == n * b - n * qx - n * qy;
    }
    Between(n, k);
  }

  lemma {:induction false} Whole(bytes: nat, n: nat)
    requires n > 0
    ensures Share(bytes, n, n) == bytes
  {
    var x := bytes * n;
    var k := bytes - x / n;
    assert x == n * (x / n) + x % n;
    assert x % n == n * k by {
      assert n * k == n * bytes - n * (x / n);
    }
    Between(n, k);
  }

  lemma {:induction false} SplitShares(r: Report)
    requires r.tcpPackets > 0 && r.udpPackets > 0
    ensures var n := r.tcpPackets + r.udpPackets;
      Share(r.bytesSent, r.tcpPackets, n) + Share(r.bytesSent, r.udpPackets, n) + (if Uneven(r) then 1 else 0)
      == r.bytesSent
  {
    var b, t, u := r.bytesSent, r.tcpPackets, r.udpPackets;
    assert b * t + b * u == b * (t + u);
    FloorsOfParts(b * t, b * u, b, t + u);
  }

  /** One report: the rows carry all its bytes, less one when the split is
      uneven, and all the packets it names. */
  lemma {:induction false} RowsCarryReport(r: Report)
    ensures RowBytes(RowsOf(r)) + (if Uneven(r) then 1 else 0) == r.bytesSent
    ensures RowPackets(RowsOf(r)) == if r.tcpPackets + r.udpPackets == 0 then r.packetsSent else r.tcpPackets + r.udpPackets
    ensures RowsOf(r) != []
  {
    var t, u := r.tcpPackets, r.udpPackets;
    if t > 0 && u > 0 {
      SplitShares(r);
      var a, b := Row(TCP, 80, Share(r.bytesSent, t, t + u), t), Row(UDP, 53, Share(r.bytesSent, u, t + u), u);
      assert RowsOf(r) == [a, b];
      assert [a, b][1..] == [b] && [b][1..] == [];
      assert RowBytes([b]) == b.bytes && RowPackets([b]) == b.packets;
    } else if t > 0 || u > 0 {
      Whole(r.bytesSent, t + u);
      assert |RowsOf(r)| == 1 && RowsOf(r)[1..] == [];
    }
  }

  // ---------- From the counter to the table ----------

  function AllRows(reports: seq<Report>): seq<Row> {
    if reports == [] then [] else RowsOf(reports[0]) + AllRows(reports[1..])
  }

  function UnevenCount(reports: seq<Report>): (n: nat)
    ensures n <= |reports|
  {
    if reports == [] then 0 else (if Uneven(reports[0]) then 1 else 0) + UnevenCount(reports[1..])
  }

  lemma {:induction false} RowBytesAppend(a: seq<Row>, b: seq<Row>)
    ensures RowBytes(a + b) == RowBytes(a) + RowBytes(b)
  {
    if a == [] {
      assert a + b == b;
    } else {
      RowBytesAppend(a[1..], b);
      assert (a + b)[0] == a[0] && (a + b)[1..] == a[1..] + b;
    }
  }

  lemma {:induction false} AllRowsCarryReports(reports: seq<Report>)
    ensures RowBytes(AllRows(reports)) + UnevenCount(reports) == SentBytes(reports)
  {
    if reports != [] {
      AllRowsCarryReports(reports[1..]);
      RowsCarryReport(reports[0]);
      RowBytesAppend(RowsOf(reports[0]), AllRows(reports[1..]));
    }
  }

  lemma {:induction false} OneReportEach(m: Memory, samples: seq<Sample>)
    ensures |Reports(m, samples)| == |samples|
    decreases |samples|
  {
    if samples != [] {
      OneReportEach(Remembered(m, samples[0]), samples[1..]);
    }
  }

  /** With a counter that never goes back, the bytes in the table fall short of
      its growth by the number of uneven splits, so by at most one a report. */
  lemma {:induction false} TableFollowsCounter(samples: seq<Sample>)
    requires samples != [] && Monotone(samples)
    ensures var reports := Reports(Memory(None, None, None), samples);
      var grown := samples[|samples| - 1].io.bytesSent - samples[0].io.bytesSent;
      && RowBytes(AllRows(reports)) == grown - UnevenCount(reports)
      && grown - |samples| <= RowBytes(AllRows(reports)) <= grown
  {
    DeltasTelescopeExactlyWhen(samples);
    AllRowsCarryReports(Reports(Memory(None, None, None), samples));
    OneReportEach(Memory(None, None, None), samples);
  }

  // ---------- Each protocol's bytes ----------

  function BytesOf(rows: seq<Row>, p: Protocol): nat {
    if rows == [] then 0 else (if rows[0].protocol == p then rows[0].bytes else 0) + BytesOf(rows[1..], p)
  }

  function PacketsOf(rows: seq<Row>, p: Protocol): nat {
    if rows == [] then 0 else (if rows[0].protocol == p then rows[0].packets else 0) + PacketsOf(rows[1..], p)
  }

  /** The packets a report counts for a protocol: those it names, and all as TCP
      when it names none. */
  function Counted(r: Report, p: Protocol): nat {
    if r.tcpPackets + r.udpPackets == 0 then (if p == TCP then r.packetsSent else 0)
    else if p == TCP then r.tcpPackets else r.udpPackets
  }

  /** The exact share of a report's bytes. */
  function Due(r: Report, p: Protocol): real {
    var n := r.tcpPackets + r.udpPackets;
    if n == 0 then (if p == TCP then r.bytesSent as real else 0.0)
    else Fraction(r.bytesSent, if p == TCP then r.tcpPackets else r.udpPackets, n)
  }

  function Fraction(bytes: nat, part: nat, n: nat): real
    requires n > 0
  {
    (bytes * part) as real / n as real
  }

  function AllDue(reports: seq<Report>, p: Protocol): real {
    if reports == [] then 0.0 else Due(reports[0], p) + AllDue(reports[1..], p)
  }

  function AllCounted(reports: seq<Report>, p: Protocol): nat {
    if reports == [] then 0 else Counted(reports[0], p) + AllCounted(reports[1..], p)
  }

  lemma {:induction false} OfAppend(a: seq<Row>, b: seq<Row>, p: Protocol)
    ensures BytesOf(a + b, p) == BytesOf(a, p) + BytesOf(b, p)
    ensures PacketsOf(a + b, p) == PacketsOf(a, p) + PacketsOf(b, p)
  {
    if a == [] {
      assert a + b == b;
    } else {
      OfAppend(a[1..], b, p);
      assert (a + b)[0] == a[0] && (a + b)[1..] == a[1..] + b;
    }
  }

  lemma TimesMonotone(a: real, b: real, n: real)
    requires n > 0.0 && a < b
    ensures a * n < b * n
  {
  }

  lemma QuotientBounds(q: real, x: real, n: real)
    requires n > 0.0 && q * n <= x < (q + 1.0) * n
    ensures q <= x / n < q + 1.0
  {
    var ratio := x / n;
    assert ratio * n == x;
    assert ratio == q + 1.0 ==> ratio * n == (q + 1.0) * n;
    if ratio < q {
      TimesMonotone(ratio, q, n);
    } else if ratio > q + 1.0 {
      TimesMonotone(q + 1.0, ratio, n);
    }
  }

  lemma TimesAsReal(a: nat, b: nat)
    ensures (a * b) as real == a as real * b as real
  {
  }

  lemma CarriedWithinOne(row: Row, p: Protocol, port: nat, part: nat, n: nat, bytes: nat)
    requires n > 0 && Carries(row, p, port, part, n, bytes)
    ensures row.bytes as real <= Fraction(bytes, part, n) < row.bytes as real + 1.0
  {
    TimesAsReal(row.bytes, n);
    TimesAsReal(row.bytes + 1, n);
    TimesAsReal(bytes, part);
    QuotientBounds(row.bytes as real, (bytes * part) as real, n as real);
  }

  lemma NoPart(bytes: nat, n: nat)
    requires n > 0
    ensures Fraction(bytes, 0, n) == 0.0
  {
    TimesAsReal(bytes, 0);
  }

  /** In the rows of a report each protocol has its packets, and its share of the
      bytes with less than one byte missing. */
  lemma {:induction false} RowsWithinOne(r: Report, rows: seq<Row>, p: Protocol)
    requires Apportions(r, rows)
    ensures BytesOf(rows, p) as real <= Due(r, p) < BytesOf(rows, p) as real + 1.0
    ensures PacketsOf(rows, p) == Counted(r, p)
  {
    var tcp, udp := r.tcpPackets, r.udpPackets;
    OneOrTwo(rows, p);
    if tcp + udp > 0 {
      NoPart(r.bytesSent, tcp + udp);
    }
    if tcp > 0 {
      CarriedWithinOne(rows[0], TCP, 80, tcp, tcp + udp, r.bytesSent);
    }
    if udp > 0 {
      CarriedWithinOne(rows[|rows| - 1], UDP, 53, udp, tcp + udp, r.bytesSent);
    }
  }

  lemma OneOrTwo(rows: seq<Row>, p: Protocol)
    requires |rows| in {1, 2}
    ensures var (a, b) := (rows[0], rows[|rows| - 1]);
      && BytesOf(rows, p) == (if a.protocol == p then a.bytes else 0) + (if |rows| == 2 && b.protocol == p then b.bytes else 0)
      && PacketsOf(rows, p) == (if a.protocol == p then a.packets else 0) + (if |rows| == 2 && b.protocol == p then b.packets else 0)
  {
    if |rows| == 2 {
      assert rows[1..] == [rows[1]] && [rows[1]][1..] == [];
    } else {
      assert rows[1..] == [];
    }
  }

  /** Each protocol has its packets, and its exact share of the bytes with less
      than one missing for each report. */
  ghost predicate Shared(rows: seq<Row>, reports: seq<Report>) {
    forall p ::
      && PacketsOf(rows, p) == AllCounted(reports, p)
      && BytesOf(rows, p) as real <= AllDue(reports, p)
      && (reports != [] ==> AllDue(reports, p) < (BytesOf(rows, p) + |reports|) as real)
  }

  lemma {:induction false} RowsAreShared(reports: seq<Report>)
    ensures Shared(AllRows(reports), reports)
  {
    if reports != [] {
      RowsAreShared(reports[1..]);
      RowsApportion(reports[0]);
      forall p
        ensures PacketsOf(AllRows(reports), p) == AllCounted(reports, p)
        ensures BytesOf(AllRows(reports), p) as real <= AllDue(reports, p)
        ensures AllDue(reports, p) < (BytesOf(AllRows(reports), p) + |reports|) as real
      {
        RowsWithinOne(reports[0], RowsOf(reports[0]), p);
        OfAppend(RowsOf(reports[0]), AllRows(reports[1..]), p);
      }
    }
  }

  /** The rows still to come from sample `i` on. */
  function Remaining(m: Memory, samples: seq<Sample>, i: nat): seq<Row>
    requires i <= |samples|
  {
    AllRows(Reports(m, samples[i..]))
  }

  method Relay(sampler: Sampler, table: FlowTable, samples: seq<Sample>, i: nat)
    requires i < |samples|
    modifies sampler, table
    ensures table.flows + Remaining(sampler.Recalled(), samples, i + 1)
         == old(table.flows + Remaining(sampler.Recalled(), samples, i))
  {
    ghost var m, before := sampler.Recalled(), table.flows;
    AllRowsStep(m, samples, i);
    var r := sampler.GetNetworkFlowStats(samples[i]);
    table.HandleFlowStats(r);
    Associative(before, RowsOf(r), Remaining(sampler.Recalled(), samples, i + 1));
  }

  /** The agent and the manager together. */
  method Monitor(samples: seq<Sample>) returns (flows: seq<Row>)
    ensures flows == AllRows(Reports(Memory(None, None, None), samples))
    ensures Shared(flows, Reports(Memory(None, None, None), samples)) && |Reports(Memory(None, None, None), samples)| == |samples|
  {
    var sampler := new Sampler();
    var table := new FlowTable;
    table.flows := [];
    ghost var goal := Remaining(Memory(None, None, None), samples, 0);
    assert samples[0..] == samples;
    for i := 0 to |samples|
      invariant fresh(sampler) && fresh(table)
      invariant table.flows + Remaining(sampler.Recalled(), samples, i) == goal
    {
      Relay(sampler, table, samples, i);
    }
    flows := table.flows;
    OneReportEach(Memory(None, None, None), samples);
    RowsAreShared(Reports(Memory(None, None, None), samples));
  }

  lemma AllRowsStep(m: Memory, samples: seq<Sample>, i: nat)
    requires i < |samples|
    ensures AllRows(Reports(m, samples[i..]))
         == RowsOf(ReportOf(m, samples[i])) + AllRows(Reports(Remembered(m, samples[i]), samples[i + 1..]))
  {
  }
}
