/** The DNS sniffer (agent/dns_sniffer.py): from raw Ethernet frames to the names
    and types of the questions in them, and the bounded buffer they are kept in.
    Formats: section 3.1 of RFC 791 for the header length, section 4.1.2 of
    RFC 1035 for the question. */
module Dns {
  import opened Options
  import opened Sequences
  import Json

  type Byte = b: int | 0 <= b < 256

  // ---------- Walking over the labels ----------

  /** Why the walk ended: at the zero byte, at a length above 63, or at the end of the data. */
  datatype Stop = Zero | Long | Ended

  datatype Walked = Walked(labels: seq<seq<Byte>>, offset: nat, stop: Stop)

  function Min(a: int, b: int): int { if a < b then a else b }

  function Walk(p: seq<Byte>, offset: nat): Walked
    decreases if offset < |p| then |p| - offset else 0
  {
    if offset >= |p| then Walked([], offset, Ended)
    else
      var length := p[offset];
      if length == 0 then Walked([], offset + 1, Zero)
      else if length > 63 then Walked([], offset, Long)
      else
        var part := p[offset + 1..Min(offset + 1 + length, |p|)];
        var rest := Walk(p, offset + 1 + length);
        Walked([part] + rest.labels, rest.offset, rest.stop)
  }

  function Encode(labels: seq<seq<Byte>>): seq<Byte>
    requires forall i :: 0 <= i < |labels| ==> |labels[i]| < 256
  {
    if labels == [] then [] else [|labels[0]|] + labels[0] + Encode(labels[1..])
  }

  predicate Short(labels: seq<seq<Byte>>) { forall i :: 0 <= i < |labels| ==> |labels[i]| < 64 }

  lemma {:induction false} WalkShort(p: seq<Byte>, offset: nat)
    ensures Short(Walk(p, offset).labels)
    decreases if offset < |p| then |p| - offset else 0
  {
    if offset < |p| && 0 < p[offset] <= 63 {
      WalkShort(p, offset + 1 + p[offset]);
    }
  }

  /** Labels encoded with another length announced for the last one. */
  function EncodeCut(labels: seq<seq<Byte>>, announced: Byte): seq<Byte>
    requires labels != [] && Short(labels)
  {
    var n := |labels| - 1;
    Encode(labels[..n]) + [announced] + labels[n]
  }

  /** The bytes walked over, rebuilt from the labels: a last label that was cut
      short keeps the length it announced. */
  ghost predicate Retraces(p: seq<Byte>, start: nat, w: Walked)
    requires start <= |p| && Short(w.labels)
  {
    match w.stop
    case Zero => start < w.offset <= |p| && p[start..w.offset] == Encode(w.labels) + [0]
    case Long => start <= w.offset < |p| && p[w.offset] > 63 && p[start..w.offset] == Encode(w.labels)
    case Ended =>
      if w.offset == |p| then p[start..] == Encode(w.labels)
      else
        && w.offset > |p| && w.labels != []
        && var n := |w.labels| - 1;
           var announced := |w.labels[n]| + (w.offset - |p|);
           && announced <= 63
           && p[start..] == EncodeCut(w.labels, announced)
  }

  /** For any bytes at all, the labels and the stop account for every byte walked over. */
  lemma {:induction false} WalkRetraces(p: seq<Byte>, start: nat)
    requires start <= |p|
    ensures Short(Walk(p, start).labels) && Retraces(p, start, Walk(p, start))
    decreases |p| - start
  {
    if start < |p| && 0 < p[start] <= 63 {
      var next := start + 1 + p[start];
      if next <= |p| {
        WalkRetraces(p, next);
        WalkRetracesStep(p, start, Walk(p, next));
        WalkIsLonger(p, start);
      } else {
        WalkRetracesCut(p, start);
      }
    } else {
      WalkStops(p, start);
    }
  }

  lemma WalkStops(p: seq<Byte>, start: nat)
    requires start <= |p| && (start < |p| ==> p[start] == 0 || p[start] > 63)
    ensures Short(Walk(p, start).labels) && Retraces(p, start, Walk(p, start))
  {
    if start < |p| && p[start] == 0 {
      assert p[start..start + 1] == [0];
    }
  }

  lemma WalkIsLonger(p: seq<Byte>, start: nat)
    requires start < |p| && 0 < p[start] <= 63 && start + 1 + p[start] <= |p|
    ensures Walk(p, start) == Longer(p, start, Walk(p, start + 1 + p[start]))
  {
  }

  /** A length that announces more bytes than there are. */
  lemma WalkRetracesCut(p: seq<Byte>, start: nat)
    requires start < |p| && 0 < p[start] <= 63 && start + 1 + p[start] > |p|
    ensures Short(Walk(p, start).labels) && Retraces(p, start, Walk(p, start))
  {
    WalkIsCut(p, start);
    CutRetraces(p, start);
  }

  lemma WalkIsCut(p: seq<Byte>, start: nat)
    requires start < |p| && 0 < p[start] <= 63 && start + 1 + p[start] > |p|
    ensures Walk(p, start) == Walked([p[start + 1..]], start + 1 + p[start], Ended)
  {
    var next := start + 1 + p[start];
    assert p[start + 1..Min(next, |p|)] == p[start + 1..];
    assert Walk(p, next) == Walked([], next, Ended);
  }

  lemma CutRetraces(p: seq<Byte>, start: nat)
    requires start < |p| && 0 < p[start] <= 63 && start + 1 + p[start] > |p|
    ensures var w := Walked([p[start + 1..]], start + 1 + p[start], Ended); Short(w.labels) && Retraces(p, start, w)
  {
  }

  lemma EncodeCons(part: seq<Byte>, labels: seq<seq<Byte>>)
    requires |part| < 256 && forall i :: 0 <= i < |labels| ==> |labels[i]| < 256
    ensures Encode([part] + labels) == [|part|] + part + Encode(labels)
  {
  }

  lemma EncodeCutCons(part: seq<Byte>, labels: seq<seq<Byte>>, announced: Byte)
    requires |part| < 64 && labels != [] && Short(labels)
    ensures EncodeCut([part] + labels, announced) == [|part|] + part + EncodeCut(labels, announced)
  {
    var n := |labels| - 1;
    assert ([part] + labels)[..n + 1] == [part] + labels[..n];
    EncodeCons(part, labels[..n]);
    FourParts([|part|] + part, Encode(labels[..n]), [announced], labels[n]);
  }

  lemma FourParts(a: seq<Byte>, b: seq<Byte>, c: seq<Byte>, d: seq<Byte>)
    ensures a + (b + c + d) == a + b + c + d
  {
  }

  lemma Unslice(p: seq<Byte>, start: nat, next: nat, end: nat)
    requires start < next <= end <= |p|
    ensures p[start..end] == [p[start]] + p[start + 1..next] + p[next..end]
  {
  }

  /** A walk with one more label in front. */
  function Longer(p: seq<Byte>, start: nat, rest: Walked): Walked
    requires start < |p| && start + 1 + p[start] <= |p|
  {
    Walked([p[start + 1..start + 1 + p[start]]] + rest.labels, rest.offset, rest.stop)
  }

  ghost predicate Steps(p: seq<Byte>, start: nat, rest: Walked) {
    && start < |p| && 0 < p[start] <= 63 && start + 1 + p[start] <= |p|
    && Short(rest.labels) && Retraces(p, start + 1 + p[start], rest)
  }

  lemma LongerShort(p: seq<Byte>, start: nat, rest: Walked)
    requires Steps(p, start, rest)
    ensures var part := p[start + 1..start + 1 + p[start]];
      && |part| == p[start] && Longer(p, start, rest).labels == [part] + rest.labels && Short([part] + rest.labels)
  {
  }

  lemma ToTheEnd(p: seq<Byte>, start: nat, next: nat)
    requires start < next <= |p|
    ensures p[start..] == [p[start]] + p[start + 1..next] + p[next..]
  {
    Unslice(p, start, next, |p|);
    assert p[start..|p|] == p[start..] && p[next..|p|] == p[next..];
  }

  lemma StepToStop(p: seq<Byte>, start: nat, rest: Walked)
    requires Steps(p, start, rest) && rest.stop != Ended
    ensures Short(Longer(p, start, rest).labels) && Retraces(p, start, Longer(p, start, rest))
  {
    var next := start + 1 + p[start];
    var part := p[start + 1..next];
    LongerShort(p, start, rest);
    EncodeCons(part, rest.labels);
    Unslice(p, start, next, rest.offset);
    Associative([p[start]] + part, Encode(rest.labels), [0]);
  }

  lemma StepToEnd(p: seq<Byte>, start: nat, rest: Walked)
    requires Steps(p, start, rest) && rest.stop == Ended && rest.offset == |p|
    ensures Short(Longer(p, start, rest).labels) && Retraces(p, start, Longer(p, start, rest))
  {
    var next := start + 1 + p[start];
    LongerShort(p, start, rest);
    EncodeCons(p[start + 1..next], rest.labels);
    ToTheEnd(p, start, next);
  }

  lemma StepToCut(p: seq<Byte>, start: nat, rest: Walked)
    requires Steps(p, start, rest) && rest.stop == Ended && rest.offset > |p|
    ensures Short(Longer(p, start, rest).labels) && Retraces(p, start, Longer(p, start, rest))
  {
    var next := start + 1 + p[start];
    var part, n := p[start + 1..next], |rest.labels|;
    LongerShort(p, start, rest);
    assert ([part] + rest.labels)[n] == rest.labels[n - 1];
    EncodeCutCons(part, rest.labels, |rest.labels[n - 1]| + (rest.offset - |p|));
    ToTheEnd(p, start, next);
  }

  lemma {:induction false} WalkRetracesStep(p: seq<Byte>, start: nat, rest: Walked)
    requires Steps(p, start, rest) && rest == Walk(p, start + 1 + p[start])
    ensures Short(Longer(p, start, rest).labels) && Retraces(p, start, Longer(p, start, rest))
  {
    if rest.stop != Ended {
      StepToStop(p, start, rest);
    } else if rest.offset == |p| {
      StepToEnd(p, start, rest);
    } else {
      StepToCut(p, start, rest);
    }
  }

  lemma WalkOne(p: seq<Byte>, at: nat, part: seq<Byte>)
    requires 0 < |part| <= 63 && at + 1 + |part| <= |p|
    requires p[at] == |part| && p[at + 1..at + 1 + |part|] == part
    ensures var rest := Walk(p, at + 1 + |part|);
      Walk(p, at) == Walked([part] + rest.labels, rest.offset, rest.stop)
  {
  }

  /** What stands at a place, one label further on. */
  lemma NextLabel(p: seq<Byte>, at: nat, part: seq<Byte>, more: seq<Byte>)
    requires |part| <= 63 && at + 1 + |part| + |more| <= |p|
    requires p[at..at + 1 + |part| + |more|] == [|part|] + part + more
    ensures p[at] == |part| && p[at + 1..at + 1 + |part|] == part
    ensures p[at + 1 + |part|..at + 1 + |part| + |more|] == more
  {
    var here := p[at..at + 1 + |part| + |more|];
    assert here[0] == |part| && here[1..1 + |part|] == part && here[1 + |part|..|here|] == more;
    SliceOfSlice(p, at, at + |here|, 1, 1 + |part|);
    SliceOfSlice(p, at, at + |here|, 1 + |part|, |here|);
  }

  /** The labels stand there one after the other, then a zero byte. */
  predicate Spells(p: seq<Byte>, at: nat, labels: seq<seq<Byte>>)
    decreases |labels|
  {
    if labels == [] then at < |p| && p[at] == 0
    else
      var part := labels[0];
      && 0 < |part| <= 63 && at + 1 + |part| <= |p|
      && p[at] == |part| && p[at + 1..at + 1 + |part|] == part
      && Spells(p, at + 1 + |part|, labels[1..])
  }

  predicate Proper(labels: seq<seq<Byte>>) { forall i :: 0 <= i < |labels| ==> 0 < |labels[i]| <= 63 }

  lemma {:induction false} EncodeSpells(p: seq<Byte>, at: nat, labels: seq<seq<Byte>>)
    requires Proper(labels)
    requires at + |Encode(labels)| + 1 <= |p| && p[at..at + |Encode(labels)| + 1] == Encode(labels) + [0]
    ensures Spells(p, at, labels)
    decreases |labels|
  {
    if labels == [] {
      assert p[at] == p[at..at + 1][0];
    } else {
      var part, others := labels[0], labels[1..];
      assert Proper(others);
      Associative([|part|] + part, Encode(others), [0]);
      NextLabel(p, at, part, Encode(others) + [0]);
      EncodeSpells(p, at + 1 + |part|, others);
    }
  }

  lemma {:induction false} WalkReadsLabels(p: seq<Byte>, at: nat, labels: seq<seq<Byte>>)
    requires Proper(labels) && Spells(p, at, labels)
    ensures Walk(p, at) == Walked(labels, at + |Encode(labels)| + 1, Zero)
    decreases |labels|
  {
    if labels != [] {
      var part, others := labels[0], labels[1..];
      assert Proper(others);
      WalkOne(p, at, part);
      WalkReadsLabels(p, at + 1 + |part|, others);
      assert labels == [part] + others;
    }
  }

  /** The other way round: encoded labels, closed by a zero byte, are walked
      over to exactly those labels, whatever comes before and after. */
  lemma {:induction false} WalkInvertsEncode(before: seq<Byte>, labels: seq<seq<Byte>>, after: seq<Byte>)
    requires Short(labels) && forall i :: 0 <= i < |labels| ==> |labels[i]| > 0
    ensures Walk(before + Encode(labels) + [0] + after, |before|)
         == Walked(labels, |before| + |Encode(labels)| + 1, Zero)
  {
    var p := before + Encode(labels) + [0] + after;
    assert p[|before|..|before| + |Encode(labels)| + 1] == Encode(labels) + [0];
    assert Proper(labels);
    EncodeSpells(p, |before|, labels);
    WalkReadsLabels(p, |before|, labels);
  }

  // ---------- From labels to a name ----------

  /** `decode("ascii", errors="ignore")`. */
  function Ascii(part: seq<Byte>): string {
    if part == [] then ""
    else (if part[0] < 128 then [part[0] as char] else "") + Ascii(part[1..])
  }

  /** Bytes below 128 are their characters and all others are dropped, one by one. */
  lemma {:induction false} AsciiDrops(a: seq<Byte>, b: Byte)
    ensures Ascii(a + [b]) == Ascii(a) + if b < 128 then [b as char] else ""
  {
    if a == [] {
      assert [] + [b] == [b] && [b][1..] == [];
    } else {
      AsciiDrops(a[1..], b);
      assert (a + [b])[1..] == a[1..] + [b];
    }
  }

  function Names(labels: seq<seq<Byte>>): seq<string> {
    seq(|labels|, i requires 0 <= i < |labels| => Ascii(labels[i]))
  }

  function Join(names: seq<string>): string {
    if names == [] then ""
    else if |names| == 1 then names[0]
    else names[0] + "." + Join(names[1..])
  }

  /** Splitting at the dots. */
  function Split(s: string): (parts: seq<string>)
    ensures |parts| > 0
  {
    if s == "" then [""]
    else
      var parts := Split(s[1..]);
      if s[0] == '.' then [""] + parts else [[s[0]] + parts[0]] + parts[1..]
  }

  predicate DotFree(s: string) { forall i :: 0 <= i < |s| ==> s[i] != '.' }

  function Dots(s: string): nat {
    if s == "" then 0 else (if s[0] == '.' then 1 else 0) + Dots(s[1..])
  }

  lemma {:induction false} SplitAtDot(s: string, t: string)
    requires DotFree(s)
    ensures Split(s + "." + t) == [s] + Split(t)
  {
    if s == "" {
      assert s + "." + t == "." + t && ("." + t)[1..] == t;
    } else {
      assert (s + "." + t)[1..] == s[1..] + "." + t;
      assert forall i :: 0 <= i < |s[1..]| ==> s[1..][i] == s[i+1];
      SplitAtDot(s[1..], t);
      assert [s[0]] + s[1..] == s;
    }
  }

  lemma {:induction false} SplitDotFree(s: string)
    requires DotFree(s)
    ensures Split(s) == [s]
  {
    if s != "" {
      assert forall i :: 0 <= i < |s[1..]| ==> s[1..][i] == s[i+1];
      SplitDotFree(s[1..]);
      assert [s[0]] + s[1..] == s;
    }
  }

  lemma {:induction false} SplitCounts(s: string)
    ensures |Split(s)| == Dots(s) + 1
  {
    if s != "" { SplitCounts(s[1..]); }
  }

  lemma {:induction false} DotsAppend(s: string, t: string)
    ensures Dots(s + t) == Dots(s) + Dots(t)
  {
    if s == "" {
      assert s + t == t;
    } else {
      assert (s + t)[1..] == s[1..] + t;
      DotsAppend(s[1..], t);
    }
  }

  lemma {:induction false} DotsZero(s: string)
    ensures Dots(s) == 0 <==> DotFree(s)
  {
    if s != "" {
      DotsZero(s[1..]);
      assert forall i :: 0 <= i < |s[1..]| ==> s[1..][i] == s[i+1];
      assert forall i :: 1 <= i < |s| ==> s[i] == s[1..][i-1];
    }
  }

  lemma {:induction false} JoinDots(names: seq<string>)
    requires names != []
    ensures Dots(Join(names)) >= |names| - 1
    ensures Dots(Join(names)) == |names| - 1 ==> forall i :: 0 <= i < |names| ==> DotFree(names[i])
  {
    DotsZero(names[0]);
    if |names| > 1 {
      JoinDots(names[1..]);
      DotsAppend(names[0], "." + Join(names[1..]));
      assert names[0] + "." + Join(names[1..]) == names[0] + ("." + Join(names[1..]));
      assert ("." + Join(names[1..]))[1..] == Join(names[1..]);
      if Dots(Join(names)) == |names| - 1 {
        forall i | 0 <= i < |names| ensures DotFree(names[i]) {
          if i > 0 { assert names[1..][i-1] == names[i]; }
        }
      }
    }
  }

  /** The labels can be told from the name exactly when there are some and none
      has a dot in it. */
  lemma {:induction false} SplitInvertsJoinExactlyWhen(names: seq<string>)
    ensures Split(Join(names)) == names <==> names != [] && forall i :: 0 <= i < |names| ==> DotFree(names[i])
  {
    if names != [] {
      if forall i :: 0 <= i < |names| ==> DotFree(names[i]) {
        SplitJoin(names);
      } else {
        SplitCounts(Join(names));
        JoinDots(names);
      }
    }
  }

  lemma {:induction false} SplitJoin(names: seq<string>)
    requires names != [] && forall i :: 0 <= i < |names| ==> DotFree(names[i])
    ensures Split(Join(names)) == names
  {
    if |names| == 1 {
      SplitDotFree(names[0]);
    } else {
      assert forall i :: 0 <= i < |names[1..]| ==> names[1..][i] == names[i+1];
      SplitJoin(names[1..]);
      SplitAtDot(names[0], Join(names[1..]));
      assert names == [names[0]] + names[1..];
    }
  }

  // ---------- The question ----------

  datatype Query = Query(name: string, kind: string, length: nat)

  function Word(p: seq<Byte>, at: nat): nat
    requires at + 2 <= |p|
  {
    256 * (p[at] as int) + p[at + 1]
  }

  function TypeName(id: nat): string {
    if id == 1 then "A" else if id == 2 then "NS" else if id == 5 then "CNAME" else if id == 6 then "SOA"
    else if id == 10 then "NULL" else if id == 12 then "PTR" else if id == 15 then "MX" else if id == 16 then "TXT"
    else if id == 28 then "AAAA" else if id == 255 then "ANY"
    else "TYPE_" + Json.Natural(id)
  }

  /** The types with a name of their own, by the numbers of section 3.2.2 of
      RFC 1035, section 2.1 of RFC 3596 for AAAA and section 3.2.3 of RFC 1035
      for ANY. */
  const RECORD_TYPES: map<nat, string> := map[
    1 := "A", 2 := "NS", 5 := "CNAME", 6 := "SOA", 10 := "NULL", 12 := "PTR", 15 := "MX", 16 := "TXT",
    28 := "AAAA", 255 := "ANY"]

  /** The text recorded for a type: its name, or else its number. */
  predicate Denotes(kind: string, id: nat) {
    if id in RECORD_TYPES then kind == RECORD_TYPES[id]
    else
      && |kind| > 5 && kind[..5] == "TYPE_" && Json.AllDigits(kind[5..])
      && Json.ReadDigits(kind[5..], 0) == (id, "")
  }

  lemma NumberedDenotes(id: nat)
    requires id !in RECORD_TYPES
    ensures Denotes("TYPE_" + Json.Natural(id), id)
  {
    var kind := "TYPE_" + Json.Natural(id);
    assert kind[..5] == "TYPE_" && kind[5..] == Json.Natural(id);
    Json.NaturalDigits(id);
    Json.NaturalValue(id);
  }

  lemma TypeNameDenotes(id: nat)
    ensures Denotes(TypeName(id), id)
  {
    if id !in RECORD_TYPES {
      NumberedDenotes(id);
      assert TypeName(id) == "TYPE_" + Json.Natural(id);
    }
  }

  const HEADER_SIZE := 12

  /** A payload too short to name a type counts as asking for "A". */
  function Question(p: seq<Byte>): Option<Query> {
    if |p| < HEADER_SIZE || Word(p, 4) < 1 then None
    else
      var w := Walk(p, HEADER_SIZE);
      var name := Join(Names(w.labels));
      Some(Query(name, if w.offset + 4 <= |p| then TypeName(Word(p, w.offset)) else "A", |name|))
  }

  /** The question recorded of a payload: the name is the labels joined by dots,
      and the type is the two bytes after them, or "A" when the payload ends first. */
  predicate Asks(p: seq<Byte>, q: Query)
    requires |p| >= 12
  {
    var w := Walk(p, 12);
    && q.name == Join(Names(w.labels)) && q.length == |q.name|
    && if w.offset + 4 <= |p| then Denotes(q.kind, 256 * (p[w.offset] as int) + p[w.offset + 1]) else q.kind == "A"
  }

  lemma KindDenotes(p: seq<Byte>, at: nat)
    requires at + 4 <= |p|
    ensures Denotes(TypeName(Word(p, at)), 256 * (p[at] as int) + p[at + 1])
  {
    TypeNameDenotes(Word(p, at));
  }

  lemma QuestionAsks(p: seq<Byte>)
    ensures Question(p).Some? <==> |p| >= 12 && 256 * (p[4] as int) + p[5] >= 1
    ensures Question(p).Some? ==> Asks(p, Question(p).value)
  {
    if |p| >= 12 {
      var w := Walk(p, HEADER_SIZE);
      if w.offset + 4 <= |p| {
        KindDenotes(p, w.offset);
      }
    }
  }

  lemma NamesPush(labels: seq<seq<Byte>>, l: seq<Byte>)
    ensures Names(labels + [l]) == Names(labels) + [Ascii(l)]
  {
  }

  /** The labels read and the place reached by a loop that goes on from here. */
  function Gather(p: seq<Byte>, labels: seq<string>, offset: nat): (seq<string>, nat)
    decreases if offset < |p| then |p| - offset else 0
  {
    if offset >= |p| then (labels, offset)
    else
      var length := p[offset];
      if length == 0 then (labels, offset + 1)
      else if length > 63 then (labels, offset)
      else
        var next := offset + 1 + length;
        Gather(p, labels + [Ascii(p[offset + 1..Min(next, |p|)])], next)
  }

  lemma {:induction false} GatherWalks(p: seq<Byte>, raw: seq<seq<Byte>>, offset: nat)
    ensures var w := Walk(p, offset); Gather(p, Names(raw), offset) == (Names(raw + w.labels), w.offset)
    decreases if offset < |p| then |p| - offset else 0
  {
    if offset < |p| && 0 < p[offset] <= 63 {
      var next := offset + 1 + p[offset];
      var part := p[offset + 1..Min(next, |p|)];
      NamesPush(raw, part);
      GatherWalks(p, raw + [part], next);
      Associative(raw, [part], Walk(p, next).labels);
    } else {
      assert raw + [] == raw;
    }
  }

  lemma GatherStarts(p: seq<Byte>)
    ensures var w := Walk(p, HEADER_SIZE); Gather(p, [], HEADER_SIZE) == (Names(w.labels), w.offset)
  {
    var none: seq<seq<Byte>> := [];
    GatherWalks(p, none, HEADER_SIZE);
    assert none + Walk(p, HEADER_SIZE).labels == Walk(p, HEADER_SIZE).labels;
    assert Names(none) == [];
  }

  /** The loop over the labels. */
  method ReadLabels(payload: seq<Byte>) returns (labels: seq<string>, offset: nat)
    ensures labels == Names(Walk(payload, HEADER_SIZE).labels)
    ensures offset == Walk(payload, HEADER_SIZE).offset
  {
    labels, offset := [], HEADER_SIZE;
    ghost var goal := Gather(payload, labels, offset);
    GatherStarts(payload);
    while offset < |payload|
      invariant Gather(payload, labels, offset) == goal
      decreases if offset < |payload| then |payload| - offset else 0
    {
      var length := payload[offset];
      if length == 0 {
        offset := offset + 1;
        return;
      }
      if length > 63 {
        return;
      }
      offset := offset + 1;
      labels := labels + [Ascii(payload[offset..Min(offset + length, |payload|)])];
      offset := offset + length;
    }
  }

  method ParseDnsQuestion(payload: seq<Byte>) returns (r: Option<Query>)
    ensures r == Question(payload)
    ensures r.Some? <==> |payload| >= 12 && 256 * (payload[4] as int) + payload[5] >= 1
    ensures r.Some? ==> Asks(payload, r.value)
  {
    QuestionAsks(payload);
    if |payload| < 12 {
      return None;
    }
    var qdcount := 256 * (payload[4] as int) + payload[5];
    if qdcount < 1 {
      return None;
    }
    var labels, offset := ReadLabels(payload);
    var qname := Join(labels);
    var qtype := ReadType(payload, offset);
    return Some(Query(qname, qtype, |qname|));
  }

  method ReadType(payload: seq<Byte>, offset: nat) returns (qtype: string)
    ensures qtype == if offset + 4 <= |payload| then TypeName(Word(payload, offset)) else "A"
  {
    qtype := "A";
    if offset + 4 <= |payload| {
      qtype := TypeName(256 * (payload[offset] as int) + payload[offset + 1]);
    }
  }

  lemma {:induction false} NaturalInjective(a: nat, b: nat)
    requires Json.Natural(a) == Json.Natural(b)
    ensures a == b
  {
    Json.NaturalValue(a);
    Json.NaturalValue(b);
  }

  lemma PrefixedUnlessKnown(id: nat)
    ensures id in RECORD_TYPES <==> !("TYPE_" <= TypeName(id))
    ensures id !in RECORD_TYPES ==> TypeName(id)[5..] == Json.Natural(id)
  {
    if id in RECORD_TYPES {
      var name := TypeName(id);
      assert |name| < 5 || name[0] == 'C';
      assert "TYPE_"[0] == 'T';
    }
  }

  /** The text of a type tells which type it was. */
  lemma {:induction false} TypeNameInjective(a: nat, b: nat)
    requires TypeName(a) == TypeName(b)
    ensures a == b
  {
    PrefixedUnlessKnown(a);
    PrefixedUnlessKnown(b);
    if a in RECORD_TYPES {
      KnownDistinct(a, b);
    } else {
      NaturalInjective(a, b);
    }
  }

  lemma KnownDistinct(a: nat, b: nat)
    requires a in RECORD_TYPES && b in RECORD_TYPES && TypeName(a) == TypeName(b)
    ensures a == b
  {
  }

  // ---------- The frame ----------

  function U16(n: nat): seq<Byte>
    requires n < 0x10000
  {
    [n / 256, n % 256]
  }

  /** What the sniffer records of a frame: UDP over IPv4, from or to port 53. */
  function Sniff(raw: seq<Byte>): Option<Query> {
    if |raw| < 34 || raw[23] != 17 then None
    else
      var udp := 14 + (raw[14] % 16) * 4;
      if |raw| < udp + 8 || (Word(raw, udp) != 53 && Word(raw, udp + 2) != 53) then None
      else
        var item := Question(raw[udp + 8..]);
        if item.Some? && item.value.name != "" then item else None
  }

  /** A frame as a host would send it. */
  datatype Frame = Frame(
    ethernet: seq<Byte>, version: nat, headerWords: nat, ipRest: seq<Byte>,
    srcPort: nat, dstPort: nat, udpRest: seq<Byte>,
    dnsHeader: seq<Byte>, labels: seq<seq<Byte>>, qtype: nat, qclass: nat, trailing: seq<Byte>)

  predicate AsciiLabel(l: seq<Byte>) {
    0 < |l| < 64 && forall i :: 0 <= i < |l| ==> l[i] < 128 && l[i] != '.' as int
  }

  /** A DNS query or response with at least one question, over UDP in IPv4 with
      any options. */
  predicate WellFormed(f: Frame) {
    && |f.ethernet| == 14 && f.version < 16 && 5 <= f.headerWords <= 15
    && |f.ipRest| == 4 * f.headerWords - 1 && f.ipRest[8] == 17
    && f.srcPort < 0x10000 && f.dstPort < 0x10000 && (f.srcPort == 53 || f.dstPort == 53)
    && |f.udpRest| == 4
    && |f.dnsHeader| == HEADER_SIZE && Word(f.dnsHeader, 4) >= 1
    && f.labels != [] && (forall i :: 0 <= i < |f.labels| ==> AsciiLabel(f.labels[i]))
    && f.qtype < 0x10000 && f.qclass < 0x10000
  }

  function Payload(f: Frame): seq<Byte>
    requires WellFormed(f)
  {
    f.dnsHeader + Encode(f.labels) + [0] + (U16(f.qtype) + U16(f.qclass) + f.trailing)
  }

  function Build(f: Frame): seq<Byte>
    requires WellFormed(f)
  {
    f.ethernet + [f.version * 16 + f.headerWords] + f.ipRest
    + U16(f.srcPort) + U16(f.dstPort) + f.udpRest + Payload(f)
  }

  lemma WordBack(before: seq<Byte>, n: nat, after: seq<Byte>)
    requires n < 0x10000
    ensures Word(before + U16(n) + after, |before|) == n
  {
  }

  lemma QuestionOfPayload(f: Frame)
    requires WellFormed(f)
    ensures var name := Join(Names(f.labels)); Question(Payload(f)) == Some(Query(name, TypeName(f.qtype), |name|))
  {
    var p := Payload(f);
    var tail := U16(f.qtype) + U16(f.qclass) + f.trailing;
    WalkInvertsEncode(f.dnsHeader, f.labels, tail);
    assert p[..HEADER_SIZE] == f.dnsHeader;
    assert p[4] == f.dnsHeader[4] && p[5] == f.dnsHeader[5];
    var before := f.dnsHeader + Encode(f.labels) + [0];
    assert p == before + U16(f.qtype) + (U16(f.qclass) + f.trailing);
    WordBack(before, f.qtype, U16(f.qclass) + f.trailing);
  }

  lemma FrameParts(f: Frame)
    requires WellFormed(f)
    ensures var raw := Build(f);
            && |raw| >= 34 && raw[14] == f.version * 16 + f.headerWords && raw[23] == 17
            && var udp := 14 + 4 * f.headerWords;
               && |raw| >= udp + 8
               && Word(raw, udp) == f.srcPort && Word(raw, udp + 2) == f.dstPort
               && raw[udp + 8..] == Payload(f)
  {
  }

  lemma {:induction false} AsciiKeeps(l: seq<Byte>)
    requires forall i :: 0 <= i < |l| ==> l[i] < 128
    ensures |Ascii(l)| == |l| && forall i :: 0 <= i < |l| ==> Ascii(l)[i] == l[i] as char
  {
    if l != [] {
      assert forall i :: 0 <= i < |l[1..]| ==> l[1..][i] == l[i+1];
      AsciiKeeps(l[1..]);
    }
  }

  /** Where the decoding finds the question. */
  predicate Laid(raw: seq<Byte>, headerWords: nat, srcPort: nat, dstPort: nat, payload: seq<Byte>) {
    var udp := 14 + 4 * headerWords;
    && |raw| >= 34 && raw[14] % 16 == headerWords && raw[23] == 17
    && |raw| >= udp + 8 && Word(raw, udp) == srcPort && Word(raw, udp + 2) == dstPort
    && raw[udp + 8..] == payload
  }

  lemma SniffLaid(raw: seq<Byte>, headerWords: nat, srcPort: nat, dstPort: nat, payload: seq<Byte>, q: Query)
    requires Laid(raw, headerWords, srcPort, dstPort, payload) && (srcPort == 53 || dstPort == 53)
    requires Question(payload) == Some(q) && q.name != ""
    ensures Sniff(raw) == Some(q)
  {
    LaidPayload(raw, headerWords, srcPort, dstPort, payload);
    SniffReads(raw);
  }

  lemma LaidPayload(raw: seq<Byte>, headerWords: nat, srcPort: nat, dstPort: nat, payload: seq<Byte>)
    requires Laid(raw, headerWords, srcPort, dstPort, payload) && (srcPort == 53 || dstPort == 53)
    ensures FromPort53(raw) && PayloadOf(raw) == payload
  {
  }

  lemma NibbleBack(high: nat, low: nat)
    requires low < 16
    ensures (high * 16 + low) % 16 == low
  {
  }

  lemma FrameIsLaid(f: Frame)
    requires WellFormed(f)
    ensures Laid(Build(f), f.headerWords, f.srcPort, f.dstPort, Payload(f))
  {
    FrameParts(f);
    NibbleBack(f.version, f.headerWords);
  }

  function Asked(f: Frame): Query {
    var name := Join(Names(f.labels));
    Query(name, TypeName(f.qtype), |name|)
  }

  lemma SniffedFrame(f: Frame)
    requires WellFormed(f) && Asked(f).name != ""
    ensures Sniff(Build(f)) == Some(Asked(f))
  {
    FrameIsLaid(f);
    QuestionOfPayload(f);
    SniffLaid(Build(f), f.headerWords, f.srcPort, f.dstPort, Payload(f), Asked(f));
  }

  lemma LabelsReadBack(labels: seq<seq<Byte>>)
    requires labels != [] && forall i :: 0 <= i < |labels| ==> AsciiLabel(labels[i])
    ensures var names := Names(labels);
            && Join(names) != "" && Split(Join(names)) == names
            && forall i :: 0 <= i < |labels| ==> SameText(names[i], labels[i])
  {
    var names := Names(labels);
    forall i | 0 <= i < |labels|
      ensures SameText(names[i], labels[i]) && DotFree(names[i]) && names[i] != ""
    {
      AsciiKeeps(labels[i]);
    }
    SplitInvertsJoinExactlyWhen(names);
    JoinedIsNotEmpty(names);
  }

  lemma JoinedIsNotEmpty(names: seq<string>)
    requires names != [] && names[0] != ""
    ensures Join(names) != ""
  {
  }

  /** Building a frame and sniffing it gives back the labels, by splitting the
      recorded name at its dots, and the type, by its text. */
  lemma {:induction false} SniffInvertsBuild(f: Frame)
    requires WellFormed(f)
    ensures var r := Sniff(Build(f));
            && r.Some? && Denotes(r.value.kind, f.qtype) && r.value.length == |r.value.name|
            && Split(r.value.name) == Names(f.labels)
            && forall i :: 0 <= i < |f.labels| ==> SameText(Names(f.labels)[i], f.labels[i])
  {
    LabelsReadBack(f.labels);
    SniffedFrame(f);
    TypeNameDenotes(f.qtype);
  }

  /** A UDP segment in IPv4, from or to port 53. */
  predicate FromPort53(raw: seq<Byte>) {
    && |raw| >= 34 && raw[23] == 17
    && var udp := 14 + (raw[14] % 16) * 4;
       && |raw| >= udp + 8
       && (256 * (raw[udp] as int) + raw[udp + 1] == 53 || 256 * (raw[udp + 2] as int) + raw[udp + 3] == 53)
  }

  /** A DNS message with a question about a name. */
  predicate AsksByName(p: seq<Byte>) {
    |p| >= 12 && 256 * (p[4] as int) + p[5] >= 1 && Join(Names(Walk(p, 12).labels)) != ""
  }

  function PayloadOf(raw: seq<Byte>): seq<Byte>
    requires FromPort53(raw)
  {
    raw[14 + (raw[14] % 16) * 4 + 8..]
  }

  lemma SniffReads(raw: seq<Byte>)
    ensures !FromPort53(raw) ==> Sniff(raw) == None
    ensures FromPort53(raw) ==>
      var item := Question(PayloadOf(raw)); Sniff(raw) == if item.Some? && item.value.name != "" then item else None
  {
  }

  /** Bytes are recorded exactly when they are such a segment with such a message,
      and what is recorded is its question. */
  lemma {:induction false} SniffExactlyWhen(raw: seq<Byte>)
    ensures Sniff(raw).Some? <==> FromPort53(raw) && AsksByName(PayloadOf(raw))
    ensures Sniff(raw).Some? ==> Asks(PayloadOf(raw), Sniff(raw).value)
  {
    SniffReads(raw);
    if FromPort53(raw) {
      QuestionAsks(PayloadOf(raw));
    }
  }

  /** `recvfrom(2048)` cuts what is longer. */
  const RECEIVED := 2048

  function Received(frame: seq<Byte>): seq<Byte> {
    if |frame| <= RECEIVED then frame else frame[..RECEIVED]
  }

  /** A frame whose question is received whole, whatever is cut behind it. */
  lemma ReceivedIsShorter(f: Frame)
    requires WellFormed(f) && |Build(f.(trailing := []))| <= RECEIVED
    ensures exists kept :: kept <= f.trailing && Received(Build(f)) == Build(f.(trailing := kept))
  {
    var bare := f.(trailing := []);
    BuildTrails(f);
    var n := RECEIVED - |Build(bare)|;
    var kept := if |f.trailing| <= n then f.trailing else f.trailing[..n];
    BuildTrails(f.(trailing := kept));
    assert f.(trailing := kept).(trailing := []) == bare;
    assert Received(Build(f)) == Build(bare) + kept;
  }

  lemma BuildTrails(f: Frame)
    requires WellFormed(f)
    ensures Build(f) == Build(f.(trailing := [])) + f.trailing
  {
    assert Payload(f) == Payload(f.(trailing := [])) + f.trailing;
  }

  /** The same from the wire: the question is recovered whenever it is within the
      bytes received. */
  lemma SniffInvertsReceived(f: Frame)
    requires WellFormed(f) && |Build(f.(trailing := []))| <= RECEIVED
    ensures var r := Sniff(Received(Build(f)));
            && r.Some? && Denotes(r.value.kind, f.qtype) && Split(r.value.name) == Names(f.labels)
  {
    ReceivedIsShorter(f);
    var kept :| kept <= f.trailing && Received(Build(f)) == Build(f.(trailing := kept));
    SniffInvertsBuild(f.(trailing := kept));
  }

  predicate SameText(s: string, l: seq<Byte>) {
    |s| == |l| && forall i :: 0 <= i < |l| ==> s[i] as int == l[i]
  }

  // ---------- The buffer ----------

  function Last<T>(s: seq<T>, n: nat): seq<T> {
    if |s| <= n then s else s[|s| - n..]
  }

  /** The newest of a sequence, at most `n` of them. */
  predicate Newest<T(==)>(kept: seq<T>, all: seq<T>, n: nat) {
    |kept| == Min(|all|, n) && kept == all[|all| - |kept|..]
  }

  lemma LastIsNewest<T>(s: seq<T>, n: nat)
    ensures Newest(Last(s, n), s, n)
  {
  }

  function Sniffed(frame: seq<Byte>): seq<Query> {
    var item := Sniff(Received(frame));
    if item.Some? then [item.value] else []
  }

  /** One frame received: its first 2048 bytes decide whether it adds a question,
      and which. */
  lemma {:induction false} SniffedExactlyWhen(frame: seq<Byte>)
    ensures var raw := if |frame| > 2048 then frame[..2048] else frame;
      if FromPort53(raw) && AsksByName(PayloadOf(raw)) then |Sniffed(frame)| == 1 && Asks(PayloadOf(raw), Sniffed(frame)[0])
      else Sniffed(frame) == []
  {
    SniffExactlyWhen(Received(frame));
  }

  function AllSniffed(frames: seq<seq<Byte>>): seq<Query> {
    if frames == [] then [] else AllSniffed(frames[..|frames|-1]) + Sniffed(frames[|frames|-1])
  }

  /** Dropping the oldest at each step comes to dropping all but the last at the end. */
  lemma LastOfLast<T>(a: seq<T>, b: seq<T>, n: nat)
    ensures Last(Last(a, n) + b, n) == Last(a + b, n)
  {
  }

  lemma AllSniffedNext(frames: seq<seq<Byte>>, i: nat)
    requires i < |frames|
    ensures AllSniffed(frames[..i + 1]) == AllSniffed(frames[..i]) + Sniffed(frames[i])
  {
    assert frames[..i + 1][..i] == frames[..i];
  }

  lemma LastNext(before: seq<Query>, seen: seq<Query>, more: seq<Query>, n: nat)
    ensures Last(Last(before + seen, n) + more, n) == Last(before + (seen + more), n)
  {
    LastOfLast(before + seen, more, n);
    Associative(before, seen, more);
  }

  class DnsSniffer {
    var buffer: seq<Query>
    const maxBuffer: nat

    constructor (maxBuffer: nat)
      ensures buffer == [] && this.maxBuffer == maxBuffer
    {
      this.maxBuffer := maxBuffer;
      buffer := [];
    }

    /** `deque(maxlen=...).append`. */
    method Append(item: Query)
      modifies this
      ensures buffer == Last(old(buffer) + [item], maxBuffer)
      ensures Newest(buffer, old(buffer) + [item], maxBuffer)
    {
      buffer := buffer + [item];
      if |buffer| > maxBuffer {
        buffer := buffer[|buffer| - maxBuffer..];
      }
    }

    /** One turn of the sniffing loop. */
    method Capture(frame: seq<Byte>)
      requires |buffer| <= maxBuffer
      modifies this
      ensures buffer == Last(old(buffer) + Sniffed(frame), maxBuffer)
    {
      var raw := Received(frame);
      if |raw| < 34 {
        return;
      }
      var proto := raw[23];
      if proto == 17 {
        var udp := 14 + (raw[14] % 16) * 4;
        if |raw| >= udp + 8 {
          var srcPort, dstPort := Word(raw, udp), Word(raw, udp + 2);
          if dstPort == 53 || srcPort == 53 {
            var item := ParseDnsQuestion(raw[udp + 8..]);
            if item.Some? && item.value.name != "" {
              Append(item.value);
            }
          }
        }
      }
    }

    method CaptureNext(ghost before: seq<Query>, frames: seq<seq<Byte>>, i: nat)
      requires i < |frames| && |buffer| <= maxBuffer
      requires buffer == Last(before + AllSniffed(frames[..i]), maxBuffer)
      modifies this
      ensures |buffer| <= maxBuffer
      ensures buffer == Last(before + AllSniffed(frames[..i + 1]), maxBuffer)
    {
      AllSniffedNext(frames, i);
      LastNext(before, AllSniffed(frames[..i]), Sniffed(frames[i]), maxBuffer);
      Capture(frames[i]);
    }

    /** After any frames the buffer holds the latest of all questions seen, in order. */
    method CaptureAll(frames: seq<seq<Byte>>)
      requires |buffer| <= maxBuffer
      modifies this
      ensures buffer == Last(old(buffer) + AllSniffed(frames), maxBuffer)
      ensures Newest(buffer, old(buffer) + AllSniffed(frames), maxBuffer)
    {
      LastIsNewest(buffer + AllSniffed(frames), maxBuffer);
      ghost var before := buffer;
      assert before + [] == before;
      var i := 0;
      while i < |frames|
        invariant i <= |frames| && |buffer| <= maxBuffer
        invariant buffer == Last(before + AllSniffed(frames[..i]), maxBuffer)
      {
        CaptureNext(before, frames, i);
        i := i + 1;
      }
      assert frames[..i] == frames;
    }

    /** Reports the buffer and keeps it: the next report holds the same questions again. */
    method GetRecentQueries() returns (queries: seq<Query>)
      ensures queries == buffer
    {
      queries := buffer;
    }
  }
}
