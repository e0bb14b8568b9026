/** The authentication log monitor (agent/auth_monitor.py): it keeps a position
    in one log file and turns the lines after it into events.  A file is its
    text, one character for each byte. */
module AuthLog {
  import opened Options
  import opened Sequences

  type Path = string

  /** The files that exist, with their text. */
  type Files = map<Path, string>

  const LOG_PATHS: seq<Path> := ["/tmp/auth.log", "/var/log/auth.log", "/var/log/secure"]

  // ---------- Lines and events ----------

  /** Where the first line ends, its newline included. */
  function LineEnd(text: string): (n: nat)
    ensures n <= |text|
    ensures text != "" ==> n > 0
  {
    if text == "" then 0
    else if text[0] == '\n' then 1
    else 1 + LineEnd(text[1..])
  }

  /** The lines of a text with their newlines; the last may lack one. */
  function Lines(text: string): (r: seq<string>)
    ensures r == [] <==> text == ""
  {
    if text == "" then [] else [text[..LineEnd(text)]] + Lines(text[LineEnd(text)..])
  }

  predicate Terminated(text: string) { text != "" && text[|text| - 1] == '\n' }

  predicate Space(c: char) { c == ' ' || '\t' <= c <= '\r' || '\U{1C}' <= c <= '\U{1F}' }

  function StripLeft(s: string): string {
    if s != "" && Space(s[0]) then StripLeft(s[1..]) else s
  }

  function StripRight(s: string): string {
    if s != "" && Space(s[|s| - 1]) then StripRight(s[..|s| - 1]) else s
  }

  function Strip(s: string): string { StripRight(StripLeft(s)) }

  datatype Event = Event(service: string, sourceIp: string, username: string, status: string)

  /** Stands for the three patterns, tried in turn. */
  type Classifier = string -> Option<Event>

  function EventsIn(raw: string, classify: Classifier): seq<Event> {
    var line := Strip(raw);
    if line != "" && classify(line).Some? then [classify(line).value] else []
  }

  function Events(lines: seq<string>, classify: Classifier): seq<Event> {
    if lines == [] then [] else EventsIn(lines[0], classify) + Events(lines[1..], classify)
  }

  lemma {:induction false} EventsAppend(a: seq<string>, b: seq<string>, classify: Classifier)
    ensures Events(a + b, classify) == Events(a, classify) + Events(b, classify)
  {
    if a == [] {
      assert a + b == b;
    } else {
      EventsAppend(a[1..], b, classify);
      assert (a + b)[0] == a[0] && (a + b)[1..] == a[1..] + b;
      Associative(EventsIn(a[0], classify), Events(a[1..], classify), Events(b, classify));
    }
  }

  predicate AllSpace(s: string) { forall i :: 0 <= i < |s| ==> Space(s[i]) }

  predicate Bare(s: string) { s != "" && !Space(s[0]) && !Space(s[|s| - 1]) }

  lemma {:induction false} StripLeftPast(a: string, core: string)
    requires AllSpace(a) && (core == "" || !Space(core[0]))
    ensures StripLeft(a + core) == core
  {
    if a == "" {
      assert a + core == core;
    } else {
      StripLeftPast(a[1..], core);
      assert (a + core)[1..] == a[1..] + core;
    }
  }

  lemma {:induction false} StripRightPast(core: string, b: string)
    requires AllSpace(b) && (core == "" || !Space(core[|core| - 1]))
    ensures StripRight(core + b) == core
  {
    if b == "" {
      assert core + b == core;
    } else {
      FrontAppend(core, b);
      StripRightPast(core, b[..|b| - 1]);
    }
  }

  /** A line gives the event of what is left without the white space around it, and
      a blank line gives none. */
  lemma {:induction false} LineGivesEvent(a: string, core: string, b: string, classify: Classifier)
    requires AllSpace(a) && AllSpace(b) && (core == "" || Bare(core))
    ensures EventsIn(a + core + b, classify)
         == if core != "" && classify(core).Some? then [classify(core).value] else []
  {
    if core == "" {
      assert AllSpace(a + core + b);
      StripLeftPast(a + core + b, "");
      assert a + core + b + "" == a + core + b;
    } else {
      Associative(a, core, b);
      StripLeftPast(a, core + b);
      StripRightPast(core, b);
    }
  }

  // ---------- One poll ----------

  /** The text a poll reads. */
  function NewText(content: string, pos: nat): string {
    if |content| < pos then content else content[pos..]
  }

  function Detect(files: Files): (r: Option<Path>)
    ensures r.Some? ==> r.value in files
  {
    if LOG_PATHS[0] in files then Some(LOG_PATHS[0])
    else if LOG_PATHS[1] in files then Some(LOG_PATHS[1])
    else if LOG_PATHS[2] in files then Some(LOG_PATHS[2])
    else None
  }

  /** The file a poll looks at. */
  function Followed(active: Option<Path>, files: Files): (r: Option<Path>)
    ensures r.Some? ==> r.value in files
  {
    if active.Some? && active.value in files then active else Detect(files)
  }

  /** The first of the known paths that exists. */
  ghost predicate FirstThere(p: Path, files: Files) {
    exists i :: 0 <= i < |LOG_PATHS| && LOG_PATHS[i] == p && p in files && forall j :: 0 <= j < i ==> LOG_PATHS[j] !in files
  }

  method DetectLogFile(files: Files) returns (r: Option<Path>)
    ensures r == Detect(files)
    ensures r.None? <==> forall p :: p in LOG_PATHS ==> p !in files
    ensures r.Some? ==> FirstThere(r.value, files)
  {
    for i := 0 to |LOG_PATHS|
      invariant forall j :: 0 <= j < i ==> LOG_PATHS[j] !in files
    {
      if LOG_PATHS[i] in files {
        return Some(LOG_PATHS[i]);
      }
    }
    return None;
  }

  class AuthMonitor {
    var activeLogPath: Option<Path>
    var filePos: nat

    constructor (files: Files)
      ensures activeLogPath == Detect(files)
      ensures filePos == if activeLogPath.Some? then |files[activeLogPath.value]| else 0
    {
      var p := DetectLogFile(files);
      activeLogPath := p;
      filePos := if p.Some? then |files[p.value]| else 0;
    }

    method GetNewEvents(files: Files, classify: Classifier) returns (events: seq<Event>)
      modifies this
      ensures activeLogPath == Followed(old(activeLogPath), files)
      ensures old(activeLogPath).Some? && old(activeLogPath).value in files ==> activeLogPath == old(activeLogPath)
      ensures old(activeLogPath).None? || old(activeLogPath).value !in files ==>
        if activeLogPath.Some? then FirstThere(activeLogPath.value, files) else forall p :: p in LOG_PATHS ==> p !in files
      ensures activeLogPath.None? ==> events == [] && filePos == old(filePos)
      ensures activeLogPath.Some? ==>
        var content := files[activeLogPath.value];
        filePos == |content| && events == Events(Lines(NewText(content, old(filePos))), classify)
    {
      if activeLogPath.None? || activeLogPath.value !in files {
        activeLogPath := DetectLogFile(files);
        if activeLogPath.None? {
          return [];
        }
      }
      var content := files[activeLogPath.value];
      if |content| < filePos {
        filePos := 0;
      }
      assert content[0..] == content;
      var lines := Lines(content[filePos..]);
      filePos := |content|;
      events := Classified(lines, classify);
    }
  }

  lemma EventsPush(lines: seq<string>, i: nat, classify: Classifier)
    requires i < |lines|
    ensures Events(lines[..i + 1], classify) == Events(lines[..i], classify) + EventsIn(lines[i], classify)
  {
    assert lines[..i + 1] == lines[..i] + [lines[i]];
    EventsAppend(lines[..i], [lines[i]], classify);
    assert [lines[i]][1..] == [];
    assert Events([lines[i]], classify) == EventsIn(lines[i], classify) + [];
  }

  method Classified(lines: seq<string>, classify: Classifier) returns (events: seq<Event>)
    ensures events == Events(lines, classify)
  {
    events := [];
    for i := 0 to |lines|
      invariant events == Events(lines[..i], classify)
    {
      EventsPush(lines, i, classify);
      var line := Strip(lines[i]);
      if line != "" {
        var event := classify(line);
        if event.Some? {
          events := events + [event.value];
        }
      }
    }
    assert lines[..|lines|] == lines;
  }

  // ---------- What is written between two polls ----------

  /** Text added to the file, or another file put in its place. */
  datatype Write = Append(text: string) | Replace(text: string)

  function Content(before: string, writes: seq<Write>): string {
    if writes == [] then before
    else
      var w := writes[|writes| - 1];
      if w.Append? then Content(before, writes[..|writes| - 1]) + w.text else w.text
  }

  function Written(writes: seq<Write>): string {
    if writes == [] then "" else Written(writes[..|writes| - 1]) + writes[|writes| - 1].text
  }

  predicate Rotated(writes: seq<Write>) {
    writes != [] && (writes[|writes| - 1].Replace? || Rotated(writes[..|writes| - 1]))
  }

  /** The text written before the last replacement. */
  function Dropped(writes: seq<Write>): string {
    if writes == [] then ""
    else
      var front := writes[..|writes| - 1];
      if writes[|writes| - 1].Replace? then Written(front) else Dropped(front)
  }

  lemma {:induction false} WrittenSplits(before: string, writes: seq<Write>)
    ensures if Rotated(writes) then Written(writes) == Dropped(writes) + Content(before, writes)
            else Content(before, writes) == before + Written(writes)
  {
    if writes != [] {
      var front, last := writes[..|writes| - 1], writes[|writes| - 1];
      WrittenSplits(before, front);
      if last.Append? {
        assert Written(writes) == Written(front) + last.text;
        if Rotated(front) {
          assert Dropped(front) + Content(before, front) + last.text == Dropped(front) + (Content(before, front) + last.text);
        } else {
          assert before + Written(front) + last.text == before + (Written(front) + last.text);
        }
      }
    }
  }

  /** Nothing was dropped, and the new file is seen to be new. */
  predicate Noticed(before: string, writes: seq<Write>) {
    Rotated(writes) ==>
      Dropped(writes) == "" && (before == "" || |Content(before, writes)| < |before|)
  }

  /** A poll reads exactly what was written since the last one when, and only
      when, every replacement is noticed. */
  lemma {:induction false} PollReadsWrittenExactlyWhen(before: string, writes: seq<Write>)
    ensures NewText(Content(before, writes), |before|) == Written(writes) <==> Noticed(before, writes)
  {
    WrittenSplits(before, writes);
    var content := Content(before, writes);
    if Rotated(writes) {
      assert |Written(writes)| == |Dropped(writes)| + |content|;
      if Noticed(before, writes) {
        assert Dropped(writes) + content == content;
      }
    }
  }

  /** After a switch to another file the old position is used in it: it is read
      whole exactly when it is shorter than that position or the position is 0. */
  lemma WholeFileReadExactlyWhen(content: string, pos: nat)
    ensures NewText(content, pos) == content <==> pos == 0 || |content| < pos
  {
  }

  // ---------- Any number of polls ----------

  /** The file after each round of writes; each round ends with a poll. */
  function Reads(before: string, rounds: seq<seq<Write>>): seq<string>
    decreases |rounds|
  {
    if rounds == [] then []
    else
      var after := Content(before, rounds[0]);
      [NewText(after, |before|)] + Reads(after, rounds[1..])
  }

  function Texts(rounds: seq<seq<Write>>): seq<string> {
    if rounds == [] then [] else [Written(rounds[0])] + Texts(rounds[1..])
  }

  predicate AllNoticed(before: string, rounds: seq<seq<Write>>)
    decreases |rounds|
  {
    rounds == [] || (Noticed(before, rounds[0]) && AllNoticed(Content(before, rounds[0]), rounds[1..]))
  }

  lemma {:induction false} RunReadsWrittenExactlyWhen(before: string, rounds: seq<seq<Write>>)
    ensures Reads(before, rounds) == Texts(rounds) <==> AllNoticed(before, rounds)
    decreases |rounds|
  {
    if rounds != [] {
      var after := Content(before, rounds[0]);
      PollReadsWrittenExactlyWhen(before, rounds[0]);
      RunReadsWrittenExactlyWhen(after, rounds[1..]);
      assert Reads(before, rounds)[0] == NewText(after, |before|) && Texts(rounds)[0] == Written(rounds[0]);
      assert Reads(before, rounds)[1..] == Reads(after, rounds[1..]) && Texts(rounds)[1..] == Texts(rounds[1..]);
    }
  }

  function Joined(texts: seq<string>): string {
    if texts == [] then "" else texts[0] + Joined(texts[1..])
  }

  /** The lines seen by polls that read these texts one after the other. */
  function LinesSeen(texts: seq<string>): seq<string> {
    if texts == [] then [] else Lines(texts[0]) + LinesSeen(texts[1..])
  }

  /** No poll comes in the middle of a line. */
  predicate WholeLines(texts: seq<string>) {
    texts == []
    || (&& (texts[0] == "" || Terminated(texts[0]) || Joined(texts[1..]) == "")
        && WholeLines(texts[1..]))
  }

  lemma {:induction false} LineEndAppend(x: string, y: string)
    requires Terminated(x)
    ensures LineEnd(x + y) == LineEnd(x)
    ensures x[LineEnd(x)..] == "" || Terminated(x[LineEnd(x)..])
  {
    if x[0] != '\n' {
      LineEndAppend(x[1..], y);
      assert (x + y)[1..] == x[1..] + y;
    }
  }

  lemma LinesStart(text: string)
    requires text != ""
    ensures Lines(text) == [text[..LineEnd(text)]] + Lines(text[LineEnd(text)..])
  {
  }

  lemma FirstLine(x: string, y: string)
    requires Terminated(x)
    ensures Lines(x + y) == [x[..LineEnd(x)]] + Lines(x[LineEnd(x)..] + y)
    ensures Lines(x) == [x[..LineEnd(x)]] + Lines(x[LineEnd(x)..])
  {
    var n := LineEnd(x);
    LineEndAppend(x, y);
    LinesStart(x);
    LinesStart(x + y);
    SplitAppend(x, y, n);
  }

  lemma {:induction false} LinesAppend(x: string, y: string)
    requires x == "" || Terminated(x)
    ensures Lines(x + y) == Lines(x) + Lines(y)
    decreases |x|
  {
    if x == "" {
      assert x + y == y;
    } else {
      var n := LineEnd(x);
      LineEndAppend(x, y);
      LinesAppend(x[n..], y);
      FirstLine(x, y);
      Associative([x[..n]], Lines(x[n..]), Lines(y));
    }
  }

  lemma {:induction false} LineEndTerminated(text: string)
    ensures text != "" && LineEnd(text) < |text| ==> Terminated(text[..LineEnd(text)])
  {
    if text != "" && text[0] != '\n' {
      LineEndTerminated(text[1..]);
      if LineEnd(text) < |text| {
        assert text[..LineEnd(text)] == [text[0]] + text[1..][..LineEnd(text[1..])];
      }
    }
  }

  /** Every line but the last ends with a newline, and the last ends as the text. */
  lemma {:induction false} LinesEnd(text: string)
    ensures forall i :: 0 <= i < |Lines(text)| - 1 ==> Terminated(Lines(text)[i])
    ensures text != "" ==> Terminated(Lines(text)[|Lines(text)| - 1]) == Terminated(text)
    decreases |text|
  {
    if text != "" {
      var n := LineEnd(text);
      LineEndTerminated(text);
      LinesEnd(text[n..]);
      if n == |text| {
        assert text[..n] == text && text[n..] == "";
      }
    }
  }

  /** No newline before the last character. */
  predicate OneEnding(line: string) { line != "" && forall i :: 0 <= i < |line| - 1 ==> line[i] != '\n' }

  lemma {:induction false} LineEndHolds(text: string)
    requires text != ""
    ensures OneEnding(text[..LineEnd(text)])
  {
    if text[0] != '\n' && text[1..] != "" {
      LineEndHolds(text[1..]);
      var line, rest := text[..LineEnd(text)], text[1..][..LineEnd(text[1..])];
      assert line == [text[0]] + rest;
    }
  }

  lemma {:induction false} JoinedLines(text: string)
    ensures Joined(Lines(text)) == text
    decreases |text|
  {
    if text != "" {
      var n := LineEnd(text);
      JoinedLines(text[n..]);
      LinesStart(text);
      assert Lines(text)[1..] == Lines(text[n..]);
      assert text[..n] + text[n..] == text;
    }
  }

  lemma {:induction false} EachLineEndsOnce(text: string, i: nat)
    requires i < |Lines(text)|
    ensures OneEnding(Lines(text)[i])
    decreases |text|
  {
    LinesStart(text);
    if i == 0 {
      LineEndHolds(text);
    } else {
      EachLineEndsOnce(text[LineEnd(text)..], i - 1);
    }
  }

  /** The lines are the text, cut after each newline and nowhere else. */
  lemma {:induction false} LinesCutText(text: string)
    ensures Joined(Lines(text)) == text
    ensures forall i :: 0 <= i < |Lines(text)| ==> OneEnding(Lines(text)[i])
    ensures forall i :: 0 <= i < |Lines(text)| - 1 ==> Terminated(Lines(text)[i])
  {
    JoinedLines(text);
    LinesEnd(text);
    forall i | 0 <= i < |Lines(text)|
      ensures OneEnding(Lines(text)[i])
    {
      EachLineEndsOnce(text, i);
    }
  }

  lemma {:induction false} SomethingSeen(texts: seq<string>)
    ensures LinesSeen(texts) == [] <==> Joined(texts) == ""
  {
    if texts != [] {
      SomethingSeen(texts[1..]);
    }
  }

  /** The polls see the lines that were written exactly when none of them came
      in the middle of a line. */
  lemma {:induction false} LinesSeenExactlyWhen(texts: seq<string>)
    ensures LinesSeen(texts) == Lines(Joined(texts)) <==> WholeLines(texts)
  {
    if texts != [] {
      var t, rest := texts[0], texts[1..];
      LinesSeenExactlyWhen(rest);
      if t == "" || Terminated(t) {
        LinesAppend(t, Joined(rest));
        if LinesSeen(texts) == Lines(Joined(texts)) {
          assert LinesSeen(rest) == LinesSeen(texts)[|Lines(t)|..] == Lines(Joined(rest));
        }
      } else {
        SomethingSeen(rest);
        LinesEnd(t);
        LinesEnd(t + Joined(rest));
        if Joined(rest) == "" {
          assert t + Joined(rest) == t;
          assert Lines(t) + [] == Lines(t);
        } else {
          assert LinesSeen(texts)[|Lines(t)| - 1] == Lines(t)[|Lines(t)| - 1];
        }
      }
    }
  }

  function EventsSeen(texts: seq<string>, classify: Classifier): seq<Event> {
    if texts == [] then [] else Events(Lines(texts[0]), classify) + EventsSeen(texts[1..], classify)
  }

  lemma {:induction false} EventsOfLinesSeen(texts: seq<string>, classify: Classifier)
    ensures EventsSeen(texts, classify) == Events(LinesSeen(texts), classify)
  {
    if texts != [] {
      EventsOfLinesSeen(texts[1..], classify);
      EventsAppend(Lines(texts[0]), LinesSeen(texts[1..]), classify);
    }
  }

  /** Over any run in which replacements are noticed and lines are written whole,
      the events of all polls are those of every line written since startup, in
      order and each exactly once. */
  lemma {:induction false} EveryLineOnce(before: string, rounds: seq<seq<Write>>, classify: Classifier)
    requires AllNoticed(before, rounds) && WholeLines(Texts(rounds))
    ensures EventsSeen(Reads(before, rounds), classify) == Events(Lines(Joined(Texts(rounds))), classify)
  {
    RunReadsWrittenExactlyWhen(before, rounds);
    LinesSeenExactlyWhen(Texts(rounds));
    EventsOfLinesSeen(Texts(rounds), classify);
  }

  lemma EventsSeenStep(content: string, rounds: seq<seq<Write>>, i: nat, classify: Classifier)
    requires i < |rounds|
    ensures var after := Content(content, rounds[i]);
      EventsSeen(Reads(content, rounds[i..]), classify)
      == Events(Lines(NewText(after, |content|)), classify) + EventsSeen(Reads(after, rounds[i + 1..]), classify)
  {
  }

  /** What remains to be seen from round `i` on. */
  function Remaining(content: string, rounds: seq<seq<Write>>, i: nat, classify: Classifier): seq<Event>
    requires i <= |rounds|
  {
    EventsSeen(Reads(content, rounds[i..]), classify)
  }

  predicate At(monitor: AuthMonitor, path: Path, pos: nat)
    reads monitor
  {
    monitor.activeLogPath == Some(path) && monitor.filePos == pos
  }

  method Poll(monitor: AuthMonitor, path: Path, before: string, rounds: seq<seq<Write>>, i: nat, classify: Classifier)
    returns (content: string, more: seq<Event>)
    requires i < |rounds| && At(monitor, path, |before|)
    modifies monitor
    ensures At(monitor, path, |content|)
    ensures Remaining(before, rounds, i, classify) == more + Remaining(content, rounds, i + 1, classify)
  {
    EventsSeenStep(before, rounds, i, classify);
    content := Content(before, rounds[i]);
    more := monitor.GetNewEvents(map[path := content], classify);
  }

  /** A monitor started on a file and polled after each round of writes. */
  method Follow(path: Path, before: string, rounds: seq<seq<Write>>, classify: Classifier)
    returns (events: seq<Event>)
    requires path in LOG_PATHS
    ensures events == EventsSeen(Reads(before, rounds), classify)
  {
    var content := before;
    var monitor := new AuthMonitor(map[path := content]);
    events := [];
    ghost var goal := Remaining(before, rounds, 0, classify);
    assert rounds[0..] == rounds;
    for i := 0 to |rounds|
      invariant fresh(monitor) && At(monitor, path, |content|)
      invariant events + Remaining(content, rounds, i, classify) == goal
    {
      var more;
      content, more := Poll(monitor, path, content, rounds, i, classify);
      Associative(events, more, Remaining(content, rounds, i + 1, classify));
      events := events + more;
    }
  }

  lemma {:induction false} OneLine(text: string)
    requires text != "" && LineEnd(text) == |text|
    ensures Lines(text) == [text]
  {
    assert text[..|text|] == text && text[|text|..] == "";
  }

  /** A replacement by a file that is no shorter loses its lines. */
  lemma {:induction false} UnnoticedReplacementLosesLines(before: string, text: string)
    requires before != "" && |text| == |before|
    ensures LinesSeen(Reads(before, [[Replace(text)]])) == []
    ensures Lines(Joined(Texts([[Replace(text)]]))) == Lines(text) != []
  {
    var writes := [Replace(text)];
    assert writes[..0] == [];
    assert Written(writes) == "" + text == text && Content(before, writes) == text;
    var none: seq<seq<Write>> := [];
    assert [writes][1..] == none;
    assert Reads(before, [writes]) == [""] + Reads(text, none);
    assert Texts([writes]) == [text];
    assert Joined([text]) == text + "" == text;
  }

  lemma OneLineEvents(line: string, classify: Classifier)
    requires Bare(line)
    ensures Events([line], classify) == if classify(line).Some? then [classify(line).value] else []
  {
    LineGivesEvent("", line, "", classify);
    assert "" + line + "" == line && [line][1..] == [];
    assert Events([line], classify) == EventsIn(line, classify) + Events([], classify);
  }

  /** A poll in the middle of a line sees two lines and may miss its event. */
  lemma {:induction false} HalfLinesLoseEvents(classify: Classifier)
    requires classify("ab").Some? && classify("a") == None && classify("b") == None
    ensures EventsSeen(["a", "b"], classify) == []
    ensures Events(Lines(Joined(["a", "b"])), classify) == [classify("ab").value]
  {
    assert "ab"[1..] == "b" && "b"[1..] == "" && "a"[1..] == "";
    OneLine("a");
    OneLine("b");
    OneLine("ab");
    assert ["a", "b"][1..] == ["b"] && ["b"][1..] == [];
    assert Joined(["b"]) == "b" + "" == "b" && Joined(["a", "b"]) == "a" + "b" == "ab";
    OneLineEvents("a", classify);
    OneLineEvents("b", classify);
    OneLineEvents("ab", classify);
  }
}
