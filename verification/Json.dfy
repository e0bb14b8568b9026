/** JSON text (RFC 8259): the reader the manager applies to what agents send,
    and the compact printing with the escapes of the Windows agent.  The laws
    say exactly which values come back from their printing. */
module Json {
  import opened Options
  import opened Sequences

  datatype Json =
    | Null
    | Bool(b: bool)
    | Num(n: int)
    | Str(s: string)
    | Arr(items: seq<Json>)
    | Obj(members: seq<Member>)

  datatype Member = Member(key: string, value: Json)

  /** `dict.get`: the last member of a name counts, and a missing one reads as null. */
  function Lookup(members: seq<Member>, key: string): Json {
    if members == [] then Null
    else if members[|members|-1].key == key then members[|members|-1].value
    else Lookup(members[..|members|-1], key)
  }

  lemma {:induction false} LookupLast(members: seq<Member>, i: nat)
    requires i < |members| && forall j :: i < j < |members| ==> members[j].key != members[i].key
    ensures Lookup(members, members[i].key) == members[i].value
  {
    var n := |members| - 1;
    if i < n {
      assert members[n].key != members[i].key;
      LookupLast(members[..n], i);
    }
  }

  lemma {:induction false} LookupMissing(members: seq<Member>, key: string)
    requires forall j :: 0 <= j < |members| ==> members[j].key != key
    ensures Lookup(members, key) == Null
  {
    if members != [] {
      LookupMissing(members[..|members| - 1], key);
    }
  }

  lemma LookupStep(members: seq<Member>, m: Member, key: string)
    ensures Lookup(members + [m], key) == if m.key == key then m.value else Lookup(members, key)
  {
  }

  predicate DistinctKeys(members: seq<Member>) {
    forall i, j :: 0 <= i < j < |members| ==> members[i].key != members[j].key
  }

  lemma LookupAt(members: seq<Member>, i: nat)
    requires i < |members| && DistinctKeys(members)
    ensures Lookup(members, members[i].key) == members[i].value
  {
    LookupLast(members, i);
  }

  // ---------- Printing ----------

  function Digit(d: nat): char
    requires d < 10
  {
    "0123456789"[d]
  }

  function Natural(n: nat): string {
    if n < 10 then [Digit(n)] else Natural(n / 10) + [Digit(n % 10)]
  }

  function Decimal(n: int): string {
    if n < 0 then "-" + Natural(-n) else Natural(n)
  }

  /** The five characters the agent escapes; all others are copied. */
  function EscapedChar(c: char): string {
    if c == '"' then "\\\""
    else if c == '\\' then "\\\\"
    else if c == '\n' then "\\n"
    else if c == '\r' then "\\r"
    else if c == '\t' then "\\t"
    else [c]
  }

  function Escaped(s: string): string {
    if s == "" then "" else EscapedChar(s[0]) + Escaped(s[1..])
  }

  function Quoted(s: string): string { "\"" + Escaped(s) + "\"" }

  function Print(j: Json): string
    decreases j, 1
  {
    match j
    case Null => "null"
    case Bool(b) => if b then "true" else "false"
    case Num(n) => Decimal(n)
    case Str(s) => Quoted(s)
    case Arr(items) => "[" + PrintItems(items) + "]"
    case Obj(members) => "{" + PrintMembers(members) + "}"
  }

  function PrintItems(items: seq<Json>): string
    decreases items, 0
  {
    if items == [] then ""
    else if |items| == 1 then Print(items[0])
    else Print(items[0]) + "," + PrintItems(items[1..])
  }

  function PrintMember(m: Member): string
    decreases m, 2
  {
    Quoted(m.key) + ":" + Print(m.value)
  }

  function PrintMembers(members: seq<Member>): string
    decreases members, 0
  {
    if members == [] then ""
    else if |members| == 1 then PrintMember(members[0])
    else PrintMember(members[0]) + "," + PrintMembers(members[1..])
  }

  // ---------- Reading ----------

  datatype Parsed<+T> = Fail | Got(value: T, rest: string)

  predicate IsSpace(c: char) { c in {' ', '\t', '\n', '\r'} }

  function Skip(s: string): (r: string)
    ensures |r| <= |s|
    ensures r != "" ==> !IsSpace(r[0])
  {
    if s != "" && IsSpace(s[0]) then Skip(s[1..]) else s
  }

  predicate IsDigit(c: char) { '0' <= c <= '9' }

  function DigitValue(c: char): nat
    requires IsDigit(c)
  {
    c as int - '0' as int
  }

  function Hex(c: char): Option<nat> {
    if IsDigit(c) then Some(c as int - '0' as int)
    else if 'a' <= c <= 'f' then Some(c as int - 'a' as int + 10)
    else if 'A' <= c <= 'F' then Some(c as int - 'A' as int + 10)
    else None
  }

  /** Four hexadecimal digits. */
  function Hex4(s: string): (r: Option<nat>)
    ensures r.Some? ==> r.value < 0x10000
  {
    if |s| < 4 then None
    else
      var (a, b, c, d) := (Hex(s[0]), Hex(s[1]), Hex(s[2]), Hex(s[3]));
      if a.Some? && b.Some? && c.Some? && d.Some? && a.value < 16 && b.value < 16 && c.value < 16 && d.value < 16
      then Some(((a.value * 16 + b.value) * 16 + c.value) * 16 + d.value)
      else None
  }

  /** The character after `\u`: one code unit, or two that make a surrogate pair. */
  function UnicodeEscape(s: string): (r: Parsed<char>)
    ensures r.Got? ==> |r.rest| < |s|
  {
    var high := Hex4(s);
    if high.None? then Fail
    else if high.value < 0xD800 || 0xE000 <= high.value then Got(high.value as char, s[4..])
    else if 0xDC00 <= high.value || |s| < 10 || s[4] != '\\' || s[5] != 'u' then Fail
    else
      var low := Hex4(s[6..]);
      if low.None? || low.value < 0xDC00 || 0xE000 <= low.value then Fail
      else
        var code := 0x10000 + (high.value - 0xD800) * 0x400 + (low.value - 0xDC00);
        assert code < 0x110000;
        Got(code as char, s[10..])
  }

  function Unescaped(c: char): Option<char> {
    match c
    case '"' => Some('"')
    case '\\' => Some('\\')
    case '/' => Some('/')
    case 'b' => Some(8 as char)
    case 'f' => Some(12 as char)
    case 'n' => Some('\n')
    case 'r' => Some('\r')
    case 't' => Some('\t')
    case _ => None
  }

  /** The escapes of section 7 of RFC 8259, by code point. */
  const ESCAPES: map<char, nat> := map[
    '"' := 0x22, '\\' := 0x5C, '/' := 0x2F, 'b' := 0x08, 'f' := 0x0C, 'n' := 0x0A, 'r' := 0x0D, 't' := 0x09]

  lemma UnescapedHolds(c: char)
    ensures Unescaped(c).Some? <==> c in ESCAPES
    ensures c in ESCAPES ==> Unescaped(c).value as int == ESCAPES[c]
  {
  }

  /** One character of a string, which is not its closing quote. */
  function ReadChar(s: string): (r: Parsed<char>)
    requires s != ""
    ensures r.Got? ==> |r.rest| < |s|
  {
    if s[0] < ' ' then Fail
    else if s[0] != '\\' then Got(s[0], s[1..])
    else if |s| < 2 then Fail
    else if s[1] == 'u' then UnicodeEscape(s[2..])
    else
      var c := Unescaped(s[1]);
      if c.None? then Fail else Got(c.value, s[2..])
  }

  /** The rest of a string after its opening quote. */
  function ReadString(s: string): (r: Parsed<string>)
    ensures r.Got? ==> |r.rest| < |s|
    decreases |s|
  {
    if s == "" then Fail
    else if s[0] == '"' then Got("", s[1..])
    else
      var c := ReadChar(s);
      if c.Fail? then Fail
      else
        var more := ReadString(c.rest);
        if more.Fail? then Fail else Got([c.value] + more.value, more.rest)
  }

  /** The number written by a run of digits, and what follows it. */
  function ReadDigits(s: string, sofar: nat): (r: (nat, string))
    ensures |r.1| <= |s|
    ensures s != "" && IsDigit(s[0]) ==> |r.1| < |s|
  {
    if s != "" && IsDigit(s[0]) then ReadDigits(s[1..], 10 * sofar + DigitValue(s[0])) else (sofar, s)
  }

  /** Integers only: a fraction or an exponent is refused. */
  function ReadNumber(s: string): (r: Parsed<Json>)
    requires s != ""
    ensures r.Got? ==> |r.rest| < |s|
  {
    var digits := if s[0] == '-' then s[1..] else s;
    if digits == "" || !IsDigit(digits[0]) then Fail
    else
      var (n, rest) := if digits[0] == '0' then (0, digits[1..]) else ReadDigits(digits, 0);
      if rest != "" && (rest[0] in {'.', 'e', 'E'} || IsDigit(rest[0])) then Fail
      else Got(Num(if s[0] == '-' then 0 - n as int else n), rest)
  }

  function ReadValue(s: string): (r: Parsed<Json>)
    ensures r.Got? ==> |r.rest| < |s|
    decreases |s|, 1
  {
    var t := Skip(s);
    if t == "" then Fail
    else if t[0] == '"' then
      var r := ReadString(t[1..]);
      if r.Fail? then Fail else Got(Str(r.value), r.rest)
    else if t[0] == '[' then
      var u := Skip(t[1..]);
      if u != "" && u[0] == ']' then Got(Arr([]), u[1..])
      else
        var r := ReadItems(t[1..]);
        if r.Fail? then Fail else Got(Arr(r.value), r.rest)
    else if t[0] == '{' then
      var u := Skip(t[1..]);
      if u != "" && u[0] == '}' then Got(Obj([]), u[1..])
      else
        var r := ReadMembers(t[1..]);
        if r.Fail? then Fail else Got(Obj(r.value), r.rest)
    else if "null" <= t then Got(Null, t[4..])
    else if "true" <= t then Got(Bool(true), t[4..])
    else if "false" <= t then Got(Bool(false), t[5..])
    else ReadNumber(t)
  }

  /** One or more items and the closing bracket. */
  function ReadItems(s: string): (r: Parsed<seq<Json>>)
    ensures r.Got? ==> |r.rest| < |s|
    decreases |s|, 2
  {
    var first := ReadValue(s);
    if first.Fail? then Fail
    else
      var t := Skip(first.rest);
      if t == "" then Fail
      else if t[0] == ']' then Got([first.value], t[1..])
      else if t[0] != ',' then Fail
      else
        var more := ReadItems(t[1..]);
        if more.Fail? then Fail else Got([first.value] + more.value, more.rest)
  }

  /** One or more members and the closing brace. */
  function ReadMembers(s: string): (r: Parsed<seq<Member>>)
    ensures r.Got? ==> |r.rest| < |s|
    decreases |s|, 2
  {
    var m := ReadMember(s);
    if m.Fail? then Fail
    else
      var t := Skip(m.rest);
      if t == "" then Fail
      else if t[0] == '}' then Got([m.value], t[1..])
      else if t[0] != ',' then Fail
      else
        var more := ReadMembers(t[1..]);
        if more.Fail? then Fail else Got([m.value] + more.value, more.rest)
  }

  function ReadMember(s: string): (r: Parsed<Member>)
    ensures r.Got? ==> |r.rest| < |s|
    decreases |s|, 1
  {
    var t := Skip(s);
    if t == "" || t[0] != '"' then Fail
    else
      var key := ReadString(t[1..]);
      if key.Fail? then Fail
      else
        var u := Skip(key.rest);
        if u == "" || u[0] != ':' then Fail
        else
          var v := ReadValue(u[1..]);
          if v.Fail? then Fail else Got(Member(key.value, v.value), v.rest)
  }

  /** A whole text: one value and nothing after it but space. */
  function Parse(s: string): Option<Json> {
    var r := ReadValue(s);
    if r.Got? && Skip(r.rest) == "" then Some(r.value) else None
  }

  // ---------- Which values survive ----------

  /** A control character the agent does not escape makes the text invalid. */
  predicate CleanChar(c: char) { ' ' <= c || c in {'\n', '\r', '\t'} }

  predicate CleanString(s: string) { forall i :: 0 <= i < |s| ==> CleanChar(s[i]) }

  predicate Clean(j: Json)
    decreases j, 1
  {
    match j
    case Str(s) => CleanString(s)
    case Arr(items) => CleanItems(items)
    case Obj(members) => CleanMembers(members)
    case _ => true
  }

  predicate CleanItems(items: seq<Json>)
    decreases items, 0
  {
    forall i :: 0 <= i < |items| ==> Clean(items[i])
  }

  predicate CleanMembers(members: seq<Member>)
    decreases members, 0
  {
    forall i :: 0 <= i < |members| ==> CleanString(members[i].key) && Clean(members[i].value)
  }

  /** What can follow a value inside a text. */
  predicate Closes(rest: string) { rest == "" || rest[0] in {',', ']', '}'} }

  // ---------- Numbers come back ----------

  lemma DigitRoundTrip(d: nat)
    requires d < 10
    ensures IsDigit(Digit(d)) && DigitValue(Digit(d)) == d
  {
  }

  function Power10(k: nat): nat { if k == 0 then 1 else 10 * Power10(k - 1) }

  predicate AllDigits(s: string) { forall i :: 0 <= i < |s| ==> IsDigit(s[i]) }

  lemma {:induction false} NaturalDigits(n: nat)
    ensures AllDigits(Natural(n)) && |Natural(n)| > 0
    ensures n > 0 ==> Natural(n)[0] != '0'
  {
    if n < 10 {
      DigitRoundTrip(n);
    } else {
      NaturalDigits(n / 10);
      DigitRoundTrip(n % 10);
    }
  }

  /** Reading digits in two parts. */
  lemma {:induction false} ReadDigitsAppend(s: string, t: string, sofar: nat)
    requires AllDigits(s)
    ensures ReadDigits(s, sofar).1 == ""
    ensures ReadDigits(s + t, sofar) == ReadDigits(t, ReadDigits(s, sofar).0)
  {
    if s == "" {
      assert s + t == t;
    } else {
      assert (s + t)[1..] == s[1..] + t;
      assert AllDigits(s[1..]) by { assert forall i :: 0 <= i < |s[1..]| ==> s[1..][i] == s[i+1]; }
      ReadDigitsAppend(s[1..], t, 10 * sofar + DigitValue(s[0]));
    }
  }

  lemma {:induction false} NaturalRoundTrip(n: nat, rest: string)
    requires rest == "" || !IsDigit(rest[0])
    ensures ReadDigits(Natural(n) + rest, 0) == (n, rest)
  {
    NaturalDigits(n);
    NaturalValue(n);
    ReadDigitsAppend(Natural(n), rest, 0);
  }

  lemma {:induction false} NaturalValue(n: nat)
    ensures ReadDigits(Natural(n), 0) == (n, "")
  {
    NaturalDigits(n);
    if n < 10 {
      DigitRoundTrip(n);
      assert [Digit(n)][1..] == "";
    } else {
      NaturalValue(n / 10);
      NaturalDigits(n / 10);
      var d := [Digit(n % 10)];
      DigitRoundTrip(n % 10);
      ReadDigitsAppend(Natural(n / 10), d, 0);
      assert d[1..] == "";
      assert ReadDigits(d, n / 10) == ReadDigits("", 10 * (n / 10) + n % 10);
    }
  }

  /** What `ReadNumber` makes of digits followed by something else. */
  lemma ReadNaturalBack(m: nat, rest: string)
    requires Closes(rest)
    ensures var digits := Natural(m) + rest;
            && digits != "" && IsDigit(digits[0])
            && (if digits[0] == '0' then (0, digits[1..]) else ReadDigits(digits, 0)) == (m, rest)
  {
    NaturalDigits(m);
    NaturalRoundTrip(m, rest);
    assert (Natural(m) + rest)[0] == Natural(m)[0];
    if m == 0 {
      assert Natural(0) == "0" && ("0" + rest)[1..] == rest;
    }
  }

  lemma ReadSigned(digits: string, m: nat, rest: string)
    requires Closes(rest) && digits != "" && IsDigit(digits[0])
    requires (if digits[0] == '0' then (0, digits[1..]) else ReadDigits(digits, 0)) == (m, rest)
    ensures ReadNumber(digits) == Got(Num(m), rest)
    ensures ReadNumber("-" + digits) == Got(Num(0 - m as int), rest)
  {
    assert ("-" + digits)[1..] == digits;
  }

  lemma ReadNumberBack(n: int, rest: string)
    requires Closes(rest)
    ensures Decimal(n) != "" && (Decimal(n)[0] == '-' || IsDigit(Decimal(n)[0]))
    ensures ReadNumber(Decimal(n) + rest) == Got(Num(n), rest)
  {
    var m := if n < 0 then -n else n;
    NaturalDigits(m);
    ReadNaturalBack(m, rest);
    ReadSigned(Natural(m) + rest, m, rest);
    Associative("-", Natural(m), rest);
  }

  lemma NumberRoundTrip(n: int, rest: string)
    requires Closes(rest)
    ensures ReadValue(Decimal(n) + rest) == Got(Num(n), rest)
  {
    ReadNumberBack(n, rest);
    StartsNumber(Decimal(n) + rest);
  }

  lemma StartsNumber(s: string)
    requires s != "" && (s[0] == '-' || IsDigit(s[0]))
    ensures ReadValue(s) == ReadNumber(s)
  {
    assert Skip(s) == s;
    assert !("null" <= s) && !("true" <= s) && !("false" <= s);
  }

  // ---------- Strings come back ----------

  lemma ReadCharEscaped(c: char, rest: string)
    requires CleanChar(c)
    ensures EscapedChar(c) + rest != "" && (EscapedChar(c) + rest)[0] != '"'
    ensures ReadChar(EscapedChar(c) + rest) == Got(c, rest)
  {
  }

  lemma {:induction false} StringRoundTrip(s: string, rest: string)
    ensures ReadString(Escaped(s) + "\"" + rest) == if CleanString(s) then Got(s, rest) else Fail
    decreases |s|
  {
    if s == "" {
      assert Escaped(s) + "\"" + rest == "\"" + rest;
      assert ("\"" + rest)[1..] == rest;
    } else {
      var tail := Escaped(s[1..]) + "\"" + rest;
      var text := EscapedChar(s[0]) + tail;
      assert Escaped(s) + "\"" + rest == text;
      assert CleanString(s) <==> CleanChar(s[0]) && CleanString(s[1..]) by {
        assert forall i :: 0 <= i < |s[1..]| ==> s[1..][i] == s[i+1];
        assert forall i :: 1 <= i < |s| ==> s[i] == s[1..][i-1];
      }
      StringRoundTrip(s[1..], rest);
      if CleanChar(s[0]) {
        ReadCharEscaped(s[0], tail);
        assert [s[0]] + s[1..] == s;
      } else {
        assert text[0] == s[0];
      }
    }
  }

  // ---------- Values come back ----------

  lemma PrintStarts(j: Json)
    ensures Print(j) != "" && !IsSpace(Print(j)[0]) && Print(j)[0] !in {']', '}', ',', ':'}
  {
    if j.Num? { ReadNumberBack(j.n, ""); }
  }

  lemma LiteralRoundTrip(j: Json, rest: string)
    requires j.Null? || j.Bool?
    ensures ReadValue(Print(j) + rest) == Got(j, rest)
  {
    var p := Print(j);
    var s := p + rest;
    assert Skip(s) == s && p <= s && s[|p|..] == rest;
    assert !("null" <= s) || p == "null" by { assert s[0] == p[0]; }
    assert !("true" <= s) || p == "true" by { assert s[0] == p[0]; }
  }

  lemma StrRoundTrip(s: string, rest: string)
    ensures ReadValue(Quoted(s) + rest) == if CleanString(s) then Got(Str(s), rest) else Fail
  {
    var t := Quoted(s) + rest;
    assert t[1..] == Escaped(s) + "\"" + rest;
    StringRoundTrip(s, rest);
    assert Skip(t) == t;
  }

  lemma ReadArray(body: string)
    requires body != "" && !IsSpace(body[0]) && body[0] != ']'
    ensures var r := ReadItems(body); ReadValue("[" + body) == if r.Fail? then Fail else Got(Arr(r.value), r.rest)
  {
  }

  lemma ReadObject(body: string)
    requires body != "" && body[0] == '"'
    ensures var r := ReadMembers(body); ReadValue("{" + body) == if r.Fail? then Fail else Got(Obj(r.value), r.rest)
  {
    var s := "{" + body;
    assert Skip(s) == s && s[1..] == body && Skip(body) == body;
  }

  lemma ReadEmpty(rest: string)
    ensures ReadValue("[" + ("]" + rest)) == Got(Arr([]), rest)
    ensures ReadValue("{" + ("}" + rest)) == Got(Obj([]), rest)
  {
  }

  /** How reading a list goes on after one item. */
  lemma ReadItemsStep(s: string, v: Json, after: char, rest: string)
    requires ReadValue(s) == Got(v, [after] + rest) && after in {',', ']'}
    ensures ReadItems(s) ==
            if after == ']' then Got([v], rest)
            else var more := ReadItems(rest); if more.Fail? then Fail else Got([v] + more.value, more.rest)
  {
  }

  lemma ReadMembersStep(s: string, m: Member, after: char, rest: string)
    requires ReadMember(s) == Got(m, [after] + rest) && after in {',', '}'}
    ensures ReadMembers(s) ==
            if after == '}' then Got([m], rest)
            else var more := ReadMembers(rest); if more.Fail? then Fail else Got([m] + more.value, more.rest)
  {
    var t := [after] + rest;
    assert Skip(t) == t && t[1..] == rest;
  }

  lemma ReadMemberStep(keyText: string, key: string, valueText: string)
    requires ReadString(keyText) == Got(key, ":" + valueText)
    ensures ReadMember("\"" + keyText) ==
            var v := ReadValue(valueText); if v.Fail? then Fail else Got(Member(key, v.value), v.rest)
  {
  }

  lemma ReadMemberFails(keyText: string)
    requires ReadString(keyText) == Fail
    ensures ReadMember("\"" + keyText) == Fail
  {
  }

  /** A printed value, followed by what may follow it, is read back exactly when
      it is clean; otherwise the text is refused. */
  lemma {:induction false} ValueRoundTrip(j: Json, rest: string)
    requires Closes(rest)
    ensures ReadValue(Print(j) + rest) == if Clean(j) then Got(j, rest) else Fail
    decreases j, 1
  {
    match j
    case Null => LiteralRoundTrip(j, rest);
    case Bool(_) => LiteralRoundTrip(j, rest);
    case Num(n) => NumberRoundTrip(n, rest);
    case Str(s) => StrRoundTrip(s, rest);
    case Arr(items) => ArrayRoundTrip(items, rest);
    case Obj(members) => ObjectRoundTrip(members, rest);
  }

  lemma Enclosed(open: string, x: string, close: string, rest: string)
    ensures open + x + close + rest == open + (x + close + rest)
    ensures x == "" ==> x + close + rest == close + rest
    ensures x != "" ==> x + close + rest != "" && (x + close + rest)[0] == x[0]
  {
  }

  lemma {:induction false} ArrayRoundTrip(items: seq<Json>, rest: string)
    ensures ReadValue("[" + PrintItems(items) + "]" + rest) == if CleanItems(items) then Got(Arr(items), rest) else Fail
    decreases items, 1
  {
    Enclosed("[", PrintItems(items), "]", rest);
    if items == [] {
      ReadEmpty(rest);
    } else {
      ItemsStart(items);
      ItemsRoundTrip(items, rest);
      ReadArray(PrintItems(items) + "]" + rest);
    }
  }

  lemma {:induction false} ObjectRoundTrip(members: seq<Member>, rest: string)
    ensures ReadValue("{" + PrintMembers(members) + "}" + rest)
         == if CleanMembers(members) then Got(Obj(members), rest) else Fail
    decreases members, 1
  {
    Enclosed("{", PrintMembers(members), "}", rest);
    if members == [] {
      ReadEmpty(rest);
    } else {
      MembersStart(members);
      MembersRoundTrip(members, rest);
      ReadObject(PrintMembers(members) + "}" + rest);
    }
  }

  lemma MembersStart(members: seq<Member>)
    requires members != []
    ensures PrintMembers(members) != "" && PrintMembers(members)[0] == '"'
  {
  }

  lemma ItemsStart(items: seq<Json>)
    requires items != []
    ensures PrintItems(items) != "" && !IsSpace(PrintItems(items)[0]) && PrintItems(items)[0] != ']'
  {
    PrintStarts(items[0]);
  }

  lemma ItemsSplit(items: seq<Json>, rest: string)
    requires items != []
    ensures PrintItems(items) + "]" + rest ==
            Print(items[0]) + (if |items| == 1 then [']'] + rest else [','] + (PrintItems(items[1..]) + "]" + rest))
  {
    if |items| == 1 {
      Associative(Print(items[0]), "]", rest);
    } else {
      SplitAtComma(Print(items[0]), PrintItems(items[1..]), "]", rest);
    }
  }

  lemma SplitAtComma(first: string, others: string, end: string, rest: string)
    ensures first + "," + others + end + rest == first + ([','] + (others + end + rest))
  {
  }

  lemma CleanItemsSplit(items: seq<Json>)
    requires items != []
    ensures CleanItems(items) <==> Clean(items[0]) && (|items| > 1 ==> CleanItems(items[1..]))
  {
  }

  lemma {:induction false} ItemsRoundTrip(items: seq<Json>, rest: string)
    requires items != []
    ensures ReadItems(PrintItems(items) + "]" + rest) == if CleanItems(items) then Got(items, rest) else Fail
    decreases items, 0
  {
    var s := PrintItems(items) + "]" + rest;
    var after := if |items| == 1 then ']' else ',';
    var more := if |items| == 1 then rest else PrintItems(items[1..]) + "]" + rest;
    ItemsSplit(items, rest);
    CleanItemsSplit(items);
    ValueRoundTrip(items[0], [after] + more);
    if |items| > 1 {
      ItemsRoundTrip(items[1..], rest);
    }
    if Clean(items[0]) {
      ReadItemsStep(s, items[0], after, more);
      HeadAndTail(items);
    } else {
      ReadItemsFails(s);
    }
  }

  lemma HeadAndTail<T>(xs: seq<T>)
    requires xs != []
    ensures xs == [xs[0]] + xs[1..]
    ensures |xs| == 1 ==> xs == [xs[0]]
  {
  }

  lemma ReadMembersFails(s: string)
    requires ReadMember(s) == Fail
    ensures ReadMembers(s) == Fail
  {
  }

  lemma ReadItemsFails(s: string)
    requires ReadValue(s) == Fail
    ensures ReadItems(s) == Fail
  {
  }

  lemma MemberText(key: string, v: string, rest: string)
    ensures Quoted(key) + ":" + v + rest == "\"" + (Escaped(key) + "\"" + (":" + (v + rest)))
  {
  }

  lemma {:induction false} MemberRoundTrip(m: Member, rest: string)
    requires Closes(rest)
    ensures ReadMember(PrintMember(m) + rest) == if CleanString(m.key) && Clean(m.value) then Got(m, rest) else Fail
    decreases m, 2
  {
    var valueText := Print(m.value) + rest;
    var keyText := Escaped(m.key) + "\"" + (":" + valueText);
    MemberText(m.key, Print(m.value), rest);
    StringRoundTrip(m.key, ":" + valueText);
    ValueRoundTrip(m.value, rest);
    if CleanString(m.key) {
      ReadMemberStep(keyText, m.key, valueText);
    } else {
      ReadMemberFails(keyText);
    }
  }

  lemma MembersSplit(members: seq<Member>, rest: string)
    requires members != []
    ensures PrintMembers(members) + "}" + rest ==
            PrintMember(members[0]) +
            (if |members| == 1 then ['}'] + rest else [','] + (PrintMembers(members[1..]) + "}" + rest))
  {
    if |members| == 1 {
      Associative(PrintMember(members[0]), "}", rest);
    } else {
      SplitAtComma(PrintMember(members[0]), PrintMembers(members[1..]), "}", rest);
    }
  }

  lemma CleanMembersSplit(members: seq<Member>)
    requires members != []
    ensures CleanMembers(members) <==>
            CleanString(members[0].key) && Clean(members[0].value) && (|members| > 1 ==> CleanMembers(members[1..]))
  {
    assert forall i :: 0 <= i < |members[1..]| ==> members[1..][i] == members[i+1];
    assert forall i :: 1 <= i < |members| ==> members[i] == members[1..][i-1];
  }

  lemma {:induction false} MembersRoundTrip(members: seq<Member>, rest: string)
    requires members != []
    ensures ReadMembers(PrintMembers(members) + "}" + rest) == if CleanMembers(members) then Got(members, rest) else Fail
    decreases members, 0
  {
    var s := PrintMembers(members) + "}" + rest;
    var m := members[0];
    var after := if |members| == 1 then '}' else ',';
    var more := if |members| == 1 then rest else PrintMembers(members[1..]) + "}" + rest;
    MembersSplit(members, rest);
    CleanMembersSplit(members);
    MemberRoundTrip(m, [after] + more);
    if |members| > 1 {
      MembersRoundTrip(members[1..], rest);
    }
    if CleanString(m.key) && Clean(m.value) {
      ReadMembersStep(s, m, after, more);
      HeadAndTail(members);
    } else {
      ReadMembersFails(s);
    }
  }

  /** The printed text of a value is valid JSON exactly when the value is clean,
      and then it means that value. */
  lemma {:induction false} ParsePrint(j: Json)
    ensures Parse(Print(j)) == if Clean(j) then Some(j) else None
  {
    ValueRoundTrip(j, "");
    assert Print(j) + "" == Print(j);
  }
}
