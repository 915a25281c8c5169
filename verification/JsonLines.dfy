/** The log record printer: string escaping, one line per event, and the readers that undo them. */
module JsonLines {
  import opened Prelude
  import opened Scanning
  import DecimalText

  // ----- Escaping -----

  const NUL := 0 as char

  function EscapeChar(c: char): string {
    if c == '"' then "\\\""
    else if c == '\\' then "\\\\"
    else if c == '\n' then "\\n"
    else [c]
  }

  function Escape(s: string): string {
    if s == "" then "" else EscapeChar(s[0]) + Escape(s[1..])
  }

  /** A C string ends before its first NUL. */
  function CString(buffer: seq<char>): string {
    if buffer == [] || buffer[0] == NUL then "" else [buffer[0]] + CString(buffer[1..])
  }

  lemma {:induction false} EscapeAppend(s: string, c: char)
    ensures Escape(s + [c]) == Escape(s) + EscapeChar(c)
  {
    if s == "" {
      assert Escape("") == "";
      assert (s + [c])[1..] == "";
    } else {
      assert (s + [c])[1..] == s[1..] + [c];
      EscapeAppend(s[1..], c);
    }
  }

  lemma {:induction false} CStringIs(buffer: seq<char>, n: nat)
    requires n < |buffer| && buffer[n] == NUL && forall i | 0 <= i < n :: buffer[i] != NUL
    ensures CString(buffer) == buffer[..n]
  {
    if n > 0 {
      CStringIs(buffer[1..], n - 1);
      assert [buffer[0]] + buffer[1..][..n - 1] == buffer[..n];
    }
  }

  /** One more character of the buffer escapes to one more piece of the output. */
  lemma EscapeStep(buffer: seq<char>, i: nat)
    requires i < |buffer|
    ensures Escape(buffer[..i + 1]) == Escape(buffer[..i]) + EscapeChar(buffer[i])
  {
    assert buffer[..i + 1] == buffer[..i] + [buffer[i]];
    EscapeAppend(buffer[..i], buffer[i]);
  }

  lemma NulAhead(buffer: seq<char>, i: nat)
    requires i < |buffer| && NUL in buffer[i..] && buffer[i] != NUL
    ensures i + 1 < |buffer| && NUL in buffer[i + 1..]
  {
    assert buffer[i..] == [buffer[i]] + buffer[i + 1..];
  }

  method AppendEscaped(out: string, c: char) returns (longer: string)
    ensures longer == out + EscapeChar(c)
  {
    if c == '"' { longer := out + "\\\""; }
    else if c == '\\' { longer := out + "\\\\"; }
    else if c == '\n' { longer := out + "\\n"; }
    else { longer := out + [c]; }
  }

  method EscapeJson(buffer: seq<char>) returns (out: string)
    requires NUL in buffer
    ensures out == Escape(CString(buffer))
  {
    out := "";
    var i := 0;
    while buffer[i] != NUL
      invariant i < |buffer| && NUL in buffer[i..]
      invariant forall j | 0 <= j < i :: buffer[j] != NUL
      invariant out == Escape(buffer[..i])
      decreases |buffer| - i
    {
      EscapeStep(buffer, i);
      NulAhead(buffer, i);
      out := AppendEscaped(out, buffer[i]);
      i := i + 1;
    }
    CStringIs(buffer, i);
  }

  // ----- Reading a string back: section 7 of RFC 8259 -----

  datatype Scanned = Scanned(value: string, rest: string)

  predicate Control(c: char) {
    c < ' '
  }

  /** The characters a backslash may introduce, other than u. */
  function Unescape(c: char): Option<char> {
    if c == '"' || c == '\\' || c == '/' then Some(c)
    else if c == 'b' then Some(8 as char)
    else if c == 'f' then Some(12 as char)
    else if c == 'n' then Some('\n')
    else if c == 'r' then Some('\r')
    else if c == 't' then Some('\t')
    else None
  }

  /** Reads up to the closing quote. A strict reader refuses raw control characters, as the standard does. */
  function ScanBody(strict: bool, s: string): Option<Scanned> {
    if s == "" then None
    else if s[0] == '"' then Some(Scanned("", s[1..]))
    else if s[0] == '\\' then
      if |s| < 2 || Unescape(s[1]).None? then None
      else Prepend(Unescape(s[1]).value, ScanBody(strict, s[2..]))
    else if strict && Control(s[0]) then None
    else Prepend(s[0], ScanBody(strict, s[1..]))
  }

  function Prepend(c: char, r: Option<Scanned>): Option<Scanned> {
    if r.None? then None else Some(Scanned([c] + r.value.value, r.value.rest))
  }

  function ScanString(strict: bool, s: string): Option<Scanned> {
    if s != "" && s[0] == '"' then ScanBody(strict, s[1..]) else None
  }

  /** The only control character of s is the newline. */
  predicate NewlineOnly(s: string) {
    forall c | c in s :: Control(c) ==> c == '\n'
  }

  lemma CharRoundTrip(strict: bool, c: char, tail: string)
    ensures ScanBody(strict, EscapeChar(c) + tail) ==
            if strict && Control(c) && c != '\n' then None else Prepend(c, ScanBody(strict, tail))
  {
    assert (EscapeChar(c) + tail)[|EscapeChar(c)|..] == tail;
  }

  lemma {:induction false} BodyRoundTrip(strict: bool, s: string, rest: string)
    ensures ScanBody(strict, Escape(s) + "\"" + rest) ==
            if strict && !NewlineOnly(s) then None else Some(Scanned(s, rest))
  {
    if s == "" {
      assert (Escape(s) + "\"" + rest)[1..] == rest;
    } else {
      var tail := Escape(s[1..]) + "\"" + rest;
      assert Escape(s) + "\"" + rest == EscapeChar(s[0]) + tail;
      CharRoundTrip(strict, s[0], tail);
      BodyRoundTrip(strict, s[1..], rest);
      assert s == [s[0]] + s[1..];
    }
  }

  /**
   An escaped string between quotes is read back as itself, and reading stops
   at exactly the closing quote. A reader that follows the standard strictly
   accepts it iff the newline is the string's only control character: the
   others are written raw.
   */
  lemma EscapeRoundTrip(s: string, rest: string)
    ensures ScanString(false, "\"" + Escape(s) + "\"" + rest) == Some(Scanned(s, rest))
    ensures ScanString(true, "\"" + Escape(s) + "\"" + rest) == Some(Scanned(s, rest)) <==> NewlineOnly(s)
  {
    assert ("\"" + Escape(s) + "\"" + rest)[1..] == Escape(s) + "\"" + rest;
    BodyRoundTrip(false, s, rest);
    BodyRoundTrip(true, s, rest);
  }

  /** The characters that may not stand in the file's strings as they are. */
  function Specials(s: string): nat {
    if s == "" then 0 else Specials(s[1..]) + if s[0] in {'"', '\\', '\n'} then 1 else 0
  }

  /** Escaping adds one character for each quote, backslash and newline, and nothing else. */
  lemma {:induction false} EscapeLength(s: string)
    ensures |Escape(s)| == |s| + Specials(s)
  {
    if s != "" { EscapeLength(s[1..]); }
  }

  lemma {:induction false} EscapeOneLine(s: string)
    ensures '\n' !in Escape(s)
  {
    if s != "" { EscapeOneLine(s[1..]); }
  }

  // ----- One record -----

  datatype LogLevel = Debug | Info | Warn | Error

  datatype LogEvent = LogEvent(
    ts: nat,
    level: LogLevel,
    moduleName: string,
    event: string,
    message: string,
    value1: real,
    value2: real)

  /** An event with its numbers as they are printed. */
  datatype Fields = Fields(
    ts: string,
    level: LogLevel,
    moduleName: string,
    event: string,
    message: string,
    value1: string,
    value2: string)

  function FieldsOf(e: LogEvent): Fields {
    Fields(DecimalText.Digits(e.ts), e.level, e.moduleName, e.event, e.message,
           DecimalText.Show(e.value1), DecimalText.Show(e.value2))
  }

  function LevelText(l: LogLevel): string {
    match l
    case Debug => "DEBUG"
    case Info => "INFO"
    case Warn => "WARN"
    case Error => "ERROR"
  }

  function Quote(s: string): string {
    "\"" + Escape(s) + "\""
  }

  /** Key token, then value text, then what closes the member. */
  function Member(key: string, value: string, rest: string): string {
    Token(key) + (value + rest)
  }

  datatype Keys = Keys(ts: string, level: string, moduleName: string, event: string, message: string,
                       value1: string, value2: string)

  const KEYS := Keys("ts_ms", "level", "module", "event", "message", "value1", "value2")

  function RecordWith(k: Keys, e: Fields): string {
    "{" + Member(k.ts, e.ts, "," +
          Member(k.level, Quote(LevelText(e.level)), "," +
          Member(k.moduleName, Quote(e.moduleName), "," +
          Member(k.event, Quote(e.event), "," +
          Member(k.message, Quote(e.message), "," +
          Member(k.value1, e.value1, "," +
          Member(k.value2, e.value2, "}")))))))
  }

  /** The record without its line end. */
  function Record(e: LogEvent): string {
    RecordWith(KEYS, FieldsOf(e))
  }

  lemma KeyTokens()
    ensures Token(KEYS.ts) == "\"ts_ms\":" && Token(KEYS.level) == "\"level\":"
    ensures Token(KEYS.moduleName) == "\"module\":" && Token(KEYS.event) == "\"event\":"
    ensures Token(KEYS.message) == "\"message\":"
    ensures Token(KEYS.value1) == "\"value1\":" && Token(KEYS.value2) == "\"value2\":"
  {}

  /** A record, written out: fixed keys in this order, texts escaped between quotes, numbers as printed. */
  lemma RecordIs(e: LogEvent)
    ensures var level := match e.level
              case Debug => "DEBUG" case Info => "INFO" case Warn => "WARN" case Error => "ERROR";
            Record(e) ==
            "{" + ("\"ts_ms\":" + (DecimalText.Digits(e.ts) + ("," +
            ("\"level\":" + (Quote(level) + ("," +
            ("\"module\":" + (Quote(e.moduleName) + ("," +
            ("\"event\":" + (Quote(e.event) + ("," +
            ("\"message\":" + (Quote(e.message) + ("," +
            ("\"value1\":" + (DecimalText.Show(e.value1) + ("," +
            ("\"value2\":" + (DecimalText.Show(e.value2) + "}"))))))))))))))))))))
  {
    KeyTokens();
  }

  predicate CleanFields(e: Fields) {
    CleanText(e.ts) && CleanText(e.value1) && CleanText(e.value2)
  }

  predicate CleanText(s: string) {
    forall c | c in s :: c != ',' && c != '}' && c != '\n'
  }

  // A reader for records: fixed keys in order, each step returning the value and the text after it.

  function Expect(s: string, t: string): Option<string> {
    if t <= s then Some(s[|t|..]) else None
  }

  function ReadNumber(s: string, key: string): Option<Scanned> {
    match Expect(s, Token(key))
    case None => None
    case Some(r) =>
      match FindFirstOf(r, {',', '}'}, 0)
      case None => None
      case Some(i) => Some(Scanned(r[..i], r[i + 1..]))
  }

  function ReadString(s: string, key: string): Option<Scanned> {
    match Expect(s, Token(key))
    case None => None
    case Some(r) =>
      match ScanString(false, r)
      case None => None
      case Some(v) => if v.rest != "" && v.rest[0] in {',', '}'} then Some(Scanned(v.value, v.rest[1..])) else None
  }

  function ReadLevel(t: string): Option<LogLevel> {
    if t == "DEBUG" then Some(Debug)
    else if t == "INFO" then Some(Info)
    else if t == "WARN" then Some(Warn)
    else if t == "ERROR" then Some(Error)
    else None
  }

  function ReadWith(k: Keys, s: string): Option<Fields> {
    match Expect(s, "{") case None => None case Some(s0) =>
    match ReadNumber(s0, k.ts) case None => None case Some(ts) =>
    match ReadString(ts.rest, k.level) case None => None case Some(lv) =>
    match ReadLevel(lv.value) case None => None case Some(level) =>
    match ReadString(lv.rest, k.moduleName) case None => None case Some(mo) =>
    match ReadString(mo.rest, k.event) case None => None case Some(ev) =>
    match ReadString(ev.rest, k.message) case None => None case Some(me) =>
    match ReadNumber(me.rest, k.value1) case None => None case Some(v1) =>
    match ReadNumber(v1.rest, k.value2) case None => None case Some(v2) =>
    if v2.rest != "" then None
    else Some(Fields(ts.value, level, mo.value, ev.value, me.value, v1.value, v2.value))
  }

  /** A whole event from a line; the numbers must read as numbers. */
  function ReadRecord(s: string): Option<LogEvent> {
    match ReadWith(KEYS, s)
    case None => None
    case Some(f) => ReadNumbers(f)
  }

  function ReadNumbers(f: Fields): Option<LogEvent> {
    var v1, v2 := DecimalText.Read(f.value1), DecimalText.Read(f.value2);
    if !DecimalText.AllDigits(f.ts) || v1.None? || v2.None? then None
    else Some(LogEvent(DecimalText.NatOf(f.ts), f.level, f.moduleName, f.event, f.message, v1.value, v2.value))
  }

  lemma NumberMember(key: string, value: string, sep: char, rest: string)
    requires CleanText(value) && (sep == ',' || sep == '}')
    ensures ReadNumber(Member(key, value, [sep] + rest), key) == Some(Scanned(value, rest))
  {
    var s := Member(key, value, [sep] + rest);
    assert s[|Token(key)|..] == value + ([sep] + rest);
    FirstStop(value, [sep] + rest, {',', '}'});
    assert (value + ([sep] + rest))[|value| + 1..] == rest;
  }

  lemma StringMember(key: string, value: string, sep: char, rest: string)
    requires sep == ',' || sep == '}'
    ensures ReadString(Member(key, Quote(value), [sep] + rest), key) == Some(Scanned(value, rest))
  {
    var s := Member(key, Quote(value), [sep] + rest);
    assert s[|Token(key)|..] == Quote(value) + ([sep] + rest);
    assert Quote(value) + ([sep] + rest) == "\"" + Escape(value) + "\"" + ([sep] + rest);
    EscapeRoundTrip(value, [sep] + rest);
  }

  lemma LevelBack(l: LogLevel)
    ensures ReadLevel(LevelText(l)) == Some(l)
  {}

  lemma TailRoundTrip(k: Keys, e: Fields)
    requires CleanFields(e)
    ensures var r7 := Member(k.value2, e.value2, "}");
            var r6 := Member(k.value1, e.value1, "," + r7);
            ReadNumber(r6, k.value1) == Some(Scanned(e.value1, r7)) &&
            ReadNumber(r7, k.value2) == Some(Scanned(e.value2, ""))
  {
    NumberMember(k.value1, e.value1, ',', Member(k.value2, e.value2, "}"));
    assert "}" == ['}'] + "";
    NumberMember(k.value2, e.value2, '}', "");
  }

  lemma RecordWithRoundTrip(k: Keys, e: Fields)
    requires CleanFields(e)
    ensures ReadWith(k, RecordWith(k, e)) == Some(e)
  {
    var r7 := Member(k.value2, e.value2, "}");
    var r6 := Member(k.value1, e.value1, "," + r7);
    var r5 := Member(k.message, Quote(e.message), "," + r6);
    var r4 := Member(k.event, Quote(e.event), "," + r5);
    var r3 := Member(k.moduleName, Quote(e.moduleName), "," + r4);
    var r2 := Member(k.level, Quote(LevelText(e.level)), "," + r3);
    var r1 := Member(k.ts, e.ts, "," + r2);
    assert Expect("{" + r1, "{") == Some(r1);
    NumberMember(k.ts, e.ts, ',', r2);
    StringMember(k.level, LevelText(e.level), ',', r3);
    LevelBack(e.level);
    StringMember(k.moduleName, e.moduleName, ',', r4);
    StringMember(k.event, e.event, ',', r5);
    StringMember(k.message, e.message, ',', r6);
    TailRoundTrip(k, e);
  }

  /** An event with its two values to six significant digits. */
  function Printed6(e: LogEvent): LogEvent {
    e.(value1 := DecimalText.Rounded(e.value1), value2 := DecimalText.Rounded(e.value2))
  }

  lemma PlainIsClean(s: string)
    requires DecimalText.PlainText(s)
    ensures CleanText(s)
  {}

  lemma FieldsClean(e: LogEvent)
    ensures CleanFields(FieldsOf(e))
  {
    PlainIsClean(DecimalText.Digits(e.ts));
    DecimalText.ShowIsPlain(e.value1);
    PlainIsClean(DecimalText.Show(e.value1));
    DecimalText.ShowIsPlain(e.value2);
    PlainIsClean(DecimalText.Show(e.value2));
  }

  lemma NumbersBack(e: LogEvent)
    ensures ReadNumbers(FieldsOf(e)) == Some(Printed6(e))
  {
    DecimalText.NatOfDigits(e.ts);
    DecimalText.ReadShow(e.value1);
    DecimalText.ReadShow(e.value2);
  }

  /** Every record reads back as its event, whatever its texts contain, the two values to six significant digits. */
  lemma RecordRoundTrip(e: LogEvent)
    ensures ReadRecord(Record(e)) == Some(Printed6(e))
  {
    FieldsClean(e);
    RecordWithRoundTrip(KEYS, FieldsOf(e));
    NumbersBack(e);
  }

  // ----- The file -----

  function JoinLines(lines: seq<string>): string {
    if lines == [] then "" else JoinLines(lines[..|lines| - 1]) + (lines[|lines| - 1] + "\n")
  }

  function FileText(events: seq<LogEvent>): string {
    JoinLines(Records(events))
  }

  function Records(events: seq<LogEvent>): (r: seq<string>)
    ensures |r| == |events|
    ensures forall i | 0 <= i < |r| :: r[i] == Record(events[i])
  {
    seq(|events|, i requires 0 <= i < |events| => Record(events[i]))
  }

  /** Writing one more event appends its record and a line end, and changes nothing before it. */
  lemma FileGrows(events: seq<LogEvent>, e: LogEvent)
    ensures FileText(events + [e]) == FileText(events) + (Record(e) + "\n")
  {
    assert Records(events + [e])[..|events|] == Records(events);
  }

  /** The lines of a text: what stands before each newline. */
  function Lines(s: string): seq<string> {
    match FindFirstOf(s, {'\n'}, 0)
    case None => []
    case Some(i) => [s[..i]] + Lines(s[i + 1..])
  }

  predicate OneLine(s: string) {
    '\n' !in s
  }

  predicate KeysOneLine(k: Keys) {
    OneLine(k.ts) && OneLine(k.level) && OneLine(k.moduleName) && OneLine(k.event) && OneLine(k.message)
    && OneLine(k.value1) && OneLine(k.value2)
  }

  lemma QuoteOneLine(s: string)
    ensures OneLine(Quote(s))
  {
    EscapeOneLine(s);
  }

  lemma MemberOneLine(key: string, value: string, sep: string, rest: string)
    requires OneLine(key) && OneLine(value) && OneLine(sep) && OneLine(rest)
    ensures OneLine(Member(key, value, sep + rest))
  {}

  lemma RecordWithOneLine(k: Keys, e: Fields)
    requires CleanFields(e) && KeysOneLine(k)
    ensures OneLine(RecordWith(k, e))
  {
    var r7 := Member(k.value2, e.value2, "}");
    assert "}" == "}" + "";
    MemberOneLine(k.value2, e.value2, "}", "");
    var r6 := Member(k.value1, e.value1, "," + r7);
    MemberOneLine(k.value1, e.value1, ",", r7);
    var r5 := Member(k.message, Quote(e.message), "," + r6);
    QuoteOneLine(e.message);
    MemberOneLine(k.message, Quote(e.message), ",", r6);
    var r4 := Member(k.event, Quote(e.event), "," + r5);
    QuoteOneLine(e.event);
    MemberOneLine(k.event, Quote(e.event), ",", r5);
    var r3 := Member(k.moduleName, Quote(e.moduleName), "," + r4);
    QuoteOneLine(e.moduleName);
    MemberOneLine(k.moduleName, Quote(e.moduleName), ",", r4);
    var r2 := Member(k.level, Quote(LevelText(e.level)), "," + r3);
    QuoteOneLine(LevelText(e.level));
    MemberOneLine(k.level, Quote(LevelText(e.level)), ",", r3);
    MemberOneLine(k.ts, e.ts, ",", r2);
  }

  lemma RecordOneLine(e: LogEvent)
    ensures OneLine(Record(e))
  {
    FieldsClean(e);
    RecordWithOneLine(KEYS, FieldsOf(e));
  }

  lemma LinesFirst(first: string, rest: string)
    requires OneLine(first)
    ensures Lines(first + ("\n" + rest)) == [first] + Lines(rest)
  {
    var s := first + ("\n" + rest);
    FirstStop(first, "\n" + rest, {'\n'});
    assert s[..|first|] == first && s[|first| + 1..] == rest;
  }

  lemma SplitFirstLine(s: string) returns (first: string, rest: string)
    requires s != "" && s[|s| - 1] == '\n'
    ensures OneLine(first) && s == first + ("\n" + rest)
    ensures |rest| < |s| && (rest == "" || rest[|rest| - 1] == '\n')
  {
    var i := FirstLineEnd(s);
    first, rest := s[..i], s[i + 1..];
  }

  lemma LinesOfOne(line: string)
    requires OneLine(line)
    ensures Lines(line + "\n") == [line]
  {
    LinesFirst(line, "");
    assert line + "\n" == line + ("\n" + "");
  }

  /** With the first line in front, one more line at the end stays one more line at the end. */
  lemma LinesGrow(s: string, first: string, rest: string, line: string)
    requires OneLine(first) && s == first + ("\n" + rest)
    requires Lines(rest + (line + "\n")) == Lines(rest) + [line]
    ensures Lines(s + (line + "\n")) == Lines(s) + [line]
  {
    LinesFirst(first, rest);
    LinesFirst(first, rest + (line + "\n"));
    LineInFront(s, first, rest, line + "\n");
    Regroup(first, Lines(rest), line);
  }

  lemma Regroup(first: string, lines: seq<string>, last: string)
    ensures [first] + (lines + [last]) == [first] + lines + [last]
  {}

  lemma {:induction false} LinesAppend(s: string, line: string)
    requires s == "" || s[|s| - 1] == '\n'
    requires OneLine(line)
    ensures Lines(s + (line + "\n")) == Lines(s) + [line]
    decreases |s|
  {
    if s == "" {
      LinesOfOne(line);
      assert s + (line + "\n") == line + "\n";
    } else {
      var first, rest := SplitFirstLine(s);
      LinesAppend(rest, line);
      LinesGrow(s, first, rest, line);
    }
  }

  lemma LineInFront(s: string, first: string, rest: string, more: string)
    requires s == first + ("\n" + rest)
    ensures s + more == first + ("\n" + (rest + more))
  {}

  lemma FirstLineEnd(s: string) returns (i: nat)
    requires s != "" && s[|s| - 1] == '\n'
    ensures i < |s| && s[i] == '\n' && OneLine(s[..i])
  {
    i := 0;
    while s[i] != '\n'
      invariant i < |s| && OneLine(s[..i])
      decreases |s| - i
    {
      assert s[..i + 1] == s[..i] + [s[i]];
      i := i + 1;
    }
  }

  lemma JoinedEnds(lines: seq<string>)
    ensures JoinLines(lines) == "" || JoinLines(lines)[|JoinLines(lines)| - 1] == '\n'
  {}

  lemma {:induction false} LinesOfJoined(lines: seq<string>)
    requires forall i | 0 <= i < |lines| :: OneLine(lines[i])
    ensures Lines(JoinLines(lines)) == lines
  {
    if lines == [] {
    } else {
      var n := |lines| - 1;
      LinesOfJoined(lines[..n]);
      JoinedEnds(lines[..n]);
      LinesAppend(JoinLines(lines[..n]), lines[n]);
    }
  }

  /** The file has exactly one line per written event, in order, and each line reads back as its event. */
  lemma OneLinePerEvent(events: seq<LogEvent>)
    ensures |Lines(FileText(events))| == |events|
    ensures forall i | 0 <= i < |events| :: ReadRecord(Lines(FileText(events))[i]) == Some(Printed6(events[i]))
  {
    forall i | 0 <= i < |events|
      ensures OneLine(Records(events)[i]) && ReadRecord(Records(events)[i]) == Some(Printed6(events[i]))
    {
      RecordOneLine(events[i]);
      RecordRoundTrip(events[i]);
    }
    LinesOfJoined(Records(events));
  }
}
