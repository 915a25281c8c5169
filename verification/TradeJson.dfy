/** The market feed's lightweight key/value extractor, proved to invert a printer of flat objects. */
module TradeJson {
  import opened Prelude
  import opened Scanning

  predicate IsSpace(c: char) {
    c in {' ', '\t', '\n', 11 as char, 12 as char, '\r'}
  }

  function SkipSpace(s: string): string {
    if s != "" && IsSpace(s[0]) then SkipSpace(s[1..]) else s
  }

  function OrEmpty(r: Option<string>): string {
    match r
    case None => ""
    case Some(v) => v
  }

  /** A quoted value ends at the next quote, any other value at the next comma or closing brace. */
  function ValueText(rest: string): string {
    var r := SkipSpace(rest);
    if r != "" && r[0] == '"' then OrEmpty(Until(r[1..], {'"'})) else OrEmpty(Until(r, {',', '}'}))
  }

  /** The text of the value at the first occurrence of the key; empty if there is none or it is unterminated. */
  function Extract(json: string, key: string): string {
    match Following(json, Token(key))
    case None => ""
    case Some(rest) => ValueText(rest)
  }

  lemma UntilFrom(s: string, stops: set<char>, from: nat)
    requires from <= |s|
    ensures var f := FindFirstOf(s, stops, from);
            Until(s[from..], stops) == if f.Some? then Some(s[from..f.value]) else None
  {
    var f := FindFirstOf(s, stops, from);
    if f.Some? {
      FirstOfIs(s[from..], stops, f.value - from);
      assert s[from..][..f.value - from] == s[from..f.value];
    } else {
      NoFirstOf(s[from..], stops);
    }
  }

  lemma NoFirstOf(s: string, stops: set<char>)
    requires forall j | 0 <= j < |s| :: s[j] !in stops
    ensures FindFirstOf(s, stops, 0) == None
  {}

  method SkipSpaceFrom(json: string, start: nat) returns (pos: nat)
    requires start <= |json|
    ensures start <= pos <= |json| && json[pos..] == SkipSpace(json[start..])
    ensures pos < |json| ==> !IsSpace(json[pos])
  {
    pos := start;
    while pos < |json| && IsSpace(json[pos])
      invariant start <= pos <= |json|
      invariant SkipSpace(json[pos..]) == SkipSpace(json[start..])
    {
      assert json[pos..][1..] == json[pos + 1..];
      pos := pos + 1;
    }
  }

  method ReadUntil(json: string, stops: set<char>, pos: nat) returns (v: string)
    requires pos <= |json|
    ensures v == OrEmpty(Until(json[pos..], stops))
  {
    UntilFrom(json, stops, pos);
    var end := FindFirstOf(json, stops, pos);
    if end.None? { return ""; }
    return json[pos..end.value];
  }

  /** The value that starts at this position. */
  method ReadValue(json: string, pos: nat) returns (v: string)
    requires pos <= |json| && (pos < |json| ==> !IsSpace(json[pos]))
    ensures v == ValueText(json[pos..])
  {
    if pos < |json| && json[pos] == '"' {
      assert json[pos..][1..] == json[pos + 1..];
      v := ReadUntil(json, {'"'}, pos + 1);
    } else {
      v := ReadUntil(json, {',', '}'}, pos);
    }
  }

  method ExtractJsonValue(json: string, key: string) returns (v: string)
    ensures v == Extract(json, key)
  {
    var token := "\"" + key + "\":";
    assert token == Token(key);
    var found := Find(json, token, 0);
    if found.None? { return ""; }
    var start := found.value + |token|;
    var pos := SkipSpaceFrom(json, start);
    v := ReadValue(json, pos);
    ValueAfterSpace(json[start..], json[pos..]);
    ExtractAfter(json, key, json[start..]);
  }

  lemma ExtractAfter(json: string, key: string, rest: string)
    requires Following(json, Token(key)) == Some(rest)
    ensures Extract(json, key) == ValueText(rest)
  {}

  lemma ValueAfterSpace(rest: string, r: string)
    requires r == SkipSpace(rest) && (r == "" || !IsSpace(r[0]))
    ensures ValueText(rest) == ValueText(r)
  {}

  // ----- Flat objects -----

  datatype Value = Text(text: string) | Number(text: string)

  /** A member of an object, with the white space printed between the colon and the value. */
  datatype Pair = Pair(key: string, gap: string, value: Value)

  predicate Printable(p: Pair) {
    && PlainKey(p.key)
    && (forall c | c in p.gap :: c in {' ', '\t', '\n', 11 as char, 12 as char, '\r'})
    && match p.value
       case Text(t) => '"' !in t
       case Number(t) =>
         && (forall c | c in t :: c !in {'"', ',', '}'})
         && (t != "" ==> !IsSpace(t[0]))
  }

  function ValueOf(v: Value): string {
    match v
    case Text(t) => "\"" + t + "\""
    case Number(t) => t
  }

  /** A comma after every member but the last, a closing brace after that. */
  function Members(pairs: seq<Pair>): string
    requires pairs != []
  {
    Token(pairs[0].key) + (pairs[0].gap + ValueOf(pairs[0].value) + (if |pairs| == 1 then "}" else ","))
    + if |pairs| == 1 then "" else Members(pairs[1..])
  }

  function FlatObject(pairs: seq<Pair>): string
    requires pairs != []
  {
    "{" + Members(pairs)
  }

  function FirstValue(pairs: seq<Pair>, key: string): string {
    if pairs == [] then ""
    else if pairs[0].key == key then pairs[0].value.text
    else FirstValue(pairs[1..], key)
  }

  function AsFields(pairs: seq<Pair>): seq<Field> {
    if pairs == [] then []
    else
      [Field(pairs[0].key, pairs[0].gap + ValueOf(pairs[0].value) + (if |pairs| == 1 then "}" else ","))]
      + AsFields(pairs[1..])
  }

  lemma {:induction false} MembersAreFields(pairs: seq<Pair>)
    requires pairs != []
    ensures Members(pairs) == Printed(AsFields(pairs))
  {
    assert AsFields(pairs)[1..] == AsFields(pairs[1..]);
    if |pairs| == 1 {
      assert pairs[1..] == [];
    } else {
      MembersAreFields(pairs[1..]);
    }
  }

  lemma PairHarmless(p: Pair, sep: char)
    requires Printable(p) && (sep == ',' || sep == '}')
    ensures Harmless(Field(p.key, p.gap + ValueOf(p.value) + [sep]))
  {
    var raw := p.gap + ValueOf(p.value) + [sep];
    assert '"' !in p.gap;
    if p.value.Text? {
      assert raw == p.gap + "\"" + p.value.text + "\"" + [sep];
      assert Quoted(raw, p.gap, p.value.text, sep);
    } else {
      assert '"' !in raw;
    }
  }

  lemma {:induction false} FieldsHarmless(pairs: seq<Pair>)
    requires forall p | p in pairs :: Printable(p)
    ensures forall f | f in AsFields(pairs) :: Harmless(f)
  {
    if pairs == [] {
    } else {
      FieldsHarmless(pairs[1..]);
      PairHarmless(pairs[0], if |pairs| == 1 then '}' else ',');
    }
  }

  lemma {:induction false} SkipsGap(gap: string, v: string)
    requires forall c | c in gap :: IsSpace(c)
    requires v != "" && !IsSpace(v[0])
    ensures SkipSpace(gap + v) == v
  {
    if gap == "" {
      assert gap + v == v;
    } else {
      assert (gap + v)[1..] == gap[1..] + v;
      SkipsGap(gap[1..], v);
    }
  }

  lemma ValueRead(p: Pair, sep: char, rest: string)
    requires Printable(p) && (sep == ',' || sep == '}')
    ensures ValueText(p.gap + ValueOf(p.value) + [sep] + rest) == p.value.text
  {
    var t := p.value.text;
    var v := ValueOf(p.value) + ([sep] + rest);
    assert p.gap + ValueOf(p.value) + [sep] + rest == p.gap + v;
    SkipsGap(p.gap, v);
    match p.value {
      case Text(_) =>
        var tail := "\"" + ([sep] + rest);
        assert v[1..] == t + tail;
        UntilStop(t, tail, {'"'});
      case Number(_) =>
        UntilStop(t, [sep] + rest, {',', '}'});
        if t != "" { assert t[0] in t; }
    }
  }

  lemma {:induction false} FirstRestIsValue(pairs: seq<Pair>, key: string)
    requires forall p | p in pairs :: Printable(p)
    ensures var r := FirstRest(AsFields(pairs), key);
            FirstValue(pairs, key) == if r.Some? then ValueText(r.value) else ""
  {
    if pairs == [] {
    } else {
      assert AsFields(pairs)[1..] == AsFields(pairs[1..]);
      if pairs[0].key == key {
        ValueRead(pairs[0], if |pairs| == 1 then '}' else ',', Printed(AsFields(pairs[1..])));
      } else {
        FirstRestIsValue(pairs[1..], key);
      }
    }
  }

  /** From any flat object the extractor returns the value of the first member with the key, or nothing. */
  lemma ExtractInvertsPrinting(pairs: seq<Pair>, key: string)
    requires pairs != [] && PlainKey(key) && forall p | p in pairs :: Printable(p)
    ensures Extract(FlatObject(pairs), key) == FirstValue(pairs, key)
  {
    MembersAreFields(pairs);
    FieldsHarmless(pairs);
    SkipQuoteless("{", Printed(AsFields(pairs)), key);
    FindsFirstField(AsFields(pairs), key);
    FirstRestIsValue(pairs, key);
  }

  lemma {:induction false} FirstValueAt(pairs: seq<Pair>, i: nat)
    requires i < |pairs| && forall j | 0 <= j < i :: pairs[j].key != pairs[i].key
    ensures FirstValue(pairs, pairs[i].key) == pairs[i].value.text
  {
    if i > 0 { FirstValueAt(pairs[1..], i - 1); }
  }

  /** With distinct keys every member is recovered, in whatever order the members were printed. */
  lemma EveryMemberRecovered(pairs: seq<Pair>, i: nat)
    requires i < |pairs| && forall p | p in pairs :: Printable(p)
    requires forall a, b | 0 <= a < b < |pairs| :: pairs[a].key != pairs[b].key
    ensures Extract(FlatObject(pairs), pairs[i].key) == pairs[i].value.text
  {
    assert Printable(pairs[i]);
    ExtractInvertsPrinting(pairs, pairs[i].key);
    FirstValueAt(pairs, i);
  }

  /** A value that is cut off, before its closing quote or its separator, is read as nothing. */
  lemma CutOffYieldsNothing(p: Pair, cut: nat)
    requires Printable(p) && cut <= |p.value.text|
    ensures var opening := if p.value.Text? then "\"" else "";
            Extract("{" + (Token(p.key) + (p.gap + (opening + p.value.text[..cut]))), p.key) == ""
  {
    var opening := if p.value.Text? then "\"" else "";
    var rest := p.gap + (opening + p.value.text[..cut]);
    SkipQuoteless("{", Token(p.key) + rest, p.key);
    HitField(Field(p.key, rest), "");
    assert Token(p.key) + rest + "" == Token(p.key) + rest && rest + "" == rest;
    CutOffText(p, opening + p.value.text[..cut], cut);
  }

  lemma CutOffText(p: Pair, v: string, cut: nat)
    requires Printable(p) && cut <= |p.value.text|
    requires v == (if p.value.Text? then "\"" else "") + p.value.text[..cut]
    ensures ValueText(p.gap + v) == ""
  {
    var t := p.value.text[..cut];
    assert forall j | 0 <= j < |t| :: t[j] == p.value.text[j] && t[j] in p.value.text;
    if p.value.Text? {
      CutOffQuoted(p.gap, t);
    } else {
      assert v == t;
      CutOffBare(p.gap, t);
    }
  }

  lemma CutOffQuoted(gap: string, t: string)
    requires (forall c | c in gap :: IsSpace(c)) && '"' !in t
    ensures ValueText(gap + ("\"" + t)) == ""
  {
    SkipsGap(gap, "\"" + t);
    assert ("\"" + t)[1..] == t;
    NoFirstOf(t, {'"'});
  }

  lemma CutOffBare(gap: string, t: string)
    requires forall c | c in gap :: IsSpace(c)
    requires (forall c | c in t :: c !in {'"', ',', '}'}) && (t != "" ==> !IsSpace(t[0]))
    ensures ValueText(gap + t) == ""
  {
    if t == "" {
      assert gap + t == gap;
      OnlyGap(gap);
    } else {
      SkipsGap(gap, t);
      assert forall j | 0 <= j < |t| :: t[j] in t;
      NoFirstOf(t, {',', '}'});
      assert t[0] in t;
    }
  }

  lemma {:induction false} OnlyGap(gap: string)
    requires forall c | c in gap :: IsSpace(c)
    ensures SkipSpace(gap) == ""
  {
    if gap != "" { OnlyGap(gap[1..]); }
  }

  // ----- Trade records -----

  datatype Source = WebSocket | RestFallback

  datatype MarketTick = MarketTick(symbol: string, price: real, exchangeTs: nat, recvTs: nat, source: Source)

  /** The number conversions, failing where the C++ ones throw. */
  datatype Conversions = Conversions(toReal: string -> Option<real>, toNat: string -> Option<nat>)

  datatype Parsed = Parsed(ok: bool, tick: MarketTick)

  /** The event time: zero where the text is empty. */
  function TimeOf(conv: Conversions, text: string): Option<nat> {
    if text == "" then Some(0) else conv.toNat(text)
  }

  /** What the three texts make of a tick. A failed conversion leaves what was assigned before it. */
  function FromTexts(conv: Conversions, sym: string, p: string, e: string, before: MarketTick, now: nat): Parsed {
    if sym == "" || p == "" then Parsed(false, before)
    else if conv.toReal(p).None? then Parsed(false, before.(symbol := sym))
    else if TimeOf(conv, e).None? then Parsed(false, before.(symbol := sym, price := conv.toReal(p).value))
    else Parsed(true, MarketTick(sym, conv.toReal(p).value, TimeOf(conv, e).value, now, WebSocket))
  }

  function ParsedTrade(conv: Conversions, json: string, before: MarketTick, now: nat): Parsed {
    FromTexts(conv, Extract(json, "s"), Extract(json, "p"), Extract(json, "E"), before, now)
  }

  /** Reads symbol, price and event time, assigning the tick field by field. */
  method ParseTradeJson(conv: Conversions, json: string, before: MarketTick, now: nat)
    returns (ok: bool, tick: MarketTick)
    ensures Parsed(ok, tick) == ParsedTrade(conv, json, before, now)
  {
    tick := before;
    var sym := ExtractJsonValue(json, "s");
    var p := ExtractJsonValue(json, "p");
    var e := ExtractJsonValue(json, "E");
    if sym == "" || p == "" { return false, tick; }
    tick := tick.(symbol := sym);
    var price := conv.toReal(p);
    if price.None? { return false, tick; }
    tick := tick.(price := price.value);
    var time: Option<nat> := Some(0);
    if e != "" { time := conv.toNat(e); }
    if time.None? { return false, tick; }
    tick := tick.(exchangeTs := time.value, recvTs := now, source := WebSocket);
    return true, tick;
  }

  /**
   From any trade record, whatever other members it has and in whatever order,
   the parser succeeds iff symbol and price are not empty and the price and a
   present event time convert; the tick then carries the record's own symbol,
   price and event time.
   */
  lemma TradeRecovered(conv: Conversions, pairs: seq<Pair>, before: MarketTick, now: nat)
    requires pairs != [] && forall p | p in pairs :: Printable(p)
    ensures var r := ParsedTrade(conv, FlatObject(pairs), before, now);
            var sym, p, e := FirstValue(pairs, "s"), FirstValue(pairs, "p"), FirstValue(pairs, "E");
            && (r.ok <==> sym != "" && p != "" && conv.toReal(p).Some? && (e == "" || conv.toNat(e).Some?))
            && (r.ok ==> r.tick.symbol == sym && Some(r.tick.price) == conv.toReal(p) && r.tick.recvTs == now
                         && (if e == "" then r.tick.exchangeTs == 0 else Some(r.tick.exchangeTs) == conv.toNat(e))
                         && r.tick.source == WebSocket)
            && (!r.ok ==> r.tick.(symbol := before.symbol, price := before.price) == before
                          && r.tick.symbol == (if sym == "" || p == "" then before.symbol else sym)
                          && r.tick.price == (if sym == "" || p == "" || conv.toReal(p).None? then before.price
                                              else conv.toReal(p).value))
  {
    ExtractInvertsPrinting(pairs, "s");
    ExtractInvertsPrinting(pairs, "p");
    ExtractInvertsPrinting(pairs, "E");
  }
}
