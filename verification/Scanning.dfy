/** First-match substring search over strings, and where keys are found in a flat sequence of fields. */
module Scanning {
  import opened Prelude

  predicate MatchAt(s: string, t: string, i: nat) {
    i + |t| <= |s| && s[i..i + |t|] == t
  }

  /** The first match of t in s at or after `from`. */
  function Find(s: string, t: string, from: nat): (r: Option<nat>)
    ensures r.Some? ==> from <= r.value && MatchAt(s, t, r.value)
    ensures forall j | from <= j < (if r.Some? then r.value else |s| + 1) :: !MatchAt(s, t, j)
    decreases |s| + 1 - from
  {
    if from > |s| then None
    else if MatchAt(s, t, from) then Some(from)
    else Find(s, t, from + 1)
  }

  /** The first position at or after `from` that holds one of these characters. */
  function FindFirstOf(s: string, stops: set<char>, from: nat): (r: Option<nat>)
    ensures r.Some? ==> from <= r.value < |s| && s[r.value] in stops
    ensures forall j | from <= j < (if r.Some? then r.value else |s|) :: s[j] !in stops
    decreases |s| - from
  {
    if from >= |s| then None
    else if s[from] in stops then Some(from)
    else FindFirstOf(s, stops, from + 1)
  }

  /** What follows the first match of t. */
  function Following(s: string, t: string): Option<string> {
    match Find(s, t, 0)
    case None => None
    case Some(i) => Some(s[i + |t|..])
  }

  /** What precedes the first stop character. */
  function Until(s: string, stops: set<char>): Option<string> {
    match FindFirstOf(s, stops, 0)
    case None => None
    case Some(i) => Some(s[..i])
  }

  lemma FindIs(s: string, t: string, i: nat)
    requires MatchAt(s, t, i) && forall j | 0 <= j < i :: !MatchAt(s, t, j)
    ensures Find(s, t, 0) == Some(i)
  {}

  lemma FindNone(s: string, t: string)
    requires forall j | 0 <= j <= |s| :: !MatchAt(s, t, j)
    ensures Find(s, t, 0) == None
  {}

  /** The text nowhere has this key's token. */
  predicate Lacks(s: string, key: string) {
    forall i | 0 <= i <= |s| :: !(Token(key) <= s[i..])
  }

  lemma LackingKey(s: string, key: string)
    requires Lacks(s, key)
    ensures Following(s, Token(key)) == None
  {
    var t := Token(key);
    forall i | 0 <= i <= |s| ensures !MatchAt(s, t, i) {
      if i + |t| <= |s| { assert s[i..i + |t|] == s[i..][..|t|]; }
    }
    FindNone(s, t);
  }

  lemma FirstOfIs(s: string, stops: set<char>, i: nat)
    requires i < |s| && s[i] in stops && forall j | 0 <= j < i :: s[j] !in stops
    ensures FindFirstOf(s, stops, 0) == Some(i)
  {}

  lemma MatchShift(p: string, r: string, t: string, j: nat)
    ensures MatchAt(p + r, t, |p| + j) == MatchAt(r, t, j)
  {
    if j + |t| <= |r| { assert (p + r)[|p| + j..|p| + j + |t|] == r[j..j + |t|]; }
  }

  /** Text in which no match starts may be dropped from the front. */
  lemma FollowingSkips(p: string, r: string, t: string)
    requires forall j | 0 <= j < |p| :: !MatchAt(p + r, t, j)
    ensures Following(p + r, t) == Following(r, t)
  {
    var f := Find(r, t, 0);
    var end := if f.Some? then f.value else |r| + 1;
    forall j | |p| <= j < |p| + end ensures !MatchAt(p + r, t, j) { MatchShift(p, r, t, j - |p|); }
    if f.Some? {
      MatchShift(p, r, t, f.value);
      FindIs(p + r, t, |p| + f.value);
      assert (p + r)[|p| + f.value + |t|..] == r[f.value + |t|..];
    } else {
      FindNone(p + r, t);
    }
  }

  lemma FirstStop(v: string, rest: string, stops: set<char>)
    requires forall c | c in v :: c !in stops
    requires rest != "" && rest[0] in stops
    ensures FindFirstOf(v + rest, stops, 0) == Some(|v|)
  {
    forall j | 0 <= j < |v| ensures (v + rest)[j] !in stops { assert (v + rest)[j] == v[j]; }
    FirstOfIs(v + rest, stops, |v|);
  }

  lemma UntilStop(v: string, rest: string, stops: set<char>)
    requires forall c | c in v :: c !in stops
    requires rest != "" && rest[0] in stops
    ensures Until(v + rest, stops) == Some(v)
  {
    FirstStop(v, rest, stops);
    assert (v + rest)[..|v|] == v;
  }

  // ----- Fields -----

  function Token(key: string): string {
    "\"" + key + "\":"
  }

  /** A key without quotes that does not begin like the text that follows a key or a value. */
  predicate PlainKey(k: string) {
    k != "" && '"' !in k && k[0] != ':' && k[0] != ',' && k[0] != '}'
  }

  /** One field as it stands in the text: a key token and everything up to the next key. */
  datatype Field = Field(key: string, raw: string)

  function Printed(fields: seq<Field>): string {
    if fields == [] then ""
    else Token(fields[0].key) + fields[0].raw + Printed(fields[1..])
  }

  /** A field whose text cannot be mistaken for a key: no quotes, or one quoted string before a separator. */
  ghost predicate Harmless(f: Field) {
    && PlainKey(f.key)
    && ('"' !in f.raw
        || exists gap, str, sep :: Quoted(f.raw, gap, str, sep))
  }

  predicate Quoted(raw: string, gap: string, str: string, sep: char) {
    && raw == gap + "\"" + str + "\"" + [sep]
    && '"' !in gap && '"' !in str
    && (sep == ',' || sep == '}')
  }

  /** What follows the token of the first field with this key. */
  function FirstRest(fields: seq<Field>, key: string): Option<string> {
    if fields == [] then None
    else if fields[0].key == key then Some(fields[0].raw + Printed(fields[1..]))
    else FirstRest(fields[1..], key)
  }

  lemma Mismatch(s: string, t: string, i: nat, m: nat)
    requires m < |t| && i + m < |s| && s[i + m] != t[m]
    ensures !MatchAt(s, t, i)
  {
    if i + |t| <= |s| { assert s[i..i + |t|][m] == s[i + m]; }
  }

  lemma NoMatchWithoutQuote(s: string, k: string, j: nat)
    requires j < |s| && s[j] != '"'
    ensures !MatchAt(s, Token(k), j)
  {
    Mismatch(s, Token(k), j, 0);
  }

  lemma FirstDifference(a: string, b: string) returns (m: nat)
    requires |a| == |b| && a != b
    ensures m < |a| && a[m] != b[m]
  {
    m :| m < |a| && a[m] != b[m];
  }

  /** A key token is never found inside another key's token. */
  lemma NoMatchInToken(key: string, rest: string, k: string, j: nat)
    requires PlainKey(key) && PlainKey(k) && j < |Token(key)|
    requires key != k
    ensures !MatchAt(Token(key) + rest, Token(k), j)
  {
    var s, t := Token(key) + rest, Token(k);
    if j == 0 {
      if |k| < |key| {
        assert key[|k|] in key;
        Mismatch(s, t, 0, |k| + 1);
      } else if |key| < |k| {
        assert k[|key|] in k;
        Mismatch(s, t, 0, |key| + 1);
      } else {
        var m := FirstDifference(key, k);
        Mismatch(s, t, 0, m + 1);
      }
    } else if j <= |key| {
      assert key[j - 1] in key;
      NoMatchWithoutQuote(s, k, j);
    } else if j == |key| + 1 {
      Mismatch(s, t, j, 1);
    } else {
      NoMatchWithoutQuote(s, k, j);
    }
  }

  /** A quoted value is followed by a separator, not by a colon, so it is never taken for a key. */
  lemma NoMatchInQuoted(str: string, sep: char, rest: string, k: string)
    requires '"' !in str && (sep == ',' || sep == '}') && PlainKey(k)
    ensures var s := "\"" + str + "\"" + [sep] + rest;
            !MatchAt(s, Token(k), 0) && !MatchAt(s, Token(k), |str| + 1)
  {
    var s, t := "\"" + str + "\"" + [sep] + rest, Token(k);
    if |k| < |str| {
      assert str[|k|] in str;
      Mismatch(s, t, 0, |k| + 1);
    } else if |str| < |k| {
      assert k[|str|] in k;
      Mismatch(s, t, 0, |str| + 1);
    } else {
      Mismatch(s, t, 0, |k| + 2);
    }
    Mismatch(s, t, |str| + 1, 1);
  }

  lemma SkipQuoteless(p: string, r: string, k: string)
    requires '"' !in p
    ensures Following(p + r, Token(k)) == Following(r, Token(k))
  {
    forall j | 0 <= j < |p| ensures !MatchAt(p + r, Token(k), j) {
      assert (p + r)[j] == p[j];
      NoMatchWithoutQuote(p + r, k, j);
    }
    FollowingSkips(p, r, Token(k));
  }

  lemma SkipToken(key: string, r: string, k: string)
    requires PlainKey(key) && PlainKey(k) && key != k
    ensures Following(Token(key) + r, Token(k)) == Following(r, Token(k))
  {
    forall j | 0 <= j < |Token(key)| ensures !MatchAt(Token(key) + r, Token(k), j) {
      NoMatchInToken(key, r, k, j);
    }
    FollowingSkips(Token(key), r, Token(k));
  }

  lemma SkipQuoted(str: string, sep: char, r: string, k: string)
    requires '"' !in str && (sep == ',' || sep == '}') && PlainKey(k)
    ensures Following("\"" + str + "\"" + [sep] + r, Token(k)) == Following(r, Token(k))
  {
    var p := "\"" + str + "\"" + [sep];
    var s := p + r;
    NoMatchInQuoted(str, sep, r, k);
    forall j | 0 <= j < |p| ensures !MatchAt(s, Token(k), j) {
      if 1 <= j <= |str| { assert s[j] == str[j - 1]; NoMatchWithoutQuote(s, k, j); }
      else if j == |str| + 2 { assert s[j] == sep; NoMatchWithoutQuote(s, k, j); }
    }
    FollowingSkips(p, r, Token(k));
  }

  lemma SkipRaw(f: Field, r: string, k: string)
    requires Harmless(f) && PlainKey(k)
    ensures Following(f.raw + r, Token(k)) == Following(r, Token(k))
  {
    if '"' !in f.raw {
      SkipQuoteless(f.raw, r, k);
    } else {
      var gap, str, sep :| Quoted(f.raw, gap, str, sep);
      var q := "\"" + str + "\"" + [sep] + r;
      assert f.raw + r == gap + q;
      SkipQuoteless(gap, q, k);
      SkipQuoted(str, sep, r, k);
    }
  }

  lemma SkipField(f: Field, r: string, k: string)
    requires Harmless(f) && PlainKey(k) && f.key != k
    ensures Following(Token(f.key) + f.raw + r, Token(k)) == Following(r, Token(k))
  {
    assert Token(f.key) + f.raw + r == Token(f.key) + (f.raw + r);
    SkipToken(f.key, f.raw + r, k);
    SkipRaw(f, r, k);
  }

  lemma HitField(f: Field, r: string)
    ensures Following(Token(f.key) + f.raw + r, Token(f.key)) == Some(f.raw + r)
  {
    var s := Token(f.key) + f.raw + r;
    FindIs(s, Token(f.key), 0);
    assert s[|Token(f.key)|..] == f.raw + r;
  }

  /** The first match of a key's token is the first field with that key; other keys and values never match. */
  lemma {:induction false} FindsFirstField(fields: seq<Field>, k: string)
    requires PlainKey(k) && forall f | f in fields :: Harmless(f)
    ensures Following(Printed(fields), Token(k)) == FirstRest(fields, k)
  {
    if fields == [] {
      FindNone("", Token(k));
    } else if fields[0].key == k {
      HitField(fields[0], Printed(fields[1..]));
    } else {
      SkipField(fields[0], Printed(fields[1..]), k);
      FindsFirstField(fields[1..], k);
    }
  }
}
