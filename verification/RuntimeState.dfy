/** The saved runtime state: the strategy switch and the risk limits, printed as JSON and read back by key. */
module RuntimeState {
  import opened Prelude
  import opened Orders
  import opened Scanning
  import DecimalText

  /** How a number is put into text and read back; reading fails where the C++ conversion throws. */
  datatype NumberCodec = NumberCodec(show: real -> string, parse: string -> Option<real>)

  /** The default stream format and the decimal reader. */
  const STREAM := NumberCodec(x => DecimalText.Show(x), s => DecimalText.Read(s))

  datatype Keys = Keys(enabled: string, risk: string, single: string, ratio: string, loss: string)

  const KEYS := Keys("strategy_enabled", "risk", "max_single_order_notional_usd", "max_position_ratio",
                     "daily_loss_stop_ratio")

  /** The switch, then an object with the three limits; each field's text runs up to the next key. */
  function SavedFields(k: Keys, codec: NumberCodec, enabled: bool, risk: RiskConfig): seq<Field> {
    [ Field(k.enabled, (if enabled then "true" else "false") + ","),
      Field(k.risk, "{"),
      Field(k.single, codec.show(risk.maxSingleOrderNotional) + ","),
      Field(k.ratio, codec.show(risk.maxPositionRatio) + ","),
      Field(k.loss, codec.show(risk.dailyLossStopRatio) + "}}") ]
  }

  function SaveText(codec: NumberCodec, enabled: bool, risk: RiskConfig): string {
    "{" + Printed(SavedFields(KEYS, codec, enabled, risk))
  }

  lemma PrintedFrom(f: seq<Field>, i: nat)
    requires i < |f|
    ensures Printed(f[i..]) == (Token(f[i].key) + f[i].raw) + Printed(f[i + 1..])
  {
    assert f[i..][1..] == f[i + 1..];
  }

  lemma PrintedFive(f: seq<Field>)
    requires |f| == 5
    ensures Printed(f) ==
            (Token(f[0].key) + f[0].raw) + ((Token(f[1].key) + f[1].raw) + ((Token(f[2].key) + f[2].raw) +
            ((Token(f[3].key) + f[3].raw) + ((Token(f[4].key) + f[4].raw) + ""))))
  {
    assert f[0..] == f;
    PrintedFrom(f, 0);
    PrintedFrom(f, 1);
    PrintedFrom(f, 2);
    PrintedFrom(f, 3);
    PrintedFrom(f, 4);
  }

  /** The saved text, written out. */
  lemma SavedTextIs(codec: NumberCodec, enabled: bool, risk: RiskConfig)
    ensures SaveText(codec, enabled, risk) ==
            "{" + ((Token("strategy_enabled") + ((if enabled then "true" else "false") + ",")) +
            ((Token("risk") + "{") +
            ((Token("max_single_order_notional_usd") + (codec.show(risk.maxSingleOrderNotional) + ",")) +
            ((Token("max_position_ratio") + (codec.show(risk.maxPositionRatio) + ",")) +
            ((Token("daily_loss_stop_ratio") + (codec.show(risk.dailyLossStopRatio) + "}}")) + "")))))
  {
    PrintedFive(SavedFields(KEYS, codec, enabled, risk));
  }

  /** The current value is kept when the key is missing. */
  function FindBool(s: string, key: string, current: bool): bool {
    match Following(s, Token(key))
    case None => current
    case Some(rest) => "true" <= rest
  }

  /** The current value is kept when the key or the end of the value is missing or the value is no number. */
  function FindNumber(codec: NumberCodec, s: string, key: string, current: real): real {
    match Following(s, Token(key))
    case None => current
    case Some(rest) =>
      match Until(rest, {',', '}'})
      case None => current
      case Some(text) => Reread(codec, text, current)
  }

  function Reread(codec: NumberCodec, text: string, current: real): real {
    match codec.parse(text)
    case None => current
    case Some(x) => x
  }

  datatype Loaded = Loaded(enabled: bool, risk: RiskConfig)

  function LoadKeys(k: Keys, codec: NumberCodec, s: string, current: Loaded): Loaded {
    Loaded(
      FindBool(s, k.enabled, current.enabled),
      RiskConfig(
        FindNumber(codec, s, k.single, current.risk.maxSingleOrderNotional),
        FindNumber(codec, s, k.ratio, current.risk.maxPositionRatio),
        FindNumber(codec, s, k.loss, current.risk.dailyLossStopRatio)))
  }

  function Load(codec: NumberCodec, s: string, current: Loaded): Loaded {
    LoadKeys(KEYS, codec, s, current)
  }

  /** What the text has no key for stays as it was. */
  lemma MissingKept(k: Keys, codec: NumberCodec, s: string, current: Loaded)
    ensures var loaded := LoadKeys(k, codec, s, current);
            && (Lacks(s, k.enabled) ==> loaded.enabled == current.enabled)
            && (Lacks(s, k.single) ==> loaded.risk.maxSingleOrderNotional == current.risk.maxSingleOrderNotional)
            && (Lacks(s, k.ratio) ==> loaded.risk.maxPositionRatio == current.risk.maxPositionRatio)
            && (Lacks(s, k.loss) ==> loaded.risk.dailyLossStopRatio == current.risk.dailyLossStopRatio)
  {
    if Lacks(s, k.enabled) { LackingKey(s, k.enabled); }
    if Lacks(s, k.single) { LackingKey(s, k.single); }
    if Lacks(s, k.ratio) { LackingKey(s, k.ratio); }
    if Lacks(s, k.loss) { LackingKey(s, k.loss); }
  }

  /** The printed number contains none of the characters that structure the text. */
  predicate CleanNumber(codec: NumberCodec, x: real) {
    forall c | c in codec.show(x) :: c !in {'"', ',', '}'}
  }

  predicate CleanRisk(codec: NumberCodec, risk: RiskConfig) {
    CleanNumber(codec, risk.maxSingleOrderNotional) && CleanNumber(codec, risk.maxPositionRatio)
    && CleanNumber(codec, risk.dailyLossStopRatio)
  }

  predicate Survives(codec: NumberCodec, x: real) {
    codec.parse(codec.show(x)) == Some(x)
  }

  predicate RiskSurvives(codec: NumberCodec, risk: RiskConfig) {
    Survives(codec, risk.maxSingleOrderNotional) && Survives(codec, risk.maxPositionRatio)
    && Survives(codec, risk.dailyLossStopRatio)
  }

  predicate Separate(k: Keys) {
    && PlainKey(k.enabled) && PlainKey(k.risk) && PlainKey(k.single) && PlainKey(k.ratio) && PlainKey(k.loss)
    && k.enabled !in {k.risk, k.single, k.ratio, k.loss}
    && k.risk !in {k.single, k.ratio, k.loss}
    && k.single !in {k.ratio, k.loss}
    && k.ratio != k.loss
  }

  lemma KeysSeparate()
    ensures Separate(KEYS)
  {
    PlainSwitchKeys();
    PlainSingleKey();
    PlainShareKeys();
    assert |KEYS.enabled| == 16 && |KEYS.risk| == 4 && |KEYS.single| == 29 && |KEYS.ratio| == 18 && |KEYS.loss| == 21;
  }

  lemma PlainSwitchKeys()
    ensures PlainKey(KEYS.enabled) && PlainKey(KEYS.risk)
  {}

  lemma PlainSingleKey()
    ensures PlainKey(KEYS.single)
  {}

  lemma PlainShareKeys()
    ensures PlainKey(KEYS.ratio) && PlainKey(KEYS.loss)
  {}

  /** The rest of the text after the i-th field's token. */
  function RestOf(fields: seq<Field>, i: nat): string
    requires i < |fields|
  {
    fields[i].raw + Printed(fields[i + 1..])
  }

  lemma {:induction false} NthRest(fields: seq<Field>, i: nat)
    requires i < |fields| && forall j | 0 <= j < i :: fields[j].key != fields[i].key
    ensures FirstRest(fields, fields[i].key) == Some(RestOf(fields, i))
  {
    if i == 0 {
    } else {
      NthRest(fields[1..], i - 1);
      assert fields[1..][i - 1 + 1..] == fields[i + 1..];
    }
  }

  /** In the saved text the search for field i's key arrives at field i. */
  lemma SavedFinds(k: Keys, codec: NumberCodec, enabled: bool, risk: RiskConfig, i: nat)
    requires CleanRisk(codec, risk) && Separate(k) && i < 5
    ensures var f := SavedFields(k, codec, enabled, risk);
            Following("{" + Printed(f), Token(f[i].key)) == Some(RestOf(f, i))
  {
    var f := SavedFields(k, codec, enabled, risk);
    forall j | 0 <= j < 5 ensures Harmless(f[j]) && '"' !in f[j].raw {}
    SkipQuoteless("{", Printed(f), f[i].key);
    FindsFirstField(f, f[i].key);
    NthRest(f, i);
  }

  /** Reading back a number that was printed in front of a comma or brace. */
  lemma NumberBack(codec: NumberCodec, x: real, sep: string, rest: string)
    requires CleanNumber(codec, x) && sep != "" && sep[0] in {',', '}'}
    ensures Until(codec.show(x) + sep + rest, {',', '}'}) == Some(codec.show(x))
  {
    assert codec.show(x) + sep + rest == codec.show(x) + (sep + rest);
    UntilStop(codec.show(x), sep + rest, {',', '}'});
  }

  lemma NumberFieldBack(
    k: Keys, codec: NumberCodec, enabled: bool, risk: RiskConfig, i: nat, x: real, sep: string, current: real)
    requires CleanRisk(codec, risk) && Separate(k) && 2 <= i < 5
    requires CleanNumber(codec, x) && sep != "" && sep[0] in {',', '}'}
    requires SavedFields(k, codec, enabled, risk)[i].raw == codec.show(x) + sep
    ensures var f := SavedFields(k, codec, enabled, risk);
            FindNumber(codec, "{" + Printed(f), f[i].key, current) == Reread(codec, codec.show(x), current)
  {
    SavedFinds(k, codec, enabled, risk, i);
    NumberBack(codec, x, sep, Printed(SavedFields(k, codec, enabled, risk)[i + 1..]));
  }

  lemma LoadKeysAfterSave(k: Keys, codec: NumberCodec, enabled: bool, risk: RiskConfig, current: Loaded)
    requires CleanRisk(codec, risk) && Separate(k)
    ensures var s := "{" + Printed(SavedFields(k, codec, enabled, risk));
            LoadKeys(k, codec, s, current) == Loaded(enabled, RereadRisk(codec, risk, current.risk))
  {
    SavedFinds(k, codec, enabled, risk, 0);
    BoolBack(enabled, Printed(SavedFields(k, codec, enabled, risk)[1..]));
    NumberFieldBack(k, codec, enabled, risk, 2, risk.maxSingleOrderNotional, ",", current.risk.maxSingleOrderNotional);
    NumberFieldBack(k, codec, enabled, risk, 3, risk.maxPositionRatio, ",", current.risk.maxPositionRatio);
    NumberFieldBack(k, codec, enabled, risk, 4, risk.dailyLossStopRatio, "}}", current.risk.dailyLossStopRatio);
  }

  lemma BoolBack(enabled: bool, rest: string)
    ensures "true" <= (if enabled then "true" else "false") + "," + rest <==> enabled
  {
    var s := (if enabled then "true" else "false") + "," + rest;
    if enabled { assert s[..4] == "true"; } else { assert s[0] == 'f'; }
  }

  /** Each limit as its printed text reads; the current value where that text is no number. */
  function RereadRisk(codec: NumberCodec, risk: RiskConfig, current: RiskConfig): RiskConfig {
    RiskConfig(
      Reread(codec, codec.show(risk.maxSingleOrderNotional), current.maxSingleOrderNotional),
      Reread(codec, codec.show(risk.maxPositionRatio), current.maxPositionRatio),
      Reread(codec, codec.show(risk.dailyLossStopRatio), current.dailyLossStopRatio))
  }

  /**
   Loading what was saved yields the saved switch and, for each limit, the
   number that its printed text stands for, whatever was there before loading:
   no search stops at another key, and no value runs into its neighbour.
   */
  lemma LoadAfterSave(codec: NumberCodec, enabled: bool, risk: RiskConfig, current: Loaded)
    requires CleanRisk(codec, risk)
    ensures Load(codec, SaveText(codec, enabled, risk), current) ==
            Loaded(enabled, RereadRisk(codec, risk, current.risk))
  {
    KeysSeparate();
    LoadKeysAfterSave(KEYS, codec, enabled, risk, current);
  }

  ghost predicate AlwaysRestores(codec: NumberCodec, enabled: bool, risk: RiskConfig) {
    forall current :: Load(codec, SaveText(codec, enabled, risk), current) == Loaded(enabled, risk)
  }

  /** For any number format that leaves the structure of the text alone, only the numbers can be lost. */
  lemma RoundTripIff(codec: NumberCodec, enabled: bool, risk: RiskConfig)
    requires CleanRisk(codec, risk)
    ensures AlwaysRestores(codec, enabled, risk) <==> RiskSurvives(codec, risk)
  {
    if RiskSurvives(codec, risk) {
      forall current ensures Load(codec, SaveText(codec, enabled, risk), current) == Loaded(enabled, risk) {
        LoadAfterSave(codec, enabled, risk, current);
      }
    } else {
      var other := Loaded(enabled, RiskConfig(risk.maxSingleOrderNotional + 1.0, risk.maxPositionRatio + 1.0,
                                              risk.dailyLossStopRatio + 1.0));
      LoadAfterSave(codec, enabled, risk, other);
      assert Load(codec, SaveText(codec, enabled, risk), other) != Loaded(enabled, risk);
    }
  }

  ghost predicate SixDigitRisk(risk: RiskConfig) {
    && DecimalText.SixDigits(risk.maxSingleOrderNotional)
    && DecimalText.SixDigits(risk.maxPositionRatio)
    && DecimalText.SixDigits(risk.dailyLossStopRatio)
  }

  lemma StreamClean(x: real)
    ensures CleanNumber(STREAM, x)
  {
    DecimalText.ShowIsPlain(x);
  }

  lemma StreamCleanRisk(risk: RiskConfig)
    ensures CleanRisk(STREAM, risk)
  {
    StreamClean(risk.maxSingleOrderNotional);
    StreamClean(risk.maxPositionRatio);
    StreamClean(risk.dailyLossStopRatio);
  }

  lemma StreamSurvives(risk: RiskConfig)
    ensures RiskSurvives(STREAM, risk) <==> SixDigitRisk(risk)
  {
    DecimalText.SurvivesIffSixDigits(risk.maxSingleOrderNotional);
    DecimalText.SurvivesIffSixDigits(risk.maxPositionRatio);
    DecimalText.SurvivesIffSixDigits(risk.dailyLossStopRatio);
  }

  function RoundedRisk(risk: RiskConfig): RiskConfig {
    RiskConfig(
      DecimalText.Rounded(risk.maxSingleOrderNotional),
      DecimalText.Rounded(risk.maxPositionRatio),
      DecimalText.Rounded(risk.dailyLossStopRatio))
  }

  /** Saving and loading yields the switch and the limits to six significant digits, whatever was there before. */
  lemma LoadRounds(enabled: bool, risk: RiskConfig, current: Loaded)
    ensures Load(STREAM, SaveText(STREAM, enabled, risk), current) == Loaded(enabled, RoundedRisk(risk))
  {
    StreamCleanRisk(risk);
    LoadAfterSave(STREAM, enabled, risk, current);
    DecimalText.ReadShow(risk.maxSingleOrderNotional);
    DecimalText.ReadShow(risk.maxPositionRatio);
    DecimalText.ReadShow(risk.dailyLossStopRatio);
  }

  lemma RoundedRiskExactIff(risk: RiskConfig)
    ensures RoundedRisk(risk) == risk <==> SixDigitRisk(risk)
  {
    DecimalText.RoundedExactIff(risk.maxSingleOrderNotional);
    DecimalText.RoundedExactIff(risk.maxPositionRatio);
    DecimalText.RoundedExactIff(risk.dailyLossStopRatio);
  }

  /**
   Saving and loading restores the switch and the limits, whatever was there
   before, exactly when each limit can be written with at most six significant
   digits: the file is printed with the stream's default precision.
   */
  lemma RestoresIffSixDigits(enabled: bool, risk: RiskConfig)
    ensures AlwaysRestores(STREAM, enabled, risk) <==> SixDigitRisk(risk)
  {
    StreamCleanRisk(risk);
    StreamSurvives(risk);
    RoundTripIff(STREAM, enabled, risk);
  }
}
