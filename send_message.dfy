// `ASRSendMessage`: the three requests the client starts a recognition
// with.  Each builds a request through `set_header`/`set_extra` and sends its
// `raw()` text once.  The log line written before sending is not modelled.

module SendMessages {
  import opened Common
  import opened HeaderMap
  import opened MessageUtils
  import AM = AsrMessage
  import opened RecognizerState
  import RE = RecognitionErrors
  import RC = RecognitionConfigs

  /** The `User-Agent` value of CREATE_SESSION. */
  const UserAgent: string := "ASR Client"

  /** The message `raw()` gives for a request for `c`. */
  function RequestText(c: Method, h: Headers, extra: string): string {
    AM.RawText(FirstLine(c), h, extra)
  }

  function CreateSessionHeaders(): (h: Headers)
    ensures ToMap(h) == map["User-Agent" := UserAgent]
  {
    Put([], "User-Agent", UserAgent)
  }

  /** `createSession`: one CREATE_SESSION with the user agent as its only
      header and no body. */
  method CreateSession(impl: Impl)
    modifies impl`outbox
    ensures impl.outbox == old(impl.outbox) + [RequestText(Method.CreateSession, CreateSessionHeaders(), [])]
  {
    var request := new AM.AsrMessage.Request(Method.CreateSession);
    request.SetHeader("User-Agent", UserAgent);
    var raw := request.Raw();
    impl.SendMessage(raw);
  }

  /** A numeric parameter's getter (every numeric parameter holds a
      number). */
  function UIntParam(p: RC.Properties, f: RC.Field): nat {
    match RC.FieldOf(p, f)
    case UIntValue(n) => n
    case _ => 0
  }

  /** A flag parameter's getter (every flag parameter holds a flag). */
  function BoolParam(p: RC.Properties, f: RC.Field): bool {
    match RC.FieldOf(p, f)
    case BoolValue(b) => b
    case _ => false
  }

  /** The sixteen settings `setParameters` reads into locals before it
      builds its request. */
  datatype Settings = Settings(
    confidenceThreshold: nat,
    maxSentences: nat,
    noInputTimeoutMilliseconds: nat,
    recognitionTimeoutSeconds: nat,
    noInputTimeoutEnabled: bool,
    recognitionTimeoutEnabled: bool,
    inferAgeEnabled: bool,
    inferEmotionEnabled: bool,
    inferGenderEnabled: bool,
    headMarginMilliseconds: nat,
    tailMarginMilliseconds: nat,
    waitEndMilliseconds: nat,
    startInputTimers: bool,
    endpointerAutoLevelLen: nat,
    endpointerLevelMode: nat,
    endpointerLevelThreshold: nat)

  function SettingsOf(p: RC.Properties): Settings {
    Settings(
      UIntParam(p, RC.ConfidenceThreshold),
      UIntParam(p, RC.MaxSentences),
      UIntParam(p, RC.NoInputTimeoutMilliseconds),
      UIntParam(p, RC.RecognitionTimeoutSeconds),
      BoolParam(p, RC.NoInputTimeoutEnabled),
      BoolParam(p, RC.RecognitionTimeoutEnabled),
      BoolParam(p, RC.InferAgeEnabled),
      BoolParam(p, RC.InferEmotionEnabled),
      BoolParam(p, RC.InferGenderEnabled),
      UIntParam(p, RC.HeadMarginMilliseconds),
      UIntParam(p, RC.TailMarginMilliseconds),
      UIntParam(p, RC.WaitEndMilliseconds),
      BoolParam(p, RC.StartInputTimers),
      UIntParam(p, RC.EndpointerAutoLevelLen),
      UIntParam(p, RC.EndpointerLevelMode),
      UIntParam(p, RC.EndpointerLevelThreshold))
  }

  /** `std::to_string(bool)`: a flag converts through its integer value. */
  function BoolText(b: bool): (s: string)
    ensures s == NatToDecimal(if b then 1 else 0)
  {
    if b then "1" else "0"
  }

  /** The headers SET_PARAMETERS may carry, in the order they are set. */
  datatype Param =
    | ConfidenceThresholdKey | MaxSentencesKey
    | NoInputEnabledKey | NoInputValueKey | RecogTimeoutEnabledKey | RecogTimeoutValueKey
    | InferAgeKey | InferEmotionKey | InferGenderKey
    | HeadMarginKey | TailMarginKey | WaitEndKey | StartInputTimersKey
    | LevelModeKey | AutoLevelLenKey | LevelThresholdKey

  function KeyName(q: Param): string {
    match q
    case ConfidenceThresholdKey => "decoder.confidenceThreshold"
    case MaxSentencesKey => "decoder.maxSentences"
    case NoInputEnabledKey => "noInputTimeout.enabled"
    case NoInputValueKey => "noInputTimeout.value"
    case RecogTimeoutEnabledKey => "recognitionTimeout.enabled"
    case RecogTimeoutValueKey => "recognitionTimeout.value"
    case InferAgeKey => "Infer-age-enabled"
    case InferEmotionKey => "Infer-emotion-enabled"
    case InferGenderKey => "Infer-gender-enabled"
    case HeadMarginKey => "endpointer.headMargin"
    case TailMarginKey => "endpointer.tailMargin"
    case WaitEndKey => "endpointer.waitEnd"
    case StartInputTimersKey => "decoder.startInputTimers"
    case LevelModeKey => "endpointer.levelMode"
    case AutoLevelLenKey => "endpointer.autoLevelLen"
    case LevelThresholdKey => "endpointer.levelThreshold"
  }

  /** No two parameters share a header name. */
  lemma KeyNamesDiffer(a: Param, b: Param)
    requires a != b
    ensures KeyName(a) != KeyName(b)
  {
  }

  /** The value `setParameters` sends under `q`'s header, or None when it
      leaves that header out: a number when it is not zero, a timeout's value
      only while the timeout is enabled, a flag as "1" (the classifier flags
      as "true") when set, and the automatic level length or the level
      threshold only in level mode 1 or 2. */
  function ParamValue(s: Settings, q: Param): Option<string> {
    match q
    case ConfidenceThresholdKey => NonZero(s.confidenceThreshold)
    case MaxSentencesKey => NonZero(s.maxSentences)
    case NoInputEnabledKey => SentIf(s.noInputTimeoutEnabled, BoolText(true))
    case NoInputValueKey => if s.noInputTimeoutEnabled then NonZero(s.noInputTimeoutMilliseconds) else None
    case RecogTimeoutEnabledKey => SentIf(s.recognitionTimeoutEnabled, BoolText(true))
    case RecogTimeoutValueKey => if s.recognitionTimeoutEnabled then NonZero(s.recognitionTimeoutSeconds) else None
    case InferAgeKey => SentIf(s.inferAgeEnabled, "true")
    case InferEmotionKey => SentIf(s.inferEmotionEnabled, "true")
    case InferGenderKey => SentIf(s.inferGenderEnabled, "true")
    case HeadMarginKey => NonZero(s.headMarginMilliseconds)
    case TailMarginKey => NonZero(s.tailMarginMilliseconds)
    case WaitEndKey => NonZero(s.waitEndMilliseconds)
    case StartInputTimersKey => SentIf(s.startInputTimers, BoolText(true))
    case LevelModeKey => NonZero(s.endpointerLevelMode)
    case AutoLevelLenKey => if s.endpointerLevelMode == 1 then NonZero(s.endpointerAutoLevelLen) else None
    case LevelThresholdKey => if s.endpointerLevelMode == 2 then NonZero(s.endpointerLevelThreshold) else None
  }

  /** A number that is sent only when it is not zero. */
  function NonZero(n: nat): Option<string> {
    if n != 0 then Some(NatToDecimal(n)) else None
  }

  /** A value that is sent only when `cond` holds. */
  function SentIf(cond: bool, v: string): Option<string> {
    if cond then Some(v) else None
  }

  /** What a guarded header leaves under its key: the value when sent,
      otherwise what was there. */
  function Over(sent: Option<string>, before: Option<string>): Option<string> {
    if sent.Some? then sent else before
  }

  /** A guarded `set_header`. */
  function PutIf(h: Headers, cond: bool, k: string, v: string): (r: Headers)
    ensures forall key :: Find(r, key) == if cond && key == k then Some(v) else Find(h, key)
  {
    if cond then Put(h, k, v) else h
  }

  /** Which of the five runs of guarded `set_header` calls sets `q`. */
  function GroupOf(q: Param): (g: nat)
    ensures 1 <= g <= 5
  {
    match q
    case ConfidenceThresholdKey | MaxSentencesKey => 1
    case NoInputEnabledKey | NoInputValueKey | RecogTimeoutEnabledKey | RecogTimeoutValueKey => 2
    case InferAgeKey | InferEmotionKey | InferGenderKey => 3
    case HeadMarginKey | TailMarginKey | WaitEndKey | StartInputTimersKey => 4
    case LevelModeKey | AutoLevelLenKey | LevelThresholdKey => 5
  }

  /** `key` is the header of one of run `g`'s parameters. */
  ghost predicate InGroup(key: string, g: nat) {
    exists q :: GroupOf(q) == g && KeyName(q) == key
  }

  /** Run `g` takes `h` to `r`: its parameters end with their values when
      sent and keep what they had otherwise; every other header is left
      alone. */
  ghost predicate SetsGroup(h: Headers, r: Headers, s: Settings, g: nat) {
    SetsValues(h, r, s, g) && KeepsOthers(h, r, g)
  }

  ghost predicate SetsValues(h: Headers, r: Headers, s: Settings, g: nat) {
    forall q :: GroupOf(q) == g ==> Find(r, KeyName(q)) == Over(ParamValue(s, q), Find(h, KeyName(q)))
  }

  ghost predicate KeepsOthers(h: Headers, r: Headers, g: nat) {
    forall key :: !InGroup(key, g) ==> Find(r, key) == Find(h, key)
  }

  /** Two guarded `set_header` calls on different keys: each key ends with
      its value when its guard holds and keeps its old value otherwise, and
      every other key is left alone.  `Chain3` and `Chain4` are the same for
      three and four calls. */
  lemma {:induction false} Chain2(h0: Headers, h1: Headers, h2: Headers, k1: string, k2: string,
                                  c1: bool, c2: bool, v1: string, v2: string)
    requires k1 != k2
    requires h1 == PutIf(h0, c1, k1, v1) && h2 == PutIf(h1, c2, k2, v2)
    ensures Find(h2, k1) == if c1 then Some(v1) else Find(h0, k1)
    ensures Find(h2, k2) == if c2 then Some(v2) else Find(h0, k2)
    ensures forall key :: key != k1 && key != k2 ==> Find(h2, key) == Find(h0, key)
  {
  }

  lemma {:induction false} Chain3(h0: Headers, h1: Headers, h2: Headers, h3: Headers,
                                  k1: string, k2: string, k3: string,
                                  c1: bool, c2: bool, c3: bool, v1: string, v2: string, v3: string)
    requires k1 != k2 && k1 != k3 && k2 != k3
    requires h1 == PutIf(h0, c1, k1, v1) && h2 == PutIf(h1, c2, k2, v2) && h3 == PutIf(h2, c3, k3, v3)
    ensures Find(h3, k1) == if c1 then Some(v1) else Find(h0, k1)
    ensures Find(h3, k2) == if c2 then Some(v2) else Find(h0, k2)
    ensures Find(h3, k3) == if c3 then Some(v3) else Find(h0, k3)
    ensures forall key :: key != k1 && key != k2 && key != k3 ==> Find(h3, key) == Find(h0, key)
  {
  }

  lemma {:induction false} Chain4(h0: Headers, h1: Headers, h2: Headers, h3: Headers, h4: Headers,
                                  k1: string, k2: string, k3: string, k4: string,
                                  c1: bool, c2: bool, c3: bool, c4: bool,
                                  v1: string, v2: string, v3: string, v4: string)
    requires k1 != k2 && k1 != k3 && k1 != k4 && k2 != k3 && k2 != k4 && k3 != k4
    requires h1 == PutIf(h0, c1, k1, v1) && h2 == PutIf(h1, c2, k2, v2)
    requires h3 == PutIf(h2, c3, k3, v3) && h4 == PutIf(h3, c4, k4, v4)
    ensures Find(h4, k1) == if c1 then Some(v1) else Find(h0, k1)
    ensures Find(h4, k2) == if c2 then Some(v2) else Find(h0, k2)
    ensures Find(h4, k3) == if c3 then Some(v3) else Find(h0, k3)
    ensures Find(h4, k4) == if c4 then Some(v4) else Find(h0, k4)
    ensures forall key :: key != k1 && key != k2 && key != k3 && key != k4 ==> Find(h4, key) == Find(h0, key)
  {
  }

  lemma DecoderValues(h: Headers, r: Headers, s: Settings)
    requires Find(r, KeyName(ConfidenceThresholdKey)) ==
             if s.confidenceThreshold != 0 then Some(NatToDecimal(s.confidenceThreshold)) else Find(h, KeyName(ConfidenceThresholdKey))
    requires Find(r, KeyName(MaxSentencesKey)) ==
             if s.maxSentences != 0 then Some(NatToDecimal(s.maxSentences)) else Find(h, KeyName(MaxSentencesKey))
    ensures SetsValues(h, r, s, 1)
  {
    forall q | GroupOf(q) == 1
      ensures Find(r, KeyName(q)) == Over(ParamValue(s, q), Find(h, KeyName(q)))
    {
      assert q == ConfidenceThresholdKey || q == MaxSentencesKey;
    }
  }

  lemma DecoderFrame(h: Headers, r: Headers)
    requires forall key :: key != KeyName(ConfidenceThresholdKey) && key != KeyName(MaxSentencesKey) ==> Find(r, key) == Find(h, key)
    ensures KeepsOthers(h, r, 1)
  {
    forall key | !InGroup(key, 1)
      ensures Find(r, key) == Find(h, key)
    {
      assert key != KeyName(ConfidenceThresholdKey) && key != KeyName(MaxSentencesKey);
    }
  }

  /** The decoder limits, each when not zero. */
  function DecoderHeaders(h: Headers, s: Settings): (r: Headers)
    ensures SetsGroup(h, r, s, 1)
  {
    var ct, ms := s.confidenceThreshold, s.maxSentences;
    var h1 := PutIf(h, ct != 0, KeyName(ConfidenceThresholdKey), NatToDecimal(ct));
    var h2 := PutIf(h1, ms != 0, KeyName(MaxSentencesKey), NatToDecimal(ms));
    KeyNamesDiffer(ConfidenceThresholdKey, MaxSentencesKey);
    Chain2(h, h1, h2,
           KeyName(ConfidenceThresholdKey), KeyName(MaxSentencesKey),
           ct != 0, ms != 0,
           NatToDecimal(ct), NatToDecimal(ms));
    DecoderValues(h, h2, s);
    DecoderFrame(h, h2);
    h2
  }

  lemma TimeoutValues(h: Headers, r: Headers, s: Settings)
    requires Find(r, KeyName(NoInputEnabledKey)) ==
             if s.noInputTimeoutEnabled then Some(BoolText(s.noInputTimeoutEnabled)) else Find(h, KeyName(NoInputEnabledKey))
    requires Find(r, KeyName(NoInputValueKey)) ==
             if s.noInputTimeoutEnabled && s.noInputTimeoutMilliseconds != 0 then Some(NatToDecimal(s.noInputTimeoutMilliseconds)) else Find(h, KeyName(NoInputValueKey))
    requires Find(r, KeyName(RecogTimeoutEnabledKey)) ==
             if s.recognitionTimeoutEnabled then Some(BoolText(s.recognitionTimeoutEnabled)) else Find(h, KeyName(RecogTimeoutEnabledKey))
    requires Find(r, KeyName(RecogTimeoutValueKey)) ==
             if s.recognitionTimeoutEnabled && s.recognitionTimeoutSeconds != 0 then Some(NatToDecimal(s.recognitionTimeoutSeconds)) else Find(h, KeyName(RecogTimeoutValueKey))
    ensures SetsValues(h, r, s, 2)
  {
    forall q | GroupOf(q) == 2
      ensures Find(r, KeyName(q)) == Over(ParamValue(s, q), Find(h, KeyName(q)))
    {
      assert q == NoInputEnabledKey || q == NoInputValueKey || q == RecogTimeoutEnabledKey || q == RecogTimeoutValueKey;
    }
  }

  lemma TimeoutFrame(h: Headers, r: Headers)
    requires forall key :: key != KeyName(NoInputEnabledKey) && key != KeyName(NoInputValueKey) && key != KeyName(RecogTimeoutEnabledKey) && key != KeyName(RecogTimeoutValueKey) ==> Find(r, key) == Find(h, key)
    ensures KeepsOthers(h, r, 2)
  {
    forall key | !InGroup(key, 2)
      ensures Find(r, key) == Find(h, key)
    {
      assert key != KeyName(NoInputEnabledKey) && key != KeyName(NoInputValueKey) && key != KeyName(RecogTimeoutEnabledKey) && key != KeyName(RecogTimeoutValueKey);
    }
  }

  /** The two timeouts: the flag when enabled, then the value when not
      zero. */
  function TimeoutHeaders(h: Headers, s: Settings): (r: Headers)
    ensures SetsGroup(h, r, s, 2)
  {
    var nie, nim := s.noInputTimeoutEnabled, s.noInputTimeoutMilliseconds;
    var rte, rts := s.recognitionTimeoutEnabled, s.recognitionTimeoutSeconds;
    var h1 := PutIf(h, nie, KeyName(NoInputEnabledKey), BoolText(nie));
    var h2 := PutIf(h1, nie && nim != 0, KeyName(NoInputValueKey), NatToDecimal(nim));
    var h3 := PutIf(h2, rte, KeyName(RecogTimeoutEnabledKey), BoolText(rte));
    var h4 := PutIf(h3, rte && rts != 0, KeyName(RecogTimeoutValueKey), NatToDecimal(rts));
    KeyNamesDiffer(NoInputEnabledKey, NoInputValueKey);
    KeyNamesDiffer(NoInputEnabledKey, RecogTimeoutEnabledKey);
    KeyNamesDiffer(NoInputEnabledKey, RecogTimeoutValueKey);
    KeyNamesDiffer(NoInputValueKey, RecogTimeoutEnabledKey);
    KeyNamesDiffer(NoInputValueKey, RecogTimeoutValueKey);
    KeyNamesDiffer(RecogTimeoutEnabledKey, RecogTimeoutValueKey);
    Chain4(h, h1, h2, h3, h4,
           KeyName(NoInputEnabledKey), KeyName(NoInputValueKey), KeyName(RecogTimeoutEnabledKey), KeyName(RecogTimeoutValueKey),
           nie, nie && nim != 0, rte, rte && rts != 0,
           BoolText(nie), NatToDecimal(nim), BoolText(rte), NatToDecimal(rts));
    TimeoutValues(h, h4, s);
    TimeoutFrame(h, h4);
    h4
  }

  lemma InferValues(h: Headers, r: Headers, s: Settings)
    requires Find(r, KeyName(InferAgeKey)) ==
             if s.inferAgeEnabled then Some("true") else Find(h, KeyName(InferAgeKey))
    requires Find(r, KeyName(InferEmotionKey)) ==
             if s.inferEmotionEnabled then Some("true") else Find(h, KeyName(InferEmotionKey))
    requires Find(r, KeyName(InferGenderKey)) ==
             if s.inferGenderEnabled then Some("true") else Find(h, KeyName(InferGenderKey))
    ensures SetsValues(h, r, s, 3)
  {
    forall q | GroupOf(q) == 3
      ensures Find(r, KeyName(q)) == Over(ParamValue(s, q), Find(h, KeyName(q)))
    {
      assert q == InferAgeKey || q == InferEmotionKey || q == InferGenderKey;
    }
  }

  lemma InferFrame(h: Headers, r: Headers)
    requires forall key :: key != KeyName(InferAgeKey) && key != KeyName(InferEmotionKey) && key != KeyName(InferGenderKey) ==> Find(r, key) == Find(h, key)
    ensures KeepsOthers(h, r, 3)
  {
    forall key | !InGroup(key, 3)
      ensures Find(r, key) == Find(h, key)
    {
      assert key != KeyName(InferAgeKey) && key != KeyName(InferEmotionKey) && key != KeyName(InferGenderKey);
    }
  }

  /** The speaker classifiers, each when enabled. */
  function InferHeaders(h: Headers, s: Settings): (r: Headers)
    ensures SetsGroup(h, r, s, 3)
  {
    var age, emotion, gender := s.inferAgeEnabled, s.inferEmotionEnabled, s.inferGenderEnabled;
    var h1 := PutIf(h, age, KeyName(InferAgeKey), "true");
    var h2 := PutIf(h1, emotion, KeyName(InferEmotionKey), "true");
    var h3 := PutIf(h2, gender, KeyName(InferGenderKey), "true");
    KeyNamesDiffer(InferAgeKey, InferEmotionKey);
    KeyNamesDiffer(InferAgeKey, InferGenderKey);
    KeyNamesDiffer(InferEmotionKey, InferGenderKey);
    Chain3(h, h1, h2, h3,
           KeyName(InferAgeKey), KeyName(InferEmotionKey), KeyName(InferGenderKey),
           age, emotion, gender,
           "true", "true", "true");
    InferValues(h, h3, s);
    InferFrame(h, h3);
    h3
  }

  lemma MarginValues(h: Headers, r: Headers, s: Settings)
    requires Find(r, KeyName(HeadMarginKey)) ==
             if s.headMarginMilliseconds != 0 then Some(NatToDecimal(s.headMarginMilliseconds)) else Find(h, KeyName(HeadMarginKey))
    requires Find(r, KeyName(TailMarginKey)) ==
             if s.tailMarginMilliseconds != 0 then Some(NatToDecimal(s.tailMarginMilliseconds)) else Find(h, KeyName(TailMarginKey))
    requires Find(r, KeyName(WaitEndKey)) ==
             if s.waitEndMilliseconds != 0 then Some(NatToDecimal(s.waitEndMilliseconds)) else Find(h, KeyName(WaitEndKey))
    requires Find(r, KeyName(StartInputTimersKey)) ==
             if s.startInputTimers then Some(BoolText(s.startInputTimers)) else Find(h, KeyName(StartInputTimersKey))
    ensures SetsValues(h, r, s, 4)
  {
    forall q | GroupOf(q) == 4
      ensures Find(r, KeyName(q)) == Over(ParamValue(s, q), Find(h, KeyName(q)))
    {
      assert q == HeadMarginKey || q == TailMarginKey || q == WaitEndKey || q == StartInputTimersKey;
    }
  }

  lemma MarginFrame(h: Headers, r: Headers)
    requires forall key :: key != KeyName(HeadMarginKey) && key != KeyName(TailMarginKey) && key != KeyName(WaitEndKey) && key != KeyName(StartInputTimersKey) ==> Find(r, key) == Find(h, key)
    ensures KeepsOthers(h, r, 4)
  {
    forall key | !InGroup(key, 4)
      ensures Find(r, key) == Find(h, key)
    {
      assert key != KeyName(HeadMarginKey) && key != KeyName(TailMarginKey) && key != KeyName(WaitEndKey) && key != KeyName(StartInputTimersKey);
    }
  }

  /** The endpointer margins, each when not zero, and the start-input-timers
      flag when set. */
  function MarginHeaders(h: Headers, s: Settings): (r: Headers)
    ensures SetsGroup(h, r, s, 4)
  {
    var head, tail, wait := s.headMarginMilliseconds, s.tailMarginMilliseconds, s.waitEndMilliseconds;
    var timers := s.startInputTimers;
    var h1 := PutIf(h, head != 0, KeyName(HeadMarginKey), NatToDecimal(head));
    var h2 := PutIf(h1, tail != 0, KeyName(TailMarginKey), NatToDecimal(tail));
    var h3 := PutIf(h2, wait != 0, KeyName(WaitEndKey), NatToDecimal(wait));
    var h4 := PutIf(h3, timers, KeyName(StartInputTimersKey), BoolText(timers));
    KeyNamesDiffer(HeadMarginKey, TailMarginKey);
    KeyNamesDiffer(HeadMarginKey, WaitEndKey);
    KeyNamesDiffer(HeadMarginKey, StartInputTimersKey);
    KeyNamesDiffer(TailMarginKey, WaitEndKey);
    KeyNamesDiffer(TailMarginKey, StartInputTimersKey);
    KeyNamesDiffer(WaitEndKey, StartInputTimersKey);
    Chain4(h, h1, h2, h3, h4,
           KeyName(HeadMarginKey), KeyName(TailMarginKey), KeyName(WaitEndKey), KeyName(StartInputTimersKey),
           head != 0, tail != 0, wait != 0, timers,
           NatToDecimal(head), NatToDecimal(tail), NatToDecimal(wait), BoolText(timers));
    MarginValues(h, h4, s);
    MarginFrame(h, h4);
    h4
  }

  lemma LevelValues(h: Headers, r: Headers, s: Settings)
    requires Find(r, KeyName(LevelModeKey)) ==
             if s.endpointerLevelMode != 0 then Some(NatToDecimal(s.endpointerLevelMode)) else Find(h, KeyName(LevelModeKey))
    requires Find(r, KeyName(AutoLevelLenKey)) ==
             if s.endpointerLevelMode != 0 && s.endpointerLevelMode == 1 && s.endpointerAutoLevelLen != 0 then Some(NatToDecimal(s.endpointerAutoLevelLen)) else Find(h, KeyName(AutoLevelLenKey))
    requires Find(r, KeyName(LevelThresholdKey)) ==
             if s.endpointerLevelMode != 0 && s.endpointerLevelMode == 2 && s.endpointerLevelThreshold != 0 then Some(NatToDecimal(s.endpointerLevelThreshold)) else Find(h, KeyName(LevelThresholdKey))
    ensures SetsValues(h, r, s, 5)
  {
    forall q | GroupOf(q) == 5
      ensures Find(r, KeyName(q)) == Over(ParamValue(s, q), Find(h, KeyName(q)))
    {
      assert q == LevelModeKey || q == AutoLevelLenKey || q == LevelThresholdKey;
    }
  }

  lemma LevelFrame(h: Headers, r: Headers)
    requires forall key :: key != KeyName(LevelModeKey) && key != KeyName(AutoLevelLenKey) && key != KeyName(LevelThresholdKey) ==> Find(r, key) == Find(h, key)
    ensures KeepsOthers(h, r, 5)
  {
    forall key | !InGroup(key, 5)
      ensures Find(r, key) == Find(h, key)
    {
      assert key != KeyName(LevelModeKey) && key != KeyName(AutoLevelLenKey) && key != KeyName(LevelThresholdKey);
    }
  }

  /** The level mode when not zero, and inside it the one setting that mode
      uses. */
  function LevelHeaders(h: Headers, s: Settings): (r: Headers)
    ensures SetsGroup(h, r, s, 5)
  {
    var mode, len, thr := s.endpointerLevelMode, s.endpointerAutoLevelLen, s.endpointerLevelThreshold;
    var h1 := PutIf(h, mode != 0, KeyName(LevelModeKey), NatToDecimal(mode));
    var h2 := PutIf(h1, mode != 0 && mode == 1 && len != 0, KeyName(AutoLevelLenKey), NatToDecimal(len));
    var h3 := PutIf(h2, mode != 0 && mode == 2 && thr != 0, KeyName(LevelThresholdKey), NatToDecimal(thr));
    KeyNamesDiffer(LevelModeKey, AutoLevelLenKey);
    KeyNamesDiffer(LevelModeKey, LevelThresholdKey);
    KeyNamesDiffer(AutoLevelLenKey, LevelThresholdKey);
    Chain3(h, h1, h2, h3,
           KeyName(LevelModeKey), KeyName(AutoLevelLenKey), KeyName(LevelThresholdKey),
           mode != 0, mode != 0 && mode == 1 && len != 0, mode != 0 && mode == 2 && thr != 0,
           NatToDecimal(mode), NatToDecimal(len), NatToDecimal(thr));
    LevelValues(h, h3, s);
    LevelFrame(h, h3);
    h3
  }

  /** The headers `setParameters` puts on its request, run after run. */
  function ParameterHeaders(s: Settings): Headers {
    LevelHeaders(MarginHeaders(InferHeaders(TimeoutHeaders(DecoderHeaders([], s), s), s), s), s)
  }

  /** A parameter's header belongs to its own run only. */
  lemma NotInOtherGroup(q: Param, g: nat)
    requires g != GroupOf(q)
    ensures !InGroup(KeyName(q), g)
  {
    if InGroup(KeyName(q), g) {
      var q' :| GroupOf(q') == g && KeyName(q') == KeyName(q);
      KeyNamesDiffer(q', q);
    }
  }

  /** Runs applied one after the other, starting from no headers. */
  lemma {:induction false} ComposeGroups(s: Settings, h0: Headers, h1: Headers, h2: Headers, h3: Headers,
                                         h4: Headers, h5: Headers)
    requires forall key :: Find(h0, key) == None
    requires SetsGroup(h0, h1, s, 1) && SetsGroup(h1, h2, s, 2) && SetsGroup(h2, h3, s, 3)
    requires SetsGroup(h3, h4, s, 4) && SetsGroup(h4, h5, s, 5)
    ensures forall q :: Find(h5, KeyName(q)) == ParamValue(s, q)
    ensures forall key :: (forall q :: key != KeyName(q)) ==> Find(h5, key) == None
  {
    forall q
      ensures Find(h5, KeyName(q)) == ParamValue(s, q)
    {
      var g := GroupOf(q);
      if g != 1 { NotInOtherGroup(q, 1); }
      if g != 2 { NotInOtherGroup(q, 2); }
      if g != 3 { NotInOtherGroup(q, 3); }
      if g != 4 { NotInOtherGroup(q, 4); }
      if g != 5 { NotInOtherGroup(q, 5); }
    }
    forall key | forall q :: key != KeyName(q)
      ensures Find(h5, key) == None
    {
      assert !InGroup(key, 1) && !InGroup(key, 2) && !InGroup(key, 3) && !InGroup(key, 4) && !InGroup(key, 5);
    }
  }

  /** SET_PARAMETERS carries each parameter's header exactly when
      `ParamValue` sends it, with that value, and no other header. */
  lemma ParameterHeadersSpec(s: Settings)
    ensures forall q :: Find(ParameterHeaders(s), KeyName(q)) == ParamValue(s, q)
    ensures forall key :: (forall q :: key != KeyName(q)) ==> Find(ParameterHeaders(s), key) == None
  {
    var h1 := DecoderHeaders([], s);
    var h2 := TimeoutHeaders(h1, s);
    var h3 := InferHeaders(h2, s);
    var h4 := MarginHeaders(h3, s);
    assert forall key :: Find([], key) == None;
    ComposeGroups(s, [], h1, h2, h3, h4, LevelHeaders(h4, s));
  }

  /** With the default configuration, SET_PARAMETERS carries one header:
      one sentence. */
  lemma DefaultParameters()
    ensures forall q :: Find(ParameterHeaders(SettingsOf(RC.Defaults)), KeyName(q)) ==
                        if q == MaxSentencesKey then Some("1") else None
    ensures forall key :: (forall q :: key != KeyName(q)) ==>
                          Find(ParameterHeaders(SettingsOf(RC.Defaults)), key) == None
  {
    var d := Settings(0, 1, 0, 0, false, false, false, false, false, 0, 0, 0, false, 0, 0, 0);
    DefaultSettings();
    ParameterHeadersSpec(d);
    forall q
      ensures ParamValue(d, q) == if q == MaxSentencesKey then Some("1") else None
    {
      DefaultParamValue(q);
    }
  }

  lemma DefaultParamValue(q: Param)
    ensures ParamValue(Settings(0, 1, 0, 0, false, false, false, false, false, 0, 0, 0, false, 0, 0, 0), q) ==
              if q == MaxSentencesKey then Some("1") else None
  {
    assert NatToDecimal(1) == "1";
  }

  /** The default configuration read as settings: everything off or zero
      but one sentence. */
  lemma DefaultSettings()
    ensures SettingsOf(RC.Defaults) ==
              Settings(0, 1, 0, 0, false, false, false, false, false, 0, 0, 0, false, 0, 0, 0)
  {
    forall f | RC.KindOf(f) == RC.UIntKind
      ensures UIntParam(RC.Defaults, f) == if f == RC.MaxSentences then 1 else 0
    {
      assert RC.FieldOf(RC.Defaults, f) == RC.DefaultOf(f);
    }
    forall f | RC.KindOf(f) == RC.BoolKind
      ensures !BoolParam(RC.Defaults, f)
    {
      assert RC.FieldOf(RC.Defaults, f) == RC.DefaultOf(f);
    }
  }

  method PutDecoderHeaders(request: AM.AsrMessage, s: Settings)
    modifies request
    ensures request.headers == DecoderHeaders(old(request.headers), s)
    ensures request.startLine == old(request.startLine) && request.extra == old(request.extra)
  {
    if s.confidenceThreshold != 0 {
      request.SetHeader(KeyName(ConfidenceThresholdKey), NatToDecimal(s.confidenceThreshold));
    }
    if s.maxSentences != 0 {
      request.SetHeader(KeyName(MaxSentencesKey), NatToDecimal(s.maxSentences));
    }
  }

  method PutTimeoutHeaders(request: AM.AsrMessage, s: Settings)
    modifies request
    ensures request.headers == TimeoutHeaders(old(request.headers), s)
    ensures request.startLine == old(request.startLine) && request.extra == old(request.extra)
  {
    if s.noInputTimeoutEnabled {
      request.SetHeader(KeyName(NoInputEnabledKey), BoolText(s.noInputTimeoutEnabled));
      if s.noInputTimeoutMilliseconds != 0 {
        request.SetHeader(KeyName(NoInputValueKey), NatToDecimal(s.noInputTimeoutMilliseconds));
      }
    }
    if s.recognitionTimeoutEnabled {
      request.SetHeader(KeyName(RecogTimeoutEnabledKey), BoolText(s.recognitionTimeoutEnabled));
      if s.recognitionTimeoutSeconds != 0 {
        request.SetHeader(KeyName(RecogTimeoutValueKey), NatToDecimal(s.recognitionTimeoutSeconds));
      }
    }
  }

  method PutInferHeaders(request: AM.AsrMessage, s: Settings)
    modifies request
    ensures request.headers == InferHeaders(old(request.headers), s)
    ensures request.startLine == old(request.startLine) && request.extra == old(request.extra)
  {
    if s.inferAgeEnabled {
      request.SetHeader(KeyName(InferAgeKey), "true");
    }
    if s.inferEmotionEnabled {
      request.SetHeader(KeyName(InferEmotionKey), "true");
    }
    if s.inferGenderEnabled {
      request.SetHeader(KeyName(InferGenderKey), "true");
    }
  }

  method PutMarginHeaders(request: AM.AsrMessage, s: Settings)
    modifies request
    ensures request.headers == MarginHeaders(old(request.headers), s)
    ensures request.startLine == old(request.startLine) && request.extra == old(request.extra)
  {
    if s.headMarginMilliseconds != 0 {
      request.SetHeader(KeyName(HeadMarginKey), NatToDecimal(s.headMarginMilliseconds));
    }
    if s.tailMarginMilliseconds != 0 {
      request.SetHeader(KeyName(TailMarginKey), NatToDecimal(s.tailMarginMilliseconds));
    }
    if s.waitEndMilliseconds != 0 {
      request.SetHeader(KeyName(WaitEndKey), NatToDecimal(s.waitEndMilliseconds));
    }
    if s.startInputTimers {
      request.SetHeader(KeyName(StartInputTimersKey), BoolText(s.startInputTimers));
    }
  }

  method PutLevelHeaders(request: AM.AsrMessage, s: Settings)
    modifies request
    ensures request.headers == LevelHeaders(old(request.headers), s)
    ensures request.startLine == old(request.startLine) && request.extra == old(request.extra)
  {
    var mode := s.endpointerLevelMode;
    if mode != 0 {
      request.SetHeader(KeyName(LevelModeKey), NatToDecimal(mode));
      if mode == 1 && s.endpointerAutoLevelLen != 0 {
        request.SetHeader(KeyName(AutoLevelLenKey), NatToDecimal(s.endpointerAutoLevelLen));
      }
      if mode == 2 && s.endpointerLevelThreshold != 0 {
        request.SetHeader(KeyName(LevelThresholdKey), NatToDecimal(s.endpointerLevelThreshold));
      }
    }
  }

  /** The text of the SET_PARAMETERS request for configuration `p`. */
  function ParametersText(p: RC.Properties): string {
    RequestText(Method.SetParameters, ParameterHeaders(SettingsOf(p)), [])
  }

  /** The SET_PARAMETERS text: the settings read from the configuration,
      then a request built run after run. */
  method ParametersMessage(p: RC.Properties) returns (raw: string)
    ensures raw == ParametersText(p)
  {
    var s := SettingsOf(p);
    var request := new AM.AsrMessage.Request(Method.SetParameters);
    PutDecoderHeaders(request, s);
    PutTimeoutHeaders(request, s);
    PutInferHeaders(request, s);
    PutMarginHeaders(request, s);
    PutLevelHeaders(request, s);
    raw := request.Raw();
  }

  /** `setParameters`: one SET_PARAMETERS with the configuration's headers
      and no body.  The client dereferences `config_` unchecked, hence the
      precondition. */
  method SetParameters(impl: Impl)
    requires impl.config.Some?
    modifies impl`outbox
    ensures impl.outbox == old(impl.outbox) + [ParametersText(old(impl.config.value))]
  {
    var raw := ParametersMessage(impl.config.value);
    impl.SendMessage(raw);
  }

  /** The message of the exception `startRecognition` throws. */
  const NoModelMessage: string := "lm uri and grammar body is emprty"

  /** START_RECOGNITION's headers and body for a language model: the URI when
      there is one, otherwise the inline grammar with a fixed content id;
      with neither, the exception. */
  function StartRecognitionRequest(lm: LanguageModel): Result<(Headers, string), RE.RecognitionException> {
    if lm.uri == [] && lm.grammarBody == [] then
      Err(RE.NewException(RE.Failure, NoModelMessage))
    else
      var useUri := lm.uri != [];
      var body := if useUri then lm.uri else lm.grammarBody;
      var h1 := Put([], "Accept", "application/json");
      var h2 := PutIf(h1, !useUri, "Content-ID", "gram");
      var h3 := Put(h2, "Content-Type", if useUri then "text/uri-list" else "application/srgs");
      Ok((Put(h3, "Content-Length", NatToDecimal(|body|)), body))
  }

  /** With neither a URI nor a grammar, and only then, FAILURE is thrown
      with the fixed message. */
  lemma StartRecognitionFailure(lm: LanguageModel)
    ensures StartRecognitionRequest(lm).Err? <==> lm.uri == [] && lm.grammarBody == []
    ensures StartRecognitionRequest(lm).Err? ==>
              StartRecognitionRequest(lm).error.GetCode() == RE.Failure &&
              StartRecognitionRequest(lm).error.error.message == NoModelMessage
  {
  }

  /** The request asks for JSON results; the body is the URI when there is
      one and the grammar otherwise, typed accordingly; the grammar alone
      carries a content id; the declared length reads back as the body's
      length; no other header is sent. */
  lemma StartRecognitionRequestSpec(lm: LanguageModel)
    ensures StartRecognitionRequest(lm).Ok? ==>
              var (h, body) := StartRecognitionRequest(lm).value;
              body == (if lm.uri != [] then lm.uri else lm.grammarBody) &&
              Find(h, "Accept") == Some("application/json") &&
              Find(h, "Content-Type") == Some(if lm.uri != [] then "text/uri-list" else "application/srgs") &&
              Find(h, "Content-ID") == (if lm.uri != [] then None else Some("gram")) &&
              Find(h, "Content-Length").Some? &&
              AllDigits(Find(h, "Content-Length").value) &&
              DecimalValue(Find(h, "Content-Length").value) == |body| &&
              forall key :: key != "Accept" && key != "Content-Type" && key != "Content-ID" && key != "Content-Length" ==>
                Find(h, key) == None
  {
    if StartRecognitionRequest(lm).Ok? {
      var useUri := lm.uri != [];
      var body := if useUri then lm.uri else lm.grammarBody;
      var contentType := if useUri then "text/uri-list" else "application/srgs";
      var length := NatToDecimal(|body|);
      var h1 := Put([], "Accept", "application/json");
      var h2 := PutIf(h1, !useUri, "Content-ID", "gram");
      var h3 := Put(h2, "Content-Type", contentType);
      var h4 := Put(h3, "Content-Length", length);
      assert StartRecognitionRequest(lm).value == (h4, body);
      assert "Accept" != "Content-ID" && "Accept" != "Content-Type" && "Accept" != "Content-Length";
      assert "Content-ID" != "Content-Type" && "Content-ID" != "Content-Length";
      assert "Content-Type" != "Content-Length";
      Chain4([], h1, h2, h3, h4, "Accept", "Content-ID", "Content-Type", "Content-Length",
             true, !useUri, true, true, "application/json", "gram", contentType, length);
      DecimalRoundTrip(|body|);
      assert forall key :: Find([], key) == None;
    }
  }

  /** `startRecognition`: one START_RECOGNITION, or the exception and
      nothing sent.  The client dereferences `lm_` unchecked, hence the
      precondition. */
  method StartRecognition(impl: Impl) returns (thrown: Option<RE.RecognitionException>)
    requires impl.lm.Some?
    modifies impl`outbox
    ensures StartRecognitionRequest(old(impl.lm.value)).Err? ==>
              thrown == Some(StartRecognitionRequest(old(impl.lm.value)).error) && impl.outbox == old(impl.outbox)
    ensures StartRecognitionRequest(old(impl.lm.value)).Ok? ==>
              var (h, body) := StartRecognitionRequest(old(impl.lm.value)).value;
              thrown == None && impl.outbox == old(impl.outbox) + [RequestText(Method.StartRecognition, h, body)]
  {
    var lmUri := impl.lm.value.uri;
    var grammarBody := impl.lm.value.grammarBody;
    var request := new AM.AsrMessage.Request(Method.StartRecognition);
    request.SetHeader("Accept", "application/json");
    var extra, contentType;
    if lmUri != [] {
      extra := lmUri;
      contentType := "text/uri-list";
    } else if grammarBody != [] {
      extra := grammarBody;
      contentType := "application/srgs";
      request.SetHeader("Content-ID", "gram");
    } else {
      return Some(RE.NewException(RE.Failure, NoModelMessage));
    }
    request.SetHeader("Content-Type", contentType);
    request.SetExtra(extra);
    request.SetHeader("Content-Length", NatToDecimal(|extra|));
    var raw := request.Raw();
    impl.SendMessage(raw);
    return None;
  }
}
