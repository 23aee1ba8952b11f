// `RecognitionConfig` and its `Builder`: the recognition parameters sent to
// the server, set one by one on the builder or read from the process
// environment.  The environment is a map from variable names to values.
//
// The client has one setter, one getter and one environment reader per
// parameter; here a `Field` names the parameter and one member of each kind
// covers them all.

module RecognitionConfigs {
  import opened Common

  datatype Field =
    | ConfidenceThreshold | MaxSentences | NoInputTimeoutMilliseconds
    | RecognitionTimeoutSeconds | NoInputTimeoutEnabled | RecognitionTimeoutEnabled
    | InferAgeEnabled | InferEmotionEnabled | InferGenderEnabled
    | HeadMarginMilliseconds | TailMarginMilliseconds | WaitEndMilliseconds
    | ContinuousMode | MaxSegmentDuration | StartInputTimers
    | EndpointerAutoLevelLen | EndpointerLevelMode | EndpointerLevelThreshold
    | VerifyBufferUtterance | AccountTag | ChannelIdentifier | MediaType

  /** A parameter's value: an `unsigned int`, a `bool` or a string. */
  datatype Value = UIntValue(n: UInt32) | BoolValue(b: bool) | StringValue(s: string)

  datatype Kind = UIntKind | BoolKind | StringKind

  function KindOf(f: Field): Kind {
    match f
    case NoInputTimeoutEnabled | RecognitionTimeoutEnabled | InferAgeEnabled
       | InferEmotionEnabled | InferGenderEnabled | ContinuousMode
       | StartInputTimers | VerifyBufferUtterance => BoolKind
    case AccountTag | ChannelIdentifier | MediaType => StringKind
    case _ => UIntKind
  }

  predicate Fits(f: Field, v: Value) {
    match KindOf(f)
    case UIntKind => v.UIntValue?
    case BoolKind => v.BoolValue?
    case StringKind => v.StringValue?
  }

  /** `RecognitionConfig::Properties`: a value for every parameter, of the
      parameter's kind. */
  predicate Complete(m: map<Field, Value>) {
    forall f :: f in m && Fits(f, m[f])
  }

  type Properties = m: map<Field, Value> | Complete(m) witness DefaultValues()

  /** A parameter's default: one sentence; every other number 0, every flag
      off, every string empty.  The thirteen parameters `Properties`
      declares have these initialisers; the other nine are taken to start
      the same way. */
  function DefaultOf(f: Field): (v: Value)
    ensures Fits(f, v)
    ensures f == MaxSentences ==> v == UIntValue(1)
    ensures KindOf(f) == UIntKind && f != MaxSentences ==> v == UIntValue(0)
    ensures KindOf(f) == BoolKind ==> v == BoolValue(false)
    ensures KindOf(f) == StringKind ==> v == StringValue([])
  {
    match KindOf(f)
    case UIntKind => UIntValue(if f == MaxSentences then 1 else 0)
    case BoolKind => BoolValue(false)
    case StringKind => StringValue([])
  }

  const AllFields: set<Field> := {
    ConfidenceThreshold, MaxSentences, NoInputTimeoutMilliseconds,
    RecognitionTimeoutSeconds, NoInputTimeoutEnabled, RecognitionTimeoutEnabled,
    InferAgeEnabled, InferEmotionEnabled, InferGenderEnabled,
    HeadMarginMilliseconds, TailMarginMilliseconds, WaitEndMilliseconds,
    ContinuousMode, MaxSegmentDuration, StartInputTimers,
    EndpointerAutoLevelLen, EndpointerLevelMode, EndpointerLevelThreshold,
    VerifyBufferUtterance, AccountTag, ChannelIdentifier, MediaType}

  lemma EveryField(f: Field)
    ensures f in AllFields
  {
  }

  function DefaultValues(): (m: map<Field, Value>)
    ensures Complete(m)
    ensures forall f :: m[f] == DefaultOf(f)
  {
    var m := map f | f in AllFields :: DefaultOf(f);
    assert forall f :: f in m by {
      forall f ensures f in m { EveryField(f); }
    }
    m
  }

  const Defaults: Properties := DefaultValues()

  /** The getters: each answers a value of its parameter's kind. */
  function FieldOf(p: Properties, f: Field): (v: Value)
    ensures Fits(f, v)
  {
    p[f]
  }

  /** The value a setter stores: its own field replaced, every other field as
      it was. */
  function WithField(p: Properties, f: Field, v: Value): (r: Properties)
    requires Fits(f, v)
    ensures FieldOf(r, f) == v
    ensures forall g :: g != f ==> FieldOf(r, g) == FieldOf(p, g)
  {
    p[f := v]
  }

  /** Two records with the same value in every field are the same record. */
  lemma FieldsDetermine(p: Properties, q: Properties)
    requires forall f :: FieldOf(p, f) == FieldOf(q, f)
    ensures p == q
  {
    forall f
      ensures p[f] == q[f]
    {
      assert FieldOf(p, f) == FieldOf(q, f);
    }
    assert p.Keys == q.Keys;
  }

  /** `RecognitionConfig::Builder`. */
  class ConfigBuilder {
    var properties: Properties

    constructor ()
      ensures properties == Defaults
    {
      properties := Defaults;
    }

    /** The builder's setters: each stores its value in its own field. */
    method Set(f: Field, v: Value)
      requires Fits(f, v)
      modifies this
      ensures properties == WithField(old(properties), f, v)
    {
      properties := WithField(properties, f, v);
    }

    /** `build`: a new configuration holding a copy of the builder's
        values. */
    method Build() returns (c: RecognitionConfig)
      ensures fresh(c) && c.properties == properties
    {
      c := new RecognitionConfig(properties);
    }
  }

  // ---------------------------------------------------------------------
  // The environment overrides.

  /** The variable each `set...FromEnv` reads.  The continuous-mode reader
      reads INFER_AGE_ENABLED, not a variable of its own. */
  function EnvVarName(f: Field): (name: string)
    ensures f == ContinuousMode || f == InferAgeEnabled <==> name == "INFER_AGE_ENABLED"
  {
    match f
    case ConfidenceThreshold => "CONFIDENCE_THRESHOLD"
    case MaxSentences => "MAX_SENTENCES"
    case NoInputTimeoutMilliseconds => "NO_INPUT_TIMEOUT_MILLISECONDS"
    case RecognitionTimeoutSeconds => "RECOG_TIMEOUT_SECONDS"
    case NoInputTimeoutEnabled => "NO_INPUT_TIMEOUT_ENABLED"
    case RecognitionTimeoutEnabled => "RECOG_TIMEOUT_ENABLED"
    case InferAgeEnabled => "INFER_AGE_ENABLED"
    case InferEmotionEnabled => "INFER_EMOTION_ENABLED"
    case InferGenderEnabled => "INFER_GENDER_ENABLED"
    case HeadMarginMilliseconds => "HEAD_MARGIN_MILLISECONDS"
    case TailMarginMilliseconds => "TAIL_MARGIN_MILLISECONDS"
    case WaitEndMilliseconds => "WAIT_END_MILLISECONDS"
    case ContinuousMode => "INFER_AGE_ENABLED"
    case MaxSegmentDuration => "MAX_SEGMENT_DURATION"
    case StartInputTimers => "START_INPUT_TIMERS"
    case EndpointerAutoLevelLen => "ENDPOINTER_AUTO_LEVEL_LEN"
    case EndpointerLevelMode => "ENDPOINTER_LEVEL_MODE"
    case EndpointerLevelThreshold => "ENDPOINTER_LEVEL_THRESHOLD"
    case VerifyBufferUtterance => "VERIFY_BUFFER_UTTERANCE"
    case AccountTag => "ACCOUNT_TAG"
    case ChannelIdentifier => "CHANNEL_IDENTIFIER"
    case MediaType => "MEDIA_TYPE"
  }

  /** `setInteger`: a set variable is read with `std::stoul` (0 when that
      throws) and narrowed to `unsigned int`; an unset one gives 0 under
      `replace_empty` and otherwise leaves the value alone. */
  function EnvInteger(env: map<string, string>, name: string, replaceEmpty: bool, cur: UInt32): (r: UInt32)
    ensures name in env && StdStoul(env[name]).Some? ==> r == StdStoul(env[name]).value % UInt32Modulus
    ensures name in env && StdStoul(env[name]).None? ==> r == 0
    ensures name !in env ==> r == if replaceEmpty then 0 else cur
  {
    if name in env then
      match StdStoul(env[name])
      case Some(v) => v % UInt32Modulus
      case None => 0
    else if replaceEmpty then 0
    else cur
  }

  /** A number written into the variable the way `std::to_string` writes
      it is read back, cut to `unsigned int`, whatever the field held. */
  lemma EnvIntegerReadsDecimal(env: map<string, string>, name: string, replaceEmpty: bool, cur: UInt32, n: nat)
    requires n < UInt64Modulus
    ensures EnvInteger(env[name := NatToDecimal(n)], name, replaceEmpty, cur) == n % UInt32Modulus
  {
    StoulReadsDecimal(n);
  }

  /** A negative number is accepted, not refused: "-1" wraps around to the
      largest `unsigned int`. */
  lemma EnvIntegerMinusOne(env: map<string, string>, name: string, replaceEmpty: bool, cur: UInt32)
    ensures EnvInteger(env[name := "-1"], name, replaceEmpty, cur) == UInt32Modulus - 1
  {
    var s := "-1";
    assert SpaceRunEnd(s, 0) == 0;
    assert DigitRunEnd(s, 1) == 2 by {
      assert IsDigit(s[1]);
      assert DigitRunEnd(s, 2) == 2;
    }
    assert s[1..2] == "1";
    DecimalRoundTrip(1);
    assert NatToDecimal(1) == "1";
    assert ReadNumberPrefix(s) == Some(NumberPrefix(true, 1));
  }

  /** `::toupper` in the C locale: only ASCII letters change. */
  function ToUpper(ch: char): char {
    if 'a' <= ch <= 'z' then (ch as int - 32) as char else ch
  }

  function UpperCase(s: string): (r: string)
    ensures |r| == |s|
    ensures forall i :: 0 <= i < |s| ==> r[i] == ToUpper(s[i])
  {
    seq(|s|, i requires 0 <= i < |s| => ToUpper(s[i]))
  }

  /** `setBool`: a set variable means true exactly when it reads "true" in
      any mix of letter case; an unset one gives false under
      `replace_empty` and otherwise leaves the value alone. */
  function EnvBool(env: map<string, string>, name: string, replaceEmpty: bool, cur: bool): (r: bool)
    ensures name in env ==> (r <==> |env[name]| == 4 && SameLetterIgnoringCase(env[name], "TRUE"))
    ensures name !in env ==> r == (!replaceEmpty && cur)
  {
    if name in env then
      UpperCaseEqual(env[name], "TRUE");
      UpperCase(env[name]) == "TRUE"
    else if replaceEmpty then false
    else cur
  }

  predicate SameLetterIgnoringCase(s: string, upper: string)
    requires |s| == |upper|
  {
    forall i :: 0 <= i < |s| ==> s[i] == upper[i] || (s[i] as int) + 0 == upper[i] as int + 32
  }

  lemma UpperCaseEqual(s: string, upper: string)
    requires forall i :: 0 <= i < |upper| ==> 'A' <= upper[i] <= 'Z'
    ensures UpperCase(s) == upper <==> |s| == |upper| && SameLetterIgnoringCase(s, upper)
  {
    if |s| == |upper| && SameLetterIgnoringCase(s, upper) {
      assert forall i :: 0 <= i < |s| ==> UpperCase(s)[i] == upper[i];
    }
    if UpperCase(s) == upper {
      forall i | 0 <= i < |s|
        ensures s[i] == upper[i] || (s[i] as int) + 0 == upper[i] as int + 32
      {
        assert ToUpper(s[i]) == upper[i];
      }
    }
  }

  /** `setString`: a set variable is copied; an unset one gives "" under
      `replace_empty` and otherwise leaves the value alone. */
  function EnvString(env: map<string, string>, name: string, replaceEmpty: bool, cur: string): (r: string)
    ensures name in env ==> r == env[name]
    ensures name !in env ==> r == if replaceEmpty then [] else cur
  {
    if name in env then env[name]
    else if replaceEmpty then []
    else cur
  }

  /** What a `set<Field>FromEnv` leaves in field `f` when it reads the
      variable `name`: `setInteger`, `setBool` or `setString` by the field's
      kind. */
  function EnvValue(env: map<string, string>, f: Field, name: string, replaceEmpty: bool, cur: Value): (v: Value)
    requires Fits(f, cur)
    ensures Fits(f, v)
  {
    match cur
    case UIntValue(n) => UIntValue(EnvInteger(env, name, replaceEmpty, n))
    case BoolValue(b) => BoolValue(EnvBool(env, name, replaceEmpty, b))
    case StringValue(s) => StringValue(EnvString(env, name, replaceEmpty, s))
  }

  /** Reading the environment twice with the same policy is reading it once. */
  lemma EnvValueIdempotent(env: map<string, string>, f: Field, name: string, replaceEmpty: bool, cur: Value)
    requires Fits(f, cur)
    ensures EnvValue(env, f, name, replaceEmpty, EnvValue(env, f, name, replaceEmpty, cur)) ==
            EnvValue(env, f, name, replaceEmpty, cur)
  {
    if cur.UIntValue? && name in env {
      var r := StdStoul(env[name]);
      if r.Some? {
        assert r.value % UInt32Modulus < UInt32Modulus;
      }
    }
  }

  /** The order in which `getConfigFromEvironment` calls the readers: every
      field once. */
  const EnvOrder: seq<Field> := [
    ConfidenceThreshold, MaxSentences, NoInputTimeoutMilliseconds,
    RecognitionTimeoutSeconds, NoInputTimeoutEnabled, RecognitionTimeoutEnabled,
    InferAgeEnabled, InferEmotionEnabled, InferGenderEnabled,
    HeadMarginMilliseconds, TailMarginMilliseconds, WaitEndMilliseconds,
    ContinuousMode, MaxSegmentDuration, StartInputTimers,
    EndpointerAutoLevelLen, EndpointerLevelMode, EndpointerLevelThreshold,
    VerifyBufferUtterance, AccountTag, ChannelIdentifier, MediaType]

  lemma EnvOrderComplete(f: Field)
    ensures f in EnvOrder
  {
  }

  /** The record after the readers for `fs` have run in order, the reader of
      field `f` reading the variable `names(f)`. */
  function ApplyEnv(p: Properties, fs: seq<Field>, names: Field -> string,
                    env: map<string, string>, replaceEmpty: bool): Properties
    decreases |fs|
  {
    if fs == [] then p
    else
      var f := fs[0];
      var v := EnvValue(env, f, names(f), replaceEmpty, FieldOf(p, f));
      ApplyEnv(WithField(p, f, v), fs[1..], names, env, replaceEmpty)
  }

  /** Each field read sets it from its variable and the field's starting
      value (a second read of the same field changes nothing more); fields
      not read keep their values. */
  lemma {:induction false} ApplyEnvField(p: Properties, fs: seq<Field>, names: Field -> string,
                                         env: map<string, string>, replaceEmpty: bool, g: Field)
    ensures FieldOf(ApplyEnv(p, fs, names, env, replaceEmpty), g) ==
              if g in fs then EnvValue(env, g, names(g), replaceEmpty, FieldOf(p, g))
              else FieldOf(p, g)
    decreases |fs|
  {
    if fs != [] {
      var f := fs[0];
      var q := WithField(p, f, EnvValue(env, f, names(f), replaceEmpty, FieldOf(p, f)));
      ApplyEnvField(q, fs[1..], names, env, replaceEmpty, g);
      if g == f {
        EnvValueIdempotent(env, g, names(g), replaceEmpty, FieldOf(p, g));
      } else {
        assert g in fs <==> g in fs[1..];
      }
    }
  }

  /** Where the environment or `replace_empty` speaks for INFER_AGE_ENABLED,
      reading the environment leaves continuous mode equal to the
      age-inference flag. */
  lemma ContinuousModeFollowsInferAge(p: Properties, order: seq<Field>, env: map<string, string>,
                                      replaceEmpty: bool)
    requires ContinuousMode in order && InferAgeEnabled in order
    requires "INFER_AGE_ENABLED" in env || replaceEmpty
    ensures FieldOf(ApplyEnv(p, order, EnvVarName, env, replaceEmpty), ContinuousMode) ==
            FieldOf(ApplyEnv(p, order, EnvVarName, env, replaceEmpty), InferAgeEnabled)
  {
    ApplyEnvField(p, order, EnvVarName, env, replaceEmpty, ContinuousMode);
    ApplyEnvField(p, order, EnvVarName, env, replaceEmpty, InferAgeEnabled);
  }

  /** Reading the environment for every field twice is reading it once. */
  lemma ApplyEnvIdempotent(p: Properties, order: seq<Field>, names: Field -> string,
                           env: map<string, string>, replaceEmpty: bool)
    ensures ApplyEnv(ApplyEnv(p, order, names, env, replaceEmpty), order, names, env, replaceEmpty) ==
            ApplyEnv(p, order, names, env, replaceEmpty)
  {
    var once := ApplyEnv(p, order, names, env, replaceEmpty);
    var twice := ApplyEnv(once, order, names, env, replaceEmpty);
    forall g
      ensures FieldOf(twice, g) == FieldOf(once, g)
    {
      ApplyEnvField(p, order, names, env, replaceEmpty, g);
      ApplyEnvField(once, order, names, env, replaceEmpty, g);
      if g in order {
        EnvValueIdempotent(env, g, names(g), replaceEmpty, FieldOf(p, g));
      }
    }
    FieldsDetermine(twice, once);
  }

  /** `RecognitionConfig`: the configuration the recognizer sends. */
  class RecognitionConfig {
    var properties: Properties

    constructor (p: Properties)
      ensures properties == p
    {
      properties := p;
    }

    /** The copy constructor: copies every field. */
    constructor Copy(other: RecognitionConfig)
      ensures properties == other.properties
    {
      properties := other.properties;
    }

    /** `operator=`: copies every field. */
    method Assign(other: RecognitionConfig)
      modifies this
      ensures properties == old(other.properties)
    {
      properties := other.properties;
    }

    /** `set<Field>FromEnv(replace_empty)`. */
    method SetFromEnv(f: Field, env: map<string, string>, replaceEmpty: bool)
      modifies this
      ensures properties ==
                WithField(old(properties), f, EnvValue(env, f, EnvVarName(f), replaceEmpty, FieldOf(old(properties), f)))
    {
      properties := WithField(properties, f, EnvValue(env, f, EnvVarName(f), replaceEmpty, FieldOf(properties, f)));
    }

    /** `getConfigFromEvironment(replace_empty)`: every reader once, in the
        client's order. */
    method GetConfigFromEnvironment(env: map<string, string>, replaceEmpty: bool)
      modifies this
      ensures properties == ApplyEnv(old(properties), EnvOrder, EnvVarName, env, replaceEmpty)
    {
      ReadFields(EnvOrder, env, replaceEmpty);
    }

    /** The readers for `order`, one after the other. */
    method ReadFields(order: seq<Field>, env: map<string, string>, replaceEmpty: bool)
      modifies this
      ensures properties == ApplyEnv(old(properties), order, EnvVarName, env, replaceEmpty)
    {
      ghost var p0 := properties;
      var i := 0;
      while i < |order|
        invariant 0 <= i <= |order|
        invariant ApplyEnv(p0, order, EnvVarName, env, replaceEmpty) ==
                  ApplyEnv(properties, order[i..], EnvVarName, env, replaceEmpty)
      {
        assert order[i..][1..] == order[i + 1..];
        SetFromEnv(order[i], env, replaceEmpty);
        i := i + 1;
      }
    }
  }
}
