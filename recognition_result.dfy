// `RecognitionResult`, its `Alternative`s, the `Interpretation`/`Word`
// records they hold, `PartialRecognition` and the speaker `Classifier`.
//
// Results and alternatives are copied by value wherever the client keeps
// them (result vectors, listener callbacks), so they are datatypes here and
// each in-place builder call is a function from the old value to the new.
// Times are floats in the client; they are carried as reals and never
// computed with.

module RecognitionResults {
  import opened Common

  datatype Code =
    | Processing | Recognized | NoMatch | NoInputTimeout | MaxSpeech
    | EarlySpeech | RecognitionTimeout | NoSpeech | Canceled | Failure

  /** `getString(Code)`: the code's enumerator, spelled out. */
  function CodeName(c: Code): (s: string)
    ensures |s| > 0
    ensures forall ch :: ch in s ==> 'A' <= ch <= 'Z' || ch == '_'
  {
    match c
    case Processing => "PROCESSING"
    case Recognized => "RECOGNIZED"
    case NoMatch => "NO_MATCH"
    case NoInputTimeout => "NO_INPUT_TIMEOUT"
    case MaxSpeech => "MAX_SPEECH"
    case EarlySpeech => "EARLY_SPEECH"
    case RecognitionTimeout => "RECOGNITION_TIMEOUT"
    case NoSpeech => "NO_SPEECH"
    case Canceled => "CANCELED"
    case Failure => "FAILURE"
  }

  lemma CodeNameInjective(c: Code, d: Code)
    requires CodeName(c) == CodeName(d)
    ensures c == d
  {
  }

  /** The status strings the string constructor recognises. */
  predicate KnownStatus(s: string) {
    s in {"PROCESSING", "RECOGNIZED", "NO_MATCH", "NO_INPUT_TIMEOUT", "MAX_SPEECH",
          "EARLY_SPEECH", "RECOGNITION_TIMEOUT", "NO_SPEECH", "CANCELED", "FAILURE"}
  }

  /** The string constructor's mapping: "PROCESSING" counts as no match yet;
      every other known name gives the code it names.  An unknown string
      leaves the code uninitialised in the client, hence the precondition. */
  function CodeOfStatus(s: string): (c: Code)
    requires KnownStatus(s)
    ensures c != Processing
    ensures s == "PROCESSING" ==> c == NoMatch
    ensures s != "PROCESSING" ==> CodeName(c) == s
  {
    if s == "PROCESSING" then NoMatch
    else if s == "RECOGNIZED" then Recognized
    else if s == "NO_MATCH" then NoMatch
    else if s == "NO_INPUT_TIMEOUT" then NoInputTimeout
    else if s == "MAX_SPEECH" then MaxSpeech
    else if s == "EARLY_SPEECH" then EarlySpeech
    else if s == "RECOGNITION_TIMEOUT" then RecognitionTimeout
    else if s == "NO_SPEECH" then NoSpeech
    else if s == "CANCELED" then Canceled
    else Failure
  }

  /** Every name `getString` writes is one the string constructor reads, and
      it reads back the same code, PROCESSING aside. */
  lemma CodeNameRoundTrip(c: Code)
    ensures KnownStatus(CodeName(c))
    ensures CodeOfStatus(CodeName(c)) == if c == Processing then NoMatch else c
  {
    var s := CodeName(c);
    if c != Processing {
      assert s != "PROCESSING";
      CodeNameInjective(CodeOfStatus(s), c);
    }
  }

  datatype Interpretation = Interpretation(text: string, confidence: int)

  datatype Word = Word(text: string, confidence: int, startTime: real, endTime: real)

  datatype Alternative = Alternative(
    langModel: string,
    text: string,
    confidence: int,
    interpretations: seq<Interpretation>,
    words: seq<Word>)

  /** A default-constructed alternative: empty texts, confidence 0, no
      interpretations and no words. */
  const EmptyAlternative: Alternative := Alternative([], [], 0, [], [])

  /** `languageModel`: replaces the language model and nothing else. */
  function WithLanguageModel(a: Alternative, lm: string): (r: Alternative)
    ensures r.langModel == lm && r.(langModel := a.langModel) == a
  {
    a.(langModel := lm)
  }

  /** `text`: replaces the text and nothing else. */
  function WithText(a: Alternative, text: string): (r: Alternative)
    ensures r.text == text && r.(text := a.text) == a
  {
    a.(text := text)
  }

  /** `confidence`: replaces the confidence and nothing else. */
  function WithConfidence(a: Alternative, confidence: int): (r: Alternative)
    ensures r.confidence == confidence && r.(confidence := a.confidence) == a
  {
    a.(confidence := confidence)
  }

  /** `addInterpretation(text, confidence = 0)`: appends one interpretation
      after the existing ones. */
  function AddInterpretation(a: Alternative, text: string, confidence: int := 0): (r: Alternative)
    ensures |r.interpretations| == |a.interpretations| + 1
    ensures r.interpretations[..|a.interpretations|] == a.interpretations
    ensures r.interpretations[|a.interpretations|] == Interpretation(text, confidence)
    ensures r.(interpretations := a.interpretations) == a
  {
    a.(interpretations := a.interpretations + [Interpretation(text, confidence)])
  }

  /** `addWord(Word)`: appends one word after the existing ones. */
  function AddWord(a: Alternative, w: Word): (r: Alternative)
    ensures |r.words| == |a.words| + 1
    ensures r.words[..|a.words|] == a.words && r.words[|a.words|] == w
    ensures r.(words := a.words) == a
  {
    a.(words := a.words + [w])
  }

  /** `addWord(text, confidence, start, end)`: the same, from the parts. */
  function AddWordParts(a: Alternative, text: string, confidence: int,
                        startTime: real, endTime: real): (r: Alternative)
    ensures r.words == a.words + [Word(text, confidence, startTime, endTime)]
    ensures r.(words := a.words) == a
  {
    AddWord(a, Word(text, confidence, startTime, endTime))
  }

  /** Words added one after the other come out in the order they were
      added. */
  function AddWords(a: Alternative, ws: seq<Word>): (r: Alternative)
    decreases |ws|
  {
    if ws == [] then a else AddWords(AddWord(a, ws[0]), ws[1..])
  }

  lemma {:induction false} AddWordsInOrder(a: Alternative, ws: seq<Word>)
    ensures AddWords(a, ws).words == a.words + ws
    ensures AddWords(a, ws).(words := a.words) == a
    decreases |ws|
  {
    if ws != [] {
      AddWordsInOrder(AddWord(a, ws[0]), ws[1..]);
      assert a.words + [ws[0]] + ws[1..] == a.words + ws;
    }
  }

  /** `lastSegment` is None until `setLastSpeechSegment` is called: the
      client leaves that member uninitialised before. */
  datatype RecognitionResult = RecognitionResult(
    code: Code,
    lastSegment: Option<bool>,
    alternatives: seq<Alternative>,
    startTime: real,
    endTime: real)

  /** `RecognitionResult()`: NO_MATCH, no alternatives, times at -1. */
  const DefaultResult: RecognitionResult := RecognitionResult(NoMatch, None, [], -1.0, -1.0)

  /** `RecognitionResult(Code)`. */
  function ResultWithCode(c: Code): (r: RecognitionResult)
    ensures r == DefaultResult.(code := c)
  {
    RecognitionResult(c, None, [], -1.0, -1.0)
  }

  /** `RecognitionResult(std::string)`. */
  function ResultOfStatus(s: string): (r: RecognitionResult)
    requires KnownStatus(s)
    ensures r == DefaultResult.(code := CodeOfStatus(s))
  {
    RecognitionResult(CodeOfStatus(s), None, [], -1.0, -1.0)
  }

  /** `addAlternatives`: appends the alternative and promotes NO_MATCH to
      RECOGNIZED; any other code is kept. */
  function AddAlternative(r: RecognitionResult, alt: Alternative): (r': RecognitionResult)
    ensures r'.alternatives == r.alternatives + [alt]
    ensures r'.code == (if r.code == NoMatch then Recognized else r.code)
    ensures r'.code != NoMatch
    ensures r'.(code := r.code, alternatives := r.alternatives) == r
  {
    var c := if r.code == NoMatch then Recognized else r.code;
    r.(code := c, alternatives := r.alternatives + [alt])
  }

  /** Alternatives added one after the other. */
  function AddAlternatives(r: RecognitionResult, alts: seq<Alternative>): (r': RecognitionResult)
    decreases |alts|
  {
    if alts == [] then r else AddAlternatives(AddAlternative(r, alts[0]), alts[1..])
  }

  /** Adding alternatives keeps their order, promotes NO_MATCH as soon as
      there is one, and touches nothing else. */
  lemma {:induction false} AddAlternativesSpec(r: RecognitionResult, alts: seq<Alternative>)
    ensures AddAlternatives(r, alts).alternatives == r.alternatives + alts
    ensures AddAlternatives(r, alts).code ==
              if alts != [] && r.code == NoMatch then Recognized else r.code
    ensures AddAlternatives(r, alts).(code := r.code, alternatives := r.alternatives) == r
    decreases |alts|
  {
    if alts != [] {
      AddAlternativesSpec(AddAlternative(r, alts[0]), alts[1..]);
      assert r.alternatives + [alts[0]] + alts[1..] == r.alternatives + alts;
    }
  }

  /** `setLastSpeechSegment`, `setStartTime`, `setEndTime`. */
  function SetLastSpeechSegment(r: RecognitionResult, last: bool): (r': RecognitionResult)
    ensures r'.lastSegment == Some(last) && r'.(lastSegment := r.lastSegment) == r
  {
    r.(lastSegment := Some(last))
  }

  function SetStartTime(r: RecognitionResult, t: real): (r': RecognitionResult)
    ensures r'.startTime == t && r'.(startTime := r.startTime) == r
  {
    r.(startTime := t)
  }

  function SetEndTime(r: RecognitionResult, t: real): (r': RecognitionResult)
    ensures r'.endTime == t && r'.(endTime := r.endTime) == r
  {
    r.(endTime := t)
  }

  datatype PartialRecognition = PartialRecognition(text: string, speechSegmentIndex: int)

  /** `RecognitionResult::Classifier`: age, emotion and gender labels, each
      absent while empty. */
  class Classifier {
    var age: string
    var emotion: string
    var gender: string

    constructor ()
      ensures age == [] && emotion == [] && gender == []
      ensures !HasAge() && !HasEmotion() && !HasGender()
    {
      age, emotion, gender := [], [], [];
    }

    predicate HasAge() reads this { age != [] }
    predicate HasEmotion() reads this { emotion != [] }
    predicate HasGender() reads this { gender != [] }

    method SetAge(value: string)
      modifies this`age
      ensures age == value && (HasAge() <==> value != [])
    {
      age := value;
    }

    method SetEmotion(value: string)
      modifies this`emotion
      ensures emotion == value && (HasEmotion() <==> value != [])
    {
      emotion := value;
    }

    method SetGender(value: string)
      modifies this`gender
      ensures gender == value && (HasGender() <==> value != [])
    {
      gender := value;
    }
  }
}
