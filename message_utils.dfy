// Protocol constants and the string helpers shared by the request and
// response sides: method names, the start line of a request, and the
// getline-based split.

module MessageUtils {
  import opened Common

  /** Protocol version carried by every start line. */
  const AsrVersion: string := "ASR 2.4"
  /** Line terminator of the ASR protocol. */
  const MsgDelimiter: string := "\r\n"
  /** Separator between the words of a start line. */
  const MsgSeparator: string := " "
  /** Separator between a header's key and its value. */
  const HdrSeparator: string := ":"

  /** The twelve ASR protocol methods. */
  datatype Method =
    | CreateSession
    | SetParameters
    | GetParameters
    | StartRecognition
    | StartInputTimers
    | SendAudio
    | CancelRecognition
    | ReleaseSession
    | Response
    | StartOfSpeech
    | EndOfSpeech
    | RecognitionResult

  /** `getMethodString`: the name a method has on the wire, in capitals
      and underscores. */
  function MethodName(c: Method): (s: string)
    ensures |s| > 0
    ensures forall ch :: ch in s ==> 'A' <= ch <= 'Z' || ch == '_'
  {
    match c
    case CreateSession => "CREATE_SESSION"
    case SetParameters => "SET_PARAMETERS"
    case GetParameters => "GET_PARAMETERS"
    case StartRecognition => "START_RECOGNITION"
    case StartInputTimers => "START_INPUT_TIMERS"
    case SendAudio => "SEND_AUDIO"
    case CancelRecognition => "CANCEL_RECOGNITION"
    case ReleaseSession => "RELEASE_SESSION"
    case Response => "RESPONSE"
    case StartOfSpeech => "START_OF_SPEECH"
    case EndOfSpeech => "END_OF_SPEECH"
    case RecognitionResult => "RECOGNITION_RESULT"
  }

  /** The inverse of MethodName, used to read the command of a frame. */
  function MethodOf(s: string): (r: Option<Method>)
    ensures r.Some? ==> MethodName(r.value) == s
  {
    if s == "CREATE_SESSION" then Some(CreateSession)
    else if s == "SET_PARAMETERS" then Some(SetParameters)
    else if s == "GET_PARAMETERS" then Some(GetParameters)
    else if s == "START_RECOGNITION" then Some(StartRecognition)
    else if s == "START_INPUT_TIMERS" then Some(StartInputTimers)
    else if s == "SEND_AUDIO" then Some(SendAudio)
    else if s == "CANCEL_RECOGNITION" then Some(CancelRecognition)
    else if s == "RELEASE_SESSION" then Some(ReleaseSession)
    else if s == "RESPONSE" then Some(Response)
    else if s == "START_OF_SPEECH" then Some(StartOfSpeech)
    else if s == "END_OF_SPEECH" then Some(EndOfSpeech)
    else if s == "RECOGNITION_RESULT" then Some(RecognitionResult)
    else None
  }

  /** Every method's name is read back as that method, so the twelve names
      are distinct. */
  lemma MethodNameRoundTrip(c: Method)
    ensures MethodOf(MethodName(c)) == Some(c)
  {
    match c
    case CreateSession =>
    case SetParameters =>
    case GetParameters =>
    case StartRecognition =>
    case StartInputTimers =>
    case SendAudio =>
    case CancelRecognition =>
    case ReleaseSession =>
    case Response =>
    case StartOfSpeech =>
    case EndOfSpeech =>
    case RecognitionResult =>
  }

  /** Distinct methods have distinct names. */
  lemma MethodNameInjective(c: Method, d: Method)
    requires MethodName(c) == MethodName(d)
    ensures c == d
  {
    MethodNameRoundTrip(c);
    MethodNameRoundTrip(d);
  }

  /** `firstLine`: the start line of a request for method `c`. */
  function FirstLine(c: Method): (s: string)
    ensures |s| == |AsrVersion| + 1 + |MethodName(c)|
    ensures s[..|AsrVersion|] == AsrVersion
    ensures s[|AsrVersion|] == ' '
    ensures s[|AsrVersion| + 1..] == MethodName(c)
  {
    AsrVersion + MsgSeparator + MethodName(c)
  }

  /** Index of the first `d` in `s`, or `|s|` when there is none. */
  function IndexOf(s: string, d: char): (i: nat)
    ensures i <= |s|
    ensures forall k :: 0 <= k < i ==> s[k] != d
    ensures i < |s| ==> s[i] == d
  {
    if s == [] then 0
    else if s[0] == d then 0
    else 1 + IndexOf(s[1..], d)
  }

  /** `split`: the pieces std::getline reads from `s` with delimiter `d`. */
  function Split(s: string, d: char): seq<string>
    decreases |s|
  {
    if s == [] then []
    else
      var i := IndexOf(s, d);
      if i == |s| then [s] else [s[..i]] + Split(s[i + 1..], d)
  }

  /** The pieces joined back with the delimiter between them. */
  function Join(pieces: seq<string>, d: char): string {
    if pieces == [] then []
    else if |pieces| == 1 then pieces[0]
    else pieces[0] + [d] + Join(pieces[1..], d)
  }

  predicate Free(s: string, d: char) {
    forall k :: 0 <= k < |s| ==> s[k] != d
  }

  /** No piece contains the delimiter. */
  lemma {:induction false} SplitPiecesFree(s: string, d: char)
    ensures forall j :: 0 <= j < |Split(s, d)| ==> Free(Split(s, d)[j], d)
    decreases |s|
  {
    if s != [] {
      var i := IndexOf(s, d);
      if i < |s| {
        SplitPiecesFree(s[i + 1..], d);
        assert Split(s, d) == [s[..i]] + Split(s[i + 1..], d);
      }
    }
  }

  /** Join of a piece in front of a list. */
  lemma JoinCons(a: string, t: seq<string>, d: char)
    ensures Join([a] + t, d) == if t == [] then a else a + [d] + Join(t, d)
  {
    assert ([a] + t)[1..] == t;
  }

  /** Joining the pieces with the delimiter gives the input back, unless the
      input ends with the delimiter: getline drops that trailing one. */
  lemma {:induction false} JoinSplit(s: string, d: char)
    ensures s == [] || s[|s| - 1] != d ==> Join(Split(s, d), d) == s
    ensures s != [] && s[|s| - 1] == d ==> Join(Split(s, d), d) + [d] == s
    decreases |s|
  {
    if s != [] {
      var i := IndexOf(s, d);
      if i < |s| {
        var rest := s[i + 1..];
        var t := Split(rest, d);
        var head := s[..i] + [d];
        CutAt(s, i);
        assert Split(s, d) == [s[..i]] + t;
        JoinCons(s[..i], t, d);
        if rest != [] {
          JoinSplit(rest, d);
          assert rest[|rest| - 1] == s[|s| - 1];
          if s[|s| - 1] != d {
            assert Join(Split(s, d), d) == head + Join(t, d);
          } else {
            assert Join(Split(s, d), d) + [d] == head + (Join(t, d) + [d]);
          }
        }
      }
    }
  }

  /** A string is the part before an index, the character there, and the
      part after it. */
  lemma CutAt(s: string, i: nat)
    requires i < |s|
    ensures s == s[..i] + [s[i]] + s[i + 1..]
  {
  }

  /** Splitting pieces that were joined gives the pieces back, when no piece
      holds the delimiter and the last piece is not empty. */
  lemma {:induction false} SplitJoin(pieces: seq<string>, d: char)
    requires forall j :: 0 <= j < |pieces| ==> Free(pieces[j], d)
    requires pieces != [] ==> pieces[|pieces| - 1] != []
    ensures Split(Join(pieces, d), d) == pieces
  {
    if pieces != [] {
      var p := pieces[0];
      if |pieces| == 1 {
        IndexOfFree(p, d);
      } else {
        var rest := Join(pieces[1..], d);
        var s := p + [d] + rest;
        IndexOfPrefix(p, d, rest);
        assert s[..|p|] == p && s[|p| + 1..] == rest;
        SplitJoin(pieces[1..], d);
      }
    }
  }

  lemma {:induction false} IndexOfFree(s: string, d: char)
    requires Free(s, d)
    ensures IndexOf(s, d) == |s|
  {
    if s != [] {
      IndexOfFree(s[1..], d);
    }
  }

  lemma {:induction false} IndexOfPrefix(p: string, d: char, rest: string)
    requires Free(p, d)
    ensures IndexOf(p + [d] + rest, d) == |p|
  {
    if p != [] {
      IndexOfPrefix(p[1..], d, rest);
      assert (p + [d] + rest)[1..] == p[1..] + [d] + rest;
    }
  }

  /** Each piece followed by the delimiter: the text of a block of lines. */
  function Terminated(pieces: seq<string>, d: char): string {
    if pieces == [] then [] else pieces[0] + [d] + Terminated(pieces[1..], d)
  }

  /** Reading back lines that each end with the delimiter gives the lines. */
  lemma {:induction false} SplitTerminated(pieces: seq<string>, d: char)
    requires forall j :: 0 <= j < |pieces| ==> Free(pieces[j], d)
    ensures Split(Terminated(pieces, d), d) == pieces
  {
    if pieces != [] {
      var p := pieces[0];
      var rest := Terminated(pieces[1..], d);
      var s := p + [d] + rest;
      IndexOfPrefix(p, d, rest);
      assert s[..|p|] == p && s[|p| + 1..] == rest;
      SplitTerminated(pieces[1..], d);
    }
  }
}
