// The chain of responsibility that handles every frame the server sends:
// `ASRProcessMsg` (the links), `ASRProcessResponse` (RESPONSE frames and the
// audio-streaming loop they start), `ASRProcessStartSpeech` and
// `ASRProcessEndSpeech`; the RECOGNITION_RESULT handler is in
// ProcessResults.  `websocket_client.h` installs the chain for every
// received message.
//
// Each handler's effect is a function from a snapshot of the recognizer's
// fields to an `Outcome`: the new fields and the flag returned, or the
// exception that escapes.  The methods on `Impl` perform it step by step.

module ProcessMessages {
  import opened Common
  import opened HeaderMap
  import opened MessageUtils
  import AM = AsrMessage
  import opened RecognitionResults
  import opened RecognizerState
  import opened SendMessages
  import opened ProcessResults
  import RE = RecognitionErrors
  import J = Json

  // ---------------------------------------------------------------------
  // The chain.

  /** The four handlers. */
  datatype Handler = ResponseHandler | ResultHandler | StartSpeechHandler | EndSpeechHandler

  /** The command each handler answers; any other is passed on. */
  function HandledCommand(h: Handler): (m: Method)
    ensures m in {Method.Response, Method.RecognitionResult, Method.StartOfSpeech, Method.EndOfSpeech}
  {
    match h
    case ResponseHandler => Method.Response
    case ResultHandler => Method.RecognitionResult
    case StartSpeechHandler => Method.StartOfSpeech
    case EndSpeechHandler => Method.EndOfSpeech
  }

  /** The handler of `chain` that takes a frame with command `cmd`: the
      first that answers it, if any. */
  function Taker(chain: seq<Handler>, cmd: string): (r: Option<Handler>)
    decreases |chain|
  {
    if chain == [] then None
    else if MethodName(HandledCommand(chain[0])) == cmd then Some(chain[0])
    else Taker(chain[1..], cmd)
  }

  /** The frame goes to the first handler answering its command, and to no
      handler when none does. */
  lemma {:induction false} TakerIsFirst(chain: seq<Handler>, cmd: string)
    ensures Taker(chain, cmd).Some? <==> exists i :: 0 <= i < |chain| && MethodName(HandledCommand(chain[i])) == cmd
    ensures Taker(chain, cmd).Some? ==>
              exists i :: 0 <= i < |chain| && chain[i] == Taker(chain, cmd).value &&
                MethodName(HandledCommand(chain[i])) == cmd &&
                forall j :: 0 <= j < i ==> MethodName(HandledCommand(chain[j])) != cmd
    decreases |chain|
  {
    if chain != [] && MethodName(HandledCommand(chain[0])) != cmd {
      TakerIsFirst(chain[1..], cmd);
      if Taker(chain[1..], cmd).Some? {
        var i :| 0 <= i < |chain[1..]| && chain[1..][i] == Taker(chain[1..], cmd).value &&
                 MethodName(HandledCommand(chain[1..][i])) == cmd &&
                 forall j :: 0 <= j < i ==> MethodName(HandledCommand(chain[1..][j])) != cmd;
        assert chain[i + 1] == Taker(chain, cmd).value;
        forall j | 0 <= j < i + 1
          ensures MethodName(HandledCommand(chain[j])) != cmd
        {
          if j > 0 {
            assert chain[j] == chain[1..][j - 1];
          }
        }
      }
      if exists i :: 0 <= i < |chain| && MethodName(HandledCommand(chain[i])) == cmd {
        var i :| 0 <= i < |chain| && MethodName(HandledCommand(chain[i])) == cmd;
        assert i > 0 && chain[1..][i - 1] == chain[i];
      }
    }
  }

  /** The chain `on_message` installs: RESPONSE, then RECOGNITION_RESULT,
      then START_OF_SPEECH, then END_OF_SPEECH. */
  const Installed: seq<Handler> := [ResponseHandler, ResultHandler, StartSpeechHandler, EndSpeechHandler]

  /** Each of the four commands reaches its own handler in the installed
      chain; every other frame is dropped. */
  lemma InstalledTakers(cmd: string)
    ensures Taker(Installed, cmd) ==
              if cmd == "RESPONSE" then Some(ResponseHandler)
              else if cmd == "RECOGNITION_RESULT" then Some(ResultHandler)
              else if cmd == "START_OF_SPEECH" then Some(StartSpeechHandler)
              else if cmd == "END_OF_SPEECH" then Some(EndSpeechHandler)
              else None
  {
    assert Installed[1..] == [ResultHandler, StartSpeechHandler, EndSpeechHandler];
    assert Installed[1..][1..] == [StartSpeechHandler, EndSpeechHandler];
    assert Installed[1..][1..][1..] == [EndSpeechHandler];
    assert Installed[1..][1..][1..][1..] == [];
  }

  /** The result a method reports: the flag returned, or the exception. */
  function OutcomeOf(s: State, ok: bool, thrown: Option<RE.RecognitionException>): Outcome {
    if thrown.Some? then Raised(s, thrown.value) else Returned(s, ok)
  }

  // ---------------------------------------------------------------------
  // RESPONSE frames.

  /** The `Session-Status` header's name, the string the RESPONSE handler
      compares with the status names. */
  const SessionStatusHeader: string := "Session-Status"

  /** The status comparison of the RESPONSE handler, on the string it is
      given: IDLE, LISTENING (which also calls every listener's
      `onListening`) and RECOGNIZING set the session; anything else leaves
      the state alone. */
  function SessionUpdate(s: State, status: string): State {
    if status == "IDLE" then s.(session := Idle)
    else if status == "LISTENING" then
      s.(session := Listening, events := s.events + Broadcast(s.listeners, OnListening))
    else if status == "RECOGNIZING" then s.(session := Recognizing)
    else s
  }

  /** The handler gives the comparison the header's name, not its value:
      the session never moves and `onListening` never fires, although the
      comparison itself would have honoured the value. */
  lemma SessionUpdateAsCalled(s: State)
    ensures SessionUpdate(s, SessionStatusHeader) == s
    ensures SessionUpdate(s, "LISTENING").session == Listening
    ensures SessionUpdate(s, "LISTENING").events == s.events + Broadcast(s.listeners, OnListening)
  {
  }

  /** `generateError`'s message: the method in brackets, the error code,
      and the server's message after a colon when there is one. */
  function ErrorText(f: Frame): string {
    var code := HeaderOf(f, "Error-Code");
    var message := HeaderOf(f, "Message");
    var detail := if message == [] then code else code + ": " + message;
    "[" + HeaderOf(f, "Method") + "]: " + detail
  }

  /** The message starts with the bracketed method and the code, and ends
      with the server's message exactly when that is not empty. */
  lemma ErrorTextSpec(f: Frame)
    ensures var prefix := "[" + HeaderOf(f, "Method") + "]: " + HeaderOf(f, "Error-Code");
            && |prefix| <= |ErrorText(f)|
            && ErrorText(f)[..|prefix|] == prefix
            && (HeaderOf(f, "Message") == [] <==> ErrorText(f) == prefix)
            && (HeaderOf(f, "Message") != [] ==> ErrorText(f)[|prefix|..] == ": " + HeaderOf(f, "Message"))
  {
    var prefix := "[" + HeaderOf(f, "Method") + "]: " + HeaderOf(f, "Error-Code");
    if HeaderOf(f, "Message") != [] {
      assert ErrorText(f) == prefix + (": " + HeaderOf(f, "Message"));
      assert |ErrorText(f)| > |prefix|;
    }
  }

  /** `generateError`: a FAILURE reported to every listener and kept as the
      pending error. */
  function GenerateError(s: State, f: Frame): State {
    ErrorEffect(s, RE.Failure, ErrorText(f))
  }

  function Succeeded(f: Frame): bool {
    HeaderOf(f, "Result") == "SUCCESS"
  }

  /** `startRecognition` called by a handler: one START_RECOGNITION sent and
      true returned, or the exception escapes with nothing sent. */
  function StartOutcome(s: State): Outcome
    requires s.lm.Some?
  {
    match StartRecognitionRequest(s.lm.value)
    case Err(e) => Raised(s, e)
    case Ok(v) => Returned(s.(outbox := s.outbox + [RequestText(Method.StartRecognition, v.0, v.1)]), true)
  }

  /** `createSession`: on failure the error; otherwise SET_PARAMETERS when
      there is a configuration, START_RECOGNITION when there is none. */
  function CreateSessionEffect(s: State, f: Frame): Outcome
    requires Succeeded(f) && s.config.None? ==> s.lm.Some?
  {
    if !Succeeded(f) then Returned(GenerateError(s, f), false)
    else if s.config.None? then StartOutcome(s)
    else Returned(s.(outbox := s.outbox + [ParametersText(s.config.value)]), true)
  }

  /** `setParameters`: on failure the error; otherwise START_RECOGNITION. */
  function SetParametersEffect(s: State, f: Frame): Outcome
    requires Succeeded(f) ==> s.lm.Some?
  {
    if !Succeeded(f) then Returned(GenerateError(s, f), false)
    else StartOutcome(s)
  }

  /** `startRecog`: on failure the error; without an audio source, false;
      otherwise the audio-streaming thread starts. */
  function StartRecogEffect(s: State, f: Frame): Outcome {
    if !Succeeded(f) then Returned(GenerateError(s, f), false)
    else if !s.audio then Returned(s, false)
    else Returned(s.(streaming := true), true)
  }

  /** `cancelRecog`: SUCCESS or INVALID_ACTION drop every pending result and
      end the recognition; any other result is an error. */
  function CancelRecogEffect(s: State, f: Frame): Outcome {
    var result := HeaderOf(f, "Result");
    if result != "SUCCESS" && result != "INVALID_ACTION" then Returned(GenerateError(s, f), false)
    else Returned(s.(results := [], recognizing := false), true)
  }

  /** The RESPONSE handler dereferences the language model whenever it sends
      START_RECOGNITION. */
  predicate ResponseDefined(s: State, f: Frame) {
    var m := HeaderOf(f, "Method");
    Succeeded(f) && (m == "SET_PARAMETERS" || (m == "CREATE_SESSION" && s.config.None?)) ==> s.lm.Some?
  }

  /** `ASRProcessResponse::handle` on a RESPONSE frame: the status
      comparison as written, then dispatch on the `Method` header; a
      response to any other method is accepted as is. */
  function ResponseEffect(s: State, f: Frame): Outcome
    requires ResponseDefined(s, f)
  {
    var s1 := SessionUpdate(s, SessionStatusHeader);
    var m := HeaderOf(f, "Method");
    if m == "CREATE_SESSION" then CreateSessionEffect(s1, f)
    else if m == "SET_PARAMETERS" then SetParametersEffect(s1, f)
    else if m == "START_RECOGNITION" then StartRecogEffect(s1, f)
    else if m == "CANCEL_RECOGNITION" then CancelRecogEffect(s1, f)
    else Returned(s1, true)
  }

  /** A RESPONSE never changes the session status and never calls
      `onListening`; whatever callbacks it makes are errors. */
  lemma ResponseKeepsSession(s: State, f: Frame)
    requires ResponseDefined(s, f)
    ensures ResponseEffect(s, f).state.session == s.session
    ensures var e := ResponseEffect(s, f).state.events;
            |s.events| <= |e| && e[..|s.events|] == s.events &&
            forall j :: |s.events| <= j < |e| ==> e[j].event.OnError?
  {
    var err := Broadcast(s.listeners, OnError(RE.RecognitionError(RE.Failure, ErrorText(f))));
    ResponseCases(s, f);
    ErrorsAppended(s.events, ResponseEffect(s, f).state.events, err, ErrorText(f));
  }

  /** `t` has `s`'s session, and at most the error callbacks for `f` added. */
  predicate AtMostError(s: State, t: State, f: Frame) {
    && t.session == s.session
    && (t.events == s.events ||
        t.events == s.events + Broadcast(s.listeners, OnError(RE.RecognitionError(RE.Failure, ErrorText(f)))))
  }

  lemma CreateSessionAtMostError(s: State, f: Frame)
    requires Succeeded(f) && s.config.None? ==> s.lm.Some?
    ensures AtMostError(s, CreateSessionEffect(s, f).state, f)
  {
  }

  lemma SetParametersAtMostError(s: State, f: Frame)
    requires Succeeded(f) ==> s.lm.Some?
    ensures AtMostError(s, SetParametersEffect(s, f).state, f)
  {
  }

  lemma StartRecogAtMostError(s: State, f: Frame)
    ensures AtMostError(s, StartRecogEffect(s, f).state, f)
  {
  }

  lemma CancelRecogAtMostError(s: State, f: Frame)
    ensures AtMostError(s, CancelRecogEffect(s, f).state, f)
  {
  }

  lemma ResponseCases(s: State, f: Frame)
    requires ResponseDefined(s, f)
    ensures AtMostError(s, ResponseEffect(s, f).state, f)
  {
    assert SessionUpdate(s, SessionStatusHeader) == s;
    var m := HeaderOf(f, "Method");
    if m == "CREATE_SESSION" {
      assert ResponseEffect(s, f) == CreateSessionEffect(s, f);
      CreateSessionAtMostError(s, f);
    } else if m == "SET_PARAMETERS" {
      assert ResponseEffect(s, f) == SetParametersEffect(s, f);
      SetParametersAtMostError(s, f);
    } else if m == "START_RECOGNITION" {
      assert ResponseEffect(s, f) == StartRecogEffect(s, f);
      StartRecogAtMostError(s, f);
    } else if m == "CANCEL_RECOGNITION" {
      assert ResponseEffect(s, f) == CancelRecogEffect(s, f);
      CancelRecogAtMostError(s, f);
    } else {
      assert ResponseEffect(s, f) == Returned(s, true);
    }
  }

  lemma ErrorsAppended(e0: seq<Notice>, e1: seq<Notice>, err: seq<Notice>, message: string)
    requires err == Broadcast(|err|, OnError(RE.RecognitionError(RE.Failure, message)))
    requires e1 == e0 || e1 == e0 + err
    ensures |e0| <= |e1| && e1[..|e0|] == e0
    ensures forall j :: |e0| <= j < |e1| ==> e1[j].event.OnError?
  {
    assert (e0 + err)[..|e0|] == e0;
  }

  /** A failed CREATE_SESSION, SET_PARAMETERS or START_RECOGNITION (any
      `Result` but SUCCESS) reports a FAILURE with the server's code and
      message, keeps it as the pending error, sends nothing and answers
      false. */
  lemma ResponseFailure(s: State, f: Frame)
    requires ResponseDefined(s, f) && !Succeeded(f)
    requires HeaderOf(f, "Method") in {"CREATE_SESSION", "SET_PARAMETERS", "START_RECOGNITION"}
    ensures var o := ResponseEffect(s, f);
            && o == Returned(o.state, false)
            && o.state.pending == Some(RE.NewException(RE.Failure, ErrorText(f)))
            && o.state.outbox == s.outbox
            && o.state.events == s.events + Broadcast(s.listeners, OnError(RE.RecognitionError(RE.Failure, ErrorText(f))))
  {
  }

  /** A successful CREATE_SESSION sends exactly one message: SET_PARAMETERS
      for the configuration when there is one, START_RECOGNITION otherwise
      (or throws when the language model is empty). */
  lemma CreateSessionSends(s: State, f: Frame)
    requires ResponseDefined(s, f) && Succeeded(f) && HeaderOf(f, "Method") == "CREATE_SESSION"
    ensures var o := ResponseEffect(s, f);
            && (s.config.Some? ==>
                  o == Returned(s.(outbox := s.outbox + [ParametersText(s.config.value)]), true))
            && (s.config.None? && StartRecognitionRequest(s.lm.value).Ok? ==>
                  var (h, body) := StartRecognitionRequest(s.lm.value).value;
                  o == Returned(s.(outbox := s.outbox + [RequestText(Method.StartRecognition, h, body)]), true))
            && (s.config.None? && StartRecognitionRequest(s.lm.value).Err? ==>
                  o == Raised(s, StartRecognitionRequest(s.lm.value).error))
  {
    assert SessionUpdate(s, SessionStatusHeader) == s;
    assert ResponseEffect(s, f) == CreateSessionEffect(s, f);
  }

  /** A successful SET_PARAMETERS sends START_RECOGNITION. */
  lemma SetParametersSends(s: State, f: Frame)
    requires ResponseDefined(s, f) && Succeeded(f) && HeaderOf(f, "Method") == "SET_PARAMETERS"
    ensures StartRecognitionRequest(s.lm.value).Ok? ==>
              var (h, body) := StartRecognitionRequest(s.lm.value).value;
              ResponseEffect(s, f) == Returned(s.(outbox := s.outbox + [RequestText(Method.StartRecognition, h, body)]), true)
    ensures StartRecognitionRequest(s.lm.value).Err? ==>
              ResponseEffect(s, f) == Raised(s, StartRecognitionRequest(s.lm.value).error)
  {
  }

  /** A successful START_RECOGNITION starts streaming exactly when there is
      an audio source, and answers whether it did; nothing else changes. */
  lemma StartRecogStreams(s: State, f: Frame)
    requires Succeeded(f) && HeaderOf(f, "Method") == "START_RECOGNITION"
    ensures ResponseEffect(s, f) == Returned(s.(streaming := s.streaming || s.audio), s.audio)
  {
  }

  /** CANCEL_RECOGNITION answered SUCCESS or INVALID_ACTION drops every
      result and ends the recognition; any other answer is an error that
      leaves both alone. */
  lemma CancelRecogClears(s: State, f: Frame)
    requires HeaderOf(f, "Method") == "CANCEL_RECOGNITION"
    ensures var o := ResponseEffect(s, f);
            var result := HeaderOf(f, "Result");
            && o.Returned?
            && (o.ok <==> result == "SUCCESS" || result == "INVALID_ACTION")
            && (o.ok ==> o.state == s.(results := [], recognizing := false))
            && (!o.ok ==> o.state == GenerateError(s, f))
  {
  }

  // ---------------------------------------------------------------------
  // START_OF_SPEECH and END_OF_SPEECH.

  /** Every listener is called back with `e`, and the handler answers true. */
  function NotifyEffect(s: State, e: Event): Outcome {
    Returned(s.(events := s.events + Broadcast(s.listeners, e)), true)
  }

  // ---------------------------------------------------------------------
  // Routing.

  predicate HandlerDefined(h: Handler, s: State, f: Frame, body: J.Json) {
    match h
    case ResponseHandler => ResponseDefined(s, f)
    case ResultHandler => ResultDefined(f, body)
    case _ => true
  }

  /** What handler `h` does with a frame it takes. */
  function HandlerEffect(h: Handler, s: State, f: Frame, body: J.Json): Outcome
    requires HandlerDefined(h, s, f, body)
  {
    match h
    case ResponseHandler => ResponseEffect(s, f)
    case ResultHandler => ResultEffect(s, f, body)
    case StartSpeechHandler => NotifyEffect(s, OnSpeechStart(0))
    case EndSpeechHandler => NotifyEffect(s, OnSpeechStop(0))
  }

  /** Every link reads the command as the third word of the start line. */
  predicate RouteDefined(chain: seq<Handler>, s: State, f: Frame, body: J.Json) {
    && HasCommand(f.startLine)
    && (Taker(chain, Command(f.startLine)).Some? ==>
          HandlerDefined(Taker(chain, Command(f.startLine)).value, s, f, body))
  }

  /** `root->handle`: the taker's effect, or false at the end of the chain. */
  function Route(chain: seq<Handler>, s: State, f: Frame, body: J.Json): Outcome
    requires RouteDefined(chain, s, f, body)
  {
    match Taker(chain, Command(f.startLine))
    case None => Returned(s, false)
    case Some(h) => HandlerEffect(h, s, f, body)
  }

  /** A received frame: RESPONSE, RECOGNITION_RESULT, START_OF_SPEECH and
      END_OF_SPEECH have their handlers' effects (the speech events reach
      every listener with time 0); any other frame changes nothing and is
      answered false. */
  lemma InstalledRoute(s: State, f: Frame, body: J.Json)
    requires RouteDefined(Installed, s, f, body)
    requires Command(f.startLine) == "RESPONSE" ==> ResponseDefined(s, f)
    requires Command(f.startLine) == "RECOGNITION_RESULT" ==> ResultDefined(f, body)
    ensures var cmd := Command(f.startLine);
            && (cmd == "RESPONSE" ==> Route(Installed, s, f, body) == ResponseEffect(s, f))
            && (cmd == "RECOGNITION_RESULT" ==> Route(Installed, s, f, body) == ResultEffect(s, f, body))
            && (cmd == "START_OF_SPEECH" ==>
                  Route(Installed, s, f, body) == Returned(s.(events := s.events + Broadcast(s.listeners, OnSpeechStart(0))), true))
            && (cmd == "END_OF_SPEECH" ==>
                  Route(Installed, s, f, body) == Returned(s.(events := s.events + Broadcast(s.listeners, OnSpeechStop(0))), true))
            && (cmd !in {"RESPONSE", "RECOGNITION_RESULT", "START_OF_SPEECH", "END_OF_SPEECH"} ==>
                  Route(Installed, s, f, body) == Returned(s, false))
  {
    InstalledTakers(Command(f.startLine));
  }

  // ---------------------------------------------------------------------
  // The audio-streaming loop.

  /** One `read` of the audio source as the loop sees it: the bytes
      drained, the value returned (-1 once the source is finished), and
      whether the terminate flag was found set right after it. */
  datatype AudioRead = AudioRead(chunk: string, ret: int, stop: bool)

  /** A SEND_AUDIO message: the bytes and whether it is the last packet. */
  datatype Packet = Packet(chunk: string, last: bool)

  /** The packets the loop sends for a run of rs: it stops at a set
      terminate flag, skips an empty read unless it is the final one, and
      ends after the final read. */
  function Packets(rs: seq<AudioRead>): seq<Packet>
    decreases |rs|
  {
    if rs == [] then []
    else if rs[0].stop then []
    else if rs[0].chunk == [] && rs[0].ret != -1 then Packets(rs[1..])
    else if rs[0].ret == -1 then [Packet(rs[0].chunk, true)]
    else [Packet(rs[0].chunk, false)] + Packets(rs[1..])
  }

  /** The reads whose bytes the stream carries: up to (not including) the
      first read after which the flag was set, and up to (including) the
      first final read. */
  function Heard(rs: seq<AudioRead>): seq<AudioRead>
    decreases |rs|
  {
    if rs == [] || rs[0].stop then []
    else if rs[0].ret == -1 then [rs[0]]
    else [rs[0]] + Heard(rs[1..])
  }

  function ReadBytes(rs: seq<AudioRead>): string
    decreases |rs|
  {
    if rs == [] then [] else rs[0].chunk + ReadBytes(rs[1..])
  }

  function PacketBytes(ps: seq<Packet>): string
    decreases |ps|
  {
    if ps == [] then [] else ps[0].chunk + PacketBytes(ps[1..])
  }

  /** The stream ends with a final read, the terminate flag not set. */
  predicate Finished(rs: seq<AudioRead>) {
    Heard(rs) != [] && Heard(rs)[|Heard(rs)| - 1].ret == -1
  }

  /** No audio is lost, duplicated or reordered: the packets carry exactly
      the bytes of the heard rs, in order. */
  lemma {:induction false} PacketsCarryAudio(rs: seq<AudioRead>)
    ensures PacketBytes(Packets(rs)) == ReadBytes(Heard(rs))
    decreases |rs|
  {
    if rs != [] && !rs[0].stop {
      if rs[0].ret == -1 {
        assert ReadBytes([rs[0]]) == rs[0].chunk + ReadBytes([]);
        assert PacketBytes([Packet(rs[0].chunk, true)]) == rs[0].chunk + PacketBytes([]);
      } else if rs[0].chunk == [] {
        PacketsCarryAudio(rs[1..]);
        assert ReadBytes(Heard(rs)) == [] + ReadBytes(Heard(rs[1..]));
      } else {
        PacketsCarryAudio(rs[1..]);
        var ps := [Packet(rs[0].chunk, false)] + Packets(rs[1..]);
        assert ps[1..] == Packets(rs[1..]);
        var hs := [rs[0]] + Heard(rs[1..]);
        assert hs[1..] == Heard(rs[1..]);
      }
    }
  }

  /** Only the last packet can say LastPacket: true, and it does exactly
      when the stream ended with a final read; every other packet carries
      bytes. */
  lemma {:induction false} PacketsLast(rs: seq<AudioRead>)
    ensures var ps := Packets(rs);
            && (forall j :: 0 <= j < |ps| - 1 ==> !ps[j].last && ps[j].chunk != [])
            && (ps != [] && ps[|ps| - 1].last <==> Finished(rs))
            && (ps != [] && !ps[|ps| - 1].last ==> ps[|ps| - 1].chunk != [])
    decreases |rs|
  {
    if rs != [] && !rs[0].stop && rs[0].ret != -1 {
      PacketsLast(rs[1..]);
      var hs := Heard(rs[1..]);
      assert Heard(rs) == [rs[0]] + hs;
      if hs != [] {
        assert Heard(rs)[|Heard(rs)| - 1] == hs[|hs| - 1];
      }
      if rs[0].chunk != [] {
        var ps := [Packet(rs[0].chunk, false)] + Packets(rs[1..]);
        forall j | 0 <= j < |ps| - 1
          ensures !ps[j].last && ps[j].chunk != []
        {
          if j > 0 {
            assert ps[j] == Packets(rs[1..])[j - 1];
          }
        }
      }
    }
  }

  /** At most one packet per read. */
  lemma {:induction false} PacketsBound(rs: seq<AudioRead>)
    ensures |Packets(rs)| <= |rs|
    decreases |rs|
  {
    if rs != [] && !rs[0].stop && rs[0].ret != -1 {
      PacketsBound(rs[1..]);
    }
  }

  /** The headers of a SEND_AUDIO message. */
  function AudioHeaders(n: nat, last: bool): Headers {
    var h1 := PutIf([], true, "Content-Length", NatToDecimal(n));
    var h2 := PutIf(h1, true, "Content-Type", "application/octet-stream");
    PutIf(h2, true, "LastPacket", if last then "true" else "false")
  }

  /** The declared length reads back as the packet's size, the type is
      fixed, LastPacket is "true" exactly for the last packet, and nothing
      else is sent. */
  lemma AudioHeadersSpec(n: nat, last: bool)
    ensures var h := AudioHeaders(n, last);
            && Find(h, "Content-Length").Some?
            && AllDigits(Find(h, "Content-Length").value)
            && DecimalValue(Find(h, "Content-Length").value) == n
            && Find(h, "Content-Type") == Some("application/octet-stream")
            && (Find(h, "LastPacket") == Some("true") <==> last)
            && Find(h, "LastPacket") in {Some("true"), Some("false")}
            && forall key :: key != "Content-Length" && key != "Content-Type" && key != "LastPacket" ==> Find(h, key) == None
  {
    var h1 := PutIf([], true, "Content-Length", NatToDecimal(n));
    var h2 := PutIf(h1, true, "Content-Type", "application/octet-stream");
    var h3 := PutIf(h2, true, "LastPacket", if last then "true" else "false");
    assert "Content-Length" != "Content-Type" && "Content-Length" != "LastPacket" && "Content-Type" != "LastPacket";
    Chain3([], h1, h2, h3, "Content-Length", "Content-Type", "LastPacket", true, true, true,
           NatToDecimal(n), "application/octet-stream", if last then "true" else "false");
    DecimalRoundTrip(n);
    assert forall key :: Find([], key) == None;
  }

  /** The text of the SEND_AUDIO message for a packet. */
  function AudioText(p: Packet): string {
    RequestText(Method.SendAudio, AudioHeaders(|p.chunk|, p.last), p.chunk)
  }

  /** The texts sent for a run of packets, one per packet, in order. */
  function AudioTexts(ps: seq<Packet>): (r: seq<string>)
    ensures |r| == |ps|
    decreases |ps|
  {
    if ps == [] then [] else [AudioText(ps[0])] + AudioTexts(ps[1..])
  }

  /** One SEND_AUDIO request, built as the loop builds it. */
  method AudioMessage(chunk: string, last: bool) returns (raw: string)
    ensures raw == AudioText(Packet(chunk, last))
  {
    var request := new AM.AsrMessage.Request(Method.SendAudio);
    request.SetExtra(chunk);
    request.SetHeader("Content-Length", NatToDecimal(|chunk|));
    request.SetHeader("Content-Type", "application/octet-stream");
    if last {
      request.SetHeader("LastPacket", "true");
    } else {
      request.SetHeader("LastPacket", "false");
    }
    raw := request.Raw();
  }

  /** One read of the loop: what `Packets` makes of the reads from `i` on,
      in terms of the reads after it. */
  lemma PacketsAt(rs: seq<AudioRead>, i: nat)
    requires i < |rs|
    ensures var r := rs[i];
            AudioTexts(Packets(rs[i..])) ==
              if r.stop then []
              else if r.chunk == [] && r.ret != -1 then AudioTexts(Packets(rs[i + 1..]))
              else if r.ret == -1 then [AudioText(Packet(r.chunk, true))]
              else [AudioText(Packet(r.chunk, false))] + AudioTexts(Packets(rs[i + 1..]))
  {
    var r := rs[i];
    assert rs[i..][0] == r && rs[i..][1..] == rs[i + 1..];
    if !r.stop && r.ret != -1 && r.chunk != [] {
      AudioTextsCons(Packet(r.chunk, false), Packets(rs[i + 1..]));
    }
  }

  lemma AudioTextsCons(p: Packet, ps: seq<Packet>)
    ensures AudioTexts([p] + ps) == [AudioText(p)] + AudioTexts(ps)
  {
    assert ([p] + ps)[1..] == ps;
  }

  lemma Reassociate(before: seq<string>, raw: string, later: seq<string>)
    ensures (before + [raw]) + later == before + ([raw] + later)
  {
  }

  /** `sendAudioMessage`, run over the given reads: one SEND_AUDIO per
      packet, in order. */
  method SendAudioMessage(impl: Impl, rs: seq<AudioRead>)
    modifies impl`outbox
    ensures impl.outbox == old(impl.outbox) + AudioTexts(Packets(rs))
  {
    var i := 0;
    while i < |rs|
      invariant 0 <= i <= |rs|
      invariant impl.outbox + AudioTexts(Packets(rs[i..])) == old(impl.outbox) + AudioTexts(Packets(rs))
    {
      var r := rs[i];
      PacketsAt(rs, i);
      if r.stop {
        return;
      }
      if r.chunk == [] && r.ret != -1 {
        i := i + 1;
        continue;
      }
      var raw := AudioMessage(r.chunk, r.ret == -1);
      ghost var before := impl.outbox;
      ghost var later := if r.ret == -1 then [] else AudioTexts(Packets(rs[i + 1..]));
      assert AudioTexts(Packets(rs[i..])) == [raw] + later;
      impl.SendMessage(raw);
      Reassociate(before, raw, later);
      if r.ret == -1 {
        return;
      }
      i := i + 1;
    }
  }

  // ---------------------------------------------------------------------
  // The handlers on `Impl`.

  /** `generateError`. */
  method ReportError(impl: Impl, f: Frame)
    modifies impl`events, impl`pending
    ensures impl.Snapshot() == GenerateError(old(impl.Snapshot()), f)
  {
    var code := HeaderOf(f, "Error-Code");
    var message := HeaderOf(f, "Message");
    var errorMsg := code;
    if message != [] {
      errorMsg := errorMsg + ": " + message;
    }
    var methodName := HeaderOf(f, "Method");
    impl.RecognitionError(RE.Failure, "[" + methodName + "]: " + errorMsg);
  }

  /** The status comparison, on the string the handler passes. */
  method UpdateSession(impl: Impl, status: string)
    modifies impl`session, impl`events
    ensures impl.Snapshot() == SessionUpdate(old(impl.Snapshot()), status)
  {
    if status == "IDLE" {
      impl.session := Idle;
    } else if status == "LISTENING" {
      impl.session := Listening;
      impl.NotifyAll(OnListening);
    } else if status == "RECOGNIZING" {
      impl.session := Recognizing;
    }
  }

  /** `startRecognition` called from a handler. */
  method SendStart(impl: Impl) returns (ok: bool, thrown: Option<RE.RecognitionException>)
    requires impl.lm.Some?
    modifies impl`outbox
    ensures OutcomeOf(impl.Snapshot(), ok, thrown) == StartOutcome(old(impl.Snapshot()))
  {
    thrown := SendMessages.StartRecognition(impl);
    ok := true;
  }

  method CreateSessionResponse(impl: Impl, f: Frame) returns (ok: bool, thrown: Option<RE.RecognitionException>)
    requires Succeeded(f) && impl.config.None? ==> impl.lm.Some?
    modifies impl`outbox, impl`events, impl`pending
    ensures OutcomeOf(impl.Snapshot(), ok, thrown) == CreateSessionEffect(old(impl.Snapshot()), f)
  {
    if HeaderOf(f, "Result") != "SUCCESS" {
      ReportError(impl, f);
      return false, None;
    }
    if impl.config.None? {
      ok, thrown := SendStart(impl);
      return;
    }
    SendMessages.SetParameters(impl);
    return true, None;
  }

  method SetParametersResponse(impl: Impl, f: Frame) returns (ok: bool, thrown: Option<RE.RecognitionException>)
    requires Succeeded(f) ==> impl.lm.Some?
    modifies impl`outbox, impl`events, impl`pending
    ensures OutcomeOf(impl.Snapshot(), ok, thrown) == SetParametersEffect(old(impl.Snapshot()), f)
  {
    if HeaderOf(f, "Result") != "SUCCESS" {
      ReportError(impl, f);
      return false, None;
    }
    ok, thrown := SendStart(impl);
  }

  method StartRecogResponse(impl: Impl, f: Frame) returns (ok: bool)
    modifies impl`events, impl`pending, impl`streaming
    ensures Returned(impl.Snapshot(), ok) == StartRecogEffect(old(impl.Snapshot()), f)
  {
    if HeaderOf(f, "Result") != "SUCCESS" {
      ReportError(impl, f);
      return false;
    }
    if !impl.audio {
      return false;
    }
    impl.streaming := true;
    return true;
  }

  method CancelRecogResponse(impl: Impl, f: Frame) returns (ok: bool)
    modifies impl`events, impl`pending, impl`results, impl`recognizing
    ensures Returned(impl.Snapshot(), ok) == CancelRecogEffect(old(impl.Snapshot()), f)
  {
    var header := HeaderOf(f, "Result");
    if header != "SUCCESS" && header != "INVALID_ACTION" {
      ReportError(impl, f);
      return false;
    }
    impl.results := [];
    impl.recognizing := false;
    return true;
  }

  /** `ASRProcessResponse::handle` on a RESPONSE frame. */
  method HandleResponse(impl: Impl, f: Frame) returns (ok: bool, thrown: Option<RE.RecognitionException>)
    requires ResponseDefined(impl.Snapshot(), f)
    modifies impl
    ensures OutcomeOf(impl.Snapshot(), ok, thrown) == ResponseEffect(old(impl.Snapshot()), f)
  {
    UpdateSession(impl, SessionStatusHeader);
    var value := HeaderOf(f, "Method");
    thrown := None;
    if value == "CREATE_SESSION" {
      ok, thrown := CreateSessionResponse(impl, f);
    } else if value == "SET_PARAMETERS" {
      ok, thrown := SetParametersResponse(impl, f);
    } else if value == "START_RECOGNITION" {
      ok := StartRecogResponse(impl, f);
    } else if value == "CANCEL_RECOGNITION" {
      ok := CancelRecogResponse(impl, f);
    } else {
      ok := true;
    }
  }

  /** `ASRProcessStartSpeech::handle` and `ASRProcessEndSpeech::handle` on
      their frames. */
  method HandleSpeech(impl: Impl, e: Event) returns (ok: bool)
    modifies impl`events
    ensures Returned(impl.Snapshot(), ok) == NotifyEffect(old(impl.Snapshot()), e)
  {
    impl.NotifyAll(e);
    return true;
  }

  /** The handler `h`, on a frame it takes. */
  method HandleWith(h: Handler, impl: Impl, f: Frame, body: J.Json) returns (ok: bool, thrown: Option<RE.RecognitionException>)
    requires HandlerDefined(h, impl.Snapshot(), f, body)
    modifies impl
    ensures OutcomeOf(impl.Snapshot(), ok, thrown) == HandlerEffect(h, old(impl.Snapshot()), f, body)
  {
    thrown := None;
    match h
    case ResponseHandler =>
      ok, thrown := HandleResponse(impl, f);
    case ResultHandler =>
      ok := ProcessResult(impl, f, body);
    case StartSpeechHandler =>
      ok := HandleSpeech(impl, OnSpeechStart(0));
    case EndSpeechHandler =>
      ok := HandleSpeech(impl, OnSpeechStop(0));
  }

  /** An `ASRProcessMsg` link: its own handler and the handlers linked after
      it, in order. */
  class ProcessMsg {
    const kind: Handler
    var next: seq<Handler>

    function Chain(): seq<Handler>
      reads this
    {
      [kind] + next
    }

    constructor (kind: Handler)
      ensures this.kind == kind && next == []
    {
      this.kind := kind;
      next := [];
    }

    /** `setNext`: `h` becomes the only handler after this one. */
    method SetNext(h: Handler)
      modifies this
      ensures next == [h]
    {
      next := [h];
    }

    /** `add`: `h` goes to the end of the chain. */
    method Add(h: Handler)
      modifies this
      ensures next == old(next) + [h]
    {
      next := next + [h];
    }

    /** `handle`: each link passes a frame it does not answer to the next;
        past the last link the answer is false. */
    method Handle(impl: Impl, f: Frame, body: J.Json) returns (ok: bool, thrown: Option<RE.RecognitionException>)
      requires RouteDefined(Chain(), impl.Snapshot(), f, body)
      modifies impl
      ensures OutcomeOf(impl.Snapshot(), ok, thrown) == Route(old(Chain()), old(impl.Snapshot()), f, body)
    {
      var chain := Chain();
      var cmd := Command(f.startLine);
      var i := 0;
      while i < |chain| && MethodName(HandledCommand(chain[i])) != cmd
        invariant 0 <= i <= |chain|
        invariant Taker(chain[i..], cmd) == Taker(chain, cmd)
      {
        assert chain[i..][1..] == chain[i + 1..];
        i := i + 1;
      }
      if i == |chain| {
        return false, None;
      }
      ok, thrown := HandleWith(chain[i], impl, f, body);
    }
  }

  /** `on_message` once the frame is read: the chain is built in the
      installed order and given the frame. */
  method OnMessage(impl: Impl, f: Frame, body: J.Json) returns (ok: bool, thrown: Option<RE.RecognitionException>)
    requires RouteDefined(Installed, impl.Snapshot(), f, body)
    modifies impl
    ensures OutcomeOf(impl.Snapshot(), ok, thrown) == Route(Installed, old(impl.Snapshot()), f, body)
  {
    var root := new ProcessMsg(ResponseHandler);
    root.Add(ResultHandler);
    root.Add(StartSpeechHandler);
    root.Add(EndSpeechHandler);
    assert root.Chain() == Installed;
    ok, thrown := root.Handle(impl, f, body);
  }
}
