// `SpeechRecognizer::Impl`: the state the message handlers and the
// recognizer front-end share.  Threads, sockets, the logger and the
// condition variable are not modelled; what remains is the flags, the
// pending results and error, the messages sent to the server (`outbox`) and
// the listener callbacks fired so far (`events`, in call order).
//
// Listeners are interchangeable callback objects, so the model keeps only
// how many there are; a callback is recorded as the listener's index and
// the event it received.  `State` is a snapshot of an `Impl`'s fields: the
// handlers' effects are stated as functions from one snapshot to the next.

module RecognizerState {
  import opened Common
  import opened HeaderMap
  import opened MessageUtils
  import opened RecognitionResults
  import RE = RecognitionErrors
  import RC = RecognitionConfigs

  /** `Impl::SessionStatus`: kNone, kIdle, kListening, kRecognizing. */
  datatype SessionStatus = NoSession | Idle | Listening | Recognizing

  /** A `LanguageModelList`: a URI and an inline grammar body. */
  datatype LanguageModel = LanguageModel(uri: string, grammarBody: string)

  /** The `RecognitionListener` callbacks. */
  datatype Event =
    | OnError(error: RE.RecognitionError)
    | OnRecognitionResult(result: RecognitionResult)
    | OnPartialRecognition(partial: PartialRecognition)
    | OnListening
    | OnSpeechStart(time: int)
    | OnSpeechStop(time: int)

  /** Listener number `listener` received `event`. */
  datatype Notice = Notice(listener: nat, event: Event)

  /** `Impl::Status`, the transport's view of the connection: set to
      `kOpen` by the open handler, `kFailed` by the fail handler and
      `kClose` by the close handler, and never set back to `kConnecting`. */
  datatype WsStatus = Connecting | Opened | Failed | Closed

  /** The fields of `Impl`: `recognizing_`, `open_`, `status_`, `session_status_`,
      whether `audio_src_` is set, `lm_`, `config_`, the listeners, `result_`,
      `eptr_`, the messages sent, the callbacks fired, and whether the
      audio-sending thread is joinable. */
  datatype State = State(
    recognizing: bool,
    open: bool,
    status: WsStatus,
    session: SessionStatus,
    audio: bool,
    lm: Option<LanguageModel>,
    config: Option<RC.Properties>,
    listeners: nat,
    results: seq<RecognitionResult>,
    pending: Option<RE.RecognitionException>,
    outbox: seq<string>,
    events: seq<Notice>,
    streaming: bool)

  /** How a handler ends: it returns a flag, or an exception escapes it. */
  datatype Outcome =
    | Returned(state: State, ok: bool)
    | Raised(state: State, exception: RE.RecognitionException)

  /** A freshly constructed `Impl`. */
  const Initial: State :=
    State(false, false, Connecting, NoSession, false, None, None, 0, [], None, [], [], false)

  /** One callback per listener, in listener order. */
  function Broadcast(n: nat, e: Event): (r: seq<Notice>)
    ensures |r| == n
    ensures forall i :: 0 <= i < n ==> r[i] == Notice(i, e)
  {
    if n == 0 then [] else Broadcast(n - 1, e) + [Notice(n - 1, e)]
  }

  /** The nested loop that re-delivers results: for each result in order,
      one `onRecognitionResult` per listener. */
  function DeliverAll(results: seq<RecognitionResult>, n: nat): (r: seq<Notice>)
    ensures |r| == |results| * n
    ensures forall j :: 0 <= j < |r| ==>
              r[j].listener < n && r[j].event.OnRecognitionResult? && r[j].event.result in results
    decreases |results|
  {
    if results == [] then []
    else Broadcast(n, OnRecognitionResult(results[0])) + DeliverAll(results[1..], n)
  }

  /** Re-delivering a list is re-delivering its parts one after the other:
      results come out in list order, each to every listener. */
  lemma {:induction false} DeliverAllAppend(a: seq<RecognitionResult>, b: seq<RecognitionResult>, n: nat)
    ensures DeliverAll(a + b, n) == DeliverAll(a, n) + DeliverAll(b, n)
    decreases |a|
  {
    if a != [] {
      assert (a + b)[1..] == a[1..] + b;
      DeliverAllAppend(a[1..], b, n);
    } else {
      assert a + b == b;
    }
  }

  /** One more result adds one callback per listener, with that result. */
  lemma DeliverAllSnoc(a: seq<RecognitionResult>, x: RecognitionResult, n: nat)
    ensures DeliverAll(a + [x], n) == DeliverAll(a, n) + Broadcast(n, OnRecognitionResult(x))
  {
    DeliverAllAppend(a, [x], n);
    assert DeliverAll([x], n) == Broadcast(n, OnRecognitionResult(x)) + DeliverAll([], n);
  }

  /** `recognitionError`: every listener's `onError` with the error, then the
      exception is kept as the pending error. */
  function ErrorEffect(s: State, code: RE.ErrorCode, message: string): (t: State)
    ensures t.pending == Some(RE.NewException(code, message))
    ensures t.events == s.events + Broadcast(s.listeners, OnError(RE.RecognitionError(code, message)))
    ensures t.(pending := s.pending, events := s.events) == s
  {
    s.(events := s.events + Broadcast(s.listeners, OnError(RE.RecognitionError(code, message))),
       pending := Some(RE.NewException(code, message)))
  }

  /** A received message as the handlers see it: the start line, the
      headers and the body. */
  datatype Frame = Frame(startLine: string, headers: Headers, extra: string)

  /** `get_header` on a received message. */
  function HeaderOf(f: Frame, key: string): (r: string)
    ensures key in ToMap(f.headers) ==> r == ToMap(f.headers)[key]
    ensures key !in ToMap(f.headers) ==> r == []
  {
    match Find(f.headers, key)
    case Some(v) => v
    case None => []
  }

  /** `split(start_line, ' ')[2]` exists. */
  predicate HasCommand(startLine: string) {
    |Split(startLine, ' ')| > 2
  }

  /** The third word of the start line: the command. */
  function Command(startLine: string): string
    requires HasCommand(startLine)
  {
    Split(startLine, ' ')[2]
  }

  lemma MethodNameHasNoSpace(m: Method)
    ensures Free(MethodName(m), ' ')
  {
    var s := MethodName(m);
    forall k | 0 <= k < |s|
      ensures s[k] != ' '
    {
      assert s[k] in s;
    }
  }

  lemma FreeOfAbsent(s: string, d: char)
    requires d !in s
    ensures Free(s, d)
  {
    forall k | 0 <= k < |s|
      ensures s[k] != d
    {
      assert s[k] in s;
    }
  }

  /** The start line of a received or sent message for method `m` has `m`'s
      name as its command. */
  lemma CommandOfFirstLine(m: Method)
    ensures HasCommand(AsrVersion + MsgSeparator + MethodName(m))
    ensures Command(AsrVersion + MsgSeparator + MethodName(m)) == MethodName(m)
  {
    var pieces := ["ASR", "2.4", MethodName(m)];
    MethodNameHasNoSpace(m);
    FreeOfAbsent("ASR", ' ');
    FreeOfAbsent("2.4", ' ');
    SplitJoin(pieces, ' ');
    var name := MethodName(m);
    assert pieces[1..] == ["2.4", name] && pieces[1..][1..] == [name];
    assert Join([name], ' ') == name;
    assert Join(["2.4", name], ' ') == "2.4" + [' '] + name;
    assert Join(pieces, ' ') == "ASR" + [' '] + ("2.4" + [' '] + name);
    assert "ASR" + [' '] + ("2.4" + [' '] + name) == AsrVersion + MsgSeparator + name;
  }

  class Impl {
    var recognizing: bool
    var open: bool
    var status: WsStatus
    var session: SessionStatus
    var audio: bool
    var lm: Option<LanguageModel>
    var config: Option<RC.Properties>
    var listeners: nat
    var results: seq<RecognitionResult>
    var pending: Option<RE.RecognitionException>
    var outbox: seq<string>
    var events: seq<Notice>
    var streaming: bool

    /** The fields, as one value. */
    function Snapshot(): State
      reads this
    {
      State(recognizing, open, status, session, audio, lm, config, listeners,
            results, pending, outbox, events, streaming)
    }

    /** `Impl()`: not recognizing, closed, no session, nothing set. */
    constructor ()
      ensures Snapshot() == Initial
    {
      recognizing, open, status, session, audio := false, false, Connecting, NoSession, false;
      lm, config, listeners, results := None, None, 0, [];
      pending, outbox, events, streaming := None, [], [], false;
    }

    /** The `for (listener : listener_)` loops: one callback per listener. */
    method NotifyAll(e: Event)
      modifies this`events
      ensures events == old(events) + Broadcast(listeners, e)
    {
      var i := 0;
      while i < listeners
        invariant 0 <= i <= listeners
        invariant events == old(events) + Broadcast(i, e)
      {
        events := events + [Notice(i, e)];
        i := i + 1;
      }
    }

    /** Every result held, re-delivered to every listener. */
    method DeliverResults()
      modifies this`events
      ensures events == old(events) + DeliverAll(results, listeners)
    {
      var k := 0;
      while k < |results|
        invariant 0 <= k <= |results|
        invariant events == old(events) + DeliverAll(results[..k], listeners)
      {
        assert results[..k + 1] == results[..k] + [results[k]];
        DeliverAllSnoc(results[..k], results[k], listeners);
        NotifyAll(OnRecognitionResult(results[k]));
        k := k + 1;
      }
      assert results[..k] == results;
    }

    /** `recognitionError`. */
    method RecognitionError(code: RE.ErrorCode, message: string)
      modifies this`events, this`pending
      ensures Snapshot() == ErrorEffect(old(Snapshot()), code, message)
    {
      NotifyAll(OnError(RE.RecognitionError(code, message)));
      pending := Some(RE.NewException(code, message));
    }

    /** `sendMessage`: the raw text goes to the server. */
    method SendMessage(raw: string)
      modifies this`outbox
      ensures outbox == old(outbox) + [raw]
    {
      outbox := outbox + [raw];
    }

    /** `terminateSendMessageThread`: the audio thread, if any, is stopped and
        joined; the terminate flag ends false, as it started. */
    method TerminateSendMessageThread()
      modifies this`streaming
      ensures !streaming
    {
      streaming := false;
    }
  }
}
