// `SpeechRecognizer`, the client's front-end: its `Properties` (what the
// builder collected), the connection it opens, `recognize`,
// `waitRecognitionResult`, `cancelRecognition`, `close` and `isOpen`.
//
// The recognizer owns an `Impl` (RecognizerState) and replaces it with a
// fresh one on `resetImpl`.  Opening a connection is an input: whether the
// server was reached and accepted the handshake is a `Connection` value.
// The condition-variable wait of `waitRecognitionResult` is modelled on the
// state it finds: everything the server sent before the deadline has
// already been handled, so the wait succeeds exactly when its predicate
// holds on that state.

module SpeechRecognizers {
  import opened Common
  import opened MessageUtils
  import opened RecognitionResults
  import opened RecognizerState
  import SendMessages
  import RE = RecognitionErrors
  import RC = RecognitionConfigs
  import AM = AsrMessage
  import PM = ProcessMessages

  /** `SpeechRecognizer::AudioEncoding`. */
  datatype AudioEncoding = Linear16 | ALaw | ULaw

  /** The fields of `SpeechRecognizer::Properties`, as one value.  The
      sample rate and the encoding start uninitialised (`None`). */
  datatype PropertyValues = PropertyValues(
    url: string,
    user: string,
    passwd: string,
    userAgent: string,
    sampleRate: Option<UInt32>,
    encoding: Option<AudioEncoding>,
    config: Option<RC.Properties>,
    listeners: nat,
    maxWaitSeconds: UInt32,
    connectOnRecognize: bool,
    autoClose: bool,
    logPath: string)

  /** A fresh `Properties`: no URL or credentials, no configuration, no
      listeners, a 30-second wait, connect at construction, keep the
      connection, log to "log.txt". */
  const DefaultProperties: PropertyValues :=
    PropertyValues([], [], [], [], None, None, None, 0, 30, false, false, "log.txt")

  class Properties {
    var url: string
    var user: string
    var passwd: string
    var userAgent: string
    var sampleRate: Option<UInt32>
    var encoding: Option<AudioEncoding>
    var config: Option<RC.Properties>
    var listeners: nat
    var maxWaitSeconds: UInt32
    var connectOnRecognize: bool
    var autoClose: bool
    var logPath: string

    function Values(): PropertyValues
      reads this
    {
      PropertyValues(url, user, passwd, userAgent, sampleRate, encoding, config,
                     listeners, maxWaitSeconds, connectOnRecognize, autoClose, logPath)
    }

    constructor ()
      ensures Values() == DefaultProperties
    {
      url, user, passwd, userAgent := [], [], [], [];
      sampleRate, encoding, config, listeners := None, None, None, 0;
      maxWaitSeconds, connectOnRecognize, autoClose, logPath := 30, false, false, "log.txt";
    }
  }

  // ---------------------------------------------------------------------
  // Opening and closing the connection (`Impl::open`, `Impl::close`).

  /** How a connection attempt ends: the server accepted it; the connection
      was created but the handshake failed or timed out; or the URL could
      not be turned into a connection at all. */
  datatype Connection = Connected | Refused | Unreachable

  function ConnectionFailureMessage(url: string): string {
    "Failure on connecting to server " + url
  }

  /** Where the transport's handlers leave `status_` after a connection
      attempt made while it is still `kConnecting`: the open handler sets
      `kOpen`, the fail handler `kFailed`, and a URL that gives no
      connection leaves it untouched. */
  function Attempt(c: Connection): WsStatus {
    match c
    case Connected => Opened
    case Refused => Failed
    case Unreachable => Connecting
  }

  /** Whether `open` on a closed `Impl` succeeds: the status must read
      `kOpen` once the wait for it to leave `kConnecting` is over. */
  predicate ConnectsNow(status: WsStatus, c: Connection) {
    status == Opened || (status == Connecting && c == Connected)
  }

  /** `Impl::open`: nothing when already open.  `WsClient::init` sets the
      connection flag as soon as it has issued the connect (an unreachable
      URL returns before that); the wait then ends once the status has left
      `kConnecting`, which a status set by an earlier connection already
      has.  Unless the status reads `kOpen`, every listener's `onError` is
      called with CONNECTION_FAILURE and it is raised. */
  function OpenEffect(s: State, url: string, c: Connection): (r: Outcome)
    ensures r.state.(open := s.open, status := s.status, events := s.events) == s
  {
    if s.open then Returned(s, true)
    else
      var status := if s.status == Connecting then Attempt(c) else s.status;
      var t := s.(open := c != Unreachable, status := status);
      if status == Opened then Returned(t.(open := true), true)
      else
        var e := RE.RecognitionError(RE.ConnectionFailure, ConnectionFailureMessage(url));
        Raised(t.(events := t.events + Broadcast(t.listeners, OnError(e))),
               RE.NewException(RE.ConnectionFailure, ConnectionFailureMessage(url)))
  }

  /** What opening promises: a connection already open is left alone; a
      closed one opens exactly when `ConnectsNow` holds, which for a fresh
      `Impl` means the server accepted it and for one whose connection was
      closed or failed never happens.  A failed open raises
      CONNECTION_FAILURE with the URL in the message, after exactly one
      `onError` per listener, and leaves the flag set only if the transport
      got as far as connecting. */
  lemma OpenSpec(s: State, url: string, c: Connection)
    ensures s.open ==> OpenEffect(s, url, c) == Returned(s, true)
    ensures !s.open ==> (OpenEffect(s, url, c).Returned? <==> ConnectsNow(s.status, c))
    ensures !s.open && s.status == Connecting && c == Connected ==>
              OpenEffect(s, url, c) == Returned(s.(open := true, status := Opened), true)
    ensures !s.open && (s.status == Closed || s.status == Failed) ==>
              OpenEffect(s, url, c).Raised? && OpenEffect(s, url, c).state.status == s.status
    ensures !s.open && !ConnectsNow(s.status, c) ==>
              var r := OpenEffect(s, url, c);
              && r.Raised?
              && r.exception.GetCode() == RE.ConnectionFailure
              && r.exception.error.message == ConnectionFailureMessage(url)
              && r.state.open == (c != Unreachable)
              && |r.state.events| == |s.events| + s.listeners
              && r.state.events[..|s.events|] == s.events
              && (forall i :: |s.events| <= i < |r.state.events| ==>
                    r.state.events[i] == Notice(i - |s.events|, OnError(r.exception.error)))
  {
    if !s.open && !ConnectsNow(s.status, c) {
      var r := OpenEffect(s, url, c);
      var e := RE.RecognitionError(RE.ConnectionFailure, ConnectionFailureMessage(url));
      assert r.state.events == s.events + Broadcast(s.listeners, OnError(e));
      assert r.exception.error == e;
    }
  }

  method Open(impl: Impl, url: string, c: Connection) returns (thrown: Option<RE.RecognitionException>)
    modifies impl`open, impl`status, impl`events
    ensures PM.OutcomeOf(impl.Snapshot(), true, thrown) == OpenEffect(old(impl.Snapshot()), url, c)
  {
    if impl.open {
      return None;
    }
    var status := if impl.status == Connecting then Attempt(c) else impl.status;
    impl.status, impl.open := status, c != Unreachable;
    if status != Opened {
      var message := ConnectionFailureMessage(url);
      impl.NotifyAll(OnError(RE.RecognitionError(RE.ConnectionFailure, message)));
      return Some(RE.NewException(RE.ConnectionFailure, message));
    }
    impl.open := true;
    return None;
  }

  /** `Impl::close`: the audio thread is stopped, then the connection; the
      close handler marks a connection that was open as closed.  The
      status never goes back to `kConnecting`. */
  function CloseEffect(s: State): (t: State)
    ensures !t.open && !t.streaming && t.status != Opened
    ensures s.status != Connecting ==> t.status != Connecting
    ensures t.(open := s.open, streaming := s.streaming, status := s.status) == s
  {
    s.(streaming := false, open := false, status := if s.status == Opened then Closed else s.status)
  }

  method CloseImpl(impl: Impl)
    modifies impl`streaming, impl`open, impl`status
    ensures impl.Snapshot() == CloseEffect(old(impl.Snapshot()))
  {
    impl.TerminateSendMessageThread();
    impl.open := false;
    if impl.status == Opened {
      impl.status := Closed;
    }
  }

  /** An `Impl` whose connection was once attempted cannot connect again
      after it has been closed: every later `open` raises, whatever the
      server does. */
  lemma NoReopenAfterClose(s: State, url: string, c: Connection)
    requires s.status != Connecting
    ensures OpenEffect(CloseEffect(s), url, c).Raised?
    ensures OpenEffect(CloseEffect(s), url, c).exception.GetCode() == RE.ConnectionFailure
  {
    OpenSpec(CloseEffect(s), url, c);
  }

  // ---------------------------------------------------------------------
  // `resetImpl`.

  /** A fresh `Impl` that has taken over the configuration and the
      listeners: not recognizing, never connected, no session, nothing sent,
      received or reported, and no audio source or language model. */
  function ReplacedState(p: PropertyValues): (s: State)
    ensures s.config == p.config && s.listeners == p.listeners
    ensures !s.recognizing && !s.open && s.status == Connecting && s.session == NoSession
    ensures !s.audio && s.lm.None? && s.results == [] && s.pending.None?
    ensures s.outbox == [] && s.events == [] && !s.streaming
  {
    Initial.(config := p.config, listeners := p.listeners)
  }

  /** The properties once the configuration and the listeners have moved
      into the `Impl`: both are gone from them. */
  function Moved(p: PropertyValues): (q: PropertyValues)
    ensures q.config.None? && q.listeners == 0
    ensures q.(config := p.config, listeners := p.listeners) == p
  {
    p.(config := None, listeners := 0)
  }

  /** What `resetImpl` leaves behind: the new `Impl`'s state, the properties,
      and the exception that escapes, if any. */
  datatype Reset = Reset(state: State, properties: PropertyValues, thrown: Option<RE.RecognitionException>)

  /** `resetImpl`: a fresh `Impl` takes the configuration and the listeners;
      unless connecting is deferred to `recognize` it opens the connection
      at once, and after a successful open `autoClose` forces deferred
      connection from then on. */
  function ResetEffect(p: PropertyValues, c: Connection): Reset {
    var s := ReplacedState(p);
    if p.connectOnRecognize then Reset(s, Moved(p), None)
    else match OpenEffect(s, p.url, c)
      case Returned(t, _) => Reset(t, Moved(p).(connectOnRecognize := p.autoClose), None)
      case Raised(t, e) => Reset(t, Moved(p), Some(e))
  }

  /** The invariant of a built recognizer: closing automatically implies
      connecting on `recognize` (the source forces it, as the opposite
      combination has no defined behaviour). */
  predicate AutoCloseDefersConnect(p: PropertyValues) {
    p.autoClose ==> p.connectOnRecognize
  }

  /** A `resetImpl` that does not throw establishes the invariant, and one
      that finds it already holding keeps it and opens nothing. */
  lemma ResetEstablishesInvariant(p: PropertyValues, c: Connection)
    ensures ResetEffect(p, c).thrown.None? ==> AutoCloseDefersConnect(ResetEffect(p, c).properties)
    ensures AutoCloseDefersConnect(p) && p.autoClose ==>
              ResetEffect(p, c) == Reset(ReplacedState(p), Moved(p), None)
  {
  }

  /** A reset opens the connection exactly when connecting is not deferred;
      a successful one leaves the new `Impl` open, a failed one raises
      CONNECTION_FAILURE.  Either way the configuration and the listeners
      now live in the new `Impl` only. */
  lemma ResetOpens(p: PropertyValues, c: Connection)
    ensures var r := ResetEffect(p, c);
            && r.state.config == p.config && r.state.listeners == p.listeners
            && r.properties.config.None? && r.properties.listeners == 0
            && (p.connectOnRecognize ==> !r.state.open && r.thrown.None?)
            && (!p.connectOnRecognize ==>
                  (r.thrown.None? <==> c == Connected)
                  && (r.thrown.None? ==> r.state.open)
                  && (r.thrown.Some? ==> r.thrown.value.GetCode() == RE.ConnectionFailure))
  {
    OpenSpec(ReplacedState(p), p.url, c);
  }

  /** A second reset, such as the one after an automatically closed
      recognition, builds an `Impl` with no configuration and no listeners:
      both moved into the first `Impl` and are not given back. */
  lemma SecondResetLosesConfiguration(p: PropertyValues, c: Connection, d: Connection)
    ensures var q := ResetEffect(p, c).properties;
            ResetEffect(q, d).state.config.None? && ResetEffect(q, d).state.listeners == 0
  {
    var q := ResetEffect(p, c).properties;
    ResetOpens(q, d);
  }

  // ---------------------------------------------------------------------
  // `recognize`.

  const ActiveRecognitionMessage: string :=
    "There is a recognition already running in this recognizier!"

  /** The fields `recognize` sets before anything is sent: recognizing, no
      pending error, no results, the audio source and the language model. */
  function BeginEffect(s: State, audio: bool, lm: LanguageModel): (t: State)
    ensures t.recognizing && t.pending.None? && t.results == [] && t.audio == audio && t.lm == Some(lm)
    ensures t.(recognizing := s.recognizing, pending := s.pending, results := s.results,
               audio := s.audio, lm := s.lm) == s
  {
    s.(recognizing := true, pending := None, results := [], audio := audio, lm := Some(lm))
  }

  /** The first message of a recognition: CREATE_SESSION when there is no
      session yet (its RESPONSE goes on with the rest), START_RECOGNITION
      otherwise. */
  function FirstRequest(s: State): Outcome
    requires s.lm.Some?
  {
    if s.session == NoSession then
      Returned(s.(outbox := s.outbox + [SendMessages.RequestText(Method.CreateSession, SendMessages.CreateSessionHeaders(), [])]), true)
    else PM.StartOutcome(s)
  }

  /** `recognize`: refused while a recognition runs; otherwise it resets the
      recognition fields, opens the connection if it is closed (an open
      failure escapes), and sends the first request. */
  function RecognizeEffect(s: State, audio: bool, lm: LanguageModel, url: string, c: Connection): Outcome {
    if s.recognizing then
      Raised(s, RE.NewException(RE.ActiveRecognition, ActiveRecognitionMessage))
    else match OpenEffect(BeginEffect(s, audio, lm), url, c)
      case Raised(t, e) => Raised(t, e)
      case Returned(t, _) => FirstRequest(t)
  }

  /** A recognition cannot be started over a running one: ACTIVE_RECOGNITION
      is raised and nothing changes. */
  lemma RecognizeWhileRecognizing(s: State, audio: bool, lm: LanguageModel, url: string, c: Connection)
    requires s.recognizing
    ensures var r := RecognizeEffect(s, audio, lm, url, c);
            r.Raised? && r.state == s && r.exception.GetCode() == RE.ActiveRecognition
  {
  }

  /** On an open connection with no running recognition, `recognize` marks
      the recognizer busy with fresh results, sends exactly one request,
      CREATE_SESSION iff there is no session yet, and changes no session,
      listener or connection state. */
  lemma RecognizeSends(s: State, audio: bool, lm: LanguageModel, url: string, c: Connection)
    requires !s.recognizing && s.open
    ensures var r := RecognizeEffect(s, audio, lm, url, c);
            && r.state.recognizing && r.state.results == [] && r.state.pending.None?
            && r.state.open && r.state.session == s.session && r.state.events == s.events
            && (s.session == NoSession ==>
                  r == Returned(r.state, true)
                  && r.state.outbox == s.outbox + [SendMessages.RequestText(Method.CreateSession, SendMessages.CreateSessionHeaders(), [])])
            && (s.session != NoSession && r.Returned? ==> |r.state.outbox| == |s.outbox| + 1)
            && (r.Raised? ==> r.state.outbox == s.outbox)
  {
    var b := BeginEffect(s, audio, lm);
    assert OpenEffect(b, url, c) == Returned(b, true);
  }

  /** On a closed connection that cannot be opened, `recognize` raises the
      connection failure and sends nothing; the recognizer is nevertheless
      left marked as recognizing. */
  lemma RecognizeUnconnected(s: State, audio: bool, lm: LanguageModel, url: string, c: Connection)
    requires !s.recognizing && !s.open && !ConnectsNow(s.status, c)
    ensures var r := RecognizeEffect(s, audio, lm, url, c);
            && r.Raised? && r.exception.GetCode() == RE.ConnectionFailure
            && r.state.outbox == s.outbox && r.state.recognizing
  {
    OpenSpec(BeginEffect(s, audio, lm), url, c);
  }

  // ---------------------------------------------------------------------
  // `waitRecognitionResult`.

  const TimeoutMessage: string := "Timeout on speech recog"

  /** The condition the wait is for: a result, an error, or the end of the
      recognition. */
  predicate Ready(s: State) {
    |s.results| > 0 || s.pending.Some? || !s.recognizing
  }

  /** What `waitRecognitionResult` leaves behind: the `Impl`'s state, whether
      the `Impl` is then replaced, and the results or the exception. */
  datatype Waited = Waited(state: State, reset: bool, answer: Result<seq<RecognitionResult>, RE.RecognitionException>)

  /** `waitRecognitionResult`.  Closed: hand over and clear the results, or
      rethrow the pending error.  Open: time out with FAILURE unless the
      state is ready; when ready, stop the audio thread, hand over and clear
      the results or rethrow the pending error, and replace the `Impl` when
      closing automatically.  (The closed branch's own automatic reset is
      guarded by the connection being open and so never happens.) */
  function WaitEffect(s: State, autoClose: bool): Waited {
    if !s.open then
      Waited(s.(results := []), false,
             if s.pending.Some? then Err(s.pending.value) else Ok(s.results))
    else if !Ready(s) then
      Waited(s, false, Err(RE.NewException(RE.Failure, TimeoutMessage)))
    else
      var t := s.(streaming := false, results := []);
      if s.pending.Some? then Waited(t, false, Err(s.pending.value))
      else Waited(t, autoClose && t.open, Ok(s.results))
  }

  /** The results are handed over exactly once: a successful wait returns
      every result held and leaves none; a failed one returns the pending
      error when there is one, and times out only on an open connection
      that is not ready.  The wait never ends a recognition itself. */
  lemma WaitTakesResults(s: State, autoClose: bool)
    ensures var w := WaitEffect(s, autoClose);
            && w.state.recognizing == s.recognizing
            && w.state.pending == s.pending
            && w.state.outbox == s.outbox && w.state.events == s.events
            && (w.answer.Ok? ==> w.answer.value == s.results && w.state.results == [])
            && (w.answer.Ok? <==> s.pending.None? && (!s.open || Ready(s)))
            && (w.answer.Err? && s.pending.Some? ==> w.answer.error == s.pending.value)
            && (w.answer.Err? && s.pending.None? ==>
                  w.answer.error == RE.NewException(RE.Failure, TimeoutMessage) && s.open && !Ready(s))
            && (w.reset <==> autoClose && s.open && w.answer.Ok?)
  {
  }

  /** Waiting again after a successful wait returns no results: either the
      same `Impl` has none left (its recognition over or its connection
      closed), or it was replaced by a fresh, closed one. */
  lemma WaitAgainEmpty(s: State, autoClose: bool, p: PropertyValues)
    requires WaitEffect(s, autoClose).answer.Ok?
    ensures var w := WaitEffect(s, autoClose);
            var next := if w.reset then ReplacedState(p) else w.state;
            (!next.recognizing || !next.open) ==> WaitEffect(next, autoClose).answer == Ok([])
  {
  }

  // ---------------------------------------------------------------------
  // `cancelRecognition`.

  /** The CANCEL_RECOGNITION request: a start line and no headers. */
  function CancelText(): string {
    SendMessages.RequestText(Method.CancelRecognition, [], [])
  }

  /** `cancelRecognition`: CANCEL_RECOGNITION is sent, the audio thread is
      stopped, and the connection is closed when closing automatically. */
  function CancelEffect(s: State, autoClose: bool): State {
    var t := s.(outbox := s.outbox + [CancelText()], streaming := false);
    if autoClose && t.open then CloseEffect(t) else t
  }

  /** Cancelling sends one CANCEL_RECOGNITION, always stops the audio thread,
      closes the connection iff closing automatically, and leaves the
      recognition flags, results and pending error as they were (the
      server's answer updates them). */
  lemma CancelSpec(s: State, autoClose: bool)
    ensures var t := CancelEffect(s, autoClose);
            && t.outbox == s.outbox + [CancelText()]
            && !t.streaming
            && t.open == (s.open && !autoClose)
            && t.status == (if autoClose && s.open && s.status == Opened then Closed else s.status)
            && t.(outbox := s.outbox, streaming := s.streaming, open := s.open, status := s.status) == s
  {
  }

  /** `cancelRecognition` closes the recognizer's own `Impl` without
      replacing it, so once an automatic close has shut a connection that
      was attempted, the next `recognize` cannot connect, even when the
      server would accept: it raises CONNECTION_FAILURE after the
      CANCEL_RECOGNITION and sends nothing more. */
  lemma RecognizeAfterAutoCloseFails(s: State, audio: bool, lm: LanguageModel, url: string, c: Connection)
    requires s.open && s.status != Connecting && !s.recognizing
    ensures var r := RecognizeEffect(CancelEffect(s, true), audio, lm, url, c);
            && r.Raised? && r.exception.GetCode() == RE.ConnectionFailure
            && r.state.outbox == s.outbox + [CancelText()]
  {
    var t := CancelEffect(s, true);
    RecognizeUnconnected(t, audio, lm, url, c);
  }

  // ---------------------------------------------------------------------
  // The recognizer.

  class SpeechRecognizer {
    var impl: Impl
    const properties: Properties

    /** The invariant every built recognizer keeps. */
    predicate Valid()
      reads this, properties
    {
      AutoCloseDefersConnect(properties.Values())
    }

    /** The members the constructor initialises before it calls `resetImpl`
        (see `New`). */
    constructor Create(p: Properties)
      ensures properties == p && fresh(impl)
    {
      properties := p;
      impl := new Impl();
    }

    /** The first half of `resetImpl`: a fresh `Impl` takes over the
        configuration and the listeners. */
    method ReplaceImpl()
      modifies this, properties
      ensures fresh(impl)
      ensures impl.Snapshot() == ReplacedState(old(properties.Values()))
      ensures properties.Values() == Moved(old(properties.Values()))
    {
      impl := new Impl();
      impl.config := properties.config;
      properties.config := None;
      if properties.listeners != 0 {
        impl.listeners := properties.listeners;
        properties.listeners := 0;
      }
    }

    /** `resetImpl`. */
    method ResetImpl(c: Connection) returns (thrown: Option<RE.RecognitionException>)
      modifies this, properties
      ensures fresh(impl)
      ensures var r := ResetEffect(old(properties.Values()), c);
              impl.Snapshot() == r.state && properties.Values() == r.properties && thrown == r.thrown
    {
      ghost var p := properties.Values();
      ReplaceImpl();
      if !properties.connectOnRecognize {
        thrown := Open(impl, properties.url, c);
        if thrown.None? && properties.autoClose {
          properties.connectOnRecognize := true;
        }
      } else {
        thrown := None;
      }
    }

    /** `close`: nothing when closed. */
    method Close()
      modifies impl
      ensures old(impl.open) ==> impl.Snapshot() == CloseEffect(old(impl.Snapshot()))
      ensures !old(impl.open) ==> impl.Snapshot() == old(impl.Snapshot())
      ensures !IsOpen()
    {
      if !impl.open {
        return;
      }
      CloseImpl(impl);
    }

    /** `cancelRecognition`. */
    method CancelRecognition()
      modifies impl
      ensures impl.Snapshot() == CancelEffect(old(impl.Snapshot()), properties.autoClose)
    {
      var request := new AM.AsrMessage.Request(Method.CancelRecognition);
      var raw := request.Raw();
      impl.SendMessage(raw);
      if impl.streaming {
        impl.streaming := false;
      }
      if properties.autoClose && impl.open {
        CloseImpl(impl);
      }
    }

    /** `recognize`, given whether an audio source is passed and how a
        connection attempt would end. */
    method Recognize(audio: bool, lm: LanguageModel, c: Connection) returns (thrown: Option<RE.RecognitionException>)
      modifies impl
      ensures PM.OutcomeOf(impl.Snapshot(), true, thrown) ==
              RecognizeEffect(old(impl.Snapshot()), audio, lm, properties.url, c)
    {
      if impl.recognizing {
        return Some(RE.NewException(RE.ActiveRecognition, ActiveRecognitionMessage));
      }
      Begin(impl, audio, lm);
      if !impl.open {
        thrown := Open(impl, properties.url, c);
        if thrown.Some? {
          return;
        }
      }
      thrown := SendFirst(impl);
    }

    /** `waitRecognitionResult`.  When the `Impl` is replaced, the old one is
        abandoned in the state the wait left it in. */
    method WaitRecognitionResult() returns (results: seq<RecognitionResult>, thrown: Option<RE.RecognitionException>)
      requires Valid()
      modifies this, impl, properties
      ensures Valid()
      ensures var w := WaitEffect(old(impl.Snapshot()), old(properties.autoClose));
              && old(impl).Snapshot() == w.state
              && (w.answer.Err? ==> thrown == Some(w.answer.error))
              && (w.answer.Ok? ==> thrown == None && results == w.answer.value)
              && (w.reset ==> fresh(impl) && impl.Snapshot() == ReplacedState(old(properties.Values()))
                                && properties.Values() == Moved(old(properties.Values())))
              && (!w.reset ==> impl == old(impl) && properties.Values() == old(properties.Values()))
    {
      results := [];
      if !impl.open {
        results := impl.results;
        impl.results := [];
        if impl.pending.Some? {
          return [], Some(impl.pending.value);
        }
        return results, None;
      }
      if !(|impl.results| > 0 || impl.pending.Some? || !impl.recognizing) {
        return [], Some(RE.NewException(RE.Failure, TimeoutMessage));
      }
      impl.TerminateSendMessageThread();
      results := impl.results;
      impl.results := [];
      if impl.pending.Some? {
        return [], Some(impl.pending.value);
      }
      if properties.autoClose && impl.open {
        // `resetImpl`; connecting is deferred (Valid), so it opens nothing.
        ReplaceImpl();
      }
      thrown := None;
    }

    /** `isOpen`. */
    function IsOpen(): (b: bool)
      reads this, impl
      ensures b <==> impl.Snapshot().open
    {
      impl.open
    }
  }

  /** The fields `recognize` sets, on the `Impl`. */
  method Begin(impl: Impl, audio: bool, lm: LanguageModel)
    modifies impl`recognizing, impl`pending, impl`results, impl`audio, impl`lm
    ensures impl.Snapshot() == BeginEffect(old(impl.Snapshot()), audio, lm)
  {
    impl.recognizing := true;
    impl.pending := None;
    impl.results := [];
    impl.audio := audio;
    impl.lm := Some(lm);
  }

  /** The request that starts a recognition, on the `Impl`. */
  method SendFirst(impl: Impl) returns (thrown: Option<RE.RecognitionException>)
    requires impl.lm.Some?
    modifies impl`outbox
    ensures PM.OutcomeOf(impl.Snapshot(), true, thrown) == FirstRequest(old(impl.Snapshot()))
  {
    if impl.session == NoSession {
      SendMessages.CreateSession(impl);
      return None;
    }
    thrown := SendMessages.StartRecognition(impl);
  }

  /** `SpeechRecognizer(properties)`: the recognizer takes the properties and
      resets its `Impl`, which may open the connection; an exception from
      the constructor means no recognizer. */
  method New(p: Properties, c: Connection) returns (r: SpeechRecognizer?, thrown: Option<RE.RecognitionException>)
    modifies p
    ensures var reset := ResetEffect(old(p.Values()), c);
            && thrown == reset.thrown
            && (r == null <==> thrown.Some?)
            && p.Values() == reset.properties
            && (r != null ==> fresh(r) && fresh(r.impl) && r.properties == p
                                && r.impl.Snapshot() == reset.state && r.Valid())
  {
    var recognizer := new SpeechRecognizer.Create(p);
    thrown := recognizer.ResetImpl(c);
    ResetEstablishesInvariant(old(p.Values()), c);
    if thrown.Some? {
      return null, thrown;
    }
    return recognizer, None;
  }
}
