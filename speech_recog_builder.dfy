// `SpeechRecognizer::Builder`: collects the `Properties` one setter at a
// time, checks the server URL's scheme, and hands the properties to a new
// recognizer on `build`.  The builder's own `Properties` is gone after
// `build`; calling a setter then dereferences a null pointer, hence the
// setters' precondition.

module SpeechRecognizerBuilders {
  import opened Common
  import opened SpeechRecognizers
  import RE = RecognitionErrors
  import RC = RecognitionConfigs

  /** The standard exceptions `serverUrl` throws. */
  datatype UrlError = LogicError(what: string) | InvalidArgument(what: string)

  /** `serverUrl`'s check: an empty URL is a logic error; one that does not
      start with the WebSocket scheme "ws://" or "wss://" is an invalid
      argument. */
  function CheckUrl(url: string): (r: Option<UrlError>)
    ensures r.None? <==> url != [] && ("ws://" <= url || "wss://" <= url)
    ensures url == [] ==> r == Some(LogicError("Empty url"))
    ensures url != [] && r.Some? ==> r == Some(InvalidArgument("invalid url"))
  {
    if url == [] then Some(LogicError("Empty url"))
    else if !("ws://" <= url || "wss://" <= url) then Some(InvalidArgument("invalid url"))
    else None
  }

  /** Only the scheme is checked: any host (even none) after it is accepted,
      and a URL of another scheme, or one with the scheme anywhere but at
      the start, is refused. */
  lemma CheckUrlScheme(rest: string)
    ensures CheckUrl("ws://" + rest).None? && CheckUrl("wss://" + rest).None?
    ensures CheckUrl("http://" + rest) == Some(InvalidArgument("invalid url"))
    ensures CheckUrl(" ws://" + rest) == Some(InvalidArgument("invalid url"))
  {
    assert "ws://" <= "ws://" + rest;
    assert "wss://" <= "wss://" + rest;
    var h := "http://" + rest;
    assert h[1] == 't';
    var s := " ws://" + rest;
    assert s[0] == ' ';
  }

  class Builder {
    var properties: Properties?

    /** `Builder()`: default properties. */
    constructor ()
      ensures properties != null && fresh(properties)
      ensures properties.Values() == DefaultProperties
    {
      properties := new Properties();
    }

    /** `serverUrl`: the URL is kept only when it passes the check. */
    method ServerUrl(url: string) returns (error: Option<UrlError>)
      requires properties != null
      modifies properties
      ensures error == CheckUrl(url)
      ensures error.None? ==> properties.Values() == old(properties.Values()).(url := url)
      ensures error.Some? ==> properties.Values() == old(properties.Values())
    {
      error := CheckUrl(url);
      if error.Some? {
        return;
      }
      properties.url := url;
    }

    method Credentials(user: string, passwd: string)
      requires properties != null
      modifies properties
      ensures properties.Values() == old(properties.Values()).(user := user, passwd := passwd)
    {
      properties.user := user;
      properties.passwd := passwd;
    }

    /** `recogConfig`: the configuration is moved in; an absent one clears it. */
    method RecogConfig(config: Option<RC.Properties>)
      requires properties != null
      modifies properties
      ensures properties.Values() == old(properties.Values()).(config := config)
    {
      properties.config := config;
    }

    method UserAgent(value: string)
      requires properties != null
      modifies properties
      ensures properties.Values() == old(properties.Values()).(userAgent := value)
    {
      properties.userAgent := value;
    }

    /** `addListener`: one more listener, after the others. */
    method AddListener()
      requires properties != null
      modifies properties
      ensures properties.Values() == old(properties.Values()).(listeners := old(properties.listeners) + 1)
    {
      properties.listeners := properties.listeners + 1;
    }

    method AudioSampleRate(value: UInt32)
      requires properties != null
      modifies properties
      ensures properties.Values() == old(properties.Values()).(sampleRate := Some(value))
    {
      properties.sampleRate := Some(value);
    }

    method AudioEncoding(value: SpeechRecognizers.AudioEncoding)
      requires properties != null
      modifies properties
      ensures properties.Values() == old(properties.Values()).(encoding := Some(value))
    {
      properties.encoding := Some(value);
    }

    method MaxWaitSeconds(value: UInt32)
      requires properties != null
      modifies properties
      ensures properties.Values() == old(properties.Values()).(maxWaitSeconds := value)
    {
      properties.maxWaitSeconds := value;
    }

    method ConnectOnRecognize(value: bool)
      requires properties != null
      modifies properties
      ensures properties.Values() == old(properties.Values()).(connectOnRecognize := value)
    {
      properties.connectOnRecognize := value;
    }

    method AutoClose(value: bool)
      requires properties != null
      modifies properties
      ensures properties.Values() == old(properties.Values()).(autoClose := value)
    {
      properties.autoClose := value;
    }

    method LogPath(value: string)
      requires properties != null
      modifies properties
      ensures properties.Values() == old(properties.Values()).(logPath := value)
    {
      properties.logPath := value;
    }

    /** `build`: the properties move into a new recognizer, whose constructor
        resets its `Impl` (and so may open the connection and throw).  The
        builder has no properties afterwards, whatever happens. */
    method Build(c: Connection) returns (r: SpeechRecognizer?, thrown: Option<RE.RecognitionException>)
      requires properties != null
      modifies this, properties
      ensures properties == null
      ensures var reset := ResetEffect(old(properties.Values()), c);
              && thrown == reset.thrown
              && (r == null <==> thrown.Some?)
              && (r != null ==> fresh(r) && r.properties == old(properties) && r.Valid()
                                  && r.impl.Snapshot() == reset.state
                                  && r.properties.Values() == reset.properties)
    {
      var p := properties;
      properties := null;
      r, thrown := New(p, c);
    }
  }

  /** A recognizer built with default properties and a server URL connects at
      once; it then holds no configuration and no listeners, and is open iff
      the server accepted the connection, and closing automatically is off. */
  lemma DefaultBuildConnects(url: string, c: Connection)
    ensures var r := ResetEffect(DefaultProperties.(url := url), c);
            && r.state.config.None? && r.state.listeners == 0
            && (r.thrown.None? <==> c == Connected)
            && (r.thrown.None? ==> r.state.open && !r.properties.connectOnRecognize)
  {
    ResetOpens(DefaultProperties.(url := url), c);
  }
}
