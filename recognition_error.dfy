// `RecognitionError` and `RecognitionException`: an error code with an
// optional free-text message, and the exception whose `what()` text is the
// error's string form.

module RecognitionErrors {

  datatype ErrorCode = Failure | SessionTimeout | ConnectionFailure | ActiveRecognition

  /** The name `getString` starts with: the code's enumerator, spelled out. */
  function CodeName(c: ErrorCode): (s: string)
    ensures |s| > 0
    ensures forall ch :: ch in s ==> 'A' <= ch <= 'Z' || ch == '_'
  {
    match c
    case Failure => "FAILURE"
    case SessionTimeout => "SESSION_TIMEOUT"
    case ConnectionFailure => "CONNECTION_FAILURE"
    case ActiveRecognition => "ACTIVE_RECOGNITION"
  }

  datatype RecognitionError = RecognitionError(code: ErrorCode, message: string)

  /** `getString`: the code's name, then `": "` and the message when there is
      a message. */
  function GetString(e: RecognitionError): (s: string)
    ensures CodeName(e.code) <= s
    ensures e.message == [] ==> s == CodeName(e.code)
    ensures e.message != [] ==> s[|CodeName(e.code)|..] == ": " + e.message
  {
    CodeName(e.code) + (if e.message != [] then ": " + e.message else [])
  }

  /** The text before the first ':' (all of it when there is none). */
  function BeforeColon(s: string): (r: string)
    ensures r <= s
    ensures ':' !in r
    ensures |r| < |s| ==> s[|r|] == ':'
  {
    if s == [] || s[0] == ':' then [] else [s[0]] + BeforeColon(s[1..])
  }

  lemma {:induction false} BeforeColonAppend(p: string, rest: string)
    requires ':' !in p
    requires rest == [] || rest[0] == ':'
    ensures BeforeColon(p + rest) == p
  {
    if p != [] {
      assert (p + rest)[1..] == p[1..] + rest;
      BeforeColonAppend(p[1..], rest);
    } else {
      assert p + rest == rest;
    }
  }

  lemma CodeNameInjective(c: ErrorCode, d: ErrorCode)
    requires CodeName(c) == CodeName(d)
    ensures c == d
  {
  }

  /** The string form tells errors apart: the code is the text before the
      first ':' and the message follows the `": "` after it. */
  lemma GetStringInjective(e: RecognitionError, f: RecognitionError)
    requires GetString(e) == GetString(f)
    ensures e == f
  {
    var s := GetString(e);
    var ne := CodeName(e.code);
    var nf := CodeName(f.code);
    assert ':' !in ne && ':' !in nf;
    BeforeColonAppend(ne, s[|ne|..]);
    assert ne + s[|ne|..] == s;
    BeforeColonAppend(nf, s[|nf|..]);
    assert nf + s[|nf|..] == s;
    CodeNameInjective(e.code, f.code);
    if e.message != [] {
      assert (": " + e.message)[2..] == e.message;
    }
    if f.message != [] {
      assert (": " + f.message)[2..] == f.message;
    }
  }

  /** `RecognitionException(code, message)`: carries the error and caches its
      string form as the `what()` text. */
  datatype RecognitionException = RecognitionException(error: RecognitionError, what: string)
  {
    function GetCode(): ErrorCode { error.code }
  }

  function NewException(code: ErrorCode, message: string): (x: RecognitionException)
    ensures x.GetCode() == code && x.error.message == message
    ensures x.what == GetString(RecognitionError(code, message))
  {
    var e := RecognitionError(code, message);
    RecognitionException(e, GetString(e))
  }
}
