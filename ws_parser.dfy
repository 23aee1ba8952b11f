// The recursive-descent frame parser `cpqd::WsParser`.  Grammar of a line:
//
//   Stm     : CRLF | Expr CRLF
//   Expr    : CmdExpr | KeyExpr
//   CmdExpr : ASR_TITLE ID ID
//   KeyExpr : ID ':' ID
//
// The functions StmF, ExprF, CmdExprF and KeyExprF give the outcome of each
// rule on a frame and a token stream; the class WsParser runs the same rules
// as methods that update its fields.  A grammar error is a `cpqd::Exception`:
// the line loop catches it and stops, keeping what the line had already
// stored.  A `Content-Length` that std::stoi rejects raises a library
// exception that nothing catches, so no parser object is built.

module WsParser {
  import opened Common
  import opened HeaderMap
  import MessageUtils
  import opened WsScanner

  const ContentLength: string := "Content-Length"

  /** The fields of a parser that the grammar rules write. */
  datatype Frame = Frame(version: string, command: string, props: Headers,
                         hasBody: bool, sizeBody: int)

  const EmptyFrame: Frame := Frame("", "", [], false, 0)

  /** Outcome of a grammar rule: it completed, it raised a parser error
      (the frame keeps what was stored before the error), or std::stoi threw. */
  datatype Step =
    | Done(frame: Frame, ts: ScanState)
    | Stopped(frame: Frame)
    | Escaped

  /** `WsParser::CmdExpr`: ASR_TITLE ID ID; the version is stored before the
      command is read. */
  function CmdExprF(f: Frame, ts: ScanState): Step {
    match GetToken(ts)
    case None => Stopped(f)
    case Some(a) =>
      if a.tok.kind != AsrTitle then Stopped(f)
      else match GetToken(a.ts)
        case None => Stopped(f)
        case Some(b) =>
          if b.tok.kind != Id then Stopped(f)
          else
            var f1 := f.(version := b.tok.content);
            match GetToken(b.ts)
            case None => Stopped(f1)
            case Some(c) =>
              if c.tok.kind != Id then Stopped(f1)
              else Done(f1.(command := c.tok.content), c.ts)
  }

  /** `WsParser::KeyExpr`: ID ':' (ID | CRLF).  A `Content-Length` header
      announces a body; the pair is inserted, so an earlier value of the same
      key wins. */
  function KeyExprF(f: Frame, ts: ScanState): Step {
    match GetToken(ts)
    case None => Stopped(f)
    case Some(a) =>
      if a.tok.kind != Id then Stopped(f)
      else match GetToken(a.ts)
        case None => Stopped(f)
        case Some(b) =>
          if b.tok.kind != SepOp then Stopped(f)
          else match GetToken(b.ts)
            case None => Stopped(f)
            case Some(c) =>
              if c.tok.kind != Id && c.tok.kind != Crlf then Stopped(f)
              else StoreHeader(f, a.tok.content, c.tok.content, c.ts)
  }

  /** The end of KeyExpr once the key and the value are read: the pair is
      inserted, and a `Content-Length` announces a body of the size
      std::stoi reads from its value (or lets std::stoi's exception escape).
      Every `Content-Length` sets the size, so the last one read decides it,
      while the map keeps the first. */
  function StoreHeader(f: Frame, key: string, value: string, ts: ScanState): (r: Step)
    ensures r.Done? ==> r.frame.props == Insert(f.props, key, value) && r.ts == ts
    ensures r.Done? && key == ContentLength ==>
              StdStoi(value).Some? && r.frame.(props := f.props) == f.(hasBody := true, sizeBody := StdStoi(value).value)
    ensures r.Done? && key != ContentLength ==> r.frame.(props := f.props) == f
    ensures r.Escaped? <==> key == ContentLength && StdStoi(value).None?
    ensures !r.Stopped?
  {
    if key == ContentLength then
      match StdStoi(value)
      case None => Escaped
      case Some(n) =>
        Done(f.(hasBody := true, sizeBody := n, props := Insert(f.props, key, value)), ts)
    else
      Done(f.(props := Insert(f.props, key, value)), ts)
  }

  /** A second `Content-Length` overrides the body size the first one set,
      while the header map goes on reading the first value. */
  lemma SecondContentLength(f: Frame, first: string, second: string, ts: ScanState)
    requires StdStoi(first).Some? && StdStoi(second).Some?
    ensures var f1 := StoreHeader(f, ContentLength, first, ts).frame;
            var f2 := StoreHeader(f1, ContentLength, second, ts).frame;
            && f2.hasBody && f2.sizeBody == StdStoi(second).value
            && (Find(f.props, ContentLength).None? ==> Find(f2.props, ContentLength) == Some(first))
            && f2.version == f.version && f2.command == f.command
  {
    var f1 := StoreHeader(f, ContentLength, first, ts).frame;
    var f2 := StoreHeader(f1, ContentLength, second, ts).frame;
    assert ContentLength in ToMap(f1.props);
  }

  /** `WsParser::Expr`: peeks at one token to choose the rule. */
  function ExprF(f: Frame, ts: ScanState): Step {
    match GetToken(ts)
    case None => Stopped(f)
    case Some(a) =>
      var t := UngetToken(a.ts);
      if a.tok.kind == AsrTitle then CmdExprF(f, t) else KeyExprF(f, t)
  }

  /** `WsParser::Stm`: a blank line, or an expression followed by the end of
      the line. */
  function StmF(f: Frame, ts: ScanState): Step {
    match GetToken(ts)
    case None => Stopped(f)
    case Some(a) =>
      var t := UngetToken(a.ts);
      if a.tok.kind == Crlf then Done(f, t)
      else match ExprF(f, t)
        case Done(f2, t2) =>
          (match GetToken(t2)
           case None => Stopped(f2)
           case Some(b) =>
             if b.tok.kind != Crlf && b.tok.kind != Eoft then Stopped(f2) else Done(f2, b.ts))
        case Stopped(f2) => Stopped(f2)
        case Escaped => Escaped
  }

  /** A line as the constructor hands it to the scanner: its last character
      (the `\r` of a CRLF) is replaced by a line end. */
  function LineText(line: string): (t: string)
    requires line != []
    ensures |t| == |line| && t[|t| - 1] == '\n' && t[..|t| - 1] == line[..|line| - 1]
  {
    line[..|line| - 1] + "\n"
  }

  /** Outcome of the header pass over the lines of the input. */
  datatype Headed = Finished(frame: Frame) | Aborted | Undefined

  /** The constructor's line loop.  Undefined stands for `pop_back` on an
      empty line, which the original does not guard. */
  function ParseLines(f: Frame, ts: ScanState, lines: seq<string>): Headed
    decreases |lines|
  {
    if lines == [] then Finished(f)
    else if lines[0] == "\r" && f.hasBody then Finished(f)
    else if lines[0] == [] then Undefined
    else match StmF(f, TokenizeLine(ts, LineText(lines[0])))
      case Done(f2, ts2) => ParseLines(f2, ts2, lines[1..])
      case Stopped(f2) => Finished(f2)
      case Escaped => Aborted
  }

  /** The header pass of `WsParser(const std::string&)`. */
  function HeaderPass(s: string): Headed {
    if s == [] then Finished(EmptyFrame)
    else ParseLines(EmptyFrame, InitialScan, MessageUtils.Split(s, '\n'))
  }

  /** Inputs on which the constructor has defined behaviour: no empty line
      is handed to `pop_back`, and an announced body length lies between 0 and
      the input length. */
  predicate DefinedInput(s: string) {
    match HeaderPass(s)
    case Undefined => false
    case Aborted => true
    case Finished(f) => f.hasBody ==> 0 <= f.sizeBody <= |s|
  }

  datatype Parsed = Parsed(frame: Frame, body: string)

  /** What the constructor builds; None when std::stoi throws out of it. */
  function Parse(s: string): (r: Option<Parsed>)
    requires DefinedInput(s)
    ensures r.None? <==> HeaderPass(s).Aborted?
    ensures r.Some? ==> HeaderPass(s) == Finished(r.value.frame)
    ensures r.Some? && !r.value.frame.hasBody ==> r.value.body == []
    ensures r.Some? && r.value.frame.hasBody ==>
              |r.value.body| == r.value.frame.sizeBody &&
              s == s[..|s| - |r.value.body|] + r.value.body
  {
    match HeaderPass(s)
    case Aborted => None
    case Finished(f) =>
      if f.hasBody then Some(Parsed(f, s[|s| - f.sizeBody..])) else Some(Parsed(f, []))
  }

  /** One `key:value` line of the serialization. */
  function HeaderText(kv: (string, string)): string {
    kv.0 + ":" + kv.1 + "\r\n"
  }

  /** The header lines of the serialization, in the order of the list. */
  function HeadersText(h: seq<(string, string)>): string {
    if h == [] then [] else HeadersText(h[..|h| - 1]) + HeaderText(h[|h| - 1])
  }

  /** `WsParser::Str`. */
  function FrameText(f: Frame, body: string): string {
    "ASR " + f.version + " " + f.command + "\r\n" + HeadersText(f.props) +
    (if body != [] then "\r\n" + body else [])
  }

  /** Result kind of a parser method: it returned normally, raised a parser
      error, or let a library exception through. */
  datatype Outcome = Normal | Caught | Thrown

  /** The method's outcome and new state are the ones the rule gives. */
  predicate Reflects(step: Step, st: Outcome, f: Frame, ts: ScanState) {
    match step
    case Done(f2, ts2) => st == Normal && f == f2 && ts == ts2
    case Stopped(f2) => st == Caught && f == f2
    case Escaped => st == Thrown
  }

  /** `GetParams(vec)` as a value: every key's value in order, or None when a
      key is missing. */
  function ParamsOf(h: Headers, keys: seq<string>): (r: Option<seq<string>>)
    ensures r.Some? <==> forall i :: 0 <= i < |keys| ==> keys[i] in ToMap(h)
    ensures r.Some? ==> (|r.value| == |keys| &&
              forall i :: 0 <= i < |keys| ==> r.value[i] == ToMap(h)[keys[i]])
  {
    if keys == [] then Some([])
    else match Find(h, keys[0])
      case None => None
      case Some(v) =>
        match ParamsOf(h, keys[1..])
        case None => None
        case Some(vs) => Some([v] + vs)
  }

  class WsParser {
    const tks: TokenStream
    var version: string
    var command: string
    var body: string
    var hasBody: bool
    var sizeBody: int
    var props: Headers

    predicate Valid()
      reads this, tks
    {
      tks.Valid()
    }

    function FrameOf(): Frame
      reads this
    {
      Frame(version, command, props, hasBody, sizeBody)
    }

    /** `WsParser()`. */
    constructor ()
      ensures Valid() && fresh(tks)
      ensures FrameOf() == EmptyFrame && body == [] && tks.State() == InitialScan
    {
      tks := new TokenStream();
      version := "";
      command := "";
      body := "";
      hasBody := false;
      sizeBody := 0;
      props := [];
    }

    method CmdExpr() returns (st: Outcome)
      requires Valid()
      modifies this, tks
      ensures Valid() && body == old(body)
      ensures Reflects(CmdExprF(old(FrameOf()), old(tks.State())), st, FrameOf(), tks.State())
    {
      var ok, tk := tks.Get();
      if !ok || tk.kind != AsrTitle {
        return Caught;
      }
      ok, tk := tks.Get();
      if !ok || tk.kind != Id {
        return Caught;
      }
      version := tk.content;
      ok, tk := tks.Get();
      if !ok || tk.kind != Id {
        return Caught;
      }
      command := tk.content;
      return Normal;
    }

    method KeyExpr() returns (st: Outcome)
      requires Valid()
      modifies this, tks
      ensures Valid() && body == old(body)
      ensures Reflects(KeyExprF(old(FrameOf()), old(tks.State())), st, FrameOf(), tks.State())
    {
      var ok, tk := tks.Get();
      if !ok || tk.kind != Id {
        return Caught;
      }
      var key := tk.content;
      ok, tk := tks.Get();
      if !ok || tk.kind != SepOp {
        return Caught;
      }
      ok, tk := tks.Get();
      if !ok || (tk.kind != Id && tk.kind != Crlf) {
        return Caught;
      }
      st := StoreKey(key, tk.content);
    }

    /** The end of KeyExpr: stores the pair, and for `Content-Length` the
        announced body size. */
    method StoreKey(key: string, value: string) returns (st: Outcome)
      requires Valid()
      modifies this
      ensures Valid() && body == old(body)
      ensures Reflects(StoreHeader(old(FrameOf()), key, value, tks.State()), st, FrameOf(), tks.State())
    {
      if key == ContentLength {
        var n := StdStoi(value);
        if n.None? {
          return Thrown;
        }
        hasBody := true;
        sizeBody := n.value;
      }
      props := Insert(props, key, value);
      return Normal;
    }

    method Expr() returns (st: Outcome)
      requires Valid()
      modifies this, tks
      ensures Valid() && body == old(body)
      ensures Reflects(ExprF(old(FrameOf()), old(tks.State())), st, FrameOf(), tks.State())
    {
      var ok, tk := tks.Get();
      if !ok {
        return Caught;
      }
      tks.Unget();
      if tk.kind == AsrTitle {
        st := CmdExpr();
      } else {
        st := KeyExpr();
      }
    }

    method Stm() returns (st: Outcome)
      requires Valid()
      modifies this, tks
      ensures Valid() && body == old(body)
      ensures Reflects(StmF(old(FrameOf()), old(tks.State())), st, FrameOf(), tks.State())
    {
      var ok, tk := tks.Get();
      if !ok {
        return Caught;
      }
      tks.Unget();
      if tk.kind == Crlf {
        return Normal;
      }
      st := Expr();
      if st != Normal {
        return;
      }
      ok, tk := tks.Get();
      if !ok || (tk.kind != Crlf && tk.kind != Eoft) {
        return Caught;
      }
      return Normal;
    }

    /** `WsParser(const std::string&)`; null where std::stoi throws out of
        the constructor. */
    static method FromString(s: string) returns (p: WsParser?)
      requires DefinedInput(s)
      ensures p == null <==> Parse(s).None?
      ensures p != null ==> fresh(p) && p.Valid() && Parse(s) == Some(Parsed(p.FrameOf(), p.body))
    {
      var q := new WsParser();
      if s == [] {
        return q;
      }
      var st := q.ReadLines(MessageUtils.Split(s, '\n'));
      if st == Thrown {
        return null;
      }
      q.ReadBody(s);
      return q;
    }

    /** The line loop of the constructor: each line is tokenized and parsed
        as a statement; a blank line after a `Content-Length` header or a
        parser error ends it, a library exception leaves it. */
    method ReadLines(lines: seq<string>) returns (st: Outcome)
      requires Valid() && ParseLines(FrameOf(), tks.State(), lines) != Undefined
      modifies this, tks
      ensures Valid() && body == old(body)
      ensures st == Thrown <==> ParseLines(old(FrameOf()), old(tks.State()), lines) == Aborted
      ensures st != Thrown ==>
                ParseLines(old(FrameOf()), old(tks.State()), lines) == Finished(FrameOf())
    {
      ghost var goal := ParseLines(FrameOf(), tks.State(), lines);
      var i := 0;
      while i < |lines|
        invariant 0 <= i <= |lines|
        invariant Valid() && body == old(body)
        invariant ParseLines(FrameOf(), tks.State(), lines[i..]) == goal
      {
        var more;
        st, more := ReadLine(lines[i..]);
        if !more {
          return;
        }
        assert lines[i..][1..] == lines[i + 1..];
        i := i + 1;
      }
      return Normal;
    }

    /** One turn of the line loop, on the first of the remaining lines. */
    method ReadLine(lines: seq<string>) returns (st: Outcome, more: bool)
      requires Valid() && lines != [] && ParseLines(FrameOf(), tks.State(), lines) != Undefined
      modifies this, tks
      ensures Valid() && body == old(body)
      ensures more ==> st == Normal && ParseLines(FrameOf(), tks.State(), lines[1..])
                                       == ParseLines(old(FrameOf()), old(tks.State()), lines)
      ensures !more ==> (st == Thrown <==> ParseLines(old(FrameOf()), old(tks.State()), lines) == Aborted)
      ensures !more && st != Thrown ==>
                ParseLines(old(FrameOf()), old(tks.State()), lines) == Finished(FrameOf())
    {
      var line := lines[0];
      if line == "\r" && hasBody {
        return Normal, false;
      }
      tks.Tokenize(LineText(line));
      st := Stm();
      more := st == Normal;
    }

    /** Copies the last `sizeBody` characters of the input into the body. */
    method ReadBody(s: string)
      requires hasBody ==> 0 <= sizeBody <= |s|
      requires body == []
      modifies this
      ensures FrameOf() == old(FrameOf())
      ensures body == if hasBody then s[|s| - sizeBody..] else []
    {
      if hasBody {
        var n := sizeBody;
        var b := [];
        var k := n;
        while k > 0
          invariant 0 <= k <= n <= |s|
          invariant b == s[|s| - n..|s| - k]
        {
          assert s[|s| - n..|s| - k + 1] == s[|s| - n..|s| - k] + [s[|s| - k]];
          b := b + [s[|s| - k]];
          k := k - 1;
        }
        body := b;
      }
    }

    /** `WsParser::Get`: the value of a key, None for an undeclared key. */
    function Get(key: string): (r: Option<string>)
      reads this
      ensures r.Some? <==> key in ToMap(props)
      ensures r.Some? ==> r.value == ToMap(props)[key]
    {
      Find(props, key)
    }

    /** `WsParser::GetParams(vec)`: all the values in the order of the keys,
        or None as soon as one key is undeclared. */
    method GetParams(keys: seq<string>) returns (r: Option<seq<string>>)
      ensures r == ParamsOf(props, keys)
    {
      var values := [];
      var i := 0;
      assert keys[i..] == keys;
      AppendNothing(ParamsOf(props, keys));
      while i < |keys|
        invariant 0 <= i <= |keys|
        invariant ParamsOf(props, keys) == Append(values, ParamsOf(props, keys[i..]))
      {
        var v := Get(keys[i]);
        assert keys[i..][1..] == keys[i + 1..];
        if v.None? {
          return None;
        }
        AppendStep(values, v.value, ParamsOf(props, keys[i + 1..]));
        values := values + [v.value];
        i := i + 1;
      }
      assert keys[i..] == [] && values + [] == values;
      return Some(values);
    }

    /** `WsParser::Add`: inserts, never replacing an existing key. */
    method Add(key: string, value: string)
      modifies this
      ensures props == Insert(old(props), key, value)
      ensures version == old(version) && command == old(command) && body == old(body)
      ensures hasBody == old(hasBody) && sizeBody == old(sizeBody)
    {
      props := Insert(props, key, value);
    }

    /** `WsParser::SetBody`: replaces the body and marks the frame as having
        one. */
    method SetBody(b: string)
      modifies this
      ensures body == b && hasBody
      ensures version == old(version) && command == old(command) && props == old(props)
      ensures sizeBody == old(sizeBody)
    {
      body := b;
      hasBody := true;
    }

    /** `WsParser::Str`. */
    method Str() returns (text: string)
      ensures text == FrameText(FrameOf(), body)
    {
      text := "ASR " + version + " " + command + "\r\n";
      var i := 0;
      while i < |props|
        invariant 0 <= i <= |props|
        invariant text == "ASR " + version + " " + command + "\r\n" + HeadersText(props[..i])
      {
        assert props[..i + 1][..i] == props[..i];
        text := text + HeaderText(props[i]);
        i := i + 1;
      }
      assert props[..i] == props;
      if body != [] {
        text := text + "\r\n";
        text := text + body;
      }
    }
  }

  lemma AppendNothing(r: Option<seq<string>>)
    ensures Append([], r) == r
  {
    if r.Some? {
      assert [] + r.value == r.value;
    }
  }

  lemma AppendStep(values: seq<string>, v: string, r: Option<seq<string>>)
    ensures Append(values, Append([v], r)) == Append(values + [v], r)
  {
    if r.Some? {
      assert values + ([v] + r.value) == values + [v] + r.value;
    }
  }

  /** Prefixes a known list of values to an outcome of ParamsOf. */
  function Append(values: seq<string>, r: Option<seq<string>>): Option<seq<string>> {
    match r
    case None => None
    case Some(vs) => Some(values + vs)
  }
}
