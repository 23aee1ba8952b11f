// Properties of the frame parser: how single lines are parsed, that stored
// headers are never replaced, that an invalid line ends the header pass, and
// that parsing the serialization of a frame gives the frame back.

module WsParserLemmas {
  import opened Common
  import opened HeaderMap
  import MessageUtils
  import opened WsScanner
  import opened WsParser

  /** The token sequence ASR_TITLE ID ID CRLF is a status line. */
  lemma CmdTokens(f: Frame, t0: ScanState, t1: ScanState, t2: ScanState, t3: ScanState,
                  t4: ScanState, v: string, c: string)
    requires !t0.ungot
    requires GetToken(t0) == Some(Scanned(Token(AsrTitle, ""), t1))
    requires GetToken(t1) == Some(Scanned(Token(Id, v), t2))
    requires GetToken(t2) == Some(Scanned(Token(Id, c), t3))
    requires GetToken(t3) == Some(Scanned(Token(Crlf, ""), t4))
    ensures StmF(f, t0) == Done(f.(version := v, command := c), t4)
  {
    assert GetToken(UngetToken(t1)) == Some(Scanned(Token(AsrTitle, ""), t1));
    assert CmdExprF(f, UngetToken(t1)) == Done(f.(version := v, command := c), t3);
  }

  /** The token sequence ID ':' (ID | CRLF) followed by the end of the line
      is a header line. */
  lemma KeyTokens(f: Frame, t0: ScanState, t1: ScanState, t2: ScanState, t3: ScanState,
                  t4: ScanState, k: string, vt: Token, e: Token)
    requires !t0.ungot && k != ContentLength
    requires GetToken(t0) == Some(Scanned(Token(Id, k), t1))
    requires GetToken(t1) == Some(Scanned(Token(SepOp, ""), t2))
    requires GetToken(t2) == Some(Scanned(vt, t3)) && (vt.kind == Id || vt.kind == Crlf)
    requires GetToken(t3) == Some(Scanned(e, t4)) && (e.kind == Crlf || e.kind == Eoft)
    ensures StmF(f, t0) == Done(f.(props := Insert(f.props, k, vt.content)), t4)
  {
    assert GetToken(UngetToken(t1)) == Some(Scanned(Token(Id, k), t1));
    assert KeyExprF(f, UngetToken(t1)) == Done(f.(props := Insert(f.props, k, vt.content)), t3);
  }

  /** A status line, stated on the characters of the line. */
  lemma CmdAt(f: Frame, t0: ScanState, v: string, c: string)
    requires !t0.ungot && !t0.afterSep && t0.pos == 0 && KeyWord(v) && KeyWord(c)
    requires |t0.str| == 6 + |v| + |c|
    requires t0.str[..3] == "ASR" && t0.str[3] == ' ' && t0.str[4 + |v|] == ' '
    requires t0.str[4..4 + |v|] == v && t0.str[5 + |v|..5 + |v| + |c|] == c
    requires t0.str[5 + |v| + |c|] == '\n'
    ensures StmF(f, t0) == Done(f.(version := v, command := c),
                                t0.(pos := |t0.str|, last := Token(Crlf, "")))
  {
    var t1, t2, t3 := CmdScan(t0, v, c);
    CmdTokens(f, t0, t1, t2, t3, t0.(pos := |t0.str|, last := Token(Crlf, "")), v, c);
  }

  /** The tokens of a status line. */
  lemma CmdScan(t0: ScanState, v: string, c: string) returns (t1: ScanState, t2: ScanState, t3: ScanState)
    requires !t0.ungot && !t0.afterSep && t0.pos == 0 && KeyWord(v) && KeyWord(c)
    requires |t0.str| == 6 + |v| + |c|
    requires t0.str[..3] == "ASR" && t0.str[3] == ' ' && t0.str[4 + |v|] == ' '
    requires t0.str[4..4 + |v|] == v && t0.str[5 + |v|..5 + |v| + |c|] == c
    requires t0.str[5 + |v| + |c|] == '\n'
    ensures GetToken(t0) == Some(Scanned(Token(AsrTitle, ""), t1))
    ensures GetToken(t1) == Some(Scanned(Token(Id, v), t2))
    ensures GetToken(t2) == Some(Scanned(Token(Id, c), t3))
    ensures GetToken(t3) == Some(Scanned(Token(Crlf, ""), t0.(pos := |t0.str|, last := Token(Crlf, ""))))
  {
    ScanTitle(t0);
    t1 := t0.(pos := 3, last := Token(AsrTitle, ""));
    ScanKeyWord(t1, 1, v);
    t2 := t1.(pos := 4 + |v|, last := Token(Id, v));
    t3 := CmdScanTail(t0, t2, v, c);
  }

  lemma CmdScanTail(t0: ScanState, t2: ScanState, v: string, c: string) returns (t3: ScanState)
    requires !t2.ungot && !t2.afterSep && t2.str == t0.str && t2.pos == 4 + |v| && KeyWord(c)
    requires |t0.str| == 6 + |v| + |c|
    requires t0.str[4 + |v|] == ' ' && t0.str[5 + |v|..5 + |v| + |c|] == c
    requires t0.str[5 + |v| + |c|] == '\n'
    ensures GetToken(t2) == Some(Scanned(Token(Id, c), t3))
    ensures GetToken(t3) == Some(Scanned(Token(Crlf, ""), t2.(pos := |t2.str|, afterSep := false, last := Token(Crlf, ""))))
  {
    ScanKeyWord(t2, 1, c);
    t3 := t2.(pos := 5 + |v| + |c|, last := Token(Id, c));
    ScanMark(t3);
  }

  /** A line that starts with the word `ASR` starts with the title token. */
  lemma ScanTitle(t0: ScanState)
    requires !t0.ungot && !t0.afterSep && t0.pos == 0 && |t0.str| > 3
    requires t0.str[..3] == "ASR" && t0.str[3] == ' '
    ensures GetToken(t0) == Some(Scanned(Token(AsrTitle, ""), t0.(pos := 3, last := Token(AsrTitle, ""))))
  {
    assert t0.str[0..3] == "ASR";
    ScanWord(t0, "ASR");
  }

  /** A status line `ASR <version> <command>` sets both fields, whatever they
      held before: a later status line overwrites an earlier one. */
  lemma CmdLine(f: Frame, ts: ScanState, v: string, c: string)
    requires KeyWord(v) && KeyWord(c)
    ensures StmF(f, TokenizeLine(ts, "ASR " + v + " " + c + "\n"))
              == Done(f.(version := v, command := c),
                      TokenizeLine(ts, "ASR " + v + " " + c + "\n").(pos := 6 + |v| + |c|, last := Token(Crlf, "")))
  {
    var line := "ASR " + v + " " + c + "\n";
    var n := |v|;
    var m := |c|;
    assert |line| == 6 + n + m;
    assert line[..3] == "ASR" && line[3] == ' ';
    assert line[4..4 + n] == v && line[4 + n] == ' ';
    assert line[5 + n..5 + n + m] == c && line[5 + n + m] == '\n';
    CmdAt(f, TokenizeLine(ts, line), v, c);
  }

  /** `n` blanks. */
  function Blanks(n: nat): (r: string)
    ensures |r| == n && forall k :: 0 <= k < n ==> r[k] == ' '
  {
    seq(n, _ => ' ')
  }

  /** A header line, stated on the characters of the line: the key, `:`,
      `b` blanks that are skipped, the value, and the line end. */
  lemma KeyAt(f: Frame, t0: ScanState, k: string, b: nat, val: string)
    requires !t0.ungot && !t0.afterSep && t0.pos == 0
    requires KeyWord(k) && ValueWord(val) && k != ContentLength
    requires |t0.str| == |k| + b + |val| + 2
    requires t0.str[..|k|] == k && t0.str[|k|] == ':'
    requires forall i :: |k| + 1 <= i < |k| + 1 + b ==> t0.str[i] == ' '
    requires t0.str[|k| + 1 + b..|k| + 1 + b + |val|] == val && t0.str[|k| + 1 + b + |val|] == '\n'
    ensures StmF(f, t0) == Done(f.(props := Insert(f.props, k, val)),
                                t0.(pos := |t0.str|, afterSep := false,
                                    last := Token(if val == [] then Eoft else Crlf, "")))
  {
    var n := |k|;
    ScanWord(t0, k);
    var t1 := t0.(pos := n, last := Token(Id, k));
    ScanMark(t1);
    var t2 := t1.(pos := n + 1, afterSep := true, last := Token(SepOp, ""));
    var vt, t3 := ValueTail(t2, b, val);
    KeyTokens(f, t0, t1, t2, t3, t0.(pos := |t0.str|, afterSep := false,
                                      last := Token(if val == [] then Eoft else Crlf, "")),
              k, vt, Token(if val == [] then Eoft else Crlf, ""));
  }

  /** The rest of a header line after its `:`: blanks, the value and the
      line end give the value token (a line end for an empty value) and then
      the end of the line. */
  lemma ValueTail(t2: ScanState, b: nat, val: string) returns (vt: Token, t3: ScanState)
    requires !t2.ungot && t2.afterSep && ValueWord(val)
    requires |t2.str| == t2.pos + b + |val| + 1
    requires forall i :: t2.pos <= i < t2.pos + b ==> t2.str[i] == ' '
    requires t2.str[t2.pos + b..t2.pos + b + |val|] == val && t2.str[t2.pos + b + |val|] == '\n'
    ensures vt == Token(if val == [] then Crlf else Id, val)
    ensures GetToken(t2) == Some(Scanned(vt, t3))
    ensures var e := Token(if val == [] then Eoft else Crlf, "");
            GetToken(t3) == Some(Scanned(e, t2.(pos := |t2.str|, afterSep := false, last := e)))
  {
    SkipBlanks(t2, b);
    var u := t2.(pos := t2.pos + b);
    if val == [] {
      ScanMark(u);
      vt := Token(Crlf, "");
      t3 := t2.(pos := |t2.str|, afterSep := false, last := vt);
      ScanEnd(t3);
    } else {
      ScanWord(u, val);
      vt := Token(Id, val);
      t3 := t2.(pos := t2.pos + b + |val|, last := vt);
      ScanMark(t3);
    }
  }

  /** A header line `key: value` inserts the pair: blanks after the `:` are
      skipped, and the value is everything after them up to the line end,
      inner and trailing blanks and `:` included; nothing after the `:` gives
      the empty value. */
  lemma KeyLine(f: Frame, ts: ScanState, k: string, b: nat, val: string)
    requires KeyWord(k) && ValueWord(val) && k != ContentLength
    ensures StmF(f, TokenizeLine(ts, k + ":" + Blanks(b) + val + "\n"))
              == Done(f.(props := Insert(f.props, k, val)),
                      TokenizeLine(ts, k + ":" + Blanks(b) + val + "\n").(
                        pos := |k| + b + |val| + 2, afterSep := false,
                        last := Token(if val == [] then Eoft else Crlf, "")))
  {
    var line := k + ":" + Blanks(b) + val + "\n";
    KeyLineShape(k, b, val);
    KeyAt(f, TokenizeLine(ts, line), k, b, val);
  }

  /** Where the parts of a header line sit in it. */
  lemma KeyLineShape(k: string, b: nat, val: string)
    ensures var line := k + ":" + Blanks(b) + val + "\n";
            && |line| == |k| + b + |val| + 2
            && line[..|k|] == k && line[|k|] == ':'
            && (forall i :: |k| + 1 <= i < |k| + 1 + b ==> line[i] == ' ')
            && line[|k| + 1 + b..|k| + 1 + b + |val|] == val && line[|k| + 1 + b + |val|] == '\n'
  {
    var line := k + ":" + Blanks(b) + val + "\n";
    var n := |k|;
    var m := |val|;
    assert line[..n] == k;
    assert forall i :: n + 1 <= i < n + 1 + b ==> line[i] == Blanks(b)[i - n - 1];
    assert line[n + 1 + b..n + 1 + b + m] == val;
  }

  /** Keys and values that the serializer writes and the parser reads back
      unchanged: key words that are not `Content-Length`, value words. */
  predicate Tokenizable(h: Headers) {
    forall i :: 0 <= i < |h| ==> KeyWord(h[i].0) && h[i].0 != ContentLength && ValueWord(h[i].1)
  }

  /** One header line of the serialization as the line split hands it over:
      its `\n` is gone, its `\r` is still there. */
  function HeaderLine(kv: (string, string)): string {
    kv.0 + ":" + kv.1 + "\r"
  }

  function HeaderLines(h: seq<(string, string)>): (r: seq<string>)
    ensures |r| == |h| && forall i :: 0 <= i < |h| ==> r[i] == HeaderLine(h[i])
  {
    seq(|h|, i requires 0 <= i < |h| => HeaderLine(h[i]))
  }

  lemma {:induction false} TerminatedAppend(a: seq<string>, b: seq<string>, d: char)
    ensures MessageUtils.Terminated(a + b, d) == MessageUtils.Terminated(a, d) + MessageUtils.Terminated(b, d)
  {
    if a != [] {
      assert (a + b)[1..] == a[1..] + b;
      TerminatedAppend(a[1..], b, d);
    } else {
      assert a + b == b;
    }
  }

  /** The header block of the serialization is its header lines, each ended
      by `\n`. */
  lemma {:induction false} HeadersTextLines(h: seq<(string, string)>)
    ensures HeadersText(h) == MessageUtils.Terminated(HeaderLines(h), '\n')
  {
    if h != [] {
      var n := |h| - 1;
      HeadersTextLines(h[..n]);
      assert HeaderLines(h) == HeaderLines(h[..n]) + [HeaderLine(h[n])];
      TerminatedAppend(HeaderLines(h[..n]), [HeaderLine(h[n])], '\n');
      assert MessageUtils.Terminated([HeaderLine(h[n])], '\n') == HeaderLine(h[n]) + "\n";
    }
  }

  /** Parsing the header lines of a sorted, tokenizable list rebuilds the
      list: each key is larger than every key before it, so each insertion
      appends.  The lines after them see the rebuilt list. */
  lemma {:induction false} ParseHeaderLines(f: Frame, ts: ScanState, h: Headers, i: nat, rest: seq<string>)
    returns (ts2: ScanState)
    requires Tokenizable(h) && i <= |h| && f.props == h[..i] && !f.hasBody
    ensures ParseLines(f, ts, HeaderLines(h)[i..] + rest) == ParseLines(f.(props := h), ts2, rest)
    decreases |h| - i
  {
    if i == |h| {
      assert h[..i] == h;
      assert HeaderLines(h)[i..] + rest == rest;
      ts2 := ts;
    } else {
      var f2, ts1 := HeaderLineStep(f, ts, h, i, rest);
      ts2 := ParseHeaderLines(f2, ts1, h, i + 1, rest);
    }
  }

  /** A line that is not empty and does not end the header section, and
      that parses as a statement, hands the rest of the lines the new frame and stream. */
  lemma ParseLinesStep(f: Frame, ts: ScanState, lines: seq<string>, f2: Frame, ts2: ScanState)
    requires lines != [] && lines[0] != [] && !(lines[0] == "\r" && f.hasBody)
    requires StmF(f, TokenizeLine(ts, LineText(lines[0]))) == Done(f2, ts2)
    ensures ParseLines(f, ts, lines) == ParseLines(f2, ts2, lines[1..])
  {
  }

  /** The lines of a serialized body-less frame hold no `\n`. */
  lemma LinesFree(f: Frame)
    requires KeyWord(f.version) && KeyWord(f.command) && Tokenizable(f.props)
    ensures var lines := [StartLine(f.version, f.command)] + HeaderLines(f.props);
            forall j :: 0 <= j < |lines| ==> MessageUtils.Free(lines[j], '\n')
  {
    var lines := [StartLine(f.version, f.command)] + HeaderLines(f.props);
    forall j | 0 <= j < |lines| ensures MessageUtils.Free(lines[j], '\n') {
      if j == 0 {
        assert forall i :: 0 <= i < |f.version| ==> InRun(f.version[i], false);
        assert forall i :: 0 <= i < |f.command| ==> InRun(f.command[i], false);
      } else {
        var (k, v) := f.props[j - 1];
        assert lines[j] == k + ":" + v + "\r";
        assert forall i :: 0 <= i < |k| ==> InRun(k[i], false);
        assert forall i :: 0 <= i < |v| ==> InRun(v[i], true);
      }
    }
  }

  /** Round trip of the serializer: parsing `Str()` of a frame without a body,
      whose version, command, keys and values are words the scanner reads
      back whole and which has no `Content-Length` header, gives back the
      version, the command and the same headers, with no body. */
  lemma ParseStr(f: Frame)
    requires KeyWord(f.version) && KeyWord(f.command) && Tokenizable(f.props)
    ensures DefinedInput(FrameText(f, []))
    ensures Parse(FrameText(f, [])) == Some(Parsed(Frame(f.version, f.command, f.props, false, 0), []))
  {
    var lines := [StartLine(f.version, f.command)] + HeaderLines(f.props);
    FrameTextLines(f);
    LinesFree(f);
    MessageUtils.SplitTerminated(lines, '\n');
    assert lines + [] == lines;
    var _ := ParseFrameLines(f.version, f.command, f.props, []);
  }

  /** The start line of a frame as the line split hands it over. */
  function StartLine(v: string, c: string): string {
    "ASR " + v + " " + c + "\r"
  }

  /** Parsing a start line and the header lines of a sorted, tokenizable list
      gives the version, the command and the list, whatever lines follow. */
  lemma ParseFrameLines(v: string, c: string, h: Headers, rest: seq<string>) returns (ts2: ScanState)
    requires KeyWord(v) && KeyWord(c) && Tokenizable(h)
    ensures ParseLines(EmptyFrame, InitialScan, [StartLine(v, c)] + HeaderLines(h) + rest)
              == ParseLines(Frame(v, c, h, false, 0), ts2, rest)
  {
    var start := StartLine(v, c);
    var lines := [start] + HeaderLines(h) + rest;
    assert LineText(start) == "ASR " + v + " " + c + "\n";
    CmdLine(EmptyFrame, InitialScan, v, c);
    var f1 := EmptyFrame.(version := v, command := c);
    var ts1 := TokenizeLine(InitialScan, LineText(start)).(pos := 6 + |v| + |c|, last := Token(Crlf, ""));
    DropFirst([start] + HeaderLines(h), 0, rest);
    assert ([start] + HeaderLines(h))[1..] == HeaderLines(h)[0..];
    ParseLinesStep(EmptyFrame, InitialScan, lines, f1, ts1);
    ts2 := ParseHeaderLines(f1, ts1, h, 0, rest);
  }

  /** Every key of `a` is in `b` with the same value. */
  ghost predicate Keeps(a: Headers, b: Headers) {
    forall k :: k in ToMap(a) ==> k in ToMap(b) && ToMap(b)[k] == ToMap(a)[k]
  }

  /** A statement never changes or removes a header already stored: a
      duplicate key keeps its first value. */
  lemma StmKeeps(f: Frame, ts: ScanState)
    ensures StmF(f, ts).Done? || StmF(f, ts).Stopped? ==> Keeps(f.props, StmF(f, ts).frame.props)
  {
    match GetToken(ts)
    case None =>
    case Some(a) =>
      ExprKeeps(f, UngetToken(a.ts));
  }

  lemma ExprKeeps(f: Frame, ts: ScanState)
    ensures ExprF(f, ts).Done? || ExprF(f, ts).Stopped? ==> Keeps(f.props, ExprF(f, ts).frame.props)
  {
    match GetToken(ts)
    case None =>
    case Some(a) =>
      var t := UngetToken(a.ts);
      if a.tok.kind == AsrTitle {
        CmdExprKeeps(f, t);
      } else {
        KeyExprKeeps(f, t);
      }
  }

  /** A status line changes no header. */
  lemma CmdExprKeeps(f: Frame, ts: ScanState)
    ensures CmdExprF(f, ts).Done? || CmdExprF(f, ts).Stopped? ==> CmdExprF(f, ts).frame.props == f.props
  {
  }

  lemma KeyExprKeeps(f: Frame, ts: ScanState)
    ensures KeyExprF(f, ts).Done? || KeyExprF(f, ts).Stopped? ==> Keeps(f.props, KeyExprF(f, ts).frame.props)
  {
    match GetToken(ts)
    case None =>
    case Some(a) =>
      match GetToken(a.ts)
      case None =>
      case Some(b) =>
        match GetToken(b.ts)
        case None =>
        case Some(c) =>
          var r := StoreHeader(f, a.tok.content, c.tok.content, c.ts);
          assert r.Done? ==> Keeps(f.props, r.frame.props);
  }

  /** The header pass never changes or removes a header once stored. */
  lemma {:induction false} ParseLinesKeeps(f: Frame, ts: ScanState, lines: seq<string>)
    ensures ParseLines(f, ts, lines).Finished? ==> Keeps(f.props, ParseLines(f, ts, lines).frame.props)
    decreases |lines|
  {
    if lines != [] && !(lines[0] == "\r" && f.hasBody) && lines[0] != [] {
      var t := TokenizeLine(ts, LineText(lines[0]));
      StmKeeps(f, t);
      match StmF(f, t)
      case Done(f2, ts2) =>
        ParseLinesKeeps(f2, ts2, lines[1..]);
      case Stopped(f2) =>
      case Escaped =>
    }
  }

  /** A line that starts with a character no token can start with is a
      parser error: the header pass ends there, keeping the frame built from
      the earlier lines and ignoring every later line. */
  lemma InvalidLineStops(f: Frame, ts: ScanState, line: string, rest: seq<string>)
    requires |line| >= 2
    requires line[0] != ' ' && line[0] != ':' && line[0] != '\n' && !InRun(line[0], false)
    ensures ParseLines(f, ts, [line] + rest) == Finished(f)
  {
    var t := TokenizeLine(ts, LineText(line));
    assert t.str[0] == line[0];
    assert GetToken(t).None?;
  }

  /** A header whose value is exactly `ASR` reads as the title token, which
      the header rule rejects: the header pass ends there, without the
      header. */
  lemma AsrValueStops(f: Frame, ts: ScanState, k: string, rest: seq<string>)
    requires KeyWord(k)
    ensures ParseLines(f, ts, [k + ":ASR\r"] + rest) == Finished(f)
  {
    var n := |k|;
    var t0 := TokenizeLine(ts, LineText(k + ":ASR\r"));
    assert t0.str == k + ":ASR\n";
    assert t0.str[..n] == k && t0.str[n] == ':' && t0.str[n + 1..n + 4] == "ASR" && t0.str[n + 4] == '\n';
    AsrValueAt(f, t0, k);
  }

  lemma AsrValueAt(f: Frame, t0: ScanState, k: string)
    requires !t0.ungot && !t0.afterSep && t0.pos == 0 && KeyWord(k) && |t0.str| == |k| + 5
    requires t0.str[..|k|] == k && t0.str[|k|] == ':'
    requires t0.str[|k| + 1..|k| + 4] == "ASR" && t0.str[|k| + 4] == '\n'
    ensures StmF(f, t0) == Stopped(f)
  {
    var n := |k|;
    ScanWord(t0, k);
    var t1 := t0.(pos := n, last := Token(Id, k));
    ScanMark(t1);
    var t2 := t1.(pos := n + 1, afterSep := true, last := Token(SepOp, ""));
    ScanWord(t2, "ASR");
    assert GetToken(UngetToken(t1)) == Some(Scanned(Token(Id, k), t1));
    assert KeyExprF(f, UngetToken(t1)) == Stopped(f);
  }

  /** A bare `\r` line: before a `Content-Length` header it is an empty
      statement and parsing goes on with the next line; after one it ends the
      header section. */
  lemma BlankLine(f: Frame, ts: ScanState, rest: seq<string>)
    ensures ParseLines(f, ts, ["\r"] + rest) ==
              if f.hasBody then Finished(f)
              else ParseLines(f, Scan("\n", 1, Token(Crlf, ""), true, false), rest)
  {
    var lines := ["\r"] + rest;
    assert LineText(lines[0]) == "\n";
    var t2 := Scan("\n", 1, Token(Crlf, ""), true, false);
    BlankStm(f, ts);
    if !f.hasBody {
      ParseLinesStep(f, ts, lines, f, t2);
      assert lines[1..] == rest;
    }
  }

  /** A body-less serialization is its start line and its header lines, each
      ended by `\n`. */
  lemma FrameTextLines(f: Frame)
    ensures FrameText(f, []) ==
              MessageUtils.Terminated([StartLine(f.version, f.command)] + HeaderLines(f.props), '\n')
  {
    var start := StartLine(f.version, f.command);
    var lines := [start] + HeaderLines(f.props);
    HeadersTextLines(f.props);
    assert FrameText(f, []) == start + "\n" + MessageUtils.Terminated(HeaderLines(f.props), '\n');
    assert lines[1..] == HeaderLines(f.props);
  }

  /** One header line of a sorted, tokenizable list appends its pair. */
  lemma HeaderLineStep(f: Frame, ts: ScanState, h: Headers, i: nat, rest: seq<string>)
    returns (f2: Frame, ts2: ScanState)
    requires Tokenizable(h) && i < |h| && f.props == h[..i] && !f.hasBody
    ensures f2 == f.(props := h[..i + 1])
    ensures ParseLines(f, ts, HeaderLines(h)[i..] + rest) == ParseLines(f2, ts2, HeaderLines(h)[i + 1..] + rest)
  {
    var lines := HeaderLines(h)[i..] + rest;
    f2, ts2 := HeaderStm(f, ts, h, i);
    DropFirst(HeaderLines(h), i, rest);
    ParseLinesStep(f, ts, lines, f2, ts2);
  }

  /** The statement on one header line of a sorted, tokenizable list. */
  lemma HeaderStm(f: Frame, ts: ScanState, h: Headers, i: nat) returns (f2: Frame, ts2: ScanState)
    requires Tokenizable(h) && i < |h| && f.props == h[..i] && !f.hasBody
    ensures f2 == f.(props := h[..i + 1]) && HeaderLine(h[i]) != [] && HeaderLine(h[i]) != "\r"
    ensures StmF(f, TokenizeLine(ts, LineText(HeaderLine(h[i])))) == Done(f2, ts2)
  {
    var (k, v) := h[i];
    var text := k + ":" + Blanks(0) + v + "\n";
    assert LineText(HeaderLine(h[i])) == text;
    KeyLine(f, ts, k, 0, v);
    PrefixInsert(h, i);
    f2 := f.(props := h[..i + 1]);
    ts2 := TokenizeLine(ts, text).(pos := |k| + |v| + 2, afterSep := false,
                                   last := Token(if v == [] then Eoft else Crlf, ""));
  }

  /** Inserting the next pair of a sorted list into its prefix extends the
      prefix by that pair. */
  lemma PrefixInsert(h: Headers, i: nat)
    requires i < |h|
    ensures Insert(h[..i], h[i].0, h[i].1) == h[..i + 1]
  {
    var prefix: Headers := h[..i];
    InsertLargest(prefix, h[i].0, h[i].1);
    assert prefix + [h[i]] == h[..i + 1];
  }

  /** The statement on an empty line is the empty statement; the line end
      is left pushed back. */
  lemma BlankStm(f: Frame, ts: ScanState)
    ensures StmF(f, TokenizeLine(ts, "\n")) == Done(f, Scan("\n", 1, Token(Crlf, ""), true, false))
  {
    ScanMark(TokenizeLine(ts, "\n"));
  }

  /** The first of the lines from `i` on, and the lines after it. */
  lemma DropFirst(a: seq<string>, i: nat, rest: seq<string>)
    requires i < |a|
    ensures (a[i..] + rest)[0] == a[i] && (a[i..] + rest)[1..] == a[i + 1..] + rest
  {
  }
}
