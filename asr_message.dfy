// The ASR message object: a start line, a header map kept in ascending key
// order (a std::map) and an extra part.  `ASRMessageParser` owns the fields
// and serializes them; `ASRMessageRequest` edits them in place and
// `ASRMessageResponse` fills them from a received payload.  The two
// subclasses add methods only, so the model is one class holding all of
// them.

module AsrMessage {
  import opened Common
  import opened HeaderMap
  import opened MessageUtils
  import opened WsScanner
  import WsParser
  import WsParserLemmas

  /** `hdr_delimiter`: the blank line that ends a header block. */
  const HdrDelimiter: string := "\r\n\r\n"

  /** What `raw()` writes: the start line and CRLF when there is a start
      line, one `key:value` CRLF line per header in key order, a blank CRLF,
      and the extra part and CRLF when there is an extra part. */
  function RawText(startLine: string, h: Headers, extra: string): string {
    (if startLine != [] then startLine + MsgDelimiter else []) +
    WsParser.HeadersText(h) + MsgDelimiter +
    (if extra != [] then extra + MsgDelimiter else [])
  }

  /** `pat` occurs in `s` at index `i`. */
  predicate OccursAt(s: string, pat: string, i: nat) {
    i + |pat| <= |s| && s[i..i + |pat|] == pat
  }

  /** `std::string::find`: the first index where `pat` occurs in `s`. */
  function FindText(s: string, pat: string): (r: Option<nat>)
    ensures r.Some? ==> OccursAt(s, pat, r.value)
    ensures r.Some? ==> forall i :: 0 <= i < r.value ==> !OccursAt(s, pat, i)
    ensures r.None? ==> forall i :: 0 <= i <= |s| ==> !OccursAt(s, pat, i)
    decreases |s|
  {
    if |s| < |pat| then None
    else if OccursAt(s, pat, 0) then Some(0)
    else
      OccursShift(s, pat);
      match FindText(s[1..], pat)
      case None => None
      case Some(j) => Some(j + 1)
  }

  /** Occurrences in `s` past its first character are occurrences in its
      tail, one index earlier. */
  lemma OccursShift(s: string, pat: string)
    requires s != []
    ensures forall i :: 1 <= i <= |s| ==> OccursAt(s, pat, i) == OccursAt(s[1..], pat, i - 1)
  {
    forall i | 1 <= i <= |s|
      ensures OccursAt(s, pat, i) == OccursAt(s[1..], pat, i - 1)
    {
      if i + |pat| <= |s| {
        assert s[1..][i - 1..i - 1 + |pat|] == s[i..i + |pat|];
      }
    }
  }

  /** The local split of `consume` at the first blank line: the part before
      it and the part after it, or the whole payload and nothing. */
  method SplitAtBlankLine(payload: string) returns (msgBody: string, msgExtra: string)
    ensures FindText(payload, HdrDelimiter).Some? ==>
              payload == msgBody + HdrDelimiter + msgExtra &&
              forall i :: 0 <= i < |msgBody| ==> !OccursAt(payload, HdrDelimiter, i)
    ensures FindText(payload, HdrDelimiter).None? ==> msgBody == payload && msgExtra == []
  {
    msgBody := payload;
    msgExtra := [];
    var found := FindText(payload, HdrDelimiter);
    if found.Some? {
      var end := found.value;
      msgBody := payload[..end];
      msgExtra := payload[end + |HdrDelimiter|..];
      assert payload == payload[..end] + payload[end..end + |HdrDelimiter|] + payload[end + |HdrDelimiter|..];
    }
  }

  class AsrMessage {
    var startLine: string
    var headers: Headers
    var extra: string

    /** `ASRMessageParser()`: everything empty. */
    constructor ()
      ensures startLine == [] && headers == [] && extra == []
    {
      startLine := [];
      headers := [];
      extra := [];
    }

    /** `ASRMessageRequest(Method c)`: a request for `c`, no headers yet. */
    constructor Request(c: Method)
      ensures startLine == FirstLine(c) && headers == [] && extra == []
    {
      startLine := FirstLine(c);
      headers := [];
      extra := [];
    }

    /** `raw()`: the serialized message. */
    method Raw() returns (text: string)
      ensures text == RawText(startLine, headers, extra)
    {
      text := if startLine != [] then startLine + MsgDelimiter else [];
      ghost var start := text;
      var i := 0;
      while i < |headers|
        invariant 0 <= i <= |headers|
        invariant text == start + WsParser.HeadersText(headers[..i])
      {
        var line := headers[i].0 + HdrSeparator + headers[i].1 + MsgDelimiter;
        assert headers[..i + 1][..i] == headers[..i];
        assert WsParser.HeadersText(headers[..i + 1]) ==
               WsParser.HeadersText(headers[..i]) + WsParser.HeaderText(headers[i]);
        text := text + line;
        i := i + 1;
      }
      assert headers[..|headers|] == headers;
      text := text + MsgDelimiter;
      if extra != [] {
        text := text + extra + MsgDelimiter;
      }
    }

    /** `get_header`: the stored value, or the empty header when the key is
        absent. */
    function GetHeader(key: string): (r: string)
      reads this
      ensures key in ToMap(headers) ==> r == ToMap(headers)[key]
      ensures key !in ToMap(headers) ==> r == []
    {
      match Find(headers, key)
      case Some(v) => v
      case None => []
    }

    /** `set_header`: stores `val` under `key`, replacing an earlier value. */
    method SetHeader(key: string, val: string)
      modifies this
      ensures headers == Put(old(headers), key, val)
      ensures GetHeader(key) == val
      ensures forall k :: k != key ==> GetHeader(k) == old(GetHeader(k))
      ensures startLine == old(startLine) && extra == old(extra)
    {
      headers := Put(headers, key, val);
    }

    /** `remove_header`: drops `key`; the other headers stay. */
    method RemoveHeader(key: string)
      modifies this
      ensures headers == Erase(old(headers), key)
      ensures GetHeader(key) == []
      ensures forall k :: k != key ==> GetHeader(k) == old(GetHeader(k))
      ensures startLine == old(startLine) && extra == old(extra)
    {
      headers := Erase(headers, key);
    }

    /** `set_extra`. */
    method SetExtra(value: string)
      modifies this
      ensures extra == value
      ensures startLine == old(startLine) && headers == old(headers)
    {
      extra := value;
    }

    /** `set_start_line`. */
    method SetStartLine(value: string)
      modifies this
      ensures startLine == value
      ensures headers == old(headers) && extra == old(extra)
    {
      startLine := value;
    }

    /** `ASRMessageResponse::consume`: parses `payload` and takes its
        headers and body; the start line is rebuilt from the command with
        the fixed version `ASR 2.4`.  `thrown` is the std::stoi exception
        escaping from the parser, which leaves the message as it was. */
    method Consume(payload: string) returns (thrown: bool)
      requires WsParser.DefinedInput(payload)
      modifies this
      ensures thrown <==> WsParser.Parse(payload).None?
      ensures thrown ==> startLine == old(startLine) && headers == old(headers) && extra == old(extra)
      ensures !thrown ==>
                var p := WsParser.Parse(payload).value;
                headers == p.frame.props && extra == p.body &&
                startLine == AsrVersion + MsgSeparator + p.frame.command
    {
      var parser := WsParser.WsParser.FromString(payload);
      if parser == null {
        return true;
      }
      headers := parser.props;
      extra := parser.body;
      startLine := AsrVersion + MsgSeparator + parser.command;
      // The split at the first blank line only fills locals.
      var msgBody, msgExtra := SplitAtBlankLine(payload);
      return false;
    }
  }

  /** A method name is a word the scanner reads back whole. */
  lemma MethodNameKeyWord(c: Method)
    ensures KeyWord(MethodName(c))
  {
    var w := MethodName(c);
    assert forall k :: 0 <= k < |w| ==> w[k] in w;
  }

  /** A request without an extra part, whose headers are words the scanner
      reads back whole and hold no `Content-Length`, is read back by the
      parser as its method, version `2.4` and the same headers, with no
      body. */
  lemma RawParses(c: Method, h: Headers)
    requires WsParserLemmas.Tokenizable(h)
    ensures WsParser.DefinedInput(RawText(FirstLine(c), h, []))
    ensures WsParser.Parse(RawText(FirstLine(c), h, [])) ==
              Some(WsParser.Parsed(WsParser.Frame("2.4", MethodName(c), h, false, 0), []))
  {
    var name := MethodName(c);
    var f := WsParser.Frame("2.4", name, h, false, 0);
    RawRequestLines(c, h);
    var ts2 := WsParserLemmas.ParseFrameLines("2.4", name, h, ["\r"]);
    WsParserLemmas.BlankLine(f, ts2, []);
    assert ["\r"] + [] == ["\r"];
  }

  /** The lines of a request without an extra part: its start line, its
      header lines and the blank line. */
  lemma RawRequestLines(c: Method, h: Headers)
    requires WsParserLemmas.Tokenizable(h)
    ensures KeyWord("2.4") && KeyWord(MethodName(c))
    ensures Split(RawText(FirstLine(c), h, []), '\n') ==
              [WsParserLemmas.StartLine("2.4", MethodName(c))] + WsParserLemmas.HeaderLines(h) + ["\r"]
  {
    var name := MethodName(c);
    var f := WsParser.Frame("2.4", name, h, false, 0);
    MethodNameKeyWord(c);
    assert KeyWord("2.4") by {
      assert forall k :: 0 <= k < 3 ==> InRun("2.4"[k], false);
    }
    var lines := [WsParserLemmas.StartLine("2.4", name)] + WsParserLemmas.HeaderLines(h);
    RawRequestText(c, h);
    WsParserLemmas.LinesFree(f);
    WsParserLemmas.TerminatedAppend(lines, ["\r"], '\n');
    assert Terminated(["\r"], '\n') == "\r\n";
    assert forall j :: 0 <= j < |lines + ["\r"]| ==> Free((lines + ["\r"])[j], '\n');
    SplitTerminated(lines + ["\r"], '\n');
  }

  /** A request without an extra part is the parser's serialization of its
      frame followed by the blank line. */
  lemma RawRequestText(c: Method, h: Headers)
    ensures RawText(FirstLine(c), h, []) ==
              Terminated([WsParserLemmas.StartLine("2.4", MethodName(c))] + WsParserLemmas.HeaderLines(h), '\n') + "\r\n"
  {
    var f := WsParser.Frame("2.4", MethodName(c), h, false, 0);
    WsParserLemmas.FrameTextLines(f);
    assert RawText(FirstLine(c), h, []) == WsParser.FrameText(f, []) + "\r\n";
  }

  /** Whether `removeExtraSpaces` keeps the character at `i`: it drops a
      whitespace character that starts the string or follows whitespace. */
  predicate Kept(s: string, i: nat)
    requires i < |s|
  {
    !(IsSpace(s[i]) && (i == 0 || IsSpace(s[i - 1])))
  }

  /** The characters `removeExtraSpaces` keeps, in their order. */
  function Squeezed(s: string): string {
    if s == [] then []
    else Squeezed(s[..|s| - 1]) + (if Kept(s, |s| - 1) then [s[|s| - 1]] else [])
  }

  /** `internal::removeExtraSpaces`: std::remove_if compacts the kept
      characters to the front of the buffer and returns their count; the
      string is then cut to that length. */
  method RemoveExtraSpaces(input: array<char>) returns (len: nat)
    modifies input
    ensures len <= input.Length && input[..len] == Squeezed(old(input[..]))
  {
    ghost var s := input[..];
    var prevIsSpace := true;
    var w := 0;
    var i := 0;
    while i < input.Length
      invariant w <= i <= input.Length
      invariant input[i..] == s[i..]
      invariant input[..w] == Squeezed(s[..i])
      invariant prevIsSpace == (i == 0 || IsSpace(s[i - 1]))
    {
      var curr := input[i];
      var r := IsSpace(curr) && prevIsSpace;
      prevIsSpace := IsSpace(curr);
      assert s[..i + 1][..i] == s[..i];
      if !r {
        input[w] := curr;
        w := w + 1;
      }
      i := i + 1;
    }
    assert s[..input.Length] == s;
    len := w;
  }

  /** A character of a prefix is kept exactly when it is kept in the whole
      string. */
  lemma KeptPrefix(s: string, n: nat, i: nat)
    requires i < n <= |s|
    ensures Kept(s[..n], i) == Kept(s, i)
  {
  }

  /** The result never starts with whitespace. */
  lemma {:induction false} SqueezedNoLeadingSpace(s: string)
    ensures Squeezed(s) != [] ==> !IsSpace(Squeezed(s)[0])
    decreases |s|
  {
    if s != [] {
      var n := |s| - 1;
      SqueezedNoLeadingSpace(s[..n]);
      if Kept(s, n) && IsSpace(s[n]) {
        KeptPrefix(s, n, n - 1);
        SqueezedLast(s[..n]);
      }
    }
  }

  /** A kept last character is the last character of the result. */
  lemma SqueezedLast(s: string)
    requires s != [] && Kept(s, |s| - 1)
    ensures Squeezed(s) != [] && Squeezed(s)[|Squeezed(s)| - 1] == s[|s| - 1]
  {
  }

  /** The result never holds two whitespace characters in a row. */
  lemma {:induction false} SqueezedNoDoubleSpace(s: string)
    ensures forall j :: 0 <= j < |Squeezed(s)| - 1 ==>
              !(IsSpace(Squeezed(s)[j]) && IsSpace(Squeezed(s)[j + 1]))
    decreases |s|
  {
    if s != [] {
      var n := |s| - 1;
      var p := s[..n];
      SqueezedNoDoubleSpace(p);
      if Kept(s, n) && IsSpace(s[n]) {
        KeptPrefix(s, n, n - 1);
        SqueezedLast(p);
      }
    }
  }

  /** The result is the input's kept characters, in their order: a
      subsequence of the input holding every character that is not
      whitespace and the first of every whitespace run after one. */
  lemma {:induction false} SqueezedSelects(s: string) returns (idx: seq<nat>)
    ensures |idx| == |Squeezed(s)|
    ensures forall j :: 0 <= j < |idx| ==> idx[j] < |s| && Kept(s, idx[j]) && Squeezed(s)[j] == s[idx[j]]
    ensures forall j, k :: 0 <= j < k < |idx| ==> idx[j] < idx[k]
    ensures forall i :: 0 <= i < |s| && Kept(s, i) ==> i in idx
    decreases |s|
  {
    if s == [] {
      idx := [];
    } else {
      var n := |s| - 1;
      var p := s[..n];
      var pre := SqueezedSelects(p);
      forall j | 0 <= j < |pre| ensures Kept(s, pre[j]) && s[pre[j]] == p[pre[j]] {
        KeptPrefix(s, n, pre[j]);
      }
      forall i | 0 <= i < n && Kept(s, i) ensures i in pre {
        KeptPrefix(s, n, i);
      }
      if Kept(s, n) {
        idx := pre + [n];
        assert Squeezed(s) == Squeezed(p) + [s[n]];
      } else {
        idx := pre;
        assert Squeezed(s) == Squeezed(p);
      }
    }
  }
}
