// The tokenizer of the frame parser (`cpqd::TokenStream`).  A line is cut
// into separators, line ends, the `ASR` title and identifier runs; after a
// separator the scanner is in value mode, where spaces and `:` also belong to
// a run.  NextToken is the specification of one scanning step; the class
// TokenStream performs it in place, as the original iterator-based code does.

module WsScanner {
  import opened Common

  datatype TokenKind = SepOp | Crlf | AsrTitle | Id | Eoft

  datatype Token = Token(kind: TokenKind, content: string)

  /** `TokenStream::IsSymbol`: punctuation that may appear inside a run;
      `:` only in value mode. */
  predicate IsSymbol(c: char, afterSep: bool) {
    c == '-' || c == '/' || c == '.' || c == ',' || c == '_' ||
    c == '(' || c == ')' || c == '>' || c == '<' ||
    (c == ':' && afterSep)
  }

  /** A character that continues an identifier run. */
  predicate InRun(c: char, afterSep: bool) {
    IsAlpha(c) || IsDigit(c) || IsSymbol(c, afterSep) || (afterSep && c == ' ')
  }

  /** First index at or after `i` whose character does not continue a run. */
  function RunEnd(s: string, i: nat, afterSep: bool): (j: nat)
    requires i <= |s|
    ensures i <= j <= |s|
    ensures forall k :: i <= k < j ==> InRun(s[k], afterSep)
    ensures j == |s| || !InRun(s[j], afterSep)
    decreases |s| - i
  {
    if i == |s| || !InRun(s[i], afterSep) then i else RunEnd(s, i + 1, afterSep)
  }

  /** First index at or after `i` that is not a blank (only ' ' is skipped). */
  function BlankEnd(s: string, i: nat): (j: nat)
    requires i <= |s|
    ensures i <= j <= |s|
    ensures forall k :: i <= k < j ==> s[k] == ' '
    ensures j == |s| || s[j] != ' '
    decreases |s| - i
  {
    if i == |s| || s[i] != ' ' then i else BlankEnd(s, i + 1)
  }

  /** The fields of a TokenStream: the line, the iterator position, the last
      token returned, the unget flag and the value-mode flag. */
  datatype Scan = Scan(str: string, pos: nat, last: Token, ungot: bool, afterSep: bool)

  type ScanState = ts: Scan | ts.pos <= |ts.str|
    witness Scan("", 0, Token(Eoft, ""), false, false)

  /** A default-constructed TokenStream. */
  const InitialScan: ScanState := Scan("", 0, Token(Eoft, ""), false, false)

  datatype Scanned = Scanned(tok: Token, ts: ScanState)

  /** `TokenStream::GetNext`; None is the "Invalid Token" parser error. */
  function NextToken(ts: ScanState): (r: Option<Scanned>)
    ensures r.Some? ==> r.value.ts.str == ts.str && r.value.ts.last == ts.last
                        && r.value.ts.ungot == ts.ungot
  {
    NextAt(ts, BlankEnd(ts.str, ts.pos))
  }

  /** The token that starts at `p`, where the blanks end. */
  function NextAt(ts: ScanState, p: nat): (r: Option<Scanned>)
    requires p <= |ts.str|
    ensures r.Some? ==> r.value.ts.str == ts.str && r.value.ts.last == ts.last
                        && r.value.ts.ungot == ts.ungot
  {
    if p == |ts.str| then
      Some(Scanned(Token(Eoft, ""), ts.(pos := p, afterSep := false)))
    else
      var c := ts.str[p];
      if c == ':' then
        Some(Scanned(Token(SepOp, ""), ts.(pos := p + 1, afterSep := true)))
      else if c == '\n' then
        Some(Scanned(Token(Crlf, ""), ts.(pos := p + 1, afterSep := false)))
      else if InRun(c, ts.afterSep) then
        var j := RunEnd(ts.str, p + 1, ts.afterSep);
        var text := ts.str[p..j];
        var tok := if text == "ASR" then Token(AsrTitle, "") else Token(Id, text);
        Some(Scanned(tok, ts.(pos := j)))
      else
        None
  }

  /** `TokenStream::Get`: the pushed-back token if there is one, otherwise
      the next token, which is remembered as the last one. */
  function GetToken(ts: ScanState): (r: Option<Scanned>)
    ensures ts.ungot ==> r == Some(Scanned(ts.last, ts.(ungot := false)))
    ensures r.Some? ==> !r.value.ts.ungot && r.value.ts.last == r.value.tok
  {
    if ts.ungot then Some(Scanned(ts.last, ts.(ungot := false)))
    else
      match NextToken(ts)
      case None => None
      case Some(sc) => Some(Scanned(sc.tok, sc.ts.(last := sc.tok)))
  }

  /** `TokenStream::Unget`. */
  function UngetToken(ts: ScanState): (r: ScanState)
    ensures r.ungot && r.last == ts.last
  {
    ts.(ungot := true)
  }

  /** `TokenStream::Tokenize`: restart on a new line; the last token is kept. */
  function TokenizeLine(ts: ScanState, line: string): (r: ScanState)
    ensures r.str == line && r.pos == 0 && !r.ungot && !r.afterSep
  {
    Scan(line, 0, ts.last, false, false)
  }

  /** Getting a token just pushed back returns it again and leaves the stream
      where it was. */
  lemma GetAfterUnget(ts: ScanState)
    requires !ts.ungot
    ensures GetToken(UngetToken(ts)) == Some(Scanned(ts.last, ts))
  {
  }

  /** The scanner's character classes: what the first non-blank character
      decides.  A `:` always separates and switches value mode on; a line end
      switches it off; a run character starts a run; anything else is an
      error. */
  lemma {:induction false} ScannerClasses(ts: ScanState)
    requires !ts.ungot
    ensures var p := BlankEnd(ts.str, ts.pos);
            var r := GetToken(ts);
            (p == |ts.str| ==> r.Some? && r.value.tok.kind == Eoft && !r.value.ts.afterSep)
            && (p < |ts.str| && ts.str[p] == ':' ==>
                  r.Some? && r.value.tok.kind == SepOp && r.value.ts.afterSep)
            && (p < |ts.str| && ts.str[p] == '\n' ==>
                  r.Some? && r.value.tok.kind == Crlf && !r.value.ts.afterSep)
            && (p < |ts.str| && ts.str[p] != ':' && ts.str[p] != '\n' ==>
                  (r.Some? <==> InRun(ts.str[p], ts.afterSep)))
  {
  }

  /** A run scanned in key mode stops at a space or `:`; in value mode it
      takes both, so inner and trailing spaces belong to the value. */
  lemma ValueModeKeepsSpaces(s: string, i: nat)
    requires i <= |s|
    ensures RunEnd(s, i, false) <= RunEnd(s, i, true)
  {
  }

  /** Characters of a key, version or command that survive a round trip:
      run characters of key mode. */
  predicate KeyWord(w: string) {
    w != [] && w != "ASR" && forall k :: 0 <= k < |w| ==> InRun(w[k], false)
  }

  /** Characters of a header value that survive a round trip: run characters
      of value mode, not starting with a blank or a separator, and not the
      title `ASR`. */
  predicate ValueWord(w: string) {
    w != "ASR" && (w != [] ==> w[0] != ' ' && w[0] != ':') &&
    forall k :: 0 <= k < |w| ==> InRun(w[k], true)
  }

  /** A word of run characters followed by a non-run character is scanned as
      exactly that word. */
  lemma {:induction false} RunCoversWord(s: string, i: nat, n: nat, afterSep: bool)
    requires i + n <= |s|
    requires forall k :: i <= k < i + n ==> InRun(s[k], afterSep)
    requires i + n == |s| || !InRun(s[i + n], afterSep)
    ensures RunEnd(s, i, afterSep) == i + n
    decreases n
  {
    if n > 0 {
      RunCoversWord(s, i + 1, n - 1, afterSep);
    }
  }

  /** Scanning a word of run characters that is followed by a character
      outside the run: the word comes back as one token, the title token when
      the word is `ASR`. */
  lemma ScanWord(ts: ScanState, w: string)
    requires !ts.ungot && ts.pos + |w| <= |ts.str| && ts.str[ts.pos..ts.pos + |w|] == w
    requires w != [] && w[0] != ' ' && w[0] != ':'
    requires forall k :: 0 <= k < |w| ==> InRun(w[k], ts.afterSep)
    requires ts.pos + |w| == |ts.str| || !InRun(ts.str[ts.pos + |w|], ts.afterSep)
    ensures var tok := if w == "ASR" then Token(AsrTitle, "") else Token(Id, w);
            GetToken(ts) == Some(Scanned(tok, ts.(pos := ts.pos + |w|, last := tok)))
  {
    var s := ts.str;
    var p := ts.pos;
    assert s[p] == w[0];
    assert BlankEnd(s, p) == p;
    assert w[0] != '\n' by { assert InRun(w[0], ts.afterSep); }
    forall k | p + 1 <= k < p + |w| ensures InRun(s[k], ts.afterSep) {
      assert s[k] == s[p..p + |w|][k - p];
    }
    RunCoversWord(s, p + 1, |w| - 1, ts.afterSep);
  }

  /** Blanks and then a key word, ended by a character outside key mode's
      runs: the word comes back as one identifier. */
  lemma ScanKeyWord(ts: ScanState, b: nat, w: string)
    requires !ts.ungot && !ts.afterSep && KeyWord(w)
    requires ts.pos + b + |w| < |ts.str|
    requires forall k :: ts.pos <= k < ts.pos + b ==> ts.str[k] == ' '
    requires ts.str[ts.pos + b..ts.pos + b + |w|] == w
    requires !InRun(ts.str[ts.pos + b + |w|], false)
    ensures GetToken(ts) == Some(Scanned(Token(Id, w), ts.(pos := ts.pos + b + |w|, last := Token(Id, w))))
  {
    SkipBlanks(ts, b);
    var u := ts.(pos := ts.pos + b);
    assert InRun(w[0], false);
    ScanWord(u, w);
  }

  /** Scanning a `:` or a line end. */
  lemma ScanMark(ts: ScanState)
    requires !ts.ungot && ts.pos < |ts.str|
    requires ts.str[ts.pos] == ':' || ts.str[ts.pos] == '\n'
    ensures var c := ts.str[ts.pos];
            var tok := Token(if c == ':' then SepOp else Crlf, "");
            GetToken(ts) == Some(Scanned(tok, ts.(pos := ts.pos + 1, afterSep := c == ':', last := tok)))
  {
  }

  /** At the end of the line the scanner returns the end mark. */
  lemma ScanEnd(ts: ScanState)
    requires !ts.ungot && ts.pos == |ts.str|
    ensures GetToken(ts) == Some(Scanned(Token(Eoft, ""), ts.(afterSep := false, last := Token(Eoft, ""))))
  {
  }

  /** Blanks before a token are skipped. */
  lemma SkipBlanks(ts: ScanState, n: nat)
    requires !ts.ungot && ts.pos + n <= |ts.str|
    requires forall k :: ts.pos <= k < ts.pos + n ==> ts.str[k] == ' '
    ensures GetToken(ts) == GetToken(ts.(pos := ts.pos + n))
  {
    BlankSkip(ts.str, ts.pos, n);
    assert NextAt(ts, BlankEnd(ts.str, ts.pos)) == NextAt(ts.(pos := ts.pos + n), BlankEnd(ts.str, ts.pos));
  }

  lemma {:induction false} BlankSkip(s: string, i: nat, n: nat)
    requires i + n <= |s|
    requires forall k :: i <= k < i + n ==> s[k] == ' '
    ensures BlankEnd(s, i) == BlankEnd(s, i + n)
    decreases n
  {
    if n > 0 {
      BlankSkip(s, i + 1, n - 1);
    }
  }

  /** The token stream of the parser. */
  class TokenStream {
    var str: string
    var pos: nat
    var last: Token
    var ungot: bool
    var afterSep: bool

    predicate Valid()
      reads this
    {
      pos <= |str|
    }

    function State(): (ts: ScanState)
      reads this
      requires Valid()
      ensures ts.str == str && ts.pos == pos
    {
      Scan(str, pos, last, ungot, afterSep)
    }

    constructor ()
      ensures Valid() && State() == InitialScan
    {
      str := "";
      pos := 0;
      last := Token(Eoft, "");
      ungot := false;
      afterSep := false;
    }

    method Tokenize(line: string)
      requires Valid()
      modifies this
      ensures Valid() && State() == TokenizeLine(old(State()), line)
    {
      str := line;
      pos := 0;
      ungot := false;
      afterSep := false;
    }

    method Unget()
      requires Valid()
      modifies this
      ensures Valid() && State() == UngetToken(old(State()))
    {
      ungot := true;
    }

    /** Advances the iterator over blanks. */
    method SkipBlanks()
      requires Valid()
      modifies this
      ensures str == old(str) && last == old(last) && ungot == old(ungot)
      ensures Valid() && pos == BlankEnd(str, old(pos))
      ensures afterSep == old(afterSep)
    {
      var p := pos;
      while p < |str| && str[p] == ' '
        invariant pos <= p <= |str| && BlankEnd(str, p) == BlankEnd(str, pos)
      {
        p := p + 1;
      }
      pos := p;
    }

    /** Collects a run that starts at the iterator. */
    method ScanRun() returns (text: string)
      requires Valid() && pos < |str| && InRun(str[pos], afterSep)
      modifies this
      ensures str == old(str) && last == old(last) && ungot == old(ungot)
      ensures Valid() && pos == RunEnd(str, old(pos) + 1, afterSep)
      ensures text == str[old(pos)..pos]
      ensures afterSep == old(afterSep)
    {
      var s := str;
      var p := pos + 1;
      while p < |s| && InRun(s[p], afterSep)
        invariant pos < p <= |s|
        invariant RunEnd(s, p, afterSep) == RunEnd(s, pos + 1, afterSep)
      {
        p := p + 1;
      }
      text := s[pos..p];
      pos := p;
    }

    /** One scanning step; `ok` is false where the original throws. */
    method GetNext() returns (ok: bool, tok: Token)
      requires Valid()
      modifies this
      ensures Valid() && str == old(str)
      ensures ok <==> NextToken(old(State())).Some?
      ensures ok ==> NextToken(old(State())).value == Scanned(tok, State())
    {
      ghost var t0 := State();
      SkipBlanks();
      ghost var t1 := State();
      assert NextToken(t0) == NextAt(t1, pos);
      if pos == |str| {
        afterSep := false;
        return true, Token(Eoft, "");
      }
      var c := str[pos];
      if c == ':' {
        pos := pos + 1;
        afterSep := true;
        return true, Token(SepOp, "");
      } else if c == '\n' {
        pos := pos + 1;
        afterSep := false;
        return true, Token(Crlf, "");
      } else if InRun(c, afterSep) {
        var text := ScanRun();
        if text == "ASR" {
          return true, Token(AsrTitle, "");
        }
        return true, Token(Id, text);
      } else {
        return false, Token(Eoft, "");
      }
    }

    /** `TokenStream::Get`. */
    method Get() returns (ok: bool, tok: Token)
      requires Valid()
      modifies this
      ensures Valid()
      ensures ok <==> GetToken(old(State())).Some?
      ensures ok ==> GetToken(old(State())).value == Scanned(tok, State())
    {
      if ungot {
        ungot := false;
        return true, last;
      }
      ok, tok := GetNext();
      if ok {
        last := tok;
      }
    }
  }
}
