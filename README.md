# ASR client core, modelled in Dafny

This project models the client core of CPqD's speech-recognition SDK
(`asr-sdk-cpp`) and proves properties of that model. The client talks a
line-oriented text protocol with the recognition server. Every frame starts
with the line `ASR 2.4 <COMMAND>`, followed by `key:value` header lines and
an optional body. The model covers:

- **The frame codec.** This is the scanner and recursive-descent parser of
  `cpqd::WsParser` and its serializer `Str`. It also covers the outbound
  message (`ASRMessageParser::raw`, `get_header`, the in-place edits of
  `ASRMessageRequest`), the inbound adapter (`ASRMessageResponse::consume`,
  `removeExtraSpaces`) and the string helpers `getMethodString`,
  `firstLine` and `split`.
- **The audio path.** This is the `RingBuffer` (a fixed array with two
  wrapping indices and one reserved slot) and the `BufferAudioSource`
  around it.
- **The result model.** `RecognitionResult`, `Alternative` and
  `Classifier` are modelled with their status-string mapping and their
  builders.
- **The inbound dispatcher.** This is the chain of `ASRProcessMsg`
  handlers for RESPONSE, RECOGNITION_RESULT, START_OF_SPEECH and
  END_OF_SPEECH frames, and the SEND_AUDIO streaming loop. They are
  modelled as methods on the recognizer's `Impl` fields.
- **The outbound requests.** `ASRSendMessage` builds CREATE_SESSION,
  SET_PARAMETERS and START_RECOGNITION.
- **The recognizer front end.** `SpeechRecognizer` has `resetImpl`,
  `recognize`, `waitRecognitionResult`, `cancelRecognition`, `close` and
  `isOpen`. `SpeechRecognizer::Builder` has its URL check, its setters and
  `build`.
- **Configuration and errors.** These are `RecognitionConfig` and its
  builder, the environment-override readers, and `RecognitionError` with
  `RecognitionException`.

Each source file is one module. `Common` holds `Option`/`Result` and the
decimal conversions (`std::to_string`, `std::stoi`, `std::stoul`).
`HeaderMap` models `std::map<std::string, std::string>` as a list sorted by
key. `Json` is an abstract JSON value with the accessors the client uses.

Where the code changes things in place, the model does too. Such code
becomes a class whose methods carry `modifies` clauses: the token stream,
the parser, the messages, the ring buffer, the audio source, the
recognizer's `Impl`, the chain links, the builders and the recognizer. Each
method is proved against a function of the old state. The properties are
proved about those functions. The recognizer's `Impl` is read as one value
(`Impl.Snapshot()`). Every handler's effect is a function from that value
to an `Outcome`: either the handler returned a flag, or an exception
escaped it. The value includes the transport's connection status
(`kConnecting`, `kOpen`, `kFailed`, `kClose`). Once it has left
`kConnecting` it never goes back, so a closed `Impl` cannot be reopened
(`SpeechRecognizers.NoReopenAfterClose`).

Where the behaviour description of the repository and its code disagree,
the model follows the code:

- **Duplicate header keys.** The description says a duplicate key
  overwrites the earlier value. The parser uses `std::map::insert`, so the
  first value wins (`WsParserLemmas.StmKeeps`).
- **SET_PARAMETERS headers.** The description lists SET_PARAMETERS headers
  (`decoder.continuousMode`, `endpointer.maxSegmentDuration`, the account
  tag, `Channel-Identifier`, `Media-Type`, `Ver-Buffer-Utterance`) that
  `src/send_message.cc` never sends. The model sends only the sixteen the
  code sends (`SendMessages.ParameterHeadersSpec`).
- **Errors and the recognition.** The description says a non-SUCCESS
  `Result` ends the current recognition. `generateError` only reports the
  error and keeps it pending; `recognizing_` is left set
  (`ProcessMessages.ResponseFailure`). The pending error is what wakes
  the waiter.
- **Session-Status in a RESPONSE.** The RESPONSE handler compares the
  header name `"Session-Status"`, not its value, with the status names. A
  RESPONSE therefore never changes the session
  (`ProcessMessages.ResponseKeepsSession`).

## Model

| member | source | states |
|---|---|---|
| Common.NatToDecimal | src/send_message.cc:60-64 | `std::to_string` of an unsigned value is a non-empty run of decimal digits without a leading zero |
| Common.DecimalRoundTrip | src/send_message.cc:60-64 | reading back the digits `std::to_string` writes gives the number again |
| Common.NatToDecimalInjective | src/send_message.cc:60-120 | distinct numbers are written as distinct strings |
| Common.ReadNumberPrefix | src/aux/ws_parser.cc:270 | strtol/strtoul find a number exactly when a digit follows the leading blanks and the optional sign |
| Common.StdStoi | src/aux/ws_parser.cc:270 | `std::stoi` yields a value inside the 32-bit `int` range, or the exception it throws |
| Common.StdStoul | src/recognition_config.cc:259 | `std::stoul` yields a value below 2^64, or the exception it throws |
| Common.StoulReadsDecimal | src/recognition_config.cc:259 | every number `std::to_string` writes is read back by `std::stoul` |
| Common.DigitRunEnd | src/aux/ws_parser.cc:270 | the end of a digit run: all digits before it, none at it |
| Common.SpaceRunEnd | src/aux/ws_parser.cc:270 | the end of a white-space run: all white space before it, none at it |
| HeaderMap.LessIrreflexive | src/asr_message_parser.cc:26-29 | the key order of `std::map<std::string, …>` is irreflexive |
| HeaderMap.LessTransitive | src/asr_message_parser.cc:26-29 | the key order is transitive |
| HeaderMap.LessTotal | src/asr_message_parser.cc:26-29 | any two distinct keys are ordered one way or the other |
| HeaderMap.LessAsymmetric | src/asr_message_parser.cc:26-29 | the key order is asymmetric |
| HeaderMap.KeySetIndex | src/asr_message_parser.cc:26-29 | a key is in the map exactly when some entry of the sorted list carries it |
| HeaderMap.ToMap | src/asr_message_parser.cc:26-29 | the sorted list stands for a map with exactly its keys |
| HeaderMap.Find | src/asr_message_parser.cc:39 | `std::map::find` finds a key exactly when it is present, with its value |
| HeaderMap.Put | src/asr_message_request.h:38-40 | `operator[]` assignment sets the key to the value and keeps every other key |
| HeaderMap.Insert | src/aux/ws_parser.cc:273 | `std::map::insert` adds a new key but never replaces an existing value |
| HeaderMap.Erase | src/asr_message_request.h:48 | `std::map::erase` removes the key and keeps every other key |
| HeaderMap.InsertLargest | src/aux/ws_parser.cc:273 | inserting a key above every present key appends it, which is how a parser rebuilds a serialized map |
| HeaderMap.ToMapInjective | src/asr_message_parser.cc:26-29 | two sorted lists for the same map are equal, so the serialization of a map is unique |
| HeaderMap.KeyNotInTail | src/asr_message_parser.cc:26-29 | in a sorted list the first key does not recur |
| HeaderMap.TailAboveHead | src/asr_message_parser.cc:26-29 | every later key is larger than the first |
| HeaderMap.BelowHeadAbsent | src/asr_message_parser.cc:39-42 | a key below the first key is absent |
| HeaderMap.ConsSorted | src/asr_message_parser.cc:26-29 | a pair put in front of larger keys keeps the list sorted |
| HeaderMap.ConsBelowHead | src/asr_message_parser.cc:26-29 | a pair below the first key put in front keeps the list sorted and is new |
| Json.AccessorsTyped | src/process_result.cc:25-58 | a typed accessor (`string_value`, `bool_value`, `number_value`, `array_items`) that answers non-empty tells the value's type, and then every other accessor answers empty; a string, number or array is rebuilt from its accessor |
| Json.MissingFieldDefaults | src/process_result.cc:25-58 | `operator[]` on a missing key, or on a value that is not an object, gives null: its text is "", its score 0, its number 0, its flag false, its array empty, and every key below it null again |
| Json.IntValue | src/process_result.cc:31 | `int_value` truncates toward zero, and gives 0 for a non-number |
| MessageUtils.MethodName | src/message_utils.cc:23-38 | `getMethodString` gives a non-empty name made of capitals and underscores |
| MessageUtils.MethodOf | src/message_utils.cc:23-38 | reading a command name gives a method whose name it is |
| MessageUtils.MethodNameRoundTrip | src/message_utils.cc:23-38 | each of the twelve names is read back as its own method |
| MessageUtils.MethodNameInjective | src/message_utils.cc:23-38 | the twelve methods have twelve distinct names |
| MessageUtils.FirstLine | src/message_utils.cc:40-42 | `firstLine(c)` is "ASR 2.4", a space, and the method's name |
| MessageUtils.IndexOf | src/message_utils.cc:46-59 | the first delimiter position, or the length when there is none |
| MessageUtils.SplitPiecesFree | src/message_utils.cc:46-59 | no piece of `split(s, d)` contains `d` |
| MessageUtils.JoinSplit | src/message_utils.cc:46-59 | joining the pieces with `d` gives `s` back, and one trailing `d` is dropped |
| MessageUtils.SplitJoin | src/message_utils.cc:46-59 | splitting joined delimiter-free pieces (the last one non-empty) gives the pieces back |
| MessageUtils.SplitTerminated | src/message_utils.cc:46-59 | splitting lines that each end with the delimiter gives the lines, with no empty last piece |
| MessageUtils.JoinCons | src/message_utils.cc:46-59 | joining a piece in front of a list puts the delimiter between them |
| MessageUtils.IndexOfFree | src/message_utils.cc:46-59 | a piece without the delimiter is read whole |
| MessageUtils.IndexOfPrefix | src/message_utils.cc:46-59 | the first delimiter after a delimiter-free prefix ends that prefix |
| WsScanner.RunEnd | src/aux/ws_parser.cc:104-113 | the end of an identifier run: run characters before it, none at it |
| WsScanner.BlankEnd | src/aux/ws_parser.cc:91-94 | only spaces are skipped before a token |
| WsScanner.NextToken | src/aux/ws_parser.cc:81-127 | `GetNext` keeps the line, the last token and the unget flag |
| WsScanner.NextAt | src/aux/ws_parser.cc:95-126 | scanning from a position keeps the line, the last token and the unget flag |
| WsScanner.GetToken | src/aux/ws_parser.cc:67-75 | `Get` returns the pushed-back token when there is one, and otherwise remembers the token it scans |
| WsScanner.UngetToken | src/aux/ws_parser.cc:77-79 | `Unget` pushes back the last token |
| WsScanner.TokenizeLine | src/aux/ws_parser.cc:60-65 | `Tokenize` restarts at the start of the new line, in key mode, with nothing pushed back |
| WsScanner.GetAfterUnget | src/aux/ws_parser.cc:67-79 | getting a token just pushed back returns it and leaves the stream where it was |
| WsScanner.ScannerClasses | src/aux/ws_parser.cc:90-148 | end of line gives the end token; `:` gives a separator and switches value mode on; `\n` gives a line end and switches it off; any other character either starts a run or is a parser error |
| WsScanner.ValueModeKeepsSpaces | src/aux/ws_parser.cc:141-143 | a run in value mode reaches at least as far as in key mode |
| WsScanner.RunCoversWord | src/aux/ws_parser.cc:104-113 | a word of run characters followed by a non-run character is one run |
| WsScanner.ScanWord | src/aux/ws_parser.cc:104-117 | a run is returned as an identifier, except that exactly `ASR` is the title token |
| WsScanner.ScanKeyWord | src/aux/ws_parser.cc:91-117 | blanks and then a key word come back as one identifier |
| WsScanner.ScanMark | src/aux/ws_parser.cc:96-103 | `:` and `\n` are single-character tokens that set and clear value mode |
| WsScanner.ScanEnd | src/aux/ws_parser.cc:118-122 | at the end of the line the end token comes back and value mode is off |
| WsScanner.SkipBlanks | src/aux/ws_parser.cc:91-94 | leading blanks do not change the token scanned |
| WsScanner.BlankSkip | src/aux/ws_parser.cc:91-94 | skipping some blanks first leaves the end of the blanks where it was |
| WsScanner.TokenStream.State | src/aux/ws_parser.cc:60-127 | the stream's fields read as one scanner state |
| WsScanner.TokenStream.constructor | src/aux/ws_parser.cc:60-65 | a new stream is the initial scanner state |
| WsScanner.TokenStream.Tokenize | src/aux/ws_parser.cc:60-65 | the fields after `Tokenize` are those of `TokenizeLine` |
| WsScanner.TokenStream.Unget | src/aux/ws_parser.cc:77-79 | the fields after `Unget` are those of `UngetToken` |
| WsScanner.TokenStream.SkipBlanks | src/aux/ws_parser.cc:91-94 | the iterator advances past the blanks and nothing else changes |
| WsScanner.TokenStream.ScanRun | src/aux/ws_parser.cc:104-113 | the iterator advances over the run, whose text is returned |
| WsScanner.TokenStream.GetNext | src/aux/ws_parser.cc:81-127 | `GetNext` fails exactly where `NextToken` finds a parser error, and otherwise returns its token and state |
| WsScanner.TokenStream.Get | src/aux/ws_parser.cc:67-75 | `Get` fails exactly where `GetToken` does, and otherwise returns its token and state |
| WsParser.StoreHeader | src/aux/ws_parser.cc:263-273 | a header goes into the map with `insert`, so an earlier value for the key is kept; `Content-Length` also turns on the body and sets its size to the number `std::stoi` reads, and no other header touches the frame; a value `std::stoi` rejects lets the exception escape |
| WsParser.SecondContentLength | src/aux/ws_parser.cc:263-273 | with two `Content-Length` headers the body size is the second one's while the header map keeps the first value |
| WsParser.LineText | src/aux/ws_parser.cc:166-168 | the line's last character (the `\r`) is replaced by a line end |
| WsParser.Parse | src/aux/ws_parser.cc:154-184 | the constructor fails only where `std::stoi` throws; otherwise it keeps the header pass's frame and takes as body the last `Content-Length` characters of the input, or nothing |
| WsParser.ParamsOf | src/aux/ws_parser.cc:311-324 | all values in key order when every key is declared, otherwise nothing |
| WsParser.WsParser.constructor | src/aux/ws_parser.cc:186-189 | a default parser is empty |
| WsParser.WsParser.CmdExpr | src/aux/ws_parser.cc:233-248 | the status-line rule on the parser's fields is `CmdExprF` |
| WsParser.WsParser.KeyExpr | src/aux/ws_parser.cc:250-274 | the header rule on the parser's fields is `KeyExprF` |
| WsParser.WsParser.StoreKey | src/aux/ws_parser.cc:266-273 | the store at the end of the header rule is `StoreHeader` |
| WsParser.WsParser.Expr | src/aux/ws_parser.cc:276-284 | the expression rule on the parser's fields is `ExprF` |
| WsParser.WsParser.Stm | src/aux/ws_parser.cc:286-298 | the statement rule on the parser's fields is `StmF` |
| WsParser.WsParser.FromString | src/aux/ws_parser.cc:154-184 | the constructor builds the parser `Parse` describes, or none when `std::stoi` throws out of it |
| WsParser.WsParser.ReadLines | src/aux/ws_parser.cc:164-177 | the line loop ends as `ParseLines` says: finished with its frame, or aborted by a library exception |
| WsParser.WsParser.ReadLine | src/aux/ws_parser.cc:165-176 | one turn of the line loop hands the rest of the lines the state `ParseLines` continues from |
| WsParser.WsParser.ReadBody | src/aux/ws_parser.cc:179-183 | the body is the last `size_body_` characters of the input, or nothing |
| WsParser.WsParser.Get | src/aux/ws_parser.cc:300-309 | a declared key gives its value; an undeclared one gives no value and no exception |
| WsParser.WsParser.GetParams | src/aux/ws_parser.cc:311-324 | all or nothing, in the order of the keys |
| WsParser.WsParser.Add | src/aux/ws_parser.cc:330-332 | `Add` never replaces an existing key and touches nothing else |
| WsParser.WsParser.SetBody | src/aux/ws_parser.cc:350-353 | `SetBody` replaces the body, marks the frame as having one, and touches nothing else |
| WsParser.WsParser.Str | src/aux/ws_parser.cc:359-371 | `Str` writes the frame's serialization |
| WsParser.AppendNothing | src/aux/ws_parser.cc:311-324 | prefixing no values changes nothing |
| WsParser.AppendStep | src/aux/ws_parser.cc:311-324 | prefixing values one at a time is prefixing them all |
| WsParserLemmas.CmdTokens | src/aux/ws_parser.cc:233-248 | ASR_TITLE ID ID CRLF sets the version and the command |
| WsParserLemmas.KeyTokens | src/aux/ws_parser.cc:250-274 | ID ':' value line end inserts the header |
| WsParserLemmas.CmdAt | src/aux/ws_parser.cc:233-248 | a status line, on its characters, sets the version and the command |
| WsParserLemmas.CmdScan | src/aux/ws_parser.cc:81-127 | the tokens of a status line |
| WsParserLemmas.CmdScanTail | src/aux/ws_parser.cc:81-127 | the command and line end of a status line |
| WsParserLemmas.ScanTitle | src/aux/ws_parser.cc:115-117 | a line starting with the word `ASR` starts with the title token |
| WsParserLemmas.CmdLine | src/aux/ws_parser.cc:233-248 | a status line sets both fields whatever they held, so a later status line overwrites an earlier one |
| WsParserLemmas.Blanks | src/aux/ws_parser.cc:91-94 | a string of `n` blanks |
| WsParserLemmas.KeyAt | src/aux/ws_parser.cc:250-274 | a header line, on its characters, inserts its key with its value |
| WsParserLemmas.ValueTail | src/aux/ws_parser.cc:141-143 | in value mode leading blanks are skipped and the rest of the line, inner spaces included, is the value; an empty value is "" |
| WsParserLemmas.KeyLine | src/aux/ws_parser.cc:250-274 | `key:` then blanks then a value stores that value, or "" when nothing follows the `:` |
| WsParserLemmas.HeaderLines | src/aux/ws_parser.cc:359-371 | the serialized header lines as the line split hands them over |
| WsParserLemmas.TerminatedAppend | src/aux/ws_parser.cc:359-371 | terminated blocks of lines concatenate |
| WsParserLemmas.HeadersTextLines | src/aux/ws_parser.cc:359-371 | the header block is its header lines, each ended by `\n` |
| WsParserLemmas.ParseHeaderLines | src/aux/ws_parser.cc:164-177 | reading the serialized header lines of a sorted list rebuilds that list |
| WsParserLemmas.ParseLinesStep | src/aux/ws_parser.cc:164-177 | a parsed line hands the next lines its frame and stream |
| WsParserLemmas.LinesFree | src/aux/ws_parser.cc:359-371 | no serialized line of a body-less frame holds a `\n` |
| WsParserLemmas.ParseStr | src/aux/ws_parser.cc:154-184 | parsing `Str()` of a body-less frame with tokenizable fields recovers its version, command and headers |
| WsParserLemmas.ParseFrameLines | src/aux/ws_parser.cc:164-177 | a start line and sorted header lines give the version, the command and the list |
| WsParserLemmas.StmKeeps | src/aux/ws_parser.cc:273 | a statement never changes or removes a stored header, so a duplicate key keeps its first value |
| WsParserLemmas.ExprKeeps | src/aux/ws_parser.cc:276-284 | an expression never changes or removes a stored header |
| WsParserLemmas.CmdExprKeeps | src/aux/ws_parser.cc:233-248 | a status line changes no header |
| WsParserLemmas.KeyExprKeeps | src/aux/ws_parser.cc:250-274 | a header line never changes or removes a stored header |
| WsParserLemmas.ParseLinesKeeps | src/aux/ws_parser.cc:164-177 | the header pass never changes or removes a stored header |
| WsParserLemmas.InvalidLineStops | src/aux/ws_parser.cc:168-174 | a line that starts with a character outside the grammar stops parsing silently; earlier lines are kept and later ones ignored |
| WsParserLemmas.AsrValueStops | src/aux/ws_parser.cc:263-265 | a header whose value is exactly `ASR` is a parse error that stops parsing |
| WsParserLemmas.AsrValueAt | src/aux/ws_parser.cc:263-265 | on its characters, a header valued `ASR` stops the statement with the frame unchanged |
| WsParserLemmas.BlankLine | src/aux/ws_parser.cc:286-291 | a bare `\r` line ends the header section once `Content-Length` has been seen, and is skipped before |
| WsParserLemmas.FrameTextLines | src/aux/ws_parser.cc:359-371 | a body-less serialization is its start line and header lines, each ended by `\n` |
| WsParserLemmas.HeaderLineStep | src/aux/ws_parser.cc:164-177 | one header line of a sorted list appends its pair |
| WsParserLemmas.HeaderStm | src/aux/ws_parser.cc:286-298 | the statement on one serialized header line inserts its pair |
| WsParserLemmas.PrefixInsert | src/aux/ws_parser.cc:273 | inserting the next pair of a sorted list extends the prefix |
| WsParserLemmas.BlankStm | src/aux/ws_parser.cc:286-291 | an empty line is the empty statement |
| AsrMessage.FindText | src/asr_message_response.cc:48 | `std::string::find` gives the first occurrence, or none |
| AsrMessage.OccursShift | src/asr_message_response.cc:48 | occurrences past the first character are occurrences in the tail |
| AsrMessage.SplitAtBlankLine | src/asr_message_response.cc:48-55 | the payload is split at the first blank line, or kept whole |
| AsrMessage.AsrMessage.constructor | src/asr_message_parser.h:32 | a new message is empty |
| AsrMessage.AsrMessage.Request | src/asr_message_request.h:27 | a request for a method starts with that method's first line and has no headers and no body |
| AsrMessage.AsrMessage.Raw | src/asr_message_parser.cc:21-36 | `raw()` writes the start line and CRLF only when there is one, the headers in key order, a blank CRLF always, then the body and CRLF only when non-empty |
| AsrMessage.AsrMessage.GetHeader | src/asr_message_parser.cc:38-46 | the stored value, or "" for an absent key |
| AsrMessage.AsrMessage.SetHeader | src/asr_message_request.h:38-40 | afterwards the key reads as the new value, every other header reads as before, and the start line and body are unchanged |
| AsrMessage.AsrMessage.RemoveHeader | src/asr_message_request.h:48 | afterwards the key reads as "" and every other header as before |
| AsrMessage.AsrMessage.SetExtra | src/asr_message_request.h:54 | the body is replaced and nothing else |
| AsrMessage.AsrMessage.SetStartLine | src/asr_message_request.h:60 | the start line is replaced and nothing else |
| AsrMessage.AsrMessage.Consume | src/asr_message_response.cc:40-56 | the headers and body are the parser's; the start line is "ASR 2.4 " plus the command, whatever version came in; a `std::stoi` exception leaves the message as it was |
| AsrMessage.MethodNameKeyWord | src/message_utils.cc:23-38 | every method name is one identifier for the scanner |
| AsrMessage.RawParses | src/asr_message_parser.cc:21-36 | parsing a body-less request's `raw()` gives version "2.4", its command and its headers |
| AsrMessage.RawRequestLines | src/asr_message_parser.cc:21-36 | a body-less request splits into its start line, its header lines and the blank line |
| AsrMessage.RawRequestText | src/asr_message_parser.cc:21-36 | a body-less request is the parser's serialization followed by the blank line |
| AsrMessage.RemoveExtraSpaces | src/asr_message_response.cc:27-36 | the compacted prefix of the array is the kept characters in order |
| AsrMessage.KeptPrefix | src/asr_message_response.cc:27-36 | whether a character is kept depends only on what comes before it |
| AsrMessage.SqueezedNoLeadingSpace | src/asr_message_response.cc:27-36 | the result never starts with white space |
| AsrMessage.SqueezedLast | src/asr_message_response.cc:27-36 | a kept last character ends the result |
| AsrMessage.SqueezedNoDoubleSpace | src/asr_message_response.cc:27-36 | the result never holds two white-space characters in a row |
| AsrMessage.SqueezedSelects | src/asr_message_response.cc:27-36 | the result is a subsequence of the input made of exactly the kept characters, the first of each white-space run after a non-space among them |
| RingBuffers.ModSlot | src/ringbuffer.cc:64 | the modulo of a sum of two indices wraps at most once |
| RingBuffers.MemCopy | src/ringbuffer.cc:52-58 | `memcpy` writes exactly its destination range |
| RingBuffers.Slot | src/ringbuffer.cc:64 | an index advanced by a count below the size wraps at most once |
| RingBuffers.SlotUnique | src/ringbuffer.cc:64 | two counts below the size that reach the same slot are equal |
| RingBuffers.Dist | src/ringbuffer.cc:123-137 | the forward distance between two indices reaches the second from the first |
| RingBuffers.WrapWindow | src/ringbuffer.cc:106-113 | the two copies of a wrapping write fill the slots from the write index on |
| RingBuffers.FlatWindow | src/ringbuffer.cc:114 | one copy fills them when the write does not wrap |
| RingBuffers.WrapRead | src/ringbuffer.cc:52-58 | the two copies of a wrapping read draw the slots from the read index on |
| RingBuffers.FlatRead | src/ringbuffer.cc:60-61 | one copy draws them when the read does not wrap |
| RingBuffers.WindowAppend | src/ringbuffer.cc:95-119 | filling free slots appends to the unread bytes and overwrites none of them |
| RingBuffers.WindowDrop | src/ringbuffer.cc:64 | advancing the read index drops bytes from the front |
| RingBuffers.WindowFront | src/ringbuffer.cc:38-67 | a read hands out the front of the unread bytes |
| RingBuffers.WindowSlices | src/ringbuffer.cc:80-88 | the unread bytes are the slice to the end of the array then the slice from its start, or one slice |
| RingBuffers.RingBuffer.ReadAvail | src/ringbuffer.cc:131-137 | `GetReadAvail` is below the size and reaches the write index from the read index |
| RingBuffers.RingBuffer.WriteAvail | src/ringbuffer.cc:123-129 | `GetWriteAvail` plus `GetReadAvail` is always `size_ - 1` |
| RingBuffers.RingBuffer.Contents | src/ringbuffer.cc:123-137 | the unread bytes number `GetReadAvail` |
| RingBuffers.RingBuffer.constructor | src/ringbuffer.cc:21-27 | a zeroed array with nothing to read and `size - 1` bytes of room |
| RingBuffers.RingBuffer.Empty | src/ringbuffer.cc:31-36 | both indices reset, nothing readable, array zeroed, returns true |
| RingBuffers.RingBuffer.Write | src/ringbuffer.cc:95-119 | copies `min(numBytes, GetWriteAvail())` bytes, 0 for a null pointer or zero length, appends them to the unread bytes and leaves the read index alone |
| RingBuffers.RingBuffer.Store | src/ringbuffer.cc:102-117 | a write that fits appends its bytes |
| RingBuffers.RingBuffer.CopyIn | src/ringbuffer.cc:102-115 | the copies fill the slots from the write index on |
| RingBuffers.RingBuffer.Read | src/ringbuffer.cc:38-67 | reads `min(numBytes, avail)` rounded down to even, the front of the unread bytes in FIFO order, and leaves the rest of the output untouched |
| RingBuffers.RingBuffer.Take | src/ringbuffer.cc:47-64 | a read that fits hands out the front and drops it |
| RingBuffers.RingBuffer.CopyOut | src/ringbuffer.cc:50-61 | the copies draw the slots from the read index on |
| RingBuffers.RingBuffer.ReadAll | src/ringbuffer.cc:69-93 | hands over every unread byte in FIFO order and empties the buffer; on an empty buffer returns 0 and leaves the vector as it was |
| RingBuffers.WriteThenDrain | src/ringbuffer.cc:69-119 | writing into an empty buffer then draining gives back the first `min(n, size - 1)` bytes, and a second drain gives 0 |
| RingBuffers.EvenDown | src/ringbuffer.cc:44-45 | the largest even number not above the count |
| BufferAudioSources.BufferAudioSource.constructor | src/buffer_audio_source.cc:33-36 | a new source is unfinished over an empty ring of the given size, cut to `unsigned int` |
| BufferAudioSources.BufferAudioSource.Read | src/buffer_audio_source.cc:40-47 | drains every buffered byte; returns the count, or -1 once finished even when bytes were drained |
| BufferAudioSources.BufferAudioSource.Write | src/buffer_audio_source.cc:49-55 | before `finish` forwards the bytes to the ring with their count cut to `unsigned int` and returns true, even when the ring truncates; afterwards returns false and changes nothing |
| BufferAudioSources.BufferAudioSource.WriteRaw | src/buffer_audio_source.cc:57-63 | the same for the pointer overload, with the count cut to `unsigned int` |
| BufferAudioSources.BufferAudioSource.Finish | src/buffer_audio_source.cc:67-69 | the source is finished for good |
| RecognitionResults.CodeName | src/recognition_result.cc:110-133 | `getString` gives a non-empty name of capitals and underscores |
| RecognitionResults.CodeNameInjective | src/recognition_result.cc:110-133 | distinct codes have distinct names |
| RecognitionResults.CodeOfStatus | src/recognition_result.cc:27-48 | "PROCESSING" gives NO_MATCH; every other known name gives its same-named code |
| RecognitionResults.CodeNameRoundTrip | src/recognition_result.cc:27-48 | the code built from `getString(c)` is `c`, PROCESSING aside |
| RecognitionResults.WithLanguageModel | src/recognition_result.cc:64-68 | replaces the language model only |
| RecognitionResults.WithText | src/recognition_result.cc:70-74 | replaces the text only |
| RecognitionResults.WithConfidence | src/recognition_result.cc:96-100 | replaces the confidence only |
| RecognitionResults.AddInterpretation | src/recognition_result.cc:76-81 | appends one interpretation, confidence 0 by default, after the others |
| RecognitionResults.AddWord | src/recognition_result.cc:83-94 | appends one word after the others |
| RecognitionResults.AddWordParts | src/recognition_result.cc:83-94 | the overload from text, confidence and times appends exactly the word made of them, after the others, and changes nothing else in the alternative |
| RecognitionResults.AddWordsInOrder | src/recognition_result.cc:83-94 | words added one by one come out in order |
| RecognitionResults.ResultWithCode | src/recognition_result.cc:23-25 | the given code, no alternatives, times at -1 |
| RecognitionResults.ResultOfStatus | src/recognition_result.cc:27-48 | the code of the status string, no alternatives, times at -1 |
| RecognitionResults.AddAlternative | src/recognition_result.cc:102-108 | appends the alternative, turns NO_MATCH into RECOGNIZED and keeps any other code |
| RecognitionResults.AddAlternativesSpec | src/recognition_result.cc:102-108 | alternatives added one by one come out in order, and NO_MATCH is promoted as soon as there is one |
| RecognitionResults.SetLastSpeechSegment | include/cpqd/asr-client/recognition_result.h:66-68 | sets the flag only |
| RecognitionResults.SetStartTime | include/cpqd/asr-client/recognition_result.h:70-72 | sets the start time only |
| RecognitionResults.SetEndTime | include/cpqd/asr-client/recognition_result.h:74-76 | sets the end time only |
| RecognitionResults.Classifier.constructor | src/recognition_result.cc:159-169 | a new classifier has no age, emotion or gender |
| RecognitionResults.Classifier.SetAge | src/recognition_result.cc:147-161 | `hasAge` holds exactly when the stored age is non-empty |
| RecognitionResults.Classifier.SetEmotion | src/recognition_result.cc:147-165 | `hasEmotion` holds exactly when the stored emotion is non-empty |
| RecognitionResults.Classifier.SetGender | src/recognition_result.cc:147-169 | `hasGender` holds exactly when the stored gender is non-empty |
| RecognitionErrors.CodeName | src/recognition_error.cc:23-38 | the name of FAILURE, SESSION_TIMEOUT, CONNECTION_FAILURE or ACTIVE_RECOGNITION, in capitals |
| RecognitionErrors.GetString | src/recognition_error.cc:23-43 | the code's name, then ": " and the message only when the message is non-empty |
| RecognitionErrors.BeforeColon | src/recognition_error.cc:40-42 | the text before the first ':' |
| RecognitionErrors.BeforeColonAppend | src/recognition_error.cc:40-42 | a colon-free name is read back before the ": " |
| RecognitionErrors.CodeNameInjective | src/recognition_error.cc:23-38 | distinct codes have distinct names |
| RecognitionErrors.GetStringInjective | src/recognition_error.cc:23-43 | the string form tells errors apart |
| RecognitionErrors.NewException | include/cpqd/asr-client/recognition_exception.h:33-41 | `getCode` gives the code passed in and `what()` is `getString()` of the error |
| RecognitionConfigs.DefaultOf | include/cpqd/asr-client/recognition_config.h:31-43 | every default fits its field's kind; the number of sentences starts at 1, every other number at 0, every flag off and every string empty |
| RecognitionConfigs.EveryField | src/recognition_config.cc:25-155 | the model lists every field |
| RecognitionConfigs.DefaultValues | src/recognition_config.cc:21-23 | the defaults give every field a value of its kind |
| RecognitionConfigs.FieldOf | src/recognition_config.cc:167-253 | each getter gives a value of its field's kind |
| RecognitionConfigs.WithField | src/recognition_config.cc:25-155 | a setter changes its own field and no other |
| RecognitionConfigs.FieldsDetermine | src/recognition_config.cc:157-165 | two configurations with equal fields are equal |
| RecognitionConfigs.ConfigBuilder.constructor | src/recognition_config.cc:21-23 | a new builder holds the defaults |
| RecognitionConfigs.ConfigBuilder.Set | src/recognition_config.cc:25-155 | a setter stores its value in its own field |
| RecognitionConfigs.ConfigBuilder.Build | src/recognition_config.cc:21-23 | `build` gives a new configuration holding the builder's values |
| RecognitionConfigs.EnvVarName | src/recognition_config.cc:288-373 | continuous mode reads INFER_AGE_ENABLED, like age inference, and no other field does |
| RecognitionConfigs.EnvIntegerReadsDecimal | src/recognition_config.cc:255-266 | a variable holding a decimal number below 2^64 sets the field to that number cut to `unsigned int`, whatever it held |
| RecognitionConfigs.EnvIntegerMinusOne | src/recognition_config.cc:255-266 | "-1" is not refused: `std::stoul` wraps it and the field becomes the largest `unsigned int` |
| RecognitionConfigs.UpperCase | src/recognition_config.cc:272 | `toupper` applied to every character |
| RecognitionConfigs.EnvBool | src/recognition_config.cc:268-277 | a present variable is true exactly when it upper-cases to "TRUE"; an absent one is false under `replace_empty` and otherwise the old value |
| RecognitionConfigs.UpperCaseEqual | src/recognition_config.cc:272 | upper-casing gives "TRUE" exactly for the case-insensitive spellings of it |
| RecognitionConfigs.EnvValue | src/recognition_config.cc:255-286 | a reader keeps its field's kind |
| RecognitionConfigs.EnvValueIdempotent | src/recognition_config.cc:255-286 | reading the same variable twice is reading it once |
| RecognitionConfigs.EnvOrderComplete | src/recognition_config.cc:375-398 | every field's reader is called |
| RecognitionConfigs.ApplyEnvField | src/recognition_config.cc:375-398 | each field read gets its reader's value; the others keep theirs |
| RecognitionConfigs.ContinuousModeFollowsInferAge | src/recognition_config.cc:335-337 | after the readers, continuous mode equals the age-inference flag whenever that variable is set or `replace_empty` holds |
| RecognitionConfigs.ApplyEnvIdempotent | src/recognition_config.cc:375-398 | reading the environment twice is reading it once |
| RecognitionConfigs.RecognitionConfig.constructor | src/recognition_config.cc:21-23 | a configuration holds the values it is built with |
| RecognitionConfigs.RecognitionConfig.Copy | src/recognition_config.cc:157-160 | the copy constructor copies every field |
| RecognitionConfigs.RecognitionConfig.Assign | src/recognition_config.cc:162-165 | assignment copies every field |
| RecognitionConfigs.RecognitionConfig.SetFromEnv | src/recognition_config.cc:288-373 | a `set…FromEnv` reader stores its reader's value in its own field |
| RecognitionConfigs.RecognitionConfig.GetConfigFromEnvironment | src/recognition_config.cc:375-398 | every reader once, in the client's order, with the same `replace_empty` |
| RecognitionConfigs.RecognitionConfig.ReadFields | src/recognition_config.cc:375-398 | the readers for a list of fields, one after the other |
| RecognizerState.Broadcast | src/process_msg.cc:65-67 | one callback per listener, in listener order |
| RecognizerState.DeliverAll | src/process_result.cc:96-101 | one `onRecognitionResult` per listener for each result held |
| RecognizerState.DeliverAllAppend | src/process_result.cc:96-101 | results are re-delivered in list order |
| RecognizerState.DeliverAllSnoc | src/process_result.cc:96-101 | one more result adds one callback per listener |
| RecognizerState.ErrorEffect | src/speech_recog_impl.cc:111-121 | every listener gets `onError`, then the exception is kept as the pending error; nothing else changes |
| RecognizerState.HeaderOf | src/asr_message_parser.cc:38-46 | `get_header` on a received message |
| RecognizerState.MethodNameHasNoSpace | src/message_utils.cc:23-38 | no method name holds a space |
| RecognizerState.FreeOfAbsent | src/message_utils.cc:46-59 | a string without the delimiter is one piece |
| RecognizerState.CommandOfFirstLine | src/process_msg.cc:51 | the third word of a method's first line is its name |
| RecognizerState.Impl.constructor | src/speech_recog_impl.cc:33-34 | not recognizing, closed, no session, nothing set |
| RecognizerState.Impl.NotifyAll | src/process_msg.cc:65-67 | the listener loop makes one callback per listener |
| RecognizerState.Impl.DeliverResults | src/process_result.cc:96-101 | every result held, to every listener |
| RecognizerState.Impl.RecognitionError | src/speech_recog_impl.cc:111-121 | `recognitionError` on the fields is `ErrorEffect` |
| RecognizerState.Impl.SendMessage | src/speech_recog_impl.cc:123-129 | the message goes out, after the earlier ones |
| RecognizerState.Impl.TerminateSendMessageThread | src/speech_recog_impl.cc:85-99 | the audio thread is stopped |
| SendMessages.CreateSessionHeaders | src/send_message.cc:28-37 | the only header is `User-Agent: ASR Client` |
| SendMessages.CreateSession | src/send_message.cc:28-37 | exactly one CREATE_SESSION with that header and no body is sent |
| SendMessages.BoolText | src/send_message.cc:70 | `std::to_string` of a flag is "1" or "0" |
| SendMessages.KeyNamesDiffer | src/send_message.cc:60-120 | no two parameters share a header name |
| SendMessages.PutIf | src/send_message.cc:60-120 | a guarded `set_header` sets its key only when its guard holds |
| SendMessages.GroupOf | src/send_message.cc:60-120 | each parameter belongs to one of the five runs of guarded calls |
| SendMessages.Chain2 | src/send_message.cc:60-64 | two guarded calls with distinct keys set each key by its own guard |
| SendMessages.Chain3 | src/send_message.cc:82-92 | the same for three calls |
| SendMessages.Chain4 | src/send_message.cc:66-80 | the same for four calls |
| SendMessages.DecoderValues | src/send_message.cc:60-64 | the decoder limits are set when non-zero |
| SendMessages.DecoderFrame | src/send_message.cc:60-64 | the decoder run sets no other header |
| SendMessages.DecoderHeaders | src/send_message.cc:60-64 | `decoder.confidenceThreshold` and `decoder.maxSentences` are sent exactly when non-zero |
| SendMessages.TimeoutValues | src/send_message.cc:66-80 | the timeout flags and values follow their guards |
| SendMessages.TimeoutFrame | src/send_message.cc:66-80 | the timeout run sets no other header |
| SendMessages.TimeoutHeaders | src/send_message.cc:66-80 | each `enabled` is sent ("1") when enabled, each value only when enabled and non-zero |
| SendMessages.InferValues | src/send_message.cc:82-92 | the inference flags are "true" when set |
| SendMessages.InferFrame | src/send_message.cc:82-92 | the inference run sets no other header |
| SendMessages.InferHeaders | src/send_message.cc:82-92 | `Infer-age/emotion/gender-enabled: true` exactly when set |
| SendMessages.MarginValues | src/send_message.cc:94-109 | the margins follow their guards |
| SendMessages.MarginFrame | src/send_message.cc:94-109 | the margin run sets no other header |
| SendMessages.MarginHeaders | src/send_message.cc:94-109 | the margins and `endpointer.waitEnd` when non-zero, `decoder.startInputTimers` when set |
| SendMessages.LevelValues | src/send_message.cc:111-120 | the level settings follow their guards |
| SendMessages.LevelFrame | src/send_message.cc:111-120 | the level run sets no other header |
| SendMessages.LevelHeaders | src/send_message.cc:111-120 | `levelMode` when non-zero; `autoLevelLen` only in mode 1 and `levelThreshold` only in mode 2, each when non-zero |
| SendMessages.NotInOtherGroup | src/send_message.cc:60-120 | a parameter's header belongs to its own run only |
| SendMessages.ComposeGroups | src/send_message.cc:60-120 | the five runs from no headers give each parameter its value and no other header |
| SendMessages.ParameterHeadersSpec | src/send_message.cc:39-127 | SET_PARAMETERS carries each parameter exactly when its guard sends it, with its value, and no other header |
| SendMessages.DefaultParameters | src/send_message.cc:39-127 | the default configuration sends only `decoder.maxSentences: 1` |
| SendMessages.DefaultParamValue | src/send_message.cc:60-120 | the default settings send one sentence only |
| SendMessages.DefaultSettings | src/send_message.cc:42-58 | the default configuration read as settings |
| SendMessages.PutDecoderHeaders | src/send_message.cc:60-64 | the decoder run on the request |
| SendMessages.PutTimeoutHeaders | src/send_message.cc:66-80 | the timeout run on the request |
| SendMessages.PutInferHeaders | src/send_message.cc:82-92 | the inference run on the request |
| SendMessages.PutMarginHeaders | src/send_message.cc:94-109 | the margin run on the request |
| SendMessages.PutLevelHeaders | src/send_message.cc:111-120 | the level run on the request |
| SendMessages.ParametersMessage | src/send_message.cc:39-122 | the SET_PARAMETERS text built run after run |
| SendMessages.SetParameters | src/send_message.cc:39-127 | exactly one SET_PARAMETERS for the configuration is sent |
| SendMessages.StartRecognitionFailure | src/send_message.cc:140-152 | FAILURE with its fixed message is thrown exactly when both the URI and the grammar are empty |
| SendMessages.StartRecognitionRequestSpec | src/send_message.cc:129-163 | `Accept: application/json` always; a URI wins with `text/uri-list`; otherwise the grammar with `application/srgs` and `Content-ID: gram`; `Content-Length` is the body length; no other header |
| SendMessages.StartRecognition | src/send_message.cc:129-163 | one START_RECOGNITION is sent, or the exception is thrown and nothing is sent |
| ProcessResults.InterpretationsOf | src/process_result.cc:29-31 | one interpretation per element, confidence 0 |
| ProcessResults.WordsOf | src/process_result.cc:33-38 | one word per element, in order |
| ProcessResults.AddInterpretationsInOrder | src/process_result.cc:29-31 | the loop appends the texts in array order and changes nothing else |
| ProcessResults.AlternativeOfSpec | src/process_result.cc:27-40 | score as confidence, the text, interpretations and words in JSON order, no language model |
| ProcessResults.AlternativesOf | src/process_result.cc:27-42 | one alternative per element, in order |
| ProcessResults.RecognitionResultFromJsonSpec | src/process_result.cc:25-44 | the code from `result_status`, promoted to RECOGNIZED by any alternative; alternatives in order; times unset |
| ProcessResults.PartialRecognitionFromJson | src/process_result.cc:46-58 | the first alternative's text; `segment_index` truncated, 0 when absent |
| ProcessResults.CanceledStep | src/process_result.cc:84-89 | a CANCELED frame adds no result |
| ProcessResults.UnheardStep | src/process_result.cc:90-105 | a body-less frame adds at most one result |
| ProcessResults.FinalStep | src/process_result.cc:120-142 | a final result adds at most one result |
| ProcessResults.PartialStep | src/process_result.cc:143-151 | a partial result adds none |
| ProcessResults.ResultEffectFrame | src/process_result.cc:61-153 | the handler never throws, keeps every held result in place and adds at most one |
| ProcessResults.SessionAfterSpec | src/process_result.cc:74-78 | only `Session-Status: IDLE` changes the session, to idle |
| ProcessResults.ResultCanceled | src/process_result.cc:84-89 | CANCELED keeps nothing, calls nobody back, clears `recognizing_` and returns false |
| ProcessResults.ResultWithoutBody | src/process_result.cc:90-105 | an empty body appends one result with the header status's code, re-delivers every result to every listener, clears `recognizing_` and returns false |
| ProcessResults.FinalResultSpec | src/process_result.cc:120-126 | the final result's times are set only when present |
| ProcessResults.ResultFinal | src/process_result.cc:120-142 | the result is kept without the last-segment flag and broadcast with it; `recognizing_` is cleared only on the last segment |
| ProcessResults.ResultPartial | src/process_result.cc:143-151 | a partial result is broadcast; results and `recognizing_` are untouched |
| ProcessResults.FlagDefaults | src/process_result.cc:110-118 | `final_result` defaults to status RECOGNIZED and `last_segment` to true; boolean fields override both |
| ProcessResults.HandleCanceled | src/process_result.cc:84-89 | the CANCELED branch on the fields |
| ProcessResults.HandleUnheard | src/process_result.cc:90-105 | the body-less branch on the fields |
| ProcessResults.HandleFinal | src/process_result.cc:120-142 | the final branch on the fields |
| ProcessResults.HandlePartial | src/process_result.cc:143-151 | the partial branch on the fields |
| ProcessResults.ProcessResult | src/process_result.cc:61-153 | `ASRProcessResult::handle` on the fields is `ResultEffect` |
| ProcessMessages.HandledCommand | src/process_msg.cc:51-53 | each handler answers one of the four commands |
| ProcessMessages.TakerIsFirst | src/process_msg.cc:35-39 | a frame goes to the first handler that answers its command, and to none when none does |
| ProcessMessages.InstalledTakers | src/websocket_client.h:144-156 | in the installed chain each of the four commands reaches its own handler and every other frame is dropped |
| ProcessMessages.SessionUpdateAsCalled | src/process_msg.cc:57-69 | the status compared is the header name, so the session is never changed and `onListening` never fires; the value "LISTENING" would have fired it |
| ProcessMessages.ErrorTextSpec | src/process_msg.cc:206-222 | "[<Method>]: <Error-Code>", then ": <Message>" exactly when the message is non-empty |
| ProcessMessages.ResponseKeepsSession | src/process_msg.cc:57-85 | a RESPONSE never changes the session, and its only callbacks are errors |
| ProcessMessages.CreateSessionAtMostError | src/process_msg.cc:87-105 | `createSession` keeps the session and adds only error callbacks |
| ProcessMessages.SetParametersAtMostError | src/process_msg.cc:107-121 | `setParameters` does too |
| ProcessMessages.StartRecogAtMostError | src/process_msg.cc:123-141 | `startRecog` does too |
| ProcessMessages.CancelRecogAtMostError | src/process_msg.cc:143-162 | `cancelRecog` does too |
| ProcessMessages.ResponseCases | src/process_msg.cc:71-84 | every RESPONSE keeps the session and adds only error callbacks |
| ProcessMessages.ErrorsAppended | src/process_msg.cc:206-222 | error callbacks come after the earlier ones |
| ProcessMessages.ResponseFailure | src/process_msg.cc:87-141 | a non-SUCCESS create, set or start sets a FAILURE pending error with that text, tells every listener, sends nothing and returns false |
| ProcessMessages.CreateSessionSends | src/process_msg.cc:87-105 | on SUCCESS, one SET_PARAMETERS with a configuration and one START_RECOGNITION without one |
| ProcessMessages.SetParametersSends | src/process_msg.cc:107-121 | on SUCCESS, one START_RECOGNITION |
| ProcessMessages.StartRecogStreams | src/process_msg.cc:123-141 | on SUCCESS, streaming starts exactly when there is an audio source, and the handler answers whether it did |
| ProcessMessages.CancelRecogClears | src/process_msg.cc:143-162 | SUCCESS or INVALID_ACTION clear the results and `recognizing_`; anything else is an error |
| ProcessMessages.InstalledRoute | src/websocket_client.h:144-156 | in the installed chain a RESPONSE gets the response handler's effect, a RECOGNITION_RESULT the result handler's, the speech events their broadcasts answering true, and any other frame nothing, answering false |
| ProcessMessages.PacketsCarryAudio | src/process_msg.cc:164-204 | the packets carry exactly the bytes read, in order, up to the end |
| ProcessMessages.PacketsLast | src/process_msg.cc:164-204 | empty non-final reads send nothing; only the end read sends `LastPacket: true`; a set terminate flag stops before sending |
| ProcessMessages.PacketsBound | src/process_msg.cc:164-204 | at most one packet per read |
| ProcessMessages.AudioHeadersSpec | src/process_msg.cc:179-187 | `Content-Length` is the chunk size, `Content-Type: application/octet-stream`, `LastPacket` "true" exactly for the last packet, and nothing else |
| ProcessMessages.AudioTexts | src/process_msg.cc:189 | one text per packet |
| ProcessMessages.AudioTextsCons | src/process_msg.cc:189 | the text of the first packet goes out before the texts of the rest |
| ProcessMessages.AudioMessage | src/process_msg.cc:171-189 | one SEND_AUDIO request, built as the loop builds it |
| ProcessMessages.PacketsAt | src/process_msg.cc:167-201 | one turn of the loop: stop, skip, last packet, or packet and go on |
| ProcessMessages.SendAudioMessage | src/process_msg.cc:164-204 | the loop sends one SEND_AUDIO per packet, in order |
| ProcessMessages.ReportError | src/process_msg.cc:206-222 | `generateError` on the fields |
| ProcessMessages.UpdateSession | src/process_msg.cc:60-69 | the status comparison on the fields |
| ProcessMessages.SendStart | src/process_msg.cc:99 | `startRecognition` called from a handler |
| ProcessMessages.CreateSessionResponse | src/process_msg.cc:87-105 | `createSession` on the fields |
| ProcessMessages.SetParametersResponse | src/process_msg.cc:107-121 | `setParameters` on the fields |
| ProcessMessages.StartRecogResponse | src/process_msg.cc:123-141 | `startRecog` on the fields |
| ProcessMessages.CancelRecogResponse | src/process_msg.cc:143-162 | `cancelRecog` on the fields |
| ProcessMessages.HandleResponse | src/process_msg.cc:48-85 | `ASRProcessResponse::handle` on the fields is `ResponseEffect` |
| ProcessMessages.HandleSpeech | src/process_msg.cc:265-293 | `onSpeechStart(0)` or `onSpeechStop(0)` on every listener, answering true |
| ProcessMessages.HandleWith | src/process_msg.cc:48-293 | the handler of one link on a frame it takes |
| ProcessMessages.ProcessMsg.constructor | src/process_msg.cc:31-46 | a new link has nothing after it |
| ProcessMessages.ProcessMsg.SetNext | src/process_msg.cc:31-33 | `setNext` makes the given handler the only one after this link |
| ProcessMessages.ProcessMsg.Add | src/process_msg.cc:41-46 | `add` puts the handler at the end of the chain |
| ProcessMessages.ProcessMsg.Handle | src/process_msg.cc:35-39 | each link passes on a frame it does not answer; past the last link the answer is false |
| ProcessMessages.OnMessage | src/websocket_client.h:144-156 | the chain is built in the installed order and given the frame |
| SpeechRecognizers.Properties.constructor | include/cpqd/asr-client/speech_recog.h:70-73 | max wait 30 s, no connect on recognize, no auto close, log path "log.txt" |
| SpeechRecognizers.OpenEffect | src/speech_recog_impl.cc:40-82 | opening changes only the connection flag, the transport status and the callbacks |
| SpeechRecognizers.OpenSpec | src/speech_recog_impl.cc:40-82 | an open `Impl` is left alone; a closed one opens exactly when its status reads `kOpen` after the wait (already open, or still connecting and the server accepts); otherwise, including a status already `kClose` or `kFailed`, CONNECTION_FAILURE with the URL goes to every listener and is raised, with the flag set when the connect was issued |
| SpeechRecognizers.Open | src/speech_recog_impl.cc:40-82 | `Impl::open` on the fields, flag and status included, is `OpenEffect` |
| SpeechRecognizers.CloseEffect | src/speech_recog_impl.cc:102-109 | the audio thread and the connection are stopped, an open status becomes `kClose`, a status that has left `kConnecting` never returns to it, and nothing else changes |
| SpeechRecognizers.CloseImpl | src/speech_recog_impl.cc:102-109 | `Impl::close` on the fields |
| SpeechRecognizers.NoReopenAfterClose | src/speech_recog_impl.cc:40-82 | once a connection was attempted, an `Impl` that is closed cannot be opened again: every later `open` raises CONNECTION_FAILURE |
| SpeechRecognizers.ReplacedState | src/speech_recog.cc:32-44 | the new `Impl` holds the configuration and the listeners handed over, and is otherwise as constructed: not recognizing, not open, status `kConnecting`, no session, no audio, language model, results, pending error, requests, callbacks or audio thread |
| SpeechRecognizers.Moved | src/speech_recog.cc:35-44 | the properties lose the configuration and the listeners they hand over |
| SpeechRecognizers.ResetEstablishesInvariant | src/speech_recog.cc:32-58 | a `resetImpl` that succeeds leaves auto close only with connect on recognize, and one that finds that so opens nothing |
| SpeechRecognizers.ResetOpens | src/speech_recog.cc:32-58 | the `Impl` gets the configuration and listeners; it connects now unless connecting on recognize, and a failed connection raises CONNECTION_FAILURE |
| SpeechRecognizers.SecondResetLosesConfiguration | src/speech_recog.cc:35-44 | a second reset finds no configuration and no listeners |
| SpeechRecognizers.BeginEffect | src/speech_recog.cc:102-108 | recognizing, no pending error, no results, the audio source and language model stored |
| SpeechRecognizers.RecognizeWhileRecognizing | src/speech_recog.cc:97-101 | a second `recognize` raises ACTIVE_RECOGNITION and changes nothing |
| SpeechRecognizers.RecognizeSends | src/speech_recog.cc:102-122 | CREATE_SESSION without a session, START_RECOGNITION with one; results and error cleared |
| SpeechRecognizers.RecognizeUnconnected | src/speech_recog.cc:110-115 | when the connection cannot be made (refused, unreachable, or the status already closed or failed) `recognize` raises CONNECTION_FAILURE, sends nothing and leaves the recognizer marked as recognizing |
| SpeechRecognizers.WaitTakesResults | src/speech_recog.cc:125-169 | the results are returned and cleared, a pending error is rethrown, a wait that is not ready times out with FAILURE, and `recognizing_` is never reset |
| SpeechRecognizers.WaitAgainEmpty | src/speech_recog.cc:152-153 | a second wait after a successful one returns nothing |
| SpeechRecognizers.CancelSpec | src/speech_recog.cc:70-92 | one CANCEL_RECOGNITION is sent, streaming stops, and only under auto close is the connection closed and an open status set to `kClose` |
| SpeechRecognizers.RecognizeAfterAutoCloseFails | src/speech_recog.cc:70-123 | after a cancel under auto close the recognizer keeps its closed `Impl`, so the next `recognize` raises CONNECTION_FAILURE even when the server would accept, having sent only the CANCEL_RECOGNITION |
| SpeechRecognizers.SpeechRecognizer.Create | src/speech_recog.cc:27-28 | the recognizer takes the properties |
| SpeechRecognizers.SpeechRecognizer.ReplaceImpl | src/speech_recog.cc:32-44 | a fresh `Impl` takes the configuration and listeners from the properties |
| SpeechRecognizers.SpeechRecognizer.ResetImpl | src/speech_recog.cc:32-58 | `resetImpl` on the fields is `ResetEffect` |
| SpeechRecognizers.SpeechRecognizer.Close | src/speech_recog.cc:65-68 | closes an open connection; nothing when closed |
| SpeechRecognizers.SpeechRecognizer.CancelRecognition | src/speech_recog.cc:70-92 | `cancelRecognition` on the fields is `CancelEffect` |
| SpeechRecognizers.SpeechRecognizer.Recognize | src/speech_recog.cc:94-123 | `recognize` on the fields, the transport status included, is `RecognizeEffect` |
| SpeechRecognizers.SpeechRecognizer.WaitRecognitionResult | src/speech_recog.cc:125-169 | `waitRecognitionResult` on the fields is `WaitEffect`, with a fresh `Impl` after an auto-close reset |
| SpeechRecognizers.SpeechRecognizer.IsOpen | src/speech_recog.cc:171-173 | `isOpen` is the connection flag |
| SpeechRecognizers.Begin | src/speech_recog.cc:102-108 | the fields `recognize` sets |
| SpeechRecognizers.SendFirst | src/speech_recog.cc:117-122 | the first request on the fields |
| SpeechRecognizers.New | src/speech_recog.cc:27-30 | the constructor resets the `Impl`; an exception from it means no recognizer |
| SpeechRecognizerBuilders.CheckUrl | src/speech_recog_builder.cc:35-46 | "" is a `logic_error`; a URL not starting with "ws://" or "wss://" is an `invalid_argument`; every other URL passes |
| SpeechRecognizerBuilders.CheckUrlScheme | src/speech_recog_builder.cc:40-42 | only the scheme at the start is checked |
| SpeechRecognizerBuilders.Builder.constructor | src/speech_recog_builder.cc:29-33 | a new builder holds the default properties |
| SpeechRecognizerBuilders.Builder.ServerUrl | src/speech_recog_builder.cc:35-46 | an accepted URL is stored verbatim; a refused one leaves the URL unchanged |
| SpeechRecognizerBuilders.Builder.Credentials | src/speech_recog_builder.cc:48-53 | sets user and password only |
| SpeechRecognizerBuilders.Builder.RecogConfig | src/speech_recog_builder.cc:55-59 | sets the configuration only |
| SpeechRecognizerBuilders.Builder.UserAgent | src/speech_recog_builder.cc:61-65 | sets the user agent only |
| SpeechRecognizerBuilders.Builder.AddListener | src/speech_recog_builder.cc:67-71 | one more listener, after the others |
| SpeechRecognizerBuilders.Builder.AudioSampleRate | src/speech_recog_builder.cc:73-77 | sets the sample rate only |
| SpeechRecognizerBuilders.Builder.AudioEncoding | src/speech_recog_builder.cc:79-83 | sets the encoding only |
| SpeechRecognizerBuilders.Builder.MaxWaitSeconds | src/speech_recog_builder.cc:85-89 | sets the maximum wait only |
| SpeechRecognizerBuilders.Builder.ConnectOnRecognize | src/speech_recog_builder.cc:91-95 | sets connect on recognize only |
| SpeechRecognizerBuilders.Builder.AutoClose | src/speech_recog_builder.cc:97-101 | sets auto close only |
| SpeechRecognizerBuilders.Builder.LogPath | src/speech_recog_builder.cc:103-107 | sets the log path only |
| SpeechRecognizerBuilders.Builder.Build | src/speech_recog_builder.cc:109-112 | the properties move into a new recognizer, which exists exactly when its reset does not throw; the builder keeps none |
| SpeechRecognizerBuilders.DefaultBuildConnects | src/speech_recog_builder.cc:109-112 | a default build connects at once and succeeds exactly when the server accepts |

## Left out

- Sockets, TLS and websocketpp are not modelled. How a connection attempt ends is an input (`Connection`): accepted, refused after the socket opened, or unreachable.
- Threads, mutexes, atomics, `sleep_for` and the condition variable are not modelled. The audio thread is a flag (`streaming`), and its loop is a method over a given sequence of reads.
- WaitRecognitionResult: the timed wait is decided by the state at the call. Frames that arrive before the deadline are taken as already handled, so "woken" means that `Ready` holds. The clock arithmetic on `max_wait_seconds` is left out.
- RecognizeSends: the `start_` clock that `recognize` sets is not modelled.
- The logger and the log file are not modelled; `logPath` is stored and never used.
- The user agent set on the builder is stored but unused, as in the code: CREATE_SESSION always sends "ASR Client".
- Listeners are a count. A callback is recorded as (listener index, event), in call order; what a listener does is not modelled.
- JSON parsing by json11 is not modelled; a body is an abstract JSON value. Times and numbers are reals and are never computed with. A body that fails to parse is not modelled.
- Undefined behaviour in the code becomes a precondition: `pop_back` on an empty line and a body longer than the input (`WsParser.DefinedInput`); `split(...)[2]` on a start line without a command (`RecognizerState.HasCommand`); a partial result without alternatives and an unknown status string (`ProcessResults.ResultDefined`); START_RECOGNITION without a language model (`ProcessMessages.ResponseDefined`).
- RingBuffers.RingBuffer.constructor: sizes above 2^31 are excluded, so the 32-bit sum of an index and a count never wraps. Size 0 is excluded too: it is undefined on the first write, where the free space `size - 1` wraps to the largest `unsigned int`, `memcpy` writes into an empty array and `% size` divides by zero.
- BufferAudioSources.BufferAudioSource.constructor: the same two bounds apply to the buffer size cut to `unsigned int`, so a size that is 0 after the cut or above 2^31 is excluded.
- The `ASRMessageRequest(Method)` constructor body is not part of this model; it is taken to set the start line to `firstLine(c)`.
- BufferAudioSource::close has an empty body, so there is nothing to model.
- The old `Impl`'s destructor, which closes its connection when `resetImpl` replaces it, is not modelled. The abandoned `Impl` keeps the state the wait left it in.
- The auto-close reset on the closed-connection path of `waitRecognitionResult` is guarded by `open_` and so never runs; it is left out.
- Impl::close also closes the audio source through `terminateSendMessageThread`; the audio source's own `close` is left out.
- Exceptions other than RecognitionException are left out: the `invalid_argument` the connection-failure handler stores, and send failures. An exception that escapes `on_message` is reported as the handler's `Raised` outcome.
- Reassigning a joinable `std::thread`, which calls `std::terminate`, is not modelled.
- The environment-variable macros are not defined in the source files here; each is taken to be its own name (INFER_AGE_ENABLED and so on).
- The `int` cast of a JSON number is modelled as truncation; overflow of that cast is not modelled.
- The chain's `shared_ptr` links are modelled as a list of handler kinds; sharing between links is not modelled.
- RecognitionResults: `Alternative` and `RecognitionResult` are copied by value everywhere in the client, so their in-place builders are functions that return the updated value.
- RecognitionConfigs.DefaultOf: `recognition_config.h` gives initialisers for thirteen fields only; the other nine (age, emotion and gender inference, continuous mode, maximum segment duration, buffer-utterance verification, account tag, channel identifier, media type) are taken to start at 0, false or "".
- `std::string` is modelled as a sequence of Dafny characters, not of bytes: a `Content-Length` counts characters, and `isalpha`, `isdigit`, `isspace` and `toupper` are applied to characters. Text outside ASCII is not modelled byte by byte.
- OpenSpec: the transport status is read as it stands when the wait ends. A handler of a connection issued by a failed reopen that fires later is not modelled, so a status that has left `kConnecting` keeps every later `open` failing.
- The microphone and file audio sources, the mock server, the examples and the tests are not part of this model.
