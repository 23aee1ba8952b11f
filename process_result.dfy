// `ASRProcessResult`: the handler for RECOGNITION_RESULT frames, and the two
// helpers that read a final result and a partial result out of a JSON body.
//
// The handler is given the body already parsed: `body` is the value json11
// produces for the frame's text (a null value when the text is not JSON).
// Its effect on the recognizer is stated as a function from one snapshot of
// the recognizer's fields to the next; the method on `Impl` performs it step
// by step.

module ProcessResults {
  import opened Common
  import opened HeaderMap
  import opened MessageUtils
  import opened RecognitionResults
  import opened RecognizerState
  import J = Json

  // ---------------------------------------------------------------------
  // Reading results out of JSON.

  /** The interpretations a JSON array stands for: each element's text,
      with the default confidence 0. */
  function InterpretationsOf(items: seq<J.Json>): (r: seq<Interpretation>)
    ensures |r| == |items|
    ensures forall i :: 0 <= i < |items| ==> r[i] == Interpretation(J.StringValue(items[i]), 0)
  {
    seq(|items|, i requires 0 <= i < |items| => Interpretation(J.StringValue(items[i]), 0))
  }

  /** The word a JSON object stands for. */
  function WordOf(w: J.Json): Word {
    Word(J.StringValue(J.Field(w, "text")), J.IntValue(J.Field(w, "score")),
         J.NumberValue(J.Field(w, "start_time")), J.NumberValue(J.Field(w, "end_time")))
  }

  function WordsOf(items: seq<J.Json>): (r: seq<Word>)
    ensures |r| == |items|
    ensures forall i :: 0 <= i < |items| ==> r[i] == WordOf(items[i])
  {
    seq(|items|, i requires 0 <= i < |items| => WordOf(items[i]))
  }

  /** The `interpretations` loop: one `addInterpretation` per element. */
  function AddInterpretations(a: Alternative, items: seq<J.Json>): Alternative
    decreases |items|
  {
    if items == [] then a
    else AddInterpretations(AddInterpretation(a, J.StringValue(items[0])), items[1..])
  }

  /** The loop appends the elements' texts in array order and changes
      nothing else. */
  lemma {:induction false} AddInterpretationsInOrder(a: Alternative, items: seq<J.Json>)
    ensures AddInterpretations(a, items).interpretations == a.interpretations + InterpretationsOf(items)
    ensures AddInterpretations(a, items).(interpretations := a.interpretations) == a
    decreases |items|
  {
    if items != [] {
      var a' := AddInterpretation(a, J.StringValue(items[0]));
      AddInterpretationsInOrder(a', items[1..]);
      assert InterpretationsOf(items) == [Interpretation(J.StringValue(items[0]), 0)] + InterpretationsOf(items[1..]);
      assert a'.interpretations == a.interpretations + [Interpretation(J.StringValue(items[0]), 0)];
    }
  }

  /** One element of `alternatives`: the score as confidence, the text, the
      interpretations and the words, in that order. */
  function AlternativeOf(k: J.Json): Alternative {
    var alt := WithText(WithConfidence(EmptyAlternative, J.IntValue(J.Field(k, "score"))),
                        J.StringValue(J.Field(k, "text")));
    var alt' := AddInterpretations(alt, J.ArrayItems(J.Field(k, "interpretations")));
    AddWords(alt', WordsOf(J.ArrayItems(J.Field(k, "words"))))
  }

  /** An alternative read from JSON carries the score, the text, every
      interpretation and every word of its object, in array order, and no
      language model. */
  lemma AlternativeOfSpec(k: J.Json)
    ensures AlternativeOf(k).confidence == J.IntValue(J.Field(k, "score"))
    ensures AlternativeOf(k).text == J.StringValue(J.Field(k, "text"))
    ensures AlternativeOf(k).langModel == []
    ensures AlternativeOf(k).interpretations == InterpretationsOf(J.ArrayItems(J.Field(k, "interpretations")))
    ensures AlternativeOf(k).words == WordsOf(J.ArrayItems(J.Field(k, "words")))
  {
    var alt := WithText(WithConfidence(EmptyAlternative, J.IntValue(J.Field(k, "score"))),
                        J.StringValue(J.Field(k, "text")));
    var interps := J.ArrayItems(J.Field(k, "interpretations"));
    AddInterpretationsInOrder(alt, interps);
    AddWordsInOrder(AddInterpretations(alt, interps), WordsOf(J.ArrayItems(J.Field(k, "words"))));
  }

  function AlternativesOf(items: seq<J.Json>): (r: seq<Alternative>)
    ensures |r| == |items|
    ensures forall i :: 0 <= i < |items| ==> r[i] == AlternativeOf(items[i])
  {
    seq(|items|, i requires 0 <= i < |items| => AlternativeOf(items[i]))
  }

  /** The status string of a JSON result. */
  function ResultStatusOf(json: J.Json): string {
    J.StringValue(J.Field(json, "result_status"))
  }

  /** `recognitionResultFromJson`.  The status must be one the result
      constructor knows. */
  function RecognitionResultFromJson(json: J.Json): RecognitionResult
    requires KnownStatus(ResultStatusOf(json))
  {
    AddAlternatives(ResultOfStatus(ResultStatusOf(json)), AlternativesOf(J.ArrayItems(J.Field(json, "alternatives"))))
  }

  /** The result's code comes from `result_status`, promoted to RECOGNIZED
      when NO_MATCH and there is an alternative; its alternatives are the
      array's, in order; the times stay at -1 and the last-segment flag
      unset. */
  lemma RecognitionResultFromJsonSpec(json: J.Json)
    requires KnownStatus(ResultStatusOf(json))
    ensures var r := RecognitionResultFromJson(json);
            var items := J.ArrayItems(J.Field(json, "alternatives"));
            && r.code == (if items != [] && CodeOfStatus(ResultStatusOf(json)) == NoMatch then Recognized
                          else CodeOfStatus(ResultStatusOf(json)))
            && r.alternatives == AlternativesOf(items)
            && r.startTime == -1.0 && r.endTime == -1.0 && r.lastSegment.None?
  {
    var items := J.ArrayItems(J.Field(json, "alternatives"));
    AddAlternativesSpec(ResultOfStatus(ResultStatusOf(json)), AlternativesOf(items));
  }

  /** `partialRecognitionFromJson`: the first alternative's text and the
      segment index when it is a number, 0 otherwise.  The client indexes the
      first alternative unchecked, hence the precondition. */
  function PartialRecognitionFromJson(json: J.Json): (p: PartialRecognition)
    requires |J.ArrayItems(J.Field(json, "alternatives"))| > 0
    ensures p.text == J.StringValue(J.Field(J.ArrayItems(J.Field(json, "alternatives"))[0], "text"))
    ensures !J.Field(json, "segment_index").JNumber? ==> p.speechSegmentIndex == 0
    ensures J.Field(json, "segment_index").JNumber? && J.Field(json, "segment_index").n >= 0.0 ==>
              p.speechSegmentIndex >= 0 &&
              p.speechSegmentIndex as real <= J.Field(json, "segment_index").n < p.speechSegmentIndex as real + 1.0
  {
    var k := J.ArrayItems(J.Field(json, "alternatives"))[0];
    var index := if J.Field(json, "segment_index").JNumber? then J.IntValue(J.Field(json, "segment_index")) else 0;
    PartialRecognition(J.StringValue(J.Field(k, "text")), index)
  }

  // ---------------------------------------------------------------------
  // The handler.

  /** `final_result`: the JSON flag when it is a boolean, otherwise whether
      the header status is RECOGNIZED. */
  function FinalFlag(status: string, body: J.Json): bool {
    if J.Field(body, "final_result").JBool? then J.Field(body, "final_result").b else status == "RECOGNIZED"
  }

  /** `last_segment`: the JSON flag when it is a boolean, otherwise true. */
  function LastFlag(body: J.Json): bool {
    if J.Field(body, "last_segment").JBool? then J.Field(body, "last_segment").b else true
  }

  /** The final result with its times, set when the body carries them as
      numbers. */
  function FinalResult(body: J.Json): RecognitionResult
    requires KnownStatus(ResultStatusOf(body))
  {
    var res := RecognitionResultFromJson(body);
    var res' := if J.Field(body, "start_time").JNumber? then SetStartTime(res, J.NumberValue(J.Field(body, "start_time"))) else res;
    if J.Field(body, "end_time").JNumber? then SetEndTime(res', J.NumberValue(J.Field(body, "end_time"))) else res'
  }

  /** The frame's `Result-Status` header. */
  function StatusOf(f: Frame): string {
    HeaderOf(f, "Result-Status")
  }

  /** What the client needs of a result frame to stay defined: a status the
      result constructor knows on the paths that build a result, and an
      alternative in a partial result. */
  predicate ResultDefined(f: Frame, body: J.Json) {
    var status := StatusOf(f);
    status != "CANCELED" ==>
      if f.extra == [] then KnownStatus(status)
      else if FinalFlag(status, body) then KnownStatus(ResultStatusOf(body))
      else |J.ArrayItems(J.Field(body, "alternatives"))| > 0
  }

  /** The `Session-Status` header: IDLE marks the session idle. */
  function SessionAfter(s: State, f: Frame): State {
    if HeaderOf(f, "Session-Status") == "IDLE" then s.(session := Idle) else s
  }

  /** CANCELED: the recognition ends, the handler answers false. */
  function CanceledEffect(s: State): Outcome {
    Returned(s.(recognizing := false), false)
  }

  /** No body: a result built from the status is appended and every result
      held is delivered again to every listener. */
  function UnheardEffect(s: State, status: string): Outcome
    requires KnownStatus(status)
  {
    var results := s.results + [ResultOfStatus(status)];
    Returned(s.(results := results, events := s.events + DeliverAll(results, s.listeners),
                recognizing := false), false)
  }

  /** A final result: kept, then broadcast with its last-segment flag. */
  function FinalEffect(s: State, body: J.Json): Outcome
    requires KnownStatus(ResultStatusOf(body))
  {
    var res := FinalResult(body);
    var last := LastFlag(body);
    Returned(s.(results := s.results + [res],
                events := s.events + Broadcast(s.listeners, OnRecognitionResult(SetLastSpeechSegment(res, last))),
                recognizing := if last then false else s.recognizing), true)
  }

  /** A partial result: broadcast only. */
  function PartialEffect(s: State, body: J.Json): Outcome
    requires |J.ArrayItems(J.Field(body, "alternatives"))| > 0
  {
    Returned(s.(events := s.events + Broadcast(s.listeners, OnPartialRecognition(PartialRecognitionFromJson(body)))),
             true)
  }

  /** `ASRProcessResult::handle` on a RECOGNITION_RESULT frame. */
  function ResultEffect(s: State, f: Frame, body: J.Json): Outcome
    requires ResultDefined(f, body)
  {
    var s1 := SessionAfter(s, f);
    var status := StatusOf(f);
    if status == "CANCELED" then CanceledEffect(s1)
    else if f.extra == [] then UnheardEffect(s1, status)
    else if FinalFlag(status, body) then FinalEffect(s1, body)
    else PartialEffect(s1, body)
  }

  /** `t` differs from `s` at most in the results, the callbacks fired and
      the recognizing flag; it is not recognizing unless `s` was; every
      result of `s` is kept in place and at most one added. */
  predicate ResultStep(s: State, t: State) {
    && t.(results := s.results, events := s.events, recognizing := s.recognizing) == s
    && (t.recognizing ==> s.recognizing)
    && (t.results == s.results || (|t.results| == |s.results| + 1 && t.results[..|s.results|] == s.results))
  }

  lemma CanceledStep(s: State)
    ensures ResultStep(s, CanceledEffect(s).state)
  {
  }

  lemma UnheardStep(s: State, status: string)
    requires KnownStatus(status)
    ensures ResultStep(s, UnheardEffect(s, status).state)
  {
    assert (s.results + [ResultOfStatus(status)])[..|s.results|] == s.results;
  }

  lemma FinalStep(s: State, body: J.Json)
    requires KnownStatus(ResultStatusOf(body))
    ensures ResultStep(s, FinalEffect(s, body).state)
  {
    assert (s.results + [FinalResult(body)])[..|s.results|] == s.results;
  }

  lemma PartialStep(s: State, body: J.Json)
    requires |J.ArrayItems(J.Field(body, "alternatives"))| > 0
    ensures ResultStep(s, PartialEffect(s, body).state)
  {
  }

  /** A result frame never throws and never sends: past the session status
      update it changes at most the result list, the callbacks fired and the
      recognizing flag.  It never starts a recognition, keeps every earlier
      result in place and adds at most one. */
  lemma ResultEffectFrame(s: State, f: Frame, body: J.Json)
    requires ResultDefined(f, body)
    ensures ResultEffect(s, f, body).Returned?
    ensures ResultStep(SessionAfter(s, f), ResultEffect(s, f, body).state)
  {
    var s1 := SessionAfter(s, f);
    var status := StatusOf(f);
    if status == "CANCELED" {
      CanceledStep(s1);
    } else if f.extra == [] {
      UnheardStep(s1, status);
    } else if FinalFlag(status, body) {
      FinalStep(s1, body);
    } else {
      PartialStep(s1, body);
    }
  }

  /** Only an IDLE `Session-Status` header changes the session, to idle;
      nothing else is touched by that step. */
  lemma SessionAfterSpec(s: State, f: Frame)
    ensures SessionAfter(s, f).session == (if HeaderOf(f, "Session-Status") == "IDLE" then Idle else s.session)
    ensures SessionAfter(s, f).(session := s.session) == s
  {
  }

  /** CANCELED: nothing is kept, nobody is called back, the recognition
      ends and the handler answers false. */
  lemma ResultCanceled(s: State, f: Frame, body: J.Json)
    requires ResultDefined(f, body) && StatusOf(f) == "CANCELED"
    ensures var o := ResultEffect(s, f, body);
            && !o.ok && !o.state.recognizing
            && o.state.results == s.results && o.state.events == s.events
  {
    assert ResultEffect(s, f, body) == CanceledEffect(SessionAfter(s, f));
  }

  /** An empty body: one result whose code comes from the status header is
      appended, then every result held is delivered again to every
      listener; the recognition ends and the handler answers false. */
  lemma ResultWithoutBody(s: State, f: Frame, body: J.Json)
    requires ResultDefined(f, body) && StatusOf(f) != "CANCELED" && f.extra == []
    ensures var o := ResultEffect(s, f, body);
            && !o.ok && !o.state.recognizing
            && |o.state.results| == |s.results| + 1
            && o.state.results[..|s.results|] == s.results
            && o.state.results[|s.results|].code == CodeOfStatus(StatusOf(f))
            && o.state.results[|s.results|].alternatives == []
            && o.state.events == s.events + DeliverAll(o.state.results, s.listeners)
  {
    var s1 := SessionAfter(s, f);
    assert ResultEffect(s, f, body) == UnheardEffect(s1, StatusOf(f));
    var results := s.results + [ResultOfStatus(StatusOf(f))];
    assert results[..|s.results|] == s.results;
  }

  /** The final result read from a body: code and alternatives as the JSON
      says, the times when the body carries them as numbers (-1 otherwise),
      and no last-segment flag. */
  lemma FinalResultSpec(body: J.Json)
    requires KnownStatus(ResultStatusOf(body))
    ensures var r := FinalResult(body);
            && r.code == RecognitionResultFromJson(body).code
            && r.alternatives == AlternativesOf(J.ArrayItems(J.Field(body, "alternatives")))
            && r.startTime == (if J.Field(body, "start_time").JNumber? then J.Field(body, "start_time").n else -1.0)
            && r.endTime == (if J.Field(body, "end_time").JNumber? then J.Field(body, "end_time").n else -1.0)
            && r.lastSegment.None?
  {
    RecognitionResultFromJsonSpec(body);
  }

  /** A final result: it is appended without the last-segment flag, while
      every listener receives a copy that carries it; the recognition ends
      exactly when this is the last segment; the handler answers true. */
  lemma ResultFinal(s: State, f: Frame, body: J.Json)
    requires ResultDefined(f, body) && StatusOf(f) != "CANCELED" && f.extra != []
    requires FinalFlag(StatusOf(f), body)
    ensures var o := ResultEffect(s, f, body);
            var res := FinalResult(body);
            && o.ok
            && o.state.results == s.results + [res]
            && res.lastSegment.None?
            && o.state.events == s.events + Broadcast(s.listeners, OnRecognitionResult(res.(lastSegment := Some(LastFlag(body)))))
            && o.state.recognizing == (s.recognizing && !LastFlag(body))
  {
    assert ResultEffect(s, f, body) == FinalEffect(SessionAfter(s, f), body);
    FinalResultSpec(body);
  }

  /** A partial result: every listener receives the first alternative's
      text; the results and the recognizing flag are untouched; the handler
      answers true. */
  lemma ResultPartial(s: State, f: Frame, body: J.Json)
    requires ResultDefined(f, body) && StatusOf(f) != "CANCELED" && f.extra != []
    requires !FinalFlag(StatusOf(f), body)
    ensures var o := ResultEffect(s, f, body);
            && o.ok
            && o.state.results == s.results && o.state.recognizing == s.recognizing
            && o.state.events == s.events + Broadcast(s.listeners, OnPartialRecognition(PartialRecognitionFromJson(body)))
  {
    assert ResultEffect(s, f, body) == PartialEffect(SessionAfter(s, f), body);
  }

  /** Without the 3.0 fields, a body is final exactly when the status is
      RECOGNIZED, and is the last segment; a boolean field overrides each. */
  lemma FlagDefaults(status: string, body: J.Json)
    ensures !J.Field(body, "final_result").JBool? ==> (FinalFlag(status, body) <==> status == "RECOGNIZED")
    ensures J.Field(body, "final_result").JBool? ==> FinalFlag(status, body) == J.BoolValue(J.Field(body, "final_result"))
    ensures !J.Field(body, "last_segment").JBool? ==> LastFlag(body)
    ensures J.Field(body, "last_segment").JBool? ==> LastFlag(body) == J.BoolValue(J.Field(body, "last_segment"))
  {
  }

  method HandleCanceled(impl: Impl) returns (ok: bool)
    modifies impl
    ensures CanceledEffect(old(impl.Snapshot())) == Returned(impl.Snapshot(), ok)
  {
    impl.recognizing := false;
    return false;
  }

  method HandleUnheard(impl: Impl, status: string) returns (ok: bool)
    requires KnownStatus(status)
    modifies impl
    ensures UnheardEffect(old(impl.Snapshot()), status) == Returned(impl.Snapshot(), ok)
  {
    impl.results := impl.results + [ResultOfStatus(status)];
    impl.DeliverResults();
    impl.recognizing := false;
    return false;
  }

  method HandleFinal(impl: Impl, body: J.Json, lastSegment: bool) returns (ok: bool)
    requires KnownStatus(ResultStatusOf(body)) && lastSegment == LastFlag(body)
    modifies impl
    ensures FinalEffect(old(impl.Snapshot()), body) == Returned(impl.Snapshot(), ok)
  {
    var res := RecognitionResultFromJson(body);
    if J.Field(body, "start_time").JNumber? {
      res := SetStartTime(res, J.NumberValue(J.Field(body, "start_time")));
    }
    if J.Field(body, "end_time").JNumber? {
      res := SetEndTime(res, J.NumberValue(J.Field(body, "end_time")));
    }
    impl.results := impl.results + [res];
    res := SetLastSpeechSegment(res, lastSegment);
    impl.NotifyAll(OnRecognitionResult(res));
    if lastSegment {
      impl.recognizing := false;
    }
    return true;
  }

  method HandlePartial(impl: Impl, body: J.Json) returns (ok: bool)
    requires |J.ArrayItems(J.Field(body, "alternatives"))| > 0
    modifies impl
    ensures PartialEffect(old(impl.Snapshot()), body) == Returned(impl.Snapshot(), ok)
  {
    var partial := PartialRecognitionFromJson(body);
    impl.NotifyAll(OnPartialRecognition(partial));
    return true;
  }

  /** The handler, step by step, on the recognizer's fields. */
  method ProcessResult(impl: Impl, f: Frame, body: J.Json) returns (ok: bool)
    requires ResultDefined(f, body)
    modifies impl
    ensures ResultEffect(old(impl.Snapshot()), f, body) == Returned(impl.Snapshot(), ok)
  {
    if HeaderOf(f, "Session-Status") == "IDLE" {
      impl.session := Idle;
    }
    assert impl.Snapshot() == SessionAfter(old(impl.Snapshot()), f);
    var status := StatusOf(f);
    if status == "CANCELED" {
      ok := HandleCanceled(impl);
    } else if f.extra == [] {
      ok := HandleUnheard(impl, status);
    } else {
      var finalResult := status == "RECOGNIZED";
      var lastSegment := true;
      if J.Field(body, "final_result").JBool? {
        finalResult := J.BoolValue(J.Field(body, "final_result"));
      }
      if J.Field(body, "last_segment").JBool? {
        lastSegment := J.BoolValue(J.Field(body, "last_segment"));
      }
      if finalResult {
        ok := HandleFinal(impl, body, lastSegment);
      } else {
        ok := HandlePartial(impl, body);
      }
    }
  }
}
