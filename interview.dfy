/** Vocabulary shared by the three interview runners: what answer capture can
    report, the request handed to the feedback generator, one transcript
    record, and the events a run produces (speech playback, capture,
    generator calls, pauses for the Enter key, the transcript write). */
module Interview {

  datatype Option<+T> = None | Some(value: T)

  /** What one call of the speech recogniser can end with: a transcription,
      `sr.UnknownValueError` (speech not understood) or `sr.RequestError`
      (service unreachable). */
  datatype CaptureOutcome =
    | Recognized(transcription: string)
    | UnknownValue
    | RequestError

  const UnrecognizedSpeech: string := "[Unrecognized speech]"
  const SpeechServiceError: string := "[Speech service error]"
  const NoFurtherQuestions: string := "No further questions."
  /** The greeting and the closing remark, each written as its two sentences
      joined, which keeps the verifier from evaluating string functions on
      them character by character. */
  const Welcome: string := "Welcome to your mock interview. " + "Let's begin."
  const Closing: string := "Thank you. " + "This concludes your mock interview."

  /** The string `listen_to_answer` returns for a capture outcome: the
      transcription itself, or the sentinel for the failure. */
  function AnswerText(outcome: CaptureOutcome): (answer: string)
    ensures outcome.Recognized? ==> answer == outcome.transcription
    ensures outcome.UnknownValue? ==> answer == UnrecognizedSpeech
    ensures outcome.RequestError? ==> answer == SpeechServiceError
  {
    match outcome
    case Recognized(text) => text
    case UnknownValue => UnrecognizedSpeech
    case RequestError => SpeechServiceError
  }

  /** The two failures are told apart by the string they leave behind, and
      neither leaves an empty answer. */
  lemma FailuresLeaveDistinctSentinels(o: CaptureOutcome, o': CaptureOutcome)
    requires !o.Recognized? && !o'.Recognized?
    ensures AnswerText(o) != []
    ensures AnswerText(o) == AnswerText(o') <==> o == o'
  {
  }

  /** The question handed to the generator as the one coming next. */
  function FollowUp(questions: seq<string>, i: nat): (next: string)
    requires i < |questions|
    ensures i + 1 < |questions| ==> next == questions[i + 1]
    ensures i + 1 == |questions| ==> next == NoFurtherQuestions
  {
    if i + 1 < |questions| then questions[i + 1] else NoFurtherQuestions
  }

  /** The three template variables of one generator call. */
  datatype FeedbackRequest = FeedbackRequest(question: string, answer: string, followUp: string)

  /** One element of `responses`: a JSON object with keys question, answer, feedback. */
  datatype Turn = Turn(question: string, answer: string, feedback: string)

  /** The transcript of a run whose generator calls returned `replies`:
      record i pairs question i with the answer captured for it and reply i. */
  function Transcript(questions: seq<string>, outcomes: seq<CaptureOutcome>, replies: seq<string>): seq<Turn>
    requires |questions| == |outcomes| == |replies|
  {
    seq(|questions|, i requires 0 <= i < |questions| => Turn(questions[i], AnswerText(outcomes[i]), replies[i]))
  }

  /** The records of the first i + 1 questions are those of the first i
      followed by record i. */
  lemma TranscriptExtend(questions: seq<string>, outcomes: seq<CaptureOutcome>, replies: seq<string>, i: nat)
    requires i < |questions| == |outcomes| == |replies|
    ensures Transcript(questions, outcomes, replies)[..i + 1]
         == Transcript(questions, outcomes, replies)[..i] + [Turn(questions[i], AnswerText(outcomes[i]), replies[i])]
  {
    var t := Transcript(questions, outcomes, replies);
    assert t[..i + 1] == t[..i] + [t[i]];
  }

  /** One externally visible step of a run. `Speak` carries the line given
      to the speech engine, `Listen` is one call of `listen_to_answer`,
      `Generate` one generator call with the session id it is scoped to (if
      any), `Pause` one `input("Press Enter ...")`, and `Save` the
      transcript written to `interview_responses.json`. */
  datatype Event =
    | Speak(text: string)
    | Listen
    | Generate(request: FeedbackRequest, session: Option<string>)
    | Pause
    | Save(transcript: seq<Turn>)

  /** The request made for question i, given the capture outcome for it. */
  function RequestAt(questions: seq<string>, outcomes: seq<CaptureOutcome>, i: nat): FeedbackRequest
    requires i < |questions| == |outcomes|
  {
    FeedbackRequest(questions[i], AnswerText(outcomes[i]), FollowUp(questions, i))
  }

  /** The requests made for questions 0 .. k-1, in order. */
  function RequestsBefore(questions: seq<string>, outcomes: seq<CaptureOutcome>, k: nat): (requests: seq<FeedbackRequest>)
    requires k <= |questions| == |outcomes|
    ensures |requests| == k
  {
    if k == 0 then [] else RequestsBefore(questions, outcomes, k - 1) + [RequestAt(questions, outcomes, k - 1)]
  }

  /** Request i of the first k is the one made for question i. */
  lemma {:induction false} RequestsBeforeAt(questions: seq<string>, outcomes: seq<CaptureOutcome>, k: nat)
    requires k <= |questions| == |outcomes|
    ensures |RequestsBefore(questions, outcomes, k)| == k
    ensures forall i :: 0 <= i < k ==> RequestsBefore(questions, outcomes, k)[i] == RequestAt(questions, outcomes, i)
  {
    if k > 0 {
      RequestsBeforeAt(questions, outcomes, k - 1);
    }
  }

  /** The request for question i, read out of the requests of a whole
      run. */
  lemma RequestOfRun(questions: seq<string>, outcomes: seq<CaptureOutcome>, i: nat)
    requires i < |questions| == |outcomes|
    ensures RequestsBefore(questions, outcomes, |questions|)[i] == RequestAt(questions, outcomes, i)
  {
    RequestsBeforeAt(questions, outcomes, |questions|);
  }

  /** The wait for Enter after question i in the runners that pause: after
      every question but the last. */
  function PauseAfter(questions: seq<string>, i: nat): seq<Event>
  {
    if i + 1 < |questions| then [Pause] else []
  }

  /** How many times event e occurs in a trace. */
  function Count(events: seq<Event>, e: Event): nat
  {
    if events == [] then 0 else (if events[0] == e then 1 else 0) + Count(events[1..], e)
  }

  /** The generator requests of a trace, in the order they were made. */
  function Requests(events: seq<Event>): seq<FeedbackRequest>
  {
    if events == [] then []
    else (if events[0].Generate? then [events[0].request] else []) + Requests(events[1..])
  }

  /** The session ids the generator calls of a trace were scoped to. */
  function Sessions(events: seq<Event>): set<Option<string>>
  {
    if events == [] then {}
    else (if events[0].Generate? then {events[0].session} else {}) + Sessions(events[1..])
  }

  /** The lines given to the speech engine, in order. */
  function Spoken(events: seq<Event>): seq<string>
  {
    if events == [] then []
    else (if events[0].Speak? then [events[0].text] else []) + Spoken(events[1..])
  }

  lemma {:induction false} CountAppend(a: seq<Event>, b: seq<Event>, e: Event)
    ensures Count(a + b, e) == Count(a, e) + Count(b, e)
  {
    if a == [] {
      assert a + b == b;
    } else {
      assert (a + b)[1..] == a[1..] + b;
      CountAppend(a[1..], b, e);
    }
  }

  lemma {:induction false} RequestsAppend(a: seq<Event>, b: seq<Event>)
    ensures Requests(a + b) == Requests(a) + Requests(b)
  {
    if a == [] {
      assert a + b == b;
    } else {
      var head := if a[0].Generate? then [a[0].request] else [];
      assert (a + b)[0] == a[0];
      assert (a + b)[1..] == a[1..] + b;
      calc {
        Requests(a + b);
        head + Requests(a[1..] + b);
        { RequestsAppend(a[1..], b); }
        head + (Requests(a[1..]) + Requests(b));
        { assert head + (Requests(a[1..]) + Requests(b)) == (head + Requests(a[1..])) + Requests(b); }
        (head + Requests(a[1..])) + Requests(b);
        Requests(a) + Requests(b);
      }
    }
  }

  lemma {:induction false} SessionsAppend(a: seq<Event>, b: seq<Event>)
    ensures Sessions(a + b) == Sessions(a) + Sessions(b)
  {
    if a == [] {
      assert a + b == b;
    } else {
      var head := if a[0].Generate? then {a[0].session} else {};
      assert (a + b)[0] == a[0];
      assert (a + b)[1..] == a[1..] + b;
      calc {
        Sessions(a + b);
        head + Sessions(a[1..] + b);
        { SessionsAppend(a[1..], b); }
        head + (Sessions(a[1..]) + Sessions(b));
        { assert head + (Sessions(a[1..]) + Sessions(b)) == (head + Sessions(a[1..])) + Sessions(b); }
        (head + Sessions(a[1..])) + Sessions(b);
        Sessions(a) + Sessions(b);
      }
    }
  }

  lemma {:induction false} SpokenAppend(a: seq<Event>, b: seq<Event>)
    ensures Spoken(a + b) == Spoken(a) + Spoken(b)
  {
    if a == [] {
      assert a + b == b;
    } else {
      var head := if a[0].Speak? then [a[0].text] else [];
      assert (a + b)[0] == a[0];
      assert (a + b)[1..] == a[1..] + b;
      calc {
        Spoken(a + b);
        head + Spoken(a[1..] + b);
        { SpokenAppend(a[1..], b); }
        head + (Spoken(a[1..]) + Spoken(b));
        { assert head + (Spoken(a[1..]) + Spoken(b)) == (head + Spoken(a[1..])) + Spoken(b); }
        (head + Spoken(a[1..])) + Spoken(b);
        Spoken(a) + Spoken(b);
      }
    }
  }

  /** The projections of one capture, generator call and spoken line. */
  lemma CaptureGenerateSpeak(r: FeedbackRequest, session: Option<string>, line: string)
    ensures var t := [Listen, Generate(r, session), Speak(line)];
      && Count(t, Listen) == 1 && Count(t, Pause) == 0
      && Requests(t) == [r] && Sessions(t) == {session} && Spoken(t) == [line]
  {
    OneEvent(Listen);
    OneEvent(Generate(r, session));
    OneEvent(Speak(line));
    ProjectionsAppend([Listen], [Generate(r, session)]);
    ProjectionsAppend([Listen, Generate(r, session)], [Speak(line)]);
    assert [Listen] + [Generate(r, session)] == [Listen, Generate(r, session)];
    assert [Listen, Generate(r, session)] + [Speak(line)] == [Listen, Generate(r, session), Speak(line)];
  }

  /** The projections of a spoken question followed by one capture,
      generator call and spoken line. */
  lemma AskCaptureGenerateSpeak(question: string, r: FeedbackRequest, session: Option<string>, line: string)
    ensures var t := [Speak(question), Listen, Generate(r, session), Speak(line)];
      && Count(t, Listen) == 1 && Count(t, Pause) == 0
      && Requests(t) == [r] && Sessions(t) == {session} && Spoken(t) == [question, line]
  {
    OneEvent(Speak(question));
    CaptureGenerateSpeak(r, session, line);
    ProjectionsAppend([Speak(question)], [Listen, Generate(r, session), Speak(line)]);
    assert [Speak(question)] + [Listen, Generate(r, session), Speak(line)]
        == [Speak(question), Listen, Generate(r, session), Speak(line)];
  }

  /** Appending the optional pause adds at most one pause and changes no
      other projection. */
  lemma ThenPause(block: seq<Event>, questions: seq<string>, i: nat)
    ensures Count(block + PauseAfter(questions, i), Listen) == Count(block, Listen)
    ensures Count(block + PauseAfter(questions, i), Pause)
         == Count(block, Pause) + (if i + 1 < |questions| then 1 else 0)
    ensures Requests(block + PauseAfter(questions, i)) == Requests(block)
    ensures Sessions(block + PauseAfter(questions, i)) == Sessions(block)
    ensures Spoken(block + PauseAfter(questions, i)) == Spoken(block)
  {
    OneEvent(Pause);
    ProjectionsAppend(block, PauseAfter(questions, i));
  }

  /** The projections of two spoken lines. */
  lemma SpeakTwice(line: string, line': string)
    ensures var t := [Speak(line), Speak(line')];
      && Count(t, Listen) == 0 && Count(t, Pause) == 0
      && Requests(t) == [] && Sessions(t) == {} && Spoken(t) == [line, line']
  {
    OneEvent(Speak(line));
    OneEvent(Speak(line'));
    ProjectionsAppend([Speak(line)], [Speak(line')]);
    assert [Speak(line)] + [Speak(line')] == [Speak(line), Speak(line')];
  }

  /** The projections of the transcript write followed by a spoken line. */
  lemma SaveThenSpeak(transcript: seq<Turn>, line: string)
    ensures var t := [Save(transcript), Speak(line)];
      && Count(t, Listen) == 0 && Count(t, Pause) == 0
      && Requests(t) == [] && Sessions(t) == {} && Spoken(t) == [line]
  {
    OneEvent(Save(transcript));
    OneEvent(Speak(line));
    ProjectionsAppend([Save(transcript)], [Speak(line)]);
    assert [Save(transcript)] + [Speak(line)] == [Save(transcript), Speak(line)];
  }

  /** The projections of a single event. */
  lemma OneEvent(x: Event)
    ensures Count([x], Listen) == (if x == Listen then 1 else 0)
    ensures Count([x], Pause) == (if x == Pause then 1 else 0)
    ensures Requests([x]) == (if x.Generate? then [x.request] else [])
    ensures Sessions([x]) == (if x.Generate? then {x.session} else {})
    ensures Spoken([x]) == (if x.Speak? then [x.text] else [])
  {
    assert [x][1..] == [];
  }

  /** All five projections distribute over concatenation. */
  lemma ProjectionsAppend(a: seq<Event>, b: seq<Event>)
    ensures Count(a + b, Listen) == Count(a, Listen) + Count(b, Listen)
    ensures Count(a + b, Pause) == Count(a, Pause) + Count(b, Pause)
    ensures Requests(a + b) == Requests(a) + Requests(b)
    ensures Sessions(a + b) == Sessions(a) + Sessions(b)
    ensures Spoken(a + b) == Spoken(a) + Spoken(b)
  {
    CountAppend(a, b, Listen);
    CountAppend(a, b, Pause);
    RequestsAppend(a, b);
    SessionsAppend(a, b);
    SpokenAppend(a, b);
  }

  /** A trace framed by an opening and a finale holding no occurrence of
      e has as many occurrences as its middle. */
  lemma CountFramed(opening: seq<Event>, middle: seq<Event>, finale: seq<Event>, e: Event)
    requires Count(opening, e) == 0 && Count(finale, e) == 0
    ensures Count(opening + middle + finale, e) == Count(middle, e)
  {
    CountAppend(opening + middle, finale, e);
    CountAppend(opening, middle, e);
  }

  /** A trace framed by an opening and a finale making no generator call
      makes the calls of its middle. */
  lemma RequestsFramed(opening: seq<Event>, middle: seq<Event>, finale: seq<Event>)
    requires Requests(opening) == [] && Requests(finale) == []
    ensures Requests(opening + middle + finale) == Requests(middle)
  {
    RequestsAppend(opening + middle, finale);
    RequestsAppend(opening, middle);
    assert [] + Requests(middle) + [] == Requests(middle);
  }

  /** The same for the session ids of the calls. */
  lemma SessionsFramed(opening: seq<Event>, middle: seq<Event>, finale: seq<Event>)
    requires Sessions(opening) == {} && Sessions(finale) == {}
    ensures Sessions(opening + middle + finale) == Sessions(middle)
  {
    SessionsAppend(opening + middle, finale);
    SessionsAppend(opening, middle);
    assert {} + Sessions(middle) + {} == Sessions(middle);
  }

  /** The lines spoken by a trace in three parts, part by part. */
  lemma SpokenFramed(opening: seq<Event>, middle: seq<Event>, finale: seq<Event>)
    ensures Spoken(opening + middle + finale) == Spoken(opening) + Spoken(middle) + Spoken(finale)
  {
    SpokenAppend(opening + middle, finale);
    SpokenAppend(opening, middle);
  }

  /** A block found in the left part of a concatenation is found at the
      same place in the whole. */
  lemma BlockInLeft<T>(left: seq<T>, right: seq<T>, lo: nat, block: seq<T>)
    requires lo + |block| <= |left| && left[lo .. lo + |block|] == block
    ensures lo + |block| <= |left + right| && (left + right)[lo .. lo + |block|] == block
  {
    assert (left + right)[lo .. lo + |block|] == left[lo .. lo + |block|];
  }

  /** The right part of a concatenation is found right after the left. */
  lemma BlockAtEnd<T>(left: seq<T>, right: seq<T>, lo: nat, block: seq<T>)
    requires lo == |left| && block == right
    ensures lo + |block| <= |left + right| && (left + right)[lo .. lo + |block|] == block
  {
    assert (left + right)[lo .. lo + |block|] == right[0 .. |right|];
    assert right[0 .. |right|] == right;
  }
}
