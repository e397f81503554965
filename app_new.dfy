/** `app_new.py`: the memory runner that also speaks every question. It
    speaks the greeting, then per question speaks the question, captures an
    answer, asks the history-aware chain for feedback under the run's
    session id, speaks the reply and waits for Enter after every question
    but the last. It reads no question before the loop, so it accepts an
    empty question list.

    As in `AppMemory`, the trace functions take the requests and replies of
    the generator calls as parameters and `RunMockInterview` says which ones
    a run makes. */
module AppNew {
  import opened Interview
  import opened History

  const Questions: seq<string> := [
    "Why did you choose this particular time to travel?",
    "What is the purpose of getting vica?",
    "Why are you traveling at this time?",
    "Have you traveled abroad before?",
    "Do you have travel insurance?",
    "What do you do for a living in your home country?"
  ]

  /** One iteration: question i spoken, capture, generator call i scoped to
      the session, reply i spoken, then the pause if another question
      follows. */
  function Step(questions: seq<string>, requests: seq<FeedbackRequest>, session: string,
                replies: seq<string>, i: nat): seq<Event>
    requires i < |questions| == |requests| == |replies|
  {
    [Speak(questions[i]), Listen, Generate(requests[i], Some(session)), Speak(replies[i])]
      + PauseAfter(questions, i)
  }

  /** The events of the first k iterations. */
  function Steps(questions: seq<string>, requests: seq<FeedbackRequest>, session: string,
                 replies: seq<string>, k: nat): seq<Event>
    requires k <= |questions| == |requests| == |replies|
  {
    if k == 0 then [] else
      Steps(questions, requests, session, replies, k - 1) + Step(questions, requests, session, replies, k - 1)
  }

  /** Everything a run does, in order, given the generator calls it makes
      and the transcript it writes. */
  function Script(questions: seq<string>, requests: seq<FeedbackRequest>, session: string,
                  replies: seq<string>, transcript: seq<Turn>): seq<Event>
    requires |questions| == |requests| == |replies|
  {
    [Speak(Welcome)] + Steps(questions, requests, session, replies, |questions|)
      + [Save(transcript), Speak(Closing)]
  }

  /** The trace after i + 1 iterations is the trace after i followed by
      iteration i. */
  lemma TraceExtend(questions: seq<string>, requests: seq<FeedbackRequest>, session: string,
                    replies: seq<string>, i: nat)
    requires i < |questions| == |requests| == |replies|
    ensures [Speak(Welcome)] + Steps(questions, requests, session, replies, i + 1) == ([Speak(Welcome)] + Steps(questions, requests, session, replies, i)) + Step(questions, requests, session, replies, i)
  {
  }

  /** `run_mock_interview(session_id)`. Capture outcome i answers question
      i, `stored` is what the history store holds for `session` when the run
      starts, and `store` is what it holds when the run ends. */
  method RunMockInterview(questions: seq<string>, outcomes: seq<CaptureOutcome>, chain: Chain,
                          session: string, stored: seq<Message>)
    returns (responses: seq<Turn>, events: seq<Event>, store: seq<Message>)
    requires |outcomes| == |questions|
    ensures responses == Transcript(questions, outcomes,
                                    RepliesBefore(questions, outcomes, chain, session, stored, |questions|))
    ensures events == Script(questions, RequestsBefore(questions, outcomes, |questions|), session,
                             RepliesBefore(questions, outcomes, chain, session, stored, |questions|), responses)
    ensures store == HistoryAt(questions, outcomes, chain, session, stored, |questions|)
  {
    ghost var requests := RequestsBefore(questions, outcomes, |questions|);
    ghost var replies := RepliesBefore(questions, outcomes, chain, session, stored, |questions|);
    responses := [];
    store := stored;
    events := [Speak(Welcome)];
    for i := 0 to |questions|
      invariant responses == Transcript(questions, outcomes, replies)[..i]
      invariant store == HistoryAt(questions, outcomes, chain, session, stored, i)
      invariant events == [Speak(Welcome)] + Steps(questions, requests, session, replies, i)
    {
      var q := questions[i];
      var step := [Speak(q), Listen];
      var answer := AnswerText(outcomes[i]);
      var next := FollowUp(questions, i);
      var request := FeedbackRequest(q, answer, next);
      var feedback := chain(session, store, request);
      store := store + Exchange(feedback);
      step := step + [Generate(request, Some(session)), Speak(feedback)];
      responses := responses + [Turn(q, answer, feedback)];
      if i < |questions| - 1 {
        step := step + [Pause];
      }
      assert request == requests[i] by {
        RequestOfRun(questions, outcomes, i);
      }
      assert feedback == replies[i] by {
        RequestOfRun(questions, outcomes, i);
        ReplyOfRun(questions, outcomes, chain, session, stored, i);
      }
      assert responses == Transcript(questions, outcomes, replies)[..i + 1] by {
        TranscriptExtend(questions, outcomes, replies, i);
      }
      assert step == Step(questions, requests, session, replies, i);
      assert events + step == [Speak(Welcome)] + Steps(questions, requests, session, replies, i + 1) by {
        TraceExtend(questions, requests, session, replies, i);
      }
      events := events + step;
    }
    assert responses == Transcript(questions, outcomes, replies);
    events := events + [Save(responses), Speak(Closing)];
  }

  /** Five events per iteration, the last iteration of the run having no
      pause. */
  lemma {:induction false} StepsLength(questions: seq<string>, requests: seq<FeedbackRequest>, session: string,
                                       replies: seq<string>, k: nat)
    requires k <= |questions| == |requests| == |replies|
    ensures |Steps(questions, requests, session, replies, k)| == if 0 < k == |questions| then 5 * k - 1 else 5 * k
  {
    if k > 0 {
      StepsLength(questions, requests, session, replies, k - 1);
    }
  }

  /** Iteration i's events start at position 5i of the first k iterations. */
  lemma {:induction false} StepIn(questions: seq<string>, requests: seq<FeedbackRequest>, session: string,
                                  replies: seq<string>, k: nat, i: nat)
    requires i < k <= |questions| == |requests| == |replies|
    ensures 5 * i + |Step(questions, requests, session, replies, i)| <= |Steps(questions, requests, session, replies, k)|
    ensures Steps(questions, requests, session, replies, k)[5 * i .. 5 * i + |Step(questions, requests, session, replies, i)|]
         == Step(questions, requests, session, replies, i)
  {
    StepsLength(questions, requests, session, replies, k - 1);
    var earlier := Steps(questions, requests, session, replies, k - 1);
    var last := Step(questions, requests, session, replies, k - 1);
    if i == k - 1 {
      BlockAtEnd(earlier, last, 5 * i, Step(questions, requests, session, replies, i));
    } else {
      StepIn(questions, requests, session, replies, k - 1, i);
      BlockInLeft(earlier, last, 5 * i, Step(questions, requests, session, replies, i));
    }
  }

  /** A run starts with the greeting and ends with the transcript write
      followed by the closing remark; in between come five events per
      question but four for the last. With no questions the run is just
      greeting, write and closing. */
  lemma ScriptEnds(questions: seq<string>, requests: seq<FeedbackRequest>, session: string,
                   replies: seq<string>, transcript: seq<Turn>)
    requires |questions| == |requests| == |replies|
    ensures var s, n := Script(questions, requests, session, replies, transcript), |questions|;
      && |s| == (if n == 0 then 3 else 5 * n + 2)
      && s[0] == Speak(Welcome)
      && s[|s| - 2] == Save(transcript)
      && s[|s| - 1] == Speak(Closing)
  {
    StepsLength(questions, requests, session, replies, |questions|);
  }

  /** Per question, in order: question i spoken, capture, generator call i
      under the session id and reply i spoken, then (after every question
      but the last) the pause. */
  lemma ScriptRounds(questions: seq<string>, requests: seq<FeedbackRequest>, session: string,
                     replies: seq<string>, transcript: seq<Turn>)
    requires |questions| == |requests| == |replies|
    ensures var s, n := Script(questions, requests, session, replies, transcript), |questions|;
      && 5 * n <= |s|
      && (forall i :: 0 <= i < n ==>
            s[5 * i + 1 .. 5 * i + 5]
              == [Speak(questions[i]), Listen, Generate(requests[i], Some(session)), Speak(replies[i])])
      && (forall i :: 0 <= i && i + 1 < n ==> s[5 * i + 5] == Pause)
  {
    var n := |questions|;
    StepsLength(questions, requests, session, replies, n);
    var steps := Steps(questions, requests, session, replies, n);
    var finale := [Save(transcript), Speak(Closing)];
    var s := Script(questions, requests, session, replies, transcript);
    forall i | 0 <= i < n
      ensures s[5 * i + 1 .. 5 * i + 5]
              == [Speak(questions[i]), Listen, Generate(requests[i], Some(session)), Speak(replies[i])]
      ensures i + 1 < n ==> s[5 * i + 5] == Pause
    {
      var step := Step(questions, requests, session, replies, i);
      StepIn(questions, requests, session, replies, n, i);
      assert (([Speak(Welcome)] + steps) + finale)[5 * i + 1 .. 5 * i + 1 + |step|] == ([Speak(Welcome)] + steps)[5 * i + 1 .. 5 * i + 1 + |step|];
      assert ([Speak(Welcome)] + steps)[5 * i + 1 .. 5 * i + 1 + |step|] == steps[5 * i .. 5 * i + |step|];
      assert s[5 * i + 1 .. 5 * i + 1 + |step|] == step;
      assert s[5 * i + 1 .. 5 * i + 5] == step[..4];
      if i + 1 < n {
        assert s[5 * i + 5] == step[4];
      }
    }
  }

  /** The first k iterations capture k times and pause after each but the
      run's last question. */
  lemma {:induction false} StepsCounts(questions: seq<string>, requests: seq<FeedbackRequest>, session: string,
                                       replies: seq<string>, k: nat)
    requires k <= |questions| == |requests| == |replies|
    ensures Count(Steps(questions, requests, session, replies, k), Listen) == k
    ensures Count(Steps(questions, requests, session, replies, k), Pause) == if 0 < k == |questions| then k - 1 else k
  {
    if k > 0 {
      StepsCounts(questions, requests, session, replies, k - 1);
      var block := [Speak(questions[k - 1]), Listen, Generate(requests[k - 1], Some(session)), Speak(replies[k - 1])];
      var step := Step(questions, requests, session, replies, k - 1);
      AskCaptureGenerateSpeak(questions[k - 1], requests[k - 1], Some(session), replies[k - 1]);
      ThenPause(block, questions, k - 1);
      CountAppend(Steps(questions, requests, session, replies, k - 1), step, Listen);
      CountAppend(Steps(questions, requests, session, replies, k - 1), step, Pause);
    }
  }

  /** The first k iterations make the first k generator calls, in order,
      each under the session id. */
  lemma {:induction false} StepsRequests(questions: seq<string>, requests: seq<FeedbackRequest>, session: string,
                                         replies: seq<string>, k: nat)
    requires k <= |questions| == |requests| == |replies|
    ensures Requests(Steps(questions, requests, session, replies, k)) == requests[..k]
    ensures Sessions(Steps(questions, requests, session, replies, k)) == if k == 0 then {} else {Some(session)}
  {
    if k > 0 {
      StepsRequests(questions, requests, session, replies, k - 1);
      var block := [Speak(questions[k - 1]), Listen, Generate(requests[k - 1], Some(session)), Speak(replies[k - 1])];
      var step := Step(questions, requests, session, replies, k - 1);
      AskCaptureGenerateSpeak(questions[k - 1], requests[k - 1], Some(session), replies[k - 1]);
      ThenPause(block, questions, k - 1);
      RequestsAppend(Steps(questions, requests, session, replies, k - 1), step);
      SessionsAppend(Steps(questions, requests, session, replies, k - 1), step);
      assert requests[..k] == requests[..k - 1] + [requests[k - 1]];
    }
  }

  /** Each question followed by the reply to its answer, for the first k
      questions. */
  function QuestionsAndReplies(questions: seq<string>, replies: seq<string>, k: nat): seq<string>
    requires k <= |questions| == |replies|
  {
    if k == 0 then [] else
      QuestionsAndReplies(questions, replies, k - 1) + [questions[k - 1], replies[k - 1]]
  }

  /** Line 2i of the first k is question i and line 2i+1 the reply to it. */
  lemma {:induction false} QuestionsAndRepliesAt(questions: seq<string>, replies: seq<string>, k: nat)
    requires k <= |questions| == |replies|
    ensures |QuestionsAndReplies(questions, replies, k)| == 2 * k
    ensures forall i :: 0 <= i < k ==>
      && QuestionsAndReplies(questions, replies, k)[2 * i] == questions[i]
      && QuestionsAndReplies(questions, replies, k)[2 * i + 1] == replies[i]
  {
    if k > 0 {
      QuestionsAndRepliesAt(questions, replies, k - 1);
    }
  }

  /** The first k iterations speak each of the first k questions followed
      by the reply, and nothing else. */
  lemma {:induction false} StepsSpoken(questions: seq<string>, requests: seq<FeedbackRequest>, session: string,
                                       replies: seq<string>, k: nat)
    requires k <= |questions| == |requests| == |replies|
    ensures Spoken(Steps(questions, requests, session, replies, k)) == QuestionsAndReplies(questions, replies, k)
  {
    if k > 0 {
      StepsSpoken(questions, requests, session, replies, k - 1);
      var block := [Speak(questions[k - 1]), Listen, Generate(requests[k - 1], Some(session)), Speak(replies[k - 1])];
      var step := Step(questions, requests, session, replies, k - 1);
      AskCaptureGenerateSpeak(questions[k - 1], requests[k - 1], Some(session), replies[k - 1]);
      ThenPause(block, questions, k - 1);
      SpokenAppend(Steps(questions, requests, session, replies, k - 1), step);
    }
  }

  /** A run captures once per question and never retries, and waits for
      Enter once between consecutive questions. */
  lemma ScriptCounts(questions: seq<string>, requests: seq<FeedbackRequest>, session: string,
                     replies: seq<string>, transcript: seq<Turn>)
    requires |questions| == |requests| == |replies|
    ensures Count(Script(questions, requests, session, replies, transcript), Listen) == |questions|
    ensures Count(Script(questions, requests, session, replies, transcript), Pause)
         == if |questions| == 0 then 0 else |questions| - 1
  {
    var steps := Steps(questions, requests, session, replies, |questions|);
    StepsCounts(questions, requests, session, replies, |questions|);
    OneEvent(Speak(Welcome));
    SaveThenSpeak(transcript, Closing);
    CountFramed([Speak(Welcome)], steps, [Save(transcript), Speak(Closing)], Listen);
    CountFramed([Speak(Welcome)], steps, [Save(transcript), Speak(Closing)], Pause);
  }

  /** A run makes its generator calls in order, one per question, and
      every call under the run's one session id. */
  lemma ScriptRequests(questions: seq<string>, requests: seq<FeedbackRequest>, session: string,
                       replies: seq<string>, transcript: seq<Turn>)
    requires |questions| == |requests| == |replies|
    ensures Requests(Script(questions, requests, session, replies, transcript)) == requests
    ensures Sessions(Script(questions, requests, session, replies, transcript))
         == if |questions| == 0 then {} else {Some(session)}
  {
    var steps := Steps(questions, requests, session, replies, |questions|);
    StepsRequests(questions, requests, session, replies, |questions|);
    assert requests[..|questions|] == requests;
    OneEvent(Speak(Welcome));
    SaveThenSpeak(transcript, Closing);
    RequestsFramed([Speak(Welcome)], steps, [Save(transcript), Speak(Closing)]);
    SessionsFramed([Speak(Welcome)], steps, [Save(transcript), Speak(Closing)]);
  }

  /** Unlike the other two runners, this one speaks every question: the
      lines it speaks are the greeting, each question followed by its reply,
      and the closing remark. */
  lemma ScriptSpoken(questions: seq<string>, requests: seq<FeedbackRequest>, session: string,
                     replies: seq<string>, transcript: seq<Turn>)
    requires |questions| == |requests| == |replies|
    ensures Spoken(Script(questions, requests, session, replies, transcript))
         == [Welcome] + QuestionsAndReplies(questions, replies, |questions|) + [Closing]
  {
    var steps := Steps(questions, requests, session, replies, |questions|);
    StepsSpoken(questions, requests, session, replies, |questions|);
    OneEvent(Speak(Welcome));
    SaveThenSpeak(transcript, Closing);
    SpokenFramed([Speak(Welcome)], steps, [Save(transcript), Speak(Closing)]);
  }

  /** A run over the program's own question list has 32 events, capturing
      six answers and waiting for Enter five times. */
  lemma OwnQuestionsRun(requests: seq<FeedbackRequest>, session: string,
                        replies: seq<string>, transcript: seq<Turn>)
    requires |requests| == |replies| == |Questions|
    ensures |Questions| == 6
    ensures |Script(Questions, requests, session, replies, transcript)| == 32
    ensures Count(Script(Questions, requests, session, replies, transcript), Listen) == 6
    ensures Count(Script(Questions, requests, session, replies, transcript), Pause) == 5
  {
    ScriptEnds(Questions, requests, session, replies, transcript);
    ScriptCounts(Questions, requests, session, replies, transcript);
  }
}
