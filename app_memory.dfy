/** `app_memory.py`: the runner with a session-scoped chat history. It
    speaks the greeting and the first question, then per question captures
    an answer, asks the history-aware chain for feedback under the run's
    session id, speaks the reply as it is (no `clean_text`) and waits for
    Enter after every question but the last.

    The trace functions take the requests and replies of the generator calls
    as parameters; `RunMockInterview` says which ones a run makes
    (`RequestsBefore` and `RepliesBefore`). */
module AppMemory {
  import opened Interview
  import opened History

  const Questions: seq<string> := [
    "Tell me about a challenging machine learning project you've worked on.",
    "How do you approach feature selection in your ML models?",
    "What's your experience with deploying ML models to production?",
    "How do you handle missing data in a dataset?",
    "Explain the difference between supervised and unsupervised learning with examples.",
    "What metrics would you use to evaluate a classification model?"
  ]

  /** The greeting, then the first question, spoken before the loop. */
  function Opening(questions: seq<string>): seq<Event>
    requires |questions| > 0
  {
    [Speak(Welcome), Speak(questions[0])]
  }

  /** One iteration: capture, generator call i scoped to the session,
      reply i spoken, then the pause if another question follows. */
  function Step(questions: seq<string>, requests: seq<FeedbackRequest>, session: string,
                replies: seq<string>, i: nat): seq<Event>
    requires i < |questions| == |requests| == |replies|
  {
    [Listen, Generate(requests[i], Some(session)), Speak(replies[i])] + PauseAfter(questions, i)
  }

  /** The events of the first k iterations. */
  function Steps(questions: seq<string>, requests: seq<FeedbackRequest>, session: string,
                 replies: seq<string>, k: nat): seq<Event>
    requires k <= |questions| == |requests| == |replies|
  {
    if k == 0 then [] else
      Steps(questions, requests, session, replies, k - 1) + Step(questions, requests, session, replies, k - 1)
  }

  /** Everything a run does, in order, given the generator calls it makes
      and the transcript it writes. */
  function Script(questions: seq<string>, requests: seq<FeedbackRequest>, session: string,
                  replies: seq<string>, transcript: seq<Turn>): seq<Event>
    requires 0 < |questions| == |requests| == |replies|
  {
    Opening(questions) + Steps(questions, requests, session, replies, |questions|)
      + [Save(transcript), Speak(Closing)]
  }

  /** The trace after i + 1 iterations is the trace after i followed by
      iteration i. */
  lemma TraceExtend(questions: seq<string>, requests: seq<FeedbackRequest>, session: string,
                    replies: seq<string>, i: nat)
    requires i < |questions| == |requests| == |replies|
    ensures Opening(questions) + Steps(questions, requests, session, replies, i + 1) == (Opening(questions) + Steps(questions, requests, session, replies, i)) + Step(questions, requests, session, replies, i)
  {
  }

  /** `run_mock_interview(session_id)`. Capture outcome i answers question
      i, `stored` is what the history store holds for `session` when the run
      starts, and `store` is what it holds when the run ends. */
  method RunMockInterview(questions: seq<string>, outcomes: seq<CaptureOutcome>, chain: Chain,
                          session: string, stored: seq<Message>)
    returns (responses: seq<Turn>, events: seq<Event>, store: seq<Message>)
    requires |questions| > 0
    requires |outcomes| == |questions|
    ensures responses == Transcript(questions, outcomes,
                                    RepliesBefore(questions, outcomes, chain, session, stored, |questions|))
    ensures events == Script(questions, RequestsBefore(questions, outcomes, |questions|), session,
                             RepliesBefore(questions, outcomes, chain, session, stored, |questions|), responses)
    ensures store == HistoryAt(questions, outcomes, chain, session, stored, |questions|)
  {
    ghost var requests := RequestsBefore(questions, outcomes, |questions|);
    ghost var replies := RepliesBefore(questions, outcomes, chain, session, stored, |questions|);
    responses := [];
    store := stored;
    events := [Speak(Welcome), Speak(questions[0])];
    for i := 0 to |questions|
      invariant responses == Transcript(questions, outcomes, replies)[..i]
      invariant store == HistoryAt(questions, outcomes, chain, session, stored, i)
      invariant events == Opening(questions) + Steps(questions, requests, session, replies, i)
    {
      var q := questions[i];
      var step := [Listen];
      var answer := AnswerText(outcomes[i]);
      var next := FollowUp(questions, i);
      var request := FeedbackRequest(q, answer, next);
      var feedback := chain(session, store, request);
      store := store + Exchange(feedback);
      step := step + [Generate(request, Some(session)), Speak(feedback)];
      responses := responses + [Turn(q, answer, feedback)];
      if i < |questions| - 1 {
        step := step + [Pause];
      }
      assert request == requests[i] by {
        RequestOfRun(questions, outcomes, i);
      }
      assert feedback == replies[i] by {
        RequestOfRun(questions, outcomes, i);
        ReplyOfRun(questions, outcomes, chain, session, stored, i);
      }
      assert responses == Transcript(questions, outcomes, replies)[..i + 1] by {
        TranscriptExtend(questions, outcomes, replies, i);
      }
      assert step == Step(questions, requests, session, replies, i);
      assert events + step == Opening(questions) + Steps(questions, requests, session, replies, i + 1) by {
        TraceExtend(questions, requests, session, replies, i);
      }
      events := events + step;
    }
    assert responses == Transcript(questions, outcomes, replies);
    events := events + [Save(responses), Speak(Closing)];
  }

  /** Four events per iteration, the last iteration of the run having no
      pause. */
  lemma {:induction false} StepsLength(questions: seq<string>, requests: seq<FeedbackRequest>, session: string,
                                       replies: seq<string>, k: nat)
    requires k <= |questions| == |requests| == |replies|
    ensures |Steps(questions, requests, session, replies, k)| == if 0 < k == |questions| then 4 * k - 1 else 4 * k
  {
    if k > 0 {
      StepsLength(questions, requests, session, replies, k - 1);
    }
  }

  /** Iteration i's events start at position 4i of the first k iterations. */
  lemma {:induction false} StepIn(questions: seq<string>, requests: seq<FeedbackRequest>, session: string,
                                  replies: seq<string>, k: nat, i: nat)
    requires i < k <= |questions| == |requests| == |replies|
    ensures 4 * i + |Step(questions, requests, session, replies, i)| <= |Steps(questions, requests, session, replies, k)|
    ensures Steps(questions, requests, session, replies, k)[4 * i .. 4 * i + |Step(questions, requests, session, replies, i)|]
         == Step(questions, requests, session, replies, i)
  {
    StepsLength(questions, requests, session, replies, k - 1);
    var earlier := Steps(questions, requests, session, replies, k - 1);
    var last := Step(questions, requests, session, replies, k - 1);
    if i == k - 1 {
      BlockAtEnd(earlier, last, 4 * i, Step(questions, requests, session, replies, i));
    } else {
      StepIn(questions, requests, session, replies, k - 1, i);
      BlockInLeft(earlier, last, 4 * i, Step(questions, requests, session, replies, i));
    }
  }

  /** A run starts with the greeting and the first question and ends with
      the transcript write followed by the closing remark; in between come
      four events per question but three for the last. */
  lemma ScriptEnds(questions: seq<string>, requests: seq<FeedbackRequest>, session: string,
                   replies: seq<string>, transcript: seq<Turn>)
    requires 0 < |questions| == |requests| == |replies|
    ensures var s, n := Script(questions, requests, session, replies, transcript), |questions|;
      && |s| == 4 * n + 3
      && s[0] == Speak(Welcome)
      && s[1] == Speak(questions[0])
      && s[4 * n + 1] == Save(transcript)
      && s[4 * n + 2] == Speak(Closing)
  {
    StepsLength(questions, requests, session, replies, |questions|);
  }

  /** Per question, in order: capture, generator call i under the session
      id, and reply i spoken, then (after every question but the last) the
      pause. No question after the first is spoken. */
  lemma ScriptRounds(questions: seq<string>, requests: seq<FeedbackRequest>, session: string,
                     replies: seq<string>, transcript: seq<Turn>)
    requires 0 < |questions| == |requests| == |replies|
    ensures var s, n := Script(questions, requests, session, replies, transcript), |questions|;
      && 4 * n + 1 <= |s|
      && (forall i :: 0 <= i < n ==>
            s[4 * i + 2 .. 4 * i + 5] == [Listen, Generate(requests[i], Some(session)), Speak(replies[i])])
      && (forall i :: 0 <= i && i + 1 < n ==> s[4 * i + 5] == Pause)
  {
    var n := |questions|;
    StepsLength(questions, requests, session, replies, n);
    var steps := Steps(questions, requests, session, replies, n);
    var finale := [Save(transcript), Speak(Closing)];
    var s := Script(questions, requests, session, replies, transcript);
    forall i | 0 <= i < n
      ensures s[4 * i + 2 .. 4 * i + 5] == [Listen, Generate(requests[i], Some(session)), Speak(replies[i])]
      ensures i + 1 < n ==> s[4 * i + 5] == Pause
    {
      var step := Step(questions, requests, session, replies, i);
      StepIn(questions, requests, session, replies, n, i);
      assert ((Opening(questions) + steps) + finale)[4 * i + 2 .. 4 * i + 2 + |step|] == (Opening(questions) + steps)[4 * i + 2 .. 4 * i + 2 + |step|];
      assert (Opening(questions) + steps)[4 * i + 2 .. 4 * i + 2 + |step|] == steps[4 * i .. 4 * i + |step|];
      assert s[4 * i + 2 .. 4 * i + 2 + |step|] == step;
      assert s[4 * i + 2 .. 4 * i + 5] == step[..3];
      if i + 1 < n {
        assert s[4 * i + 5] == step[3];
      }
    }
  }

  /** The first k iterations capture k times and pause after each but the
      run's last question. */
  lemma {:induction false} StepsCounts(questions: seq<string>, requests: seq<FeedbackRequest>, session: string,
                                       replies: seq<string>, k: nat)
    requires k <= |questions| == |requests| == |replies|
    ensures Count(Steps(questions, requests, session, replies, k), Listen) == k
    ensures Count(Steps(questions, requests, session, replies, k), Pause) == if 0 < k == |questions| then k - 1 else k
  {
    if k > 0 {
      StepsCounts(questions, requests, session, replies, k - 1);
      var block := [Listen, Generate(requests[k - 1], Some(session)), Speak(replies[k - 1])];
      CaptureGenerateSpeak(requests[k - 1], Some(session), replies[k - 1]);
      ThenPause(block, questions, k - 1);
      CountAppend(Steps(questions, requests, session, replies, k - 1), Step(questions, requests, session, replies, k - 1), Listen);
      CountAppend(Steps(questions, requests, session, replies, k - 1), Step(questions, requests, session, replies, k - 1), Pause);
    }
  }

  /** The first k iterations make the first k generator calls, in order,
      each under the session id. */
  lemma {:induction false} StepsRequests(questions: seq<string>, requests: seq<FeedbackRequest>, session: string,
                                         replies: seq<string>, k: nat)
    requires k <= |questions| == |requests| == |replies|
    ensures Requests(Steps(questions, requests, session, replies, k)) == requests[..k]
    ensures Sessions(Steps(questions, requests, session, replies, k)) == if k == 0 then {} else {Some(session)}
  {
    if k > 0 {
      StepsRequests(questions, requests, session, replies, k - 1);
      var block := [Listen, Generate(requests[k - 1], Some(session)), Speak(replies[k - 1])];
      CaptureGenerateSpeak(requests[k - 1], Some(session), replies[k - 1]);
      ThenPause(block, questions, k - 1);
      RequestsAppend(Steps(questions, requests, session, replies, k - 1), Step(questions, requests, session, replies, k - 1));
      SessionsAppend(Steps(questions, requests, session, replies, k - 1), Step(questions, requests, session, replies, k - 1));
      assert requests[..k] == requests[..k - 1] + [requests[k - 1]];
    }
  }

  /** The first k iterations speak the first k replies, in order, and
      nothing else. */
  lemma {:induction false} StepsSpoken(questions: seq<string>, requests: seq<FeedbackRequest>, session: string,
                                       replies: seq<string>, k: nat)
    requires k <= |questions| == |requests| == |replies|
    ensures Spoken(Steps(questions, requests, session, replies, k)) == replies[..k]
  {
    if k > 0 {
      StepsSpoken(questions, requests, session, replies, k - 1);
      var block := [Listen, Generate(requests[k - 1], Some(session)), Speak(replies[k - 1])];
      CaptureGenerateSpeak(requests[k - 1], Some(session), replies[k - 1]);
      ThenPause(block, questions, k - 1);
      SpokenAppend(Steps(questions, requests, session, replies, k - 1), Step(questions, requests, session, replies, k - 1));
      assert replies[..k] == replies[..k - 1] + [replies[k - 1]];
    }
  }

  /** A run captures once per question and never retries, and waits for
      Enter once between consecutive questions. */
  lemma ScriptCounts(questions: seq<string>, requests: seq<FeedbackRequest>, session: string,
                     replies: seq<string>, transcript: seq<Turn>)
    requires 0 < |questions| == |requests| == |replies|
    ensures Count(Script(questions, requests, session, replies, transcript), Listen) == |questions|
    ensures Count(Script(questions, requests, session, replies, transcript), Pause) == |questions| - 1
  {
    var steps := Steps(questions, requests, session, replies, |questions|);
    StepsCounts(questions, requests, session, replies, |questions|);
    SpeakTwice(Welcome, questions[0]);
    SaveThenSpeak(transcript, Closing);
    CountFramed(Opening(questions), steps, [Save(transcript), Speak(Closing)], Listen);
    CountFramed(Opening(questions), steps, [Save(transcript), Speak(Closing)], Pause);
  }

  /** A run makes its generator calls in order, one per question, and
      every call under the run's one session id. */
  lemma ScriptRequests(questions: seq<string>, requests: seq<FeedbackRequest>, session: string,
                       replies: seq<string>, transcript: seq<Turn>)
    requires 0 < |questions| == |requests| == |replies|
    ensures Requests(Script(questions, requests, session, replies, transcript)) == requests
    ensures Sessions(Script(questions, requests, session, replies, transcript)) == {Some(session)}
  {
    var steps := Steps(questions, requests, session, replies, |questions|);
    StepsRequests(questions, requests, session, replies, |questions|);
    assert requests[..|questions|] == requests;
    SpeakTwice(Welcome, questions[0]);
    SaveThenSpeak(transcript, Closing);
    RequestsFramed(Opening(questions), steps, [Save(transcript), Speak(Closing)]);
    SessionsFramed(Opening(questions), steps, [Save(transcript), Speak(Closing)]);
  }

  /** Of the questions a run speaks only the first: the lines it speaks are
      the greeting, the first question, each reply in turn and the closing
      remark. */
  lemma ScriptSpoken(questions: seq<string>, requests: seq<FeedbackRequest>, session: string,
                     replies: seq<string>, transcript: seq<Turn>)
    requires 0 < |questions| == |requests| == |replies|
    ensures Spoken(Script(questions, requests, session, replies, transcript))
         == [Welcome, questions[0]] + replies + [Closing]
  {
    var steps := Steps(questions, requests, session, replies, |questions|);
    StepsSpoken(questions, requests, session, replies, |questions|);
    assert replies[..|questions|] == replies;
    SpeakTwice(Welcome, questions[0]);
    SaveThenSpeak(transcript, Closing);
    SpokenFramed(Opening(questions), steps, [Save(transcript), Speak(Closing)]);
  }

  /** A run over the program's own question list: the list meets the run's
      precondition, and the run has 27 events, capturing six answers and
      waiting for Enter five times. */
  lemma OwnQuestionsRun(requests: seq<FeedbackRequest>, session: string,
                        replies: seq<string>, transcript: seq<Turn>)
    requires |requests| == |replies| == |Questions|
    ensures |Questions| == 6
    ensures |Script(Questions, requests, session, replies, transcript)| == 27
    ensures Count(Script(Questions, requests, session, replies, transcript), Listen) == 6
    ensures Count(Script(Questions, requests, session, replies, transcript), Pause) == 5
  {
    ScriptEnds(Questions, requests, session, replies, transcript);
    ScriptCounts(Questions, requests, session, replies, transcript);
  }
}
