/** The chat memory that `app_memory.py` and `app_new.py` wrap around their
    feedback chain: a history store keyed by session id (backed by
    `memory.db`), read before every call and extended after it. */
module History {
  import opened Interview

  /** One stored chat message. */
  datatype Message = HumanMessage(content: string) | AiMessage(content: string)

  /** The value the runners pass under `input`, which is the key the history
      wrapper is configured to record as the human turn. */
  const PlaceholderInput: string := "some_input_value"

  /** The prompt-and-model chain of the memory variants: the reply for a
      request, given the session id and the history stored for it. */
  type Chain = (string, seq<Message>, FeedbackRequest) -> string

  /** What the history wrapper appends after one call that returned `reply`. */
  function Exchange(reply: string): (added: seq<Message>)
    ensures |added| == 2
    ensures added[0] == HumanMessage(PlaceholderInput) && added[1] == AiMessage(reply)
  {
    [HumanMessage(PlaceholderInput), AiMessage(reply)]
  }

  /** The history of `session` seen by call k of a run that started with
      `stored` in the store. */
  function HistoryAt(questions: seq<string>, outcomes: seq<CaptureOutcome>, chain: Chain,
                     session: string, stored: seq<Message>, k: nat): seq<Message>
    requires k <= |questions| == |outcomes|
  {
    if k == 0 then stored
    else
      var h := HistoryAt(questions, outcomes, chain, session, stored, k - 1);
      h + Exchange(chain(session, h, RequestAt(questions, outcomes, k - 1)))
  }

  /** The reply of call i: the chain applied to the history it sees. */
  function ReplyAt(questions: seq<string>, outcomes: seq<CaptureOutcome>, chain: Chain,
                   session: string, stored: seq<Message>, i: nat): string
    requires i < |questions| == |outcomes|
  {
    chain(session, HistoryAt(questions, outcomes, chain, session, stored, i), RequestAt(questions, outcomes, i))
  }

  /** The history grows by exactly one exchange per call: the earlier
      contents are kept, the human turn recorded is always the placeholder
      input (never the question or the answer), and the AI turn is the
      reply of that call. */
  lemma {:induction false} HistoryGrowth(questions: seq<string>, outcomes: seq<CaptureOutcome>, chain: Chain,
                                         session: string, stored: seq<Message>, k: nat)
    requires k <= |questions| == |outcomes|
    ensures |HistoryAt(questions, outcomes, chain, session, stored, k)| == |stored| + 2 * k
    ensures HistoryAt(questions, outcomes, chain, session, stored, k)[..|stored|] == stored
    ensures forall i :: 0 <= i < k ==>
      && HistoryAt(questions, outcomes, chain, session, stored, k)[|stored| + 2 * i] == HumanMessage(PlaceholderInput)
      && HistoryAt(questions, outcomes, chain, session, stored, k)[|stored| + 2 * i + 1]
           == AiMessage(ReplyAt(questions, outcomes, chain, session, stored, i))
  {
    if k > 0 {
      HistoryGrowth(questions, outcomes, chain, session, stored, k - 1);
      var h := HistoryAt(questions, outcomes, chain, session, stored, k - 1);
      assert HistoryAt(questions, outcomes, chain, session, stored, k)[..|h|] == h;
    }
  }

  /** Each call sees an extension of what every earlier call saw. */
  lemma {:induction false} HistoryExtends(questions: seq<string>, outcomes: seq<CaptureOutcome>, chain: Chain,
                                          session: string, stored: seq<Message>, i: nat, k: nat)
    requires i <= k <= |questions| == |outcomes|
    ensures HistoryAt(questions, outcomes, chain, session, stored, i)
         <= HistoryAt(questions, outcomes, chain, session, stored, k)
  {
    if i < k {
      HistoryExtends(questions, outcomes, chain, session, stored, i, k - 1);
    }
  }

  /** The replies of calls 0 .. k-1, in order. */
  function RepliesBefore(questions: seq<string>, outcomes: seq<CaptureOutcome>, chain: Chain,
                         session: string, stored: seq<Message>, k: nat): (replies: seq<string>)
    requires k <= |questions| == |outcomes|
    ensures |replies| == k
  {
    if k == 0 then [] else
      RepliesBefore(questions, outcomes, chain, session, stored, k - 1)
        + [ReplyAt(questions, outcomes, chain, session, stored, k - 1)]
  }

  /** Reply i of the first k is the reply of call i. */
  lemma {:induction false} RepliesBeforeAt(questions: seq<string>, outcomes: seq<CaptureOutcome>, chain: Chain,
                                           session: string, stored: seq<Message>, k: nat)
    requires k <= |questions| == |outcomes|
    ensures forall i :: 0 <= i < k ==>
      RepliesBefore(questions, outcomes, chain, session, stored, k)[i]
        == ReplyAt(questions, outcomes, chain, session, stored, i)
  {
    if k > 0 {
      RepliesBeforeAt(questions, outcomes, chain, session, stored, k - 1);
    }
  }

  /** The reply of call i, read out of the replies of a whole run. */
  lemma ReplyOfRun(questions: seq<string>, outcomes: seq<CaptureOutcome>, chain: Chain,
                   session: string, stored: seq<Message>, i: nat)
    requires i < |questions| == |outcomes|
    ensures RepliesBefore(questions, outcomes, chain, session, stored, |questions|)[i]
         == chain(session, HistoryAt(questions, outcomes, chain, session, stored, i), RequestAt(questions, outcomes, i))
  {
    RepliesBeforeAt(questions, outcomes, chain, session, stored, |questions|);
  }

  /** Entry i of the transcript a run writes records question i, the
      answer captured for it and the reply of generator call i. */
  lemma TranscriptOfRun(questions: seq<string>, outcomes: seq<CaptureOutcome>, chain: Chain,
                        session: string, stored: seq<Message>)
    requires |questions| == |outcomes|
    ensures var t := Transcript(questions, outcomes,
                                RepliesBefore(questions, outcomes, chain, session, stored, |questions|));
      && |t| == |questions|
      && forall i :: 0 <= i < |questions| ==>
           t[i] == Turn(questions[i], AnswerText(outcomes[i]), ReplyAt(questions, outcomes, chain, session, stored, i))
  {
    RepliesBeforeAt(questions, outcomes, chain, session, stored, |questions|);
  }
}
