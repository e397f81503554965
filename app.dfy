/** app.py: the console interview without conversation memory. Every line
    it speaks first goes through `clean_text`, the whitespace normaliser
    `" ".join(text.split())`. */
module App {
  import opened Interview

  // ---------------------------------------------------------------------
  // clean_text
  // ---------------------------------------------------------------------

  /** The characters Python's `str.split()` (no separator) splits on: the
      ASCII controls TAB, LF, VT, FF, CR, the separators 0x1C-0x1F and
      SPACE, then NEL, NO-BREAK SPACE and the Unicode space separators. */
  predicate IsWhitespace(c: char)
  {
    || ('\t' <= c <= '\r')                      // TAB, LF, VT, FF, CR
    || ('\U{1C}' <= c <= ' ')                    // 0x1C-0x1F and SPACE
    || c == '\U{85}' || c == '\U{A0}' || c == '\U{1680}'
    || ('\U{2000}' <= c <= '\U{200A}')
    || c == '\U{2028}' || c == '\U{2029}' || c == '\U{202F}' || c == '\U{205F}' || c == '\U{3000}'
  }

  /** An element of `str.split()`'s result: non-empty, no whitespace. */
  predicate IsWord(w: string)
  {
    |w| > 0 && forall i :: 0 <= i < |w| ==> !IsWhitespace(w[i])
  }

  /** The length of the run of non-whitespace characters that starts s. */
  function WordLength(s: string): (n: nat)
    ensures n <= |s|
  {
    if s == [] || IsWhitespace(s[0]) then 0 else 1 + WordLength(s[1..])
  }

  /** The run WordLength measures is maximal. */
  lemma {:induction false} WordLengthRun(s: string)
    ensures forall i :: 0 <= i < WordLength(s) ==> !IsWhitespace(s[i])
    ensures WordLength(s) < |s| ==> IsWhitespace(s[WordLength(s)])
  {
    if s != [] && !IsWhitespace(s[0]) {
      WordLengthRun(s[1..]);
    }
  }

  /** `str.split()`: the maximal runs of non-whitespace characters, in order. */
  function Split(s: string): seq<string>
    decreases |s|
  {
    if s == [] then []
    else if IsWhitespace(s[0]) then Split(s[1..])
    else
      var n := WordLength(s);
      [s[..n]] + Split(s[n..])
  }

  /** Every element of `str.split()`'s result is a word. */
  lemma {:induction false} SplitWords(s: string)
    ensures forall k :: 0 <= k < |Split(s)| ==> IsWord(Split(s)[k])
    decreases |s|
  {
    if s == [] {
    } else if IsWhitespace(s[0]) {
      SplitWords(s[1..]);
    } else {
      var n := WordLength(s);
      WordLengthRun(s);
      SplitWords(s[n..]);
    }
  }

  /** `sep.join(words)`. */
  function Join(sep: string, words: seq<string>): string
  {
    if words == [] then []
    else if |words| == 1 then words[0]
    else words[0] + sep + Join(sep, words[1..])
  }

  /** `clean_text(text)`: `" ".join(text.split())`. */
  function CleanText(text: string): string
  {
    Join(" ", Split(text))
  }

  /** The characters of s that are not whitespace, in order. */
  function NonWhitespace(s: string): string
  {
    if s == [] then [] else (if IsWhitespace(s[0]) then [] else [s[0]]) + NonWhitespace(s[1..])
  }

  function Concat(words: seq<string>): string
  {
    if words == [] then [] else words[0] + Concat(words[1..])
  }

  /** A line as `clean_text` leaves it: no whitespace at either end, every
      whitespace character a plain space, never two whitespace characters
      in a row. */
  predicate IsNormalized(s: string)
  {
    && (|s| > 0 ==> !IsWhitespace(s[0]) && !IsWhitespace(s[|s| - 1]))
    && (forall i :: 0 <= i < |s| && IsWhitespace(s[i]) ==> s[i] == ' ')
    && (forall i, j :: 0 <= i < j < |s| && IsWhitespace(s[i]) && IsWhitespace(s[j]) ==> i + 1 < j)
  }

  lemma {:induction false} NonWhitespaceAppend(a: string, b: string)
    ensures NonWhitespace(a + b) == NonWhitespace(a) + NonWhitespace(b)
  {
    if a == [] {
      assert a + b == b;
    } else {
      assert (a + b)[1..] == a[1..] + b;
      NonWhitespaceAppend(a[1..], b);
    }
  }

  lemma {:induction false} NonWhitespaceOfWord(w: string)
    requires forall i :: 0 <= i < |w| ==> !IsWhitespace(w[i])
    ensures NonWhitespace(w) == w
  {
    if w != [] {
      NonWhitespaceOfWord(w[1..]);
    }
  }

  lemma {:induction false} NonWhitespaceEmpty(s: string)
    ensures NonWhitespace(s) == [] <==> forall i :: 0 <= i < |s| ==> IsWhitespace(s[i])
  {
    if s != [] {
      NonWhitespaceEmpty(s[1..]);
      assert forall i :: 1 <= i < |s| ==> s[i] == s[1..][i - 1];
    }
  }

  /** The words of s, glued together, are exactly its non-whitespace characters. */
  lemma {:induction false} SplitKeepsNonWhitespace(s: string)
    ensures Concat(Split(s)) == NonWhitespace(s)
    decreases |s|
  {
    if s == [] {
    } else if IsWhitespace(s[0]) {
      SplitKeepsNonWhitespace(s[1..]);
    } else {
      var n := WordLength(s);
      WordLengthRun(s);
      assert s == s[..n] + s[n..];
      NonWhitespaceAppend(s[..n], s[n..]);
      NonWhitespaceOfWord(s[..n]);
      SplitKeepsNonWhitespace(s[n..]);
      assert Split(s) == [s[..n]] + Split(s[n..]);
      assert ([s[..n]] + Split(s[n..]))[1..] == Split(s[n..]);
    }
  }

  /** Joining words with single spaces adds only whitespace. */
  lemma {:induction false} JoinKeepsNonWhitespace(words: seq<string>)
    requires forall k :: 0 <= k < |words| ==> IsWord(words[k])
    ensures NonWhitespace(Join(" ", words)) == Concat(words)
  {
    if words == [] {
    } else if |words| == 1 {
      NonWhitespaceOfWord(words[0]);
      assert Concat(words[1..]) == [];
      assert Concat(words) == words[0] + [];
    } else {
      JoinKeepsNonWhitespace(words[1..]);
      NonWhitespaceOfWord(words[0]);
      NonWhitespaceAppend(words[0] + " ", Join(" ", words[1..]));
      NonWhitespaceAppend(words[0], " ");
      assert NonWhitespace(" ") == [];
    }
  }

  /** A run of exactly n non-whitespace characters starts s. */
  lemma {:induction false} WordLengthIs(s: string, n: nat)
    requires n <= |s|
    requires forall i :: 0 <= i < n ==> !IsWhitespace(s[i])
    requires n < |s| ==> IsWhitespace(s[n])
    ensures WordLength(s) == n
  {
    if n > 0 {
      WordLengthIs(s[1..], n - 1);
    }
  }

  /** A word followed by nothing or by whitespace is split off whole. */
  lemma SplitWordFirst(w: string, t: string)
    requires IsWord(w)
    requires t != [] ==> IsWhitespace(t[0])
    ensures Split(w + t) == [w] + Split(t)
  {
    var s := w + t;
    WordLengthIs(s, |w|);
    assert s[..|w|] == w && s[|w|..] == t;
  }

  /** Whitespace in front of a line does not change its words. */
  lemma SplitSkipsWhitespace(c: char, t: string)
    requires IsWhitespace(c)
    ensures Split([c] + t) == Split(t)
  {
    assert ([c] + t)[1..] == t;
  }

  /** Joining words with single spaces gives a normalized line that starts
      with the first word's first character and ends with the last word's
      last character. */
  lemma {:induction false} JoinNormalized(words: seq<string>)
    requires forall k :: 0 <= k < |words| ==> IsWord(words[k])
    ensures IsNormalized(Join(" ", words))
    ensures words == [] <==> Join(" ", words) == []
    ensures words != [] ==> Join(" ", words)[0] == words[0][0]
    ensures words != [] ==> !IsWhitespace(Join(" ", words)[|Join(" ", words)| - 1])
  {
    if |words| == 1 {
      assert IsWord(words[0]);
    } else if |words| > 1 {
      var w, rest := words[0], Join(" ", words[1..]);
      assert IsWord(w);
      JoinNormalized(words[1..]);
      var j := w + " " + rest;
      assert Join(" ", words) == j;
      assert forall i :: 0 <= i < |w| ==> j[i] == w[i];
      assert j[|w|] == ' ';
      assert forall i :: |w| < i < |j| ==> j[i] == rest[i - |w| - 1];
    }
  }

  /** `str.split()` takes a single-space join of words apart again. */
  lemma {:induction false} SplitJoin(words: seq<string>)
    requires forall k :: 0 <= k < |words| ==> IsWord(words[k])
    ensures Split(Join(" ", words)) == words
  {
    if words == [] {
    } else {
      var w := words[0];
      assert IsWord(w);
      if |words| == 1 {
        SplitWordFirst(w, []);
        assert w + [] == w;
      } else {
        var rest := Join(" ", words[1..]);
        SplitJoin(words[1..]);
        SplitWordFirst(w, " " + rest);
        SplitSkipsWhitespace(' ', rest);
        assert Join(" ", words) == w + (" " + rest);
      }
    }
  }

  /** Joining a word in front of further words puts one space between. */
  lemma JoinCons(w: string, words: seq<string>)
    requires words != []
    ensures Join(" ", [w] + words) == w + " " + Join(" ", words)
  {
    assert ([w] + words)[1..] == words;
  }

  /** What follows the first word and its space in a normalized line is
      normalized again. */
  lemma NormalizedAfterWord(s: string, n: nat)
    requires IsNormalized(s)
    requires n < |s| && IsWhitespace(s[n])
    ensures n + 1 < |s| && !IsWhitespace(s[n + 1]) && s[n] == ' '
    ensures IsNormalized(s[n + 1..])
  {
    var rest := s[n + 1..];
    assert forall i :: 0 <= i < |rest| ==> rest[i] == s[n + 1 + i];
  }

  /** A first word followed by whitespace: the words are that word and
      the words after its first whitespace character. */
  lemma SplitPastFirstWord(s: string)
    requires 0 < WordLength(s) < |s|
    ensures Split(s) == [s[..WordLength(s)]] + Split(s[WordLength(s) + 1..])
  {
    var n := WordLength(s);
    WordLengthRun(s);
    assert s[n..][1..] == s[n + 1..];
  }

  /** A line whose first word is followed by one space and a rest that is
      the join of its own words is the join of its own words. */
  lemma JoinPastFirstWord(s: string, n: nat)
    requires 0 < n == WordLength(s) && n + 1 < |s|
    requires s[n] == ' ' && !IsWhitespace(s[n + 1])
    requires Join(" ", Split(s[n + 1..])) == s[n + 1..]
    ensures Join(" ", Split(s)) == s
  {
    var w, rest := s[..n], s[n + 1..];
    SplitPastFirstWord(s);
    assert Split(rest) != [] by {
      assert WordLength(rest) > 0;
    }
    JoinCons(w, Split(rest));
    assert s == w + " " + rest;
  }

  /** A normalized line is the single-space join of its own words. */
  lemma {:induction false} NormalizedIsJoinOfWords(s: string)
    requires IsNormalized(s)
    ensures Join(" ", Split(s)) == s
    decreases |s|
  {
    if s != [] {
      var n := WordLength(s);
      WordLengthRun(s);
      if n < |s| {
        NormalizedAfterWord(s, n);
        NormalizedIsJoinOfWords(s[n + 1..]);
        JoinPastFirstWord(s, n);
      } else {
        assert s[..n] == s && s[n..] == [];
      }
    }
  }

  /** `clean_text` output has no leading or trailing whitespace, no newline
      or tab, and never two spaces in a row. */
  lemma CleanTextNormalized(text: string)
    ensures IsNormalized(CleanText(text))
  {
    SplitWords(text);
    JoinNormalized(Split(text));
  }

  /** `clean_text` keeps the non-whitespace characters of its input, in order. */
  lemma CleanTextKeepsNonWhitespace(text: string)
    ensures NonWhitespace(CleanText(text)) == NonWhitespace(text)
  {
    SplitWords(text);
    JoinKeepsNonWhitespace(Split(text));
    SplitKeepsNonWhitespace(text);
  }

  /** `clean_text` keeps the words of its input: splitting the result gives
      the same words as splitting the input. */
  lemma CleanTextKeepsWords(text: string)
    ensures Split(CleanText(text)) == Split(text)
  {
    SplitWords(text);
    SplitJoin(Split(text));
  }

  /** `clean_text` gives the empty string exactly for whitespace-only input. */
  lemma CleanTextEmpty(text: string)
    ensures CleanText(text) == [] <==> forall i :: 0 <= i < |text| ==> IsWhitespace(text[i])
  {
    SplitWords(text);
    JoinNormalized(Split(text));
    SplitKeepsNonWhitespace(text);
    NonWhitespaceEmpty(text);
    var words := Split(text);
    if words != [] {
      assert Concat(words) == words[0] + Concat(words[1..]);
      assert IsWord(words[0]);
    }
  }

  /** A line is left unchanged by `clean_text` exactly when it is normalized. */
  lemma CleanTextFixpoint(s: string)
    ensures CleanText(s) == s <==> IsNormalized(s)
  {
    CleanTextNormalized(s);
    if IsNormalized(s) {
      NormalizedIsJoinOfWords(s);
    }
  }

  /** `clean_text` is idempotent. */
  lemma CleanTextIdempotent(text: string)
    ensures CleanText(CleanText(text)) == CleanText(text)
  {
    CleanTextKeepsWords(text);
  }

  // ---------------------------------------------------------------------
  // run_mock_interview
  // ---------------------------------------------------------------------

  /** The list the program interviews with. */
  const Questions: seq<string> := [
    "Why did you choose this particular time to travel?",
    "What is the purpose of getting visa?",
    "Why are you traveling at this time?",
    "Have you traveled abroad before?",
    "Do you have travel insurance?",
    "What do you do for a living in your home country?"
  ]

  /** `speak(text)`: the engine is given `clean_text(text)`. */
  function Say(text: string): Event
  {
    Speak(CleanText(text))
  }

  /** The generator's reply for question i; this variant's chain sees only
      the three template variables. */
  function FeedbackAt(questions: seq<string>, outcomes: seq<CaptureOutcome>,
                      gen: FeedbackRequest -> string, i: nat): string
    requires i < |questions| == |outcomes|
  {
    gen(RequestAt(questions, outcomes, i))
  }

  /** The generator's replies to the requests of a whole run, in order. */
  function Feedbacks(questions: seq<string>, outcomes: seq<CaptureOutcome>,
                     gen: FeedbackRequest -> string): (replies: seq<string>)
    requires |questions| == |outcomes|
    ensures |replies| == |questions|
  {
    seq(|questions|, i requires 0 <= i < |questions| => FeedbackAt(questions, outcomes, gen, i))
  }

  /** The greeting, then the first question, spoken before the loop. */
  function Opening(questions: seq<string>): seq<Event>
    requires |questions| > 0
  {
    [Say(Welcome), Say(questions[0])]
  }

  /** One iteration: capture, one generator call, the feedback spoken. */
  function Step(questions: seq<string>, outcomes: seq<CaptureOutcome>,
                gen: FeedbackRequest -> string, i: nat): seq<Event>
    requires i < |questions| == |outcomes|
  {
    [Listen, Generate(RequestAt(questions, outcomes, i), None), Say(FeedbackAt(questions, outcomes, gen, i))]
  }

  /** The events of the first k iterations. */
  function Steps(questions: seq<string>, outcomes: seq<CaptureOutcome>,
                 gen: FeedbackRequest -> string, k: nat): seq<Event>
    requires k <= |questions| == |outcomes|
  {
    if k == 0 then [] else Steps(questions, outcomes, gen, k - 1) + Step(questions, outcomes, gen, k - 1)
  }

  /** Everything a run does, in order. */
  function Script(questions: seq<string>, outcomes: seq<CaptureOutcome>,
                  gen: FeedbackRequest -> string): seq<Event>
    requires 0 < |questions| == |outcomes|
  {
    Opening(questions) + Steps(questions, outcomes, gen, |questions|)
      + [Save(Transcript(questions, outcomes, Feedbacks(questions, outcomes, gen))), Say(Closing)]
  }

  /** The trace after i + 1 iterations is the trace after i followed by
      iteration i. */
  lemma TraceExtend(questions: seq<string>, outcomes: seq<CaptureOutcome>,
                    gen: FeedbackRequest -> string, i: nat)
    requires i < |questions| == |outcomes|
    ensures Opening(questions) + Steps(questions, outcomes, gen, i + 1) == (Opening(questions) + Steps(questions, outcomes, gen, i)) + Step(questions, outcomes, gen, i)
  {
  }

  /** `run_mock_interview`. Capture outcome i answers question i; `gen`
      stands for the prompt-and-model chain. */
  method RunMockInterview(questions: seq<string>, outcomes: seq<CaptureOutcome>,
                          gen: FeedbackRequest -> string)
    returns (responses: seq<Turn>, events: seq<Event>)
    requires |questions| > 0
    requires |outcomes| == |questions|
    ensures responses == Transcript(questions, outcomes, Feedbacks(questions, outcomes, gen))
    ensures events == Script(questions, outcomes, gen)
  {
    responses := [];
    events := [Say(Welcome), Say(questions[0])];
    for i := 0 to |questions|
      invariant responses == Transcript(questions, outcomes, Feedbacks(questions, outcomes, gen))[..i]
      invariant events == Opening(questions) + Steps(questions, outcomes, gen, i)
    {
      var q := questions[i];
      var step := [Listen];
      var answer := AnswerText(outcomes[i]);
      var next := FollowUp(questions, i);
      var request := FeedbackRequest(q, answer, next);
      var feedback := gen(request);
      step := step + [Generate(request, None)];
      step := step + [Say(feedback)];
      responses := responses + [Turn(q, answer, feedback)];
      assert request == RequestAt(questions, outcomes, i);
      assert responses == Transcript(questions, outcomes, Feedbacks(questions, outcomes, gen))[..i + 1] by {
        TranscriptExtend(questions, outcomes, Feedbacks(questions, outcomes, gen), i);
      }
      assert step == Step(questions, outcomes, gen, i);
      assert events + step == Opening(questions) + Steps(questions, outcomes, gen, i + 1) by {
        TraceExtend(questions, outcomes, gen, i);
      }
      events := events + step;
    }
    assert responses == Transcript(questions, outcomes, Feedbacks(questions, outcomes, gen));
    events := events + [Save(responses), Say(Closing)];
  }

  /** Three events per iteration. */
  lemma {:induction false} StepsLength(questions: seq<string>, outcomes: seq<CaptureOutcome>,
                                       gen: FeedbackRequest -> string, k: nat)
    requires k <= |questions| == |outcomes|
    ensures |Steps(questions, outcomes, gen, k)| == 3 * k
  {
    if k > 0 {
      StepsLength(questions, outcomes, gen, k - 1);
    }
  }

  /** Iteration i's events start at position 3i of the first k iterations. */
  lemma {:induction false} StepIn(questions: seq<string>, outcomes: seq<CaptureOutcome>,
                                  gen: FeedbackRequest -> string, k: nat, i: nat)
    requires i < k <= |questions| == |outcomes|
    ensures 3 * i + 3 <= |Steps(questions, outcomes, gen, k)|
    ensures Steps(questions, outcomes, gen, k)[3 * i .. 3 * i + 3] == Step(questions, outcomes, gen, i)
  {
    StepsLength(questions, outcomes, gen, k - 1);
    var earlier := Steps(questions, outcomes, gen, k - 1);
    var last := Step(questions, outcomes, gen, k - 1);
    if i == k - 1 {
      BlockAtEnd(earlier, last, 3 * i, Step(questions, outcomes, gen, i));
    } else {
      StepIn(questions, outcomes, gen, k - 1, i);
      BlockInLeft(earlier, last, 3 * i, Step(questions, outcomes, gen, i));
    }
  }

  /** A run starts with the greeting and the first question and ends with
      the transcript write followed by the closing remark, with three events
      per question in between. */
  lemma ScriptEnds(questions: seq<string>, outcomes: seq<CaptureOutcome>, gen: FeedbackRequest -> string)
    requires 0 < |questions| == |outcomes|
    ensures var s, n := Script(questions, outcomes, gen), |questions|;
      && |s| == 3 * n + 4
      && s[0] == Speak(CleanText(Welcome))
      && s[1] == Speak(CleanText(questions[0]))
      && s[3 * n + 2] == Save(Transcript(questions, outcomes, Feedbacks(questions, outcomes, gen)))
      && s[3 * n + 3] == Speak(CleanText(Closing))
  {
    StepsLength(questions, outcomes, gen, |questions|);
  }

  /** Per question, in order: capture, the generator call for that question
      with no session id, and the feedback spoken through `clean_text`. No
      question after the first is spoken. */
  lemma ScriptRounds(questions: seq<string>, outcomes: seq<CaptureOutcome>, gen: FeedbackRequest -> string)
    requires 0 < |questions| == |outcomes|
    ensures var s, n := Script(questions, outcomes, gen), |questions|;
      && 3 * n + 2 <= |s|
      && forall i :: 0 <= i < n ==>
           s[3 * i + 2 .. 3 * i + 5]
             == [Listen, Generate(RequestAt(questions, outcomes, i), None),
                 Speak(CleanText(gen(RequestAt(questions, outcomes, i))))]
  {
    var n := |questions|;
    StepsLength(questions, outcomes, gen, n);
    var steps := Steps(questions, outcomes, gen, n);
    var finale := [Save(Transcript(questions, outcomes, Feedbacks(questions, outcomes, gen))), Say(Closing)];
    var s := Script(questions, outcomes, gen);
    forall i | 0 <= i < n
      ensures s[3 * i + 2 .. 3 * i + 5]
              == [Listen, Generate(RequestAt(questions, outcomes, i), None),
                  Speak(CleanText(gen(RequestAt(questions, outcomes, i))))]
    {
      StepIn(questions, outcomes, gen, n, i);
      assert ((Opening(questions) + steps) + finale)[3 * i + 2 .. 3 * i + 5] == (Opening(questions) + steps)[3 * i + 2 .. 3 * i + 5];
      assert (Opening(questions) + steps)[3 * i + 2 .. 3 * i + 5] == steps[3 * i .. 3 * i + 3];
    }
  }

  /** Record i holds question i, the answer captured for it and the
      generator's reply exactly as returned; only the line spoken for it
      goes through `clean_text`. */
  lemma RecordsAndSpokenFeedback(questions: seq<string>, outcomes: seq<CaptureOutcome>, gen: FeedbackRequest -> string)
    requires 0 < |questions| == |outcomes|
    ensures var s, t := Script(questions, outcomes, gen), Transcript(questions, outcomes, Feedbacks(questions, outcomes, gen));
      && |t| == |questions| && 3 * |questions| + 2 <= |s|
      && forall i :: 0 <= i < |questions| ==>
           && t[i] == Turn(questions[i], AnswerText(outcomes[i]), gen(RequestAt(questions, outcomes, i)))
           && s[3 * i + 4] == Speak(CleanText(t[i].feedback))
  {
    ScriptRounds(questions, outcomes, gen);
    var s := Script(questions, outcomes, gen);
    forall i | 0 <= i < |questions|
      ensures s[3 * i + 4] == s[3 * i + 2 .. 3 * i + 5][2]
    {
    }
  }

  /** The feedback lines the first k iterations speak, cleaned. */
  function SpokenFeedback(questions: seq<string>, outcomes: seq<CaptureOutcome>,
                          gen: FeedbackRequest -> string, k: nat): seq<string>
    requires k <= |questions| == |outcomes|
  {
    if k == 0 then []
    else SpokenFeedback(questions, outcomes, gen, k - 1) + [CleanText(FeedbackAt(questions, outcomes, gen, k - 1))]
  }

  /** Spoken feedback line i is reply i of the run's `Feedbacks`, passed
      through `clean_text`. */
  lemma {:induction false} SpokenFeedbackAt(questions: seq<string>, outcomes: seq<CaptureOutcome>,
                                            gen: FeedbackRequest -> string, k: nat)
    requires k <= |questions| == |outcomes|
    ensures |SpokenFeedback(questions, outcomes, gen, k)| == k
    ensures forall i :: 0 <= i < k ==>
      SpokenFeedback(questions, outcomes, gen, k)[i] == CleanText(Feedbacks(questions, outcomes, gen)[i])
  {
    if k > 0 {
      SpokenFeedbackAt(questions, outcomes, gen, k - 1);
    }
  }

  /** The first k iterations capture k times and never pause. */
  lemma {:induction false} StepsCounts(questions: seq<string>, outcomes: seq<CaptureOutcome>,
                                       gen: FeedbackRequest -> string, k: nat)
    requires k <= |questions| == |outcomes|
    ensures Count(Steps(questions, outcomes, gen, k), Listen) == k
    ensures Count(Steps(questions, outcomes, gen, k), Pause) == 0
  {
    if k > 0 {
      StepsCounts(questions, outcomes, gen, k - 1);
      CaptureGenerateSpeak(RequestAt(questions, outcomes, k - 1), None,
                           CleanText(FeedbackAt(questions, outcomes, gen, k - 1)));
      CountAppend(Steps(questions, outcomes, gen, k - 1), Step(questions, outcomes, gen, k - 1), Listen);
      CountAppend(Steps(questions, outcomes, gen, k - 1), Step(questions, outcomes, gen, k - 1), Pause);
    }
  }

  /** The first k iterations call the generator once per question, in
      question order, never with a session id. */
  lemma {:induction false} StepsRequests(questions: seq<string>, outcomes: seq<CaptureOutcome>,
                                         gen: FeedbackRequest -> string, k: nat)
    requires k <= |questions| == |outcomes|
    ensures Requests(Steps(questions, outcomes, gen, k)) == RequestsBefore(questions, outcomes, k)
    ensures Sessions(Steps(questions, outcomes, gen, k)) == if k == 0 then {} else {None}
  {
    if k > 0 {
      StepsRequests(questions, outcomes, gen, k - 1);
      CaptureGenerateSpeak(RequestAt(questions, outcomes, k - 1), None,
                           CleanText(FeedbackAt(questions, outcomes, gen, k - 1)));
      RequestsAppend(Steps(questions, outcomes, gen, k - 1), Step(questions, outcomes, gen, k - 1));
      SessionsAppend(Steps(questions, outcomes, gen, k - 1), Step(questions, outcomes, gen, k - 1));
    }
  }

  /** The first k iterations speak each feedback once, cleaned, in order,
      and nothing else. */
  lemma {:induction false} StepsSpoken(questions: seq<string>, outcomes: seq<CaptureOutcome>,
                                       gen: FeedbackRequest -> string, k: nat)
    requires k <= |questions| == |outcomes|
    ensures Spoken(Steps(questions, outcomes, gen, k)) == SpokenFeedback(questions, outcomes, gen, k)
  {
    if k > 0 {
      StepsSpoken(questions, outcomes, gen, k - 1);
      CaptureGenerateSpeak(RequestAt(questions, outcomes, k - 1), None,
                           CleanText(FeedbackAt(questions, outcomes, gen, k - 1)));
      SpokenAppend(Steps(questions, outcomes, gen, k - 1), Step(questions, outcomes, gen, k - 1));
    }
  }

  /** A run captures once per question and never retries, and never
      pauses. */
  lemma ScriptCounts(questions: seq<string>, outcomes: seq<CaptureOutcome>, gen: FeedbackRequest -> string)
    requires 0 < |questions| == |outcomes|
    ensures Count(Script(questions, outcomes, gen), Listen) == |questions|
    ensures Count(Script(questions, outcomes, gen), Pause) == 0
  {
    var steps := Steps(questions, outcomes, gen, |questions|);
    var finale := [Save(Transcript(questions, outcomes, Feedbacks(questions, outcomes, gen))), Say(Closing)];
    StepsCounts(questions, outcomes, gen, |questions|);
    SpeakTwice(CleanText(Welcome), CleanText(questions[0]));
    SaveThenSpeak(Transcript(questions, outcomes, Feedbacks(questions, outcomes, gen)), CleanText(Closing));
    CountFramed(Opening(questions), steps, finale, Listen);
    CountFramed(Opening(questions), steps, finale, Pause);
  }

  /** A run calls the generator once per question, in question order, with
      the follow-up rule applied and no session id. */
  lemma ScriptRequests(questions: seq<string>, outcomes: seq<CaptureOutcome>, gen: FeedbackRequest -> string)
    requires 0 < |questions| == |outcomes|
    ensures Requests(Script(questions, outcomes, gen)) == RequestsBefore(questions, outcomes, |questions|)
    ensures Sessions(Script(questions, outcomes, gen)) == {None}
  {
    var steps := Steps(questions, outcomes, gen, |questions|);
    var finale := [Save(Transcript(questions, outcomes, Feedbacks(questions, outcomes, gen))), Say(Closing)];
    StepsRequests(questions, outcomes, gen, |questions|);
    SpeakTwice(CleanText(Welcome), CleanText(questions[0]));
    SaveThenSpeak(Transcript(questions, outcomes, Feedbacks(questions, outcomes, gen)), CleanText(Closing));
    RequestsFramed(Opening(questions), steps, finale);
    SessionsFramed(Opening(questions), steps, finale);
  }

  /** Of the questions a run speaks only the first: the lines it speaks are
      the greeting, the first question, each feedback in turn and the
      closing remark, each through `clean_text`. */
  lemma ScriptSpoken(questions: seq<string>, outcomes: seq<CaptureOutcome>, gen: FeedbackRequest -> string)
    requires 0 < |questions| == |outcomes|
    ensures Spoken(Script(questions, outcomes, gen))
         == [CleanText(Welcome), CleanText(questions[0])]
          + SpokenFeedback(questions, outcomes, gen, |questions|)
          + [CleanText(Closing)]
  {
    var steps := Steps(questions, outcomes, gen, |questions|);
    var finale := [Save(Transcript(questions, outcomes, Feedbacks(questions, outcomes, gen))), Say(Closing)];
    StepsSpoken(questions, outcomes, gen, |questions|);
    SpeakTwice(CleanText(Welcome), CleanText(questions[0]));
    SaveThenSpeak(Transcript(questions, outcomes, Feedbacks(questions, outcomes, gen)), CleanText(Closing));
    SpokenFramed(Opening(questions), steps, finale);
  }

  /** A run over the program's own question list: the list meets the run's
      precondition, and the run has 22 events, capturing
      six answers and never waiting for Enter. */
  lemma OwnQuestionsRun(outcomes: seq<CaptureOutcome>, gen: FeedbackRequest -> string)
    requires |outcomes| == |Questions|
    ensures |Questions| == 6
    ensures |Script(Questions, outcomes, gen)| == 22
    ensures Count(Script(Questions, outcomes, gen), Listen) == 6
    ensures Count(Script(Questions, outcomes, gen), Pause) == 0
  {
    ScriptEnds(Questions, outcomes, gen);
    ScriptCounts(Questions, outcomes, gen);
  }
}
