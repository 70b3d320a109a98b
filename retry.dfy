/** The model-call policy of utils/summarizer.py: the per-chunk retry ladder
    (`summarize_file_chunk_async`), the single-shot project batch call
    (`summarize_project_batch_async`) and the fallback provider wrapper
    (`summarize_with_openai_async`).

    The providers themselves are inputs: the primary model's answers are a
    scripted sequence of outcomes, one per attempt, and the fallback client is
    either absent or gives one reply. Sleeping is not performed; the ladder
    records the waits it would sleep for. */
module Retry {
  import opened Text

  /** What one call to the primary model does. */
  datatype Outcome =
    | Ok(text: string)            // `response.text`
    | RateLimited                 // `ResourceExhausted` is raised
    | OtherError(message: string) // any other exception

  /** What the fallback chat-completion call does when a client exists. */
  datatype Reply = Answer(content: string) | Raised(message: string)

  /** `aclient`: no API key means no client. */
  datatype FallbackClient = NoClient | Client(reply: Reply)

  /** Defaults of `summarize_file_chunk_async`. */
  const MaxRetries := 3
  const InitialDelay := 5

  const FallbackErrorPrefix := "[OpenAI Fallback Error] "
  const BatchErrorPrefix := "Error summarizing project batch: "

  /** `summarize_with_openai_async`: never raises; problems become text. */
  function FallbackText(f: FallbackClient): string {
    match f
    case NoClient => FallbackErrorPrefix + "OpenAI API key not configured."
    case Client(Answer(content)) => Strip(content)
    case Client(Raised(message)) => FallbackErrorPrefix + message
  }

  /** The fallback's text is the provider's stripped answer or an error marker. */
  lemma FallbackNeverFails(f: FallbackClient)
    ensures (f.Client? && f.reply.Answer? && FallbackText(f) == Strip(f.reply.content))
         || (!(f.Client? && f.reply.Answer?) && StartsWith(FallbackText(f), FallbackErrorPrefix))
  {
  }

  /** A failed primary attempt of either kind. */
  predicate Failed(o: Outcome) {
    !o.Ok?
  }

  /** How long the ladder sleeps after a non-final failure on attempt
      `attempt` while `delay` holds `delay`. */
  function Wait(o: Outcome, attempt: nat, delay: int): int {
    if o.RateLimited? then delay + attempt * 2 else delay
  }

  function Pow2(n: nat): (r: nat)
    ensures r >= 1
  {
    if n == 0 then 1 else 2 * Pow2(n - 1)
  }

  /** The observable effect of one ladder run: the text it returns, how many
      times it called the primary model, whether it called the fallback, and
      the waits it slept, in order. */
  datatype ChunkRun = ChunkRun(text: string, primaryCalls: nat, usedFallback: bool, waits: seq<int>)

  /** The ladder from attempt `attempt` on, with `delay` the current value of
      the `delay` variable; `waits` lists only the waits from `attempt` on. */
  function Ladder(outcomes: seq<Outcome>, maxRetries: int, fallback: FallbackClient, attempt: nat, delay: int): ChunkRun
    requires maxRetries <= |outcomes|
    decreases maxRetries - attempt
  {
    if maxRetries <= attempt then
      ChunkRun(FallbackText(fallback), attempt, true, [])
    else if outcomes[attempt].Ok? then
      ChunkRun(Strip(outcomes[attempt].text), attempt + 1, false, [])
    else if attempt + 1 == maxRetries then
      ChunkRun(FallbackText(fallback), attempt + 1, true, [])
    else
      var rest := Ladder(outcomes, maxRetries, fallback, attempt + 1, delay * 2);
      rest.(waits := [Wait(outcomes[attempt], attempt, delay)] + rest.waits)
  }

  /** `summarize_file_chunk_async(prompt, model, maxRetries, initialDelay)`:
      the loop over `range(maxRetries)`, returning on the first answer, and
      falling back once the last attempt has failed (or at once when
      `maxRetries <= 0`). */
  method SummarizeChunk(outcomes: seq<Outcome>, maxRetries: int, initialDelay: int, fallback: FallbackClient)
    returns (run: ChunkRun)
    requires maxRetries <= |outcomes|
    ensures run == Ladder(outcomes, maxRetries, fallback, 0, initialDelay)
  {
    var delay := initialDelay;
    var waits: seq<int> := [];
    var attempt: nat := 0;
    while attempt < maxRetries
      invariant attempt == 0 || attempt < maxRetries
      invariant Ladder(outcomes, maxRetries, fallback, 0, initialDelay)
             == Resumed(outcomes, maxRetries, fallback, attempt, delay, waits)
      decreases maxRetries - attempt
    {
      var outcome := outcomes[attempt];
      if outcome.Ok? {
        LadderStops(outcomes, maxRetries, fallback, attempt, delay, waits);
        return ChunkRun(Strip(outcome.text), attempt + 1, false, waits);
      } else if attempt + 1 == maxRetries {
        LadderStops(outcomes, maxRetries, fallback, attempt, delay, waits);
        return ChunkRun(FallbackText(fallback), attempt + 1, true, waits);
      }
      var wait := if outcome.RateLimited? then delay + attempt * 2 else delay;
      LadderAdvances(outcomes, maxRetries, fallback, attempt, delay, waits);
      waits := waits + [wait];
      delay := delay * 2;
      attempt := attempt + 1;
    }
    run := ChunkRun(FallbackText(fallback), attempt, true, waits);
  }

  /** The ladder that has already slept `waits`, from attempt `a` on. */
  function Resumed(outcomes: seq<Outcome>, maxRetries: int, fallback: FallbackClient, a: nat, delay: int, waits: seq<int>): ChunkRun
    requires maxRetries <= |outcomes|
  {
    var rest := Ladder(outcomes, maxRetries, fallback, a, delay);
    rest.(waits := waits + rest.waits)
  }

  /** An answer, or a failure on the last attempt, ends the ladder. */
  lemma LadderStops(outcomes: seq<Outcome>, maxRetries: int, fallback: FallbackClient, a: nat, delay: int, waits: seq<int>)
    requires maxRetries <= |outcomes| && a < maxRetries
    requires outcomes[a].Ok? || a + 1 == maxRetries
    ensures Resumed(outcomes, maxRetries, fallback, a, delay, waits) ==
      if outcomes[a].Ok? then ChunkRun(Strip(outcomes[a].text), a + 1, false, waits)
      else ChunkRun(FallbackText(fallback), a + 1, true, waits)
  {
    assert waits + [] == waits;
  }

  /** A failure before the last attempt sleeps once and doubles the delay. */
  lemma LadderAdvances(outcomes: seq<Outcome>, maxRetries: int, fallback: FallbackClient, a: nat, delay: int, waits: seq<int>)
    requires maxRetries <= |outcomes| && a + 1 < maxRetries && !outcomes[a].Ok?
    ensures Resumed(outcomes, maxRetries, fallback, a, delay, waits)
      == Resumed(outcomes, maxRetries, fallback, a + 1, delay * 2, waits + [Wait(outcomes[a], a, delay)])
  {
    var next := Ladder(outcomes, maxRetries, fallback, a + 1, delay * 2);
    var w := Wait(outcomes[a], a, delay);
    assert Ladder(outcomes, maxRetries, fallback, a, delay) == next.(waits := [w] + next.waits);
    assert waits + ([w] + next.waits) == (waits + [w]) + next.waits;
  }

  /** One failed, non-final attempt: the run from `a` is the run from `a + 1`
      with the delay doubled, after one more wait. */
  lemma LadderStep(outcomes: seq<Outcome>, maxRetries: int, fallback: FallbackClient, a: nat, delay: int)
    requires maxRetries <= |outcomes|
    requires a + 1 < maxRetries && !outcomes[a].Ok?
    ensures var run := Ladder(outcomes, maxRetries, fallback, a, delay);
      var rest := Ladder(outcomes, maxRetries, fallback, a + 1, delay * 2);
      && run.text == rest.text && run.primaryCalls == rest.primaryCalls
      && run.usedFallback == rest.usedFallback
      && run.waits == [Wait(outcomes[a], a, delay)] + rest.waits
  {
  }

  /** From attempt `a` on, the ladder calls the fallback exactly when every
      remaining attempt fails, and then returns the fallback's text after
      exactly `maxRetries` primary calls in all (none when `maxRetries <= 0`). */
  lemma {:induction false} LadderFallback(outcomes: seq<Outcome>, maxRetries: int, fallback: FallbackClient, a: nat, delay: int)
    requires maxRetries <= |outcomes|
    requires a == 0 || a < maxRetries
    ensures var run := Ladder(outcomes, maxRetries, fallback, a, delay);
      && (run.usedFallback <==> forall j :: a <= j < maxRetries ==> Failed(outcomes[j]))
      && (run.usedFallback ==> run.text == FallbackText(fallback))
      && (run.usedFallback ==> run.primaryCalls == if maxRetries <= 0 then 0 else maxRetries)
    decreases maxRetries - a
  {
    if maxRetries <= a {
    } else if outcomes[a].Ok? {
      assert !Failed(outcomes[a]);
    } else if a + 1 == maxRetries {
    } else {
      LadderStep(outcomes, maxRetries, fallback, a, delay);
      LadderFallback(outcomes, maxRetries, fallback, a + 1, delay * 2);
      assert Failed(outcomes[a]);
    }
  }

  /** A run that did not fall back ended on the first answer from attempt
      `a` on, and returned that answer stripped. */
  predicate AnsweredFrom(run: ChunkRun, outcomes: seq<Outcome>, maxRetries: int, a: nat) {
    !run.usedFallback ==>
      && a + 1 <= run.primaryCalls <= maxRetries && run.primaryCalls <= |outcomes|
      && outcomes[run.primaryCalls - 1].Ok?
      && run.text == Strip(outcomes[run.primaryCalls - 1].text)
      && forall j :: a <= j < run.primaryCalls - 1 ==> Failed(outcomes[j])
  }

  /** From attempt `a` on, when the ladder does not fall back, its last call
      is the first one that answered, and that answer, stripped, is the
      result. */
  lemma {:induction false} LadderAnswer(outcomes: seq<Outcome>, maxRetries: int, fallback: FallbackClient, a: nat, delay: int)
    requires maxRetries <= |outcomes|
    requires a == 0 || a < maxRetries
    ensures AnsweredFrom(Ladder(outcomes, maxRetries, fallback, a, delay), outcomes, maxRetries, a)
    decreases maxRetries - a
  {
    if maxRetries <= a || outcomes[a].Ok? || a + 1 == maxRetries {
    } else {
      LadderAnswer(outcomes, maxRetries, fallback, a + 1, delay * 2);
      AnswerStep(outcomes, maxRetries, fallback, a, delay);
    }
  }

  lemma AnswerStep(outcomes: seq<Outcome>, maxRetries: int, fallback: FallbackClient, a: nat, delay: int)
    requires maxRetries <= |outcomes|
    requires a + 1 < maxRetries && !outcomes[a].Ok?
    requires AnsweredFrom(Ladder(outcomes, maxRetries, fallback, a + 1, delay * 2), outcomes, maxRetries, a + 1)
    ensures AnsweredFrom(Ladder(outcomes, maxRetries, fallback, a, delay), outcomes, maxRetries, a)
  {
    LadderStep(outcomes, maxRetries, fallback, a, delay);
    assert Failed(outcomes[a]);
  }

  /** When the ladder sleeps, from attempt `a` on: once after every failed
      attempt but the last, the `j`-th time for `Wait` with the delay doubled
      `j` times. */
  lemma {:induction false} LadderWaits(outcomes: seq<Outcome>, maxRetries: int, fallback: FallbackClient, a: nat, delay: int)
    requires maxRetries <= |outcomes|
    requires a == 0 || a < maxRetries
    ensures WaitedFrom(Ladder(outcomes, maxRetries, fallback, a, delay), outcomes, a, delay)
    decreases maxRetries - a
  {
    var run := Ladder(outcomes, maxRetries, fallback, a, delay);
    if maxRetries <= a || outcomes[a].Ok? || a + 1 == maxRetries {
    } else {
      LadderStep(outcomes, maxRetries, fallback, a, delay);
      LadderWaits(outcomes, maxRetries, fallback, a + 1, delay * 2);
      var rest := Ladder(outcomes, maxRetries, fallback, a + 1, delay * 2);
      assert run.waits[0] == Wait(outcomes[a], a, delay * Pow2(0));
      forall j | 1 <= j < |run.waits|
        ensures run.waits[j] == Wait(outcomes[a + j], a + j, delay * Pow2(j))
      {
        assert run.waits[j] == rest.waits[j - 1];
        DoubledDelay(delay, j);
      }
    }
  }

  /** The sleeps of a ladder entered at attempt `a` with `delay`: one after
      each failed primary call but the last, the `j`-th computed from outcome
      `a + j` with the delay doubled `j` times. */
  predicate WaitedFrom(run: ChunkRun, outcomes: seq<Outcome>, a: nat, delay: int) {
    && |run.waits| == (if run.primaryCalls == 0 then 0 else run.primaryCalls - 1 - a)
    && a + |run.waits| <= |outcomes|
    && forall j :: 0 <= j < |run.waits| ==>
         run.waits[j] == Wait(outcomes[a + j], a + j, delay * Pow2(j))
  }

  lemma DoubledDelay(delay: int, j: nat)
    requires 1 <= j
    ensures delay * 2 * Pow2(j - 1) == delay * Pow2(j)
  {
    assert Pow2(j) == 2 * Pow2(j - 1);
  }

  /** Success path: when attempt `k < maxRetries` is the first to answer, the
      result is that answer stripped, the primary was called `k + 1` times,
      the fallback was not called, and the ladder slept `k` times. */
  lemma SuccessPath(outcomes: seq<Outcome>, maxRetries: int, fallback: FallbackClient, initialDelay: int, k: nat)
    requires maxRetries <= |outcomes|
    requires k < maxRetries && outcomes[k].Ok?
    requires forall j :: 0 <= j < k ==> Failed(outcomes[j])
    ensures var run := Ladder(outcomes, maxRetries, fallback, 0, initialDelay);
      && run.text == Strip(outcomes[k].text)
      && run.primaryCalls == k + 1
      && !run.usedFallback
      && |run.waits| == k
  {
    LadderFallback(outcomes, maxRetries, fallback, 0, initialDelay);
    LadderAnswer(outcomes, maxRetries, fallback, 0, initialDelay);
    LadderWaits(outcomes, maxRetries, fallback, 0, initialDelay);
    var run := Ladder(outcomes, maxRetries, fallback, 0, initialDelay);
    assert !Failed(outcomes[k]);
    assert !run.usedFallback;
    assert !Failed(outcomes[run.primaryCalls - 1]);
  }

  /** Exhaustion path: when every one of the `maxRetries` attempts fails, with
      any mix of rate limits and other errors, the fallback is called once and
      its text is the result; with `maxRetries <= 0` the primary is never
      called. */
  lemma ExhaustionPath(outcomes: seq<Outcome>, maxRetries: int, fallback: FallbackClient, initialDelay: int)
    requires maxRetries <= |outcomes|
    requires forall j :: 0 <= j < maxRetries ==> Failed(outcomes[j])
    ensures var run := Ladder(outcomes, maxRetries, fallback, 0, initialDelay);
      && run.usedFallback
      && run.text == FallbackText(fallback)
      && run.primaryCalls == (if maxRetries <= 0 then 0 else maxRetries)
      && |run.waits| == (if maxRetries <= 0 then 0 else maxRetries - 1)
  {
    LadderFallback(outcomes, maxRetries, fallback, 0, initialDelay);
    LadderWaits(outcomes, maxRetries, fallback, 0, initialDelay);
  }

  /** Backoff: the `j`-th wait is `initialDelay * 2^j`, plus `2 * j` when the
      `j`-th attempt was rate limited; there is no wait after the last attempt. */
  lemma Backoff(outcomes: seq<Outcome>, maxRetries: int, fallback: FallbackClient, initialDelay: int)
    requires maxRetries <= |outcomes|
    ensures var run := Ladder(outcomes, maxRetries, fallback, 0, initialDelay);
      && |run.waits| == (if run.primaryCalls == 0 then 0 else run.primaryCalls - 1)
      && |run.waits| <= |outcomes|
      && forall j :: 0 <= j < |run.waits| ==>
           run.waits[j] == (if outcomes[j].RateLimited? then initialDelay * Pow2(j) + 2 * j
                            else initialDelay * Pow2(j))
  {
    LadderWaits(outcomes, maxRetries, fallback, 0, initialDelay);
  }

  /** With the defaults, three rate limits sleep 5 and then 12 seconds before
      the fallback answers. */
  lemma DefaultRateLimitedWaits(fallback: FallbackClient)
    ensures var run := Ladder([RateLimited, RateLimited, RateLimited], MaxRetries, fallback, 0, InitialDelay);
      run.waits == [5, 12] && run.usedFallback && run.primaryCalls == 3
  {
  }

  /** `summarize_project_batch_async`: exactly one primary call; a rate limit
      goes straight to the fallback, any other error becomes text. */
  function BatchReply(o: Outcome, fallback: FallbackClient): string {
    match o
    case Ok(text) => Strip(text)
    case RateLimited => FallbackText(fallback)
    case OtherError(message) => BatchErrorPrefix + message
  }

  /** A project batch call behaves like a one-attempt ladder, except that an
      error other than a rate limit does not reach the fallback. */
  lemma BatchIsOneAttemptLadder(o: Outcome, fallback: FallbackClient, delay: int)
    ensures var run := Ladder([o], 1, fallback, 0, delay);
      && run.primaryCalls == 1 && run.waits == []
      && (o.OtherError? ==> BatchReply(o, fallback) == BatchErrorPrefix + o.message && run.usedFallback)
      && (!o.OtherError? ==> BatchReply(o, fallback) == run.text)
  {
  }
}
