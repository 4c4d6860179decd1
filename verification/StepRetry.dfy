/** executor.py's _execute_step_with_retry: primary tries under the retry policy, then the fallback tools. */
module StepRetry {
  import opened Options
  import opened PlanTypes
  import opened PlanModel
  import opened RetryPolicies

  /** What a try reports: an error, which may carry a classified type; a piece of text; or anything else. */
  datatype StepEvent = ToolError(content: string, errorType: Option<ErrorType>) | Chunk(text: string) | Note

  /** What one try comes to: its text, its last error if any, and the last error type it classified. */
  datatype Report = Report(text: string, error: Option<string>, errorType: Option<ErrorType>) {
    predicate HadError() { error.Some? }
  }

  /** The report of the k-th try of a step, primary and fallback tries counted together. */
  type Tries = nat -> Report

  datatype RetryConfig = RetryConfig(strategy: string, fallbacks: seq<string>, maxRetries: nat)

  function FallbackTools(chain: seq<string>, tool: Option<string>): seq<string> {
    if chain != [] then chain
    else if tool.Some? && tool.value != "" then [tool.value] else []
  }

  function ConfigOf(step: PlanStep, maxRetries: nat): RetryConfig {
    RetryConfig(step.retryStrategy, FallbackTools(step.fallbackChain, step.fallbackTool), maxRetries)
  }

  /** tries gives the report of every event stream; unfolded only where a stream is at hand. */
  ghost predicate Reported(events: nat -> seq<StepEvent>, tries: Tries) {
    forall k: nat {:trigger events(k)} :: tries(k) == ReportOf(events(k))
  }

  function MaxAttempts(cfg: RetryConfig): nat {
    if cfg.strategy in {"ask_user", "skip"} then 1 else cfg.maxRetries + 1
  }

  // ---------- What a run of tries means ----------

  predicate Classified(kind: Option<ErrorType>) {
    kind.Some? && kind.value != Unlisted("")
  }

  /** An unclassified error, or one classified as the empty string, keeps the type seen before. */
  function ReportOf(evs: seq<StepEvent>): Report {
    if evs == [] then Report("", None, None) else
    var r := ReportOf(evs[..|evs| - 1]);
    match evs[|evs| - 1]
    case Chunk(t) => r.(text := r.text + t)
    case ToolError(content, kind) =>
      r.(error := Some(content), errorType := if Classified(kind) then kind else r.errorType)
    case Note => r
  }

  /** A try reports an error exactly when one of its events is one. */
  lemma {:induction false} ReportsErrors(evs: seq<StepEvent>)
    ensures ReportOf(evs).HadError() <==> exists i :: 0 <= i < |evs| && evs[i].ToolError?
  {
    if evs != [] {
      var init := evs[..|evs| - 1];
      ReportsErrors(init);
      assert forall i :: 0 <= i < |init| ==> evs[i] == init[i];
    }
  }

  /** The report of a stream, from those of its parts: texts are joined, the later error and the later classified type
      count. */
  lemma {:induction false} ReportOfJoin(a: seq<StepEvent>, b: seq<StepEvent>)
    ensures var p, q, r := ReportOf(a), ReportOf(b), ReportOf(a + b);
            && r.text == p.text + q.text
            && r.error == (if q.error.Some? then q.error else p.error)
            && r.errorType == (if q.errorType.Some? then q.errorType else p.errorType)
  {
    if b == [] {
      assert a + b == a;
    } else {
      ReportOfJoin(a, b[..|b| - 1]);
      assert (a + b)[..|a + b| - 1] == a + b[..|b| - 1];
    }
  }

  /** The report of a single event: an error counts with its message, and with its type if that is not empty. */
  lemma ReportOfOne(e: StepEvent)
    ensures e.Chunk? ==> ReportOf([e]) == Report(e.text, None, None)
    ensures e.Note? ==> ReportOf([e]) == Report("", None, None)
    ensures e.ToolError? ==> ReportOf([e]).text == "" && ReportOf([e]).error == Some(e.content)
    ensures forall t :: e.ToolError? ==>
              (ReportOf([e]).errorType == Some(t) <==> e.errorType == Some(t) && t != Unlisted(""))
  {
    assert [e][..0] == [];
    assert "" + (if e.Chunk? then e.text else "") == if e.Chunk? then e.text else "";
  }

  function OrElse<T>(o: Option<T>, default: T): T {
    if o.Some? then o.value else default
  }

  function TypeAfter(tries: Tries, k: nat): ErrorType {
    if k == 0 then Unknown else OrElse(tries(k - 1).errorType, TypeAfter(tries, k - 1))
  }

  function ErrorAfter(tries: Tries, k: nat): string {
    if k == 0 then "" else OrElse(tries(k - 1).error, ErrorAfter(tries, k - 1))
  }

  function Concat(tries: Tries, a: nat, b: nat): string
    requires a <= b
  {
    if a == b then "" else Concat(tries, a, b - 1) + tries(b - 1).text
  }

  /** Try k reported an error, and the policy of the latest classified type allows a retry. */
  predicate RetryableError(tries: Tries, k: nat) {
    tries(k).HadError() && GetPolicy(TypeAfter(tries, k + 1)).retryable
  }

  /** Primary try k is followed by another one. */
  predicate TriesAgain(cfg: RetryConfig, tries: Tries, k: nat) {
    k + 1 < MaxAttempts(cfg) && RetryableError(tries, k)
  }

  function PrimaryTries(cfg: RetryConfig, tries: Tries, k: nat): (n: nat)
    requires k < MaxAttempts(cfg)
    ensures k < n <= MaxAttempts(cfg)
    decreases MaxAttempts(cfg) - k
  {
    if TriesAgain(cfg, tries, k) then PrimaryTries(cfg, tries, k + 1) else k + 1
  }

  /** The j-th fallback after n primary tries is taken: no error, and some text since the last primary try. */
  predicate FallbackAccepted(tries: Tries, n: nat, j: nat)
    requires n > 0
  {
    !tries(n + j).HadError() && Concat(tries, n - 1, n + j + 1) != ""
  }

  function FallbackTries(cfg: RetryConfig, tries: Tries, n: nat, j: nat): (m: nat)
    requires n > 0 && j <= |cfg.fallbacks|
    ensures j <= m <= |cfg.fallbacks|
    decreases |cfg.fallbacks| - j
  {
    if j == |cfg.fallbacks| then j
    else if FallbackAccepted(tries, n, j) then j + 1
    else FallbackTries(cfg, tries, n, j + 1)
  }

  datatype Verdict = Verdict(failed: bool, primaries: nat, fallbacks: nat)

  function TotalTries(v: Verdict): nat {
    v.primaries + v.fallbacks
  }

  function Judge(cfg: RetryConfig, tries: Tries): (v: Verdict)
    ensures v.primaries > 0
  {
    var n := PrimaryTries(cfg, tries, 0);
    if !tries(n - 1).HadError() then Verdict(false, n, 0)
    else if cfg.strategy == "skip" then Verdict(true, n, 0)
    else
      var m := FallbackTries(cfg, tries, n, 0);
      Verdict(m == 0 || !FallbackAccepted(tries, n, m - 1), n, m)
  }

  function FailureNotice(lastError: string): string {
    if lastError == "" then ""
    else "[该步骤因 API 连接问题未能完成，已跳过。问题: " + lastError[..if |lastError| < 100 then |lastError| else 100] + "]"
  }

  /** Everything the step shows its caller: the text of all its tries, and a notice when it gave up. */
  function EmittedText(cfg: RetryConfig, tries: Tries): string {
    var v := Judge(cfg, tries);
    Concat(tries, 0, TotalTries(v)) + if v.failed then FailureNotice(ErrorAfter(tries, TotalTries(v))) else ""
  }

  function OutcomeOf(cfg: RetryConfig, tries: Tries): Outcome {
    Outcome(Judge(cfg, tries).failed, EmittedText(cfg, tries))
  }

  // ---------- Properties of the verdict ----------

  lemma {:induction false} PrimaryChain(cfg: RetryConfig, tries: Tries, k: nat)
    requires k < MaxAttempts(cfg)
    ensures var n := PrimaryTries(cfg, tries, k);
            && (forall i :: k <= i < n - 1 ==> TriesAgain(cfg, tries, i))
            && !TriesAgain(cfg, tries, n - 1)
    decreases MaxAttempts(cfg) - k
  {
    if TriesAgain(cfg, tries, k) {
      PrimaryChain(cfg, tries, k + 1);
    }
  }

  lemma {:induction false} FallbackChain(cfg: RetryConfig, tries: Tries, n: nat, j: nat)
    requires n > 0 && j <= |cfg.fallbacks|
    ensures var m := FallbackTries(cfg, tries, n, j);
            && (forall i :: j <= i < m - 1 ==> !FallbackAccepted(tries, n, i))
            && (m < |cfg.fallbacks| ==> m > j && FallbackAccepted(tries, n, m - 1))
    decreases |cfg.fallbacks| - j
  {
    if j < |cfg.fallbacks| && !FallbackAccepted(tries, n, j) {
      FallbackChain(cfg, tries, n, j + 1);
    }
  }

  /** Try k of the verdict met its acceptance test. */
  predicate Accepted(cfg: RetryConfig, tries: Tries, v: Verdict, k: nat)
    requires v.primaries > 0
  {
    if k < v.primaries then !tries(k).HadError() else FallbackAccepted(tries, v.primaries, k - v.primaries)
  }

  /** The number of tries is bounded, only the last one can be accepted, and the step fails exactly when none is. */
  lemma RetryAccounting(cfg: RetryConfig, tries: Tries)
    ensures var v := Judge(cfg, tries);
            var total := v.primaries + v.fallbacks;
            && 1 <= v.primaries <= MaxAttempts(cfg)
            && v.fallbacks <= |cfg.fallbacks|
            && (cfg.strategy == "skip" ==> v.fallbacks == 0)
            && (forall k :: 0 <= k < total - 1 ==> !Accepted(cfg, tries, v, k))
            && (v.failed <==> !Accepted(cfg, tries, v, total - 1))
            && (v.failed && cfg.strategy != "skip" ==> v.fallbacks == |cfg.fallbacks|)
  {
    hide PrimaryTries, FallbackTries, FallbackAccepted, TypeAfter, MaxAttempts;
    var v := Judge(cfg, tries);
    PrimaryChain(cfg, tries, 0);
    FallbackChain(cfg, tries, v.primaries, 0);
    forall k | 0 <= k < v.primaries + v.fallbacks - 1 ensures !Accepted(cfg, tries, v, k) {
      if k < v.primaries - 1 {
        assert TriesAgain(cfg, tries, k);
      } else if k >= v.primaries {
        assert !FallbackAccepted(tries, v.primaries, k - v.primaries);
      }
    }
  }

  /** Every primary try but the last met an error whose latest classified type may be retried; a step that stops
      before its attempts are used up met none at its last primary try. */
  lemma RetriesFollowRetryableErrors(cfg: RetryConfig, tries: Tries)
    ensures forall k :: 0 <= k < Judge(cfg, tries).primaries - 1 ==> RetryableError(tries, k)
    ensures Judge(cfg, tries).primaries < MaxAttempts(cfg) ==> !RetryableError(tries, Judge(cfg, tries).primaries - 1)
  {
    PrimaryChain(cfg, tries, 0);
    forall k | 0 <= k < Judge(cfg, tries).primaries - 1 ensures RetryableError(tries, k) {
      assert TriesAgain(cfg, tries, k);
    }
  }

  /** How many primary tries a step gets: one where its strategy is to ask the user or to skip; otherwise at most one
      more than the configured retries, and all of these exactly when every try before the last meets a retryable
      error. */
  lemma PrimaryTriesIff(cfg: RetryConfig, tries: Tries)
    ensures var n := Judge(cfg, tries).primaries;
            && (cfg.strategy == "ask_user" || cfg.strategy == "skip" ==> n == 1)
            && (cfg.strategy != "ask_user" && cfg.strategy != "skip" ==>
                  && n <= cfg.maxRetries + 1
                  && (n == cfg.maxRetries + 1 <==> forall k :: 0 <= k < cfg.maxRetries ==> RetryableError(tries, k)))
  {
    hide RetryableError;
    RetriesFollowRetryableErrors(cfg, tries);
  }

  /** The type that decides is the one classified last among the tries made, */
  lemma {:induction false} LatestType(tries: Tries, n: nat, i: nat)
    requires i < n && tries(i).errorType.Some? && forall j :: i < j < n ==> tries(j).errorType.None?
    ensures TypeAfter(tries, n) == tries(i).errorType.value
  {
    if i < n - 1 {
      LatestType(tries, n - 1, i);
    }
  }

  /** or "unknown" when none was. */
  lemma {:induction false} NoTypeIsUnknown(tries: Tries, n: nat)
    requires forall i :: 0 <= i < n ==> tries(i).errorType.None?
    ensures TypeAfter(tries, n) == Unknown
  {
    if n > 0 {
      NoTypeIsUnknown(tries, n - 1);
    }
  }

  /** A step whose errors carry no type is never retried. */
  lemma UnclassifiedIsFatal(cfg: RetryConfig, tries: Tries)
    requires forall k :: tries(k).errorType.None?
    ensures Judge(cfg, tries).primaries == 1
  {
    NoTypeIsUnknown(tries, 1);
  }

  /** Likewise the error a failed step keeps is the latest one. */
  lemma {:induction false} LatestError(tries: Tries, n: nat, i: nat)
    requires i < n && tries(i).HadError() && forall j :: i < j < n ==> !tries(j).HadError()
    ensures ErrorAfter(tries, n) == tries(i).error.value
  {
    if i < n - 1 {
      LatestError(tries, n - 1, i);
    }
  }

  /** The texts of consecutive tries are joined in their order. */
  lemma {:induction false} ConcatJoin(tries: Tries, a: nat, b: nat, c: nat)
    requires a <= b <= c
    ensures Concat(tries, a, c) == Concat(tries, a, b) + Concat(tries, b, c)
    ensures c == b + 1 ==> Concat(tries, b, c) == tries(b).text
  {
    if b < c {
      ConcatJoin(tries, a, b, c - 1);
    }
  }

  lemma {:induction false} SilentConcat(tries: Tries, a: nat, b: nat)
    requires a <= b
    ensures Concat(tries, a, b) == "" <==> forall k :: a <= k < b ==> tries(k).text == ""
  {
    if a < b {
      SilentConcat(tries, a, b - 1);
    }
  }

  /** Fallback try k, or all tries since the last primary one, did not do: an error, or not a word. */
  ghost predicate Useless(tries: Tries, primaries: nat, k: nat) {
    tries(k).HadError() || forall j: nat :: primaries - 1 <= j <= k ==> tries(j).text == ""
  }

  lemma UselessIff(tries: Tries, n: nat, j: nat)
    requires n > 0
    ensures Useless(tries, n, n + j) <==> !FallbackAccepted(tries, n, j)
  {
    SilentConcat(tries, n - 1, n + j + 1);
  }

  /** The verdict by the reports alone. A step succeeds by its last try: a primary one without error, or a fallback that
      reports no error with some text since the last primary try. It fails after a primary error, when every fallback it
      may use did not do. */
  lemma VerdictMeaning(cfg: RetryConfig, tries: Tries)
    ensures var v := Judge(cfg, tries); var total := v.primaries + v.fallbacks;
            && v.primaries >= 1 && total >= 1
            && (v.fallbacks > 0 || v.failed ==> tries(v.primaries - 1).HadError())
            && (v.fallbacks == 0 && !v.failed ==> !tries(total - 1).HadError())
            && (v.fallbacks > 0 ==> (v.failed <==> Useless(tries, v.primaries, total - 1)))
            && (forall k :: v.primaries <= k < total - 1 ==> Useless(tries, v.primaries, k))
            && (v.failed ==> v.fallbacks == if cfg.strategy == "skip" then 0 else |cfg.fallbacks|)
  {
    hide FallbackAccepted, Useless;
    var v := Judge(cfg, tries);
    RetryAccounting(cfg, tries);
    forall j: nat | j < v.fallbacks ensures Useless(tries, v.primaries, v.primaries + j) <==>
                                           !FallbackAccepted(tries, v.primaries, j)
    {
      UselessIff(tries, v.primaries, j);
    }
    forall k | v.primaries <= k < v.primaries + v.fallbacks - 1 ensures Useless(tries, v.primaries, k) {
      assert !Accepted(cfg, tries, v, k);
      UselessIff(tries, v.primaries, k - v.primaries);
    }
  }

  /** Which tools stand by: the chain, or, without one, the single fallback tool; after a failed last primary try the
      first of them is tried, unless the strategy is to skip. */
  lemma FirstFallback(chain: seq<string>, tool: Option<string>, strategy: string, maxRetries: nat, tries: Tries)
    ensures var cfg := RetryConfig(strategy, FallbackTools(chain, tool), maxRetries); var v := Judge(cfg, tries);
            && (chain != [] ==> cfg.fallbacks == chain)
            && (forall t :: chain == [] && tool == Some(t) && t != "" ==> cfg.fallbacks == [t])
            && (chain == [] && (tool == None || tool == Some("")) ==> v.fallbacks == 0)
            && (tries(v.primaries - 1).HadError() && strategy != "skip" && cfg.fallbacks != [] ==> v.fallbacks >= 1)
  {
    var cfg := RetryConfig(strategy, FallbackTools(chain, tool), maxRetries);
    FallbackChain(cfg, tries, Judge(cfg, tries).primaries, 0);
  }

  /** A notice ends with the error, shortened to 100 characters; without a message there is none. */
  ghost predicate Notices(notice: string, error: string) {
    if error == "" then
      notice == ""
    else
      var kept := if |error| <= 100 then error else error[..100];
      "[" <= notice && |notice| > |kept| && notice[|notice| - |kept| - 1..] == kept + "]"
  }

  lemma NoticeIs(error: string)
    ensures Notices(FailureNotice(error), error)
  {
    if error != "" {
      var kept := if |error| <= 100 then error else error[..100];
      var front := "[该步骤因 API 连接问题未能完成，已跳过。问题: ";
      assert FailureNotice(error) == front + (kept + "]");
    }
  }

  /** What a step emits is the texts of all its tries, and, when it failed, a notice of its last error. */
  lemma EmittedIs(cfg: RetryConfig, tries: Tries) returns (notice: string)
    ensures var v := Judge(cfg, tries); var total := v.primaries + v.fallbacks;
            && EmittedText(cfg, tries) == Concat(tries, 0, total) + notice
            && (!v.failed ==> notice == "")
            && (v.failed ==> Notices(notice, ErrorAfter(tries, total)))
  {
    hide Judge, Concat, ErrorAfter, FailureNotice, Notices;
    var v := Judge(cfg, tries);
    notice := if v.failed then FailureNotice(ErrorAfter(tries, TotalTries(v))) else "";
    NoticeIs(ErrorAfter(tries, TotalTries(v)));
  }

  /** The latest error among the first n tries has no message, or there is none. */
  ghost predicate LastErrorIsMute(tries: Tries, n: nat) {
    forall i :: 0 <= i < n && tries(i).HadError() && (forall j :: i < j < n ==> !tries(j).HadError()) ==>
      tries(i).error == Some("")
  }

  lemma {:induction false} MuteIff(tries: Tries, n: nat)
    ensures ErrorAfter(tries, n) == "" <==> LastErrorIsMute(tries, n)
  {
    if n > 0 {
      MuteIff(tries, n - 1);
      if tries(n - 1).error.None? {
        assert forall i {:trigger tries(i)} :: 0 <= i < n - 1 ==>
                 ((forall j :: i < j < n ==> !tries(j).HadError()) <==> (forall j :: i < j < n - 1 ==>
                     !tries(j).HadError()));
      }
    }
  }

  /** When a step leaves no text at all, which is what later prompts trip over: every try it made was silent, and, if it
      failed, its last error had no message. */
  lemma SilentIff(cfg: RetryConfig, tries: Tries)
    ensures var v := Judge(cfg, tries); var total := v.primaries + v.fallbacks;
            OutcomeOf(cfg, tries).text == "" <==>
              (forall k :: 0 <= k < total ==> tries(k).text == "") && (v.failed ==> LastErrorIsMute(tries, total))
  {
    hide Judge, LastErrorIsMute;
    var v := Judge(cfg, tries);
    SilentConcat(tries, 0, TotalTries(v));
    MuteIff(tries, TotalTries(v));
  }

  /** The retries made stay within the max_retries of the policy that allowed the last of them. */
  ghost predicate RespectsCap(cfg: RetryConfig, tries: Tries) {
    var retries := Judge(cfg, tries).primaries - 1;
    retries > 0 ==> retries <= GetPolicy(TypeAfter(tries, retries)).maxRetries
  }

  function AlwaysRateLimited(): Tries {
    (k: nat) => Report("", Some("429"), Some(RateLimited))
  }

  lemma {:induction false} RateLimitedTries(cfg: RetryConfig, k: nat)
    requires k < MaxAttempts(cfg)
    ensures PrimaryTries(cfg, AlwaysRateLimited(), k) == MaxAttempts(cfg)
    ensures TypeAfter(AlwaysRateLimited(), k + 1) == RateLimited
    decreases MaxAttempts(cfg) - k
  {
    if k + 1 < MaxAttempts(cfg) {
      RateLimitedTries(cfg, k + 1);
    }
  }

  lemma SmallestCap(errorType: ErrorType)
    requires GetPolicy(errorType).retryable
    ensures GetPolicy(errorType).maxRetries >= 2
  {
  }

  lemma FewRetriesRespectCap(cfg: RetryConfig, tries: Tries)
    requires MaxAttempts(cfg) <= 3
    ensures RespectsCap(cfg, tries)
  {
    PrimaryChain(cfg, tries, 0);
    var retries := Judge(cfg, tries).primaries - 1;
    if retries > 0 {
      assert TriesAgain(cfg, tries, retries - 1);
      SmallestCap(TypeAfter(tries, retries));
    }
  }

  /** The executor never reads a policy's max_retries: the caps hold for every behaviour of the tool exactly when
      the configured number of retries is at most the smallest of them. */
  lemma PolicyCapsHoldIffConfigured(cfg: RetryConfig)
    ensures (forall tries :: RespectsCap(cfg, tries)) <==> MaxAttempts(cfg) <= 3
  {
    if MaxAttempts(cfg) <= 3 {
      forall tries ensures RespectsCap(cfg, tries) {
        FewRetriesRespectCap(cfg, tries);
      }
    } else {
      RateLimitedTries(cfg, 0);
      RateLimitedTries(cfg, MaxAttempts(cfg) - 2);
      assert !RespectsCap(cfg, AlwaysRateLimited());
    }
  }

  // ---------- The loop itself ----------

  /** Listens to one try, event by event. */
  method Observe(evs: seq<StepEvent>) returns (r: Report)
    ensures r == ReportOf(evs)
  {
    var text, error, errorType := "", None, None;
    for i := 0 to |evs|
      invariant Report(text, error, errorType) == ReportOf(evs[..i])
    {
      assert evs[..i + 1][..i] == evs[..i] && evs[..i + 1][i] == evs[i];
      match evs[i] {
        case ToolError(content, kind) =>
          error := Some(content);
          if Classified(kind) {
            errorType := kind;
          }
        case Chunk(t) =>
          text := text + t;
        case Note =>
      }
    }
    assert evs[..|evs|] == evs;
    r := Report(text, error, errorType);
  }

  /** The k-th try of the step, as its event stream unfolds. */
  method TryStep(events: nat -> seq<StepEvent>, k: nat, ghost tries: Tries) returns (r: Report)
    requires Reported(events, tries)
    ensures r == tries(k)
  {
    r := Observe(events(k));
  }

  lemma NoTries(tries: Tries)
    ensures Concat(tries, 0, 0) == "" && ErrorAfter(tries, 0) == "" && TypeAfter(tries, 0) == Unknown
  {
  }

  // ---------- Waiting ----------

  /** The wait before primary try k. */
  function DelayBefore(lastType: ErrorType, jitters: nat -> Jitter, k: nat): (delay: real)
    ensures 0.0 <= delay <= 30.0
  {
    if k == 0 then 0.0 else ComputeBackoff(GetPolicy(lastType), k - 1, jitters(k - 1))
  }

  /** All the waits of the first n primary tries, each by the policy of the type classified last before it. */
  function Waited(tries: Tries, jitters: nat -> Jitter, n: nat): real {
    if n == 0 then 0.0 else Waited(tries, jitters, n - 1) + DelayBefore(TypeAfter(tries, n - 1), jitters, n - 1)
  }

  /** The wait before retry k is the backoff, k - 1 attempts in, of the policy for the type the first k tries classified
      last; before the first try there is none. */
  lemma WaitsAre(tries: Tries, jitters: nat -> Jitter, k: nat)
    ensures Waited(tries, jitters, 1) == 0.0
    ensures k >= 1 ==>
              Waited(tries, jitters, k + 1) - Waited(tries, jitters, k)
              == ComputeBackoff(GetPolicy(TypeAfter(tries, k)), k - 1, jitters(k - 1))
  {
    assert Waited(tries, jitters, 0) == 0.0;
  }

  lemma {:induction false} WaitedBound(tries: Tries, jitters: nat -> Jitter, n: nat)
    requires n > 0
    ensures 0.0 <= Waited(tries, jitters, n) <= (n - 1) as real * 30.0
  {
    if n > 1 {
      WaitedBound(tries, jitters, n - 1);
    }
  }

  /** One pass of the attempt loop: the wait before a retry, and the try itself. */
  method PrimaryTry(step: PlanStep, events: nat -> seq<StepEvent>, jitters: nat -> Jitter, k: nat, lastType: ErrorType,
                    ghost tries: Tries)
    returns (report: Report, ghost delay: real)
    requires Reported(events, tries)
    modifies step`retryCount
    ensures report == tries(k)
    ensures step.retryCount == if k == 0 then old(step.retryCount) else k
    ensures delay == DelayBefore(lastType, jitters, k)
  {
    delay := 0.0;
    if k > 0 {
      step.retryCount := k;
      delay := ComputeBackoff(GetPolicy(lastType), k - 1, jitters(k - 1));
    }
    report := TryStep(events, k, tries);
  }

  lemma PrimaryStep(cfg: RetryConfig, tries: Tries, k: nat)
    requires k < MaxAttempts(cfg)
    ensures PrimaryTries(cfg, tries, k)
         == if !tries(k).HadError() || !GetPolicy(TypeAfter(tries, k + 1)).retryable || k + 1 == MaxAttempts(cfg)
            then k + 1 else PrimaryTries(cfg, tries, k + 1)
    ensures TypeAfter(tries, k + 1) == OrElse(tries(k).errorType, TypeAfter(tries, k))
  {
  }

  /** Primary tries until one reports no error, its error may not be retried, or the attempts are used up. */
  method PrimaryPhase(step: PlanStep, cfg: RetryConfig, events: nat -> seq<StepEvent>, jitters: nat -> Jitter,
                      ghost tries: Tries)
    returns (hadError: bool, made: nat, lastError: string, resultText: string, shown: string, ghost slept: real)
    requires Reported(events, tries)
    modifies step`retryCount
    ensures made == PrimaryTries(cfg, tries, 0)
    ensures hadError == tries(made - 1).HadError() && resultText == tries(made - 1).text
    ensures lastError == ErrorAfter(tries, made) && shown == Concat(tries, 0, made)
    ensures step.retryCount == if made == 1 then old(step.retryCount) else made - 1
    ensures slept == Waited(tries, jitters, made) && 0.0 <= slept <= (made - 1) as real * 30.0
  {
    hide DelayBefore, Concat, ErrorAfter, TypeAfter, PrimaryTries, GetPolicy;
    NoTries(tries);
    var lastType := Unknown;
    lastError, shown, slept, made := "", "", 0.0, 0;
    while true
      invariant made < MaxAttempts(cfg) && PrimaryTries(cfg, tries, made) == PrimaryTries(cfg, tries, 0)
      invariant lastError == ErrorAfter(tries, made) && lastType == TypeAfter(tries, made)
      invariant shown == Concat(tries, 0, made)
      invariant step.retryCount == if made <= 1 then old(step.retryCount) else made - 1
      invariant slept == Waited(tries, jitters, made)
      decreases MaxAttempts(cfg) - made
    {
      ghost var delay;
      var report;
      report, delay := PrimaryTry(step, events, jitters, made, lastType, tries);
      OneMoreTry(tries, 0, made);
      PrimaryStep(cfg, tries, made);
      hadError, resultText := report.HadError(), report.text;
      lastError, lastType := OrElse(report.error, lastError), OrElse(report.errorType, lastType);
      shown, made, slept := shown + resultText, made + 1, slept + delay;
      if !hadError || !GetPolicy(lastType).retryable || made == MaxAttempts(cfg) {
        WaitedBound(tries, jitters, made);
        return;
      }
    }
  }

  lemma OneMoreTry(tries: Tries, a: nat, k: nat)
    requires a <= k
    ensures Concat(tries, a, k + 1) == Concat(tries, a, k) + tries(k).text
    ensures ErrorAfter(tries, k + 1) == OrElse(tries(k).error, ErrorAfter(tries, k))
  {
  }

  /** One try under a fallback tool's hint; the step's own hint is put back afterwards. */
  method FallbackOnce(step: PlanStep, tool: string, events: nat -> seq<StepEvent>, k: nat, ghost tries: Tries)
    returns (r: Report, ghost hint: Option<string>)
    requires Reported(events, tries)
    modifies step`toolHint, step`retryCount
    ensures r == tries(k) && hint == Some(tool)
    ensures step.toolHint == old(step.toolHint) && step.retryCount == 0
  {
    var originalHint := step.toolHint;
    step.toolHint := Some(tool);
    step.retryCount := 0;
    hint := step.toolHint;
    r := TryStep(events, k, tries);
    step.toolHint := originalHint;
  }

  /** Where the fallback phase ends: what was accepted and made, and the running texts at that point. */
  datatype FallbackEnd = FallbackEnd(accepted: bool, made: nat, lastError: string, resultText: string, shown: string)

  function FallbackFrom(fallbacks: seq<string>, tries: Tries, n: nat, j: nat,
                        error: string, text: string, shown: string): FallbackEnd
    requires j <= |fallbacks|
    decreases |fallbacks| - j
  {
    if j == |fallbacks| then FallbackEnd(false, j, error, text, shown) else
    var r := tries(n + j);
    if !r.HadError() && text + r.text != ""
    then FallbackEnd(true, j + 1, error, text + r.text, shown + r.text)
    else FallbackFrom(fallbacks, tries, n, j + 1, OrElse(r.error, error), text + r.text, shown + r.text)
  }

  /** The fallback phase from the j-th tool on, after n primary tries. */
  function FallbackAt(cfg: RetryConfig, tries: Tries, n: nat, j: nat): FallbackEnd
    requires n > 0 && j <= |cfg.fallbacks|
  {
    FallbackFrom(cfg.fallbacks, tries, n, j, ErrorAfter(tries, n + j),
                 Concat(tries, n - 1, n + j), Concat(tries, 0, n + j))
  }

  /** The end of the phase when m fallbacks were made. */
  function EndAt(tries: Tries, n: nat, m: nat, accepted: bool): FallbackEnd
    requires n > 0
  {
    FallbackEnd(accepted, m, ErrorAfter(tries, n + m), Concat(tries, n - 1, n + m), Concat(tries, 0, n + m))
  }

  lemma FallbackStep(cfg: RetryConfig, tries: Tries, n: nat, j: nat)
    requires n > 0 && j <= |cfg.fallbacks|
    ensures FallbackAt(cfg, tries, n, j)
         == if j == |cfg.fallbacks| then EndAt(tries, n, j, false)
            else if FallbackAccepted(tries, n, j) then EndAt(tries, n, j + 1, true)
            else FallbackAt(cfg, tries, n, j + 1)
  {
    hide Concat, ErrorAfter;
    OneMoreTry(tries, n - 1, n + j);
    OneMoreTry(tries, 0, n + j);
  }

  lemma {:induction false} FallbackMeaning(cfg: RetryConfig, tries: Tries, n: nat, j: nat)
    requires n > 0 && j <= |cfg.fallbacks|
    ensures var m := FallbackTries(cfg, tries, n, j);
            FallbackAt(cfg, tries, n, j) == EndAt(tries, n, m, m > j && FallbackAccepted(tries, n, m - 1))
    decreases |cfg.fallbacks| - j
  {
    hide FallbackAt, EndAt;
    FallbackStep(cfg, tries, n, j);
    if j < |cfg.fallbacks| && !FallbackAccepted(tries, n, j) {
      FallbackMeaning(cfg, tries, n, j + 1);
      NotAcceptedAt(cfg, tries, n, j);
    }
  }

  lemma NotAcceptedAt(cfg: RetryConfig, tries: Tries, n: nat, j: nat)
    requires n > 0 && j < |cfg.fallbacks| && !FallbackAccepted(tries, n, j)
    ensures var m := FallbackTries(cfg, tries, n, j + 1);
            (m > j && FallbackAccepted(tries, n, m - 1)) == (m > j + 1 && FallbackAccepted(tries, n, m - 1))
  {
  }

  /** The fallback tools in order, each tried once; stops at the first accepted one. */
  method FallbackPhase(step: PlanStep, fallbacks: seq<string>, events: nat -> seq<StepEvent>, n: nat,
                       error: string, text: string, shownSoFar: string, ghost tries: Tries)
    returns (accepted: bool, lastError: string, resultText: string, shown: string, ghost hints: seq<Option<string>>)
    requires Reported(events, tries)
    modifies step`toolHint, step`retryCount
    ensures FallbackEnd(accepted, |hints|, lastError, resultText, shown) ==
            FallbackFrom(fallbacks, tries, n, 0, error, text, shownSoFar)
    ensures step.toolHint == old(step.toolHint)
    ensures |hints| <= |fallbacks| && forall j :: 0 <= j < |hints| ==> hints[j] == Some(fallbacks[j])
  {
    accepted, lastError, resultText, shown, hints := false, error, text, shownSoFar, [];
    for made := 0 to |fallbacks|
      invariant FallbackFrom(fallbacks, tries, n, made, lastError, resultText, shown) ==
                FallbackFrom(fallbacks, tries, n, 0, error, text, shownSoFar)
      invariant !accepted && step.toolHint == old(step.toolHint)
      invariant |hints| == made && forall j :: 0 <= j < made ==> hints[j] == Some(fallbacks[j])
    {
      var r, hint := FallbackOnce(step, fallbacks[made], events, n + made, tries);
      lastError := OrElse(r.error, lastError);
      resultText, shown, hints := resultText + r.text, shown + r.text, hints + [hint];
      if !r.HadError() && resultText != "" {
        accepted := true;
        return;
      }
    }
  }

  /** The verdict from the ends of the two phases. */
  lemma VerdictOf(cfg: RetryConfig, tries: Tries, n: nat, end: FallbackEnd)
    requires n == PrimaryTries(cfg, tries, 0) && tries(n - 1).HadError() && cfg.strategy != "skip"
    requires end == FallbackFrom(cfg.fallbacks, tries, n, 0, ErrorAfter(tries, n), tries(n - 1).text,
                                    Concat(tries, 0, n))
    ensures Judge(cfg, tries) == Verdict(!end.accepted, n, end.made)
    ensures Concat(tries, 0, n + end.made) == end.shown && ErrorAfter(tries, n + end.made) == end.lastError
    ensures Concat(tries, n - 1, n + end.made) == end.resultText
  {
    hide TypeAfter, ErrorAfter, PrimaryTries, FallbackTries, FallbackAccepted, FallbackFrom, Concat, MaxAttempts;
    ConcatJoin(tries, n - 1, n - 1, n);
    FallbackMeaning(cfg, tries, n, 0);
  }

  lemma VerdictWithoutFallback(cfg: RetryConfig, tries: Tries, n: nat)
    requires n == PrimaryTries(cfg, tries, 0) && (tries(n - 1).HadError() ==> cfg.strategy == "skip")
    ensures Judge(cfg, tries) == Verdict(tries(n - 1).HadError(), n, 0)
    ensures Concat(tries, n - 1, n) == tries(n - 1).text
  {
    OneMoreTry(tries, n - 1, n - 1);
  }

  /** Both phases of one step, in terms of the verdict on its tries. */
  method RunTries(step: PlanStep, cfg: RetryConfig, events: nat -> seq<StepEvent>, jitters: nat -> Jitter,
                  ghost tries: Tries)
    returns (accepted: bool, lastError: string, resultText: string, shown: string,
             ghost slept: real, ghost hints: seq<Option<string>>)
    requires Reported(events, tries)
    modifies step`retryCount, step`toolHint
    ensures step.toolHint == old(step.toolHint)
    ensures slept == Waited(tries, jitters, Judge(cfg, tries).primaries)
    ensures 0.0 <= slept <= (MaxAttempts(cfg) - 1) as real * 30.0
    ensures accepted == !Judge(cfg, tries).failed && |hints| == Judge(cfg, tries).fallbacks
    ensures shown == Concat(tries, 0, TotalTries(Judge(cfg, tries)))
    ensures lastError == ErrorAfter(tries, TotalTries(Judge(cfg, tries)))
    ensures accepted ==> resultText == AcceptedText(tries, Judge(cfg, tries))
    ensures |hints| <= |cfg.fallbacks| && forall j :: 0 <= j < |hints| ==> hints[j] == Some(cfg.fallbacks[j])
  {
    hide PrimaryTries, FallbackTries, FallbackFrom, Concat, ErrorAfter, TypeAfter, Judge, Waited, ReportOf;
    var hadError, n;
    hadError, n, lastError, resultText, shown, slept := PrimaryPhase(step, cfg, events, jitters, tries);
    if hadError && cfg.strategy != "skip" {
      accepted, lastError, resultText, shown, hints :=
        FallbackPhase(step, cfg.fallbacks, events, n, lastError, resultText, shown, tries);
      VerdictOf(cfg, tries, n, FallbackEnd(accepted, |hints|, lastError, resultText, shown));
    } else {
      accepted, hints := !hadError, [];
      VerdictWithoutFallback(cfg, tries, n);
    }
  }

  /** The text an accepted step counts as its result: all since its last primary try. */
  function AcceptedText(tries: Tries, v: Verdict): string
    requires v.primaries > 0
  {
    Concat(tries, v.primaries - 1, TotalTries(v))
  }

  /** Runs one step to its verdict. Only the step's own record changes, and its tool hint is put back. */
  method ExecuteStepWithRetry(step: PlanStep, maxRetries: nat, events: nat -> seq<StepEvent>, jitters: nat -> Jitter,
                              ghost tries: Tries)
    returns (text: string, ghost slept: real, ghost hints: seq<Option<string>>)
    requires Reported(events, tries)
    modifies step`status, step`result, step`errorContext, step`retryCount, step`toolHint
    ensures step.toolHint == old(step.toolHint)
    ensures slept == Waited(tries, jitters, Judge(ConfigOf(step, maxRetries), tries).primaries)
    ensures 0.0 <= slept <= (MaxAttempts(ConfigOf(step, maxRetries)) - 1) as real * 30.0
    ensures text == EmittedText(ConfigOf(step, maxRetries), tries)
    ensures var v := Judge(ConfigOf(step, maxRetries), tries);
            && step.status == (if v.failed then Failed else old(step.status))
            && (v.failed ==> step.errorContext == Some(ErrorAfter(tries, TotalTries(v))))
            && step.result == (if v.failed || AcceptedText(tries, v) == "" then old(step.result)
                               else Some(AcceptedText(tries, v)))
            && |hints| == v.fallbacks
    ensures |hints| <= |FallbackTools(step.fallbackChain, step.fallbackTool)|
    ensures forall j :: 0 <= j < |hints| ==> hints[j] == Some(FallbackTools(step.fallbackChain, step.fallbackTool)[j])
  {
    var accepted, lastError, resultText;
    accepted, lastError, resultText, text, slept, hints :=
      RunTries(step, ConfigOf(step, maxRetries), events, jitters, tries);
    if accepted {
      if resultText != "" {
        step.result := Some(resultText);
      }
    } else {
      step.status := Failed;
      step.errorContext := Some(lastError);
      text := text + FailureNotice(lastError);
    }
  }
}
