/** One call to an AI provider, retried on any failure: at most five
    attempts, exponential back-off between them, and the last error passed
    on unchanged when every attempt fails. */
module Retry {
  import opened Wrappers
  import opened Strings

  const MAX_ATTEMPTS: nat := 5
  /** Bounds of the back-off between attempts, in seconds. */
  const MIN_WAIT: nat := 2
  const MAX_WAIT: nat := 10

  /** The providers the call knows how to route to. */
  const KNOWN_PROVIDERS: set<string> := {"google", "groq", "openai", "local", "anthropic"}

  /** What the call sends: the provider and model, both prompts and the sampling
      settings (temperature and top-p are passed through untouched). */
  datatype Request = Request(
    provider: string, model: string, system: string, user: string,
    temperature: real, maxTokens: int, topP: real)

  /** What one provider SDK call does: answer with text or raise an error
      whose message is given. */
  datatype Outcome = Reply(text: string) | Raised(message: string)

  /** The error an attempt ends with: a rate-limit error or any other error,
      each carrying the message of the error it came from. */
  datatype Failure = RateLimited(message: string) | Failed(message: string)

  /** The provider SDKs, seen from outside: the outcome of the `k`-th attempt
      (counting from 0) at a request. The attempt index lets the same request
      fail and then succeed. */
  type Adapter = (Request, nat) -> Outcome

  /** An error mentioning 429, or "quota" in any letter case, is turned into a
      rate-limit error with the same message; any other error is passed on. */
  function Classify(message: string): (f: Failure)
    ensures f.message == message
    ensures f.RateLimited? <==> Contains(message, "429") || Contains(LowerAscii(message), "quota")
  {
    if Contains(message, "429") || Contains(LowerAscii(message), "quota") then RateLimited(message)
    else Failed(message)
  }

  /** "quota" is found in any letter case. */
  lemma ClassifyQuotaAnyCase()
    ensures Classify("Quota exceeded").RateLimited?
  {
    var m := "Quota exceeded";
    var l := LowerAscii(m);
    assert l[0] == LOWER_LETTERS[16] == 'q';
    assert l[1] == 'u' && l[2] == 'o' && l[3] == 't' && l[4] == 'a';
    assert l[..5] == "quota";
    ContainsAt(l, "quota", 0);
  }

  function NotConfigured(provider: string): string {
    "Provider " + provider + " not configured."
  }

  function UnknownProvider(provider: string): string {
    "Unknown provider: " + provider
  }

  /** Attempt `k`: a provider without a configured client fails first; then a
      provider the call cannot route fails; otherwise the SDK's outcome is the
      attempt's outcome. Every error leaving an attempt has been classified by
      its message, and a success needs a client and a routed provider. */
  function Attempt(req: Request, clients: set<string>, adapter: Adapter, k: nat): (r: Result<string, Failure>)
    ensures r.Err? ==> r.error == Classify(r.error.message)
    ensures r.Ok? ==> req.provider in clients * KNOWN_PROVIDERS && adapter(req, k) == Reply(r.value)
  {
    if req.provider !in clients then Err(Classify(NotConfigured(req.provider)))
    else if req.provider !in KNOWN_PROVIDERS then Err(Classify(UnknownProvider(req.provider)))
    else match adapter(req, k)
      case Reply(text) => Ok(text)
      case Raised(message) => Err(Classify(message))
  }

  /** The outcome of one attempt in each case: the client check comes first,
      then routing, and an SDK error keeps its message, whatever its class. */
  lemma AttemptCases(req: Request, clients: set<string>, adapter: Adapter, k: nat)
    ensures var r := Attempt(req, clients, adapter, k);
      && (req.provider !in clients ==> r == Err(Classify(NotConfigured(req.provider))))
      && (req.provider in clients && req.provider !in KNOWN_PROVIDERS ==> r == Err(Classify(UnknownProvider(req.provider))))
      && (req.provider in clients * KNOWN_PROVIDERS ==>
            && (r.Ok? <==> adapter(req, k).Reply?)
            && (r.Ok? ==> r.value == adapter(req, k).text)
            && (r.Err? ==> r.error.message == adapter(req, k).message))
  {
  }

  /** The retried call from attempt `k` on: stop at the first success or after
      the last attempt allowed. Its result is that of the last attempt made,
      error included. */
  function RunFrom(req: Request, clients: set<string>, adapter: Adapter, k: nat): (r: Result<string, Failure>)
    requires k < MAX_ATTEMPTS
    ensures r == Attempt(req, clients, adapter, k + AttemptsFrom(req, clients, adapter, k) - 1)
    decreases MAX_ATTEMPTS - k
  {
    var a := Attempt(req, clients, adapter, k);
    if a.Ok? || k == MAX_ATTEMPTS - 1 then a else RunFrom(req, clients, adapter, k + 1)
  }

  /** The whole retried call: the result of the last attempt it makes, which is
      the first success or the fifth failure. */
  function Retried(req: Request, clients: set<string>, adapter: Adapter): (r: Result<string, Failure>)
    ensures r == Attempt(req, clients, adapter, AttemptsMade(req, clients, adapter) - 1)
    ensures r.Err? ==> AttemptsMade(req, clients, adapter) == MAX_ATTEMPTS
  {
    RunFrom(req, clients, adapter, 0)
  }

  /** The number of attempts made from attempt `k` on. */
  function AttemptsFrom(req: Request, clients: set<string>, adapter: Adapter, k: nat): (n: nat)
    requires k < MAX_ATTEMPTS
    ensures 1 <= n <= MAX_ATTEMPTS - k
    decreases MAX_ATTEMPTS - k
  {
    if Attempt(req, clients, adapter, k).Ok? || k == MAX_ATTEMPTS - 1 then 1
    else 1 + AttemptsFrom(req, clients, adapter, k + 1)
  }

  function AttemptsMade(req: Request, clients: set<string>, adapter: Adapter): nat {
    AttemptsFrom(req, clients, adapter, 0)
  }

  /** Attempt `n` is the first success: every earlier attempt failed. */
  predicate FirstSuccessAt(req: Request, clients: set<string>, adapter: Adapter, n: nat) {
    && n < MAX_ATTEMPTS
    && Attempt(req, clients, adapter, n).Ok?
    && forall j | 0 <= j < n :: Attempt(req, clients, adapter, j).Err?
  }

  /** Every allowed attempt failed. */
  predicate AllFail(req: Request, clients: set<string>, adapter: Adapter) {
    forall j | 0 <= j < MAX_ATTEMPTS :: Attempt(req, clients, adapter, j).Err?
  }

  /** Run from attempt `k`, after `k` failures: it succeeds with the first
      success if there is one, and otherwise re-raises the last attempt's error. */
  lemma {:induction false} RunFromMeaning(req: Request, clients: set<string>, adapter: Adapter, k: nat)
    requires k < MAX_ATTEMPTS
    requires forall j | 0 <= j < k :: Attempt(req, clients, adapter, j).Err?
    ensures var r := RunFrom(req, clients, adapter, k);
            var n := AttemptsFrom(req, clients, adapter, k);
      && (r.Ok? ==> FirstSuccessAt(req, clients, adapter, k + n - 1) && r == Attempt(req, clients, adapter, k + n - 1))
      && (r.Err? ==> AllFail(req, clients, adapter) && r == Attempt(req, clients, adapter, MAX_ATTEMPTS - 1) && k + n == MAX_ATTEMPTS)
    decreases MAX_ATTEMPTS - k
  {
    if !(Attempt(req, clients, adapter, k).Ok? || k == MAX_ATTEMPTS - 1) {
      RunFromMeaning(req, clients, adapter, k + 1);
    }
  }

  /** The retried call succeeds exactly when some attempt succeeds, and then
      with the text of the first success after that many attempts; otherwise
      all five attempts were made and the last one's error is the result. */
  lemma RetriedMeaning(req: Request, clients: set<string>, adapter: Adapter)
    ensures var r := Retried(req, clients, adapter);
            var n := AttemptsMade(req, clients, adapter);
      && (r.Ok? <==> !AllFail(req, clients, adapter))
      && (r.Ok? ==> FirstSuccessAt(req, clients, adapter, n - 1) && r == Attempt(req, clients, adapter, n - 1))
      && (r.Err? ==> n == MAX_ATTEMPTS && r == Attempt(req, clients, adapter, MAX_ATTEMPTS - 1))
  {
    RunFromMeaning(req, clients, adapter, 0);
  }

  /** A provider without a client is not special-cased: it fails five times
      and its "not configured" error is the result. */
  lemma NotConfiguredRetried(req: Request, clients: set<string>, adapter: Adapter)
    requires req.provider !in clients
    ensures Retried(req, clients, adapter) == Err(Classify(NotConfigured(req.provider)))
    ensures AttemptsMade(req, clients, adapter) == MAX_ATTEMPTS
  {
    RetriedMeaning(req, clients, adapter);
    AttemptCases(req, clients, adapter, MAX_ATTEMPTS - 1);
  }

  function Pow2(n: nat): (p: nat)
    ensures p >= 1
  {
    if n == 0 then 1 else 2 * Pow2(n - 1)
  }

  /** The back-off after attempt `n` (counting from 1) failed: 2^(n-1) seconds,
      clamped to the bounds. */
  function Backoff(n: nat): (w: nat)
    requires n >= 1
    ensures MIN_WAIT <= w <= MAX_WAIT
  {
    var e := Pow2(n - 1);
    if e < MIN_WAIT then MIN_WAIT else if e > MAX_WAIT then MAX_WAIT else e
  }

  /** The back-off is non-decreasing from one attempt to the next. */
  lemma {:induction false} BackoffMonotone(n: nat)
    requires n >= 1
    ensures Backoff(n) <= Backoff(n + 1)
  {
    assert Pow2(n) == 2 * Pow2(n - 1);
  }

  /** With every attempt failing the call waits 2, 2, 4 and 8 seconds. */
  lemma BackoffSchedule()
    ensures [Backoff(1), Backoff(2), Backoff(3), Backoff(4)] == [2, 2, 4, 8]
  {
    assert Pow2(3) == 8;
  }

  /** Run from attempt `k`, when the attempts from `k` up to `n` fail and
      attempt `n` is a success or the last one allowed: it ends with attempt `n`. */
  lemma {:induction false} RunFromStopsAt(req: Request, clients: set<string>, adapter: Adapter, k: nat, n: nat)
    requires k <= n < MAX_ATTEMPTS
    requires forall j | k <= j < n :: Attempt(req, clients, adapter, j).Err?
    requires Attempt(req, clients, adapter, n).Ok? || n == MAX_ATTEMPTS - 1
    ensures RunFrom(req, clients, adapter, k) == Attempt(req, clients, adapter, n)
    ensures AttemptsFrom(req, clients, adapter, k) == n - k + 1
    decreases n - k
  {
    if k < n {
      RunFromStopsAt(req, clients, adapter, k + 1, n);
    }
  }

  /** Where the attempts stop: at the first success, or at the last attempt
      allowed after only failures, the retried call ends with that attempt. */
  lemma RetriedStopsAt(req: Request, clients: set<string>, adapter: Adapter, n: nat)
    requires n < MAX_ATTEMPTS
    requires forall j | 0 <= j < n :: Attempt(req, clients, adapter, j).Err?
    requires Attempt(req, clients, adapter, n).Ok? || n == MAX_ATTEMPTS - 1
    ensures Retried(req, clients, adapter) == Attempt(req, clients, adapter, n)
    ensures AttemptsMade(req, clients, adapter) == n + 1
  {
    RunFromStopsAt(req, clients, adapter, 0, n);
  }

  /** One retried call: the result, how many attempts were made and the waits
      between them. Sleeping itself is not modelled. */
  method CallProviderWithRetry(req: Request, clients: set<string>, adapter: Adapter)
    returns (r: Result<string, Failure>, attempts: nat, waits: seq<nat>)
    ensures r == Retried(req, clients, adapter) && attempts == AttemptsMade(req, clients, adapter)
    ensures 1 <= attempts <= MAX_ATTEMPTS
    ensures r == Attempt(req, clients, adapter, attempts - 1)
    ensures forall j | 0 <= j < attempts - 1 :: Attempt(req, clients, adapter, j).Err?
    ensures r.Err? ==> attempts == MAX_ATTEMPTS
    ensures |waits| == attempts - 1 && forall j | 0 <= j < |waits| :: waits[j] == Backoff(j + 1)
  {
    r := Attempt(req, clients, adapter, 0);
    attempts := 1;
    waits := [];
    while r.Err? && attempts < MAX_ATTEMPTS
      invariant 1 <= attempts <= MAX_ATTEMPTS
      invariant r == Attempt(req, clients, adapter, attempts - 1)
      invariant forall j | 0 <= j < attempts - 1 :: Attempt(req, clients, adapter, j).Err?
      invariant |waits| == attempts - 1 && forall j | 0 <= j < |waits| :: waits[j] == Backoff(j + 1)
      decreases MAX_ATTEMPTS - attempts
    {
      waits := waits + [Backoff(attempts)];
      r := Attempt(req, clients, adapter, attempts);
      attempts := attempts + 1;
    }
    RetriedStopsAt(req, clients, adapter, attempts - 1);
  }
}
