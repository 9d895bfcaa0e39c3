# MAGI deliberation core in Dafny

This project models the deliberation engine of the MAGI system
(`magi_core.py`). Three AI "units" (MELCHIOR, BALTHASAR and CASPER) each answer
a question through their configured provider. An optional debate round lets
every unit read the others' first opinions. The votes are summed into a score,
and an optional SEELE synthesis summarises the three opinions. The model also
covers the bookkeeping around a deliberation: the history file, the user and
session tables, and the provider configuration with its key repair.

Modules:

- `Strings` (`strings.dfy`): the Python `str` operations the core uses:
  - `isspace` / `\s` (the same 29 code points);
  - `strip`;
  - `in`;
  - `replace(p, "")`;
  - ASCII `lower`;
  - `join`.
- `Parser` (`parser.dfy`): `parse_response`. It covers:
  - tag removal by `<[^>]+>`;
  - fence removal;
  - the vote precedence;
  - the condition regex `(?:条件|Condition)[:：]\s*(.+)` as Python's `re.search` runs it, including the greedy `\s*` that crosses line breaks and its backtracking;
  - the sentinel list.
- `Retry` (`retry.dfy`): `call_provider_with_retry`. It covers:
  - the client check and routing;
  - the 429/"quota" classification;
  - five attempts;
  - the tenacity back-off `wait_exponential(multiplier=1, min=2, max=10)`;
  - re-raising the last error.
- `Magi` (`magi.dfy`): prompt assembly, `ask_philosopher` (fails closed), and `ask_magi_system` (two rounds, transcript, score, synthesis).
- `History` (`history.dfy`): `add_history` and `add_history_with_user`. The newest entry goes first and 100 entries are kept.
- `Config` (`config.dfy`): the key repair in `load_api_config`, and which providers `get_clients` gives a client.
- `Auth` (`auth.dfy`): the user table (`authenticate_user`, `add_user`, `delete_user` with the `nerv_admin` guard) and the session table (`create_session`, `validate_session`, `clear_session`).

Outside inputs are parameters:

- The provider SDKs are an `Adapter`: a function from a request and an attempt index to a reply or an error message.
- The configured clients are a set of provider names.
- The persona file is a map from unit id to persona.
- Clock readings and the session UUID are strings passed in by the caller.
- The JSON files are class fields (`HistoryStore.entries`, `UserStore.users`, `SessionStore.sessions`) or an optional value read in (`LoadApiConfig`).

Three behaviours of the code that are easy to misread:

- The condition is not blanked for non-conditional votes. Only the sentinels (`なし`, `none`, `無し`, `特になし`, empty, compared after lower-casing) clear it.
- A provider without a client is not a terminal error. Its "not configured" exception is retried like any other. The result is five attempts, and that message is the final error (`Retry.NotConfiguredRetried`).
- The back-off after failed attempt n is `max(2, min(2^(n-1), 10))` seconds. The waits are therefore 2, 2, 4 and 8 seconds (16 in all); the 10-second cap is never reached within five attempts (`Retry.BackoffSchedule`).

## Model

| member | source | states |
|---|---|---|
| Strings.Strip | magi_core.py:331 | `strip()` returns the slice of the text between a leading and a trailing whitespace run: nothing but surrounding whitespace is removed, none is left at either end, and a trimmed text comes back unchanged |
| Strings.RemoveAll | magi_core.py:331 | `replace(p, "")` never lengthens the text, and a text without `p` comes back unchanged |
| Strings.RemoveAllDropsFirst | magi_core.py:331 | the scan keeps the text before the first occurrence of `p`, deletes that occurrence and goes on after it |
| Strings.ContainsIff | magi_core.py:332-334 | Python's `p in s` holds iff `p` occurs at some position of `s` |
| Strings.LowerAscii | magi_core.py:324 | lower-casing keeps the length, turns every upper-case ASCII letter into the same letter in lower case, and keeps every other character |
| Parser.StripTagsLeavesNoTag | magi_core.py:330 | after `re.sub(r'<[^>]+>', '', text)` no match of the tag pattern remains |
| Parser.StripTags | magi_core.py:330 | the tag substitution never lengthens the text and changes nothing on a text without tags |
| Parser.StripTagsSkipsTag | magi_core.py:330 | the text before a tag `<y>` is kept, the tag is deleted, and the substitution goes on after it |
| Parser.RemoveFenceLeavesNoFence | magi_core.py:331 | after `.replace("```", "")` no fence marker is left: runs of backticks never merge into a new fence |
| Parser.CleanText | magi_core.py:330-331 | the rationale text has no tag, no fence and no surrounding whitespace |
| Parser.CleanTextPlain | magi_core.py:330-331 | a reply without `<` and without backticks loses only its surrounding whitespace |
| Parser.CleanTextFixpoint | magi_core.py:330-331 | a text without tags, without fences and without surrounding whitespace is its own cleaned text |
| Parser.CleanTextIdempotent | magi_core.py:330-331 | cleaning a cleaned text changes nothing |
| Parser.VoteOf | magi_core.py:332-334 | the vote is always one of `是認`, `条件付是認`, `否認` |
| Parser.VotePrecedence | magi_core.py:332-334 | the vote is conditional approval iff the text holds `条件付是認`; approval iff it holds `是認` and not the conditional marker; denial otherwise |
| Parser.BracketedMarkers | magi_core.py:333-334 | the bracketed markers `【条件付是認】` and `【是認】` add nothing: each holds its plain marker |
| Parser.ConditionalContainsApproval | magi_core.py:333-334 | the conditional marker contains the approval marker, so it must be checked first |
| Parser.DenialMentioningApproval | magi_core.py:333-334 | a reply holding `【否認】` and `是認` but not `条件付是認` is parsed as approval, for example `【否認】是認しない`: the denial marker is never consulted |
| Parser.GroupAtMatches | magi_core.py:336 | the pattern matches at a position iff a label and colon start there and a non-newline character follows the colon somewhere |
| Parser.GroupAt | magi_core.py:336 | a group is captured only after a label and colon; it is non-empty, lies on one line, follows a whitespace run that starts right after the colon, and ends at a line break or the end of the text; it starts with whitespace only when everything after the colon is whitespace |
| Parser.GroupFrom | magi_core.py:336 | what `\s*(.+)` captures after the colon: a non-empty, single-line piece after a whitespace run and up to a line break or the end; the run is taken whole (the piece starts with a non-space) unless it reaches the end of the text |
| Parser.FirstGroup | magi_core.py:336 | `re.search` takes the leftmost position where the pattern matches; no earlier position matches |
| Parser.ConditionOf | magi_core.py:336-339 | the condition is `特になし` iff the pattern matches nowhere; it never spans a line break and has no whitespace at its ends |
| Parser.ConditionRules | magi_core.py:332-339 | no match gives `特になし`; a match gives the stripped group, or `""` iff it is a sentinel; the condition never spans lines and is trimmed |
| Parser.Parse | magi_core.py:328-340 | the name is passed through; the rationale is the cleaned reply, so it has no tag, no fence and no surrounding whitespace; the vote is one of the three votes |
| Parser.ParseVote | magi_core.py:332-334 | the parsed vote follows the precedence on the parsed rationale, both directions |
| Parser.ParseCondition | magi_core.py:336-340 | the parsed condition follows the condition rules, whatever the vote |
| Parser.ParseIdempotent | magi_core.py:328-340 | parsing the returned rationale again gives the same tuple |
| Retry.ClassifyQuotaAnyCase | magi_core.py:324-325 | an error reading `Quota exceeded` is a rate-limit error: the quota test ignores letter case |
| Retry.Classify | magi_core.py:323-326 | an error becomes a rate-limit error iff its message holds `429` or, lower-cased, `quota`; the message is kept |
| Retry.Attempt | magi_core.py:307-326 | every error an attempt ends with has been classified by its message; a success needs a configured client and a routed provider, and is the SDK's reply |
| Retry.AttemptCases | magi_core.py:307-322 | a provider without a client fails with "Provider p not configured."; a routed provider's attempt succeeds iff the SDK replies, and an SDK error keeps its message |
| Retry.RunFrom | magi_core.py:299-304 | the call from attempt k on returns the result of the last attempt it makes, error included |
| Retry.Retried | magi_core.py:299-304 | the retried call returns its last attempt's result unchanged, and fails only after five attempts |
| Retry.RunFromMeaning | magi_core.py:299-304 | after k failures the retried call ends at the first success, or fails with the last attempt's error after all five attempts |
| Retry.RetriedMeaning | magi_core.py:299-304 | the call succeeds iff some attempt succeeds, then with the first success; otherwise it makes five attempts and re-raises the last error unchanged |
| Retry.RetriedStopsAt | magi_core.py:299-304 | a first success, or a fifth failure after four, ends the call after exactly that many attempts |
| Retry.NotConfiguredRetried | magi_core.py:299-309 | a provider without a client is retried five times and its "not configured" error is the result |
| Retry.Backoff | magi_core.py:301 | every wait lies between 2 and 10 seconds |
| Retry.BackoffMonotone | magi_core.py:301 | waits never decrease from one attempt to the next |
| Retry.BackoffSchedule | magi_core.py:301 | the four waits are 2, 2, 4 and 8 seconds |
| Retry.CallProviderWithRetry | magi_core.py:299-326 | the loop returns the retried call's result after the attempts it makes; every earlier attempt failed; a failure means five attempts; wait j is the back-off after attempt j |
| Magi.ContextPromptCarries | magi_core.py:350 | the plain user prompt carries the question and the reference material |
| Magi.UserPromptCarries | magi_core.py:352-354 | the user prompt carries question and context, carries the others' opinions in a debate, and is the plain prompt outside one |
| Magi.JudgeRequest | magi_core.py:349-360 | the request uses the persona's provider and model, its prompt plus the output instruction as system prompt, the user prompt for the question, context and others' opinions, and its sampling settings or 0.7 / 4096 / 1.0 |
| Magi.Judge | magi_core.py:342-364 | a unit's verdict always carries one of the three votes |
| Magi.JudgeFailsClosed | magi_core.py:346-364 | a missing persona yields `Config Missing` / `否認` / `設定不足` under the unit id; exhausted retries yield `AI Error: <last message>` / `否認` / `エラー発生`; otherwise the first successful reply is parsed |
| Magi.JudgeUnconfigured | magi_core.py:357-364 | a unit whose provider has no client denies, quoting "Provider p not configured." |
| Magi.Round | magi_core.py:368-373 | the round's verdicts are the three units' in the order MELCHIOR, BALTHASAR, CASPER |
| Magi.RoundIsolation | magi_core.py:368-373 | a unit's verdict depends on its own persona only, so one unit's failure does not affect the others |
| Strings.JoinContainsEach | magi_core.py:376 | every part joined by `sep.join` occurs in the joined text |
| Magi.TranscriptCarries | magi_core.py:376 | every `name: reason` entry occurs in the debate transcript, which is never empty |
| Magi.VoteScore | magi_core.py:384-385 | approval scores 1, conditional approval 0, anything else -1 |
| Magi.Score | magi_core.py:384-385 | the score of n verdicts lies between -n and n |
| Magi.ScoreCounts | magi_core.py:384-385 | the score is the approvals less the votes that are neither approval nor conditional approval |
| Magi.ScoreExtremes | magi_core.py:384-385 | the score is maximal iff all approve, minimal iff none approves or conditionally approves |
| Magi.ScoreExamples | magi_core.py:384-385 | three approvals give 3, three denials -3, one of each 0, two approvals and a conditional approval 2 |
| Magi.VotesCounted | magi_core.py:384-385 | in a round of proper votes, approvals, conditional approvals and denials add up to the round |
| Magi.SeeleRequest | magi_core.py:390-395 | the synthesis request goes to the configured SEELE model with system prompt "SEELE SYSTEM ACTIVE.", the template filled with the question and the three final rationales in unit order, temperature 0.4, and the default 4096 tokens and top-p 1.0 |
| Magi.SeelePromptCarries | magi_core.py:392-393 | the synthesis prompt carries the question and all three rationales |
| Magi.SummaryCases | magi_core.py:387-397 | synthesis off gives `""`; exhausted retries give the `【警告】` text quoting the last error; otherwise the first successful reply |
| Magi.Deliberate | magi_core.py:366-403 | a deliberation reports exactly three verdicts |
| Magi.DeliberateRounds | magi_core.py:368-382 | without debate the first round is final; with debate the second round replaces it, and the user prompt of every configured unit's second-round request carries each first-round opinion |
| Magi.DeliberateScore | magi_core.py:384-385 | the final score lies in -3..3, equals approvals minus denials, and is 3 iff all three approve |
| Magi.AskPhilosopher | magi_core.py:342-364 | the unit's deliberation (retry loop, then parse or deny) yields `Judge`'s verdict |
| Magi.AskRound | magi_core.py:368-373 | asking the three units yields `Round` |
| Magi.AskSeele | magi_core.py:387-397 | the synthesis step yields `Summary`: empty when off, otherwise the retried call's reply or the warning |
| Magi.AskMagiSystem | magi_core.py:366-403 | the orchestration yields `Deliberate`: three verdicts, a score in -3..3, and an empty summary without synthesis |
| History.Recorded | magi_core.py:130-131 | recording puts the new entry first, keeps the earlier ones in order, and cuts to 100 |
| History.RecordedAllNewestFirst | magi_core.py:118-147 | after any run of recordings the history is the new entries newest first, then the older ones, cut to 100 |
| History.HistoryStore.AddHistory | magi_core.py:118-131 | the store becomes the recorded history with an entry without user; at most 100 entries |
| History.HistoryStore.AddHistoryWithUser | magi_core.py:133-147 | the same, with the user id in the entry |
| Config.Repair | magi_core.py:108-111 | a repaired configuration has a SEELE model, a provider table and a local provider; present keys are kept and only missing ones take defaults |
| Config.RepairIdempotent | magi_core.py:108-111 | a complete configuration is left alone, so repairing twice is repairing once |
| Config.LoadApiConfig | magi_core.py:95-112 | loading yields the repaired file contents, or the defaults when there is no readable file |
| Config.ConfiguredClients | magi_core.py:224-246 | applied to the loaded (repaired) configuration: a provider gets a client iff it is a keyed provider with a non-empty API key, or local with a non-empty base URL; all are known providers |
| Config.RepairedLocalClient | magi_core.py:107-111 | a file without a provider table or without a local entry still yields a local client once repaired |
| Config.ConfiguredRequestsRouted | magi_core.py:224-246 | with configured clients an attempt is either "not configured" or the SDK's outcome, never "Unknown provider" |
| Config.DefaultClients | magi_core.py:224-246 | the default configuration gives a client to the local provider only |
| Auth.UserStore.Authenticate | magi_core.py:165-171 | login succeeds iff the user exists and the password matches, and yields user name, display name and role |
| Auth.UserStore.AddUser | magi_core.py:173-179 | an existing user name is refused and nothing changes; otherwise the user is added, can log in, and no other user changes |
| Auth.UserStore.DeleteUser | magi_core.py:181-189 | `nerv_admin` is never deleted; an absent user is reported as not deleted; otherwise the user is removed and can no longer log in |
| Auth.SessionStore.ValidateSession | magi_core.py:206-213 | a token validates iff it has a session, and yields that session's user |
| Auth.SessionStore.CreateSession | magi_core.py:195-204 | the supplied token is returned and now validates to the user; other sessions are unchanged |
| Auth.SessionStore.ClearSession | magi_core.py:215-220 | the token no longer validates; other sessions are unchanged |

## Left out

- Concurrency and the staggered start delays (0, 0.5 and 1.0 s) of the three units, and the sleeps between retries. Rounds are modelled as sequential calls. Their results do not depend on the order.
- The provider SDKs (Google, Groq, OpenAI, Anthropic, local OpenAI-compatible servers). They are one function `Adapter` from request and attempt index to reply or error message.
  - Two identical requests at the same attempt index get the same outcome.
  - A reply whose content is missing (`None`) is not modelled.
- JSON file reading and writing. The files are class fields or an optional value read in. Malformed persona entries that raise `KeyError` are not modelled; a persona absent from the map stands for a missing or empty one.
- The `RateLimitError` class is kept as `Failure.RateLimited`, but every error is retried alike, as in the code.
- Temperature and top-p are passed through as opaque `real` values. Floating point is not modelled.
- `int(...)` on the persona's `max_tokens` is not modelled. The value is taken as an integer.
- `datetime.now()` and `uuid.uuid4()` are parameters.
- `ask_magi_system`'s `file_name` argument is unused in the code and is not modelled.
- `get_all_users`, `load_persona_config`, `save_*`, the model-fetching helpers, PDF/TXT text extraction, webhooks, the user interface and the password migration and verification scripts are not part of this model.
- The `try`/`except` around each SDK client constructor in `get_clients` is not modelled. The constructors are taken to succeed.
- Configuration errors that raise outside the modelled paths: a `seele_model` entry without `provider` or `name` raises `KeyError` inside the synthesis `try` (the code turns it into the `【警告】` warning; `ModelRef` always has both fields), and a malformed `api_keys.json` makes `get_clients()` raise before the `try` of `ask_philosopher`, aborting the whole deliberation. Neither is modelled.
- `str.lower()` is modelled on ASCII letters only. No other character lower-cases to a letter of `quota` or of any sentinel, so the two comparisons that use it are exact.
