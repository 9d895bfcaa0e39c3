/** The deliberation: each of the three MAGI units answers the question
    through its configured provider, an optional debate round lets every unit
    read the others' first opinions, the votes are scored, and an optional
    SEELE synthesis summarises the three opinions. */
module Magi {
  import opened Wrappers
  import opened Strings
  import opened Parser
  import opened Retry

  /** The three units, in the order their results are reported. */
  const MELCHIOR := "MELCHIOR"
  const BALTHASAR := "BALTHASAR"
  const CASPER := "CASPER"
  const JUDGES := [MELCHIOR, BALTHASAR, CASPER]

  /** Appended to every unit's system prompt and user prompt: asks for plain
      text and for one bracketed conclusion. */
  const OUTPUT_INSTRUCTION := "\n【重要：出力形式の遵守】\n1. 回答は**プレーンテキストのみ**で行ってください。HTMLタグ（<div>など）やMarkdownのコードブロックは絶対に使用しないでください。\n2. 回答の最後には、結論として以下のいずれか1つを必ず【】で囲んで出力してください。\n\n選択肢:\n1. 【是認】\n2. 【条件付是認】\n3. 【否認】\n\n出力フォーマット:\n理由: (思考プロセス)\n条件: (条件付是認の場合のみ記述。なければ「なし」)\n結論: 【是認】\n"

  /** The SEELE synthesis template, cut at its four placeholders. */
  const SEELE_HEAD := "\nあなたはゼーレ（SEELE）の最高幹部であり、MAGIシステムの審議結果を総括する責任者です。\nメルキオール、バルタザール、カスパーの3つの意見を統合し、組織としての最終的な意思決定および戦略的助言を行ってください。\n\n【入力データ】\n- 審議事項: "
  const SEELE_M := "\n- メルキオールの意見: "
  const SEELE_B := "\n- バルタザールの意見: "
  const SEELE_C := "\n- カスパーの意見: "
  const SEELE_TAIL := "\n\n【出力内容】\n1. 結論の要約（是認・条件付・否認の背景）\n2. 懸念点とその対策\n3. 戦略的アドバイス\n"
  const SEELE_SYSTEM := "SEELE SYSTEM ACTIVE."

  const DEBATE_PREAMBLE := "以下の他者の意見を読み込み、議論を深めた上であなたの最終結論を出してください。\n\n【他者の第一回意見】\n"
  const CONTEXT_HEADER := "【参考資料】\n"
  const QUESTION_LABEL := "審議事項: "
  const OPINION_SEPARATOR := "\n---\n"

  /** Verdict texts of the fail-closed paths. */
  const CONFIG_MISSING := "Config Missing"
  const CONFIG_SHORT := "設定不足"
  const AI_ERROR := "AI Error: "
  const ERROR_RAISED := "エラー発生"

  /** Sampling settings used when a persona does not give them. */
  const DEFAULT_TEMPERATURE: real := 0.7
  const DEFAULT_MAX_TOKENS: int := 4096
  const DEFAULT_TOP_P: real := 1.0
  const SEELE_TEMPERATURE: real := 0.4

  /** One unit's persona: display name, system prompt, provider and model,
      and optional sampling settings. */
  datatype Persona = Persona(
    name: string, prompt: string, provider: string, model: string,
    temperature: Option<real>, maxTokens: Option<int>, topP: Option<real>)

  /** A provider and model name, as configured for the SEELE synthesis. */
  datatype ModelRef = ModelRef(provider: string, name: string)

  /** Everything a deliberation reads from outside: the persona configuration
      (a unit absent from the map has no usable configuration), the providers
      with a configured client, the provider SDKs and the synthesis model. */
  datatype Env = Env(personas: map<string, Persona>, clients: set<string>, adapter: Adapter, seele: ModelRef)

  /** The outcome of one deliberation. */
  datatype Deliberation = Deliberation(results: seq<Verdict>, finalScore: int, summary: string)

  /** The question, preceded by the reference material when there is any, and
      followed by the output instruction. */
  function ContextPrompt(question: string, context: string): string {
    if context != [] then CONTEXT_HEADER + context + "\n\n" + QUESTION_LABEL + question + "\n" + OUTPUT_INSTRUCTION
    else QUESTION_LABEL + question + "\n" + OUTPUT_INSTRUCTION
  }

  /** The plain prompt carries the question and the context. */
  lemma ContextPromptCarries(question: string, context: string)
    ensures Contains(ContextPrompt(question, context), question)
    ensures Contains(ContextPrompt(question, context), context)
  {
    if context != [] {
      InfixOf(CONTEXT_HEADER + context + "\n\n" + QUESTION_LABEL, question, "\n");
      ContainsAppend(CONTEXT_HEADER + context + "\n\n" + QUESTION_LABEL + question + "\n", OUTPUT_INSTRUCTION, question);
      InfixOf(CONTEXT_HEADER, context, "\n\n");
      ContainsAppend(CONTEXT_HEADER + context + "\n\n", QUESTION_LABEL, context);
      ContainsAppend(CONTEXT_HEADER + context + "\n\n" + QUESTION_LABEL, question, context);
      ContainsAppend(CONTEXT_HEADER + context + "\n\n" + QUESTION_LABEL + question, "\n", context);
      ContainsAppend(CONTEXT_HEADER + context + "\n\n" + QUESTION_LABEL + question + "\n", OUTPUT_INSTRUCTION, context);
    } else {
      InfixOf(QUESTION_LABEL, question, "\n");
      ContainsAppend(QUESTION_LABEL + question + "\n", OUTPUT_INSTRUCTION, question);
      var p := ContextPrompt(question, context);
      assert OccursAt(p, context, 0);
      ContainsAt(p, context, 0);
    }
  }

  /** The user prompt: in a debate with others' opinions, the opinions come
      first, then the plain prompt; otherwise the plain prompt alone. */
  function UserPrompt(question: string, context: string, others: string, debate: bool): string {
    if debate && others != [] then DEBATE_PREAMBLE + others + "\n\n" + ContextPrompt(question, context)
    else ContextPrompt(question, context)
  }

  /** The user prompt always carries the question and the context, and in a
      debate the others' opinions; outside a debate it is the plain prompt. */
  lemma UserPromptCarries(question: string, context: string, others: string, debate: bool)
    ensures var u := UserPrompt(question, context, others, debate);
      && Contains(u, question) && Contains(u, context)
      && (debate ==> Contains(u, others))
      && (!debate || others == [] ==> u == ContextPrompt(question, context))
  {
    ContextPromptCarries(question, context);
    var c := ContextPrompt(question, context);
    if debate && others != [] {
      ContainsPrepend(DEBATE_PREAMBLE + others + "\n\n", c, question);
      ContainsPrepend(DEBATE_PREAMBLE + others + "\n\n", c, context);
      InfixOf(DEBATE_PREAMBLE, others, "\n\n");
      ContainsAppend(DEBATE_PREAMBLE + others + "\n\n", c, others);
    } else if debate {
      var u := UserPrompt(question, context, others, debate);
      assert OccursAt(u, others, 0);
      ContainsAt(u, others, 0);
    }
  }

  /** The request a unit sends: its prompt with the output instruction as
      system prompt, the user prompt for the question, context and others'
      opinions, and its sampling settings or the defaults. */
  function JudgeRequest(p: Persona, question: string, context: string, others: string, debate: bool): (req: Request)
    ensures req.provider == p.provider && req.model == p.model
    ensures req.system == p.prompt + OUTPUT_INSTRUCTION
    ensures req.user == UserPrompt(question, context, others, debate)
    ensures req.temperature == p.temperature.GetOr(DEFAULT_TEMPERATURE)
    ensures req.maxTokens == p.maxTokens.GetOr(DEFAULT_MAX_TOKENS)
    ensures req.topP == p.topP.GetOr(DEFAULT_TOP_P)
  {
    Request(p.provider, p.model, p.prompt + OUTPUT_INSTRUCTION, UserPrompt(question, context, others, debate),
            p.temperature.GetOr(DEFAULT_TEMPERATURE), p.maxTokens.GetOr(DEFAULT_MAX_TOKENS), p.topP.GetOr(DEFAULT_TOP_P))
  }

  /** One unit's verdict; every failure becomes a denial. */
  function Judge(env: Env, id: string, question: string, context: string, others: string, debate: bool): (v: Verdict)
    ensures IsVote(v.vote)
  {
    if id !in env.personas then Verdict(id, CONFIG_MISSING, DENY, CONFIG_SHORT)
    else
      var p := env.personas[id];
      match Retried(JudgeRequest(p, question, context, others, debate), env.clients, env.adapter)
      case Ok(text) => Parse(p.name, text)
      case Err(f) => Verdict(p.name, AI_ERROR + f.message, DENY, ERROR_RAISED)
  }

  /** A unit fails closed: without a persona it denies for missing
      configuration under its own id; when every attempt fails it denies with
      the last error's message under its persona's name; when an attempt
      succeeds, the verdict is the parsed reply. */
  lemma JudgeFailsClosed(env: Env, id: string, question: string, context: string, others: string, debate: bool)
    ensures var v := Judge(env, id, question, context, others, debate);
      && (id !in env.personas ==> v == Verdict(id, CONFIG_MISSING, DENY, CONFIG_SHORT))
      && (id in env.personas ==>
           var p := env.personas[id];
           var req := JudgeRequest(p, question, context, others, debate);
           && v.name == p.name
           && (AllFail(req, env.clients, env.adapter) ==>
                 v == Verdict(p.name, AI_ERROR + Attempt(req, env.clients, env.adapter, MAX_ATTEMPTS - 1).error.message, DENY, ERROR_RAISED))
           && (!AllFail(req, env.clients, env.adapter) ==>
                 exists n | 0 <= n < MAX_ATTEMPTS :: FirstSuccessAt(req, env.clients, env.adapter, n)
                   && v == Parse(p.name, Attempt(req, env.clients, env.adapter, n).value)))
  {
    if id in env.personas {
      var p := env.personas[id];
      var req := JudgeRequest(p, question, context, others, debate);
      RetriedMeaning(req, env.clients, env.adapter);
      if !AllFail(req, env.clients, env.adapter) {
        var n := AttemptsMade(req, env.clients, env.adapter) - 1;
        assert FirstSuccessAt(req, env.clients, env.adapter, n);
      }
    }
  }

  /** A unit whose provider has no client denies, naming that provider. */
  lemma JudgeUnconfigured(env: Env, id: string, question: string, context: string, others: string, debate: bool)
    requires id in env.personas && env.personas[id].provider !in env.clients
    ensures var p := env.personas[id];
      Judge(env, id, question, context, others, debate)
        == Verdict(p.name, AI_ERROR + NotConfigured(p.provider), DENY, ERROR_RAISED)
  {
    var p := env.personas[id];
    NotConfiguredRetried(JudgeRequest(p, question, context, others, debate), env.clients, env.adapter);
  }

  /** The three units' verdicts, in the order MELCHIOR, BALTHASAR, CASPER. */
  function Round(env: Env, question: string, context: string, others: string, debate: bool): (rs: seq<Verdict>)
    ensures |rs| == |JUDGES|
    ensures forall i | 0 <= i < |JUDGES| :: rs[i] == Judge(env, JUDGES[i], question, context, others, debate)
  {
    [Judge(env, MELCHIOR, question, context, others, debate),
     Judge(env, BALTHASAR, question, context, others, debate),
     Judge(env, CASPER, question, context, others, debate)]
  }

  /** Failure isolation: a unit's verdict depends on its own persona only, so a
      missing or failing configuration of one unit leaves the others' verdicts
      as they would otherwise be. */
  lemma RoundIsolation(p1: map<string, Persona>, p2: map<string, Persona>, clients: set<string>, adapter: Adapter,
                       seele: ModelRef, i: nat, question: string, context: string, others: string, debate: bool)
    requires i < |JUDGES|
    requires JUDGES[i] in p1 <==> JUDGES[i] in p2
    requires JUDGES[i] in p1 ==> p1[JUDGES[i]] == p2[JUDGES[i]]
    ensures Round(Env(p1, clients, adapter, seele), question, context, others, debate)[i]
         == Round(Env(p2, clients, adapter, seele), question, context, others, debate)[i]
  {
  }

  /** One opinion as the other units read it: "name: reason". */
  function Entry(v: Verdict): string {
    v.name + ": " + v.reason
  }

  function Entries(rs: seq<Verdict>): (es: seq<string>)
    ensures |es| == |rs| && forall i | 0 <= i < |rs| :: es[i] == Entry(rs[i])
  {
    seq(|rs|, i requires 0 <= i < |rs| => Entry(rs[i]))
  }

  /** The first-round opinions, separated by "---" lines. */
  function Transcript(rs: seq<Verdict>): string {
    Join(Entries(rs), OPINION_SEPARATOR)
  }

  /** Every opinion occurs in the transcript, and a non-empty round gives a
      non-empty transcript. */
  lemma TranscriptCarries(rs: seq<Verdict>)
    ensures forall i | 0 <= i < |rs| :: Contains(Transcript(rs), Entry(rs[i]))
    ensures rs != [] ==> Transcript(rs) != []
  {
    forall i | 0 <= i < |rs|
      ensures Contains(Transcript(rs), Entry(rs[i]))
    {
      JoinContainsEach(Entries(rs), OPINION_SEPARATOR, i);
    }
    if rs != [] {
      var e := Entry(rs[0]);
      assert Contains(Transcript(rs), e);
      assert |e| >= 2;
    }
  }

  /** The score of one vote; anything that is not a known vote counts as a
      denial. */
  function VoteScore(vote: string): (s: int)
    ensures -1 <= s <= 1
    ensures s == 1 <==> vote == APPROVE
    ensures s == 0 <==> vote == CONDITIONAL
  {
    if vote == APPROVE then 1 else if vote == CONDITIONAL then 0 else -1
  }

  /** The sum of the vote scores. */
  function Score(rs: seq<Verdict>): (s: int)
    ensures -|rs| <= s <= |rs|
    decreases |rs|
  {
    if rs == [] then 0 else VoteScore(rs[0].vote) + Score(rs[1..])
  }

  function CountVote(rs: seq<Verdict>, vote: string): (n: nat)
    ensures n <= |rs|
    decreases |rs|
  {
    if rs == [] then 0 else (if rs[0].vote == vote then 1 else 0) + CountVote(rs[1..], vote)
  }

  /** The score is the approvals less the votes that are neither approval nor
      conditional approval. */
  lemma {:induction false} ScoreCounts(rs: seq<Verdict>)
    ensures CountVote(rs, APPROVE) + CountVote(rs, CONDITIONAL) <= |rs|
    ensures Score(rs) == CountVote(rs, APPROVE) - (|rs| - CountVote(rs, APPROVE) - CountVote(rs, CONDITIONAL))
    decreases |rs|
  {
    if rs != [] {
      ScoreCounts(rs[1..]);
      assert APPROVE != CONDITIONAL;
    }
  }

  /** The score reaches its maximum exactly when every unit approves, and its
      minimum exactly when every unit votes neither approval nor conditional
      approval. */
  lemma {:induction false} ScoreExtremes(rs: seq<Verdict>)
    ensures Score(rs) == |rs| <==> forall i | 0 <= i < |rs| :: rs[i].vote == APPROVE
    ensures Score(rs) == -|rs| <==> forall i | 0 <= i < |rs| :: rs[i].vote != APPROVE && rs[i].vote != CONDITIONAL
    decreases |rs|
  {
    if rs != [] {
      ScoreExtremes(rs[1..]);
      assert forall i | 1 <= i < |rs| :: rs[i] == rs[1..][i - 1];
    }
  }

  /** Three approvals score 3, three denials -3, and one of each vote 0. */
  lemma ScoreExamples(a: Verdict, c: Verdict, d: Verdict)
    requires a.vote == APPROVE && c.vote == CONDITIONAL && d.vote == DENY
    ensures Score([a, a, a]) == 3
    ensures Score([d, d, d]) == -3
    ensures Score([a, c, d]) == 0
    ensures Score([a, a, c]) == 2
  {
    assert VoteScore(a.vote) == 1 && VoteScore(c.vote) == 0 && VoteScore(d.vote) == -1;
    assert Score([a]) == 1 && Score([c]) == 0 && Score([d]) == -1;
    assert Score([a, a]) == 2 && Score([d, d]) == -2 && Score([c, d]) == -1 && Score([a, c]) == 1;
  }

  /** The synthesis prompt: the template with the question and the three
      opinions in place. */
  function SeelePrompt(question: string, m: string, b: string, c: string): string {
    SEELE_HEAD + question + SEELE_M + m + SEELE_B + b + SEELE_C + c + SEELE_TAIL
  }

  /** The synthesis request: the configured model, the fixed system prompt,
      the template filled with the question and the three final rationales in
      unit order, temperature 0.4 and the default token limit and top-p. */
  function SeeleRequest(env: Env, question: string, rs: seq<Verdict>): (req: Request)
    requires |rs| == |JUDGES|
    ensures req.provider == env.seele.provider && req.model == env.seele.name
    ensures req.system == SEELE_SYSTEM && req.temperature == SEELE_TEMPERATURE
    ensures req.user == SeelePrompt(question, rs[0].reason, rs[1].reason, rs[2].reason)
    ensures req.maxTokens == DEFAULT_MAX_TOKENS && req.topP == DEFAULT_TOP_P
  {
    Request(env.seele.provider, env.seele.name, SEELE_SYSTEM,
            SeelePrompt(question, rs[0].reason, rs[1].reason, rs[2].reason),
            SEELE_TEMPERATURE, DEFAULT_MAX_TOKENS, DEFAULT_TOP_P)
  }

  /** The synthesis prompt carries the question and every unit's reasoning. */
  lemma SeelePromptCarries(question: string, m: string, b: string, c: string)
    ensures var s := SeelePrompt(question, m, b, c);
      Contains(s, question) && Contains(s, m) && Contains(s, b) && Contains(s, c)
  {
    InfixOf(SEELE_HEAD, question, SEELE_M);
    ContainsAppend(SEELE_HEAD + question + SEELE_M, m, question);
    ContainsAppend(SEELE_HEAD + question + SEELE_M + m, SEELE_B, question);
    ContainsAppend(SEELE_HEAD + question + SEELE_M + m + SEELE_B, b, question);
    ContainsAppend(SEELE_HEAD + question + SEELE_M + m + SEELE_B + b, SEELE_C, question);
    ContainsAppend(SEELE_HEAD + question + SEELE_M + m + SEELE_B + b + SEELE_C, c, question);
    ContainsAppend(SEELE_HEAD + question + SEELE_M + m + SEELE_B + b + SEELE_C + c, SEELE_TAIL, question);
    InfixOf(SEELE_HEAD + question + SEELE_M, m, SEELE_B);
    ContainsAppend(SEELE_HEAD + question + SEELE_M + m + SEELE_B, b, m);
    ContainsAppend(SEELE_HEAD + question + SEELE_M + m + SEELE_B + b, SEELE_C, m);
    ContainsAppend(SEELE_HEAD + question + SEELE_M + m + SEELE_B + b + SEELE_C, c, m);
    ContainsAppend(SEELE_HEAD + question + SEELE_M + m + SEELE_B + b + SEELE_C + c, SEELE_TAIL, m);
    InfixOf(SEELE_HEAD + question + SEELE_M + m + SEELE_B, b, SEELE_C);
    ContainsAppend(SEELE_HEAD + question + SEELE_M + m + SEELE_B + b + SEELE_C, c, b);
    ContainsAppend(SEELE_HEAD + question + SEELE_M + m + SEELE_B + b + SEELE_C + c, SEELE_TAIL, b);
    InfixOf(SEELE_HEAD + question + SEELE_M + m + SEELE_B + b + SEELE_C, c, SEELE_TAIL);
  }

  /** The text shown when the synthesis fails, quoting the error. */
  function SynthesisWarning(message: string): string {
    "【警告】ゼーレの介入に失敗しました（" + message + "）。三賢者の個別判断を確認してください。"
  }

  /** The SEELE summary: empty when synthesis is off, the model's reply when
      it answers, and a warning quoting the error otherwise. */
  function Summary(env: Env, question: string, rs: seq<Verdict>, synthesis: bool): string
    requires |rs| == |JUDGES|
  {
    if !synthesis then ""
    else match Retried(SeeleRequest(env, question, rs), env.clients, env.adapter)
      case Ok(text) => text
      case Err(f) => SynthesisWarning(f.message)
  }

  /** Synthesis off gives an empty summary; a synthesis whose every attempt
      fails gives the warning, which quotes the last error; otherwise the
      summary is the reply of the first successful attempt. */
  lemma SummaryCases(env: Env, question: string, rs: seq<Verdict>, synthesis: bool)
    requires |rs| == |JUDGES|
    ensures var s := Summary(env, question, rs, synthesis);
            var req := SeeleRequest(env, question, rs);
      && (!synthesis ==> s == "")
      && (synthesis && AllFail(req, env.clients, env.adapter) ==>
            var m := Attempt(req, env.clients, env.adapter, MAX_ATTEMPTS - 1).error.message;
            s == SynthesisWarning(m) && Contains(s, m))
      && (synthesis && !AllFail(req, env.clients, env.adapter) ==>
            exists n | 0 <= n < MAX_ATTEMPTS :: FirstSuccessAt(req, env.clients, env.adapter, n)
              && s == Attempt(req, env.clients, env.adapter, n).value)
  {
    var req := SeeleRequest(env, question, rs);
    RetriedMeaning(req, env.clients, env.adapter);
    if synthesis && AllFail(req, env.clients, env.adapter) {
      var m := Attempt(req, env.clients, env.adapter, MAX_ATTEMPTS - 1).error.message;
      InfixOf("【警告】ゼーレの介入に失敗しました（", m, "）。三賢者の個別判断を確認してください。");
    }
    if synthesis && !AllFail(req, env.clients, env.adapter) {
      assert FirstSuccessAt(req, env.clients, env.adapter, AttemptsMade(req, env.clients, env.adapter) - 1);
    }
  }

  /** The whole deliberation: a first round; with debate, a second round in
      which every unit reads the first-round transcript and which replaces the
      first; then the score and the summary of the final round. */
  function Deliberate(env: Env, question: string, context: string, debate: bool, synthesis: bool): (d: Deliberation)
    ensures |d.results| == |JUDGES|
  {
    var first := Round(env, question, context, "", false);
    var results := if debate then Round(env, question, context, Transcript(first), true) else first;
    Deliberation(results, Score(results), Summary(env, question, results, synthesis))
  }

  /** Without debate the results are the first round's, each unit having
      seen only the question and the context. With debate they are the second
      round's, and every second-round prompt carries each first-round opinion. */
  lemma DeliberateRounds(env: Env, question: string, context: string, debate: bool, synthesis: bool)
    ensures var d := Deliberate(env, question, context, debate, synthesis);
            var first := Round(env, question, context, "", false);
      && (!debate ==> d.results == first)
      && (debate ==> d.results == Round(env, question, context, Transcript(first), true))
      && (debate ==> forall i, j | 0 <= i < |JUDGES| && 0 <= j < |JUDGES| && JUDGES[i] in env.personas ::
            Contains(JudgeRequest(env.personas[JUDGES[i]], question, context, Transcript(first), true).user, Entry(first[j])))
  {
    var first := Round(env, question, context, "", false);
    TranscriptCarries(first);
    var t := Transcript(first);
    var u := UserPrompt(question, context, t, true);
    forall j | 0 <= j < |JUDGES|
      ensures Contains(u, Entry(first[j]))
    {
      ContainsPrepend(DEBATE_PREAMBLE, t, Entry(first[j]));
      ContainsAppend(DEBATE_PREAMBLE + t, "\n\n", Entry(first[j]));
      ContainsAppend(DEBATE_PREAMBLE + t + "\n\n", ContextPrompt(question, context), Entry(first[j]));
    }
    forall i, j | 0 <= i < |JUDGES| && 0 <= j < |JUDGES| && JUDGES[i] in env.personas
      ensures Contains(JudgeRequest(env.personas[JUDGES[i]], question, context, t, true).user, Entry(first[j]))
    {
      assert JudgeRequest(env.personas[JUDGES[i]], question, context, t, true).user == u;
    }
  }

  /** The final score lies between -3 and 3, is the approvals less the plain
      denials of the final round, and is 3 exactly when all three approve. */
  lemma DeliberateScore(env: Env, question: string, context: string, debate: bool, synthesis: bool)
    ensures var d := Deliberate(env, question, context, debate, synthesis);
      && -3 <= d.finalScore <= 3
      && d.finalScore == CountVote(d.results, APPROVE) - CountVote(d.results, DENY)
      && (d.finalScore == 3 <==> forall i | 0 <= i < 3 :: d.results[i].vote == APPROVE)
  {
    var d := Deliberate(env, question, context, debate, synthesis);
    ScoreCounts(d.results);
    ScoreExtremes(d.results);
    VotesCounted(d.results);
  }

  /** In a round of proper votes, the votes that are neither approval nor
      conditional approval are the denials. */
  lemma {:induction false} VotesCounted(rs: seq<Verdict>)
    requires forall i | 0 <= i < |rs| :: IsVote(rs[i].vote)
    ensures CountVote(rs, APPROVE) + CountVote(rs, CONDITIONAL) + CountVote(rs, DENY) == |rs|
    decreases |rs|
  {
    if rs != [] {
      assert forall i | 0 <= i < |rs[1..]| :: rs[1..][i] == rs[i + 1];
      VotesCounted(rs[1..]);
    }
  }

  /** One unit's deliberation: call its provider with retries and parse the
      reply, denying on every failure. */
  method AskPhilosopher(env: Env, id: string, question: string, context: string, others: string, debate: bool)
    returns (v: Verdict)
    ensures v == Judge(env, id, question, context, others, debate)
    ensures IsVote(v.vote)
  {
    if id !in env.personas {
      return Verdict(id, CONFIG_MISSING, DENY, CONFIG_SHORT);
    }
    var p := env.personas[id];
    var r, _, _ := CallProviderWithRetry(JudgeRequest(p, question, context, others, debate), env.clients, env.adapter);
    match r
    case Ok(text) => v := Parse(p.name, text);
    case Err(f) => v := Verdict(p.name, AI_ERROR + f.message, DENY, ERROR_RAISED);
  }

  /** The three units, asked in the order MELCHIOR, BALTHASAR, CASPER. */
  method AskRound(env: Env, question: string, context: string, others: string, debate: bool)
    returns (rs: seq<Verdict>)
    ensures rs == Round(env, question, context, others, debate)
  {
    var m := AskPhilosopher(env, MELCHIOR, question, context, others, debate);
    var b := AskPhilosopher(env, BALTHASAR, question, context, others, debate);
    var c := AskPhilosopher(env, CASPER, question, context, others, debate);
    rs := [m, b, c];
  }

  /** A full deliberation, as the user interface starts it. */
  method AskMagiSystem(env: Env, question: string, context: string, debate: bool, synthesis: bool)
    returns (d: Deliberation)
    ensures d == Deliberate(env, question, context, debate, synthesis)
    ensures |d.results| == 3 && -3 <= d.finalScore <= 3
    ensures !synthesis ==> d.summary == ""
  {
    var results := AskRound(env, question, context, "", false);
    if debate {
      var opinions := Transcript(results);
      results := AskRound(env, question, context, opinions, true);
    }
    var finalScore := Score(results);
    var summary := AskSeele(env, question, results, synthesis);
    d := Deliberation(results, finalScore, summary);
  }

  /** The SEELE synthesis step of a deliberation: nothing when it is off,
      otherwise one retried call whose failure becomes the warning. */
  method AskSeele(env: Env, question: string, results: seq<Verdict>, synthesis: bool) returns (summary: string)
    requires |results| == |JUDGES|
    ensures summary == Summary(env, question, results, synthesis)
    ensures !synthesis ==> summary == ""
  {
    summary := "";
    if synthesis {
      var r, _, _ := CallProviderWithRetry(SeeleRequest(env, question, results), env.clients, env.adapter);
      match r
      case Ok(text) => summary := text;
      case Err(f) => summary := SynthesisWarning(f.message);
    }
  }
}
