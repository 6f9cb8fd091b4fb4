/** The retrieval-answer pipeline of the search script: client bootstrap from
    the environment, the `chain(q, k)` function (similarity search, context
    formatting, refusal short-circuit, prompt, model call, fallback), and the
    `search_prompt` entry point that either hands out `chain` or runs it once.
    The vector store and the chat model are parameters. */
module Search {
  import opened Wrappers
  import opened Text
  import opened Errors
  import opened Config
  import opened Context
  import opened Prompt

  /** `store.similarity_search_with_score(q, k=k)`: the ranked results, or what it raised. */
  type Retriever = (string, int) -> Result<seq<ScoredChunk>, Failure>

  /** `llm.invoke(prompt).content`: the reply text (`None` when the reply had
      no content), or what the call raised. */
  type ChatModel = string -> Result<Option<string>, Failure>

  /** `int(os.getenv("TOPK", "10"))`'s parser: `int()` on a set value. */
  type IntParser = string -> Result<int, Failure>

  const DefaultTopK: int := 10
  const DefaultChatModel: string := "gpt-4o-mini"
  const DefaultTemperature: string := "0"

  /** The settings `_load_clients` refuses to start without, in checking order. */
  const Required: seq<string> := ["OPENAI_API_KEY", "DATABASE_URL", "PGVECTOR_COLLECTION"]

  /** What the three client handles are built from. */
  datatype Clients = Clients(
    embeddingModel: string,
    chatModel: string,
    temperature: string,  // the text `float()` is applied to
    collection: string,
    connection: string)

  /** `_load_clients`: fail fast on the first unset required setting, then
      read the optional ones with their defaults. */
  function LoadClients(env: Env): (r: Result<Clients, Failure>)
    ensures r.Success? <==> IsSet(env, "OPENAI_API_KEY") && IsSet(env, "DATABASE_URL") && IsSet(env, "PGVECTOR_COLLECTION")
    ensures r.Success? ==> r.value.collection == env["PGVECTOR_COLLECTION"] && r.value.connection == env["DATABASE_URL"]
  {
    match CheckRequired(env, Required)
    case Failure(e) => Failure(e)
    case Success(_) =>
      assert IsSet(env, Required[1]) && IsSet(env, Required[2]);
      Success(Clients(
        GetEnv(env, "OPENAI_EMBEDDING_MODEL", DefaultEmbeddingModel),
        GetEnv(env, "OPENAI_CHAT_MODEL", DefaultChatModel),
        GetEnv(env, "OPENAI_TEMPERATURE", DefaultTemperature),
        env["PGVECTOR_COLLECTION"],
        env["DATABASE_URL"]))
  }

  /** The error names the first unset setting, checked in the order API key,
      database URL, collection. */
  lemma LoadClientsReportsFirstUnset(env: Env, i: nat)
    requires i < |Required|
    requires forall j :: 0 <= j < i ==> IsSet(env, Required[j])
    requires !IsSet(env, Required[i])
    ensures LoadClients(env) == Failure(MissingSetting(Required[i]))
  {
    CheckRequiredNamesFirstUnset(env, Required, i);
  }

  /** Optional model names take their defaults only when absent. */
  lemma LoadClientsDefaults(env: Env)
    requires LoadClients(env).Success?
    ensures "OPENAI_EMBEDDING_MODEL" !in env ==> LoadClients(env).value.embeddingModel == "text-embedding-3-small"
    ensures "OPENAI_CHAT_MODEL" !in env ==> LoadClients(env).value.chatModel == "gpt-4o-mini"
    ensures "OPENAI_TEMPERATURE" !in env ==> LoadClients(env).value.temperature == "0"
    ensures "OPENAI_CHAT_MODEL" in env ==> LoadClients(env).value.chatModel == env["OPENAI_CHAT_MODEL"]
    ensures "OPENAI_EMBEDDING_MODEL" in env ==> LoadClients(env).value.embeddingModel == env["OPENAI_EMBEDDING_MODEL"]
    ensures "OPENAI_TEMPERATURE" in env ==> LoadClients(env).value.temperature == env["OPENAI_TEMPERATURE"]
  {
  }

  /** One run of `chain`: the prompts it sent to the model (none or one) and
      its answer or the error it let through. */
  datatype ChainRun = ChainRun(prompts: seq<string>, result: Result<string, Failure>)

  /** The inner `chain(q, k)`. */
  function Chain(q: string, k: int, search: Retriever, llm: ChatModel): (run: ChainRun)
    ensures |run.prompts| <= 1
    ensures run.result.Success? ==> run.result.value != ""
    ensures run.result.Success? ==> run.result.value == NoInfo || Trimmed(run.result.value)
  {
    match search(q, k)
    case Failure(e) => ChainRun([], Failure(e))
    case Success(hits) =>
      var context := FormatContext(hits);
      if IsBlank(context) then ChainRun([], Success(NoInfo))
      else
        var prompt := BuildPrompt(context, q);
        Reply(prompt, llm(prompt))
  }

  /** The end of `chain` once `prompt` was sent: the model's error, or its
      reply stripped, with the refusal standing in for an empty reply. */
  function Reply(prompt: string, reply: Result<Option<string>, Failure>): (run: ChainRun)
    ensures run.prompts == [prompt]
    ensures run.result.Success? ==> run.result.value != ""
    ensures run.result.Success? ==> run.result.value == NoInfo || Trimmed(run.result.value)
  {
    match reply
    case Failure(e) => ChainRun([prompt], Failure(e))
    case Success(content) =>
      var answer := Strip(content.GetOr(""));
      ChainRun([prompt], Success(if answer != "" then answer else NoInfo))
  }

  /** Once the search found something, `chain` sends the prompt built from the
      results and ends as the model's reply says. */
  lemma ChainWithResults(q: string, k: int, search: Retriever, llm: ChatModel)
    requires search(q, k).Success? && |search(q, k).value| > 0
    ensures
      var prompt := BuildPrompt(FormatContext(search(q, k).value), q);
      Chain(q, k, search, llm) == Reply(prompt, llm(prompt))
  {
    var hits := search(q, k).value;
    BlankIffNoResults(hits);
    assert !IsBlank(FormatContext(hits));
  }

  /** No results: the refusal, and the model is never called, whatever it is. */
  lemma ChainNoResults(q: string, k: int, search: Retriever, llm: ChatModel)
    requires search(q, k) == Success([])
    ensures Chain(q, k, search, llm) == ChainRun([], Success(NoInfo))
  {
    BlankIffNoResults([]);
  }

  /** The model is called exactly when the search succeeded with at least one
      result. */
  lemma ChainCallsModelIffResults(q: string, k: int, search: Retriever, llm: ChatModel)
    ensures |Chain(q, k, search, llm).prompts| == 1
        <==> search(q, k).Success? && |search(q, k).value| > 0
  {
    match search(q, k)
    case Failure(_) =>
    case Success(hits) =>
      if |hits| == 0 {
        ChainNoResults(q, k, search, llm);
      } else {
        ChainPromptFromResults(q, k, search, llm);
      }
  }

  /** The one prompt the model receives is built from the formatted results
      and the question. */
  lemma ChainPromptFromResults(q: string, k: int, search: Retriever, llm: ChatModel)
    requires search(q, k).Success? && |search(q, k).value| > 0
    ensures Chain(q, k, search, llm).prompts == [BuildPrompt(FormatContext(search(q, k).value), q)]
  {
    ChainWithResults(q, k, search, llm);
  }

  /** What the answer is once the model replied: its reply stripped, or the
      refusal when the reply is missing or only whitespace. */
  lemma ChainAnswer(q: string, k: int, search: Retriever, llm: ChatModel, content: Option<string>)
    requires search(q, k).Success? && |search(q, k).value| > 0
    requires llm(BuildPrompt(FormatContext(search(q, k).value), q)) == Success(content)
    ensures content.None? ==> Chain(q, k, search, llm).result == Success(NoInfo)
    ensures content.Some? && IsBlank(content.value) ==> Chain(q, k, search, llm).result == Success(NoInfo)
    ensures content.Some? && !IsBlank(content.value) ==>
      Chain(q, k, search, llm).result == Success(Strip(content.value))
  {
    ChainWithResults(q, k, search, llm);
  }

  /** Errors of either service reach the caller unchanged. */
  lemma ChainPropagates(q: string, k: int, search: Retriever, llm: ChatModel)
    ensures search(q, k).Failure? ==>
      Chain(q, k, search, llm) == ChainRun([], Failure(search(q, k).error))
    ensures search(q, k).Success? && |search(q, k).value| > 0
            && llm(BuildPrompt(FormatContext(search(q, k).value), q)).Failure? ==>
      Chain(q, k, search, llm).result == Failure(llm(BuildPrompt(FormatContext(search(q, k).value), q)).error)
  {
    match search(q, k)
    case Failure(_) =>
    case Success(hits) =>
      if |hits| > 0 {
        ChainWithResults(q, k, search, llm);
      }
  }

  /** `chain` consults the store only for `(q, k)` and the model only on the
      prompts it records: services that agree there give the same run. */
  lemma ChainDependsOnlyOnItsCalls(q: string, k: int, s1: Retriever, s2: Retriever, m1: ChatModel, m2: ChatModel)
    requires s1(q, k) == s2(q, k)
    requires forall p :: p in Chain(q, k, s1, m1).prompts ==> m1(p) == m2(p)
    ensures Chain(q, k, s1, m1) == Chain(q, k, s2, m2)
  {
    match s1(q, k)
    case Failure(_) =>
    case Success(hits) =>
      if |hits| == 0 {
        ChainNoResults(q, k, s1, m1);
        ChainNoResults(q, k, s2, m2);
      } else {
        ChainWithResults(q, k, s1, m1);
        ChainWithResults(q, k, s2, m2);
      }
  }

  /** `k` for an immediate run: `TOPK` when set (through `int()`), else 10. */
  function TopK(env: Env, parse: IntParser): Result<int, Failure>
  {
    if "TOPK" in env then parse(env["TOPK"]) else Success(DefaultTopK)
  }

  /** What `search_prompt` hands back: the reusable `chain`, or the answer of
      a one-shot run. */
  datatype Dispatch = ChainReady(clients: Clients) | OneShot(answer: string)

  /** `search_prompt(question)`. */
  function SearchPrompt(question: Option<string>, env: Env, parse: IntParser,
                        search: Retriever, llm: ChatModel): Result<Dispatch, Failure>
  {
    match LoadClients(env)
    case Failure(e) => Failure(e)
    case Success(clients) =>
      match question
      case None => Success(ChainReady(clients))
      case Some(q) =>
        match TopK(env, parse)
        case Failure(e) => Failure(e)
        case Success(k) =>
          match Chain(q, k, search, llm).result
          case Failure(e) => Failure(e)
          case Success(answer) => Success(OneShot(answer))
  }

  /** Without a question `search_prompt` returns the chain, with one it
      returns that chain's answer for `k` from `TOPK` (10 when unset); a
      configuration error comes first in both modes, and a `TOPK` that `int()`
      rejects ends the one-shot run before any search, with `int()`'s error. */
  lemma SearchPromptModes(question: Option<string>, env: Env, parse: IntParser,
                          search: Retriever, llm: ChatModel)
    ensures LoadClients(env).Failure? ==>
      SearchPrompt(question, env, parse, search, llm) == Failure(LoadClients(env).error)
    ensures LoadClients(env).Success? && question.None? ==>
      SearchPrompt(question, env, parse, search, llm) == Success(ChainReady(LoadClients(env).value))
    ensures LoadClients(env).Success? && question.Some? && "TOPK" !in env ==>
      match Chain(question.value, 10, search, llm).result
      case Success(a) => SearchPrompt(question, env, parse, search, llm) == Success(OneShot(a))
      case Failure(e) => SearchPrompt(question, env, parse, search, llm) == Failure(e)
    ensures LoadClients(env).Success? && question.Some? && "TOPK" in env && parse(env["TOPK"]).Failure? ==>
      SearchPrompt(question, env, parse, search, llm) == Failure(parse(env["TOPK"]).error)
    ensures LoadClients(env).Success? && question.Some? && "TOPK" in env && parse(env["TOPK"]).Success? ==>
      match Chain(question.value, parse(env["TOPK"]).value, search, llm).result
      case Success(a) => SearchPrompt(question, env, parse, search, llm) == Success(OneShot(a))
      case Failure(e) => SearchPrompt(question, env, parse, search, llm) == Failure(e)
  {
  }

  /** A one-shot answer is never empty. */
  lemma SearchPromptAnswerNonEmpty(question: Option<string>, env: Env, parse: IntParser,
                                   search: Retriever, llm: ChatModel)
    requires SearchPrompt(question, env, parse, search, llm).Success?
    requires SearchPrompt(question, env, parse, search, llm).value.OneShot?
    ensures SearchPrompt(question, env, parse, search, llm).value.answer != ""
  {
  }
}
