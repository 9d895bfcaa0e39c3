/** The provider configuration: reading it back with its required keys
    repaired, and deciding which providers get a client. */
module Config {
  import opened Wrappers
  import opened Retry
  import opened Magi

  /** One provider's settings; absent keys are `None`. */
  datatype ProviderSettings = ProviderSettings(apiKey: Option<string>, baseUrl: Option<string>, models: seq<string>)

  /** The configuration file's two keys the system relies on; either may be
      absent from a file written by hand. */
  datatype ApiConfig = ApiConfig(seeleModel: Option<ModelRef>, providers: Option<map<string, ProviderSettings>>)

  const LOCAL := "local"
  /** The providers that get a client from an API key alone. */
  const KEYED_PROVIDERS: set<string> := {"google", "groq", "openai", "anthropic"}

  const DEFAULT_SEELE := ModelRef("google", "gemini-2.0-flash")
  const DEFAULT_LOCAL := ProviderSettings(Some("not-needed"), Some("http://localhost:11434/v1"), [])
  const EMPTY_KEYED := ProviderSettings(Some(""), None, [])
  const DEFAULT_PROVIDERS: map<string, ProviderSettings> :=
    map["google" := EMPTY_KEYED, "groq" := EMPTY_KEYED, "openai" := EMPTY_KEYED,
        "anthropic" := EMPTY_KEYED, LOCAL := DEFAULT_LOCAL]
  const DEFAULT_CONFIG := ApiConfig(Some(DEFAULT_SEELE), Some(DEFAULT_PROVIDERS))

  /** A configuration the rest of the system can rely on: a synthesis model, a
      provider table, and a local provider in it. */
  predicate Complete(c: ApiConfig) {
    c.seeleModel.Some? && c.providers.Some? && LOCAL in c.providers.value
  }

  /** The key repair: a missing provider table or synthesis model takes the
      default, and a missing local provider is added; present keys are kept. */
  function Repair(c: ApiConfig): (r: ApiConfig)
    ensures Complete(r)
    ensures c.seeleModel.Some? ==> r.seeleModel == c.seeleModel
    ensures c.seeleModel.None? ==> r.seeleModel == Some(DEFAULT_SEELE)
    ensures c.providers.None? ==> r.providers == Some(DEFAULT_PROVIDERS)
    ensures c.providers.Some? ==>
      && c.providers.value.Keys <= r.providers.value.Keys
      && r.providers.value.Keys <= c.providers.value.Keys + {LOCAL}
      && (forall p | p in c.providers.value :: r.providers.value[p] == c.providers.value[p])
      && (LOCAL !in c.providers.value ==> r.providers.value[LOCAL] == DEFAULT_LOCAL)
  {
    var providers := c.providers.GetOr(DEFAULT_PROVIDERS);
    var providers := if LOCAL in providers then providers else providers[LOCAL := DEFAULT_LOCAL];
    ApiConfig(Some(c.seeleModel.GetOr(DEFAULT_SEELE)), Some(providers))
  }

  /** Repairing changes nothing in a configuration that is already complete,
      so a second repair is the first. */
  lemma RepairIdempotent(c: ApiConfig)
    ensures Complete(c) ==> Repair(c) == c
    ensures Repair(Repair(c)) == Repair(c)
  {
    if Complete(c) {
      assert Repair(c).providers.value == c.providers.value;
    }
    var r := Repair(c);
    assert Repair(r).providers.value == r.providers.value;
  }

  /** Read the configuration: the file's contents when it could be read
      (`None` when it is missing or not valid JSON), otherwise the defaults;
      then repair the keys. */
  method LoadApiConfig(loaded: Option<ApiConfig>) returns (data: ApiConfig)
    ensures data == Repair(loaded.GetOr(DEFAULT_CONFIG))
    ensures Complete(data)
    ensures loaded.None? ==> data == DEFAULT_CONFIG
  {
    data := loaded.GetOr(DEFAULT_CONFIG);
    if data.providers.None? {
      data := data.(providers := Some(DEFAULT_PROVIDERS));
    }
    if data.seeleModel.None? {
      data := data.(seeleModel := Some(DEFAULT_SEELE));
    }
    if LOCAL !in data.providers.value {
      data := data.(providers := Some(data.providers.value[LOCAL := DEFAULT_LOCAL]));
    }
    RepairIdempotent(DEFAULT_CONFIG);
  }

  predicate NonEmpty(o: Option<string>) {
    o.Some? && o.value != ""
  }

  /** The providers that get a client: a keyed provider with a non-empty API
      key, and the local provider when it has a non-empty base URL. */
  function ConfiguredClients(c: ApiConfig): (clients: set<string>)
    ensures clients <= KNOWN_PROVIDERS
    ensures forall p :: p in clients <==>
      var ps := c.providers.GetOr(map[]);
      || (p in KEYED_PROVIDERS && p in ps && NonEmpty(ps[p].apiKey))
      || (p == LOCAL && LOCAL in ps && NonEmpty(ps[LOCAL].baseUrl))
  {
    var ps := c.providers.GetOr(map[]);
    (set p | p in KEYED_PROVIDERS && p in ps && NonEmpty(ps[p].apiKey))
      + (if LOCAL in ps && NonEmpty(ps[LOCAL].baseUrl) then {LOCAL} else {})
  }

  /** With the clients the configuration yields, a request is never refused
      as an unknown provider: the provider either has no client or is routed. */
  lemma ConfiguredRequestsRouted(c: ApiConfig, req: Request, adapter: Adapter, k: nat)
    ensures var clients := ConfiguredClients(c);
      && (req.provider !in clients ==> Attempt(req, clients, adapter, k) == Err(Classify(NotConfigured(req.provider))))
      && (req.provider in clients ==> Attempt(req, clients, adapter, k).Ok? == adapter(req, k).Reply?)
  {
  }

  /** Clients are made from the repaired configuration, so a file without a
      provider table or without a local entry still yields a local client. */
  lemma RepairedLocalClient(c: ApiConfig)
    requires c.providers.None? || LOCAL !in c.providers.value
    ensures LOCAL in ConfiguredClients(Repair(c))
  {
    assert Repair(c).providers.value[LOCAL] == DEFAULT_LOCAL;
  }

  /** Out of the box only the local provider has a client. */
  lemma DefaultClients()
    ensures ConfiguredClients(DEFAULT_CONFIG) == {LOCAL}
  {
    var ps := DEFAULT_PROVIDERS;
    assert forall p | p in KEYED_PROVIDERS && p in ps :: !NonEmpty(ps[p].apiKey);
    assert NonEmpty(ps[LOCAL].baseUrl);
  }
}
