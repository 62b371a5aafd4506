/** The decision half of the LLM dispatcher: which model a request uses,
    which checks a cloud call must pass first and in what order, the chat URL
    of a local Ollama server, and the message list sent to Gemini. The HTTP
    requests and the parsing of their answers are not modelled: a request is
    represented by the `Call` it would make. */
module Providers {
  import opened Wrappers
  import opened Schema

  datatype Role = SystemRole | UserRole | AssistantRole

  datatype Message = Message(role: Role, content: string)

  datatype Variant = Big | Small

  /** `LLMRequestOptions`; temperature and token limit are passed through
      untouched and left out */
  datatype Request = Request(variant: Variant, messages: seq<Message>)

  /** Gemini's two roles */
  datatype GeminiRole = ModelRole | GeminiUser

  /** One entry of Gemini's `contents`, with its single text part */
  datatype Content = Content(role: GeminiRole, text: string)

  /** The request `callLLM` would send */
  datatype Call =
    | OllamaCall(url: string, model: string, messages: seq<Message>)
    | OpenAiCall(apiKey: string, model: string, messages: seq<Message>)
    | GroqCall(apiKey: string, model: string, messages: seq<Message>)
    | GeminiCall(apiKey: string, model: string, contents: seq<Content>)

  /** Why `callLLM` throws before any request */
  datatype LlmError =
    | ConsentRequired
    | NoProvider
    | KeyMissing(provider: ProviderName)
    | UnsupportedProvider(provider: ProviderName)

  // ---------------------------------------------------------------------------
  // Model choice and validation order

  /** The model a request uses: the big model in local mode whatever the
      variant; in API mode the one the variant names */
  function ChooseModel(config: LlmConfig, variant: Variant): (model: string)
    ensures config.mode == Local ==> model == config.bigModel
    ensures config.mode == Api && variant == Big ==> model == config.bigModel
    ensures config.mode == Api && variant == Small ==> model == config.smallModel
  {
    if config.mode == Local then config.bigModel
    else if variant == Big then config.bigModel else config.smallModel
  }

  /** `if (!config.apiKeys.x)`: an absent or empty key is missing */
  predicate HasKey(key: Option<string>) {
    key.Some? && key.value != ""
  }

  /** `callLLM(opts)` up to the request it sends, or the error it throws.
      The Gemini request carries the intended contents, `GeminiContents`;
      the conversion as written is `GeminiContentsAsWritten`. */
  function CallLlm(config: LlmConfig, request: Request): (r: Result<Call, LlmError>)
    ensures (r.Ok? && r.value.OllamaCall?) <==> config.mode == Local
    ensures r.Ok? && config.mode == Api ==> config.consentToSendData && config.provider.Some?
    ensures r.Ok? ==> r.value.model == ChooseModel(config, request.variant)
  {
    var model := ChooseModel(config, request.variant);
    if config.mode == Local then
      Ok(OllamaCall(OllamaChatUrl(config.ollamaBaseUrl), model, request.messages))
    else if !config.consentToSendData then Err(ConsentRequired)
    else if config.provider.None? then Err(NoProvider)
    else
      match config.provider.value
      case OpenAi =>
        if !HasKey(config.apiKeys.openai) then Err(KeyMissing(OpenAi))
        else Ok(OpenAiCall(config.apiKeys.openai.value, model, request.messages))
      case Groq =>
        if !HasKey(config.apiKeys.groq) then Err(KeyMissing(Groq))
        else Ok(GroqCall(config.apiKeys.groq.value, model, request.messages))
      case Gemini =>
        if !HasKey(config.apiKeys.gemini) then Err(KeyMissing(Gemini))
        else Ok(GeminiCall(config.apiKeys.gemini.value, model, GeminiContents(request.messages)))
      case Ollama => Err(UnsupportedProvider(Ollama))
  }

  /** Local mode always calls the Ollama server with the big model; consent,
      provider and keys are not looked at. */
  lemma LocalSkipsChecks(config: LlmConfig, request: Request)
    requires config.mode == Local
    ensures CallLlm(config, request) ==
              Ok(OllamaCall(OllamaChatUrl(config.ollamaBaseUrl), config.bigModel, request.messages))
    ensures forall consent: bool, provider: Option<ProviderName>, keys: ApiKeys ::
              CallLlm(config.(consentToSendData := consent, provider := provider, apiKeys := keys), request)
                == CallLlm(config, request)
  {
  }

  /** Without consent an API-mode call fails first, whatever the provider
      and keys. */
  lemma ConsentCheckedFirst(config: LlmConfig, request: Request)
    requires config.mode == Api && !config.consentToSendData
    ensures CallLlm(config, request) == Err(ConsentRequired)
    ensures forall provider: Option<ProviderName>, keys: ApiKeys ::
              CallLlm(config.(provider := provider, apiKeys := keys), request) == Err(ConsentRequired)
  {
  }

  /** The key that `callLLM` requires for a cloud provider */
  function KeyOf(keys: ApiKeys, provider: ProviderName): Option<string> {
    match provider
    case OpenAi => keys.openai
    case Groq => keys.groq
    case Gemini => keys.gemini
    case Ollama => None
  }

  /** With consent, an API-mode call fails exactly when no provider is
      chosen, the provider is the local one, or its key is missing; and it
      fails with that reason. Otherwise the request goes to the chosen
      provider with its key and the model the variant names. */
  lemma ApiOutcome(config: LlmConfig, request: Request)
    requires config.mode == Api && config.consentToSendData
    ensures config.provider.None? ==> CallLlm(config, request) == Err(NoProvider)
    ensures config.provider == Some(Ollama) ==> CallLlm(config, request) == Err(UnsupportedProvider(Ollama))
    ensures config.provider.Some? && config.provider.value != Ollama ==>
              var p := config.provider.value;
              (CallLlm(config, request).Err? <==> !HasKey(KeyOf(config.apiKeys, p)))
              && (!HasKey(KeyOf(config.apiKeys, p)) ==> CallLlm(config, request) == Err(KeyMissing(p)))
    ensures CallLlm(config, request).Ok? ==>
              var call := CallLlm(config, request).value;
              && call.model == (if request.variant == Big then config.bigModel else config.smallModel)
              && !call.OllamaCall?
              && call.apiKey == KeyOf(config.apiKeys, config.provider.value).value
              && call.apiKey != ""
              && (config.provider == Some(OpenAi) ==> call == OpenAiCall(call.apiKey, call.model, request.messages))
              && (config.provider == Some(Groq) ==> call == GroqCall(call.apiKey, call.model, request.messages))
              && (config.provider == Some(Gemini) ==>
                    call == GeminiCall(call.apiKey, call.model, GeminiContents(request.messages)))
  {
  }

  /** `throw new Error(...)`: the message of each error */
  function ErrorMessage(e: LlmError): string {
    match e
    case ConsentRequired => "Cloud LLM calls are blocked until you enable data-sharing consent in the options page."
    case NoProvider => "No LLM provider selected"
    case KeyMissing(p) => KeyLabel(p) + " API key missing"
    case UnsupportedProvider(p) => "Unsupported provider: " + ProviderId(p)
  }

  /** The provider's name in error messages */
  function KeyLabel(p: ProviderName): string {
    match p
    case OpenAi => "OpenAI"
    case Groq => "Groq"
    case Gemini => "Gemini"
    case Ollama => "Ollama"
  }

  /** The provider's name as stored in the configuration */
  function ProviderId(p: ProviderName): string {
    match p
    case OpenAi => "openai"
    case Groq => "groq"
    case Gemini => "gemini"
    case Ollama => "ollama"
  }

  // ---------------------------------------------------------------------------
  // Ollama

  const ChatPath: string := "/api/chat"

  /** `baseUrl.replace(/\/$/, '')`: one trailing slash removed */
  function DropTrailingSlash(url: string): (r: string)
    ensures |url| > 0 && url[|url| - 1] == '/' ==> r == url[..|url| - 1]
    ensures !(|url| > 0 && url[|url| - 1] == '/') ==> r == url
  {
    if |url| > 0 && url[|url| - 1] == '/' then url[..|url| - 1] else url
  }

  /** `${baseUrl}/api/chat` */
  function OllamaChatUrl(baseUrl: string): string {
    DropTrailingSlash(baseUrl) + ChatPath
  }

  /** At most one trailing slash is dropped: the URL is the base, less a
      single final slash if it has one, followed by the chat path; a base
      ending in two slashes keeps one. */
  lemma OllamaChatUrlSpec(baseUrl: string)
    ensures var u := OllamaChatUrl(baseUrl);
      && |u| == |baseUrl| + |ChatPath| - (if |baseUrl| > 0 && baseUrl[|baseUrl| - 1] == '/' then 1 else 0)
      && u[..|u| - |ChatPath|] == baseUrl[..|u| - |ChatPath|]
      && u[|u| - |ChatPath|..] == ChatPath
    ensures |baseUrl| >= 2 && baseUrl[|baseUrl| - 2] == '/' && baseUrl[|baseUrl| - 1] == '/' ==>
              OllamaChatUrl(baseUrl)[|baseUrl| - 2] == '/'
  {
    var u := OllamaChatUrl(baseUrl);
    var b := DropTrailingSlash(baseUrl);
    assert u[..|b|] == b;
    assert u[|b|..] == ChatPath;
  }

  // ---------------------------------------------------------------------------
  // Gemini

  /** `m.role === 'assistant' ? 'model' : 'user'` */
  function GeminiRoleOf(role: Role): GeminiRole {
    if role == AssistantRole then ModelRole else GeminiUser
  }

  function ToContent(m: Message): Content {
    Content(GeminiRoleOf(m.role), m.content)
  }

  /** `messages.find(m => m.role === 'system')` */
  function FirstSystem(messages: seq<Message>): (r: Option<Message>)
    ensures r.Some? ==> r.value in messages && r.value.role == SystemRole
    ensures r.None? <==> forall m :: m in messages ==> m.role != SystemRole
    decreases |messages|
  {
    if messages == [] then None
    else if messages[0].role == SystemRole then Some(messages[0])
    else FirstSystem(messages[1..])
  }

  /** `messages.map(...)` into Gemini contents */
  function MapContents(messages: seq<Message>): (r: seq<Content>)
    ensures |r| == |messages|
    ensures forall i :: 0 <= i < |r| ==> r[i] == ToContent(messages[i])
    decreases |messages|
  {
    if messages == [] then [] else [ToContent(messages[0])] + MapContents(messages[1..])
  }

  /** The non-system messages, in order */
  function NonSystem(messages: seq<Message>): (r: seq<Message>)
    ensures forall m :: m in r <==> m in messages && m.role != SystemRole
    ensures |r| <= |messages|
    decreases |messages|
  {
    if messages == [] then []
    else if messages[0].role == SystemRole then NonSystem(messages[1..])
    else [messages[0]] + NonSystem(messages[1..])
  }

  /** The first entry's text with the system text in front */
  function MergeSystem(system: Option<Message>, contents: seq<Content>): (r: seq<Content>)
    ensures |r| == |contents|
    ensures forall i :: 0 < i < |r| ==> r[i] == contents[i]
    ensures |r| > 0 ==> r[0].role == contents[0].role
    ensures |r| > 0 && system.Some? ==> r[0].text == system.value.content + "\n\n" + contents[0].text
    ensures system.None? ==> r == contents
  {
    if system.Some? && |contents| > 0 then
      contents[0 := contents[0].(text := system.value.content + "\n\n" + contents[0].text)]
    else contents
  }

  /** The role name an entry is sent with */
  function RoleName(r: GeminiRole): string {
    if r == ModelRole then "model" else "user"
  }

  /** `.filter(c => c.role !== name)` on converted entries */
  function DropRoleNamed(contents: seq<Content>, name: string): (r: seq<Content>)
    ensures forall c :: c in r <==> c in contents && RoleName(c.role) != name
    decreases |contents|
  {
    if contents == [] then []
    else if RoleName(contents[0].role) == name then DropRoleNamed(contents[1..], name)
    else [contents[0]] + DropRoleNamed(contents[1..], name)
  }

  /** No converted entry is named "system", so `callGemini`'s filter removes
      nothing. */
  lemma {:induction false} SystemFilterKeepsAll(contents: seq<Content>)
    ensures DropRoleNamed(contents, "system") == contents
    decreases |contents|
  {
    if contents != [] {
      SystemFilterKeepsAll(contents[1..]);
      assert RoleName(contents[0].role) != "system";
    }
  }

  /** The contents `callGemini` builds, as written: the filter looks at the
      converted role, so it keeps every entry and the system text also stays
      in the list as a user entry. */
  function GeminiContentsAsWritten(messages: seq<Message>): seq<Content> {
    MergeSystem(FirstSystem(messages), DropRoleNamed(MapContents(messages), "system"))
  }

  /** The contents with system messages left out of the list and only merged
      into the first remaining entry, as the comments in `callGemini` say */
  function GeminiContents(messages: seq<Message>): seq<Content> {
    MergeSystem(FirstSystem(messages), MapContents(NonSystem(messages)))
  }

  /** As written, a system prompt followed by a user message sends the system
      text twice: once as a user entry of its own, and once merged into
      that same entry. */
  lemma AsWrittenDuplicatesSystem(system: string, user: string)
    ensures var sent := GeminiContentsAsWritten([Message(SystemRole, system), Message(UserRole, user)]);
      && |sent| == 2
      && sent[0] == Content(GeminiUser, system + "\n\n" + system)
      && sent[1] == Content(GeminiUser, user)
  {
    var ms := [Message(SystemRole, system), Message(UserRole, user)];
    assert FirstSystem(ms) == Some(ms[0]);
    SystemFilterKeepsAll(MapContents(ms));
  }

  /** With the filter on message roles, the same conversation is one user
      entry carrying the system text once, then the user text. */
  lemma ContentsMergeSystemOnce(system: string, user: string)
    ensures GeminiContents([Message(SystemRole, system), Message(UserRole, user)]) ==
              [Content(GeminiUser, system + "\n\n" + user)]
  {
    var ms := [Message(SystemRole, system), Message(UserRole, user)];
    assert FirstSystem(ms) == Some(ms[0]);
    assert ms[1..] == [Message(UserRole, user)];
    assert NonSystem(ms) == [Message(UserRole, user)];
  }

  /** What Gemini receives: exactly the non-system messages, in order, with
      assistant turns as "model" and all others as "user"; the first of them
      carries the first system text and a blank line in front when there is
      a system message; no entry has a system message's role. */
  lemma GeminiContentsSpec(messages: seq<Message>)
    ensures var kept := NonSystem(messages);
      var sent := GeminiContents(messages);
      && |sent| == |kept|
      && (forall i :: 0 < i < |sent| ==> sent[i] == ToContent(kept[i]))
      && (|sent| > 0 ==> sent[0].role == GeminiRoleOf(kept[0].role))
      && (|sent| > 0 && FirstSystem(messages).None? ==> sent[0] == ToContent(kept[0]))
      && (|sent| > 0 && FirstSystem(messages).Some? ==>
            sent[0].text == FirstSystem(messages).value.content + "\n\n" + kept[0].content)
      && (forall m :: m in kept ==> m.role != SystemRole)
  {
  }

  /** `callGemini`'s conversion as written: every message converted, the
      converted entries filtered on their role, then the first entry updated
      in place */
  method ConvertForGemini(messages: seq<Message>) returns (finalContents: array<Content>)
    ensures fresh(finalContents)
    ensures finalContents[..] == GeminiContentsAsWritten(messages)
  {
    var kept := DropRoleNamed(MapContents(messages), "system");
    finalContents := new Content[|kept|](i requires 0 <= i < |kept| => kept[i]);
    assert finalContents[..] == kept;
    var systemMsg := FirstSystem(messages);
    if systemMsg.Some? && finalContents.Length > 0 {
      finalContents[0] := finalContents[0].(text := systemMsg.value.content + "\n\n" + finalContents[0].text);
    }
    assert finalContents[..] == MergeSystem(systemMsg, kept);
  }
}
