/** The records the extension keeps in its key-value storage, with the fields
    the modelled code reads, and the default values it falls back to. */
module Schema {
  import opened Wrappers

  /** A stored CV profile. Optional fields of the stored record are `Option`s;
      `skills` may be missing from records written by older versions. */
  datatype UserProfile = UserProfile(
    id: string,
    cvName: string,
    summary: string,
    fullName: Option<string>,
    email: Option<string>,
    phone: Option<string>,
    linkedin: Option<string>,
    github: Option<string>,
    portfolio: Option<string>,
    location: string,
    resumeData: Option<string>,
    resumeName: Option<string>,
    skills: Option<seq<string>>,
    lastUpdated: int)

  datatype UserPreferences = UserPreferences(
    preferredRoleTitles: seq<string>,
    preferredLocations: seq<string>,
    remoteOnly: bool,
    relocationOk: bool,
    salaryMin: int,
    salaryMax: int,
    currency: string,
    noticePeriod: string,
    yearsOfExperience: int,
    visaSponsorshipRequired: bool)

  datatype LlmMode = Local | Api

  datatype ProviderName = Ollama | OpenAi | Groq | Gemini

  datatype ApiKeys = ApiKeys(openai: Option<string>, groq: Option<string>, gemini: Option<string>)

  datatype LlmConfig = LlmConfig(
    mode: LlmMode,
    provider: Option<ProviderName>,
    consentToSendData: bool,
    apiKeys: ApiKeys,
    bigModel: string,
    smallModel: string,
    ollamaBaseUrl: string)

  datatype JobDescription = JobDescription(
    id: string, text: string, sourceUrl: string, timestamp: int, title: Option<string>)

  datatype SessionStatus = InProgress | Completed

  datatype ApplicationSession = ApplicationSession(
    id: string,
    createdAt: int,
    stepsVisited: seq<string>,
    currentStep: string,
    jobDescriptionId: Option<string>,
    cvProfileId: Option<string>,
    status: SessionStatus)

  const DefaultLlmConfig := LlmConfig(
    Local, None, false, ApiKeys(None, None, None),
    "llama3:70b", "llama3:8b", "http://localhost:11434")

  const DefaultPreferences := UserPreferences(
    [], [], false, true, 0, 0, "USD", "2 weeks", 0, false)
}
