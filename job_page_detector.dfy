/** Rule-based detection of job-application pages: weighted signals from the
    URL, the host, structured data, the page text and its forms, summed and
    compared with a threshold. */
module JobPageDetector {
  import opened Wrappers
  import opened Strings
  import opened Dom

  // ---------------------------------------------------------------------------
  // Configuration

  const Threshold: nat := 6
  const MaxTextLength: nat := 45000
  const FormTextLength: nat := 8000
  const FormMinFields: nat := 5

  const UrlKeywords: seq<string> := [
    "job", "jobs", "career", "careers", "position", "positions", "vacancy",
    "vacancies", "recruit", "apply", "join-us", "work-with-us", "opening", "openings"
  ]

  const AtsDomains: seq<string> := [
    "greenhouse.io", "boards.greenhouse.io", "lever.co", "jobs.lever.co",
    "myworkdayjobs.com", "workdayjobs.com", "smartrecruiters.com", "ashbyhq.com",
    "jobs.ashbyhq.com", "bamboohr.com", "icims.com", "jobvite.com", "workable.com",
    "personio.de", "recruitee.com", "teamtailor.com"
  ]

  const JobDescriptionKeywords: seq<string> := [
    "job description", "about the role", "role description", "responsibilities",
    "what you will do", "what you'll do", "requirements", "qualifications", "skills",
    "benefits", "compensation", "salary range",
    "iş tanımı", "pozisyon", "pozisyon detayları", "sorumluluklar", "görev tanımı",
    "görevleriniz", "aranan nitelikler", "genel nitelikler", "başvuru koşulları"
  ]

  const ApplyActionKeywords: seq<string> := [
    "apply", "apply now", "submit application", "start application", "apply for this job",
    "başvur", "şimdi başvur", "başvuru formu", "online başvuru"
  ]

  const ResumeKeywords: seq<string> := [
    "resume", "résumé", "cv ", "cv.", "curriculum vitae", "cover letter",
    "linkedin profile", "attach your resume",
    "özgeçmiş", "cv'nizi", "özgeçmişinizi yükleyin"
  ]

  const FormApplyTexts: seq<string> := [
    "apply", "apply now", "submit", "submit application", "başvur", "şimdi başvur"
  ]

  // ---------------------------------------------------------------------------
  // Text normalisation

  /** `normalize(text, maxLength)`: trim, lower-case, collapse whitespace runs
      to one space, keep at most `maxLength` characters */
  function Normalize(text: string, maxLength: nat): (r: string)
    ensures |r| <= maxLength
  {
    var full := Collapse(ToLower(Trim(text)));
    if |full| <= maxLength then full else full[..maxLength]
  }

  /** The normalised text is the start of the trimmed, lower-cased and
      collapsed text, and all of it when that fits. */
  lemma NormalizePrefix(text: string, maxLength: nat)
    ensures var full := Collapse(ToLower(Trim(text)));
      && StartsWith(full, Normalize(text, maxLength))
      && (|full| <= maxLength ==> Normalize(text, maxLength) == full)
  {
  }

  /** The normalised text is lower-case, starts with no whitespace and has
      only single spaces between words. */
  lemma NormalizeShape(text: string, maxLength: nat)
    ensures var r := Normalize(text, maxLength);
      && (forall i :: 0 <= i < |r| ==> !IsUpper(r[i]))
      && SingleSpaced(r) && NoLeadingWs(r)
  {
    var t := ToLower(Trim(text));
    var full := Collapse(t);
    var r := Normalize(text, maxLength);
    ToLowerKeepsWs(Trim(text));
    CollapseNoLeadingWs(t);
    CollapseShape(t);
    CollapseKeepsLower(t);
    SingleSpacedSlice(full, 0, |r|);
    assert full[0..|r|] == r;
  }

  // ---------------------------------------------------------------------------
  // Structured data (JSON-LD)

  /** A value produced by `JSON.parse`; an object keeps its members in order */
  datatype Json =
    | JNull
    | JBool(b: bool)
    | JNum(n: int)
    | JStr(s: string)
    | JArr(items: seq<Json>)
    | JObj(members: seq<Member>)

  datatype Member = Member(key: string, value: Json)

  /** `typeof v === 'object' && v !== null` */
  predicate IsObject(v: Json) { v.JArr? || v.JObj? }

  /** Position of the member named `key`; when `JSON.parse` meets a key twice
      the later member wins, so this is the last position */
  function MemberIndex(members: seq<Member>, key: string): (r: Option<nat>)
    ensures r.Some? ==> r.value < |members| && members[r.value].key == key
    ensures r.Some? ==> forall j :: r.value < j < |members| ==> members[j].key != key
    ensures r.None? ==> forall i :: 0 <= i < |members| ==> members[i].key != key
  {
    if members == [] then None
    else if members[|members| - 1].key == key then Some(|members| - 1)
    else MemberIndex(members[..|members| - 1], key)
  }

  /** The member at position `i` is the one `JSON.parse` keeps for its key: no
      later member repeats the key. Only kept members are seen by
      `Object.values`. */
  predicate Kept(members: seq<Member>, i: nat)
    requires i < |members|
  {
    MemberIndex(members, members[i].key) == Some(i)
  }

  /** `value[key]`, `None` standing for `undefined` */
  function Get(v: Json, key: string): Option<Json> {
    if v.JObj? then
      match MemberIndex(v.members, key)
      case Some(i) => Some(v.members[i].value)
      case None => None
    else None
  }

  /** `value['@type'] ?? value.type` */
  function TypeField(v: Json): Option<Json> {
    var t := Get(v, "@type");
    if t.Some? && t.value != JNull then t else Get(v, "type")
  }

  /** "jobposting", or a URL ending in "/jobposting", in any case */
  predicate MatchesType(t: string) {
    ToLower(t) == "jobposting" || EndsWith(ToLower(t), "/jobposting")
  }

  /** The type field is a matching string or an array holding one */
  predicate TypeFieldMatches(tf: Option<Json>) {
    && tf.Some?
    && ((tf.value.JStr? && MatchesType(tf.value.s))
        || (tf.value.JArr? &&
              exists i :: 0 <= i < |tf.value.items| && tf.value.items[i].JStr? && MatchesType(tf.value.items[i].s)))
  }

  /** `@graph`, when it is an array: its member position */
  function GraphIndex(v: Json): (r: Option<nat>)
    ensures r.Some? ==> v.JObj? && r.value < |v.members| && v.members[r.value].value.JArr?
  {
    if v.JObj? then
      match MemberIndex(v.members, "@graph")
      case Some(i) => if v.members[i].value.JArr? then Some(i) else None
      case None => None
    else None
  }

  /** `hasJobPostingType(candidate, depth)` */
  function HasJobPostingType(v: Json, depth: nat): (r: bool)
    ensures depth > 4 || !IsObject(v) ==> !r
    ensures depth <= 4 && IsObject(v) && TypeFieldMatches(TypeField(v)) ==> r
    decreases v
  {
    if depth > 4 || !IsObject(v) then false
    else if TypeFieldMatches(TypeField(v)) then true
    else if v.JArr? then
      exists i :: 0 <= i < |v.items| && HasJobPostingType(v.items[i], depth + 1)
    else if GraphIndex(v).Some? then
      HasJobPostingType(v.members[GraphIndex(v).value].value, depth + 1)
    else
      exists i :: 0 <= i < |v.members| && Kept(v.members, i) &&
        (v.members[i].value.JNull? || IsObject(v.members[i].value)) &&
        HasJobPostingType(v.members[i].value, depth + 1)
  }

  /** An object whose type matches occurs somewhere inside `v`, at any depth
      and under any key: the reference the bounded search is checked against */
  predicate MentionsJobPosting(v: Json)
    decreases v
  {
    || (IsObject(v) && TypeFieldMatches(TypeField(v)))
    || (v.JArr? && exists i :: 0 <= i < |v.items| && MentionsJobPosting(v.items[i]))
    || (v.JObj? && exists i :: 0 <= i < |v.members| && Kept(v.members, i) && MentionsJobPosting(v.members[i].value))
  }

  /** The search only reports postings that are really there. */
  lemma {:induction false} HasJobPostingTypeSound(v: Json, depth: nat)
    requires HasJobPostingType(v, depth)
    ensures MentionsJobPosting(v)
    decreases v
  {
    if !TypeFieldMatches(TypeField(v)) {
      if v.JArr? {
        var i :| 0 <= i < |v.items| && HasJobPostingType(v.items[i], depth + 1);
        HasJobPostingTypeSound(v.items[i], depth + 1);
      } else if GraphIndex(v).Some? {
        var i := GraphIndex(v).value;
        HasJobPostingTypeSound(v.members[i].value, depth + 1);
      } else {
        var i :| 0 <= i < |v.members| && Kept(v.members, i) && HasJobPostingType(v.members[i].value, depth + 1);
        HasJobPostingTypeSound(v.members[i].value, depth + 1);
      }
    }
  }

  /** A member hidden by a later one with the same key is not searched:
      `{"a": {"@type": "JobPosting"}, "a": 1}` holds no posting, whatever
      the first member holds. */
  lemma ShadowedMemberIgnored(key: string, hidden: Json, shown: Json, depth: nat)
    requires key != "@type" && key != "type" && key != "@graph"
    requires !IsObject(shown)
    ensures !HasJobPostingType(JObj([Member(key, hidden), Member(key, shown)]), depth)
    ensures !MentionsJobPosting(JObj([Member(key, hidden), Member(key, shown)]))
  {
    var ms := [Member(key, hidden), Member(key, shown)];
    assert MemberIndex(ms, key) == Some(1);
    assert !Kept(ms, 0);
    assert ms[..1][..0] == [];
    assert MemberIndex(ms, "@type").None? && MemberIndex(ms, "type").None? && MemberIndex(ms, "@graph").None?;
  }

  /** Starting deeper never finds more. */
  lemma {:induction false} HasJobPostingTypeDepthMonotone(v: Json, d: nat, d': nat)
    requires d <= d'
    requires HasJobPostingType(v, d')
    ensures HasJobPostingType(v, d)
    decreases v, 1
  {
    if !TypeFieldMatches(TypeField(v)) {
      if v.JArr? {
        ItemsDepthMonotone(v, d, d');
      } else if GraphIndex(v).Some? {
        var i := GraphIndex(v).value;
        HasJobPostingTypeDepthMonotone(v.members[i].value, d + 1, d' + 1);
      } else {
        MembersDepthMonotone(v, d, d');
      }
    }
  }

  /** The array case: the item found at the deeper start is found at the
      shallower one. */
  lemma {:induction false} ItemsDepthMonotone(v: Json, d: nat, d': nat)
    requires v.JArr? && d <= d' && !TypeFieldMatches(TypeField(v))
    requires HasJobPostingType(v, d')
    ensures HasJobPostingType(v, d)
    decreases v, 0
  {
    var i :| 0 <= i < |v.items| && HasJobPostingType(v.items[i], d' + 1);
    HasJobPostingTypeDepthMonotone(v.items[i], d + 1, d' + 1);
    FoundInItem(v, d, i);
  }

  /** A find in an item of an array within the budget is a find in the array. */
  lemma FoundInItem(v: Json, d: nat, i: nat)
    requires v.JArr? && d <= 4 && i < |v.items| && HasJobPostingType(v.items[i], d + 1)
    ensures HasJobPostingType(v, d)
  {
  }

  /** The case of an object without a graph: likewise for the member found. */
  lemma {:induction false} MembersDepthMonotone(v: Json, d: nat, d': nat)
    requires v.JObj? && d <= d' && !TypeFieldMatches(TypeField(v)) && GraphIndex(v).None?
    requires HasJobPostingType(v, d')
    ensures HasJobPostingType(v, d)
    decreases v, 0
  {
    var i :| 0 <= i < |v.members| && Kept(v.members, i) && (v.members[i].value.JNull? || IsObject(v.members[i].value)) &&
             HasJobPostingType(v.members[i].value, d' + 1);
    HasJobPostingTypeDepthMonotone(v.members[i].value, d + 1, d' + 1);
  }

  /** `v` inside `n` one-element arrays */
  function Wrap(v: Json, n: nat): Json {
    if n == 0 then v else JArr([Wrap(v, n - 1)])
  }

  /** Each enclosing array costs one level of the depth budget. */
  lemma {:induction false} WrapCostsDepth(v: Json, n: nat, depth: nat)
    ensures HasJobPostingType(Wrap(v, n), depth) == HasJobPostingType(v, depth + n)
  {
    if n > 0 {
      WrapCostsDepth(v, n - 1, depth + 1);
      assert Wrap(v, n).items[0] == Wrap(v, n - 1);
    }
  }

  /** A posting nested in five arrays is never found. */
  lemma DeepPostingMissed(v: Json)
    ensures !HasJobPostingType(Wrap(v, 5), 0)
  {
    WrapCostsDepth(v, 5, 0);
  }

  /** When an object carries an `@graph` array and no matching type of its
      own, only the graph is searched: the other members are not looked at. */
  lemma GraphShortCircuits(v: Json, depth: nat)
    requires depth <= 4 && v.JObj? && !TypeFieldMatches(TypeField(v)) && GraphIndex(v).Some?
    ensures HasJobPostingType(v, depth) == HasJobPostingType(v.members[GraphIndex(v).value].value, depth + 1)
  {
  }

  /** An `ld+json` script: its text and what `JSON.parse` makes of it
      (`None` when parsing throws) */
  datatype Script = Script(text: string, parsed: Option<Json>)

  /** `detectStructuredJobData`: a non-empty script that parses to a value
      holding a JobPosting, or a microdata `itemtype` mentioning jobposting */
  predicate StructuredJobData(scripts: seq<Script>, itemTypes: seq<string>) {
    || (exists i :: 0 <= i < |scripts| && scripts[i].text != "" && scripts[i].parsed.Some? &&
          HasJobPostingType(scripts[i].parsed.value, 0))
    || (exists j :: 0 <= j < |itemTypes| && Contains(ToLower(itemTypes[j]), "jobposting"))
  }

  // ---------------------------------------------------------------------------
  // Forms

  /** A control of a form: whether it is an `<input>`, its `type` property
      and its computed style */
  datatype FormField = FormField(isInput: bool, typeProp: string, style: Style)

  /** A submit control: its `innerText` and its `value` attribute */
  datatype FormButton = FormButton(innerText: string, valueAttr: Option<string>)

  datatype Form = Form(fields: seq<FormField>, hasFileInput: bool, innerText: string, buttons: seq<FormButton>)

  predicate FieldVisible(f: FormField) {
    !(f.isInput && f.typeProp == "hidden") && f.style.display != "none" && f.style.visibility != "hidden"
  }

  /** `fields.filter(visible).length` */
  function VisibleCount(fields: seq<FormField>): (n: nat)
    ensures n <= |fields|
  {
    if fields == [] then 0
    else VisibleCount(fields[..|fields| - 1]) + (if FieldVisible(fields[|fields| - 1]) then 1 else 0)
  }

  /** `(innerText || value || '')` */
  function ButtonLabel(b: FormButton): string {
    if b.innerText != "" then b.innerText else b.valueAttr.GetOr("")
  }

  /** The keyword lists and the field count `evaluateForms` is given */
  datatype FormConfig = FormConfig(resumeKeywords: seq<string>, applyTexts: seq<string>, minFields: nat)

  const DetectorFormConfig: FormConfig := FormConfig(ResumeKeywords, FormApplyTexts, FormMinFields)

  predicate LargeForm(f: Form, cfg: FormConfig) { VisibleCount(f.fields) >= cfg.minFields }

  predicate ResumeTextForm(f: Form, cfg: FormConfig) {
    ContainsAny(Normalize(f.innerText, FormTextLength), cfg.resumeKeywords)
  }

  predicate ApplyButtonForm(f: Form, cfg: FormConfig) {
    exists k :: 0 <= k < |f.buttons| && ContainsAny(ToLower(ButtonLabel(f.buttons[k])), cfg.applyTexts)
  }

  /** The four form flags; also the four tests of a single form */
  datatype FormFlags = FormFlags(hasLargeForm: bool, hasFileInput: bool, hasResumeText: bool, hasApplyButton: bool)

  /** The four tests on one form */
  function TestForm(f: Form, cfg: FormConfig): FormFlags {
    FormFlags(LargeForm(f, cfg), f.hasFileInput, ResumeTextForm(f, cfg), ApplyButtonForm(f, cfg))
  }

  /** The tests the detector runs, with its own keyword lists */
  function DetectorFormTest(f: Form): FormFlags {
    TestForm(f, DetectorFormConfig)
  }

  /** The flags after looking at one more form: a flag once set stays set */
  function Update(flags: FormFlags, t: FormFlags): FormFlags {
    FormFlags(
      flags.hasLargeForm || t.hasLargeForm,
      flags.hasFileInput || t.hasFileInput,
      flags.hasResumeText || t.hasResumeText,
      flags.hasApplyButton || t.hasApplyButton)
  }

  /** The flags after the forms in order, starting from all false */
  function FormFlagsOf(forms: seq<Form>, test: Form -> FormFlags): FormFlags {
    if forms == [] then FormFlags(false, false, false, false)
    else Update(FormFlagsOf(forms[..|forms| - 1], test), test(forms[|forms| - 1]))
  }

  /** Each flag holds exactly when some form passes its test, whatever the
      other forms look like. */
  lemma {:induction false} FormFlagsExist(forms: seq<Form>, test: Form -> FormFlags)
    ensures var flags := FormFlagsOf(forms, test);
      && (flags.hasLargeForm <==> exists i :: 0 <= i < |forms| && test(forms[i]).hasLargeForm)
      && (flags.hasFileInput <==> exists i :: 0 <= i < |forms| && test(forms[i]).hasFileInput)
      && (flags.hasResumeText <==> exists i :: 0 <= i < |forms| && test(forms[i]).hasResumeText)
      && (flags.hasApplyButton <==> exists i :: 0 <= i < |forms| && test(forms[i]).hasApplyButton)
  {
    if forms != [] {
      var init := forms[..|forms| - 1];
      FormFlagsExist(init, test);
      assert forall i :: 0 <= i < |init| ==> init[i] == forms[i];
    }
  }

  /** The submit-control test of one form (`some` over its buttons) */
  method HasApplyButton(f: Form, formApplyTexts: seq<string>) returns (found: bool)
    ensures found <==> exists k :: 0 <= k < |f.buttons| && ContainsAny(ToLower(ButtonLabel(f.buttons[k])), formApplyTexts)
  {
    found := false;
    var k := 0;
    while k < |f.buttons| && !found
      invariant 0 <= k <= |f.buttons|
      invariant found <==> exists k' :: 0 <= k' < k && ContainsAny(ToLower(ButtonLabel(f.buttons[k'])), formApplyTexts)
    {
      var buttonText := ToLower(ButtonLabel(f.buttons[k]));
      found := ContainsAny(buttonText, formApplyTexts);
      k := k + 1;
    }
  }

  lemma FormFlagsOfSnoc(forms: seq<Form>, i: nat, test: Form -> FormFlags)
    requires i < |forms|
    ensures FormFlagsOf(forms[..i + 1], test) == Update(FormFlagsOf(forms[..i], test), test(forms[i]))
  {
    assert forms[..i + 1][..i] == forms[..i];
  }

  /** `evaluateForms`, called with the detector's keyword lists: four flags,
      each set by the first form showing it and never cleared */
  method EvaluateForms(forms: seq<Form>, cfg: FormConfig, ghost test: Form -> FormFlags) returns (flags: FormFlags)
    requires forall f :: test(f) == TestForm(f, cfg)
    ensures flags == FormFlagsOf(forms, test)
  {
    var hasLargeForm, hasFileInput, hasResumeText, hasApplyButton := false, false, false, false;
    var i := 0;
    assert FormFlagsOf(forms[..0], test) == FormFlags(false, false, false, false) by {
      assert forms[..0] == [];
    }
    while i < |forms|
      invariant 0 <= i <= |forms|
      invariant FormFlags(hasLargeForm, hasFileInput, hasResumeText, hasApplyButton) == FormFlagsOf(forms[..i], test)
    {
      var form := forms[i];
      ghost var before := FormFlags(hasLargeForm, hasFileInput, hasResumeText, hasApplyButton);
      var t := EvaluateForm(form, cfg);
      hasLargeForm := hasLargeForm || t.hasLargeForm;
      hasFileInput := hasFileInput || t.hasFileInput;
      hasResumeText := hasResumeText || t.hasResumeText;
      if !hasApplyButton {
        hasApplyButton := t.hasApplyButton;
      }
      assert FormFlags(hasLargeForm, hasFileInput, hasResumeText, hasApplyButton) == Update(before, t);
      FormFlagsOfSnoc(forms, i, test);
      assert test(form) == t;
      assert FormFlags(hasLargeForm, hasFileInput, hasResumeText, hasApplyButton) == FormFlagsOf(forms[..i + 1], test);
      i := i + 1;
    }
    assert forms[..i] == forms;
    flags := FormFlags(hasLargeForm, hasFileInput, hasResumeText, hasApplyButton);
  }

  /** The body of the `evaluateForms` loop for one form */
  method EvaluateForm(form: Form, cfg: FormConfig) returns (t: FormFlags)
    ensures t == TestForm(form, cfg)
  {
    var large := VisibleCount(form.fields) >= cfg.minFields;
    var formText := Normalize(form.innerText, FormTextLength);
    var resume := ContainsAny(formText, cfg.resumeKeywords);
    var apply := HasApplyButton(form, cfg.applyTexts);
    assert resume == ResumeTextForm(form, cfg);
    assert apply == ApplyButtonForm(form, cfg);
    t := FormFlags(large, form.hasFileInput, resume, apply);
  }

  // ---------------------------------------------------------------------------
  // Signals and the score

  datatype SignalKind =
    | UrlKeyword | KnownAtsDomain | StructuredData
    | TextJobDescription | TextApply | TextResume | TextJobApplyCombo
    | FormMultipleFields | FormCvUpload | FormResumeText | FormApplyButton

  function Label(k: SignalKind): string {
    match k
    case UrlKeyword => "url_keyword"
    case KnownAtsDomain => "known_ats_domain"
    case StructuredData => "structured_data_jobposting"
    case TextJobDescription => "text_job_description"
    case TextApply => "text_apply"
    case TextResume => "text_resume"
    case TextJobApplyCombo => "text_job_apply_combo"
    case FormMultipleFields => "form_multiple_fields"
    case FormCvUpload => "form_cv_upload"
    case FormResumeText => "form_resume_text"
    case FormApplyButton => "form_apply_button"
  }

  function Weight(k: SignalKind): nat {
    match k
    case UrlKeyword => 2
    case KnownAtsDomain => 4
    case StructuredData => 8
    case TextJobDescription => 2
    case TextApply => 2
    case TextResume => 3
    case TextJobApplyCombo => 1
    case FormMultipleFields => 2
    case FormCvUpload => 3
    case FormResumeText => 2
    case FormApplyButton => 2
  }

  /** Position of a signal in the order the detector tests them */
  function Ord(k: SignalKind): nat {
    match k
    case UrlKeyword => 0
    case KnownAtsDomain => 1
    case StructuredData => 2
    case TextJobDescription => 3
    case TextApply => 4
    case TextResume => 5
    case TextJobApplyCombo => 6
    case FormMultipleFields => 7
    case FormCvUpload => 8
    case FormResumeText => 9
    case FormApplyButton => 10
  }

  /** `${label} (+${weight})` */
  function Render(k: SignalKind): string {
    Label(k) + " (+" + NatToString(Weight(k)) + ")"
  }

  function ThresholdLine(): string {
    "threshold=" + NatToString(Threshold)
  }

  /** The location and the parts of the document the detector reads */
  datatype Page = Page(
    href: string,
    hostname: string,
    scripts: seq<Script>,
    itemTypes: seq<string>,
    bodyText: string,
    forms: seq<Form>)

  /** `atsDomains.some(d => host === d || host.endsWith('.' + d))` */
  predicate AtsHost(host: string, domains: seq<string>) {
    |domains| > 0 &&
    (host == domains[0] || EndsWith(host, "." + domains[0]) || AtsHost(host, domains[1..]))
  }

  lemma {:induction false} AtsHostIff(host: string, domains: seq<string>)
    ensures AtsHost(host, domains) <==>
      exists i :: 0 <= i < |domains| && (host == domains[i] || EndsWith(host, "." + domains[i]))
  {
    if |domains| > 0 {
      AtsHostIff(host, domains[1..]);
      if exists i :: 1 <= i < |domains| && (host == domains[i] || EndsWith(host, "." + domains[i])) {
        var i :| 1 <= i < |domains| && (host == domains[i] || EndsWith(host, "." + domains[i]));
        assert domains[1..][i - 1] == domains[i];
      }
    }
  }

  /** What the detector found out about the page, one flag per test */
  datatype Evidence = Evidence(
    urlKeyword: bool,
    atsDomain: bool,
    structuredData: bool,
    jobDescriptionText: bool,
    applyText: bool,
    resumeText: bool,
    forms: FormFlags)

  function EvidenceOf(p: Page): Evidence {
    var body := Normalize(p.bodyText, MaxTextLength);
    Evidence(
      ContainsAny(ToLower(p.href), UrlKeywords),
      AtsHost(ToLower(p.hostname), AtsDomains),
      StructuredJobData(p.scripts, p.itemTypes),
      ContainsAny(body, JobDescriptionKeywords),
      ContainsAny(body, ApplyActionKeywords),
      ContainsAny(body, ResumeKeywords),
      FormFlagsOf(p.forms, DetectorFormTest))
  }

  /** Whether signal `k` fires; the combo needs both text signals */
  predicate Fired(e: Evidence, k: SignalKind) {
    match k
    case UrlKeyword => e.urlKeyword
    case KnownAtsDomain => e.atsDomain
    case StructuredData => e.structuredData
    case TextJobDescription => e.jobDescriptionText
    case TextApply => e.applyText
    case TextResume => e.resumeText
    case TextJobApplyCombo => e.jobDescriptionText && e.applyText
    case FormMultipleFields => e.forms.hasLargeForm
    case FormCvUpload => e.forms.hasFileInput
    case FormResumeText => e.forms.hasResumeText
    case FormApplyButton => e.forms.hasApplyButton
  }

  /** The signal tested at position `i` */
  function SignalAt(i: nat): (k: SignalKind)
    requires i < 11
    ensures Ord(k) == i
  {
    if i == 0 then UrlKeyword
    else if i == 1 then KnownAtsDomain
    else if i == 2 then StructuredData
    else if i == 3 then TextJobDescription
    else if i == 4 then TextApply
    else if i == 5 then TextResume
    else if i == 6 then TextJobApplyCombo
    else if i == 7 then FormMultipleFields
    else if i == 8 then FormCvUpload
    else if i == 9 then FormResumeText
    else FormApplyButton
  }

  /** The fired signals among the first `n` tested, in test order */
  function FiredUpTo(e: Evidence, n: nat): seq<SignalKind>
    requires n <= 11
  {
    if n == 0 then []
    else FiredUpTo(e, n - 1) + (if Fired(e, SignalAt(n - 1)) then [SignalAt(n - 1)] else [])
  }

  /** The fired signals, in test order */
  function FiredSignals(e: Evidence): seq<SignalKind> {
    FiredUpTo(e, 11)
  }

  /** The listed signals are among the first `n`, strictly in test order (so
      none is listed twice), and a signal is listed exactly when it fires. */
  lemma {:induction false} FiredUpToOrdered(e: Evidence, n: nat)
    requires n <= 11
    ensures forall i :: 0 <= i < |FiredUpTo(e, n)| ==> Ord(FiredUpTo(e, n)[i]) < n
    ensures forall i, j :: 0 <= i < j < |FiredUpTo(e, n)| ==> Ord(FiredUpTo(e, n)[i]) < Ord(FiredUpTo(e, n)[j])
    ensures forall k :: k in FiredUpTo(e, n) <==> Ord(k) < n && Fired(e, k)
  {
    if n > 0 {
      FiredUpToOrdered(e, n - 1);
      var k := SignalAt(n - 1);
      forall k' ensures k' in FiredUpTo(e, n) <==> Ord(k') < n && Fired(e, k') {
        if Ord(k') == n - 1 {
          assert k' == k by { assert SignalAt(Ord(k')) == k'; }
        }
      }
    }
  }

  function SumWeights(ks: seq<SignalKind>): nat {
    if ks == [] then 0 else SumWeights(ks[..|ks| - 1]) + Weight(ks[|ks| - 1])
  }

  function RenderAll(ks: seq<SignalKind>): (r: seq<string>)
    ensures |r| == |ks|
  {
    if ks == [] then [] else RenderAll(ks[..|ks| - 1]) + [Render(ks[|ks| - 1])]
  }

  /** The score of `getJobApplicationScore` */
  function Score(p: Page): nat {
    SumWeights(FiredSignals(EvidenceOf(p)))
  }

  /** The signal lines of `getJobApplicationScore` */
  function SignalLines(p: Page): seq<string> {
    RenderAll(FiredSignals(EvidenceOf(p))) + [ThresholdLine()]
  }

  /** The weights of the fired signals among the first `n`, added up, and the
      weights of all of them */
  function FiredWeight(e: Evidence, n: nat): nat
    requires n <= 11
  {
    if n == 0 then 0
    else FiredWeight(e, n - 1) + (if Fired(e, SignalAt(n - 1)) then Weight(SignalAt(n - 1)) else 0)
  }

  function TotalWeight(n: nat): nat
    requires n <= 11
  {
    if n == 0 then 0 else TotalWeight(n - 1) + Weight(SignalAt(n - 1))
  }

  lemma {:induction false} FiredUpToWeight(e: Evidence, n: nat)
    requires n <= 11
    ensures SumWeights(FiredUpTo(e, n)) == FiredWeight(e, n)
  {
    if n > 0 {
      FiredUpToWeight(e, n - 1);
      var a := FiredUpTo(e, n - 1);
      var k := SignalAt(n - 1);
      SumWeightsSnoc(a, k);
      if Fired(e, k) {
        assert FiredUpTo(e, n) == a + [k];
      } else {
        assert FiredUpTo(e, n) == a + [];
        assert a + [] == a;
      }
    }
  }

  lemma SumWeightsSnoc(a: seq<SignalKind>, k: SignalKind)
    ensures SumWeights(a + [k]) == SumWeights(a) + Weight(k)
  {
    assert (a + [k])[..|a|] == a;
  }

  lemma {:induction false} FiredWeightBounded(e: Evidence, n: nat)
    requires n <= 11
    ensures FiredWeight(e, n) <= TotalWeight(n)
  {
    if n > 0 {
      FiredWeightBounded(e, n - 1);
    }
  }

  lemma TotalWeightIs31()
    ensures TotalWeight(11) == 31
  {
  }

  /** A fired signal among the first `n` contributes its whole weight. */
  lemma {:induction false} FiredWeightAtLeast(e: Evidence, n: nat, k: SignalKind)
    requires Ord(k) < n <= 11 && Fired(e, k)
    ensures FiredWeight(e, n) >= Weight(k)
  {
    if n - 1 != Ord(k) {
      FiredWeightAtLeast(e, n - 1, k);
    } else {
      assert SignalAt(Ord(k)) == k;
    }
  }

  /** The score is the sum of the weights of the listed signals, each counted
      once, so it lies between 0 and 31, and each fired signal adds its full
      weight. */
  lemma ScoreBounds(e: Evidence, k: SignalKind)
    ensures SumWeights(FiredSignals(e)) == FiredWeight(e, 11)
    ensures 0 <= SumWeights(FiredSignals(e)) <= 31
    ensures Fired(e, k) ==> SumWeights(FiredSignals(e)) >= Weight(k)
  {
    FiredUpToWeight(e, 11);
    FiredWeightBounded(e, 11);
    TotalWeightIs31();
    if Fired(e, k) {
      FiredWeightAtLeast(e, 11, k);
    }
  }

  /** The combo bonus is listed exactly when both text signals are. */
  lemma ComboNeedsBoth(e: Evidence)
    ensures TextJobApplyCombo in FiredSignals(e) <==>
      TextJobDescription in FiredSignals(e) && TextApply in FiredSignals(e)
  {
    FiredUpToOrdered(e, 11);
  }

  /** Structured JobPosting data alone (+8) passes the threshold of 6. */
  lemma StructuredDataSuffices(e: Evidence)
    requires e.structuredData
    ensures SumWeights(FiredSignals(e)) >= Threshold
  {
    ScoreBounds(e, StructuredData);
  }

  datatype DetectionResult = DetectionResult(score: int, signals: seq<string>)

  /** `details` with its `addSignal` closure */
  class Detection {
    var score: int
    var signals: seq<string>
    ghost var fired: seq<SignalKind>

    ghost predicate Valid()
      reads this
    {
      score == SumWeights(fired) && signals == RenderAll(fired)
    }

    constructor ()
      ensures Valid() && fired == []
    {
      score := 0;
      signals := [];
      fired := [];
    }

    method AddSignal(k: SignalKind)
      modifies this
      requires Valid()
      ensures Valid() && fired == old(fired) + [k]
      ensures score == old(score) + Weight(k) && signals == old(signals) + [Render(k)]
    {
      score := score + Weight(k);
      signals := signals + [Render(k)];
      fired := fired + [k];
      assert fired[..|fired| - 1] == old(fired);
    }
  }

  /** `getJobApplicationScore(doc, loc)` */
  method GetJobApplicationScore(p: Page) returns (result: DetectionResult)
    ensures result == DetectionResult(Score(p), SignalLines(p))
  {
    var details := new Detection();
    var e := GatherEvidence(p);
    AddSignals(details, e);
    details.signals := details.signals + [ThresholdLine()];
    result := DetectionResult(details.score, details.signals);
  }

  /** The tests `getJobApplicationScore` runs before adding up the signals */
  method GatherEvidence(p: Page) returns (e: Evidence)
    ensures e == EvidenceOf(p)
  {
    var hrefLower := ToLower(p.href);
    var hostLower := ToLower(p.hostname);
    var urlKeyword := ContainsAny(hrefLower, UrlKeywords);
    var atsDomain := AtsHost(hostLower, AtsDomains);
    var structuredData := StructuredJobData(p.scripts, p.itemTypes);
    var bodyText := Normalize(p.bodyText, MaxTextLength);
    var hasJobDescriptionText := ContainsAny(bodyText, JobDescriptionKeywords);
    var hasApplyText := ContainsAny(bodyText, ApplyActionKeywords);
    var hasResumeText := ContainsAny(bodyText, ResumeKeywords);
    var formSignals := EvaluateForms(p.forms, DetectorFormConfig, DetectorFormTest);
    e := Evidence(urlKeyword, atsDomain, structuredData, hasJobDescriptionText,
                  hasApplyText, hasResumeText, formSignals);
  }

  /** The eleven `if (...) addSignal(...)` steps, given what was found */
  method AddSignals(details: Detection, e: Evidence)
    modifies details
    requires details.Valid() && details.fired == []
    ensures details.Valid() && details.fired == FiredSignals(e)
  {
    AddLocationSignals(details, e);
    AddTextSignals(details, e);
    AddFormSignals(details, e);
  }

  /** The URL, host and structured-data signals */
  method AddLocationSignals(details: Detection, e: Evidence)
    modifies details
    requires details.Valid() && details.fired == FiredUpTo(e, 0)
    ensures details.Valid() && details.fired == FiredUpTo(e, 3)
  {
    AddIfFired(details, e, 0);
    AddIfFired(details, e, 1);
    AddIfFired(details, e, 2);
  }

  /** The page-text signals and the combination bonus */
  method AddTextSignals(details: Detection, e: Evidence)
    modifies details
    requires details.Valid() && details.fired == FiredUpTo(e, 3)
    ensures details.Valid() && details.fired == FiredUpTo(e, 7)
  {
    AddIfFired(details, e, 3);
    AddIfFired(details, e, 4);
    AddIfFired(details, e, 5);
    AddIfFired(details, e, 6);
  }

  /** The form signals */
  method AddFormSignals(details: Detection, e: Evidence)
    modifies details
    requires details.Valid() && details.fired == FiredUpTo(e, 7)
    ensures details.Valid() && details.fired == FiredUpTo(e, 11)
  {
    AddIfFired(details, e, 7);
    AddIfFired(details, e, 8);
    AddIfFired(details, e, 9);
    AddIfFired(details, e, 10);
  }

  /** One `if (...) addSignal(label, weight)` step: signal `n` in test order */
  method AddIfFired(details: Detection, e: Evidence, n: nat)
    modifies details
    requires n < 11
    requires details.Valid() && details.fired == FiredUpTo(e, n)
    ensures details.Valid() && details.fired == FiredUpTo(e, n + 1)
  {
    var k := SignalAt(n);
    if Fired(e, k) {
      details.AddSignal(k);
    }
  }

  /** `isLikelyJobApplicationPage(doc, loc)` */
  method IsLikelyJobApplicationPage(p: Page) returns (likely: bool)
    ensures likely <==> Score(p) >= Threshold
  {
    var result := GetJobApplicationScore(p);
    likely := result.score >= Threshold;
  }
}
