/** The legacy form scanner: it walks a document and its shadow roots, guesses
    what each input is for from its name, id and label with an ordered keyword
    classifier, and picks a filling strategy by control kind. */
module FormScanner {
  import opened Wrappers
  import opened Strings
  import opened Dom

  datatype FieldType =
    | FirstName | LastName | FullName | Email | Phone
    | Linkedin | Github | Portfolio
    | CoverLetter | Summary
    | SalaryExpectation | Currency | Relocation | Remote | NoticePeriod
    | Visa | Education | Experience
    | ResumeUpload | Terms | Unknown

  // ---------------------------------------------------------------------------
  // Classification

  /** The resume rule: a file input, or resume/cv/upload wording together with
      the word "file" */
  predicate ResumeRuleFires(typ: string, combined: string) {
    && (typ == "file" || Contains(combined, "resume") || Contains(combined, "cv") || Contains(combined, "upload"))
    && (typ == "file" || Contains(combined, "file"))
  }

  /** The terms rule: a checkbox mentioning terms, conditions, privacy or agreement */
  predicate TermsRuleFires(typ: string, combined: string) {
    typ == "checkbox" &&
    (Contains(combined, "term") || Contains(combined, "condition") ||
     Contains(combined, "privacy") || Contains(combined, "agree"))
  }

  /** `${name} ${id} ${label}` */
  function Combined(name: string, id: string, labelText: string): string {
    name + " " + id + " " + labelText
  }

  /** `predictFieldType` once the lower-cased name, id and type are read off the
      element: the resume rule, the terms rule, then the keyword rules in order,
      else unknown */
  function Predict(name: string, id: string, typ: string, labelText: string): FieldType {
    var c := Combined(name, id, labelText);
    if ResumeRuleFires(typ, c) then ResumeUpload
    else if TermsRuleFires(typ, c) then Terms
    else KeywordChain(c)
  }

  /** The keyword tests of `predictFieldType`, in their order, on the combined text */
  function KeywordChain(c: string): FieldType {
    if Contains(c, "first") && Contains(c, "name") then FirstName
    else if Contains(c, "last") && Contains(c, "name") then LastName
    else if Contains(c, "full name") || Contains(c, "fullname") then FullName
    else if Contains(c, "email") || Contains(c, "e-mail") then Email
    else if Contains(c, "phone") || Contains(c, "mobile") || Contains(c, "cell") then Phone
    else if Contains(c, "linkedin") then Linkedin
    else if Contains(c, "github") || Contains(c, "git") then Github
    else if Contains(c, "portfolio") || Contains(c, "website") || Contains(c, "url") then Portfolio
    else if Contains(c, "cover") && Contains(c, "letter") then CoverLetter
    else if Contains(c, "summary") || Contains(c, "about you") || Contains(c, "bio") then Summary
    else if Contains(c, "salary") || Contains(c, "compensation") || Contains(c, "pay") || Contains(c, "expectation") then SalaryExpectation
    else if Contains(c, "currency") then Currency
    else if Contains(c, "relocat") then Relocation
    else if Contains(c, "remote") then Remote
    else if Contains(c, "notice") || Contains(c, "period") then NoticePeriod
    else if Contains(c, "visa") || Contains(c, "sponsorship") || Contains(c, "authorization") then Visa
    else if Contains(c, "education") || Contains(c, "university") || Contains(c, "school") || Contains(c, "degree") then Education
    else if Contains(c, "experience") || Contains(c, "work") || Contains(c, "job") then Experience
    else Unknown
  }

  /** `predictFieldType(element, label)`: the lower-cased name, id and type
      attribute of the element, classified by the rule table */
  function PredictFieldType(e: Element, labelText: string): FieldType {
    PredictByRules(ToLower(e.Attr("type").GetOr("")), Combined(ToLower(e.Attr("name").GetOr("")), ToLower(e.Id()), labelText))
  }

  /** The scanner's classification is the chain of tests of `predictFieldType`. */
  lemma PredictFieldTypeIsChain(e: Element, labelText: string)
    ensures PredictFieldType(e, labelText) ==
            Predict(ToLower(e.Attr("name").GetOr("")), ToLower(e.Id()), ToLower(e.Attr("type").GetOr("")), labelText)
  {
    PredictIsFirstMatch(ToLower(e.Attr("name").GetOr("")), ToLower(e.Id()), ToLower(e.Attr("type").GetOr("")), labelText);
  }

  /** The resume rule comes first: its condition alone decides a resume upload,
      and a file input always is one. */
  lemma PredictResumeIff(name: string, id: string, typ: string, labelText: string)
    ensures Predict(name, id, typ, labelText) == ResumeUpload <==> ResumeRuleFires(typ, Combined(name, id, labelText))
    ensures typ == "file" ==> Predict(name, id, typ, labelText) == ResumeUpload
  {
    PredictIsFirstMatch(name, id, typ, labelText);
    TableNeverSpecial(Combined(name, id, labelText));
  }

  /** A terms box is predicted exactly when the terms rule fires and the resume
      rule does not; only checkboxes qualify. */
  lemma PredictTermsIff(name: string, id: string, typ: string, labelText: string)
    ensures Predict(name, id, typ, labelText) == Terms <==>
            !ResumeRuleFires(typ, Combined(name, id, labelText)) && TermsRuleFires(typ, Combined(name, id, labelText))
    ensures Predict(name, id, typ, labelText) == Terms ==> typ == "checkbox"
  {
    PredictIsFirstMatch(name, id, typ, labelText);
    TableNeverSpecial(Combined(name, id, labelText));
  }

  /** Unknown is the answer exactly when neither special rule fires and no
      keyword rule passes. */
  lemma PredictUnknownIff(name: string, id: string, typ: string, labelText: string)
    ensures var c := Combined(name, id, labelText);
            Predict(name, id, typ, labelText) == Unknown <==>
            && !ResumeRuleFires(typ, c) && !TermsRuleFires(typ, c)
            && forall k :: 0 <= k < |KeywordRules()| ==> !Passes(KeywordRules()[k].test, c)
  {
    var c := Combined(name, id, labelText);
    PredictIsFirstMatch(name, id, typ, labelText);
    TableNeverSpecial(c);
    FirstMatchIff(KeywordRules(), c);
  }

  /** Rules are tried in order: text with "first", "name" and "email" is a first
      name, not an email, when neither special rule fires. */
  lemma FirstNameBeatsEmail(name: string, id: string, typ: string, labelText: string)
    requires var c := Combined(name, id, labelText);
             Contains(c, "first") && Contains(c, "name") && Contains(c, "email")
    requires !ResumeRuleFires(typ, Combined(name, id, labelText)) && !TermsRuleFires(typ, Combined(name, id, labelText))
    ensures Predict(name, id, typ, labelText) == FirstName
  {
  }

  /** A keyword test: all of the words, or any of them, occur in the text */
  datatype Test = AllOf(words: seq<string>) | AnyOf(words: seq<string>)

  datatype Rule = Rule(test: Test, result: FieldType)

  predicate ContainsAll(s: string, words: seq<string>) {
    |words| == 0 || (Contains(s, words[0]) && ContainsAll(s, words[1..]))
  }

  predicate Passes(t: Test, s: string) {
    match t
    case AllOf(ws) => ContainsAll(s, ws)
    case AnyOf(ws) => ContainsAny(s, ws)
  }

  /** The number of keyword rules */
  const RuleCount: nat := 18

  /** The keyword rules of `predictFieldType`, in the order they are tried */
  function RuleAt(i: nat): Rule
    requires i < RuleCount
  {
    match i
    case 0 => Rule(AllOf(["first", "name"]), FirstName)
    case 1 => Rule(AllOf(["last", "name"]), LastName)
    case 2 => Rule(AnyOf(["full name", "fullname"]), FullName)
    case 3 => Rule(AnyOf(["email", "e-mail"]), Email)
    case 4 => Rule(AnyOf(["phone", "mobile", "cell"]), Phone)
    case 5 => Rule(AnyOf(["linkedin"]), Linkedin)
    case 6 => Rule(AnyOf(["github", "git"]), Github)
    case 7 => Rule(AnyOf(["portfolio", "website", "url"]), Portfolio)
    case 8 => Rule(AllOf(["cover", "letter"]), CoverLetter)
    case 9 => Rule(AnyOf(["summary", "about you", "bio"]), Summary)
    case 10 => Rule(AnyOf(["salary", "compensation", "pay", "expectation"]), SalaryExpectation)
    case 11 => Rule(AnyOf(["currency"]), Currency)
    case 12 => Rule(AnyOf(["relocat"]), Relocation)
    case 13 => Rule(AnyOf(["remote"]), Remote)
    case 14 => Rule(AnyOf(["notice", "period"]), NoticePeriod)
    case 15 => Rule(AnyOf(["visa", "sponsorship", "authorization"]), Visa)
    case 16 => Rule(AnyOf(["education", "university", "school", "degree"]), Education)
    case _ => Rule(AnyOf(["experience", "work", "job"]), Experience)
  }

  /** The rule table as a sequence */
  function KeywordRules(): (rs: seq<Rule>)
    ensures |rs| == RuleCount
  {
    seq(RuleCount, i requires 0 <= i < RuleCount => RuleAt(i))
  }

  /** Trying the table from rule `k` on: rule `k`, then the ones after it */
  lemma TableStep(k: nat, s: string)
    requires k < RuleCount
    ensures FirstMatch(KeywordRules()[k..], s) ==
      if Passes(RuleAt(k).test, s) then Some(RuleAt(k).result) else FirstMatch(KeywordRules()[k + 1..], s)
  {
    FirstMatchStep(KeywordRules(), k, s);
  }

  /** The result of the first rule whose test passes */
  function FirstMatch(rules: seq<Rule>, s: string): Option<FieldType> {
    if |rules| == 0 then None
    else if Passes(rules[0].test, s) then Some(rules[0].result)
    else FirstMatch(rules[1..], s)
  }

  /** First match wins: a rule's result is chosen exactly when its test passes
      and no earlier rule's does; nothing is chosen when no test passes. */
  lemma {:induction false} FirstMatchIff(rules: seq<Rule>, s: string)
    ensures FirstMatch(rules, s).Some? ==>
      exists k :: 0 <= k < |rules| && Passes(rules[k].test, s) && rules[k].result == FirstMatch(rules, s).value &&
        forall j :: 0 <= j < k ==> !Passes(rules[j].test, s)
    ensures FirstMatch(rules, s).None? <==> forall k :: 0 <= k < |rules| ==> !Passes(rules[k].test, s)
  {
    if |rules| > 0 && !Passes(rules[0].test, s) {
      var rest := rules[1..];
      FirstMatchIff(rest, s);
      if FirstMatch(rules, s).Some? {
        var k :| 0 <= k < |rest| && Passes(rest[k].test, s) && rest[k].result == FirstMatch(rest, s).value &&
          forall j :: 0 <= j < k ==> !Passes(rest[j].test, s);
        assert rules[k + 1] == rest[k];
        assert forall j :: 0 <= j < k + 1 ==> !Passes(rules[j].test, s) by {
          forall j | 0 <= j < k + 1 ensures !Passes(rules[j].test, s) {
            if j > 0 { assert rules[j] == rest[j - 1]; }
          }
        }
      }
      if forall k :: 0 <= k < |rest| ==> !Passes(rest[k].test, s) {
        forall k | 0 <= k < |rules| ensures !Passes(rules[k].test, s) {
          if k > 0 { assert rules[k] == rest[k - 1]; }
        }
      }
    }
  }

  /** Trying the rules from position `k` on: rule `k`, then the ones after it */
  lemma FirstMatchStep(rules: seq<Rule>, k: nat, s: string)
    requires k < |rules|
    ensures FirstMatch(rules[k..], s) ==
      if Passes(rules[k].test, s) then Some(rules[k].result) else FirstMatch(rules[k + 1..], s)
  {
    assert rules[k..][1..] == rules[k + 1..];
  }

  lemma PassesAll2(s: string, a: string, b: string)
    ensures Passes(AllOf([a, b]), s) <==> Contains(s, a) && Contains(s, b)
  {
    assert [a, b][1..] == [b];
    assert [b][1..] == [];
    assert ContainsAll(s, [b]) <==> Contains(s, b);
  }

  lemma PassesAny1(s: string, a: string)
    ensures Passes(AnyOf([a]), s) <==> Contains(s, a)
  {
    assert [a][1..] == [];
    assert !ContainsAny(s, []);
  }

  lemma PassesAny2(s: string, a: string, b: string)
    ensures Passes(AnyOf([a, b]), s) <==> Contains(s, a) || Contains(s, b)
  {
    assert [a, b][1..] == [b];
    PassesAny1(s, b);
  }

  lemma PassesAny3(s: string, a: string, b: string, c: string)
    ensures Passes(AnyOf([a, b, c]), s) <==> Contains(s, a) || Contains(s, b) || Contains(s, c)
  {
    assert [a, b, c][1..] == [b, c];
    PassesAny2(s, b, c);
  }

  lemma PassesAny4(s: string, a: string, b: string, c: string, d: string)
    ensures Passes(AnyOf([a, b, c, d]), s) <==> Contains(s, a) || Contains(s, b) || Contains(s, c) || Contains(s, d)
  {
    assert [a, b, c, d][1..] == [b, c, d];
    PassesAny3(s, b, c, d);
  }

  /** The classifier described as data: the two special rules, then the table */
  function PredictByRules(typ: string, combined: string): FieldType {
    if ResumeRuleFires(typ, combined) then ResumeUpload
    else if TermsRuleFires(typ, combined) then Terms
    else FirstMatch(KeywordRules(), combined).GetOr(Unknown)
  }

  /** The chain of tests in `predictFieldType` is the rule table, tried in order. */
  lemma PredictIsFirstMatch(name: string, id: string, typ: string, labelText: string)
    ensures Predict(name, id, typ, labelText) == PredictByRules(typ, Combined(name, id, labelText))
  {
    KeywordChainIsTable(Combined(name, id, labelText));
  }

  /** The keyword tests are the rule table, tried in order */
  lemma KeywordChainIsTable(c: string)
    ensures KeywordChain(c) == FirstMatch(KeywordRules(), c).GetOr(Unknown)
  {
    assert KeywordRules()[0..] == KeywordRules();
    Rules0To3(c);
    Rules3To6(c);
    Rules6To9(c);
    Rules9To12(c);
    Rules12To15(c);
    Rules15To18(c);
  }

  /** Rules 0 to 2 of the table read as the corresponding tests of the chain */
  lemma Rules0To3(c: string)
    ensures FirstMatch(KeywordRules()[0..], c) ==
      if Contains(c, "first") && Contains(c, "name") then Some(FirstName)
      else if Contains(c, "last") && Contains(c, "name") then Some(LastName)
      else if Contains(c, "full name") || Contains(c, "fullname") then Some(FullName)
      else FirstMatch(KeywordRules()[3..], c)
  {
    TableStep(0, c);
    PassesAll2(c, "first", "name");
    TableStep(1, c);
    PassesAll2(c, "last", "name");
    TableStep(2, c);
    PassesAny2(c, "full name", "fullname");
  }

  /** Rules 3 to 5 of the table read as the corresponding tests of the chain */
  lemma Rules3To6(c: string)
    ensures FirstMatch(KeywordRules()[3..], c) ==
      if Contains(c, "email") || Contains(c, "e-mail") then Some(Email)
      else if Contains(c, "phone") || Contains(c, "mobile") || Contains(c, "cell") then Some(Phone)
      else if Contains(c, "linkedin") then Some(Linkedin)
      else FirstMatch(KeywordRules()[6..], c)
  {
    TableStep(3, c);
    PassesAny2(c, "email", "e-mail");
    TableStep(4, c);
    PassesAny3(c, "phone", "mobile", "cell");
    TableStep(5, c);
    PassesAny1(c, "linkedin");
  }

  /** Rules 6 to 8 of the table read as the corresponding tests of the chain */
  lemma Rules6To9(c: string)
    ensures FirstMatch(KeywordRules()[6..], c) ==
      if Contains(c, "github") || Contains(c, "git") then Some(Github)
      else if Contains(c, "portfolio") || Contains(c, "website") || Contains(c, "url") then Some(Portfolio)
      else if Contains(c, "cover") && Contains(c, "letter") then Some(CoverLetter)
      else FirstMatch(KeywordRules()[9..], c)
  {
    TableStep(6, c);
    PassesAny2(c, "github", "git");
    TableStep(7, c);
    PassesAny3(c, "portfolio", "website", "url");
    TableStep(8, c);
    PassesAll2(c, "cover", "letter");
  }

  /** Rules 9 to 11 of the table read as the corresponding tests of the chain */
  lemma Rules9To12(c: string)
    ensures FirstMatch(KeywordRules()[9..], c) ==
      if Contains(c, "summary") || Contains(c, "about you") || Contains(c, "bio") then Some(Summary)
      else if Contains(c, "salary") || Contains(c, "compensation") || Contains(c, "pay") || Contains(c, "expectation") then Some(SalaryExpectation)
      else if Contains(c, "currency") then Some(Currency)
      else FirstMatch(KeywordRules()[12..], c)
  {
    TableStep(9, c);
    PassesAny3(c, "summary", "about you", "bio");
    TableStep(10, c);
    PassesAny4(c, "salary", "compensation", "pay", "expectation");
    TableStep(11, c);
    PassesAny1(c, "currency");
  }

  /** Rules 12 to 14 of the table read as the corresponding tests of the chain */
  lemma Rules12To15(c: string)
    ensures FirstMatch(KeywordRules()[12..], c) ==
      if Contains(c, "relocat") then Some(Relocation)
      else if Contains(c, "remote") then Some(Remote)
      else if Contains(c, "notice") || Contains(c, "period") then Some(NoticePeriod)
      else FirstMatch(KeywordRules()[15..], c)
  {
    TableStep(12, c);
    PassesAny1(c, "relocat");
    TableStep(13, c);
    PassesAny1(c, "remote");
    TableStep(14, c);
    PassesAny2(c, "notice", "period");
  }

  /** Rules 15 to 17 of the table read as the corresponding tests of the chain */
  lemma Rules15To18(c: string)
    ensures FirstMatch(KeywordRules()[15..], c) ==
      if Contains(c, "visa") || Contains(c, "sponsorship") || Contains(c, "authorization") then Some(Visa)
      else if Contains(c, "education") || Contains(c, "university") || Contains(c, "school") || Contains(c, "degree") then Some(Education)
      else if Contains(c, "experience") || Contains(c, "work") || Contains(c, "job") then Some(Experience)
      else None
  {
    TableStep(15, c);
    PassesAny3(c, "visa", "sponsorship", "authorization");
    TableStep(16, c);
    PassesAny4(c, "education", "university", "school", "degree");
    TableStep(17, c);
    PassesAny3(c, "experience", "work", "job");
    assert KeywordRules()[18..] == [];
  }

  // ---------------------------------------------------------------------------
  // Labels

  /** The `label[for=id]` part, looked up among the labels of the element's own
      root (document or shadow root), only when the element has an id */
  function ForPart(e: Element, scopeLabels: seq<LabelFor>): string {
    if e.Id() != "" then LabelForText(scopeLabels, e.Id()).GetOr("") else ""
  }

  /** The text of the enclosing `<label>`, control included */
  function ClosestPart(e: Element): string {
    match e.closestLabel
    case Some(l) => l.text
    case None => ""
  }

  /** A non-empty attribute's value, or nothing */
  function AttrPart(e: Element, name: string): string {
    e.NonEmptyAttr(name).GetOr("")
  }

  /** The four sources of `getLabelText`, in the order they are appended */
  function RawLabel(e: Element, scopeLabels: seq<LabelFor>): string {
    ForPart(e, scopeLabels) + ClosestPart(e) + AttrPart(e, "aria-label") + AttrPart(e, "placeholder")
  }

  /** `getLabelText` of the scanner: the sources concatenated, lower-cased, trimmed */
  function ScannerLabelText(e: Element, scopeLabels: seq<LabelFor>): (r: string)
    ensures NoLeadingWs(r) && NoTrailingWs(r)
    ensures |r| <= |RawLabel(e, scopeLabels)|
  {
    Trim(ToLower(RawLabel(e, scopeLabels)))
  }

  /** The label is the lower-cased concatenation with only whitespace cut from
      its two ends, so it holds no upper-case letter. */
  lemma LabelIsTrimmedLowerRaw(e: Element, scopeLabels: seq<LabelFor>)
    ensures var low := ToLower(RawLabel(e, scopeLabels));
            var r := ScannerLabelText(e, scopeLabels);
            && (exists i :: 0 <= i && i + |r| <= |low| && r == low[i..i + |r|] && AllWs(low[..i]) && AllWs(low[i + |r|..]))
            && forall k :: 0 <= k < |r| ==> !IsUpper(r[k])
  {
    var low := ToLower(RawLabel(e, scopeLabels));
    ToLowerSpec(RawLabel(e, scopeLabels));
    assert ScannerLabelText(e, scopeLabels) == Trim(low);
    TrimIsInnerSlice(low);
  }

  /** `trim()` cuts whitespace from the two ends and keeps the middle. */
  lemma TrimIsInnerSlice(s: string)
    ensures var r := Trim(s);
            && (exists i :: 0 <= i && i + |r| <= |s| && r == s[i..i + |r|] && AllWs(s[..i]) && AllWs(s[i + |r|..]))
            && ((forall k :: 0 <= k < |s| ==> !IsUpper(s[k])) ==> forall k :: 0 <= k < |r| ==> !IsUpper(r[k]))
  {
    var r := Trim(s);
    var i := TrimOffset(s);
    assert forall k :: 0 <= k < |r| ==> r[k] == s[i + k];
  }

  /** Where the trimmed text starts inside `s` */
  lemma TrimOffset(s: string) returns (i: nat)
    ensures i + |Trim(s)| <= |s| && Trim(s) == s[i..i + |Trim(s)|]
    ensures AllWs(s[..i]) && AllWs(s[i + |Trim(s)|..])
  {
    var t := TrimStart(s);
    TrimStartSpec(s);
    var r := TrimEnd(t);
    TrimEndSpec(t);
    i := |s| - |t|;
    SuffixSlices(s, i, |r|);
  }

  /** Cutting a suffix and then a prefix of it is one slice. */
  lemma SuffixSlices(s: string, i: nat, n: nat)
    requires i + n <= |s|
    ensures s[i..][..n] == s[i..i + n] && s[i..][n..] == s[i + n..]
  {
  }

  /** `getLabelText`, accumulating the text as the scanner does */
  method GetScannerLabelText(e: Element, scopeLabels: seq<LabelFor>) returns (labelText: string)
    ensures labelText == ScannerLabelText(e, scopeLabels)
  {
    labelText := "";
    if e.Id() != "" {
      var forLabel := LabelForText(scopeLabels, e.Id());
      if forLabel.Some? {
        labelText := labelText + forLabel.value;
      }
    }
    assert labelText == ForPart(e, scopeLabels);
    if e.closestLabel.Some? {
      labelText := labelText + e.closestLabel.value.text;
    }
    assert labelText == ForPart(e, scopeLabels) + ClosestPart(e);
    var ariaLabel := e.Attr("aria-label");
    if ariaLabel.Some? && ariaLabel.value != "" {
      labelText := labelText + ariaLabel.value;
    }
    assert labelText == ForPart(e, scopeLabels) + ClosestPart(e) + AttrPart(e, "aria-label");
    var placeholder := e.Attr("placeholder");
    if placeholder.Some? && placeholder.value != "" {
      labelText := labelText + placeholder.value;
    }
    assert labelText == RawLabel(e, scopeLabels);
    labelText := ToLower(labelText);
    labelText := Trim(labelText);
  }

  // ---------------------------------------------------------------------------
  // Strategies

  datatype Strategy = TextStrategy | CheckboxStrategy | RadioStrategy | SelectStrategy | FileStrategy

  /** `determineStrategy`: checkbox, radio and file inputs by their `type`
      property, selects, and everything else as text */
  function DetermineStrategy(e: Element): Strategy {
    if e.IsInput() && e.TypeProp() == "checkbox" then CheckboxStrategy
    else if e.IsInput() && e.TypeProp() == "radio" then RadioStrategy
    else if e.IsInput() && e.TypeProp() == "file" then FileStrategy
    else if e.tag == "select" then SelectStrategy
    else TextStrategy
  }

  /** An input whose type attribute reads "file" in any case is filled with a
      file and is classified as the resume upload; an input classified as a
      terms box is a checkbox. */
  lemma StrategyAgreesWithPrediction(e: Element, labelText: string)
    requires e.IsInput()
    ensures DetermineStrategy(e) == FileStrategy ==> PredictFieldType(e, labelText) == ResumeUpload
    ensures PredictFieldType(e, labelText) == Terms ==> DetermineStrategy(e) == CheckboxStrategy
  {
    var typ := ToLower(e.Attr("type").GetOr(""));
    TableNeverSpecial(Combined(ToLower(e.Attr("name").GetOr("")), ToLower(e.Id()), labelText));
    if typ == "checkbox" {
      assert "checkbox" in KnownInputTypes;
      assert e.TypeProp() == "checkbox";
    }
  }

  /** No keyword rule yields the resume, terms or unknown classification. */
  lemma TableNeverSpecial(c: string)
    ensures FirstMatch(KeywordRules(), c).Some? ==>
              FirstMatch(KeywordRules(), c).value !in {ResumeUpload, Terms, Unknown}
  {
    FirstMatchIff(KeywordRules(), c);
  }

  /** `TextStrategy.fill` and `SelectStrategy.fill`: the native setter, the
      fallback assignment, then the four events; a setter that throws ends
      the fill there */
  method FillText(e: Element, v: string) returns (thrown: bool)
    modifies e
    ensures thrown <==> e.SetterThrows(v)
    ensures thrown ==> e.value == old(e.value) && e.events == old(e.events) && e.files == old(e.files)
    ensures !thrown ==> e.value == v && e.events == old(e.events) + WriteEvents
    ensures !thrown ==> e.files == if e.IsFileInput() then [] else old(e.files)
    ensures e.checked == old(e.checked) && e.focused == old(e.focused)
  {
    thrown := e.SetValue(v);
    if thrown {
      return;
    }
    e.value := v;
    e.DispatchWriteEvents();
  }

  /** The scan never gives a file input the text or select strategy, so
      their fills never meet the throwing setter. */
  lemma TextStrategyNeverThrows(e: Element, v: string)
    requires DetermineStrategy(e) in {TextStrategy, SelectStrategy}
    ensures !e.SetterThrows(v)
  {
  }

  /** `CheckboxStrategy.fill`: nothing when the box is already in the wanted
      state; otherwise a click, and when the click did not get there, a forced
      assignment followed by the four events */
  method FillCheckbox(e: Element, v: bool)
    modifies e
    ensures e.checked == v
    ensures old(e.checked) == v ==> e.events == old(e.events)
    ensures old(e.checked) != v && e.AfterClick(old(e.checked)) == v ==> e.events == old(e.events)
    ensures old(e.checked) != v && e.AfterClick(old(e.checked)) != v ==> e.events == old(e.events) + WriteEvents
    ensures e.value == old(e.value) && e.files == old(e.files) && e.focused == old(e.focused)
  {
    if e.checked != v {
      e.Click();
      if e.checked != v {
        e.checked := v;
        e.DispatchWriteEvents();
      }
    }
  }

  /** `RadioStrategy.fill`: the value is ignored; a click, a forced check and
      the four events */
  method FillRadio(e: Element, v: string)
    modifies e
    ensures e.checked
    ensures e.events == old(e.events) + WriteEvents
    ensures e.value == old(e.value) && e.files == old(e.files) && e.focused == old(e.focused)
  {
    e.Click();
    e.checked := true;
    e.DispatchWriteEvents();
  }

  /** `FileStrategy.fill`: the input's file list becomes the one file */
  method FillFile(e: Element, f: FileBlob)
    modifies e
    ensures e.files == [f]
    ensures e.events == old(e.events) + WriteEvents
    ensures e.value == old(e.value) && e.checked == old(e.checked) && e.focused == old(e.focused)
  {
    e.files := [f];
    e.DispatchWriteEvents();
  }

  /** The values the chat widget hands to `fillField`: strings, numbers,
      booleans and files */
  datatype FillValue = TextValue(s: string) | NumberValue(n: int) | BoolValue(b: bool) | FileValue(f: FileBlob)

  /** `String(value)`, as the `value` setter converts it */
  function ValueString(v: FillValue): (r: string)
    ensures v.TextValue? ==> r == v.s
    ensures v.BoolValue? ==> (r == "true" <==> v.b) && (r == "false" <==> !v.b)
    ensures v.NumberValue? ==> |r| >= 1 && (r[0] == '-' <==> v.n < 0)
  {
    match v
    case TextValue(s) => s
    case NumberValue(n) => IntToString(n)
    case BoolValue(b) => if b then "true" else "false"
    case FileValue(_) => "[object File]"
  }

  /** `!!value`, as the `checked` setter converts it */
  predicate ValueTruthy(v: FillValue) {
    match v
    case TextValue(s) => s != ""
    case NumberValue(n) => n != 0
    case BoolValue(b) => b
    case FileValue(_) => true
  }

  /** `fillField(descriptor, value)`: the descriptor's strategy fills its
      element. A checkbox given a value that is not a boolean never compares
      equal to `checked`, so it is clicked and then forced to the value's
      truthiness; a file input given anything but a file makes
      `DataTransfer.items.add` throw before the element changes, reported
      here as `thrown`. */
  method FillField(d: Descriptor, v: FillValue) returns (thrown: bool)
    modifies d.element
    ensures thrown <==> (d.strategy == FileStrategy && !v.FileValue?) ||
                        (d.strategy in {TextStrategy, SelectStrategy} && d.element.SetterThrows(ValueString(v)))
    ensures thrown ==> d.element.events == old(d.element.events) && d.element.files == old(d.element.files)
    ensures thrown ==> d.element.value == old(d.element.value) && d.element.checked == old(d.element.checked)
    ensures d.strategy in {TextStrategy, SelectStrategy} && !thrown ==>
      d.element.value == ValueString(v) && d.element.events == old(d.element.events) + WriteEvents
      && d.element.files == (if d.element.IsFileInput() then [] else old(d.element.files))
    ensures d.strategy in {TextStrategy, SelectStrategy} ==> d.element.checked == old(d.element.checked)
    ensures d.strategy !in {TextStrategy, SelectStrategy} ==> d.element.value == old(d.element.value)
    ensures d.strategy == FileStrategy ==> d.element.checked == old(d.element.checked)
    ensures d.strategy == CheckboxStrategy ==> d.element.checked == ValueTruthy(v)
    ensures d.strategy == CheckboxStrategy && !v.BoolValue? ==> d.element.events == old(d.element.events) + WriteEvents
    ensures d.strategy == CheckboxStrategy && v.BoolValue? ==>
      if old(d.element.checked) == v.b || d.element.AfterClick(old(d.element.checked)) == v.b
      then d.element.events == old(d.element.events)
      else d.element.events == old(d.element.events) + WriteEvents
    ensures d.strategy == RadioStrategy ==> d.element.checked && d.element.events == old(d.element.events) + WriteEvents
    ensures d.strategy == FileStrategy && v.FileValue? ==>
      d.element.files == [v.f] && d.element.events == old(d.element.events) + WriteEvents
    ensures d.strategy in {CheckboxStrategy, RadioStrategy} ==> d.element.files == old(d.element.files)
    ensures d.element.focused == old(d.element.focused)
  {
    var e := d.element;
    thrown := false;
    match d.strategy
    case TextStrategy => thrown := FillText(e, ValueString(v));
    case SelectStrategy => thrown := FillText(e, ValueString(v));
    case CheckboxStrategy =>
      if v.BoolValue? {
        FillCheckbox(e, v.b);
      } else {
        e.Click();
        e.checked := ValueTruthy(v);
        e.DispatchWriteEvents();
      }
    case RadioStrategy => FillRadio(e, ValueString(v));
    case FileStrategy =>
      if v.FileValue? {
        FillFile(e, v.f);
      } else {
        thrown := true;
      }
  }

  // ---------------------------------------------------------------------------
  // Scanning

  /** A document or shadow root: its form controls (`input, textarea, select`)
      in document order, its `label[for]` elements, and the shadow roots of its
      elements in document order */
  datatype ScanRoot = ScanRoot(controls: seq<Element>, labels: seq<LabelFor>, shadowRoots: seq<ScanRoot>)

  /** What the scanner records about one control */
  datatype Descriptor = Descriptor(
    element: Element,
    id: string,
    name: string,
    typ: string,
    labelText: string,
    predictedType: FieldType,
    strategy: Strategy)

  /** Hidden, submit and button inputs, and elements without an offset parent */
  predicate Skipped(e: Element) {
    (e.IsInput() && e.TypeProp() in {"hidden", "submit", "button"}) || e.offsetParentNull
  }

  /** The descriptor of a control that is not skipped */
  function Describe(e: Element, scopeLabels: seq<LabelFor>): Descriptor {
    var lbl := ScannerLabelText(e, scopeLabels);
    Descriptor(e, e.Id(), e.Attr("name").GetOr(""), e.NonEmptyAttr("type").GetOr(e.tag), lbl,
               PredictFieldType(e, lbl), DetermineStrategy(e))
  }

  /** How a control becomes a descriptor, given the labels of its root */
  type Describer = (Element, seq<LabelFor>) -> Descriptor

  /** Descriptors of a run of controls, in order: the controls that are not
      skipped, each described */
  function ControlsBy(es: seq<Element>, scopeLabels: seq<LabelFor>, describe: Describer): (ds: seq<Descriptor>)
    ensures |ds| <= |es|
  {
    if es == [] then []
    else
      ControlsBy(es[..|es| - 1], scopeLabels, describe) +
      (if Skipped(es[|es| - 1]) then [] else [describe(es[|es| - 1], scopeLabels)])
  }

  /** A root's own controls, then each shadow root's descriptors, in order */
  function ScanBy(r: ScanRoot, describe: Describer): seq<Descriptor>
    decreases r, |r.shadowRoots| + 1
  {
    ControlsBy(r.controls, r.labels, describe) + ShadowsBy(r, |r.shadowRoots|, describe)
  }

  /** Descriptors of the first `n` shadow roots of `r` */
  function ShadowsBy(r: ScanRoot, n: nat, describe: Describer): seq<Descriptor>
    requires n <= |r.shadowRoots|
    decreases r, n
  {
    if n == 0 then [] else ShadowsBy(r, n - 1, describe) + ScanBy(r.shadowRoots[n - 1], describe)
  }

  /** `scanElement(root)` */
  function Scan(r: ScanRoot): seq<Descriptor> {
    ScanBy(r, Describe)
  }

  /** The descriptors of a run of controls are exactly the descriptions of its
      controls that are not skipped. */
  lemma {:induction false} ControlsByMembers(es: seq<Element>, scopeLabels: seq<LabelFor>, describe: Describer)
    ensures forall d :: d in ControlsBy(es, scopeLabels, describe) ==>
              exists e :: e in es && !Skipped(e) && d == describe(e, scopeLabels)
    ensures forall e :: e in es && !Skipped(e) ==> describe(e, scopeLabels) in ControlsBy(es, scopeLabels, describe)
  {
    if es != [] {
      var init := es[..|es| - 1];
      ControlsByMembers(init, scopeLabels, describe);
      assert forall e :: e in es ==> e in init || e == es[|es| - 1];
      assert forall e :: e in init ==> e in es;
    }
  }

  /** Every descriptor is the description of a control that is not skipped. */
  lemma {:induction false} ScanByNotSkipped(r: ScanRoot, describe: Describer)
    ensures forall d :: d in ScanBy(r, describe) ==>
              exists e, l :: !Skipped(e) && d == describe(e, l)
    decreases r, |r.shadowRoots| + 1
  {
    ControlsByMembers(r.controls, r.labels, describe);
    ShadowsByNotSkipped(r, |r.shadowRoots|, describe);
  }

  lemma {:induction false} ShadowsByNotSkipped(r: ScanRoot, n: nat, describe: Describer)
    requires n <= |r.shadowRoots|
    ensures forall d :: d in ShadowsBy(r, n, describe) ==>
              exists e, l :: !Skipped(e) && d == describe(e, l)
    decreases r, n
  {
    if n > 0 {
      ShadowsByNotSkipped(r, n - 1, describe);
      ScanByNotSkipped(r.shadowRoots[n - 1], describe);
    }
  }

  /** No descriptor of the scan comes from a skipped control, and every
      descriptor's type, strategy and label agree with its element. */
  lemma ScannedNotSkipped(r: ScanRoot)
    ensures forall d :: d in Scan(r) ==>
              && !Skipped(d.element) && d.id == d.element.Id()
              && d.predictedType == PredictFieldType(d.element, d.labelText)
              && d.strategy == DetermineStrategy(d.element)
  {
    ScanByNotSkipped(r, Describe);
  }

  /** Every control of the root that is not skipped is described with the
      root's labels, and every descriptor of every shadow root is among the
      root's. */
  lemma ScanComplete(r: ScanRoot)
    ensures forall e :: e in r.controls && !Skipped(e) ==> Describe(e, r.labels) in Scan(r)
    ensures forall k, d :: 0 <= k < |r.shadowRoots| && d in Scan(r.shadowRoots[k]) ==> d in Scan(r)
  {
    ControlsByMembers(r.controls, r.labels, Describe);
    forall k, d | 0 <= k < |r.shadowRoots| && d in Scan(r.shadowRoots[k]) ensures d in Scan(r) {
      ShadowIncluded(r, k, |r.shadowRoots|, Describe);
    }
  }

  lemma {:induction false} ShadowIncluded(r: ScanRoot, k: nat, n: nat, describe: Describer)
    requires k < n <= |r.shadowRoots|
    ensures forall d :: d in ScanBy(r.shadowRoots[k], describe) ==> d in ShadowsBy(r, n, describe)
    decreases n
  {
    if k < n - 1 {
      ShadowIncluded(r, k, n - 1, describe);
    }
  }

  /** A shadow root appended to a root appends its descriptors. */
  lemma ShadowRootAppended(r: ScanRoot, s: ScanRoot)
    ensures Scan(ScanRoot(r.controls, r.labels, r.shadowRoots + [s])) == Scan(r) + Scan(s)
  {
    ShadowAppendedBy(r, s, Describe);
  }

  lemma ShadowAppendedBy(r: ScanRoot, s: ScanRoot, describe: Describer)
    ensures ScanBy(ScanRoot(r.controls, r.labels, r.shadowRoots + [s]), describe) == ScanBy(r, describe) + ScanBy(s, describe)
  {
    var r' := ScanRoot(r.controls, r.labels, r.shadowRoots + [s]);
    ShadowsPrefix(r, r', |r.shadowRoots|, describe);
  }

  lemma {:induction false} ShadowsPrefix(r: ScanRoot, r': ScanRoot, n: nat, describe: Describer)
    requires n <= |r.shadowRoots| <= |r'.shadowRoots|
    requires r'.shadowRoots[..|r.shadowRoots|] == r.shadowRoots
    ensures ShadowsBy(r, n, describe) == ShadowsBy(r', n, describe)
    decreases n
  {
    if n > 0 {
      ShadowsPrefix(r, r', n - 1, describe);
      assert r.shadowRoots[n - 1] == r'.shadowRoots[..|r.shadowRoots|][n - 1];
    }
  }

  lemma AppendAssoc<T>(a: seq<T>, b: seq<T>, c: seq<T>)
    ensures a + b + c == a + (b + c)
  {
  }

  /** The record literal of `scanElement` for one control */
  method RecordDescriptor(e: Element, scopeLabels: seq<LabelFor>) returns (d: Descriptor)
    ensures d == Describe(e, scopeLabels)
  {
    var lbl := GetScannerLabelText(e, scopeLabels);
    var predicted := PredictFieldType(e, lbl);
    var strategy := DetermineStrategy(e);
    var typ := e.Attr("type");
    d := Descriptor(e, e.Id(), e.Attr("name").GetOr(""),
                    if typ.Some? && typ.value != "" then typ.value else e.tag,
                    lbl, predicted, strategy);
  }

  /** One pass of the controls loop of `scanElement`: a hidden, submit or
      button input is passed over, so is an element without an offset parent;
      any other control has its record pushed */
  method VisitControl(descriptors: seq<Descriptor>, e: Element, scopeLabels: seq<LabelFor>, describe: Describer)
    returns (ds: seq<Descriptor>)
    ensures ds == descriptors + (if Skipped(e) then [] else [describe(e, scopeLabels)])
  {
    if e.IsInput() && (e.TypeProp() == "hidden" || e.TypeProp() == "submit" || e.TypeProp() == "button") {
      ds := descriptors;
    } else if e.offsetParentNull {
      ds := descriptors;
    } else {
      ds := descriptors + [describe(e, scopeLabels)];
    }
  }

  /** The controls loop of `scanElement`; `describe` builds the record of one
      control from the labels of its root */
  method ScanControls(es: seq<Element>, scopeLabels: seq<LabelFor>, describe: Describer) returns (descriptors: seq<Descriptor>)
    ensures descriptors == ControlsBy(es, scopeLabels, describe)
  {
    descriptors := [];
    var i := 0;
    while i < |es|
      invariant 0 <= i <= |es|
      invariant descriptors == ControlsBy(es[..i], scopeLabels, describe)
    {
      assert es[..i + 1][..i] == es[..i];
      descriptors := VisitControl(descriptors, es[i], scopeLabels, describe);
      i := i + 1;
    }
    assert es[..i] == es;
  }

  /** `scanElement`: the root's controls, then every shadow root in turn */
  method ScanElement(r: ScanRoot, describe: Describer) returns (descriptors: seq<Descriptor>)
    ensures descriptors == ScanBy(r, describe)
    decreases r, |r.shadowRoots| + 1
  {
    descriptors := ScanControls(r.controls, r.labels, describe);
    ghost var own := descriptors;
    var j := 0;
    while j < |r.shadowRoots|
      invariant 0 <= j <= |r.shadowRoots|
      invariant descriptors == own + ShadowsBy(r, j, describe)
    {
      var inner := ScanElement(r.shadowRoots[j], describe);
      assert ShadowsBy(r, j + 1, describe) == ShadowsBy(r, j, describe) + inner;
      AppendAssoc(own, ShadowsBy(r, j, describe), inner);
      descriptors := descriptors + inner;
      j := j + 1;
    }
  }

  /** `scanForm`: the whole document, each record built as `scanElement` builds it */
  method ScanForm(document: ScanRoot) returns (descriptors: seq<Descriptor>)
    ensures descriptors == Scan(document)
  {
    descriptors := ScanElement(document, Describe);
  }
}
