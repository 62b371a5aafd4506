/** How well a discovered form field fits a canonical field type: an additive
    score over the field's attribute strings, driven by a fixed synonym table. */
module FieldScoring {
  import opened Wrappers
  import opened Strings
  import opened CanonicalProfile
  import opened FieldDiscovery

  /** Keywords for one type: `attributes` are compared with name, id and
      autocomplete; `labels` are looked for in label, placeholder and aria-label. */
  datatype SynonymEntry = SynonymEntry(attributes: seq<string>, labels: seq<string>)

  /** The synonym table; types without an entry are never scored. */
  function Synonyms(t: CanonicalFieldType): Option<SynonymEntry> {
    match t
    case FirstName => Some(SynonymEntry(
      ["firstname", "first_name", "givenname", "given_name", "fname", "name_first"],
      ["first name", "given name", "first"]))
    case LastName => Some(SynonymEntry(
      ["lastname", "last_name", "surname", "familyname", "family_name", "lname", "name_last"],
      ["last name", "surname", "family name", "last"]))
    case FullName => Some(SynonymEntry(
      ["fullname", "full_name", "name"],
      ["full name", "your name", "name"]))
    case Email => Some(SynonymEntry(
      ["email", "e-mail", "emailaddress", "email_address"],
      ["email", "e-mail", "email address"]))
    case Phone => Some(SynonymEntry(
      ["phone", "phonenumber", "phone_number", "mobile", "cell", "tel", "telephone"],
      ["phone", "mobile", "cell", "telephone", "number"]))
    case LinkedinUrl => Some(SynonymEntry(
      ["linkedin", "linkedin_url", "linkedin_profile"],
      ["linkedin", "linkedin profile", "linkedin url"]))
    case PortfolioUrl => Some(SynonymEntry(
      ["portfolio", "website", "url", "link"],
      ["portfolio", "website", "personal site", "link to portfolio"]))
    case Resume => Some(SynonymEntry(
      ["resume", "cv", "curriculum_vitae", "file", "upload"],
      ["resume", "cv", "curriculum vitae", "upload resume"]))
    case CoverLetter => Some(SynonymEntry(
      ["coverletter", "cover_letter", "letter"],
      ["cover letter", "add a cover letter"]))
    case City => Some(SynonymEntry(["city", "town"], ["city", "town"]))
    case Country => Some(SynonymEntry(["country", "nation"], ["country", "nation"]))
    case _ => None
  }

  predicate IsLowerAlnum(c: char) { 'a' <= c <= 'z' || '0' <= c <= '9' }

  /** `replace(/[^a-z0-9]/g, '')` */
  function KeepLowerAlnum(s: string): (r: string)
    ensures |r| <= |s|
    ensures forall i :: 0 <= i < |r| ==> IsLowerAlnum(r[i])
  {
    if s == [] then []
    else (if IsLowerAlnum(s[0]) then [s[0]] else []) + KeepLowerAlnum(s[1..])
  }

  /** `normalize`: lower-case, then drop everything but `a`-`z` and `0`-`9` */
  function Normalize(s: string): string {
    KeepLowerAlnum(ToLower(s))
  }

  lemma {:induction false} KeepLowerAlnumAppend(a: string, b: string)
    ensures KeepLowerAlnum(a + b) == KeepLowerAlnum(a) + KeepLowerAlnum(b)
  {
    if a == [] {
      assert a + b == b;
    } else {
      var head := if IsLowerAlnum(a[0]) then [a[0]] else [];
      assert (a + b)[0] == a[0];
      assert (a + b)[1..] == a[1..] + b;
      KeepLowerAlnumAppend(a[1..], b);
      calc {
        KeepLowerAlnum(a + b);
        head + KeepLowerAlnum(a[1..] + b);
        head + (KeepLowerAlnum(a[1..]) + KeepLowerAlnum(b));
        (head + KeepLowerAlnum(a[1..])) + KeepLowerAlnum(b);
        KeepLowerAlnum(a) + KeepLowerAlnum(b);
      }
    }
  }

  lemma {:induction false} KeepLowerAlnumOfLowerAlnum(s: string)
    requires forall i :: 0 <= i < |s| ==> IsLowerAlnum(s[i])
    ensures KeepLowerAlnum(s) == s
  {
    if s != [] {
      KeepLowerAlnumOfLowerAlnum(s[1..]);
    }
  }

  /** Normalising ignores case and is idempotent, and it splits over
      concatenation, so separators such as `-` and `_` vanish wherever they are. */
  lemma NormalizeProperties(a: string, b: string)
    ensures Normalize(ToLower(a)) == Normalize(a)
    ensures Normalize(Normalize(a)) == Normalize(a)
    ensures Normalize(a + b) == Normalize(a) + Normalize(b)
  {
    ToLowerIdempotent(a);
    var n := Normalize(a);
    assert ToLower(n) == n;
    KeepLowerAlnumOfLowerAlnum(n);
    ToLowerAppend(a, b);
    KeepLowerAlnumAppend(ToLower(a), ToLower(b));
  }

  /** A character that is not a lower-cased letter or digit (a separator such
      as `-` or `_`) vanishes wherever it stands, so "First-Name" and
      "first_name" normalise alike. */
  lemma SeparatorVanishes(a: string, sep: char, b: string)
    requires !IsLowerAlnum(LowerChar(sep))
    ensures Normalize(a + [sep] + b) == Normalize(a + b)
  {
    NormalizeProperties(a + [sep], b);
    NormalizeProperties(a, [sep]);
    NormalizeProperties(a, b);
    assert ToLower([sep]) == [LowerChar(sep)];
    assert KeepLowerAlnum([LowerChar(sep)]) == [];
  }

  /** `containsKeyword`: a non-empty text whose lower-cased form includes a keyword */
  predicate ContainsKeyword(text: string, keywords: seq<string>) {
    text != "" && ContainsAny(ToLower(text), keywords)
  }

  /** `attributes.some(attr => normName === normalize(attr) || normId === normalize(attr))` */
  predicate NameOrIdMatches(normName: string, normId: string, attributes: seq<string>) {
    |attributes| > 0 &&
    (normName == Normalize(attributes[0]) || normId == Normalize(attributes[0]) ||
     NameOrIdMatches(normName, normId, attributes[1..]))
  }

  lemma {:induction false} NameOrIdMatchesIff(normName: string, normId: string, attributes: seq<string>)
    ensures NameOrIdMatches(normName, normId, attributes) <==>
            exists i :: 0 <= i < |attributes| &&
                        (normName == Normalize(attributes[i]) || normId == Normalize(attributes[i]))
  {
    if |attributes| > 0 {
      NameOrIdMatchesIff(normName, normId, attributes[1..]);
      if exists i :: 1 <= i < |attributes| &&
                     (normName == Normalize(attributes[i]) || normId == Normalize(attributes[i])) {
        var i :| 1 <= i < |attributes| &&
                 (normName == Normalize(attributes[i]) || normId == Normalize(attributes[i]));
        assert attributes[1..][i - 1] == attributes[i];
      }
    }
  }

  // The five text signals of the score

  predicate NameIdSignal(c: Candidate, d: SynonymEntry) {
    NameOrIdMatches(Normalize(c.nameAttr.GetOr("")), Normalize(c.idAttr.GetOr("")), d.attributes)
  }

  predicate AutocompleteSignal(c: Candidate, d: SynonymEntry) {
    c.autocompleteAttr.Some? && c.autocompleteAttr.value != "" &&
    ContainsAny(c.autocompleteAttr.value, d.attributes)
  }

  predicate LabelSignal(c: Candidate, d: SynonymEntry) {
    ContainsKeyword(ToLower(c.labelText.GetOr("")), d.labels)
  }

  predicate PlaceholderSignal(c: Candidate, d: SynonymEntry) {
    ContainsKeyword(ToLower(c.placeholder.GetOr("")), d.labels)
  }

  predicate AriaSignal(c: Candidate, d: SynonymEntry) {
    ContainsKeyword(ToLower(c.ariaLabel.GetOr("")), d.labels)
  }

  /** Boosts and penalties from the raw `type` attribute */
  function KindAdjustment(t: CanonicalFieldType, inputType: Option<string>): (r: int)
    ensures -100 <= r <= 20
  {
    (if t == Email && inputType == Some("email") then 20 else 0) +
    (if t == Phone && inputType == Some("tel") then 20 else 0) +
    (if t == Resume && inputType == Some("file") then 20 else 0) -
    (if t == Email && inputType == Some("tel") then 100 else 0) -
    (if t == Phone && inputType == Some("email") then 100 else 0)
  }

  /** `scoreCandidate`: 0 for a type without synonyms; otherwise +50 name/id,
      +60 autocomplete, +40 label, +30 placeholder, +35 aria-label, plus the
      kind adjustment. */
  function ScoreCandidate(c: Candidate, t: CanonicalFieldType): (r: int)
    ensures Synonyms(t).None? ==> r == 0
    ensures -100 <= r <= 235
  {
    match Synonyms(t)
    case None => 0
    case Some(d) => SignalScore(c, d) + KindAdjustment(t, c.inputType)
  }

  /** The sum of the weights of the text signals a field fires */
  function SignalScore(c: Candidate, d: SynonymEntry): (r: int)
    ensures 0 <= r <= 215
  {
    (if NameIdSignal(c, d) then 50 else 0) +
    (if AutocompleteSignal(c, d) then 60 else 0) +
    (if LabelSignal(c, d) then 40 else 0) +
    (if PlaceholderSignal(c, d) then 30 else 0) +
    (if AriaSignal(c, d) then 35 else 0)
  }

  /** Each signal, restated without the `some` loops: name/id by normalised
      equality, autocomplete by raw case-sensitive substring, the three texts by
      case-insensitive substring of a non-empty text. */
  lemma SignalsIff(c: Candidate, d: SynonymEntry)
    ensures NameIdSignal(c, d) <==>
      exists i :: 0 <= i < |d.attributes| &&
        (Normalize(c.nameAttr.GetOr("")) == Normalize(d.attributes[i]) ||
         Normalize(c.idAttr.GetOr("")) == Normalize(d.attributes[i]))
    ensures AutocompleteSignal(c, d) <==>
      c.autocompleteAttr.Some? && c.autocompleteAttr.value != "" &&
      exists i :: 0 <= i < |d.attributes| && Contains(c.autocompleteAttr.value, d.attributes[i])
    ensures LabelSignal(c, d) <==>
      c.labelText.GetOr("") != "" &&
      exists i :: 0 <= i < |d.labels| && Contains(ToLower(c.labelText.GetOr("")), d.labels[i])
    ensures PlaceholderSignal(c, d) <==>
      c.placeholder.GetOr("") != "" &&
      exists i :: 0 <= i < |d.labels| && Contains(ToLower(c.placeholder.GetOr("")), d.labels[i])
    ensures AriaSignal(c, d) <==>
      c.ariaLabel.GetOr("") != "" &&
      exists i :: 0 <= i < |d.labels| && Contains(ToLower(c.ariaLabel.GetOr("")), d.labels[i])
  {
    NameOrIdMatchesIff(Normalize(c.nameAttr.GetOr("")), Normalize(c.idAttr.GetOr("")), d.attributes);
    if c.autocompleteAttr.Some? {
      ContainsAnyIff(c.autocompleteAttr.value, d.attributes);
    }
    var l, p, a := c.labelText.GetOr(""), c.placeholder.GetOr(""), c.ariaLabel.GetOr("");
    ToLowerIdempotent(l);
    ToLowerIdempotent(p);
    ToLowerIdempotent(a);
    ContainsAnyIff(ToLower(l), d.labels);
    ContainsAnyIff(ToLower(p), d.labels);
    ContainsAnyIff(ToLower(a), d.labels);
  }

  /** The score depends on name, id, autocomplete, label, placeholder,
      aria-label and type only: classes, surrounding text and the
      aria-labelledby text play no part. */
  lemma ScoreIgnoresOtherFields(c1: Candidate, c2: Candidate, t: CanonicalFieldType)
    requires c1.nameAttr == c2.nameAttr && c1.idAttr == c2.idAttr
    requires c1.autocompleteAttr == c2.autocompleteAttr && c1.labelText == c2.labelText
    requires c1.placeholder == c2.placeholder && c1.ariaLabel == c2.ariaLabel
    requires c1.inputType == c2.inputType
    ensures ScoreCandidate(c1, t) == ScoreCandidate(c2, t)
  {
    if Synonyms(t).Some? {
      SignalScoreIgnoresOtherFields(c1, c2, Synonyms(t).value);
    }
  }

  /** A field that fires every signal another field fires, with the same
      type attribute, scores at least as much. */
  lemma ScoreMonotone(c1: Candidate, c2: Candidate, t: CanonicalFieldType)
    requires c1.inputType == c2.inputType
    requires Synonyms(t).Some?
    requires NameIdSignal(c1, Synonyms(t).value) ==> NameIdSignal(c2, Synonyms(t).value)
    requires AutocompleteSignal(c1, Synonyms(t).value) ==> AutocompleteSignal(c2, Synonyms(t).value)
    requires LabelSignal(c1, Synonyms(t).value) ==> LabelSignal(c2, Synonyms(t).value)
    requires PlaceholderSignal(c1, Synonyms(t).value) ==> PlaceholderSignal(c2, Synonyms(t).value)
    requires AriaSignal(c1, Synonyms(t).value) ==> AriaSignal(c2, Synonyms(t).value)
    ensures ScoreCandidate(c1, t) <= ScoreCandidate(c2, t)
  {
    SignalScoreMonotone(c1, c2, Synonyms(t).value);
  }

  lemma SignalScoreIgnoresOtherFields(c1: Candidate, c2: Candidate, d: SynonymEntry)
    requires c1.nameAttr == c2.nameAttr && c1.idAttr == c2.idAttr
    requires c1.autocompleteAttr == c2.autocompleteAttr && c1.labelText == c2.labelText
    requires c1.placeholder == c2.placeholder && c1.ariaLabel == c2.ariaLabel
    ensures SignalScore(c1, d) == SignalScore(c2, d)
  {
  }

  lemma SignalScoreMonotone(c1: Candidate, c2: Candidate, d: SynonymEntry)
    requires NameIdSignal(c1, d) ==> NameIdSignal(c2, d)
    requires AutocompleteSignal(c1, d) ==> AutocompleteSignal(c2, d)
    requires LabelSignal(c1, d) ==> LabelSignal(c2, d)
    requires PlaceholderSignal(c1, d) ==> PlaceholderSignal(c2, d)
    requires AriaSignal(c1, d) ==> AriaSignal(c2, d)
    ensures SignalScore(c1, d) <= SignalScore(c2, d)
  {
  }
}
