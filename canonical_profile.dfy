/** The canonical profile the form-filling engine fills from, the closed set of
    semantic field types, and the mapping from a stored CV profile and the
    user's preferences to a canonical profile. */
module CanonicalProfile {
  import opened Wrappers
  import opened Strings
  import opened Schema

  datatype CanonicalFieldType =
    | FirstName | LastName | FullName | Email | Phone | Country | City | Location
    | LinkedinUrl | PortfolioUrl | WebsiteUrl
    | WorkAuthorization | SponsorshipRequired | RelocationWillingness | RemotePreference
    | DesiredSalary | YearsExperience
    | Resume | CoverLetter
    | YesNo | FreeText | Unknown

  datatype Personal = Personal(
    firstName: string,
    lastName: string,
    fullName: string,
    email: string,
    phone: string,
    country: Option<string>,
    city: Option<string>,
    locationString: string,
    linkedinUrl: Option<string>,
    portfolioUrl: Option<string>,
    websiteUrl: Option<string>)

  datatype ApplicationDefaults = ApplicationDefaults(
    workAuthorization: bool,
    sponsorshipRequired: bool,
    willingToRelocate: bool,
    willingToRemote: bool,
    desiredSalary: Option<string>,
    yearsExperience: Option<int>)

  datatype ResumeFile = ResumeFile(data: string, name: string)

  datatype Files = Files(resume: Option<ResumeFile>, coverLetter: Option<string>)

  datatype Computed = Computed(skills: seq<string>, fullTextSummary: string)

  datatype CanonicalProfile = CanonicalProfile(
    personal: Personal,
    applicationDefaults: ApplicationDefaults,
    files: Files,
    computed: Computed)

  /** JavaScript truthiness of an optional string: present and non-empty */
  predicate Truthy(s: Option<string>) {
    s.Some? && s.value != ""
  }

  /** `(full_name || '').trim().split(/\s+/)` */
  function NameParts(fullName: Option<string>): seq<string> {
    SplitWs(Trim(fullName.GetOr("")))
  }

  /** First name: the first token; last name: the remaining tokens joined by
      single spaces, or "" when there is at most one token. */
  function SplitName(fullName: Option<string>): (string, string) {
    var parts := NameParts(fullName);
    var first := if |parts| > 0 then parts[0] else "";
    var last := if |parts| > 1 then Join(parts[1..], " ") else "";
    (first, last)
  }

  lemma JoinNonEmpty(parts: seq<string>, sep: string)
    requires |parts| >= 1 && parts[0] != ""
    ensures Join(parts, sep) != ""
  {
  }

  /** Splitting a name loses only whitespace: the first name carries no
      whitespace, a last name exists only beside a first name, and putting the
      two back together with one space gives the trimmed full name with its
      whitespace runs collapsed. */
  lemma NameSplitRoundTrip(fullName: Option<string>)
    ensures NoWs(SplitName(fullName).0)
    ensures SplitName(fullName).0 == "" <==> Trim(fullName.GetOr("")) == ""
    ensures SplitName(fullName).1 != "" ==> SplitName(fullName).0 != ""
    ensures (var (first, last) := SplitName(fullName);
             (if last == "" then first else first + " " + last) == Collapse(Trim(fullName.GetOr(""))))
  {
    var t := Trim(fullName.GetOr(""));
    var parts := SplitWs(t);
    JoinSplitWs(t);
    if t == "" {
      assert parts == [""];
    } else {
      SplitWsTrimmed(t);
      assert parts[0] != "" && NoWs(parts[0]);
      if |parts| > 1 {
        assert parts[1..][0] == parts[1];
        JoinNonEmpty(parts[1..], " ");
      }
    }
  }

  /** `mapUserToCanonical(user, prefs)` */
  function MapUserToCanonical(user: UserProfile, prefs: UserPreferences): (r: CanonicalProfile)
    ensures r.personal.fullName == user.fullName.GetOr("")
    ensures (r.personal.firstName, r.personal.lastName) == SplitName(user.fullName)
    ensures r.personal.city.None? && r.personal.country.None?
    ensures r.personal.websiteUrl == user.github
    ensures r.applicationDefaults.sponsorshipRequired == prefs.visaSponsorshipRequired
    ensures r.applicationDefaults.workAuthorization == !r.applicationDefaults.sponsorshipRequired
    ensures r.applicationDefaults.desiredSalary.None? <==> prefs.salaryMin == 0
    ensures r.applicationDefaults.desiredSalary.Some? ==>
              r.applicationDefaults.desiredSalary.value == IntToString(prefs.salaryMin)
    ensures r.files.resume.Some? <==> Truthy(user.resumeData) && Truthy(user.resumeName)
    ensures r.files.resume.Some? ==>
              r.files.resume.value == ResumeFile(user.resumeData.value, user.resumeName.value)
    ensures r.files.coverLetter.None?
    ensures r.computed.skills == user.skills.GetOr([])
  {
    var (first, last) := SplitName(user.fullName);
    CanonicalProfile(
      Personal(
        first, last,
        user.fullName.GetOr(""),
        user.email.GetOr(""),
        user.phone.GetOr(""),
        None, None,
        user.location,
        user.linkedin,
        user.portfolio,
        user.github),
      ApplicationDefaults(
        !prefs.visaSponsorshipRequired,
        prefs.visaSponsorshipRequired,
        prefs.relocationOk,
        prefs.remoteOnly,
        if prefs.salaryMin != 0 then Some(IntToString(prefs.salaryMin)) else None,
        Some(prefs.yearsOfExperience)),
      Files(
        if Truthy(user.resumeData) && Truthy(user.resumeName)
        then Some(ResumeFile(user.resumeData.value, user.resumeName.value))
        else None,
        None),
      Computed(user.skills.GetOr([]), user.summary))
  }
}
