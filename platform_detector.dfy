/** Recognising the job board a page belongs to from its host name, and the
    few per-board settings the auto-apply flow uses. */
module PlatformDetector {
  import opened Wrappers
  import opened Strings

  datatype Platform =
    | LinkedIn | Indeed | Glassdoor | Monster | ZipRecruiter
    | Workday | Greenhouse | Lever | Unknown

  /** `detectPlatform(hostname)`: substring tests in a fixed order */
  function DetectPlatform(hostname: string): Platform {
    if Contains(hostname, "linkedin.com") then LinkedIn
    else if Contains(hostname, "indeed.com") then Indeed
    else if Contains(hostname, "glassdoor.com") then Glassdoor
    else if Contains(hostname, "monster.com") then Monster
    else if Contains(hostname, "ziprecruiter.com") then ZipRecruiter
    else if Contains(hostname, "myworkdayjobs.com") then Workday
    else if Contains(hostname, "boards.greenhouse.io") then Greenhouse
    else if Contains(hostname, "jobs.lever.co") then Lever
    else Unknown
  }

  /** One host test: a marker the host name must contain, and the board it names */
  datatype HostRule = HostRule(marker: string, platform: Platform)

  /** The host tests of `detectPlatform`, as a table in the order they are tried */
  const HostRules: seq<HostRule> := [
    HostRule("linkedin.com", LinkedIn),
    HostRule("indeed.com", Indeed),
    HostRule("glassdoor.com", Glassdoor),
    HostRule("monster.com", Monster),
    HostRule("ziprecruiter.com", ZipRecruiter),
    HostRule("myworkdayjobs.com", Workday),
    HostRule("boards.greenhouse.io", Greenhouse),
    HostRule("jobs.lever.co", Lever)
  ]

  /** The board of the first rule from position `i` on whose marker the host
      name contains */
  function FirstHostMatch(rules: seq<HostRule>, i: nat, hostname: string): Platform
    requires i <= |rules|
    decreases |rules| - i
  {
    if i == |rules| then Unknown
    else if Contains(hostname, rules[i].marker) then rules[i].platform
    else FirstHostMatch(rules, i + 1, hostname)
  }

  /** First-match lookup: no board when no marker from `i` on occurs;
      otherwise the board of a rule whose marker occurs and no rule between
      `i` and it has its marker occur. */
  lemma {:induction false} FirstHostMatchIff(rules: seq<HostRule>, i: nat, hostname: string)
    requires i <= |rules|
    requires forall j :: i <= j < |rules| ==> rules[j].platform != Unknown
    ensures FirstHostMatch(rules, i, hostname) == Unknown <==>
              forall j :: i <= j < |rules| ==> !Contains(hostname, rules[j].marker)
    ensures FirstHostMatch(rules, i, hostname) != Unknown ==>
              exists j :: i <= j < |rules| && Contains(hostname, rules[j].marker)
                && rules[j].platform == FirstHostMatch(rules, i, hostname)
                && forall l :: i <= l < j ==> !Contains(hostname, rules[l].marker)
    decreases |rules| - i
  {
    if i < |rules| && !Contains(hostname, rules[i].marker) {
      FirstHostMatchIff(rules, i + 1, hostname);
    }
  }

  /** The chain of tests is exactly the first-match lookup over the table. */
  lemma DetectPlatformIsTable(hostname: string)
    ensures DetectPlatform(hostname) == FirstHostMatch(HostRules, 0, hostname)
  {
    var h := hostname;
    assert FirstHostMatch(HostRules, 7, h) == if Contains(h, "jobs.lever.co") then Lever else Unknown;
    assert FirstHostMatch(HostRules, 6, h) ==
      if Contains(h, "boards.greenhouse.io") then Greenhouse else FirstHostMatch(HostRules, 7, h);
    assert FirstHostMatch(HostRules, 5, h) ==
      if Contains(h, "myworkdayjobs.com") then Workday else FirstHostMatch(HostRules, 6, h);
    assert FirstHostMatch(HostRules, 4, h) ==
      if Contains(h, "ziprecruiter.com") then ZipRecruiter else FirstHostMatch(HostRules, 5, h);
    assert FirstHostMatch(HostRules, 3, h) ==
      if Contains(h, "monster.com") then Monster else FirstHostMatch(HostRules, 4, h);
    assert FirstHostMatch(HostRules, 2, h) ==
      if Contains(h, "glassdoor.com") then Glassdoor else FirstHostMatch(HostRules, 3, h);
    assert FirstHostMatch(HostRules, 1, h) ==
      if Contains(h, "indeed.com") then Indeed else FirstHostMatch(HostRules, 2, h);
  }

  /** A host name belongs to no board exactly when it contains none of the
      markers; a board is reported only when its marker occurs and no marker
      tried before it does. */
  lemma DetectPlatformIff(hostname: string)
    ensures DetectPlatform(hostname) == Unknown <==>
              forall i :: 0 <= i < |HostRules| ==> !Contains(hostname, HostRules[i].marker)
    ensures forall i :: 0 <= i < |HostRules| && DetectPlatform(hostname) == HostRules[i].platform ==>
              Contains(hostname, HostRules[i].marker) &&
              forall j :: 0 <= j < i ==> !Contains(hostname, HostRules[j].marker)
  {
    DetectPlatformIsTable(hostname);
    FirstHostMatchIff(HostRules, 0, hostname);
    HostRulesIndexed();
    var p := DetectPlatform(hostname);
    forall i | 0 <= i < |HostRules| && p == HostRules[i].platform
      ensures Contains(hostname, HostRules[i].marker)
      ensures forall j :: 0 <= j < i ==> !Contains(hostname, HostRules[j].marker)
    {
      var k :| 0 <= k < |HostRules| && Contains(hostname, HostRules[k].marker)
               && HostRules[k].platform == p
               && forall j :: 0 <= j < k ==> !Contains(hostname, HostRules[j].marker);
      assert i == BoardIndex(p) == k;
    }
  }

  /** The position of a board's rule in the table */
  function BoardIndex(p: Platform): nat {
    match p
    case LinkedIn => 0
    case Indeed => 1
    case Glassdoor => 2
    case Monster => 3
    case ZipRecruiter => 4
    case Workday => 5
    case Greenhouse => 6
    case Lever => 7
    case Unknown => 8
  }

  /** Every board has one rule, and no rule names `Unknown`. */
  lemma HostRulesIndexed()
    ensures forall i :: 0 <= i < |HostRules| ==> BoardIndex(HostRules[i].platform) == i
  {
  }

  /** The marker is a substring, not a suffix: any host name that contains
      "linkedin.com" anywhere counts as LinkedIn. */
  lemma SubstringNotSuffix(before: string, after: string)
    ensures DetectPlatform(before + "linkedin.com" + after) == LinkedIn
  {
    ContainsSelf("linkedin.com");
    ContainsInPrefix("linkedin.com", after, "linkedin.com");
    ContainsInConcat(before, "linkedin.com" + after, "linkedin.com");
    assert before + "linkedin.com" + after == before + ("linkedin.com" + after);
  }

  /** Greenhouse needs the "boards." prefix: a host name that mentions
      "greenhouse.io" without it is never reported as Greenhouse. */
  lemma GreenhouseNeedsBoards(hostname: string)
    requires !Contains(hostname, "boards.greenhouse.io")
    ensures DetectPlatform(hostname) != Greenhouse
  {
    DetectPlatformIff(hostname);
    assert HostRules[6] == HostRule("boards.greenhouse.io", Greenhouse);
  }

  /** `PlatformConfig`: optional per-board selectors */
  datatype PlatformConfig = PlatformConfig(
    name: Platform,
    modalSelector: Option<string>,
    submitButtonText: Option<seq<string>>)

  /** The selector of LinkedIn's Easy Apply dialog */
  const LinkedInModalSelector: string := ".jobs-easy-apply-content"

  /** `getPlatformConfig(platform)` */
  function GetPlatformConfig(platform: Platform): (c: PlatformConfig)
    ensures c.name == platform
    ensures c.modalSelector.Some? <==> platform == LinkedIn
    ensures c.submitButtonText.Some? <==> platform == LinkedIn
    ensures c.modalSelector.Some? ==> c.modalSelector.value == LinkedInModalSelector
  {
    match platform
    case LinkedIn =>
      PlatformConfig(LinkedIn, Some(LinkedInModalSelector), Some(["Submit application", "Review"]))
    case _ => PlatformConfig(platform, None, None)
  }
}
