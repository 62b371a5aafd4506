/** The auto-apply flow: a controller that is either running or stopped and,
    once started, analyses one step of an application form, fills every
    matched field the profile has a value for, and clicks the step's
    navigation button. */
module AutoApplyController {
  import opened Wrappers
  import opened Strings
  import opened Dom
  import opened CanonicalProfile
  import opened Schema
  import opened FieldDiscovery
  import opened Matcher
  import opened Filler
  import opened FieldScoring
  import PlatformDetector

  // ---------------------------------------------------------------------------
  // The value each field type is filled with

  /** `getValueForType(type)`: the profile's entry for the type, or
      `undefined` for the types the controller does not fill from the profile */
  function ValueForType(profile: CanonicalProfile, t: CanonicalFieldType): (v: Value)
    ensures t in {Resume, CoverLetter, Location, YesNo, FreeText, Unknown} ==> v == Undefined
    ensures t in {FirstName, LastName, FullName, Email, Phone} ==> v.Str?
    ensures t in {WorkAuthorization, SponsorshipRequired, RelocationWillingness, RemotePreference} ==> v.Bool?
  {
    var p := profile.personal;
    var d := profile.applicationDefaults;
    match t
    case FirstName => Str(p.firstName)
    case LastName => Str(p.lastName)
    case FullName => Str(p.fullName)
    case Email => Str(p.email)
    case Phone => Str(p.phone)
    case City => OptionalStr(p.city)
    case Country => OptionalStr(p.country)
    case LinkedinUrl => OptionalStr(p.linkedinUrl)
    case PortfolioUrl => OptionalStr(p.portfolioUrl)
    case WebsiteUrl => OptionalStr(p.websiteUrl)
    case WorkAuthorization => Bool(d.workAuthorization)
    case SponsorshipRequired => Bool(d.sponsorshipRequired)
    case RelocationWillingness => Bool(d.willingToRelocate)
    case RemotePreference => Bool(d.willingToRemote)
    case DesiredSalary => OptionalStr(d.desiredSalary)
    case YearsExperience => if d.yearsExperience.Some? then Num(d.yearsExperience.value) else Undefined
    case _ => Undefined
  }

  /** An optional profile string as a JavaScript value */
  function OptionalStr(s: Option<string>): Value {
    if s.Some? then Str(s.value) else Undefined
  }

  /** `value !== undefined && value !== ''`: `false` and `0` are filled */
  predicate ShouldFill(v: Value)
    ensures ShouldFill(v) <==> v.Bool? || v.Num? || (v.Str? && v.s != "")
  {
    v != Undefined && v != Str("")
  }

  /** For a profile built from a stored CV, of the types the matcher can
      assign only the contact details and the two profile links are ever
      filled, each exactly when the CV has it: city and country are never set
      in the profile, and files are never filled. */
  lemma MappedProfileFills(user: UserProfile, prefs: UserPreferences, t: CanonicalFieldType)
    requires t in PriorityOrder
    ensures var fills := ShouldFill(ValueForType(MapUserToCanonical(user, prefs), t));
      && (t in {City, Country, Resume, CoverLetter} ==> !fills)
      && (t == FirstName ==> (fills <==> Trim(user.fullName.GetOr("")) != ""))
      && (t == LastName ==> (fills ==> Trim(user.fullName.GetOr("")) != ""))
      && (t == FullName ==> (fills <==> user.fullName.GetOr("") != ""))
      && (t == Email ==> (fills <==> user.email.GetOr("") != ""))
      && (t == Phone ==> (fills <==> user.phone.GetOr("") != ""))
      && (t == LinkedinUrl ==> (fills <==> user.linkedin.GetOr("") != ""))
      && (t == PortfolioUrl ==> (fills <==> user.portfolio.GetOr("") != ""))
  {
    NameSplitRoundTrip(user.fullName);
  }

  // ---------------------------------------------------------------------------
  // The page the controller works on

  /** A navigation control (`button`, submit input or `a[role=button]`) */
  class Button {
    const textContent: string
    /** the `value` property; absent on links */
    const value: Option<string>
    /** the `disabled` attribute is present */
    const disabled: bool
    /** how often it has been clicked */
    var clicks: nat

    constructor (textContent: string, value: Option<string>, disabled: bool)
      ensures this.textContent == textContent && this.value == value && this.disabled == disabled
      ensures clicks == 0
    {
      this.textContent := textContent;
      this.value := value;
      this.disabled := disabled;
      clicks := 0;
    }

    /** `click()` */
    method Click()
      modifies this
      ensures clicks == old(clicks) + 1
    {
      clicks := clicks + 1;
    }
  }

  /** An element the flow is scoped to: the form fields below it and its
      navigation controls, in document order */
  datatype Container = Container(fields: Root, buttons: seq<Button>)

  /** What the controller reads from the page: the host name, the document's
      label and id lookups, the body, and the element `querySelector` finds
      for each selector it would find one for */
  datatype Page = Page(
    hostname: string,
    view: DocumentView,
    body: Container,
    found: map<string, Container>)

  /** A `MutationObserver` the controller may hold */
  class Observer {
    var connected: bool

    constructor ()
      ensures connected
    {
      connected := true;
    }

    /** `disconnect()` */
    method Disconnect()
      modifies this
      ensures !connected
    {
      connected := false;
    }
  }

  // ---------------------------------------------------------------------------
  // The navigation rule

  /** `btn.textContent || btn.value || ''` */
  function ButtonText(b: Button): string {
    if b.textContent != "" then b.textContent else b.value.GetOr("")
  }

  /** The lower-cased text mentions next, continue, review or submit */
  predicate IsNextButton(b: Button) {
    var text := ToLower(ButtonText(b));
    Contains(text, "next") || Contains(text, "continue") || Contains(text, "review") || Contains(text, "submit")
  }

  /** `buttons.find(...)`: the position of the first navigation button */
  function FirstNextButton(buttons: seq<Button>): (r: Option<nat>)
    ensures r.Some? ==> r.value < |buttons| && IsNextButton(buttons[r.value])
    ensures r.Some? ==> forall j :: 0 <= j < r.value ==> !IsNextButton(buttons[j])
    ensures r.None? <==> forall j :: 0 <= j < |buttons| ==> !IsNextButton(buttons[j])
  {
    if |buttons| == 0 then None
    else if IsNextButton(buttons[0]) then Some(0)
    else
      var rest := FirstNextButton(buttons[1..]);
      assert forall j :: 1 <= j < |buttons| ==> buttons[j] == buttons[1..][j - 1];
      if rest.Some? then Some(rest.value + 1) else None
  }

  /** The button a step clicks, if any: the first navigation button, provided
      it is not disabled; a later enabled one is never tried. */
  function NavigationTarget(buttons: seq<Button>): (r: Option<Button>)
    ensures r.Some? <==> exists i :: 0 <= i < |buttons| && IsNextButton(buttons[i]) && !buttons[i].disabled &&
                                     forall j :: 0 <= j < i ==> !IsNextButton(buttons[j])
    ensures r.Some? ==> r.value in buttons && IsNextButton(r.value) && !r.value.disabled
  {
    var i := FirstNextButton(buttons);
    if i.Some? && !buttons[i.value].disabled then Some(buttons[i.value]) else None
  }

  /** The clicks a button has after a step that started from `before` clicks */
  function ClicksAfter(buttons: seq<Button>, b: Button, before: nat): nat {
    if NavigationTarget(buttons) == Some(b) then before + 1 else before
  }

  /** Find the navigation button and click it unless it is disabled */
  method Navigate(buttons: seq<Button>)
    modifies buttons
    ensures forall b :: b in buttons ==> b.clicks == ClicksAfter(buttons, b, old(b.clicks))
  {
    var next := FirstNextButton(buttons);
    if next.Some? && !buttons[next.value].disabled {
      buttons[next.value].Click();
    }
  }

  // ---------------------------------------------------------------------------
  // The fill rule

  /** The elements of the matched fields */
  function MatchedElements(matches: map<CanonicalFieldType, Candidate>): set<Element> {
    set t | t in matches :: matches[t].element
  }

  /** A field's `value` and `checked` */
  datatype FieldState = FieldState(value: string, checked: bool)

  /** The state of a field now */
  function StateOf(e: Element): FieldState
    reads e
  {
    FieldState(e.value, e.checked)
  }

  /** The state `fillField(c, v)` leaves a field in that was in state `s` */
  function AfterFill(c: Candidate, v: Value, s: FieldState): FieldState {
    var e := c.element;
    match KindOf(c)
    case TextLike =>
      if e.SetterThrows(ToJsString(v)) then s else FieldState(ToJsString(v), s.checked)
    case Toggle => FieldState(s.value, if s.checked == Filler.Truthy(v) then s.checked else e.AfterClick(s.checked))
    case Choice =>
      var o := ChooseOption(e.options, ToJsString(v));
      if o.Some? && !e.SetterThrows(o.value.value) then FieldState(o.value.value, s.checked) else s
    case _ => s
  }

  /** The state of a field after a step that started from state `s`: filled
      when the profile has a value for its type, left alone otherwise */
  function AfterStep(profile: CanonicalProfile, t: CanonicalFieldType, c: Candidate, s: FieldState): FieldState {
    var v := ValueForType(profile, t);
    if ShouldFill(v) then AfterFill(c, v, s) else s
  }

  /** A checkbox the page lets toggle ends up with the value's truthiness, and
      a text field ends up with the value's string, whatever they held before;
      a file input reached through the text branch refuses the value and keeps
      its state. */
  lemma AfterStepWrites(profile: CanonicalProfile, t: CanonicalFieldType, c: Candidate, s: FieldState)
    requires ShouldFill(ValueForType(profile, t))
    ensures KindOf(c) == TextLike && !c.element.IsFileInput() ==>
              AfterStep(profile, t, c, s).value == ToJsString(ValueForType(profile, t)) != ""
    ensures KindOf(c) == TextLike && c.element.IsFileInput() ==> AfterStep(profile, t, c, s) == s
    ensures KindOf(c) == Toggle && c.element.IsInput() && !c.element.clickPrevented && c.element.TypeProp() == "checkbox" ==>
              AfterStep(profile, t, c, s).checked == Filler.Truthy(ValueForType(profile, t))
    ensures KindOf(c) !in {TextLike, Toggle, Choice} ==> AfterStep(profile, t, c, s) == s
  {
    DefinedValueNonEmpty(ValueForType(profile, t));
  }

  /** `fillField(candidate, value)`, seen through the state it leaves behind */
  method FillOne(c: Candidate, v: Value)
    modifies c.element
    ensures StateOf(c.element) ==
              AfterFill(c, v, old(StateOf(c.element)))
  {
    var _ := FillField(c, v);
  }

  /** One turn of the fill loop: the field matched to `t`, if any, is filled
      when its value is neither `undefined` nor ""; no other field changes. */
  method FillType(profile: CanonicalProfile, matches: map<CanonicalFieldType, Candidate>, t: CanonicalFieldType)
    requires Injective(matches)
    modifies MatchedElements(matches)
    ensures t in matches ==>
              StateOf(matches[t].element) ==
              AfterStep(profile, t, matches[t], old(StateOf(matches[t].element)))
    ensures t in matches && !ShouldFill(ValueForType(profile, t)) ==> unchanged(matches[t].element)
    ensures forall u :: u in matches && u != t ==> unchanged(matches[u].element)
  {
    if t in matches {
      var value := ValueForType(profile, t);
      if ShouldFill(value) {
        FillOne(matches[t], value);
      }
    }
  }

  /** The fill loop of `processStep`: the matches in the order the matcher
      made them, each filled when its value is neither `undefined` nor "";
      no other field changes. */
  method FillMatches(profile: CanonicalProfile, matches: map<CanonicalFieldType, Candidate>)
    requires forall t :: t in matches ==> t in PriorityOrder
    requires Injective(matches)
    modifies MatchedElements(matches)
    ensures forall t :: t in matches ==>
              StateOf(matches[t].element) ==
              AfterStep(profile, t, matches[t], old(StateOf(matches[t].element)))
    ensures forall t :: t in matches && !ShouldFill(ValueForType(profile, t)) ==> unchanged(matches[t].element)
  {
    var k := 0;
    while k < |PriorityOrder|
      invariant 0 <= k <= |PriorityOrder|
      invariant forall t :: t in matches && Rank(t) < k ==>
                  StateOf(matches[t].element) ==
                  AfterStep(profile, t, matches[t], old(StateOf(matches[t].element)))
      invariant forall t :: t in matches && (Rank(t) >= k || !ShouldFill(ValueForType(profile, t))) ==>
                  unchanged(matches[t].element)
    {
      PriorityRank(k);
      FillType(profile, matches, PriorityOrder[k]);
      k := k + 1;
    }
    forall t | t in matches ensures Rank(t) < |PriorityOrder| {
      InOrderRank(t);
    }
  }

  /** The rest of `processStep` once the matches are known: fill, then
      navigate */
  method FillAndNavigate(profile: CanonicalProfile, matches: map<CanonicalFieldType, Candidate>, buttons: seq<Button>)
    requires forall t :: t in matches ==> t in PriorityOrder
    requires Injective(matches)
    modifies MatchedElements(matches), buttons
    ensures forall t :: t in matches ==>
              StateOf(matches[t].element) ==
              AfterStep(profile, t, matches[t], old(StateOf(matches[t].element)))
    ensures forall t :: t in matches && !ShouldFill(ValueForType(profile, t)) ==> unchanged(matches[t].element)
    ensures forall b :: b in buttons ==> b.clicks == ClicksAfter(buttons, b, old(b.clicks))
  {
    FillMatches(profile, matches);
    Navigate(buttons);
  }

  // ---------------------------------------------------------------------------
  // One step, and the controller

  /** The matches of one step: discovery below the container, then matching */
  function StepMatches(container: Container, view: DocumentView): map<CanonicalFieldType, Candidate> {
    MatchResult(Discover(container.fields, view))
  }

  /** Where `start` works: the platform's dialog when it has a dialog selector
      and the page has such an element, the given root otherwise */
  function StartContainer(page: Page, root: Container): (c: Container)
    ensures c != root ==> PlatformDetector.DetectPlatform(page.hostname) == PlatformDetector.LinkedIn && PlatformDetector.LinkedInModalSelector in page.found
    ensures PlatformDetector.DetectPlatform(page.hostname) == PlatformDetector.LinkedIn && PlatformDetector.LinkedInModalSelector in page.found ==>
              c == page.found[PlatformDetector.LinkedInModalSelector]
  {
    var config := PlatformDetector.GetPlatformConfig(PlatformDetector.DetectPlatform(page.hostname));
    if config.modalSelector.Some? && config.modalSelector.value in page.found
    then page.found[config.modalSelector.value]
    else root
  }

  class Controller {
    const profile: CanonicalProfile
    var isRunning: bool
    var observer: Option<Observer>

    constructor (profile: CanonicalProfile)
      ensures this.profile == profile && !isRunning && observer.None?
    {
      this.profile := profile;
      isRunning := false;
      observer := None;
    }

    /** The observer, as a frame */
    function ObserverFrame(): set<Observer>
      reads this
    {
      if observer.Some? then {observer.value} else {}
    }

    /** `start(root)`: a no-op while running; otherwise mark the controller
        running and take one step in the container the platform calls for */
    method Start(page: Page, root: Container)
      modifies this
      modifies MatchedElements(StepMatches(StartContainer(page, root), page.view))
      modifies StartContainer(page, root).buttons
      ensures isRunning && observer == old(observer)
      ensures var container := StartContainer(page, root); var matches := StepMatches(container, page.view);
        && (old(isRunning) ==> unchanged(MatchedElements(matches)) && unchanged(container.buttons))
        && (!old(isRunning) ==>
              && (forall t :: t in matches ==>
                    StateOf(matches[t].element) ==
                    AfterStep(profile, t, matches[t], old(StateOf(matches[t].element))))
              && (forall t :: t in matches && !ShouldFill(ValueForType(profile, t)) ==> unchanged(matches[t].element))
              && (forall b :: b in container.buttons ==> b.clicks == ClicksAfter(container.buttons, b, old(b.clicks))))
    {
      if isRunning {
        return;
      }
      isRunning := true;
      var platform := PlatformDetector.DetectPlatform(page.hostname);
      var config := PlatformDetector.GetPlatformConfig(platform);
      var container := root;
      if config.modalSelector.Some? {
        if config.modalSelector.value in page.found {
          container := page.found[config.modalSelector.value];
        }
      }
      assert container == StartContainer(page, root);
      ProcessStep(container, page.view);
    }

    /** `stop()`: mark the controller stopped and let go of its observer */
    method Stop()
      modifies this, ObserverFrame()
      ensures !isRunning && observer.None?
      ensures old(observer).Some? ==> !old(observer).value.connected
    {
      isRunning := false;
      if observer.Some? {
        observer.value.Disconnect();
        observer := None;
      }
    }

    /** `processStep(container)`: nothing when stopped; otherwise discover,
        match, fill, and navigate */
    method ProcessStep(container: Container, view: DocumentView)
      modifies MatchedElements(StepMatches(container, view)), container.buttons
      ensures var matches := StepMatches(container, view);
        && (!isRunning ==> unchanged(MatchedElements(matches)) && unchanged(container.buttons))
        && (isRunning ==>
              && (forall t :: t in matches ==>
                    StateOf(matches[t].element) ==
                    AfterStep(profile, t, matches[t], old(StateOf(matches[t].element))))
              && (forall t :: t in matches && !ShouldFill(ValueForType(profile, t)) ==> unchanged(matches[t].element))
              && (forall b :: b in container.buttons ==> b.clicks == ClicksAfter(container.buttons, b, old(b.clicks))))
    {
      if !isRunning {
        return;
      }
      var candidates := Discover(container.fields, view);
      var matches := MatchResult(candidates);
      MatchResultShape(candidates);
      FillAndNavigate(profile, matches, container.buttons);
    }
  }
}
