# sir-fills-a-lot, modelled in Dafny

The extension fills job-application forms for its user. It finds the fillable
controls of a page and of its same-origin frames, scores each control against
the canonical field types, and assigns fields to types greedily. It then writes
the user's profile values into the fields with the synthetic events that web
frameworks listen for, and clicks the page's "next" button.

Around that auto-apply flow sit:

- a rule-based detector that scores whether a page is a job application;
- the older form scanner used by the chat widget, with its keyword classifier and fill strategies;
- the job-board recogniser;
- the storage service and the per-host application session;
- the at-rest encryption of secrets (base64 envelopes around AES-GCM);
- the decision half of the LLM dispatcher;
- the file name and paragraph split of the cover-letter PDF;
- the asset URL resolver.

Each source file is one Dafny module:

- **Values and decisions**: modelled as datatypes and functions, with lemmas about them. This covers the profile mapping, scoring, classification, detection, file names, base64, the provider decision and asset paths.
- **State the source changes in place**: modelled as classes whose methods carry `modifies` clauses. This covers DOM elements, the storage area, the key cache, the controller, the detector's `details` accumulator and navigation buttons.
- **Loops**: each loop of the source is a `method` with its invariants, proved against the function that specifies it.

Shared pieces:

- `Strings` models the JavaScript string operations the code relies on: `toLowerCase`, `includes`, `trim`, `replace(/\s+/g, ' ')`, `split` and `join`.
- `Dom` models the part of an element the engine reads and writes.
- `Schema` holds the stored records.
- `Wrappers` holds `Option` and `Result`.

## Model

| member | source | states |
|---|---|---|
| Strings.ToLower | src/engine/dom/fieldScoring.ts:58-60 | lower-casing keeps the length |
| Strings.ToLowerSpec | src/engine/dom/fieldScoring.ts:58-60 | `toLowerCase` maps each character on its own and leaves no upper-case ASCII letter |
| Strings.ToLowerIdempotent | src/engine/dom/fieldScoring.ts:58-60 | lower-casing twice is lower-casing once |
| Strings.ToLowerAppend | src/engine/dom/fieldScoring.ts:58-60 | lower-casing distributes over concatenation |
| Strings.ContainsIff | src/engine/dom/fieldScoring.ts:62-66 | `includes` holds exactly when the needle occurs at some position |
| Strings.ContainsAnyIff | src/content/jobPageDetector.ts:157-159 | `keywords.some(k => text.includes(k))` holds exactly when some keyword occurs |
| Strings.NotContainsForeignChar | src/content/formScanner.ts:142-170 | a needle holding a character the text never uses does not occur in it |
| Strings.TrimStart | src/engine/dom/fieldDiscovery.ts:55 | `trimStart` never lengthens the text |
| Strings.TrimStartSpec | src/engine/dom/fieldDiscovery.ts:55 | `trimStart` removes a whitespace prefix and keeps the suffix, which starts with no whitespace |
| Strings.TrimEnd | src/engine/dom/fieldDiscovery.ts:55 | `trimEnd` never lengthens the text |
| Strings.TrimEndSpec | src/engine/dom/fieldDiscovery.ts:55 | `trimEnd` removes a whitespace suffix and keeps the prefix, which ends with no whitespace |
| Strings.Trim | src/engine/dom/fieldDiscovery.ts:55 | the trimmed text has whitespace at neither end and is no longer than the input |
| Strings.TrimNoop | src/engine/dom/fieldDiscovery.ts:55 | trimming a text with nothing to trim returns it unchanged |
| Strings.Collapse | src/engine/dom/fieldDiscovery.ts:68 | `replace(/\s+/g, ' ')` never lengthens the text |
| Strings.CollapseShape | src/engine/dom/fieldDiscovery.ts:68 | collapsing is empty only on empty input, keeps or spaces the first character, and leaves only single spaces |
| Strings.CollapseKeepsLower | src/content/jobPageDetector.ts:149-155 | collapsing lower-cased text introduces no upper-case letter |
| Strings.SplitWs | src/engine/profile/canonicalProfile.ts:74 | `split(/\s+/)` yields at least one piece |
| Strings.JoinSplitWs | src/engine/profile/canonicalProfile.ts:74-76 | splitting on whitespace runs and joining with single spaces is the whitespace collapse |
| Strings.SplitWsTrimmed | src/engine/profile/canonicalProfile.ts:74 | a trimmed, non-empty text splits into non-empty pieces without whitespace |
| Strings.IndexOf | src/utils/encryption.ts:55-56 | the first occurrence of the separator, or none when it never occurs |
| Strings.Split | src/utils/encryption.ts:55-56 | `split(sep)` yields at least one piece |
| Strings.SplitNoOccurrence | src/utils/encryption.ts:55-56 | a text without the separator splits into itself alone |
| Strings.SplitTwo | src/utils/encryption.ts:55-56 | `a + sep + b` with no other occurrence splits into exactly `[a, b]` |
| Strings.NatToString | src/content/jobPageDetector.ts:261 | decimal digits only, with a leading `0` exactly for zero |
| Strings.NatToStringValue | src/content/jobPageDetector.ts:261 | the digits read back in base 10 give the number, so with no leading `0` they are its canonical decimal spelling |
| Strings.IntToString | src/engine/profile/canonicalProfile.ts:95 | a minus sign exactly for negative numbers, followed by the decimal spelling of the magnitude |
| Strings.IntToStringValue | src/engine/profile/canonicalProfile.ts:95 | the digits after an optional minus sign read back in base 10 give the magnitude of the number |
| Dom.LabelForText | src/engine/dom/fieldDiscovery.ts:30-33 | the text of the first label whose `for` names the id, and none exactly when no label names it |
| Dom.TextById | src/engine/dom/fieldDiscovery.ts:49-51 | `getElementById(id)?.textContent`, never found for the empty id |
| Dom.Element.NonEmptyAttr | src/engine/dom/fieldDiscovery.ts:103-112 | `getAttribute(name) \|\| undefined`: present only with a non-empty value equal to the attribute |
| Dom.Element.CheckboxClickToggles | src/engine/dom/filler.ts:41-47 | a click the page lets through toggles a checkbox, and two clicks restore it |
| Dom.Element.Click | src/engine/dom/filler.ts:45 | a click changes only `checked`, as the control's kind dictates |
| Dom.Element.SetValue | src/engine/dom/filler.ts:19-30 | the native setter throws exactly for a non-empty string on a file input and then changes nothing; otherwise it sets `value`, empties the file list of a file input, and changes nothing else |
| Dom.Element.Focus | src/engine/dom/filler.ts:36 | `focus()` changes only the focus |
| Dom.Element.DispatchWriteEvents | src/engine/dom/filler.ts:7-13 | exactly `focus`, `input`, `change`, `blur` are appended, in order, and nothing else changes |
| Dom.Element.constructor | src/engine/dom/fieldDiscovery.ts:100-115 | an element with the given tag, attributes and state, and no events yet |
| CanonicalProfile.NameSplitRoundTrip | src/engine/profile/canonicalProfile.ts:74-76 | the first name is a whitespace-free token, empty exactly for a blank name, and first plus space plus last gives the trimmed name back with whitespace runs collapsed |
| CanonicalProfile.JoinNonEmpty | src/engine/profile/canonicalProfile.ts:76 | joining parts whose first is non-empty gives a non-empty text |
| CanonicalProfile.MapUserToCanonical | src/engine/profile/canonicalProfile.ts:72-109 | full name defaulting to ""; names from the split; github as website; no city or country; work authorisation the negation of sponsorship; a salary exactly when the minimum is non-zero, as its decimal text; a resume exactly when both data and name are non-empty; skills defaulting to none |
| FieldScoring.KeepLowerAlnum | src/engine/dom/fieldScoring.ts:58-60 | only `a`-`z` and `0`-`9` survive, and the text never grows |
| FieldScoring.NormalizeProperties | src/engine/dom/fieldScoring.ts:58-60 | normalising ignores case, is idempotent and distributes over concatenation |
| FieldScoring.SeparatorVanishes | src/engine/dom/fieldScoring.ts:58-60 | a separator such as `-` or `_` anywhere in a name makes no difference |
| FieldScoring.NameOrIdMatchesIff | src/engine/dom/fieldScoring.ts:81-83 | name/id match exactly when one synonym normalises to the normalised name or id |
| FieldScoring.SignalsIff | src/engine/dom/fieldScoring.ts:81-97 | each signal, without the `some` loops: name/id by normalised equality, autocomplete by a synonym occurring in a non-empty value, label, placeholder and aria-label by a keyword occurring in the non-empty lower-cased text |
| FieldScoring.KindAdjustment | src/engine/dom/fieldScoring.ts:100-107 | the type-attribute boost or penalty lies between -100 and +20 |
| FieldScoring.SignalScore | src/engine/dom/fieldScoring.ts:81-97 | the text signals add up to between 0 and 215 |
| FieldScoring.ScoreCandidate | src/engine/dom/fieldScoring.ts:68-110 | 0 for a type without synonyms; otherwise between -100 and 235 |
| FieldScoring.ScoreIgnoresOtherFields | src/engine/dom/fieldScoring.ts:68-110 | the score depends only on name, id, autocomplete, label, placeholder, aria-label and type |
| FieldScoring.ScoreMonotone | src/engine/dom/fieldScoring.ts:68-110 | a field firing every signal another fires, with the same type, scores at least as much |
| FieldScoring.SignalScoreIgnoresOtherFields | src/engine/dom/fieldScoring.ts:81-97 | the signal sum reads only the six text attributes |
| FieldScoring.SignalScoreMonotone | src/engine/dom/fieldScoring.ts:81-97 | firing more signals never lowers the signal sum |
| FieldDiscovery.LabelText | src/engine/dom/fieldDiscovery.ts:26-56 | the label is trimmed and no longer than the `for` label, the ancestor label and the `aria-labelledby` texts put together |
| FieldDiscovery.GetLabelText | src/engine/dom/fieldDiscovery.ts:26-56 | the accumulating procedure yields exactly that label |
| FieldDiscovery.AppendLabelledByTexts | src/engine/dom/fieldDiscovery.ts:47-53 | the `forEach` appends one piece per id, in order |
| FieldDiscovery.SurroundingText | src/engine/dom/fieldDiscovery.ts:58-69 | the parent's text is trimmed and single-spaced |
| FieldDiscovery.MakeCandidate | src/engine/dom/fieldDiscovery.ts:100-115 | the record: tag and classes copied; visible; required exactly for `required` or `aria-required="true"`; each optional attribute present exactly when non-empty; labels as computed |
| FieldDiscovery.ElementCandidates | src/engine/dom/fieldDiscovery.ts:90-121 | no more candidates than elements |
| FieldDiscovery.ElementCandidatesMembers | src/engine/dom/fieldDiscovery.ts:90-121 | the candidates are exactly the records of the selected, visible, non-honeypot elements |
| FieldDiscovery.DiscoveredAdmitted | src/engine/dom/fieldDiscovery.ts:71-138 | every discovered candidate, frames included, is an admitted element recorded as such |
| FieldDiscovery.InaccessibleFrameSkipped | src/engine/dom/fieldDiscovery.ts:125-135 | an unreadable iframe adds nothing and stops nothing |
| FieldDiscovery.AccessibleFrameAppended | src/engine/dom/fieldDiscovery.ts:125-135 | a readable iframe appends its own candidates after those before it |
| FieldDiscovery.RecordCandidate | src/engine/dom/fieldDiscovery.ts:100-115 | the record literal is the specified record |
| FieldDiscovery.ScanElements | src/engine/dom/fieldDiscovery.ts:90-121 | the element loop yields exactly the specified candidates |
| FieldDiscovery.ScanForCandidates | src/engine/dom/fieldDiscovery.ts:71-138 | the whole scan, frames included, yields exactly the specified discovery |
| Matcher.RankInvertsPriorityOrder | src/engine/dom/matcher.ts:15-28 | the priority order lists each type once, and rank is its inverse |
| Matcher.PriorityRank | src/engine/dom/matcher.ts:15-28 | a type has rank `k` exactly when it is the `k`-th of the order |
| Matcher.BestAmong | src/engine/dom/matcher.ts:31-42 | the best candidate is one of those already scanned |
| Matcher.BestAmongIsFirstMaximum | src/engine/dom/matcher.ts:31-42 | the inner loop keeps the first unused candidate of highest score; it finds none exactly when the best stays -1, so every unused candidate scores -1 or less (none are unused included) |
| Matcher.MatchResultShape | src/engine/dom/matcher.ts:9-60 | only priority types are assigned, and never two to one element |
| Matcher.AssignedIff | src/engine/dom/matcher.ts:30-48 | a type is assigned exactly when the best unused candidate at its turn scores at least 40, and then to that candidate |
| Matcher.MatchUpToKeeps | src/engine/dom/matcher.ts:30-48 | later turns keep every assignment already made |
| Matcher.NotAssignedLater | src/engine/dom/matcher.ts:30-48 | a type not assigned at its own turn stays unassigned |
| Matcher.MatchResultWellMatched | src/engine/dom/matcher.ts:9-60 | only priority types are assigned, each to a candidate from the input scoring at least 40 for it, and no element to two types (that it is the best free candidate at its turn is Matcher.AssignedIff) |
| Matcher.MatchUpToEmpty | src/engine/dom/matcher.ts:9-60 | no candidates, no assignments |
| Matcher.BestCandidateFor | src/engine/dom/matcher.ts:31-42 | the inner loop computes the specified best candidate |
| Matcher.MatchFieldsBy | src/engine/dom/matcher.ts:9-60 | the outer loop computes the specified assignment for any scorer |
| Matcher.MatchFields | src/engine/dom/matcher.ts:9-60 | `matchFields` with the engine's scorer is the specified assignment |
| Filler.DefinedValueNonEmpty | src/engine/dom/filler.ts:56 | a value other than `undefined` and "" reads as a non-empty string, a string as itself |
| Filler.FindOption | src/engine/dom/filler.ts:66-71 | `find` returns the first option satisfying the test, or none when none does |
| Filler.ChooseOption | src/engine/dom/filler.ts:63-72 | an exact value match wins; otherwise the first option whose lower-cased text contains the lower-cased value; none exactly when neither exists |
| Filler.ExactMatchPreferred | src/engine/dom/filler.ts:66-72 | the first exact match is chosen even after an earlier fuzzy match |
| Filler.FillField | src/engine/dom/filler.ts:32-86 | focus, then by kind of control: a click only when `checked` differs from the value's truthiness; files untouched and `false`; the string written with the four events, or `false` with nothing written when the setter throws (a text branch reached by an input whose `type` is file); the chosen option written with the events, or `false` when there is no option or the setter throws |
| FormScanner.PredictFieldTypeIsChain | src/content/formScanner.ts:135-174 | the classification reads name, id and type lower-cased and runs the chain of tests |
| FormScanner.PredictResumeIff | src/content/formScanner.ts:141-144 | a resume upload exactly when the input is a file input, or mentions resume, cv or upload together with file |
| FormScanner.PredictTermsIff | src/content/formScanner.ts:146-149 | terms exactly when the terms rule fires on a checkbox and the resume rule does not |
| FormScanner.PredictUnknownIff | src/content/formScanner.ts:135-174 | unknown exactly when no rule fires |
| FormScanner.FirstNameBeatsEmail | src/content/formScanner.ts:151-154 | rules are tried in order, so "first" and "name" beat "email" |
| FormScanner.FirstMatchIff | src/content/formScanner.ts:151-170 | a rule's result is chosen exactly when its test passes and no earlier one does |
| FormScanner.PredictIsFirstMatch | src/content/formScanner.ts:135-174 | the chain of `if`s is the rule table, tried in order |
| FormScanner.KeywordChainIsTable | src/content/formScanner.ts:151-170 | the eighteen keyword tests are the eighteen rows of the table |
| FormScanner.TableNeverSpecial | src/content/formScanner.ts:151-173 | no keyword rule yields resume, terms or unknown |
| FormScanner.ScannerLabelText | src/content/formScanner.ts:109-133 | the label has whitespace at neither end and is no longer than the four sources put together |
| FormScanner.LabelIsTrimmedLowerRaw | src/content/formScanner.ts:109-133 | the label is the lower-cased concatenation of the four sources, cut only at whitespace ends |
| FormScanner.GetScannerLabelText | src/content/formScanner.ts:109-133 | the accumulating procedure yields exactly that label |
| FormScanner.StrategyAgreesWithPrediction | src/content/formScanner.ts:176-184 | a file strategy goes with a resume prediction, and a terms prediction with a checkbox strategy |
| FormScanner.FillText | src/content/formScanner.ts:48-54 | it throws exactly when the native setter does, leaving the element as it was; otherwise the value is written and the four events follow, and the check state and focus stay |
| FormScanner.TextStrategyNeverThrows | src/content/formScanner.ts:176-183 | an element the scan gives the text or select strategy is never a file input, so its fill never throws |
| FormScanner.FillCheckbox | src/content/formScanner.ts:56-66 | the box ends in the wanted state; events only when the click did not get it there |
| FormScanner.FillRadio | src/content/formScanner.ts:68-88 | the radio ends checked, followed by the four events |
| FormScanner.FillFile | src/content/formScanner.ts:98-105 | the file list becomes the one file, followed by the four events |
| FormScanner.ValueString | src/content/formScanner.ts:50-51 | `String(value)`: strings as themselves, booleans as "true"/"false", negative numbers with a sign |
| FormScanner.FillField | src/content/formScanner.ts:231-233 | the descriptor's strategy fills the element and leaves the fields it does not write; a non-boolean box is clicked, forced to the value's truthiness and given the events; a boolean box gets the events only when the click did not reach the value; a file input given no file throws and its value, check, files and events stay; a text or select fill throws exactly when the setter does |
| FormScanner.ControlsByMembers | src/content/formScanner.ts:192-214 | the descriptors are exactly the descriptions of the controls not skipped |
| FormScanner.ScannedNotSkipped | src/content/formScanner.ts:186-225 | no descriptor, shadow roots included, comes from a hidden, submit, button or detached control |
| FormScanner.ScanComplete | src/content/formScanner.ts:186-225 | every control of the root that is not skipped is described with the root's labels |
| FormScanner.ShadowRootAppended | src/content/formScanner.ts:216-222 | a shadow root appends its own descriptors after the rest |
| FormScanner.RecordDescriptor | src/content/formScanner.ts:201-213 | the record literal: id, name or "", type attribute or tag, label, prediction, strategy |
| FormScanner.VisitControl | src/content/formScanner.ts:192-214 | one loop pass appends the description exactly when the control is not skipped |
| FormScanner.ScanControls | src/content/formScanner.ts:192-214 | the controls loop yields exactly the specified descriptors |
| FormScanner.ScanElement | src/content/formScanner.ts:186-225 | the recursive scan yields exactly the specified descriptors |
| FormScanner.ScanForm | src/content/formScanner.ts:227-229 | scanning the document is scanning its root |
| JobPageDetector.Normalize | src/content/jobPageDetector.ts:149-155 | the normalised text is at most the length limit |
| JobPageDetector.NormalizePrefix | src/content/jobPageDetector.ts:149-155 | it is the start of the trimmed, lower-cased, collapsed text, cut at the limit |
| JobPageDetector.NormalizeShape | src/content/jobPageDetector.ts:149-155 | it is lower-case, single-spaced and starts with no whitespace |
| JobPageDetector.MemberIndex | src/content/jobPageDetector.ts:165 | `value[key]` reads the last member of that name, as `JSON.parse` keeps it |
| JobPageDetector.GraphIndex | src/content/jobPageDetector.ts:176 | a graph is found only as an array member of an object |
| JobPageDetector.HasJobPostingType | src/content/jobPageDetector.ts:161-187 | false past depth 4 and for non-objects; true for an object whose own type matches |
| JobPageDetector.HasJobPostingTypeSound | src/content/jobPageDetector.ts:161-187 | a find means a posting type really occurs inside the value, reached through members `JSON.parse` keeps |
| JobPageDetector.ShadowedMemberIgnored | src/content/jobPageDetector.ts:180-184 | a member hidden by a later member with the same key is neither searched nor counted as a posting |
| JobPageDetector.HasJobPostingTypeDepthMonotone | src/content/jobPageDetector.ts:161-187 | starting deeper never finds more |
| JobPageDetector.WrapCostsDepth | src/content/jobPageDetector.ts:172-174 | each enclosing array costs one level of the depth budget |
| JobPageDetector.DeepPostingMissed | src/content/jobPageDetector.ts:162 | a posting nested in five arrays is not found |
| JobPageDetector.GraphShortCircuits | src/content/jobPageDetector.ts:176-178 | with an `@graph` array only the graph is searched, and the other members are not |
| JobPageDetector.VisibleCount | src/content/jobPageDetector.ts:221-225 | no more visible fields than fields |
| JobPageDetector.FormFlagsExist | src/content/jobPageDetector.ts:211-251 | each form flag holds exactly when some form passes its test |
| JobPageDetector.HasApplyButton | src/content/jobPageDetector.ts:241-245 | found exactly when some submit control's lower-cased label contains an apply text |
| JobPageDetector.EvaluateForm | src/content/jobPageDetector.ts:220-247 | one form's four tests |
| JobPageDetector.EvaluateForms | src/content/jobPageDetector.ts:211-251 | the loop yields the flags of the specification |
| JobPageDetector.AtsHostIff | src/content/jobPageDetector.ts:268 | a known ATS host is a listed domain or a subdomain of one |
| JobPageDetector.SignalAt | src/content/jobPageDetector.ts:264-290 | signals are tested in a fixed order of eleven |
| JobPageDetector.FiredUpToOrdered | src/content/jobPageDetector.ts:264-290 | the listed signals are exactly those fired, each once, in test order |
| JobPageDetector.RenderAll | src/content/jobPageDetector.ts:261 | one line per signal |
| JobPageDetector.FiredUpToWeight | src/content/jobPageDetector.ts:259-262 | the score is the sum of the weights of the listed signals |
| JobPageDetector.TotalWeightIs31 | src/content/jobPageDetector.ts:134-146 | the eleven weights add up to 31 |
| JobPageDetector.ScoreBounds | src/content/jobPageDetector.ts:253-296 | the score lies between 0 and 31, and a fired signal contributes its whole weight |
| JobPageDetector.ComboNeedsBoth | src/content/jobPageDetector.ts:284 | the combination bonus is listed exactly when both text signals fire |
| JobPageDetector.StructuredDataSuffices | src/content/jobPageDetector.ts:34 | structured JobPosting data alone reaches the threshold of 6 |
| JobPageDetector.Detection.constructor | src/content/jobPageDetector.ts:257 | details start with score 0 and no signals |
| JobPageDetector.Detection.AddSignal | src/content/jobPageDetector.ts:259-262 | the weight is added and the rendered line appended |
| JobPageDetector.GatherEvidence | src/content/jobPageDetector.ts:255-286 | the tests read off the page are the specified evidence |
| JobPageDetector.AddSignals | src/content/jobPageDetector.ts:264-290 | the eleven steps add exactly the fired signals, in order |
| JobPageDetector.GetJobApplicationScore | src/content/jobPageDetector.ts:253-296 | the result is the specified score and signal lines, the threshold line last |
| JobPageDetector.IsLikelyJobApplicationPage | src/content/jobPageDetector.ts:298-302 | likely exactly when the score reaches the threshold |
| PlatformDetector.FirstHostMatchIff | src/engine/platform/platformDetector.ts:20-31 | no board exactly when no marker occurs; otherwise the board of the first marker that does |
| PlatformDetector.DetectPlatformIsTable | src/engine/platform/platformDetector.ts:20-31 | the chain of `includes` tests is the first-match lookup over the host table |
| PlatformDetector.DetectPlatformIff | src/engine/platform/platformDetector.ts:20-31 | unknown exactly when the host contains no marker, and a board exactly when its marker occurs and no earlier one does |
| PlatformDetector.HostRulesIndexed | src/engine/platform/platformDetector.ts:20-31 | every board has one rule, in its own position |
| PlatformDetector.SubstringNotSuffix | src/engine/platform/platformDetector.ts:21 | any host containing "linkedin.com" is LinkedIn, even as a prefix of a foreign domain |
| PlatformDetector.GreenhouseNeedsBoards | src/engine/platform/platformDetector.ts:27 | Greenhouse needs the "boards." prefix |
| PlatformDetector.GetPlatformConfig | src/engine/platform/platformDetector.ts:33-46 | the config names the board; only LinkedIn has the dialog selector and submit texts |
| AutoApplyController.ValueForType | src/engine/flows/autoApplyController.ts:86-110 | file and free-form types give `undefined`; names, email and phone give strings; the yes/no defaults give booleans |
| AutoApplyController.ShouldFill | src/engine/flows/autoApplyController.ts:61 | booleans and numbers are filled, `false` and 0 included; strings only when non-empty |
| AutoApplyController.MappedProfileFills | src/engine/flows/autoApplyController.ts:59-67 | for a profile mapped from a stored CV: city, country, resume and cover letter are never filled; the first name exactly when the name is not blank; full name, email, phone, LinkedIn and portfolio exactly when given |
| AutoApplyController.Button.constructor | src/engine/flows/autoApplyController.ts:71 | a button with its text, value and disabled state, not yet clicked |
| AutoApplyController.Button.Click | src/engine/flows/autoApplyController.ts:79 | a click is counted |
| AutoApplyController.Observer.constructor | src/engine/flows/autoApplyController.ts:10 | a new observer is connected |
| AutoApplyController.Observer.Disconnect | src/engine/flows/autoApplyController.ts:42 | `disconnect()` leaves it disconnected |
| AutoApplyController.FirstNextButton | src/engine/flows/autoApplyController.ts:72-75 | `find` returns the first button whose text mentions next, continue, review or submit, or none when none does |
| AutoApplyController.NavigationTarget | src/engine/flows/autoApplyController.ts:72-83 | a button is clicked exactly when the first navigation button is enabled |
| AutoApplyController.Navigate | src/engine/flows/autoApplyController.ts:71-83 | exactly that button gains one click, and every other keeps its count |
| AutoApplyController.AfterStepWrites | src/engine/flows/autoApplyController.ts:59-67 | a filled text field holds the value's string, except an input whose `type` is file, which the throwing setter leaves untouched; a toggled checkbox holds the value's truthiness; other controls are untouched |
| AutoApplyController.FillOne | src/engine/dom/filler.ts:32-86 | `fillField` leaves the field in the state `AfterFill` specifies, including the unchanged field after a caught setter throw |
| AutoApplyController.FillType | src/engine/flows/autoApplyController.ts:59-67 | one loop turn fills only the field matched to its type, and only when the value is filled |
| AutoApplyController.FillMatches | src/engine/flows/autoApplyController.ts:59-67 | every matched field ends in its specified state, and unfilled fields are untouched |
| AutoApplyController.FillAndNavigate | src/engine/flows/autoApplyController.ts:58-83 | the fill loop, then exactly the navigation click |
| AutoApplyController.StartContainer | src/engine/flows/autoApplyController.ts:21-34 | the LinkedIn dialog when the host is LinkedIn and the dialog is present; otherwise the given root |
| AutoApplyController.Controller.constructor | src/engine/flows/autoApplyController.ts:8-14 | a stopped controller with the profile and no observer |
| AutoApplyController.Controller.Start | src/engine/flows/autoApplyController.ts:16-37 | a running controller does nothing; otherwise it starts and processes the start container |
| AutoApplyController.Controller.Stop | src/engine/flows/autoApplyController.ts:39-45 | stopped, with its observer disconnected and dropped |
| AutoApplyController.Controller.ProcessStep | src/engine/flows/autoApplyController.ts:47-84 | nothing when stopped; otherwise fields discovered, matched, filled and the navigation click made |
| Storage.UpsertSpec | src/storage/storage.ts:18-27 | the first profile with the id is replaced in place, or the profile appended when none has it; nothing else changes |
| Storage.UpsertThenFind | src/storage/storage.ts:18-27 | after saving, the id finds the saved profile |
| Storage.UpsertIdempotent | src/storage/storage.ts:18-27 | saving the same profile twice is saving it once |
| Storage.ProfileIndex | src/storage/storage.ts:20 | `findIndex` gives the first profile with the id, or none |
| Storage.FindProfileIndex | src/storage/storage.ts:20 | the search loop returns that index, or -1 |
| Storage.FindJob | src/storage/storage.ts:68 | `find` returns a job with the id, or none when no job has it |
| Storage.FindJobIsFirst | src/storage/storage.ts:68 | the job found is the first with the id |
| Storage.FindAppended | src/storage/storage.ts:57-62 | an appended job with a new id is the one found |
| Storage.CurrentJob | src/storage/storage.ts:64-69 | a missing or empty current id gives no job |
| Storage.SavedJobIsCurrent | src/storage/storage.ts:57-69 | a job saved with a new, non-empty id becomes the current job; one with the empty id never does |
| Storage.Store.constructor | src/storage/storage.ts:4 | a store without keys |
| Storage.Store.GetProfiles | src/storage/storage.ts:14-16 | the stored list, or none |
| Storage.Store.SaveProfile | src/storage/storage.ts:18-27 | the profiles become the upsert; no other key changes |
| Storage.Store.SetDefaultProfileId | src/storage/storage.ts:29-35 | `getDefaultProfileId` then reads the id back; no other key changes |
| Storage.Store.GetPreferences | src/storage/storage.ts:37-39 | the stored preferences, or the defaults |
| Storage.Store.SavePreferences | src/storage/storage.ts:41-43 | only the preferences change |
| Storage.Store.GetLlmConfig | src/storage/storage.ts:45-47 | the stored configuration, or the defaults |
| Storage.Store.SaveLlmConfig | src/storage/storage.ts:49-51 | only the configuration changes |
| Storage.Store.GetJobDescriptions | src/storage/storage.ts:53-55 | the stored list, or none |
| Storage.Store.SaveJobDescription | src/storage/storage.ts:57-62 | the job is appended, duplicates included, and its id made current |
| Storage.Store.GetCurrentJobDescription | src/storage/storage.ts:64-69 | the first job with the current id, none for an empty id |
| Storage.Store.GetSession | src/storage/storage.ts:71-74 | the session stored under the key, or none |
| Storage.Store.SaveSession | src/storage/storage.ts:76-80 | exactly one entry of the session map is set |
| SessionManager.NewSession | src/job/applicationSession.ts:14-21 | a new session: its id and time, no steps, in progress, at the current page, and not stale |
| SessionManager.CurrentSessionSpec | src/job/applicationSession.ts:6-26 | a live stored session is kept; an absent, completed or day-old one is replaced by a new session |
| SessionManager.ExpiryIsStrict | src/job/applicationSession.ts:10 | a session exactly a day old is still used, one a millisecond older is not |
| SessionManager.WithStepSpec | src/job/applicationSession.ts:30-33 | the url is recorded once, steps keep no duplicates, and it becomes the current step |
| SessionManager.WithStepIdempotent | src/job/applicationSession.ts:30-33 | recording the same page twice is recording it once |
| SessionManager.CompletedIsReplaced | src/job/applicationSession.ts:10-11 | a completed session is replaced whatever the time |
| SessionManager.GetOrCreateSession | src/job/applicationSession.ts:6-26 | returns the specified session and stores it under the host; no other entry or key changes |
| SessionManager.UpdateStep | src/job/applicationSession.ts:28-35 | the host's session becomes the current one with the step recorded |
| SessionManager.MarkCompleted | src/job/applicationSession.ts:37-41 | the host's session becomes the current one, completed |
| PdfGenerator.DashifyShape | src/utils/pdfGenerator.ts:20 | dashes replace only runs of other characters, so letters and digits are kept and no two dashes meet |
| PdfGenerator.TrimDashesShape | src/utils/pdfGenerator.ts:21 | removing the end dashes leaves a safe file part with the same letters and digits |
| PdfGenerator.SanitizeShape | src/utils/pdfGenerator.ts:16-22 | a sanitised part is safe, holds exactly the letters and digits of the lower-cased value, and is "" for a missing value |
| PdfGenerator.SanitizeIdempotent | src/utils/pdfGenerator.ts:16-22 | sanitising twice is sanitising once |
| PdfGenerator.NonEmpty | src/utils/pdfGenerator.ts:27 | `filter(Boolean)` keeps every non-empty part and nothing empty |
| PdfGenerator.JoinDropsEmptyMiddle | src/utils/pdfGenerator.ts:27-28 | an empty job part leaves no double dash |
| PdfGenerator.NamePartShape | src/utils/pdfGenerator.ts:25 | the name part is the sanitised name, or "candidate" when that is empty |
| PdfGenerator.BuildFileNameSpec | src/utils/pdfGenerator.ts:24-29 | name part, job part when present, "cover-letter", joined by dashes, then ".pdf"; the stem is a safe file part |
| PdfGenerator.LastNewlineInRun | src/utils/pdfGenerator.ts:65 | the scan of a whitespace run reports a newline inside the text, or the one already recorded |
| PdfGenerator.SplitFrom | src/utils/pdfGenerator.ts:65 | the split yields at least one piece |
| PdfGenerator.TrimAll | src/utils/pdfGenerator.ts:66-67 | trimming and dropping empties never adds pieces |
| PdfGenerator.ParagraphsShape | src/utils/pdfGenerator.ts:63-67 | every paragraph is non-empty, trimmed and holds no blank line |
| PdfGenerator.ParagraphsLayout | src/utils/pdfGenerator.ts:63-67 | the letter is exactly its paragraphs in order, with whitespace only before, between and after them and a blank line in every gap between two paragraphs |
| PdfGenerator.ParagraphsKeepText | src/utils/pdfGenerator.ts:63-67 | the paragraphs together hold every non-whitespace character of the letter, in order, and no other |
| PdfGenerator.SingleLineLetter | src/utils/pdfGenerator.ts:63-67 | a letter without line breaks is one paragraph, its trimmed text, or none when blank |
| PdfGenerator.MetaLines | src/utils/pdfGenerator.ts:50-53 | name, "Role: " line and source URL, each only when given, in that order |
| PdfGenerator.ParagraphText | src/utils/pdfGenerator.ts:70 | the text handed to the line wrapper is single-spaced, empty only when the paragraph is |
| Base64.DecodeEncodeChar | src/utils/encryption.ts:9-16 | the alphabet of section 4 of RFC 4648 is a bijection onto the 6-bit values |
| Base64.EncodeLength | src/utils/encryption.ts:9-12 | four characters per started group of three bytes |
| Base64.EncodeAlphabet | src/utils/encryption.ts:9-12 | the encoding uses the alphabet and `=` only |
| Base64.Decode | src/utils/encryption.ts:14-16 | `atob` throws exactly when, once whitespace and padding are removed, a character is outside the alphabet or the length is 1 more than a multiple of 4 |
| Base64.EncodeChar | src/utils/encryption.ts:11 | each 6-bit value maps into the alphabet |
| Base64.DecodeChar | src/utils/encryption.ts:15 | each alphabet character maps to a 6-bit value |
| Base64.DecodeUnpadded | src/utils/encryption.ts:9-16 | the characters before the padding are alphabet characters in whole groups, and decode to the bytes |
| Base64.DecodeEncode | src/utils/encryption.ts:9-16 | `atob(btoa(bytes))` gives the bytes back |
| Encryption.DecryptPassThrough | src/utils/encryption.ts:51-52 | a value without the marker comes back unchanged, whatever the key |
| Encryption.EnvelopeIsEncrypted | src/utils/encryption.ts:39-48 | the envelope carries the marker, so it is recognised as encrypted |
| Encryption.UnsealEnvelope | src/utils/encryption.ts:48-58 | parsing the envelope recovers the iv and the cipher bytes |
| Encryption.EncodedText | src/utils/encryption.ts:9-16 | the base64 text has no `.` or `:`, and decodes back |
| Encryption.DecryptEncrypted | src/utils/encryption.ts:43-64 | decrypting what was encrypted under the same key gives the plaintext |
| Encryption.MissingCipherIsMalformed | src/utils/encryption.ts:55-58 | a payload without `:` is rejected |
| Encryption.UndefinedIsNotBase64 | src/utils/encryption.ts:56-58 | the missing cipher reads as "undefined", which `atob` rejects |
| Encryption.WrongLengthRejected | src/utils/encryption.ts:14-16 | text 1 longer than a multiple of 4 is rejected |
| Encryption.GeneratedKeyIsReused | src/utils/encryption.ts:28-33 | a generated key has 32 bytes, is stored, and is read back by later calls |
| Encryption.CachedKeyIsStable | src/utils/encryption.ts:23 | once cached, the key is returned and nothing is stored |
| Encryption.KeyStore.constructor | src/utils/encryption.ts:7 | no cached key, the given stored value |
| Encryption.KeyStore.GetOrCreateKey | src/utils/encryption.ts:22-37 | the specified key and stored value; the key is cached once imported |
| Encryption.KeyStore.EncryptString | src/utils/encryption.ts:43-49 | the envelope of the sealed plaintext under the specified key, recognised as encrypted; that key is cached and stored as `getOrCreateKey` leaves it |
| Encryption.KeyStore.DecryptString | src/utils/encryption.ts:51-64 | unmarked values pass through with cache and storage untouched; marked ones decrypt under the specified key, which is then cached and stored |
| AssetPaths.Slashes | src/utils/assetPaths.ts:3 | `n` slashes |
| AssetPaths.StripLeadingSlashesSpec | src/utils/assetPaths.ts:3 | the path is its leading run of slashes followed by the result, which starts with no slash |
| AssetPaths.StripAfterSlashes | src/utils/assetPaths.ts:3 | slashes in front change nothing |
| AssetPaths.AssetUrlShape | src/utils/assetPaths.ts:2-11 | the runtime gets the path without leading slashes; the fallback has exactly one slash in front |
| AssetPaths.LeadingSlashesIgnored | src/utils/assetPaths.ts:2-11 | paths differing only in leading slashes resolve alike |
| AssetPaths.FallbackIdempotent | src/utils/assetPaths.ts:10 | resolving the fallback URL again gives it back |
| Providers.ChooseModel | src/llm/providers.ts:129-132 | local mode always uses the big model; API mode the variant's model |
| Providers.LocalSkipsChecks | src/llm/providers.ts:134-135 | local mode calls Ollama with the big model, ignoring consent, provider and keys |
| Providers.ConsentCheckedFirst | src/llm/providers.ts:137-139 | without consent an API-mode call fails first, whatever the provider or keys |
| Providers.CallLlm | src/llm/providers.ts:127-156 | an Ollama request exactly in local mode; an API request only with consent and a chosen provider; always with the model `ChooseModel` picks |
| Providers.ApiOutcome | src/llm/providers.ts:137-155 | with consent, an API call fails exactly for a missing provider, an unsupported one or an absent or empty key; otherwise it calls that provider with its key (Gemini with the intended contents) |
| Providers.DropTrailingSlash | src/llm/providers.ts:18 | one trailing slash is removed when there is one; otherwise the URL is kept |
| Providers.OllamaChatUrlSpec | src/llm/providers.ts:18-19 | the URL is the base, less one trailing slash, followed by `/api/chat` |
| Providers.FirstSystem | src/llm/providers.ts:99 | `find` returns a system message of the list, and none exactly when there is none |
| Providers.MapContents | src/llm/providers.ts:91-94 | one entry per message, with the mapped role and the text |
| Providers.NonSystem | src/llm/providers.ts:100 | keeps exactly the messages that are not system messages |
| Providers.MergeSystem | src/llm/providers.ts:102-104 | the system text and a blank line go in front of the first entry only |
| Providers.AsWrittenDuplicatesSystem | src/llm/providers.ts:91-104 | as written, a system prompt is both its own entry and merged into the first |
| Providers.ContentsMergeSystemOnce | src/llm/providers.ts:99-104 | with the intended filter, the system text appears once, merged into the user entry |
| Providers.GeminiContentsSpec | src/llm/providers.ts:99-104 | the intended contents are exactly the non-system messages, in order, the first prefixed with the system text |
| Providers.ConvertForGemini | src/llm/providers.ts:91-104 | the array the conversion builds and updates in place, as written, is `GeminiContentsAsWritten`: every message converted, none filtered out, the first entry prefixed with the system text |
| Providers.DropRoleNamed | src/llm/providers.ts:99 | the role filter keeps exactly the entries whose role name differs from the one named |
| Providers.SystemFilterKeepsAll | src/llm/providers.ts:90-99 | no converted entry is named `system`, so the filter keeps every entry |

## Left out

- Networking: `fetch` to Ollama, OpenAI, Groq and Gemini, and parsing of the replies. `CallLlm` stops at the request it would send or the error it throws first. Temperature and token limits are passed through and play no part.
- AES-GCM itself: `crypto.subtle.encrypt` and `decrypt` are parameters (`seal`, `open`). Random bytes, `Date.now()`, `crypto.randomUUID()` and `window.location.href` are parameters too.
- `chrome.runtime.getURL` is an `Option` parameter of `AssetPaths.GetExtensionAssetUrl`. The `chrome.storage.local` area is the `Storage.Store` class, and asynchrony is not modelled.
- Text encoding: `TextEncoder` and `TextDecoder` are part of the sealed and opened values. `String.fromCharCode(...bytes)`, which fails past the engine's argument limit, is modelled as unbounded.
- Lower-casing is ASCII only: Unicode case mapping is not modelled. `Strings.IsWs` is the whole set of characters `\s` and `trim` treat as whitespace, so whitespace is modelled in full.
- FieldDiscovery.LabelText: the `label[for=...]` lookup goes through `CSS.escape`, which the model takes as matching the id exactly (`Dom.LabelForText`); escaping itself is not modelled.
- FormScanner.ScannerLabelText: the scanner builds `label[for="id"]` without escaping. An id holding `"` makes `querySelector` throw, which ends the scan, and a backslash changes which label matches. The model looks the id up exactly and never throws, so it does not capture either case.
- JobPageDetector.Normalize: `.slice(0, maxLength)` counts UTF-16 code units and the model counts characters, so `MaxTextLength` and `FormTextLength` cut text outside the Basic Multilingual Plane later than the source does.
- PDF layout: fonts, page size, line wrapping (`splitTextToSize`), page breaks, the blob and the download link. Only the file name, the meta lines, the paragraphs and the paragraph text are modelled.
- Browser behaviour:
  - computed styles, layout, `offsetParent` and `closest` are fields of `Dom.Element` recorded by the caller;
  - cloning a label to drop the control is a recorded text;
  - a select whose value matches no option is not reset to "".
- `AutoApplyController.Controller.ProcessStep` uses the discovery and matching functions (`FieldDiscovery.Discover`, `Matcher.MatchResult`), which are proved equal to their loop methods. The 100 ms delay and the console logging are not modelled. The MutationObserver is never created by the source, so only its disconnection is modelled.
- AutoApplyController.Controller.Start: the "waiting for modal" branch only logs, so a missing dialog falls back to the root as the code does.
- Filler.FillField: the only exception modelled is the native `value` setter throwing for a non-empty string on a file input, which the `catch` turns into `false`. Other exceptions a page's own handlers could raise from the dispatched events are not modelled.
- Dom.Element.SetValue: the browser's value sanitisation by input type (number, email, date, color, range and the like) is not modelled; the value read back is the string written.
- FormScanner.FillField: numbers are integers. Floating-point values and their decimal rendering are not modelled.
- CanonicalProfile.MapUserToCanonical: `salary_min` is held as an integer. The options page fills it with `Number(...)`, which can be fractional or `NaN`, and the template renders it with JavaScript's number formatting. Only integer salaries and their decimal text are modelled.
- Providers.CallLlm: the Gemini request carries the intended contents, `Providers.GeminiContents`, not what the conversion as written produces (`Providers.GeminiContentsAsWritten`; see Findings). `Providers.ApiOutcome` states the request with the intended contents too.
- Providers.ApiOutcome: the Gemini call it states carries `Providers.GeminiContents`, the intended contents, not the as-written `Providers.GeminiContentsAsWritten` that `Providers.ConvertForGemini` builds (see Findings).
- The UI (popup, options page, chat widget), the background worker, the manifest, the prompts and the build configuration.
- `JSON.parse` is modelled by its result: a script's text arrives already parsed, or marked malformed.

## Findings

| source | as written | input that shows it | evidently intended | confidence | as-written member | corrected member |
|---|---|---|---|---|---|---|
| src/llm/providers.ts:99-104 | the role filter runs on the mapped contents, whose roles are only `user` and `model`. It removes nothing, so the system message stays as an entry of its own and is also merged into the first entry. | messages `[system "s", user "u"]`: Gemini receives `s\n\ns` then `u` | system messages left out of the list and merged once into the first remaining entry | not executed | Providers.ConvertForGemini / Providers.AsWrittenDuplicatesSystem | Providers.GeminiContents / Providers.ContentsMergeSystemOnce |
