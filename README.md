# Clinical-trial voice assistant: client core in Dafny

This project models the browser client of a voice assistant that helps a patient find clinical trials. A patient fills in an intake form. The client then joins a real-time voice room with a voice agent and sends it the profile. The agent pushes *agent actions* back over the room's data channel: add a criterion, show trials, update the match count, clear the trials, open a trial's details, show a referral letter. The client folds these actions into the state of its panel.

The model covers these parts of the client:

- **`VoiceAgent`** (`voice_agent.dfy`), the hook `useVoiceAgent`:
  - the normaliser that turns a parsed data-channel message into an agent action;
  - the envelope of outbound actions;
  - the connection flags and the `error` that `connect` leaves.
- **`AgentPanel`** (`agent_panel.dfy`), the panel `VoiceAgentPanel`. The action reducer is a pure function `Reduce`. The class `Panel` holds the six state cells and updates them in place, with an imperative `findIndex` loop. The class also has start-chat, select-trial and modal-close transitions.
- **`ChipSelector`** (`chip_selector.dfy`): which chips show as selected, and the selection a click produces.
- **`IntakeForm`** (`intake_form.dfy`): the profile that the start button builds, the location lookup run on mount, and the form's chip state.
- **`ProfileSidebar`** (`profile_sidebar.dfy`): the labels of additional criteria, the empty state and the match-count line.
- **`Location`** (`location.dfy`): the "City, ST" string made from a reverse-geocoding response, and the messages a failed lookup rejects with.
- **`TrialCard`** (`trial_card.dfy`): the CSS modifier made from a trial's status, the location summary and what a click selects.

Support modules:

- **`JsValue`** (`js_value.dfy`) models JavaScript values:
  - `undefined` is kept distinct from `null`;
  - truthiness is explicit;
  - `===` compares primitives by value and never equates two parsed arrays or objects;
  - object spread is written out;
  - `Wire` is a `JSON.stringify`/`JSON.parse` round trip.
- **`Ascii`** (`ascii.dfy`) holds the character classes and case mapping of the ASCII range.
- **`Wrappers`** (`wrappers.dfy`) holds `Option` and `Result`.

Asynchronous steps whose results come from outside are parameters. These are the token request, joining the room, enabling the microphone, the browser's position request and the geocoding request. The model is given each step's *outcome* and states what the client does with it.

Three behaviours one would expect of this client differ from what the code does. The model follows the code:

- **The action a wrapped message carries.** The intended behaviour is that payload fields overwrite top-level fields, except `action` itself. The code builds `{action: parsed.action, ...parsed.payload}`, so a payload member named `action` *does* replace the top-level one. This is `VoiceAgent.Flatten` and `VoiceAgent.EnvelopeRoundTrip`.
- **Non-numeric match counts.** The intended behaviour is that a non-numeric count is a no-op. The code stores any `payload.count` that is not `undefined`, including `null` and strings. This is `AgentPanel.UpdateMatchCount`.
- **Idempotence.** The intended behaviour is that the reducer is idempotent. This holds except for `add_criteria` with an array or object key: after parsing, such a key is never `===` to itself, so the criterion is appended again (`AgentPanel.ReduceIdempotent`).

## Model

| member | source | states |
|---|---|---|
| VoiceAgent.Flatten | client/src/hooks/useVoiceAgent.ts:75-80 | the flattened action has key `action` plus exactly the payload's spread keys; payload members win, and the top-level `action` survives only when the payload has none |
| VoiceAgent.Normalize | client/src/hooks/useVoiceAgent.ts:63-101 | an action is dispatched iff the message parsed, is not null/undefined, and is wrapped (its `type` is the string `client_action`) or has an `action` that is truthy by `JsValue.Truthy` (false only for undefined, null, false, 0 and the empty string); a wrapped message becomes its flattening, a direct one is passed on as it is; every action has an `action` key |
| VoiceAgent.EnvelopeRoundTrip | client/src/hooks/useVoiceAgent.ts:120-141 | normalising an outbound envelope (`Envelope`, lines 128-132: `type: 'client_action'`, the tag and the payload) gives `{action} ⊕ payload`; with no `action` in the payload the result has exactly the payload's keys plus `action`, with the sent tag and the payload's values |
| VoiceAgent.EnvelopeRoundTripOverWire | client/src/hooks/useVoiceAgent.ts:128-132 | the same round trip holds through `JSON.stringify`/`JSON.parse` for an undefined-free payload |
| VoiceAgent.WrappedWithoutPayload | client/src/hooks/useVoiceAgent.ts:75-80 | a wrapped message without a payload normalises to `{action}` alone, even with `action` undefined |
| VoiceAgent.ConnectError | client/src/hooks/useVoiceAgent.ts:150-191 | `error` is cleared iff the connection succeeded; a rejected token passes on a non-empty `error` text and otherwise gives "Failed to get voice token"; a thrown Error gives its own message; a non-Error throw gives "Connection failed" |
| VoiceAgent.VoiceSession.constructor | client/src/hooks/useVoiceAgent.ts:12-15 | a session starts disconnected, not connecting, with the microphone off and no error |
| VoiceAgent.VoiceSession.OnConnected | client/src/hooks/useVoiceAgent.ts:46-49 | Connected sets `isConnected` and clears `error`, leaving the other flags |
| VoiceAgent.VoiceSession.OnDisconnected | client/src/hooks/useVoiceAgent.ts:51-54 | Disconnected clears `isConnected` and `isMicEnabled`, leaving the rest |
| VoiceAgent.VoiceSession.Outbound | client/src/hooks/useVoiceAgent.ts:120-141 | a packet is published iff connected; it is reliable, on topic `client_actions`, carries the envelope, and normalises back to the action sent |
| VoiceAgent.VoiceSession.Connect | client/src/hooks/useVoiceAgent.ts:145-194 | `isConnecting` ends false, `error` is the outcome's error, `isConnected` is left to room events, the microphone flag is set only on success, and the `user_profile` envelope is sent iff the join succeeded with a non-empty profile |
| VoiceAgent.VoiceSession.ToggleMic | client/src/hooks/useVoiceAgent.ts:200-204 | the microphone flag flips when the room accepts the change and stays otherwise; the other flags are unchanged |
| JsValue.Get | client/src/hooks/useVoiceAgent.ts:75-84 | a member read of anything but an object is `undefined` |
| JsValue.Spread | client/src/hooks/useVoiceAgent.ts:77-80 | spreading an object gives its members, an array or string gives index keys, and any other value gives nothing |
| JsValue.Wire | client/src/hooks/useVoiceAgent.ts:128-132 | a serialised object keeps exactly its members that are not `undefined` |
| JsValue.WireKeepsJson | client/src/hooks/useVoiceAgent.ts:128-132 | a value free of `undefined` survives `JSON.stringify`/`JSON.parse` unchanged |
| JsValue.WireIsJson | client/src/hooks/useVoiceAgent.ts:128-132 | what comes back from the wire is free of `undefined` |
| JsValue.NatToStringRoundTrip | client/src/components/TrialCard.tsx:25 | the decimal rendering of a count reads back as that count |
| AgentPanel.FirstKeyIndex | client/src/components/VoiceAgentPanel.tsx:29 | `findIndex`: −1 or an index whose key is `===` (`JsValue.StrictEquals`: primitives by value, never two arrays or objects) the action's key, with no earlier match (none at all for −1) |
| AgentPanel.FindIndex | client/src/components/VoiceAgentPanel.tsx:29 | the loop returns the first index whose key is `===` the wanted key, or −1 |
| AgentPanel.Upsert | client/src/components/VoiceAgentPanel.tsx:27-36 | the update grows the list by at most one and always contains the new criterion |
| AgentPanel.UpsertExistingKey | client/src/components/VoiceAgentPanel.tsx:30-33 | an existing key is overwritten at its own index, with the length and every other entry unchanged |
| AgentPanel.UpsertNewKey | client/src/components/VoiceAgentPanel.tsx:35 | a new key is appended at the end |
| AgentPanel.UpsertKeepsKeysUnique | client/src/components/VoiceAgentPanel.tsx:27-36 | criteria keys stay unique |
| AgentPanel.UpsertTwice | client/src/components/VoiceAgentPanel.tsx:27-36 | for a primitive key, the second of two updates wins and no duplicate entry appears |
| AgentPanel.Reduce | client/src/components/VoiceAgentPanel.tsx:20-77 | no action touches the profile, each changes at most one cell, and an unknown tag changes nothing |
| AgentPanel.ReduceKeepsKeysUnique | client/src/components/VoiceAgentPanel.tsx:24-38 | criteria keys stay unique under every action |
| AgentPanel.AddCriteriaNeedsKeyAndValue | client/src/components/VoiceAgentPanel.tsx:26 | `add_criteria` without a truthy key and a truthy value changes nothing |
| AgentPanel.ShowTrialsReplaces | client/src/components/VoiceAgentPanel.tsx:40-45 | an array of trials (even an empty one) replaces the list, and an absent `trials` changes nothing |
| AgentPanel.ClearTrials | client/src/components/VoiceAgentPanel.tsx:53-55 | `clear_trials` sets the list to `[]` whatever it held, and every other cell stays |
| AgentPanel.ClearThenShow | client/src/components/VoiceAgentPanel.tsx:40-55 | `clear_trials` then `show_trials([t])` leaves exactly `[t]` and nothing else changed |
| AgentPanel.ReduceIdempotent | client/src/components/VoiceAgentPanel.tsx:20-77 | applying an action twice is applying it once, provided an `add_criteria` key is `===` itself |
| AgentPanel.UpdateMatchCount | client/src/components/VoiceAgentPanel.tsx:47-51 | any defined `payload.count` (`PayloadCount`, line 48) becomes the count, and an undefined one changes nothing |
| AgentPanel.WrappedMatchCountNeedsNestedPayload | client/src/components/VoiceAgentPanel.tsx:47-51 | a wrapped `update_match_count` whose payload has no `payload` member never changes the count |
| AgentPanel.ShowTrialDetails | client/src/components/VoiceAgentPanel.tsx:57-64 | the detail becomes the whole action iff `nct_id` is truthy; the trial list is untouched |
| AgentPanel.ShowReferralLetter | client/src/components/VoiceAgentPanel.tsx:66-72 | a truthy payload becomes the letter, otherwise a truthy `letter_html` makes the action the letter, otherwise nothing changes |
| AgentPanel.Panel.constructor | client/src/components/VoiceAgentPanel.tsx:11-18 | the panel starts with an empty profile, no criteria, no trials, no count and both modals closed |
| AgentPanel.Panel.HandleAgentAction | client/src/components/VoiceAgentPanel.tsx:20-77 | the in-place update leaves exactly `Reduce` of the old state and keeps criteria keys unique |
| AgentPanel.Panel.HandleDataReceived | client/src/hooks/useVoiceAgent.ts:63-101 | a message that does not normalise leaves every cell; one that does is reduced into the state |
| AgentPanel.Panel.HandleStartChat | client/src/components/VoiceAgentPanel.tsx:97-103 | the profile is stored and nothing else in the panel changes; the session ends as `Connect` leaves it |
| AgentPanel.Panel.HandleSelectTrial | client/src/components/VoiceAgentPanel.tsx:105-110 | when connected, a reliable packet reaches the agent as `{action: 'trial_selected', nct_id}`; otherwise nothing is sent |
| AgentPanel.Panel.CloseTrialDetail | client/src/components/VoiceAgentPanel.tsx:234 | closing the detail modal clears only the detail |
| AgentPanel.Panel.CloseReferralLetter | client/src/components/VoiceAgentPanel.tsx:242 | closing the letter modal clears only the letter |
| ChipSelector.Without | client/src/components/ChipSelector.tsx:33 | the filtered list lacks the option, keeps every other item, and keeps the count of each |
| ChipSelector.HandleClick | client/src/components/ChipSelector.tsx:28-42 | the mode is kept; a single-select click clears iff it hits the selected chip; a multi-select click removes a present option and appends an absent one |
| ChipSelector.WithoutAppend | client/src/components/ChipSelector.tsx:33 | filtering distributes over concatenation, so order is kept |
| ChipSelector.WithoutAbsent | client/src/components/ChipSelector.tsx:33 | filtering out an absent option changes nothing |
| ChipSelector.ClickFlipsSelected | client/src/components/ChipSelector.tsx:18-42 | a click flips whether that chip shows as selected (`IsSelected`, lines 18-26: equal to the single value, or a member of the multi-select list) |
| ChipSelector.ClickTwiceRestores | client/src/components/ChipSelector.tsx:30-36 | clicking an unselected chip twice restores the list |
| ChipSelector.WithoutNoDuplicates | client/src/components/ChipSelector.tsx:33 | filtering keeps a list duplicate-free |
| ChipSelector.ClickKeepsNoDuplicates | client/src/components/ChipSelector.tsx:30-36 | multi-select clicks never create duplicates |
| ChipSelector.ClickStaysWithinOptions | client/src/components/ChipSelector.tsx:28-42 | a selection within the options stays within them |
| IntakeForm.StrList | client/src/components/IntakeForm.tsx:50-51 | a string list becomes an array of the same strings |
| IntakeForm.BuildProfile | client/src/components/IntakeForm.tsx:42-54 | `location` is always a key, undefined when empty; each other field is present iff non-empty, and then holds the form value; no other keys |
| IntakeForm.BuiltProfileNeverEmpty | client/src/components/IntakeForm.tsx:43-45 | a form-built profile is never empty, so `connect` always sends it |
| IntakeForm.BuiltProfileOverWire | client/src/components/IntakeForm.tsx:42-54 | serialised, the profile loses only an undefined `location` |
| IntakeForm.StrListIsJson | client/src/components/IntakeForm.tsx:50-51 | a string list is free of `undefined`, so it survives serialisation |
| IntakeForm.FoundLocationIsSent | client/src/components/IntakeForm.tsx:28-45 | a location found on mount is non-empty and so reaches the profile as a string |
| IntakeForm.IntakeForm.constructor | client/src/components/IntakeForm.tsx:18-25 | the form starts empty, loading its location, with no error, and valid |
| IntakeForm.IntakeForm.LocationSettled | client/src/components/IntakeForm.tsx:28-40 | success stores the location and clears the error; failure stores the message and keeps the location; loading always ends |
| IntakeForm.IntakeForm.LookUpLocation | client/src/components/IntakeForm.tsx:28-40 | the mount effect stores a non-empty found location or the lookup's error message |
| IntakeForm.IntakeForm.SetName | client/src/components/IntakeForm.tsx:90 | the name input sets the name |
| IntakeForm.IntakeForm.ClickCancerType | client/src/components/IntakeForm.tsx:112-117 | the cancer type becomes the chip click's value, within the options |
| IntakeForm.IntakeForm.ClickStage | client/src/components/IntakeForm.tsx:119-124 | the stage becomes the chip click's value, within the options |
| IntakeForm.IntakeForm.ClickPriorTreatment | client/src/components/IntakeForm.tsx:126-132 | the treatments become the chip click's list, within the options and duplicate-free |
| IntakeForm.IntakeForm.ClickBiomarker | client/src/components/IntakeForm.tsx:134-140 | the biomarkers become the chip click's list, within the options and duplicate-free |
| IntakeForm.IntakeForm.StartChat | client/src/components/IntakeForm.tsx:42-54 | the start button hands over the built profile, which always has `location` and only profile keys |
| ProfileSidebar.UnderscoresToSpaces | client/src/components/ProfileSidebar.tsx:29 | every underscore becomes a space and nothing else changes |
| ProfileSidebar.SpaceBeforeUpper | client/src/components/ProfileSidebar.tsx:30 | every uppercase letter in the result follows a space, and the result never starts with one: it starts with the input's first character, or with a space when that is a capital |
| ProfileSidebar.SpaceBeforeUpperChar | client/src/components/ProfileSidebar.tsx:30 | a lone capital becomes a space and the capital; any other character is kept |
| ProfileSidebar.SpaceBeforeUpperAppend | client/src/components/ProfileSidebar.tsx:30 | the replacement works character by character: it splits over any concatenation |
| ProfileSidebar.SpaceBeforeUpperNoUpper | client/src/components/ProfileSidebar.tsx:30 | a string without capitals is unchanged |
| ProfileSidebar.UnderscoresToSpacesAppend | client/src/components/ProfileSidebar.tsx:29 | replacing underscores splits over any concatenation |
| ProfileSidebar.Visible | client/src/components/ProfileSidebar.tsx:27-32 | the characters a key and its label share: no whitespace, no underscore, never more than the input |
| ProfileSidebar.VisibleAppend | client/src/components/ProfileSidebar.tsx:27-32 | the visible characters of a concatenation are those of its parts |
| ProfileSidebar.VisibleOfWhitespace | client/src/components/ProfileSidebar.tsx:32 | whitespace has no visible characters |
| ProfileSidebar.VisibleUnderscores | client/src/components/ProfileSidebar.tsx:29 | turning underscores into spaces keeps the visible characters |
| ProfileSidebar.VisibleSpaceBeforeUpper | client/src/components/ProfileSidebar.tsx:30 | putting spaces before capitals keeps the visible characters |
| ProfileSidebar.VisibleTrim | client/src/components/ProfileSidebar.tsx:32 | trimming keeps the visible characters |
| ProfileSidebar.UpperFirst | client/src/components/ProfileSidebar.tsx:31 | only the first character changes, upper-cased unless it is a line terminator |
| ProfileSidebar.TrimKeepsUpperAfterSpace | client/src/components/ProfileSidebar.tsx:32 | trimming keeps every later uppercase letter after a space |
| ProfileSidebar.FallbackLabel | client/src/components/ProfileSidebar.tsx:27-32 | the fallback label has no underscore and no surrounding whitespace, puts a space before each later capital, and starts with the key's first letter upper-cased when that is lowercase |
| ProfileSidebar.FirstLetterUpperCased | client/src/components/ProfileSidebar.tsx:29-31 | a lowercase first letter of the key survives the first two replacements and is upper-cased by the third |
| ProfileSidebar.TrimAddsNothing | client/src/components/ProfileSidebar.tsx:32 | trimming brings in no character that was not there |
| ProfileSidebar.TrimKeepsVisibleStart | client/src/components/ProfileSidebar.tsx:32 | a string starting with a visible character keeps it first when trimmed |
| ProfileSidebar.Capitalized | client/src/components/ProfileSidebar.tsx:31 | the key with a lowercase first letter upper-cased, of the key's length |
| ProfileSidebar.FallbackLabelWords | client/src/components/ProfileSidebar.tsx:27-32 | the fallback label has exactly the key's visible characters, in order, with a lowercase first letter upper-cased |
| ProfileSidebar.LabelWords | client/src/components/ProfileSidebar.tsx:28-32 | the three replacements and the trim together keep the key's visible characters, upper-casing only a lowercase first letter |
| ProfileSidebar.UpperFirstKeeps | client/src/components/ProfileSidebar.tsx:31 | a key not starting with a lowercase letter is not changed by the upper-casing step |
| ProfileSidebar.FirstUpperCased | client/src/components/ProfileSidebar.tsx:31 | upper-casing a lowercase first character upper-cases the first visible character and keeps the rest |
| ProfileSidebar.CapitalizedTrimmed | client/src/components/ProfileSidebar.tsx:31-32 | a string that starts with a lowercase letter and ends in a visible character only has that letter upper-cased |
| ProfileSidebar.CapitalizedWord | client/src/components/ProfileSidebar.tsx:31-32 | a lowercase letter before text that ends in a visible character is only upper-cased by the capitalise-and-trim steps |
| ProfileSidebar.CapitalizedPhrase | client/src/components/ProfileSidebar.tsx:31-32 | a lowercase word, a space and more words only has its first letter upper-cased |
| ProfileSidebar.LowerWordKept | client/src/components/ProfileSidebar.tsx:29-30 | a lowercase word passes the first two replacements unchanged |
| ProfileSidebar.SnakeCaseSpaced | client/src/components/ProfileSidebar.tsx:29 | the underscore between two lowercase words becomes a space |
| ProfileSidebar.SpacedWordsKept | client/src/components/ProfileSidebar.tsx:30 | two lowercase words around a space get no further spaces |
| ProfileSidebar.CamelCaseKept | client/src/components/ProfileSidebar.tsx:29 | a camelCase key of two words has no underscore to replace |
| ProfileSidebar.CamelCaseSpaced | client/src/components/ProfileSidebar.tsx:30 | a space goes before the capital that starts the second word |
| ProfileSidebar.SnakeCaseLabel | client/src/components/ProfileSidebar.tsx:23-32 | an unmapped snake_case key of two lowercase words gets the words joined by a space, the first capitalised |
| ProfileSidebar.CamelCaseLabel | client/src/components/ProfileSidebar.tsx:23-32 | an unmapped camelCase key of two words gets a space before the capital and the first letter upper-cased |
| ProfileSidebar.TumorSizeLabel | client/src/components/ProfileSidebar.tsx:23-32 | the key `tumor_size` is labelled "Tumor size" |
| ProfileSidebar.ToStringLabel | client/src/components/ProfileSidebar.tsx:23-32 | the corrected label of the key `toString` is "To String" |
| ProfileSidebar.FormatLabelAsWritten | client/src/components/ProfileSidebar.tsx:4-33 | mapped keys get their label and other keys their fallback, except names inherited from `Object.prototype` |
| ProfileSidebar.AsWrittenInheritedKeys | client/src/components/ProfileSidebar.tsx:23-24 | the keys `toString` and `__proto__` get no textual label |
| ProfileSidebar.FormatLabel | client/src/components/ProfileSidebar.tsx:4-33 | mapped keys get their label and every other key its fallback |
| ProfileSidebar.FormatLabelAgrees | client/src/components/ProfileSidebar.tsx:4-33 | the corrected label equals the source's wherever the source yields text |
| ProfileSidebar.SynonymLabels | client/src/components/ProfileSidebar.tsx:6-10 | the camelCase and snake_case spellings share a label |
| ProfileSidebar.EmptyStateOfBuiltProfile | client/src/components/ProfileSidebar.tsx:46-55 | for a form-built profile the empty state (`ShowsEmptyState`, lines 53-55: no `HasProfile`, lines 46-51, and no criteria) shows iff location, cancer type, stage, treatments, biomarkers and criteria are all empty; the name is irrelevant |
| ProfileSidebar.ZeroMatchCountShown | client/src/components/ProfileSidebar.tsx:119 | a count of 0 is shown (`ShowsMatchCount`: the count is not undefined), though falsy |
| Location.Or | client/src/services/location.ts:24-25 | `a \|\| b` picks a present non-empty string, else the fallback |
| Location.FirstMatch | client/src/services/location.ts:25 | the search finds the first occurrence of the pattern, or reports that there is none |
| Location.ReplaceFirst | client/src/services/location.ts:25 | `replace` with a string pattern substitutes the first occurrence only, and leaves a string without one unchanged |
| Location.City | client/src/services/location.ts:24 | the city is `city`, else `locality`, else "Unknown City", and never empty |
| Location.State | client/src/services/location.ts:25 | the state is the code with its first "US-" removed if that is non-empty, else the subdivision name, else empty |
| Location.FormatPlace | client/src/services/location.ts:27-30 | the place is "city, state" when the state is non-empty, else the city; never empty |
| Location.UsStateCode | client/src/services/location.ts:25-28 | a "US-XX" code yields "City, XX" |
| Location.ForeignCodeKept | client/src/services/location.ts:25-28 | a code without "US-" is shown unchanged |
| Location.CityOnly | client/src/services/location.ts:25-30 | without a subdivision the place is the city alone |
| Location.ReverseGeocode | client/src/services/location.ts:9-35 | a non-OK response rejects with "Geocoding request failed", an OK one resolves with the place, and a thrown error is passed on |
| Location.PositionErrorMessage | client/src/services/location.ts:55-67 | codes 1, 2 and 3 map to the permission, unavailable and timeout messages; any other code gives "Failed to get location" |
| Location.GetCurrentLocation | client/src/services/location.ts:37-76 | without geolocation it rejects with "Geolocation is not supported by this browser"; a position error rejects with its message; otherwise the result is the geocoding result, and a found location is never empty |
| TrialCard.CollapseWhitespace | client/src/components/TrialCard.tsx:13 | the result has no whitespace, is no longer than the input, is empty only for empty input, and holds only `-` and input characters |
| TrialCard.CollapseNoWhitespace | client/src/components/TrialCard.tsx:13 | a string without whitespace is unchanged |
| TrialCard.ContentStartAppend | client/src/components/TrialCard.tsx:13 | where the leading whitespace of a concatenation ends |
| TrialCard.CollapseAfterWord | client/src/components/TrialCard.tsx:13 | a whitespace-free word in front is kept in front of the collapsed rest |
| TrialCard.CollapseRun | client/src/components/TrialCard.tsx:13 | a whole run of whitespace becomes a single `-` |
| TrialCard.CollapseRunBeforeWord | client/src/components/TrialCard.tsx:13 | a run of whitespace before a whitespace-free word is one `-` before it |
| TrialCard.StatusSlug | client/src/components/TrialCard.tsx:13 | the status modifier has no whitespace and no uppercase letter, and is no longer than the status |
| TrialCard.SlugIdempotent | client/src/components/TrialCard.tsx:13 | the slug of a slug is itself |
| TrialCard.LowerCaseAppend | client/src/components/TrialCard.tsx:13 | lower-casing splits at any point |
| TrialCard.CollapseTwoWords | client/src/components/TrialCard.tsx:13 | two whitespace-free words around a whitespace run are joined by one `-` |
| TrialCard.SlugOfTwoWords | client/src/components/TrialCard.tsx:13 | "Not  Recruiting"-style statuses become "not-recruiting" |
| TrialCard.LocationSummary | client/src/components/TrialCard.tsx:22-26 | the location line is shown iff there are locations, starts with the pin and the first location, and is just that for a single location |
| TrialCard.SummaryCountsTheRest | client/src/components/TrialCard.tsx:25 | with several locations the line ends " +N more" where N reads back as the number of other locations |
| TrialCard.ClickReachesAgent | client/src/components/TrialCard.tsx:10 | the click hands the card's own `nct_id` to the selection handler, whose envelope normalises to `{action: 'trial_selected', nct_id}` of that trial |
| Ascii.LowerCase | client/src/components/TrialCard.tsx:13 | `toLowerCase` on ASCII maps each character, keeping the length |
| Ascii.Trim | client/src/components/ProfileSidebar.tsx:32 | `trim` leaves no whitespace at either end and keeps the middle |

## Left out

- The LiveKit room: tracks, audio elements, the room's event registration and cleanup, `disconnect`. A disconnect shows up only through `VoiceAgent.VoiceSession.OnDisconnected`.
- The 500 ms delay before the profile is sent. `VoiceAgent.VoiceSession.Connect` returns the message the delayed send publishes and does not model the timer. It also does not model the case where the room drops within those 500 ms.
- Byte decoding (`TextDecoder`/`TextEncoder`) and the text of `JSON.parse`/`JSON.stringify`. A parsed message is `Option<Value>`, with `None` for a parse failure, and `JsValue.Wire` stands in for a serialise-then-parse.
- Whether an action handler is registered. The panel always registers one, so `Panel.HandleDataReceived` always dispatches.
- The network and the browser: `fetch`, the token response body, `navigator.geolocation`, the coordinates. Each is replaced by its outcome (`ConnectOutcome`, `GeocodeOutcome`, `PositionOutcome`, and `supported` for a missing geolocation API).
- VoiceAgent.ConnectError: a token `error` member that is truthy but not a string is not modelled; the member is an optional string.
- VoiceAgent.VoiceSession.ToggleMic: reads the flag as the method starts. It does not model the stale value an earlier, unfinished call can leave in React's closure.
- Console logging, rendering and CSS, the `isExpanded` toggle, and the text of modals and lists.
- Number semantics: NaN, −0 and infinities are not modelled. Numbers are `real`.
- Property order in objects: maps are unordered.
- ChipSelector.HandleClick: the `selected as string[]` cast on a value that does not match the mode is not modelled. The mode is part of the datatype, and each form field is always used in one mode.
- ProfileSidebar.HasProfile: `priorTreatments` and `biomarkers` count as non-empty only when they are non-empty arrays or strings. An object with a positive numeric `length` member, which JavaScript's `.length > 0` accepts, is treated as empty. Form-built profiles hold arrays there.
- ProfileSidebar.FormatLabel: takes a string key. In the source (ProfileSidebar.tsx:113) a truthy non-string key, such as a number the agent sends, that is not a mapped name once converted reaches `key.replace` at lines 27-28 and throws a TypeError. There is no error boundary, so the sidebar's render fails. The model has no non-string keys, so it does not capture that crash.
- Unicode: case mapping and `\s` are the ASCII ones. Other whitespace and non-ASCII letters are left as they are.
- Keys named `__proto__`: parsed and spread objects keep `__proto__` as an ordinary own member, as the maps here do. The only place it behaves specially is the inherited lookup in `formatLabel`, which is the row under "## Findings".
- Location.ReverseGeocode: a response member that is absent or `null` is `None`, and one that is the empty string is `Some("")`. `||` passes over both. A non-string `principalSubdivisionCode` that is not nullish (whose `.replace` throws), a `null` body and a body that fails to parse are `RequestThrew`. A truthy non-string `city`, `locality` or `principalSubdivision`, which the template string prints, is not modelled: the members are strings.

## Findings

| source | as written | input that shows it | evidently intended | confidence | as-written member | corrected member |
|---|---|---|---|---|---|---|
| client/src/components/ProfileSidebar.tsx:23-24 | `labelMap[key]` on a plain object literal also reads members inherited from `Object.prototype`, so the truthy inherited value is returned as the label | a criterion with key `toString` gets a function as its label instead of the text "To String"; key `__proto__` gets `Object.prototype` | look up only the map's own keys, falling back to the formatted key otherwise | not executed | ProfileSidebar.FormatLabelAsWritten (ProfileSidebar.AsWrittenInheritedKeys) | ProfileSidebar.FormatLabel (ProfileSidebar.FormatLabelAgrees, ProfileSidebar.ToStringLabel) |
