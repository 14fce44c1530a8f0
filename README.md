# Photography inquiry wizard, modelled in Dafny

This project models the controller of a client-side photography inquiry form,
the `PhotographyInquiryForm` class of `app.js`. A visitor picks one of eleven
event types. The step-0 template registered for that type is mounted. The
visitor then moves through a three-step wizard: event details, services and
contact, review. Submitting switches to a confirmation view that shows a
summary of everything captured.

The page itself is abstracted away:

- The controls of the active `.form-step` are an `array?<Control>` passed to the
  methods. `null` stands for "no active step". Each `Control` has a name, a kind
  (checkbox or other), a value, a checked state, a `required` attribute and the
  `error` class. Validation updates that array in place.
- The controller state is the class `Wizard.InquiryForm`. It holds `currentStep`,
  the selected event label, `formData`, the rows of the wedding timeline, the
  top-level view (welcome, form or confirmation) and the rendered summary.
  `formData` is a datatype with a map of text values and the optional `services` list.
- The summary is the pure function `InquirySummaries.InquirySummary` of the
  selected label and `formData`. It returns a structured record, not markup.

Modules, one per concern of the controller:

- `EventTypes` (event_types.dfy): the eleven template keys, and each template's required and date fields.
- `Controls` (controls.dfy): controls, JavaScript `trim`, and the required-field rule.
- `Capture` (capture.dfy): `saveCurrentStepData` as a fold over the step's controls, with its lemmas.
- `Timeline` (timeline.dfy): timeline rows, their decimal numbering, and the add and remove rules.
- `InquirySummaries` (summary.dfy): `generateInquirySummary`.
- `Wizard` (wizard.dfy): the controller class, and the step indicators of `updateProgress`.
- `Wrappers` (wrappers.dfy): `Option`.

Some behaviours of the code may surprise a reader. The model keeps each of them:

- Timeline row numbers can repeat. A new row is numbered "row count + 1". After a
  removal, that number can belong to a row that still exists. The two rows then
  have the same control names (`NumberReusedAfterRemoval`).
- Selecting an event type again is possible at any time. It does not reset the
  step counter or `formData`.
- `submitForm` does not look at the step counter. It validates, saves and confirms
  whatever step is active.
- With no active step, `nextStep` still advances the counter, because validation
  of "no step" succeeds.
- `services` is an ordered list. The summary lists services in the order saves
  captured them: document order within a step, then the order of the saves.
- `resetForm` leaves the mounted template, so the timeline stays mounted. It also
  leaves the content of the summary container. It hides both and clears the
  controller state.
- The summary's date is looked up only under `eventDate`, `celebrationDate`,
  `partyDate`, `sessionDate` and `concertDate`. So the required date of an
  Engagement, Naming Ceremony, Baby Shower, House Warming or Graduation inquiry
  never appears in the summary (`ProbedDateFields`).

## Model

| member | source | states |
|---|---|---|
| `EventTypes.FromLabel` | app.js:117-131 | a template found under a label is the event type carrying exactly that label |
| `EventTypes.FromLabelOfLabel` | app.js:117-131 | each of the eleven event types has a template registered under its own label |
| `EventTypes.LabelInjective` | app.js:117-131 | distinct event types have distinct labels, so the table has eleven keys |
| `EventTypes.DateField` | app.js:133-715 | each template's date control is one of its `required` controls, as listed per template by `RequiredFields` |
| `Controls.TrimStart` | app.js:891 | the leading-white-space removal of `trim`: the result does not start with white space, and it is empty exactly when the input is all white space |
| `Controls.TrimEnd` | app.js:891 | the trailing-white-space removal of `trim`: the result does not end with white space, and it is empty exactly when the input is all white space |
| `Controls.Trim` | app.js:891 | `value.trim()` is empty exactly when the value consists of white space only (ECMAScript white space and line terminators) |
| `Controls.TrimStartSuffix` | app.js:891 | what leading trimming keeps is a suffix of the input, and everything it drops is white space |
| `Controls.TrimEndPrefix` | app.js:891 | what trailing trimming keeps is a prefix of the input, and everything it drops is white space |
| `Controls.TrimIsSlice` | app.js:891 | `trim` returns a contiguous part of the value with only white space around it, and the part neither starts nor ends with white space |
| `Controls.Flag` | app.js:888-894 | a required control's error flag ends up set exactly when it fails the trimmed-non-empty rule; a control that is not required is untouched; nothing but the flag changes |
| `Controls.FlagErrors` | app.js:885-894 | validation visits every control of the step, with no early exit, and keeps their number and order |
| `Controls.FlaggedAreFailing` | app.js:881-901 | after validation, a required control is flagged iff its value is blank; the step passes iff no required control is flagged |
| `Controls.FlagErrorsIdempotent` | app.js:885-894 | validating an already validated step changes nothing and gives the same verdict |
| `Capture.IndexOf` | app.js:914 | `indexOf` returns -1 exactly when the value is absent, and otherwise the first index holding it |
| `Capture.RemoveFirst` | app.js:914-915 | `indexOf` plus `splice(index, 1)` is a no-op on an absent value; on a duplicate-free list it removes exactly that value, keeps all others and keeps the list duplicate-free |
| `Capture.ApplyControlKeepsNoDuplicates` | app.js:910-917 | capturing one checkbox keeps `services` duplicate-free |
| `Capture.ApplyControlIdempotent` | app.js:908-919 | capturing the same control twice equals capturing it once (a checked box adds only if absent, an unchecked box removes only if present) |
| `Capture.SaveAllKeepsNoDuplicates` | app.js:903-921 | saving a whole step keeps `services` duplicate-free |
| `Capture.SaveAllFields` | app.js:908-920 | after saving, a key named by a non-checkbox control holds the value of the last such control; every other key keeps its presence and value |
| `Capture.SaveAllServices` | app.js:910-917 | after saving, a service is listed iff the step's last checkbox with that value is checked; a value no checkbox of the step carries keeps its membership |
| `Capture.SaveAllCreatesServices` | app.js:911 | `services` exists after saving iff it existed before or the step holds a checkbox |
| `Capture.SaveAllIdempotent` | app.js:903-921 | saving the same step twice changes no text value and no service membership |
| `Capture.SaveAllIgnoresErrors` | app.js:903-921 | saving does not depend on the error flags that validation set |
| `Timeline.DigitChar` | app.js:740 | a digit value below ten renders as a decimal digit character |
| `Timeline.NatToString` | app.js:740 | the `${itemCount + 1}` rendering is a non-empty string of decimal digits |
| `Timeline.ParseNatToString` | app.js:740 | reading the rendered row number back gives the number |
| `Timeline.NatToStringInjective` | app.js:740 | distinct row numbers render to distinct strings |
| `Timeline.FieldNamesDistinct` | app.js:738-749 | two rows have the same control names iff they have the same number; otherwise each of the three names differs |
| `Timeline.RowControls` | app.js:737-753 | a new row has three empty controls named `eventName_n`, `guestCount_n` and `duration_n` |
| `Timeline.NewRowBlocksStep` | app.js:740 | a step holding a freshly added row fails validation, because the row's event name is required and empty |
| `Timeline.ShapedPreserved` | app.js:730-762 | adding keeps the template's own row first and adds exactly one row, numbered count + 1; removing a row through its Remove button always passes the more-than-one-row guard and lowers the count by exactly one |
| `Timeline.RemoveKeepsOneRow` | app.js:757-762 | removal lowers the count by one only when more than one row exists, so the count never drops below one |
| `Timeline.NumberReusedAfterRemoval` | app.js:733-740 | nothing checks that a number is unused: add, add, remove the middle row, add gives two rows numbered 3 with identical control names |
| `InquirySummaries.Shown` | app.js:969-970 | an optional line is shown exactly when its value is non-empty |
| `InquirySummaries.ProbeLastMatch` | app.js:979-988 | the probe loop yields the value of the last filled key of the list, or its start value if none is filled |
| `InquirySummaries.ProbeNonEmpty` | app.js:979-988 | a probe started from '' finds a value iff some key of the list is filled |
| `InquirySummaries.LastFilledIndex` | app.js:982-988 | when some key is filled, there is a last filled key |
| `InquirySummaries.ServiceName` | app.js:1003-1013 | the display name comes from the five-entry table, falling back to the raw identifier |
| `InquirySummaries.DisplayNames` | app.js:1011-1013 | one display name per identifier, in list order |
| `InquirySummaries.JoinSnoc` | app.js:1018 | `join(', ')` puts the names in list order with ", " between neighbours |
| `InquirySummaries.ContactLines` | app.js:1023-1032 | a contact line is present iff its key is filled; there are at most four lines, and no line is empty |
| `InquirySummaries.KeepShownSubset` | app.js:1027-1030 | the `${v ? line : ''}` filter keeps only lines it was given, and only those with a non-empty value |
| `InquirySummaries.ContactLinesExact` | app.js:1027-1030 | the contact block is exactly the Name, Email, Phone and Preferred Contact lines whose value is non-empty, in that order, and no other line |
| `InquirySummaries.SummaryBlocks` | app.js:950-1034 | the summary always names the selected event. The couple block is shown iff the event is Wedding and both names are filled; its date and venue lines are shown iff filled, with the `weddingDate` and `weddingVenue` values. The details block is shown iff the event is not Wedding and a probed date or venue key is filled; each of its lines is shown iff a key of its list is filled. The services line is shown iff the list is non-empty, joined in list order |
| `InquirySummaries.SummaryDateLastKeyWins` | app.js:976-995 | for a non-Wedding event with some probed date key filled, the details block is shown and its date is the value of the last filled date key, whatever the venue keys hold |
| `InquirySummaries.SummaryVenueLastKeyWins` | app.js:982-995 | for a non-Wedding event with some probed venue key filled, the details block is shown and its venue is the value of the last filled venue key, whatever the date keys hold |
| `InquirySummaries.VenueOnlyExample` | app.js:982-995 | a Corporate Event with only `eventVenue` = "Hotel X" shows the venue "Hotel X" and no date line |
| `InquirySummaries.TemplateDateShown` | app.js:976-995 | a non-Wedding template whose filled date control is a probed key always gets a date in the summary |
| `InquirySummaries.ProbedDateFields` | app.js:976 | the templates whose date control is probed are exactly Birthday Party, Corporate Event, Concert, Anniversary and Family Portrait |
| `InquirySummaries.WeddingExample` | app.js:963-972 | Asha, Ravi, 2026-01-10 and Garden Hall give the couple "Asha & Ravi" with a date line and a venue line |
| `InquirySummaries.VenueOverrideExample` | app.js:986-988 | with both `eventVenue` and `partyVenue` set, a Corporate Event shows the later key's value, "Home" |
| `Wizard.Indicators` | app.js:776-796 | indicator i is completed iff i is below the step and active iff i equals the step, so exactly one indicator is active |
| `Wizard.InquiryForm.constructor` | app.js:3-10 | starts at step 0 with no selected event, empty `formData`, no timeline, the welcome view and no summary |
| `Wizard.InquiryForm.ResetForm` | app.js:49-86 | from any state: step 0, no selected event, empty `formData`, welcome view; the mounted timeline and the summary container are left as they are |
| `Wizard.InquiryForm.SelectEventType` | app.js:89-115 | records the label and shows the form. A known label mounts its template: the wedding template brings a one-row timeline, any other removes it. An unknown label mounts nothing. Step and data are kept |
| `Wizard.InquiryForm.ValidateCurrentStep` | app.js:881-901 | returns true with no active step; otherwise returns whether every required control is non-blank after trimming, and leaves the step's controls flagged as `FlagErrors` describes |
| `Wizard.InquiryForm.CaptureControl` | app.js:908-920 | one loop iteration: creates `services` if absent, pushes or splices, or overwrites `formData[name]`, exactly as `ApplyControl` specifies; keeps `services` duplicate-free |
| `Wizard.InquiryForm.SaveCurrentStepData` | app.js:903-922 | `formData` becomes the capture of the active step's controls in document order (no change without an active step); nothing else changes |
| `Wizard.InquiryForm.ShowNextStep` | app.js:815-835 | the counter rises by exactly one |
| `Wizard.InquiryForm.ShowPrevStep` | app.js:837-857 | the counter drops by exactly one |
| `Wizard.InquiryForm.NextStep` | app.js:799-807 | a failing step changes neither counter nor data; a passing step is saved, and the counter rises by one only below step 2; 0 <= step <= 2 is kept |
| `Wizard.InquiryForm.PrevStep` | app.js:809-813 | the counter drops by one above 0 and is unchanged at 0; nothing is validated or saved |
| `Wizard.InquiryForm.SubmitForm` | app.js:924-948 | a passing step is saved, the view becomes the confirmation, and the summary is that of the saved data; a failing step changes nothing but the flags; the counter is never changed |
| `Wizard.InquiryForm.AddTimelineItem` | app.js:730-755 | with no timeline nothing happens; otherwise exactly one row is appended, numbered by the count before the append plus one |
| `Wizard.InquiryForm.RemoveTimelineItem` | app.js:757-762 | the named row is removed only while more than one row exists; since only added rows carry a Remove button, a click always removes exactly that row, and the timeline keeps the template's own row first |

## Left out

- The eleven template strings (app.js:133-715) are not modelled as markup. Only the names of their required controls and of their date controls are kept, as tables. Which controls a mounted template puts into step 0 is the caller's `array` argument.
- The controls of steps 1 and 2 (services checkboxes, contact fields) are defined in the page markup, which is not part of this model. They reach the model only as the active step's controls.
- Timeline rows are not linked to the step-0 control array. `RowControls` gives a row's controls, and `NewRowBlocksStep` states their effect on validation.
- Visibility toggling is not modelled beyond the three-valued `view`. This covers sections, steps, buttons and the progress container, plus `updateNavigation`, `scrollTo` and the native `form.reset()`.
- `updateProgress`'s bar width is not modelled, since it is presentation only. The indicator classification is modelled as `Indicators`.
- The 300 ms delay before `generateEventForm` is left out: selection is modelled as immediate. So is the five-second auto-dismissed error notification (`showError`), which is cosmetic.
- `bindDynamicEvents`, the listener setup in `bindEvents`, the start-up code and the injected stylesheet are left out as plumbing. No template contains a range input.
- `eventTimelineItems` is left out: it is only ever assigned `[]`.
- The summary's exact HTML is left out. The summary is a record, and nothing is escaped, as in the source.
- `selectedEvent` rendered as the text `null` is left out. An unset event is `None` in the summary record.
- `Capture.ApplyControl`: a non-checkbox control named `services` would overwrite the `services` list with a string in the source. The model keeps the list separate and stores such a value under the text key. No template has such a control.
- `InquirySummaries.ServiceName`: keys that a plain JavaScript object inherits (such as `constructor`) would return a prototype member in the source. The model treats every identifier outside the five-entry table as unmapped.
- `Wizard.InquiryForm.RemoveTimelineItem`: the row to remove is named by its index in the row list, not by its DOM element.
