# Salon booking flow — a Dafny model

This project models the booking engine behind the salon's multi-step booking screen. It proves properties of that model.

- **The catalog** (`catalog.dfy`) is a tree of steps. Each step has single- or multi-choice options. An option either leads to another step or is a priced leaf service. The project includes the concrete barber and hairdresser catalog, with its invariants proved.
- **The flow utilities** (`flow_utils.dfy`) do four jobs:
  - build the option index;
  - collect the steps below an option;
  - derive the next screen from the current group's selections;
  - total the selected services.
- **The stepper** (`stepper.dfy`, `stepper_values.dfy`, `selection.dfy`) is a class.
  - Its fields are the component's state: the step-group history and the current group index, the selected options, the specialist per category, the appointment and the customer details.
  - Its methods are the click handlers and the effects, applied one after another.
  - Its derived values are the specialist categories, the "continue" gate, the duration label and the time slots.
- **WhatsApp messages** (`messages.dfy`) are the confirmation, reminder and thank-you texts.
- **Helpers:**
  - `text.dfy` models the JavaScript string operations the code relies on: `trim`, decimal printing, `padStart`, `toLowerCase` and `join`.
  - `ordered.dfy` models insertion-ordered sets, which JavaScript `Set` provides.
  - `wrappers.dfy` holds `Option` and JavaScript truthiness.

JavaScript records become Dafny maps. Where the source iterates over a record (`Object.values`, `Object.keys`), the model picks the keys in an unspecified order. Each result is then stated for every order, given as a ghost out-parameter.

Three places where the code behaves in a way a reader might not expect; the model follows the code:
- `buildFlowOptionIndex` silently overwrites an entry when two options share an id, instead of rejecting the catalog. The model states the index exactly only when ids are distinct, and proves they are distinct in the shipped catalog.
- `updateSelection` accepts a click on a disabled option: it never reads `isDisabled`. Only the option card refuses the click.
- `specialistCategoryIds` collects the categories of every selected option, branch options included, not only of the chosen leaf services.

## Model

| member | source | states |
|---|---|---|
| FlowUtils.BuildFlowOptionIndex | src/app/mock/lib/flow-utils.ts:10-25 | The index's keys are exactly the option ids of the catalog; every entry names a step that lists that option; when ids are distinct, the entry of option `i` of step `k` is `(k, option)` |
| FlowUtils.IndexOverKeys | src/app/mock/lib/flow-utils.ts:15-22 | Over any step order, an id is a key exactly when some listed step has an option with that id |
| FlowUtils.IndexOverKeysLast | src/app/mock/lib/flow-utils.ts:15-22 | Visiting one more step adds exactly its option ids to the keys |
| FlowUtils.IndexOverEntries | src/app/mock/lib/flow-utils.ts:15-22 | Every entry records a step containing an option with that id, and that option |
| FlowUtils.IndexOverExact | src/app/mock/lib/flow-utils.ts:15-22 | With distinct option ids, no later write overwrites an option's own entry |
| FlowUtils.WriteOptionsKeys | src/app/mock/lib/flow-utils.ts:16-21 | Writing one step's options adds exactly their ids to the keys |
| FlowUtils.WriteOptionsValues | src/app/mock/lib/flow-utils.ts:16-21 | After one step's writes, an entry is either the old one or that step with one of its options |
| FlowUtils.WriteOptionsFrame | src/app/mock/lib/flow-utils.ts:16-21 | Ids the step does not use keep their entries |
| FlowUtils.WriteOptionsExact | src/app/mock/lib/flow-utils.ts:16-21 | With distinct ids inside the step, each option's entry is that step with that option |
| FlowUtils.CollectDescendantsFromStep | src/app/mock/lib/flow-utils.ts:27-42 | The result is the accumulator plus the descendants of the step, keeps the accumulator as a prefix, and adds no duplicate |
| FlowUtils.CollectFromOption | src/app/mock/lib/flow-utils.ts:36-41 | Visiting option `i` adds exactly what it reaches to what the earlier options collected, keeping the prefix and distinctness |
| FlowUtils.CollectDescendantStepIds | src/app/mock/lib/flow-utils.ts:44-54 | An undefined or empty start gives `[]`; an unknown step gives `[]`; otherwise the members are exactly the descendants; no duplicates |
| FlowUtils.DescendantsAreStepIds | src/app/mock/lib/flow-utils.ts:27-42 | Descendants are step ids |
| FlowUtils.OptionsReachAreStepIds | src/app/mock/lib/flow-utils.ts:36-41 | What the options of a step reach are step ids |
| FlowUtils.OptionsReachWitness | src/app/mock/lib/flow-utils.ts:36-41 | A step reached through the options is reached through one particular option |
| FlowUtils.OptionsReachIncludes | src/app/mock/lib/flow-utils.ts:36-41 | Every option's reach is part of the step's reach |
| FlowUtils.DescendantsTransitive | src/app/mock/lib/flow-utils.ts:27-42 | The descendants of a descendant are descendants |
| FlowUtils.DescendantsClosed | src/app/mock/lib/flow-utils.ts:36-41 | The descendant set is closed under "has children, names a next step, and that step exists" |
| FlowUtils.DescendantsLeast | src/app/mock/lib/flow-utils.ts:27-42 | Every closed set that contains the start contains all descendants, so the set is the least such |
| FlowUtils.OptionsReachLeast | src/app/mock/lib/flow-utils.ts:36-41 | The same minimality for what the options reach |
| FlowUtils.CalculateBookingSummary | src/app/mock/lib/flow-utils.ts:71-111 | The services are the selected leaf options of existing steps, visiting the steps in some order; the totals are the sums over the services; an empty selection gives no services and zero totals |
| FlowUtils.AddStepServices | src/app/mock/lib/flow-utils.ts:82-97 | One step's loop appends exactly that step's leaf services |
| FlowUtils.StepServicesMembers | src/app/mock/lib/flow-utils.ts:82-97 | A service comes from one step's selection exactly when a selected id is indexed without children, with a missing price or duration read as 0 |
| FlowUtils.ServicesOverMembers | src/app/mock/lib/flow-utils.ts:78-98 | Services over a step order are exactly the services of the steps in that order that exist |
| FlowUtils.SummaryServices | src/app/mock/lib/flow-utils.ts:78-98 | For any order that visits every selected step once, the services are exactly the selected leaf services |
| FlowUtils.SumsAppend | src/app/mock/lib/flow-utils.ts:100-104 | Totals of a concatenation are the sums of the totals |
| FlowUtils.DeriveNextStepIds | src/app/mock/lib/flow-utils.ts:113-133 | The result is the first-seen deduplication of the selected options' next steps, over the group's steps in order |
| FlowUtils.AddTargets | src/app/mock/lib/flow-utils.ts:122-129 | One step's loop adds its targets to the set in first-seen order |
| FlowUtils.TargetsOfMembers | src/app/mock/lib/flow-utils.ts:122-129 | A target comes from a selected id exactly when that id is indexed, has children and names a next step |
| FlowUtils.CandidatesMembers | src/app/mock/lib/flow-utils.ts:120-130 | A candidate comes from the group exactly when one of its steps has a selected option with that target; unindexed ids contribute nothing |
| FlowUtils.DeriveNextStepIdsSpec | src/app/mock/lib/flow-utils.ts:113-133 | The next ids are distinct, are exactly the candidates, and follow the order in which each candidate is first seen |
| FlowUtils.CandidatesFrame | src/app/mock/lib/flow-utils.ts:119-124 | Selections in steps outside the group do not change the next ids |
| Ordered.DedupDistinct | src/app/mock/lib/flow-utils.ts:118-132 | `Array.from(new Set(...))` has no duplicates |
| Ordered.DedupElements | src/app/mock/lib/flow-utils.ts:118-132 | It keeps every element and adds none |
| Ordered.DedupFirstSeen | src/app/mock/lib/flow-utils.ts:118-132 | Its order is the order of first occurrence |
| Ordered.DedupOfDistinct | src/app/mock/lib/flow-utils.ts:50-53 | A duplicate-free sequence is unchanged |
| Ordered.DedupSnoc | src/app/mock/lib/flow-utils.ts:127 | Adding one element is `Set.add` |
| Selection.RemoveAll | src/app/mock/booking-stepper.tsx:421-423 | `filter((id) => id !== optionId)` keeps exactly the other ids |
| Selection.Without | src/app/mock/booking-stepper.tsx:426 | `removedOptionIds` are exactly the previous ids not in the next selection |
| Selection.CascadeMembers | src/app/mock/booking-stepper.tsx:433-446 | The cleared steps are exactly the descendants of the next steps of the removed ids that are indexed |
| Selection.SelectionAfterEntries | src/app/mock/booking-stepper.tsx:412-448 | After a click, the clicked step holds the toggled list unless it is empty or cleared; every other step keeps its entry unless the cascade clears it |
| Selection.SelectionAfterNoEmpty | src/app/mock/booking-stepper.tsx:428-431 | No empty list persists in the selection |
| Selection.RemovedAreSelected | src/app/mock/booking-stepper.tsx:426 | Only previously selected ids can start a cascade |
| Selection.SingleChoiceToggle | src/app/mock/booking-stepper.tsx:416-418 | On a single-choice step, clicking the first selected option removes the step's entry; any other click leaves exactly `[optionId]` |
| Selection.MultiRemoved | src/app/mock/booking-stepper.tsx:419-426 | Deselecting on a multi-choice step removes exactly the clicked id |
| Selection.MultiChoiceToggle | src/app/mock/booking-stepper.tsx:419-431 | On a multi-choice step, clicking an unselected option appends it and changes nothing else; clicking a selected one filters it out, drops the key when no id is left, and clears exactly the steps that option leads to |
| Selection.MultiChoiceSelectThenDeselect | src/app/mock/booking-stepper.tsx:419-431 | Selecting a new option and then deselecting it gives back the previous selection, minus the steps the option leads to |
| Selection.SelectionAfterIs | src/app/mock/booking-stepper.tsx:412-448 | Once the new ids and the removed ids of a step are known, the updated selection is the step set to the new ids minus every step the removed ids lead to |
| Selection.DeselectAppended | src/app/mock/booking-stepper.tsx:419-447 | Clicking the id just appended to a multi-choice step gives back the selection before it, minus the steps that id leads to |
| Selection.RemoveAllAppended | src/app/mock/booking-stepper.tsx:421-423 | Filtering out an appended id gives the list back |
| Selection.WithoutAppended | src/app/mock/booking-stepper.tsx:426 | The removed ids of that click are exactly the appended id |
| Selection.CascadeSingle | src/app/mock/booking-stepper.tsx:433-446 | The cascade from one id is that id's invalidated steps |
| Selection.ToggledBack | src/app/mock/booking-stepper.tsx:428-431 | Writing back a step's previous ids after appending one gives back the selection, also when the step had none |
| Selection.WithoutCovered | src/app/mock/booking-stepper.tsx:426 | Nothing is removed when the next list covers the previous one |
| Selection.RemoveAllAbsent | src/app/mock/booking-stepper.tsx:421-423 | Filtering out an absent id changes nothing |
| Selection.DescendantsRanked | src/app/mock/lib/flow-utils.ts:36-41 | On an acyclic catalog every descendant is a step ranked no higher than the start |
| Selection.OwnOptionsSpareStep | src/app/mock/booking-stepper.tsx:433-446 | Removing a step's own options never clears that step |
| Stepper.PseudoStepGroup | src/app/mock/booking-stepper.tsx:485-512 | A group holding a pseudo-step holds only that step |
| Stepper.StagesClimb | src/app/mock/booking-stepper.tsx:456-517 | Stages never go down along the history, and climb by one per group once past the catalog |
| Stepper.NoLaterPseudoStep | src/app/mock/booking-stepper.tsx:483-512 | A later pseudo-step is never in the kept prefix, so `goForward` always appends it |
| Stepper.HistoryPrefix | src/app/mock/booking-stepper.tsx:393-400 | Truncating the history keeps its shape |
| Stepper.HistoryAppend | src/app/mock/booking-stepper.tsx:481-516 | Appending the next group keeps its shape |
| Stepper.FlowFactsFrom | src/app/mock/booking-stepper.tsx:148 | Any acyclic flow with resolving branches, keys equal to ids and no key named like a pseudo-step satisfies, with any index of its options, every fact the stepper relies on |
| Stepper.FrizerieFlowFacts | src/app/mock/booking-stepper.tsx:148 | The shipped catalog and its index satisfy every fact the stepper relies on |
| Stepper.FrizerieIndex | src/app/mock/booking-stepper.tsx:148 | The index of the shipped catalog has exactly one entry per option, recording its step, and satisfies the stepper's facts |
| Stepper.NextGroupWellFormed | src/app/mock/booking-stepper.tsx:503-516 | The group after a catalog group is catalog steps only, or the specialist step alone |
| Stepper.BookingStepper.constructor | src/app/mock/booking-stepper.tsx:148-168 | The initial state: the root group, no selections and default appointment and customer fields |
| Stepper.BookingStepper.EnsureGroupsTrimmed | src/app/mock/booking-stepper.tsx:393-400 | The history becomes its first `currentGroupIndex + 1` groups |
| Stepper.BookingStepper.UpdateSelection | src/app/mock/booking-stepper.tsx:402-449 | An unknown step changes nothing; otherwise the history is trimmed, the specialists cleared and the selection becomes the toggle followed by the cascade |
| Stepper.BookingStepper.SelectionUpdater | src/app/mock/booking-stepper.tsx:412-448 | The updater returns the toggled selection with the cascade applied |
| Stepper.BookingStepper.ClearDescendants | src/app/mock/booking-stepper.tsx:433-446 | The draft loses exactly the steps below the removed options |
| Stepper.BookingStepper.GoBack | src/app/mock/booking-stepper.tsx:451-454 | The current group index goes back one, floored at 0; the history is kept |
| Stepper.BookingStepper.GoForward | src/app/mock/booking-stepper.tsx:456-517 | On the customer group nothing changes; otherwise the groups after the current one are dropped, exactly one next group is appended and the current group index moves onto it |
| Stepper.BookingStepper.PruneSpecialists | src/app/mock/booking-stepper.tsx:302-325 | Exactly the truthy assignments of still-selected categories survive, with their values |
| Stepper.BookingStepper.ToggleSpecialist | src/app/mock/booking-stepper.tsx:615-625 | The assignment map becomes its toggle |
| Stepper.BookingStepper.ToggleTimeSlot | src/app/mock/booking-stepper.tsx:684-686 | The time becomes its toggle |
| Stepper.BookingStepper.SetRecurring | src/app/mock/booking-stepper.tsx:787-792 | The switch sets the flag; turning it off restores the default frequency |
| Stepper.BookingStepper.SetWaitlist | src/app/mock/booking-stepper.tsx:836 | The switch sets the waitlist flag |
| Stepper.BookingStepper.SelectDate | src/app/mock/booking-stepper.tsx:703 | The calendar sets the date |
| Stepper.BookingStepper.SetRecurrenceFrequency | src/app/mock/booking-stepper.tsx:803 | The picker sets the frequency |
| Stepper.BookingStepper.ResetAppointmentWhenUnreachable | src/app/mock/booking-stepper.tsx:359-377 | With no appointment group in the history, a touched appointment is reset to its defaults; otherwise nothing changes |
| Stepper.BookingStepper.ResetRecurrenceWhenIncomplete | src/app/mock/booking-stepper.tsx:379-389 | Without a date and a time, recurrence and the waitlist are switched off, and recurrence returns to the default frequency |
| Stepper.BookingStepper.CanContinue | src/app/mock/booking-stepper.tsx:233-283 | The gate is decided by the first matching group kind: customer details, then appointment, then specialists, then a catalog group |
| Stepper.SpecialistsChosen | src/app/mock/booking-stepper.tsx:255-267 | The specialist gate holds exactly when some service is selected and every selected category has a truthy assignee |
| Stepper.HasServices | src/app/mock/booking-stepper.tsx:256-258 | `summary.services.length > 0` exactly when some selected leaf service exists |
| Stepper.CategoriesAssigned | src/app/mock/booking-stepper.tsx:260-266 | `every` category has a truthy assignee; an empty list passes |
| Stepper.PrunedAssignments | src/app/mock/booking-stepper.tsx:303-324 | The updater's result, including the branch that hands back `prev` when nothing was dropped, equals `KeepCategories` of the previous map |
| Stepper.DeleteKeys | src/app/mock/booking-stepper.tsx:442-444 | Exactly the listed keys are deleted; the others keep their values |
| StepperValues.JsRemainder | src/app/mock/booking-stepper.tsx:64 | JavaScript `%` keeps the sign of the dividend and stays below the divisor |
| StepperValues.FormatDurationRoundTrip | src/app/mock/booking-stepper.tsx:62-75 | Reading back `"{h}h {m}m"`, `"{h}h"` or `"{m}m"` gives the minutes |
| StepperValues.FormatDurationInjective | src/app/mock/booking-stepper.tsx:62-75 | Different durations get different labels |
| StepperValues.LabelOfNat | src/app/mock/booking-stepper.tsx:62-75 | The label has the form `"{h}h {r}m"` when both parts are nonzero, `"{h}h"` when only the hours are, and `"{r}m"` otherwise (including `"0m"`) |
| StepperValues.ParseHoursAndMinutes | src/app/mock/booking-stepper.tsx:70 | The two-part label reads back as hours and minutes |
| StepperValues.MinutesLabelSplit | src/app/mock/booking-stepper.tsx:70 | Splitting at the `h` gives the two numerals |
| StepperValues.MinutesLabelOf | src/app/mock/booking-stepper.tsx:70 | A body `"{h}h {m}"` reads back as hours and minutes |
| StepperValues.ParseHours | src/app/mock/booking-stepper.tsx:71 | An hours-only label reads back |
| StepperValues.ParseMinutes | src/app/mock/booking-stepper.tsx:74 | A minutes-only label reads back |
| StepperValues.FindChar | src/app/mock/booking-stepper.tsx:62-75 | The first position of a character, or the length when it is absent |
| StepperValues.TimeSlots | src/app/mock/booking-stepper.tsx:170-175 | There are 11 slots |
| StepperValues.TwoDigits | src/app/mock/booking-stepper.tsx:172-173 | Hours 10 to 20 print as two digits |
| StepperValues.SlotHour | src/app/mock/booking-stepper.tsx:170-175 | Slot `i` is `"HH:00"` with hour `i + 10` |
| StepperValues.TimeSlotsHours | src/app/mock/booking-stepper.tsx:170-175 | Every slot is `"HH:00"` for hours 10 to 20, and the slots are distinct |
| StepperValues.EmailValidIntro | src/app/mock/booking-stepper.tsx:53 | `user@host.tld` with non-empty parts free of whitespace and `@` matches |
| StepperValues.EmailValidShape | src/app/mock/booking-stepper.tsx:53 | A matching address has exactly one `@` and no whitespace |
| StepperValues.SpecialistCategoryIds | src/app/mock/booking-stepper.tsx:215-231 | The ids are distinct and are exactly the categories of the selected options; in order they are the first-seen deduplication over the steps in some order |
| StepperValues.AddCategories | src/app/mock/booking-stepper.tsx:219-228 | One step's loop adds its categories in first-seen order |
| StepperValues.AddCategory | src/app/mock/booking-stepper.tsx:220-227 | One option adds its truthy, unseen category |
| StepperValues.CategoriesOfMembers | src/app/mock/booking-stepper.tsx:220-227 | A category comes from an id list exactly when an indexed id has that truthy category |
| StepperValues.CategoryCandidatesMembers | src/app/mock/booking-stepper.tsx:217-229 | A candidate comes from exactly the selected ids of the listed steps |
| StepperValues.SpecialistCategoryIdsSpec | src/app/mock/booking-stepper.tsx:215-231 | The ids are distinct, are exactly the categories of all selected options (branches included), and are in first-seen order |
| StepperValues.KeepCategories | src/app/mock/booking-stepper.tsx:304-310 | The kept keys are exactly the still-selected categories with a truthy previous value, unchanged |
| StepperValues.SameAssignmentsEqual | src/app/mock/booking-stepper.tsx:312-322 | Equal key counts with matching values mean the same map, so returning `prev` is returning `next` |
| StepperValues.KeepCategoriesIdempotent | src/app/mock/booking-stepper.tsx:302-325 | Pruning twice is pruning once |
| StepperValues.ToggledSpecialists | src/app/mock/booking-stepper.tsx:615-625 | Clicking the current specialist unassigns the category; any other click assigns it; other categories are unchanged |
| StepperValues.ToggledSpecialistsTwice | src/app/mock/booking-stepper.tsx:615-625 | Clicking the same specialist twice restores the assignments exactly when the category was unassigned or already held that specialist; if it held another one, it ends up unassigned |
| StepperValues.ToggledTimeSlot | src/app/mock/booking-stepper.tsx:684-686 | Clicking the chosen slot clears it; any other click chooses that slot |
| Catalog.SoundSteps | src/app/mock/data/frizerie-flow.ts:36-485 | A flow whose every step keeps the per-option rules has keys equal to step ids, resolving branches, priced enabled leaves, inert disabled options, next steps only on branches, a strictly decreasing rank along every link, known categories and pairwise distinct option ids |
| Catalog.FrizerieStepsSound | src/app/mock/data/frizerie-flow.ts:37-485 | Every step of the shipped catalog keeps the per-option rules |
| Catalog.FrizerieSound | src/app/mock/data/frizerie-flow.ts:36-655 | The shipped catalog: every key is its step's id and the root is a key; every option with children names an existing step and only those name one; enabled leaves are priced and timed; disabled options lead nowhere; it is acyclic; every category is in the specialist catalog; option ids are pairwise distinct |
| Messages.FormatGreeting | src/app/mock/lib/messages.ts:19-22 | The greeting starts with `Salut` and ends with `!` |
| Messages.GreetingWithoutName | src/app/mock/lib/messages.ts:19-22 | The greeting is `"Salut!"` exactly when the name is missing or blank |
| Messages.GreetedNameOfGreeting | src/app/mock/lib/messages.ts:19-22 | The name in the greeting is the trimmed name |
| Messages.GreetingIgnoresPadding | src/app/mock/lib/messages.ts:19-22 | Whitespace around the name does not change the greeting |
| Messages.FilterTruthy | src/app/mock/lib/messages.ts:56 | `filter(Boolean)` leaves no empty line |
| Messages.FilterPresent | src/app/mock/lib/messages.ts:86 | `filter((line) => line !== null)` keeps at most every line |
| Messages.FilterMembers | src/app/mock/lib/messages.ts:56-86 | The confirmation filter keeps exactly the non-empty lines; the reminder filter keeps every present line, `""` included |
| Messages.FilterPrefix | src/app/mock/lib/messages.ts:56-86 | Filtering is line by line, in order |
| Messages.FilterTruthyAppend | src/app/mock/lib/messages.ts:56 | `filter(Boolean)` of a concatenation is the concatenation of the filtered parts |
| Messages.FilterPresentAppend | src/app/mock/lib/messages.ts:86 | `filter((line) => line !== null)` of a concatenation is the concatenation of the filtered parts |
| Messages.FilterTruthyTen | src/app/mock/lib/messages.ts:43-56 | Filtering the ten confirmation lines concatenates what each line keeps |
| Messages.FilterPresentSeven | src/app/mock/lib/messages.ts:78-86 | Filtering the seven reminder lines concatenates what each line keeps |
| Messages.ConfirmationHead | src/app/mock/lib/messages.ts:41-47 | The first four lines: the greeting always, then the date, service and specialist lines only when their inputs are truthy |
| Messages.ConfirmationTail | src/app/mock/lib/messages.ts:48-56 | The last six: the duration and cost lines always, the lower-cased recurrence line only for a truthy label, the waitlist line only when it is on, then the two fixed closing lines |
| Messages.ConfirmationShape | src/app/mock/lib/messages.ts:29-59 | The confirmation message is those kept lines joined by newlines |
| Messages.FormatReminderDate | src/app/mock/lib/messages.ts:24-27 | A label exists exactly when a date is given |
| Messages.ReminderShape | src/app/mock/lib/messages.ts:61-89 | The reminder keeps its blank separator lines: greeting, `""`, the service line and the specialist line each only when truthy, duration, `""`, confirm line |
| Messages.ReminderGreetingParts | src/app/mock/lib/messages.ts:71-76 | The reminder greeting adds `", <date>"` only with a date label and `", la <time>"` only with a time |
| Messages.BuildThankYouMessage | src/app/mock/lib/messages.ts:91-104 | The thank-you text depends only on the name and is its four lines joined by newlines |
| Messages.ConfirmationEnds | src/app/mock/lib/messages.ts:41-58 | The confirmation starts with the greeting and ends with the manage line |
| Messages.ReminderEnds | src/app/mock/lib/messages.ts:74-88 | The reminder starts with the greeting and ends with the confirm line |
| Messages.ThankYouEnds | src/app/mock/lib/messages.ts:94-103 | The thank-you text starts with the greeting and ends with its closing line |
| Messages.BuildWhatsAppMessage | src/app/mock/lib/messages.ts:106-122 | Each kind dispatches to its own builder; every message starts with the greeting and ends with that kind's closing line |
| Text.TrimEmptyIff | src/app/mock/booking-stepper.tsx:238-239 | `Boolean(s.trim())` holds exactly when `s` has a non-whitespace character |
| Text.TrimPaddedAny | src/app/mock/lib/messages.ts:20 | Padding with whitespace does not change the trimmed text |
| Text.TrimIdempotent | src/app/mock/lib/messages.ts:20 | Trimming twice is trimming once |
| Text.ParseNatToString | src/app/mock/booking-stepper.tsx:62-75 | Decimal printing reads back |
| Text.NatToStringInjective | src/app/mock/booking-stepper.tsx:62-75 | Different numbers print differently |
| Text.JoinEnds | src/app/mock/lib/messages.ts:58 | Joined text starts with its first line and ends with its last |
| Text.JoinTwo | src/app/mock/lib/messages.ts:103 | Joining two lines puts one separator between them |

## Left out

- `src/app/mock/page.tsx` and its page chrome are not part of this model. Nor is `src/app/api/mock/send-whatsapp/route.ts`, which wraps the Twilio HTTP API, the network and the environment.
- JSX rendering is left out: the option cards, the step renderers and the summary card. So are the viewport and IntersectionObserver effects (`booking-stepper.tsx:327-357`) and the `console.info` log in `goForward`. That log is the only thing the final group does.
- `formatPrice` is left out because it uses `Intl.NumberFormat`.
- Dates are not modelled. `date-fns` formatting is a function parameter `formatDate` of the reminder builders. The calendar's booked and disabled dates are left out.
- Specialist `rating` and `firstAvailableDate` are display-only, so they are left out.
- React's batched, asynchronous `setState` is not modelled. Each handler is a sequential transition, and the effects are methods the caller runs after the change they react to.
- The customer text inputs and their `onBlur` "touched" flags are left out. Each writes one field verbatim and only affects which error text shows.
- Key order of JavaScript objects is not modelled. The model iterates maps in an unspecified order, so the summary's service order, the category order across steps and which duplicate id the index keeps are stated for every order rather than the insertion order.
- The `EMAIL_REGEX` test is a decidable predicate on strings, with lemmas linking it to the pattern's shape. It is not a regular-expression engine.
- Text.ToLower: covers ASCII, Latin-1 and the Romanian letters that occur in the catalog's labels, not all of Unicode.
- StepperValues.FormatDurationRoundTrip: stated for non-negative minutes only. For negative input the code's `Math.floor` and `%` results are modelled by `JsRemainder`, but no round trip is claimed.
- `isWaitlistEnabled` in the message context is a plain boolean. An undefined value in the source reads as false.
- Numbers are integers. The source's `price`, `durationMinutes` (`frizerie-flow.ts:9-10`) and `formatDuration`'s `minutes` (`booking-stepper.tsx:62`) are JavaScript doubles; the model uses `int`. So fractional prices or durations, labels such as `"1h 30.5m"` and floating-point rounding in the sums of `calculateBookingSummary` are not modelled. The shipped catalog holds integer values only, where the two agree.
- The catalog must be acyclic. `collectDescendantsFromStep` (`flow-utils.ts:27-42`) keeps no visited set, so on a cyclic catalog it recurses until the stack overflows. FlowUtils.CollectDescendantsFromStep, FlowUtils.CollectDescendantStepIds and the operations built on them require a rank that strictly decreases along every next-step link (`RankedBy`). That excludes every input on which the source does not terminate, and also a cyclic catalog whose cycle cannot be reached from the start step. Catalog.FrizerieSound proves such a rank exists for the shipped catalog.
