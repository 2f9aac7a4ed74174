# Pitch booking: the booking wizard and the pitch filter

This project models the two pieces of logic in a pitch-booking website.

- **The booking form** (`components/booking-form.tsx`) is a three-step wizard.
  - Step 1 asks for the date, time slot and duration.
  - Step 2 asks for the number of players and for notes.
  - Step 3 shows a summary with the total price.
  - The submit button validates the form against its schema, then moves one step on. At step 3 it hands the values over instead.
  - The left button goes back one step. At step 1 it calls the parent's cancel callback.
  - A calendar lets the user pick a date from now to 30 days ahead.
  - The total is the hourly price times the parsed duration.
- **The pitch listing** (`app/pitches/page.tsx`) filters a fixed list of pitches.
  - The search test: the query occurs, ignoring case, in the pitch's name or location.
  - The price test: the digits are pulled out of the price label ("£60/hour") and compared with 60.

The model is in four files:

- `options.dfy`: the `Option` type. `None` stands for an `undefined` form field, and for `NaN` as the result of a failed parse.
- `js_number.dfy`: JavaScript's `parseInt` with the radix left out, as the booking form and the pitch listing call it.
  - It skips leading white space, reads an optional sign, and switches to radix 16 after a `0x` prefix.
  - It reads the longest run of digits. No digits at all gives `NaN`.
  - `Decimal` is `toString` on natural numbers.
- `booking.dfy`: the wizard.
  - The draft record and the schema with its per-field messages.
  - `Apply`, a pure function giving the state after one user action. It serves as the specification.
  - The `BookingWizard` class. Its `step` and `draft` fields change in place, and each method's contract ties the new state to `Apply`.
  - The total price, the calendar's `disabled` predicate and the button labels.
- `pitch_search.dfy`: the pitch filter.
  - ASCII lower-casing, `includes`, and digit extraction.
  - `Select`, which stands for `Array.prototype.filter`, with its lemmas.
  - The filter itself and the three listed pitches.

Three points about the code that a reader might not expect; the model follows the code:

- **Validation covers the whole form.** The submit button runs the schema over the whole form, not just the current step's fields. `players` defaults to `""` and its input appears only at step 2. So "Next" at step 1 is always rejected, and the wizard never gets past step 1. `Booking.InitialRunStaysAtStepOne` proves this for every sequence of actions. The class still models the code as written.
- **The schema does not check the offered choices.** It does not require the time slot to be one of the hourly labels or the duration to be 1, 2 or 3; those are only what the selects offer. It does not restrict the date to the 30-day window; only the calendar's `disabled` predicate does.
- **Today cannot be picked.** The calendar compares each date with the current instant, not with the start of today. A calendar day before the current moment is disabled, so on most of today the calendar's own date for today is disabled. The model keeps that comparison: any timestamp before `now` is disabled.

## Model

| member | source | states |
|---|---|---|
| JsNumber.TrimStart | components/booking-form.tsx:82 | `parseInt` first drops every leading white-space character; the rest is a suffix that starts with no white space |
| JsNumber.DigitPrefix | components/booking-form.tsx:82 | the digits `parseInt` reads are the longest prefix made only of digits of the radix |
| JsNumber.ParseInt | components/booking-form.tsx:82 | `parseInt(s)` with no radix: white space is skipped, then the sign and digits are read; its properties are in ParseIntOfDigits, ParseIntOfDecimal, ParseIntSkipsWhiteSpace, ParseIntOfNegativeDecimal and ParseIntWithoutDigits |
| JsNumber.ParseSigned | components/booking-form.tsx:82 | the sign step of `parseInt`: "-" negates what follows, "+" is skipped; see ParseIntOfNegativeDecimal |
| JsNumber.ParseUnsigned | components/booking-form.tsx:82 | the radix and digit steps of `parseInt`; a number it returns is never negative |
| JsNumber.Decimal | components/booking-form.tsx:149-150 | `hours.toString()` for a natural number is a non-empty digit string that denotes that number; it starts with '0' only when it is exactly "0" |
| JsNumber.ParseIntOfDigits | app/pitches/page.tsx:59-60 | a non-empty string of decimal digits parses to the number it spells; a leading 0 is never read as a hex prefix |
| JsNumber.ParseIntOfDecimal | components/booking-form.tsx:82 | round trip: `parseInt(n.toString()) == n` for every natural number |
| JsNumber.ParseIntSkipsWhiteSpace | components/booking-form.tsx:82 | leading white space never changes what `parseInt` returns |
| JsNumber.ParseIntOfNegativeDecimal | components/booking-form.tsx:82 | a minus sign in front of decimal digits gives the negated number |
| JsNumber.ParseIntWithoutDigits | components/booking-form.tsx:82 | a string that does not start with a digit, sign or white space parses to `NaN` |
| Booking.SchemaValid | components/booking-form.tsx:34-47 | the schema: date, time slot and duration present and players non-empty; Issues proves it holds exactly when no message is reported |
| Booking.FieldIssue | components/booking-form.tsx:34-44 | a field gets at most one message, and gets one exactly when the schema rejects it; the message is attached to that field (the message texts are in the body, copied from the schema) |
| Booking.IssuesOf | components/booking-form.tsx:34-47 | the messages for a list of fields are empty exactly when every field passes, and name exactly the failing fields |
| Booking.Issues | components/booking-form.tsx:34-47 | the schema reports no message exactly when date, time slot and duration are present and players is non-empty; otherwise it reports exactly the failing fields |
| Booking.AddDays | components/booking-form.tsx:102 | `addDays(now, days)` as `days` whole days of milliseconds; DateDisabled states the window it bounds |
| Booking.DateDisabled | components/booking-form.tsx:101-103 | a date is selectable exactly when it lies in `[now, now + 30 days]` |
| Booking.LeftButtonLabel | components/booking-form.tsx:241 | the left button reads "Cancel" exactly at step 1, otherwise "Back" |
| Booking.SubmitButtonLabel | components/booking-form.tsx:244 | the submit button reads "Confirm & Pay" exactly at step 3, otherwise "Next" |
| Booking.Apply | components/booking-form.tsx:67-71 | only the two buttons change the step, and from a step in {1,2,3} the step stays in {1,2,3} |
| Booking.Run | components/booking-form.tsx:55-71 | the state a sequence of actions leaves; RunKeepsStepInRange and InitialRunStaysAtStepOne state its properties |
| Booking.Events | components/booking-form.tsx:88 | a sequence of actions yields one event per action, and the k-th event is what the k-th action does in the state the earlier actions left |
| Booking.BookingWizard.constructor | components/booking-form.tsx:55-65 | a new wizard is at step 1 with the default draft: players "", notes "", no equipment, everything else undefined |
| Booking.BookingWizard.Submit | components/booking-form.tsx:67-79 | an invalid draft is rejected with the schema's messages and nothing changes; a valid one moves step 1 or 2 one step on, or at step 3 is handed over unchanged; the draft is never changed |
| Booking.BookingWizard.BackOrCancel | components/booking-form.tsx:239 | at step 1 it cancels and changes nothing, otherwise the step goes down by one; the draft is kept |
| Booking.BookingWizard.PickDate | components/booking-form.tsx:97-103 | a click on a date is taken exactly when the date is not disabled, and then only the date field changes |
| Booking.BookingWizard.PickTimeSlot | components/booking-form.tsx:111-133 | the time slot takes the chosen value; nothing else changes |
| Booking.BookingWizard.PickDuration | components/booking-form.tsx:136-158 | the duration takes the chosen value; nothing else changes |
| Booking.BookingWizard.EnterPlayers | components/booking-form.tsx:165-177 | the players field takes the typed text; nothing else changes |
| Booking.BookingWizard.EnterNotes | components/booking-form.tsx:179-194 | the notes field takes the typed text; nothing else changes |
| Booking.RunKeepsStepInRange | components/booking-form.tsx:67-71 | from a step in {1,2,3} every sequence of actions ends at a step in {1,2,3} |
| Booking.NextAdvancesOnlyWhenValid | components/booking-form.tsx:58-71 | "Next" changes the step exactly when the whole schema holds and the step is below 3, and then by exactly one; it submits exactly at step 3 with a valid draft, passing that draft; otherwise it reports a non-empty list of messages |
| Booking.BackKeepsDraft | components/booking-form.tsx:239 | back at step 2 or 3 lowers the step by one and keeps every field; at step 1 it cancels and leaves the state as it was |
| Booking.LabelsMatchBehaviour | components/booking-form.tsx:239-244 | "Cancel" is shown exactly when the left button cancels; with a valid draft, "Confirm & Pay" is shown exactly when "Next" submits |
| Booking.ConfirmedValuesAreValid | components/booking-form.tsx:67-79 | in any run, every submitted draft satisfies the schema and equals the form's values at that moment |
| Booking.StuckStaysStuck | components/booking-form.tsx:163-177 | at step 1 with an empty players field, no action reaches step 2, fills the players field or submits |
| Booking.InitialRunStaysAtStepOne | components/booking-form.tsx:56-65 | from a freshly mounted form, no sequence of actions leaves step 1 or submits a booking |
| Booking.TotalPrice | components/booking-form.tsx:81-84 | `calculateTotal`: the price times `parseInt` of the duration, or of "1" when the duration is missing or empty; TotalDefaultsToOneHour, TotalOfWholeHours, TotalOfOfferedDurations and TotalNaN state its properties |
| Booking.BookingWizard.Total | components/booking-form.tsx:81-84 | the total of the wizard's own price and duration: the price when no duration is chosen, price × hours for a whole number of hours, `NaN` exactly when a chosen duration has no number to parse |
| Booking.TotalOfEveryWholeHours | components/booking-form.tsx:81-84 | for every whole number of hours written out, the total is price times hours |
| Booking.TotalDefaultsToOneHour | components/booking-form.tsx:81-84 | a missing or empty duration counts as one hour, so the total is the price |
| Booking.TotalOfWholeHours | components/booking-form.tsx:81-84 | for a duration written as a whole number of hours, the total is price times hours |
| Booking.TotalOfOfferedDurations | components/booking-form.tsx:149-150 | the offered durations "1", "2", "3" give price ×1, ×2, ×3; price 60 for "2" totals 120 |
| Booking.TotalNaN | components/booking-form.tsx:81-84 | the total is `NaN` exactly when a non-empty duration has no number to parse |
| Booking.SchemaIgnoresOfferedChoices | components/booking-form.tsx:29-47 | the schema does not limit the time slot or the duration to the offered options: a valid draft stays valid with slot "21:00" and duration "4", neither of which is offered |
| Booking.NoSlotAfterEight | components/booking-form.tsx:29-32 | the last offered slot is "20:00", and "21:00" is not offered |
| Booking.NoFourHourDuration | components/booking-form.tsx:149-150 | no offered duration is "4" |
| Booking.PickedDateInWindow | components/booking-form.tsx:101-103 | the calendar takes a date exactly when it lies in the window, then holds exactly that date, and otherwise leaves the state unchanged |
| PitchSearch.MatchesSearch | app/pitches/page.tsx:56-57 | the search test on name or location; SearchIgnoresQueryCase and EmptyQueryMatches state its properties |
| PitchSearch.PriceValue | app/pitches/page.tsx:59-60 | `parseInt` of the label's digits; PriceValueOfLabel, PriceValueOfDecimalLabel and HourlyLabel state its properties |
| PitchSearch.MatchesPrice | app/pitches/page.tsx:58-60 | the price-band test; PriceBandsPartition, OtherBandsActAsHigh and EmptyQueryBands state its properties |
| PitchSearch.Keep | app/pitches/page.tsx:55-61 | the filter's callback: both the search and the price test pass; FilterMembers states it |
| PitchSearch.Select | app/pitches/page.tsx:55 | `Array.prototype.filter`; SelectMembers, SelectAt, KeptIncreasing, KeptExactly, SelectIdempotent, SelectAgrees, SelectAll and SelectSplit state its properties |
| PitchSearch.Filter | app/pitches/page.tsx:55-62 | `filteredPitches`; FilterMembers, FilterIsOrderedSelection, FilterIdempotent, FilterEverything, PriceBandsCount and ListingPriceBands state its properties |
| PitchSearch.Lower | app/pitches/page.tsx:56-57 | lower-casing keeps the length and maps each character on its own |
| PitchSearch.Includes | app/pitches/page.tsx:56-57 | `includes` holds exactly when the needle occurs in the haystack at some position |
| PitchSearch.ExtractDigits | app/pitches/page.tsx:59-60 | removing the non-digits leaves only ASCII digits, and nothing exactly when the label has no digit |
| PitchSearch.LowerIdempotent | app/pitches/page.tsx:56-57 | lower-casing twice is lower-casing once |
| PitchSearch.SearchIgnoresQueryCase | app/pitches/page.tsx:56-57 | a query and its lower-cased form match the same pitches |
| PitchSearch.EmptyQueryMatches | app/pitches/page.tsx:56-57 | the empty query matches every pitch |
| PitchSearch.ExtractDigitsConcat | app/pitches/page.tsx:59-60 | digit extraction works piece by piece over concatenation and keeps a single character exactly when it is a digit |
| PitchSearch.ExtractDigitsOfDigits | app/pitches/page.tsx:59-60 | a string of digits is left as it is |
| PitchSearch.PriceValueOfLabel | app/pitches/page.tsx:59-60 | the price is the decimal number the label's digits spell, and `NaN` exactly when the label has no digit |
| PitchSearch.PriceValueOfDecimalLabel | app/pitches/page.tsx:59-60 | text without digits around a decimal price reads as that price |
| PitchSearch.HourlyLabel | app/pitches/page.tsx:26 | a label "£n/hour" reads as n |
| PitchSearch.ListedLabels | app/pitches/page.tsx:26-44 | "£60/hour", "£75/hour" and "£55/hour" read as 60, 75 and 55 |
| PitchSearch.LabelSixty | app/pitches/page.tsx:26 | "£60/hour" reads as 60 |
| PitchSearch.LabelSeventyFive | app/pitches/page.tsx:36 | "£75/hour" reads as 75 |
| PitchSearch.LabelFiftyFive | app/pitches/page.tsx:44 | "£55/hour" reads as 55 |
| PitchSearch.SelectMembers | app/pitches/page.tsx:55 | `filter` keeps an element exactly when it occurs and the test admits it |
| PitchSearch.KeptFrom | app/pitches/page.tsx:55 | the kept positions all lie within the list |
| PitchSearch.SelectAt | app/pitches/page.tsx:55 | the k-th kept element is the element at the k-th kept position |
| PitchSearch.KeptIncreasing | app/pitches/page.tsx:55 | the kept positions strictly increase |
| PitchSearch.KeptExactly | app/pitches/page.tsx:55 | a position is kept exactly when the test admits the element there |
| PitchSearch.SelectIdempotent | app/pitches/page.tsx:55 | filtering a filtered list with the same test changes nothing |
| PitchSearch.SelectAgrees | app/pitches/page.tsx:55 | tests that agree on every element give the same result |
| PitchSearch.SelectAll | app/pitches/page.tsx:55 | a test that admits every element keeps the whole list |
| PitchSearch.SelectSplit | app/pitches/page.tsx:55 | two disjoint tests that cover a third split its result's length between them |
| PitchSearch.SelectThree | app/pitches/page.tsx:55 | on three elements, `filter` keeps each one the test admits, in order |
| PitchSearch.FilterMembers | app/pitches/page.tsx:55-62 | a pitch is listed exactly when it is in the list and matches both the search and the price band |
| PitchSearch.FilterIsOrderedSelection | app/pitches/page.tsx:55-62 | the result is the list's elements at strictly increasing indices, and those are exactly the indices of the pitches that pass |
| PitchSearch.FilterIdempotent | app/pitches/page.tsx:55-62 | filtering the result again with the same query and band returns it unchanged |
| PitchSearch.FilterEverything | app/pitches/page.tsx:56-58 | the empty query with "all" returns the whole list |
| PitchSearch.PriceBandsPartition | app/pitches/page.tsx:58-60 | "low" and "high" never both keep a pitch, and one of them does exactly when it matches the search and its label has a digit; any band other than "all" and "low" acts as "high"; "all" imposes no price constraint |
| PitchSearch.PriceBandsCount | app/pitches/page.tsx:58-60 | when every label has a digit, the "low" and "high" results together are as long as the "all" result |
| PitchSearch.OtherBandsActAsHigh | app/pitches/page.tsx:58-60 | every band other than "all" and "low" gives the same result as "high" |
| PitchSearch.EmptyQueryBands | app/pitches/page.tsx:58-60 | with the empty query, "low" keeps a pitch exactly when its price is at most 60, and "high" exactly when it is above 60 |
| PitchSearch.ListedPriceBands | app/pitches/page.tsx:55-62 | three pitches priced 60, 75 and 55 list the first and third under "low" and the second under "high" |
| PitchSearch.ListingPriceBands | app/pitches/page.tsx:20-62 | the listing itself: "low" gives Central Stadium and Elite Training Ground, "high" gives Riverside Arena |

## Left out

- Rendering leaves no trace in the model: JSX layout, styling and animation, the summary text at step 3, and the pages whose only logic is display (home page, header, layout, tournaments, register, login, pitch detail).
- The submission at step 3 only logs the values to the console. The model represents it as the `Confirmed(values)` event. There is no payment, email or backend step in the code to model.
- Form and schema library internals are reduced to their observable effect, which is the schema predicate and its per-field messages. Left out: re-validation on change after a failed submit, focus handling and message display.
- Picking the selected date again in the calendar clears that date. This is the calendar library's behaviour, not this code's, and it is not modelled.
- The players input is `type="number" min="1" max="30"`. The browser's own checks on those bounds are not modelled; only the schema's non-empty test is.
- Dates are integer millisecond timestamps, and `now` is a parameter. The code reads the clock twice in its `disabled` predicate; the model reads it once. Time zones and day lengths that are not 24 hours are left out: `addDays` is exactly 30 × 86,400,000 ms.
- Prices are integers, not JavaScript floats.
- Booking.TotalPrice: does not model floating-point rounding. `parseInt` results above 2^53 lose precision, and `-0` is read as 0.
- PitchSearch.Lower: does not model Unicode case mapping. Only ASCII letters are lower-cased, where JavaScript's `toLowerCase` maps all of Unicode.
- PitchSearch.PriceValueOfLabel: large digit strings lose precision as floats. This cannot change a comparison with 60, so the price band result is exact.
- Inputs that are not on screen cannot receive edits: date, time slot and duration exist only at step 1, players and notes only at step 2. The class methods require the right step. The pure `Apply` function returns `Ignored` for such an edit, and also for a click on a disabled date.
- The `pitchId` property is stored, but the code never reads it.
