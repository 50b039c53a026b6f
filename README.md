# Shift management: a Dafny model

This project models the core of a shift-scheduling application. A *shift* has a title, an optional
description and one to ten *date entries*. Each entry has a date, a start and end time, a price and
one of three types: Consultation, Telephone or Ambulance. The backend stores shifts and their date
rows. It refuses to create or update a shift when one of the submitted entries overlaps a stored
entry of the same date and type. The frontend keeps the fetched shifts in a Redux slice, edits a
shift's entries in a drawer form, and filters the shown list by price.

Modules, one for each modelled source file plus four shared ones (`Domain`, `ClientTypes`, `Seqs`,
`Wrappers`):

- `Domain` (`domain.dfy`): the shift type enum and its names. Times are minutes since midnight
  (`Minutes`, below 1440), dates are calendar dates compared only for equality, and prices are
  whole cents (`decimal(10, 2)`). Ids are naturals.
- `ShiftDateDto` (`shift_date_dto.dfy`): the validity of one submitted date entry. This covers
  `IsDateString` as YYYY-MM-DD, `IsTimeString` as HH:mm, `Min(0)` on the price and `IsEnum` on the
  type. It also parses an entry into typed values, with proved round trips between each text
  field and its value.
- `ShiftDto` (`shift_dto.dfy`): the validity of a whole payload (title, description, 1 to 10
  dates) and its parse into the service's input.
- `ShiftService` (`shift_service.dfy`): the overlap query `checkTimeOverlap`, the validation loop
  shared by `create` and `update`, `getPriceRange`, and the class `ShiftStore`. The class holds
  the `shift` rows (a map by id) and the `shift_dates` rows (a sequence), and its methods are
  `FindOne`, `Create`, `Update` and `Remove`. Three client scenarios at the end are proved from
  the contracts alone.
- `ClientTypes` (`client_types.dfy`): the frontend's `Shift` and `ShiftDate`.
- `ShiftSlice` (`shift_slice.dfy`): the slice's initial state and each reducer case, as methods
  on the class `ShiftState`.
- `ShiftDrawer` (`shift_drawer.dfy`): the drawer form (`DrawerForm`) and its handlers. It also
  has a small event model of the form's controls, used to prove the last-entry guard.
- `App` (`app.dfy`): the price filter and the drawer/selection handlers (`AppState`).
- `Seqs` and `Wrappers`: `filter`, the subsequence relation, `Option` and `Result`.

Behaviour of the code that the model keeps:

- The overlap test is the one in the query at `backend/src/services/shift.service.ts:111`, on
  closed intervals: a stored row conflicts when it starts no later than the candidate ends and
  ends no earlier than the candidate starts. Two entries that only touch, such as 10:00-12:00 and
  12:00-14:00, therefore conflict.
- `remove` does not fail for an unknown id. The repository's `delete` reports nothing.
- The overlap error is a `BadRequestException` (HTTP 400), not a 409.
- No check spans the entries of one payload, and the service opens no transaction.
- `update` keeps the stored description when the payload leaves it out, and clears it when the
  payload sends `description: null`. `@IsOptional` accepts both, and `Object.assign` copies every
  member that is present, `null` included. A new shift stores `NULL` in either case.
- `shift?.dates || [default]` keeps an empty list for a shift without dates, because an array is
  truthy. The drawer then starts with no entries.
- `title` is decorated with `IsNotEmpty`, which `create-shift.dto.ts` never imports. The model
  treats the constraint as intended and binding.

One observation outside the model: `App` keeps `ShiftDrawer` mounted and only toggles `open`.
React runs the `useState` initialisers once, on mount, so selecting a shift later does not
reload the form's title, description or dates. The model gives the drawer's initial state as the
constructor of `DrawerForm` and does not compose it with `App`.

## Model

| member | source | states |
|---|---|---|
| `ShiftDateDto.ParseDate` | shift-management/backend/src/dto/create-shift-date.dto.ts:6-11 | a date parses iff it has the form YYYY-MM-DD with month 01-12 and day 01-31; the parsed date prints back as the same text |
| `ShiftDateDto.ParseFormattedDate` | shift-management/backend/src/dto/create-shift-date.dto.ts:6-11 | every date with a four-digit year, a month 1-12 and a day 1-31 prints as a valid ISO date that parses back to itself |
| `ShiftDateDto.ParseTime` | shift-management/backend/src/dto/create-shift-date.dto.ts:13-25 | a time parses iff it is HH:mm with hour at most 23 and minute at most 59; the parsed time prints back as the same text |
| `ShiftDateDto.ParseFormattedTime` | shift-management/backend/src/dto/create-shift-date.dto.ts:13-25 | every time of day prints as a valid HH:mm string that parses back to itself |
| `ShiftDateDto.ParseType` | shift-management/backend/src/dto/create-shift-date.dto.ts:36-42 | a type parses iff it is one of "Consultation", "Telephone", "Ambulance", and the parsed enum's name is that text |
| `ShiftDateDto.ParseTypeName` | shift-management/backend/src/dto/create-shift-date.dto.ts:36-42 | each enum value's name parses back to that value |
| `ShiftDateDto.Parse` | shift-management/backend/src/dto/create-shift-date.dto.ts:5-43 | an entry parses iff all five field constraints hold (ISO date, two HH:mm times, price >= 0, enum type); the parsed fields print back as the received text |
| `ShiftDateDto.EndBeforeStartIsValid` | shift-management/backend/src/dto/create-shift-date.dto.ts:20-25 | an entry from 17:00 to 09:00 is valid: "greater than start time" is not enforced |
| `ShiftDto.Parse` | shift-management/backend/src/dto/create-shift.dto.ts:7-39 | a payload parses iff the title has 1-100 characters, the description is absent, `null` or text of at most 500 characters, there are 1-10 dates and every date is valid; title, description and each parsed entry are carried over |
| `ShiftDto.RepeatedEntryIsValid` | shift-management/backend/src/dto/create-shift.dto.ts:35-39 | any valid entry repeated 1 to 10 times with a valid title is a valid payload: nothing relates entries to each other |
| `ShiftService.CountMatching` | shift-management/backend/src/services/shift.service.ts:106-119 | the count is positive iff some row matches the query's WHERE clause, and never exceeds the number of rows |
| `ShiftService.CheckTimeOverlap` | shift-management/backend/src/services/shift.service.ts:99-121 | true iff some stored row has the same date and type, `row.startTime <= endTime`, `row.endTime >= startTime`, and, if an id to exclude is given, another owning shift |
| `ShiftService.OtherSlotsNeverConflict` | shift-management/backend/src/services/shift.service.ts:106-109 | the answer over all rows equals the answer over the rows of the same date and type only |
| `ShiftService.DifferentDateOrTypeNeverConflicts` | shift-management/backend/src/services/shift.service.ts:106-109 | rows that all differ in date or type never report an overlap |
| `ShiftService.ExcludeIgnoresOwnRows` | shift-management/backend/src/services/shift.service.ts:115-117 | the check excluding shift `id` equals the check without exclusion over the rows of other shifts |
| `ShiftService.TouchingEndpointsConflict` | shift-management/backend/src/services/shift.service.ts:111 | a stored 10:00-12:00 row conflicts with a 12:00-14:00 candidate of the same date and type |
| `ShiftService.OverlapIsSymmetric` | shift-management/backend/src/services/shift.service.ts:111 | swapping the stored interval and the candidate interval gives the same answer |
| `ShiftService.MeetIffShareMinute` | shift-management/backend/src/services/shift.service.ts:110-113 | for intervals whose start is not after their end, the closed test holds iff some minute lies in both intervals |
| `ShiftService.OverlapMessageQuotesRequest` | shift-management/backend/src/services/shift.service.ts:27-31 | the overlap message names the date and type of the entry exactly as they were submitted |
| `ShiftService.FirstConflict` | shift-management/backend/src/services/shift.service.ts:19-32 | the loop returns the first submitted entry that overlaps a stored row, or none when no entry does; entries are checked against stored rows only |
| `ShiftService.PriceRange` | shift-management/backend/src/services/shift.service.ts:86-97 | (0, 0) when there are no rows; otherwise min and max are prices of some row and bound every row's price |
| `ShiftService.ShiftStore.FindOne` | shift-management/backend/src/services/shift.service.ts:47-52 | succeeds iff the shift exists, with its title and description and exactly the rows it owns; otherwise fails with not-found for that id |
| `ShiftService.ShiftStore.GetPriceRange` | shift-management/backend/src/services/shift.service.ts:86-97 | (0, 0) for an empty `shift_dates` table; otherwise the lowest and highest prices stored, attained by some row and bounding every row of every shift |
| `ShiftService.ShiftStore.Create` | shift-management/backend/src/services/shift.service.ts:17-36 | fails iff some entry overlaps a stored row, naming the first such entry's date and type and leaving the store unchanged; otherwise stores the shift under a fresh id with all of its entries and with a description only when text was sent, and `FindOne` returns it |
| `ShiftService.ShiftStore.Update` | shift-management/backend/src/services/shift.service.ts:54-80 | unknown id: not-found, store unchanged; overlap with another shift's rows: fails naming date and type, store unchanged; otherwise the shift's rows are exactly the new entries, other shifts' rows are unchanged, and the description is kept when left out, cleared when sent as `null`, and replaced when sent as text |
| `ShiftService.ShiftStore.Remove` | shift-management/backend/src/services/shift.service.ts:82-84 | deletes the shift and all rows it owns, keeps everything else, and never fails |
| `ShiftService.ReplacedRows` | shift-management/backend/src/services/shift.service.ts:74-79 | after deleting a shift's rows and adding its new ones, it owns exactly the new rows and the other rows are as they were |
| `ShiftService.EndToEndScenario` | shift-management/backend/src/services/shift.service.ts:17-36 | A 09:00-12:00 Consultation on 2024-03-20 is saved; B 11:00-13:00 Consultation that day is rejected naming 2024-03-20 and Consultation; C, the same span as Telephone, is saved |
| `ShiftService.OverlappingSiblingsAccepted` | shift-management/backend/src/services/shift.service.ts:19-25 | a payload with two entries that overlap each other is saved, with both entries |
| `ShiftService.DescriptionOnUpdate` | shift-management/backend/src/services/shift.service.ts:78 | a shift created with a description keeps it through an update that leaves the description out, and loses it through one that sends `null` |
| `ShiftService.ResaveOwnSpan` | shift-management/backend/src/services/shift.service.ts:58-65 | updating a shift with its own stored span succeeds, because its own rows are excluded |
| `ShiftSlice.ShiftState.constructor` | shift-management/frontend/src/store/shiftSlice.ts:15-23 | no shifts, price range 0 to 1000 euros, not loading, no error |
| `ShiftSlice.ShiftState.FetchShiftsPending` | shift-management/frontend/src/store/shiftSlice.ts:73-76 | loading on and error cleared; shifts and price range unchanged |
| `ShiftSlice.ShiftState.FetchShiftsFulfilled` | shift-management/frontend/src/store/shiftSlice.ts:77-80 | loading off and shifts replaced by the payload; error and price range unchanged |
| `ShiftSlice.ShiftState.FetchShiftsRejected` | shift-management/frontend/src/store/shiftSlice.ts:81-84 | loading off and error set to the message, or to the fallback text when the message is absent or empty |
| `ShiftSlice.ErrorText` | shift-management/frontend/src/store/shiftSlice.ts:83 | never empty; the message itself when it is non-empty, otherwise 'Failed to fetch shifts' |
| `ShiftSlice.ShiftState.FetchPriceRangeFulfilled` | shift-management/frontend/src/store/shiftSlice.ts:85-87 | price range set to the payload; nothing else changes |
| `ShiftSlice.ShiftState.CreateShiftFulfilled` | shift-management/frontend/src/store/shiftSlice.ts:88-90 | the payload is appended: one longer, earlier elements unchanged; loading, error and price range unchanged |
| `ShiftSlice.IndexOfId` | shift-management/frontend/src/store/shiftSlice.ts:92 | the index of the first shift with the id, or -1 when no shift has it |
| `ShiftSlice.FindIndex` | shift-management/frontend/src/store/shiftSlice.ts:92 | the search loop returns exactly the first-match index (or -1) |
| `ShiftSlice.ReplaceFirst` | shift-management/frontend/src/store/shiftSlice.ts:91-96 | the length is preserved, only the first shift with the payload's id becomes the payload, and the list is unchanged when none matches |
| `ShiftSlice.ReplaceFirstKeepsLaterDuplicates` | shift-management/frontend/src/store/shiftSlice.ts:92-95 | a later shift with the same id as an earlier one is left as it was |
| `ShiftSlice.ShiftState.UpdateShiftFulfilled` | shift-management/frontend/src/store/shiftSlice.ts:91-96 | shifts become the first-match replacement; loading, error and price range unchanged |
| `ShiftSlice.RemoveIdKeepsOthersInOrder` | shift-management/frontend/src/store/shiftSlice.ts:97-99 | no kept shift has the id, every copy of every shift with another id is kept (equal multiplicities), and the result is an order-preserving subsequence, so the result is exactly the source's `filter` |
| `ShiftSlice.ShiftState.DeleteShiftFulfilled` | shift-management/frontend/src/store/shiftSlice.ts:97-99 | shifts become the list without that id; loading, error and price range unchanged |
| `ShiftDrawer.DrawerForm.constructor` | shift-management/frontend/src/components/ShiftDrawer.tsx:33-37 | with no shift: empty title and description and one default entry (09:00-17:00, price 0, Consultation); with a shift: its title, its description or '', and exactly its dates |
| `ShiftDrawer.DrawerForm.HandleAddDate` | shift-management/frontend/src/components/ShiftDrawer.tsx:39-41 | exactly one default entry is appended; earlier entries, title and description unchanged |
| `ShiftDrawer.RemoveAtSpec` | shift-management/frontend/src/components/ShiftDrawer.tsx:43-45 | removing at an index in range drops exactly that entry and keeps the rest in order; an index out of range changes nothing |
| `ShiftDrawer.DrawerForm.HandleRemoveDate` | shift-management/frontend/src/components/ShiftDrawer.tsx:43-45 | dates become the list without that index; title and description unchanged |
| `ShiftDrawer.SetChangesOnlyThatField` | shift-management/frontend/src/components/ShiftDrawer.tsx:47-51 | after setting field f the entry holds the value in f, every other field and both ids keep their values, and setting a field to its own value changes nothing |
| `ShiftDrawer.DrawerForm.HandleDateChange` | shift-management/frontend/src/components/ShiftDrawer.tsx:47-51 | the length is kept, entry `index` has field f set to the value, and all other entries, the title and the description are unchanged |
| `ShiftDrawer.DrawerForm.HandleSubmit` | shift-management/frontend/src/components/ShiftDrawer.tsx:53-59 | the submitted title, description and dates are the form's, unchanged |
| `ShiftDrawer.ControlsKeepAnEntry` | shift-management/frontend/src/components/ShiftDrawer.tsx:103-106 | any run of enabled control events from a form with at least one entry leaves at least one entry |
| `ShiftDrawer.UnguardedRemoveEmptiesForm` | shift-management/frontend/src/components/ShiftDrawer.tsx:103-106 | removing the only entry would empty the form, and that remove control is disabled |
| `App.FilterByPriceSpec` | shift-management/frontend/src/App.tsx:70-72 | the shown shifts are exactly those with a date priced between the bounds, each with the multiplicity it has in the list, as an order-preserving subsequence of the list |
| `App.ShiftWithoutDatesNeverShown` | shift-management/frontend/src/App.tsx:70-71 | no shown shift has an empty date list |
| `App.CrossedBoundsShowNothing` | shift-management/frontend/src/App.tsx:71 | a lower bound above the upper bound shows no shift |
| `App.AppState.constructor` | shift-management/frontend/src/App.tsx:29-31 | the drawer is closed, nothing is selected, and the filter is 0 to 1000 euros |
| `App.AppState.SetPriceFilter` | shift-management/frontend/src/App.tsx:35-39 | the filter becomes the given bounds; the drawer and the selection are unchanged |
| `App.AppState.HandleCreateShift` | shift-management/frontend/src/App.tsx:42-45 | the selection is cleared and the drawer opened |
| `App.AppState.HandleEditShift` | shift-management/frontend/src/App.tsx:47-50 | the given shift is selected and the drawer opened |
| `App.AppState.HandleSaveShift` | shift-management/frontend/src/App.tsx:52-60 | with a selection it requests an update of the selected id, otherwise a create, carrying the data; afterwards the drawer is closed and the selection cleared |
| `App.AppState.HandleDeleteShift` | shift-management/frontend/src/App.tsx:62-68 | with no selection it requests nothing and leaves the drawer as it was; otherwise it requests deletion of the selected id, closes the drawer and clears the selection |
| `App.AppState.HandleClose` | shift-management/frontend/src/App.tsx:130-133 | closing the drawer always clears the selection |

## Left out

- TypeORM repositories, the query builder and NestJS dependency injection are replaced by the
  in-memory rows of `ShiftStore`. Storage failures are not modelled, including a failure between
  the delete and the save of `update`.
- Uuid generation is replaced by a counter in `ShiftStore`. Fresh ids are the numbers not yet
  handed out.
- `findAll` (`shift.service.ts:38-45`) is not modelled. Its result is ordered by the
  `createdAt` timestamp, and the model has no clock.
- Each request is one sequential step. The race between the overlap check and the write of
  concurrent requests is not modelled.
- The controller (`shift.controller.ts`) and its route order is framework routing, and is not
  modelled.
- The axios thunks and the store wiring are not modelled. Their payloads are the inputs of the
  reducer methods.
- Rendering, the MUI pickers, `date-fns` formatting and `ShiftCard.tsx` are not modelled. The
  text-field `onChange`s for title and description are not modelled either.
- `parseFloat` prices, including `NaN`, are not modelled. Prices are whole cents throughout.
- `ShiftDateDto.ParseDate`: `IsDateString` also accepts other ISO 8601 forms (with a time part,
  week or ordinal dates). The model accepts only YYYY-MM-DD, so its validity is narrower.
- `ShiftDateDto.ParseTime`: the exact pattern of the validator library is not part of this model.
  The model accepts exactly two-digit HH:mm.
- `ShiftDto.Parse`: `MaxLength` counts characters as the validator library does, and the model
  counts sequence elements. JavaScript type checks (`IsString`, `IsArray`, `IsNumber`) are
  implied by the Dafny types.
- `ShiftDrawer.DrawerForm.HandleDateChange`: it requires an index of a rendered entry and a value
  of the field's kind, as the controls supply. A write past the end of a JavaScript array, and a
  value of the wrong kind, are not modelled.
- An empty-string `excludeShiftId` is false in JavaScript. This case cannot arise here, because
  model ids are numbers and `update` always passes one.
