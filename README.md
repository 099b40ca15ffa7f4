# Barbershop scheduling store: a Dafny model

This project models the booking core of the barbershop web app. That core is two things:

- The in-memory scheduling store in `src/lib/data.ts`. It holds the appointment records and the seeded sample appointments. It offers four operations:
  - generating the twenty half-hour time slots of a business day (09:00–18:30) with their availability;
  - booking a new appointment;
  - the filtered view of one barber's appointments;
  - a shallow partial update of a record found by id.
- The status machine of the barber panel in `src/pages/BarberPanel.tsx`. It covers the status badge ("Pendente", "Confirmado", "Concluído"), which buttons each state offers ("Confirmar", "Atendido", "Cancelar"), and the three handlers. Each handler updates the store and patches the panel's cached list of the selected barber's appointments.

Layout:

- `wrappers.dfy`: `Option`, standing for `null`, `undefined` and `NaN`.
- `time_format.dfy`: module `TimeFormat`. It covers `toString()` + `padStart(2, '0')` for the "HH:MM" slot text, and `split(':')` + `Number` for reading it back.
- `scheduling.dfy`: module `Scheduling`. It holds the records as datatypes, a typed `Patch` for `Partial<Appointment>`, and the specification functions (`IsBooked`, `TimeSlots`, `FilterByBarber`, `FirstIndexOf`, `StoreAfterUpdate`). The class `Store` has the mutable `appointments` field, and its methods are proved against those functions.
- `barber_panel.dfy`: module `BarberPanel`. The pure part is the label, the offered buttons, the handler effects and the list patch (`MapPatch`). The class `Panel` holds the store and the cached list, and its handlers keep the cache equal to the store's view.
- `scenarios.dfy`: client methods. One walks through the promised booking behaviour on the seeded store. Another shows that two slot queries in a row agree.

Dates are abstracted to `DateTime(day, hour, minute)` on the local wall clock. `day` counts calendar days since 1970-01-01, so 2025-05-01 is 20209 and 2025-06-01 is 20240. Two appointments are on the same calendar day exactly when their `day` fields are equal.

Three behaviours of the code shape the model:

- The slot query compares UTC days (`toISOString`) but local hours (`getHours`). The model compares the abstract day directly (see "Left out").
- Ids are unique only while no update patches `id`, which `Partial<Appointment>` allows. The model keeps `id` patchable. Where uniqueness is needed, the lemmas require a patch without `id`.
- Cancelling sets `confirmed = false`. The record then equals a never-confirmed one, and it still blocks its slot. The model keeps this, and `CancelIsPending` and `ActionsKeepSlots` state it.

## Model

| member | source | states |
|---|---|---|
| `TimeFormat.DecimalString` | src/lib/data.ts:136 | `n.toString()` is a non-empty run of decimal digits, with no leading zero once `n >= 10` |
| `TimeFormat.DecimalRoundTrip` | src/lib/data.ts:136 | reading a printed number back gives the number |
| `TimeFormat.DecimalStringInjective` | src/lib/data.ts:162 | different numbers never print alike |
| `TimeFormat.LeadingZerosValue` | src/lib/data.ts:136 | leading zeros do not change the value of a numeral |
| `TimeFormat.PadStart2Content` | src/lib/data.ts:136 | `padStart(2, '0')` keeps the text as a suffix and puts only '0' before it |
| `TimeFormat.PaddedRoundTrip` | src/lib/data.ts:136 | a padded number is still a numeral of the same value |
| `TimeFormat.PaddedDigits` | src/lib/data.ts:136 | below 100 the padded text is the tens digit followed by the units digit |
| `TimeFormat.TimeStringShape` | src/lib/data.ts:136 | hour and minute below 100 give five characters: two digits, ':', two digits |
| `TimeFormat.PadStart2` | src/lib/data.ts:136 | `padStart(2, '0')`: the result has length 2, or the text's own length when that is already 2 or more |
| `TimeFormat.TimeString` | src/lib/data.ts:136 | the slot text: the padded hour, ':', the padded minute |
| `TimeFormat.Split` | src/components/AppointmentCalendar.tsx:37 | `split(':')`: the maximal colon-free pieces in order, never an empty list |
| `TimeFormat.ParseTime` | src/components/AppointmentCalendar.tsx:37 | `split(':').map(Number)` destructured into hours and minutes; `None` when the minute part is missing or a part is not a number |
| `TimeFormat.ParseNumber` | src/components/AppointmentCalendar.tsx:37 | `Number` yields a value exactly for digit strings; anything else is NaN (`None`) |
| `TimeFormat.SplitNoSeparator` | src/components/AppointmentCalendar.tsx:37 | a string without ':' splits into itself alone |
| `TimeFormat.SplitAtFirstSeparator` | src/components/AppointmentCalendar.tsx:37 | a ':' after a colon-free prefix cuts off exactly that prefix |
| `TimeFormat.TimeStringRoundTrip` | src/components/AppointmentCalendar.tsx:37 | the calendar reads every printed "HH:MM" back as the same hour and minute |
| `Scheduling.SlotIndex` | src/lib/data.ts:134-135 | each business-hours start time (hour 9..18, minute 0 or 30) is slot number `2*(hour-9)+minute/30` < 20, and that slot starts at that time |
| `Scheduling.IsBooked` | src/lib/data.ts:139-147 | a slot is booked exactly when some record has its barber, day, hour and minute |
| `Scheduling.SlotAt` | src/lib/data.ts:136-152 | slot i: the text of its start time, available iff no record occupies that start time for the barber and day |
| `Scheduling.TimeSlots` | src/lib/data.ts:125-157 | the closed form of the slot query: the twenty `SlotAt` slots in loop order |
| `Scheduling.IdFor` | src/lib/data.ts:162 | the id of the n-th booking: "a" followed by n in decimal |
| `Scheduling.ApplyPatch` | src/lib/data.ts:178 | `{ ...a, ...data }`: each field the patch holds replaces the record's, every other field is kept |
| `Scheduling.SeedAppointments` | src/lib/data.ts:99-122 | the two seeded records: a1 (b1, s1, 2025-05-01 14:00) and a2 (b2, s3, 2025-05-02 10:00), both confirmed, neither completed |
| `Scheduling.FilterByBarber` | src/lib/data.ts:172 | the view holds exactly the records of that barber, and is no longer than the store |
| `Scheduling.FirstIndexOf` | src/lib/data.ts:176 | `findIndex` gives `None` exactly when no record has the id; otherwise the first index with it |
| `Scheduling.StoreAfterUpdate` | src/lib/data.ts:175-182 | the update keeps the length, patches only the first record with the id, and leaves every other record as it was |
| `Scheduling.Store.constructor` | src/lib/data.ts:99-122 | the store starts with the two seeded appointments, whose ids are sequential |
| `Scheduling.Store.GenerateTimeSlots` | src/lib/data.ts:125-157 | the nested hour/minute loops produce exactly `TimeSlots` of the current records and do not modify the store |
| `Scheduling.Store.AddAppointment` | src/lib/data.ts:159-169 | appends one record, earlier records unchanged; the new record is returned, has id "a" + (old length + 1), the caller's fields and both flags false whatever was passed; ids stay sequential |
| `Scheduling.Store.GetBarberAppointments` | src/lib/data.ts:171-173 | exactly the records of that barber, all with that barber id; the store is only read |
| `Scheduling.Store.UpdateAppointment` | src/lib/data.ts:175-182 | the new store is `StoreAfterUpdate`; returns `None` exactly when no record has the id, and otherwise the patched first record as now stored; an update without an id patch keeps ids sequential |
| `Scheduling.SlotStart` | src/lib/data.ts:127-135 | slot i starts 30*i minutes after 09:00, within business hours, on minute 0 or 30 |
| `Scheduling.TimeSlotsChronological` | src/lib/data.ts:127-136 | 20 slots, in strictly increasing start time, each named by its padded start time |
| `Scheduling.SlotTimeText` | src/lib/data.ts:136 | slot i's text is the two digits of its hour, ':', then "00" or "30" |
| `Scheduling.FirstAndLastSlotText` | src/lib/data.ts:134-136 | the first slot reads "09:00" and the last "18:30" |
| `Scheduling.NoRecordsAllFree` | src/lib/data.ts:139-151 | a barber with no record on a day has all twenty slots of that day available |
| `Scheduling.SameBookedSameSlots` | src/lib/data.ts:139-151 | two stores that book the same slots of a barber's day give that day the same slot list |
| `Scheduling.BookedAfterAppend` | src/lib/data.ts:139-147 | after appending a record, a slot is booked iff it was booked before or the new record occupies it |
| `Scheduling.SlotUnavailableIff` | src/lib/data.ts:139-151 | slot i is unavailable iff a record has the same barber, day, hour and minute |
| `Scheduling.FlagsDoNotAffectSlots` | src/lib/data.ts:139-147 | stores whose records agree on barber and date give the same slots, so `confirmed` and `completed` never matter |
| `Scheduling.OtherBarbersDoNotAffectSlots` | src/lib/data.ts:142 | a barber's slots equal those computed from that barber's own records alone |
| `Scheduling.BookingEffect` | src/lib/data.ts:139-147 | adding a record keeps every slot's text, and leaves a slot available iff it was available and the record does not occupy it |
| `Scheduling.BookingBlocksSlot` | src/lib/data.ts:167 | after booking barber b on (day, h:m) within business hours, that slot of (day, b) is unavailable |
| `Scheduling.BookingOtherBarber` | src/lib/data.ts:142 | booking another barber leaves this barber's slots unchanged |
| `Scheduling.FilterAppend` | src/lib/data.ts:172 | the view of a concatenation is the concatenation of the views, so the view keeps store order |
| `Scheduling.FilterAfterBooking` | src/lib/data.ts:167-172 | right after a booking, the barber's view is the old view followed by the new record |
| `Scheduling.IdForInjective` | src/lib/data.ts:162 | different positions get different ids |
| `Scheduling.SequentialIdsUnique` | src/lib/data.ts:162-167 | sequential ids are pairwise distinct |
| `Scheduling.NewIdIsFresh` | src/lib/data.ts:162 | a new booking's id differs from every stored id |
| `Scheduling.UpdateUnknownId` | src/lib/data.ts:176-181 | an update with an id no record has leaves the store unchanged |
| `Scheduling.UpdateIdempotent` | src/lib/data.ts:175-182 | applying the same patch twice equals applying it once, when the patch keeps the record's id or the store's ids are unique |
| `Scheduling.UpdateKeepsIds` | src/lib/data.ts:178 | an update that does not patch `id` keeps ids sequential |
| `BarberPanel.StatusLabel` | src/pages/BarberPanel.tsx:143-148 | "Concluído" iff completed; "Confirmado" iff confirmed and not completed; "Pendente" iff neither |
| `BarberPanel.LabelDeterminesState` | src/pages/BarberPanel.tsx:143-148 | equal badges mean the same `completed` and, when not completed, the same `confirmed` |
| `BarberPanel.CompletedIsTerminal` | src/pages/BarberPanel.tsx:173 | no button is offered for a completed appointment |
| `BarberPanel.OpenAppointmentActions` | src/pages/BarberPanel.tsx:173-198 | an open appointment offers "Cancelar" and exactly one of "Confirmar" and "Atendido" |
| `BarberPanel.ActionEffects` | src/pages/BarberPanel.tsx:27-48 | confirm sets `confirmed`, cancel clears it, complete sets `completed`; no other field changes |
| `BarberPanel.ActionTransitions` | src/pages/BarberPanel.tsx:143-198 | an offered confirm leads to "Confirmado", complete to "Concluído", cancel to "Pendente" |
| `BarberPanel.CancelIsPending` | src/pages/BarberPanel.tsx:38 | a cancelled appointment equals a fresh pending booking with the same details |
| `BarberPanel.RunKeepsConsistent` | src/pages/BarberPanel.tsx:173-198 | along any run of offered actions, completed implies confirmed |
| `BarberPanel.RunFromCompleted` | src/pages/BarberPanel.tsx:173 | the only run of offered actions from a completed appointment is the empty one |
| `BarberPanel.RunKeepsDetails` | src/pages/BarberPanel.tsx:26-55 | along any run of offered actions only the two flags change, and completion is never undone |
| `BarberPanel.ActionsKeepSlots` | src/pages/BarberPanel.tsx:27-48 | a panel action never frees or blocks a slot, cancellation included |
| `BarberPanel.Offered` | src/pages/BarberPanel.tsx:173-198 | which buttons are shown: none once completed; otherwise "Confirmar" when not confirmed, "Atendido" when confirmed, and always "Cancelar" |
| `BarberPanel.ActionPatch` | src/pages/BarberPanel.tsx:26-55 | the store update each handler sends: `{confirmed: true}`, `{completed: true}`, `{confirmed: false}` |
| `BarberPanel.Perform` | src/pages/BarberPanel.tsx:27-55 | a handler's effect on one record: the spread of its patch |
| `BarberPanel.Run` | src/pages/BarberPanel.tsx:173-198 | a sequence of clicks: each action applied in turn when the panel shows its button, `None` as soon as one is not shown |
| `BarberPanel.MapPatch` | src/pages/BarberPanel.tsx:28-32 | the list patch keeps length and order, patches each record with the id and leaves the rest |
| `BarberPanel.MapPatchAbsent` | src/pages/BarberPanel.tsx:29-31 | patching a list without the id changes nothing |
| `BarberPanel.MapPatchAppend` | src/pages/BarberPanel.tsx:29-31 | the list patch distributes over concatenation |
| `BarberPanel.StoreAfterUpdateCons` | src/lib/data.ts:176-178 | a store update whose id is not in the first record leaves that record and updates the rest |
| `BarberPanel.CacheStaysInSync` | src/pages/BarberPanel.tsx:27-31 | with unique ids, and a patch that leaves id and barber alone, patching a barber's view equals the view of the updated store |
| `BarberPanel.Panel.constructor` | src/pages/BarberPanel.tsx:10-11 | no barber selected, empty cached list |
| `BarberPanel.Panel.SelectBarber` | src/pages/BarberPanel.tsx:14-24 | a non-empty selection loads `getBarberAppointments` of that barber, so the cache is in sync; an empty one leaves the list |
| `BarberPanel.Panel.ApplyToBoth` | src/pages/BarberPanel.tsx:27-31 | store updated by `StoreAfterUpdate`, cache by `MapPatch`, and a synced cache stays synced |
| `BarberPanel.Panel.HandleConfirmAppointment` | src/pages/BarberPanel.tsx:26-34 | store gets `{confirmed: true}`, the cache the same map patch; sync and sequential ids are kept |
| `BarberPanel.Panel.HandleCancelAppointment` | src/pages/BarberPanel.tsx:36-45 | store gets `{confirmed: false}`, the cache the same map patch; sync and sequential ids are kept |
| `BarberPanel.Panel.HandleMarkCompleted` | src/pages/BarberPanel.tsx:47-55 | store gets `{completed: true}`, the cache the same map patch; sync and sequential ids are kept |
| `Scenarios.GenerateTwice` | src/lib/data.ts:125-157 | two slot queries with no change in between return identical lists |
| `Scenarios.ScenarioFirstDay` | src/lib/data.ts:139-147 | after the 09:00 booking for b1 on 2025-06-01, only that day's 09:00 slot is taken |
| `Scenarios.ScenarioOtherSlots` | src/lib/data.ts:142-143 | the same bookings leave b2's slots that day free, and b1's slots the next day free (the 23:30 booking does not cross the day boundary) |
| `Scenarios.BookTwo` | src/lib/data.ts:159-169 | the seeded store after booking 09:00 and 23:30 for b1 on 2025-06-01: exactly the four records a1, a2, a3, a4, the new two pending |
| `Scenarios.BookingScenario` | src/lib/data.ts:159-182 | on the seeded store, a booking gets id "a3" and both flags false whatever was passed; only the 09:00 slot is blocked; another barber and the next day stay free; an unknown id yields `None` and leaves the store holding exactly the four records |

## Left out

- Dates and time zones: JS `Date`, ISO strings and their parsing are replaced by `DateTime(day, hour, minute)`. The code compares the UTC day of `toISOString()` with the local `getHours()` and `getMinutes()` (src/lib/data.ts:132, 143-145). So under a time-zone offset the real slot query can miss a booking on the local day, for example when local midnight falls on the previous UTC day. The model compares the abstract day directly and does not capture that effect.
- The query date: the slot query takes the calendar day as an integer, so in the model the time of day of the JS `Date` argument plays no part. In the code it matters only through the UTC conversion described above: under a time-zone offset the local time of day can move `toISOString()` to the neighbouring UTC day (23:00 local in UTC-3 is already the next UTC day).
- `TimeFormat.ParseNumber`: models `Number` only on digit strings (the empty string reads as 0). Whitespace, signs, decimal points, exponents and hex read as NaN in the model, because the calendar never produces them.
- `TimeFormat.DecimalString`: models `toString()` for non-negative integers only, because hours, minutes and store lengths are never negative.
- `Patch`: a field set to `undefined` inside a `Partial<Appointment>` would overwrite with `undefined`. The typed patch has only "absent" or "a value".
- The barber and service catalogs (src/lib/data.ts:36-96) and their listing: they are static reference data that no operation reads or changes.
- React plumbing: `useState`/`useEffect`, the `loading` spinner, the 500 ms `setTimeout` before the cached list loads, toasts, `date-fns` formatting and the card colour classes (which branch on the same flags as the badge). `Panel.SelectBarber` loads the list at once, so a handler running before the delayed load lands is not modelled.
- The "Gerenciar Disponibilidade" button has no handler, so there is nothing to model.
- `src/components/BookingSection.tsx` (its submit never books), `src/components/AppointmentForm.tsx` (forwards to `addAppointment`), and `src/components/AppointmentCalendar.tsx` apart from its "HH:MM" split. Also `Navbar.tsx`, `Hero.tsx`, `BarberSelection.tsx` and `ServiceSelection.tsx`. All of these are presentation over the store.
- Concurrency: the code is single-threaded, and no interleaving of queries and bookings is modelled.
