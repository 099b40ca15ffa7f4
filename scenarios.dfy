/**
 * Clients of the store: the booking walk-through the system promises
 * (seeded store, a booking at 09:00 and one at 23:30 on 2025-06-01, the slots
 * of that day and the next, an update with an unknown id) and the repeatability
 * of slot generation.
 */
module Scenarios {
  import opened Wrappers
  import opened TimeFormat
  import opened Scheduling

  /** 2025-06-01, counted in days since 1970-01-01. */
  const June1: int := 20240
  const June2: int := 20241

  /** Two slot queries with no change in between give the same list. */
  method GenerateTwice(store: Store, day: int, barberId: string) returns (first: seq<TimeSlot>, second: seq<TimeSlot>)
    ensures first == second
  {
    first := store.GenerateTimeSlots(day, barberId);
    second := store.GenerateTimeSlots(day, barberId);
  }

  /** The store after the two bookings of the walk-through. */
  function ScenarioRecords(): seq<Appointment> {
    SeedAppointments() +
    [ Appointment("a3", "b1", "s1", "Cliente", "cliente@email.com", "(11) 90000-0000",
                  DateTime(June1, 9, 0), false, false),
      Appointment("a4", "b1", "s2", "Cliente Tarde", "tarde@email.com", "(11) 90000-0001",
                  DateTime(June1, 23, 30), false, false) ]
  }

  /** Of barber b1's slots on 2025-06-01 only 09:00 is taken. */
  lemma ScenarioFirstDay()
    ensures !TimeSlots(ScenarioRecords(), June1, "b1")[0].available
    ensures forall i :: 1 <= i < SlotCount ==> TimeSlots(ScenarioRecords(), June1, "b1")[i].available
  {
    var apps := ScenarioRecords();
    assert apps[2].barberId == "b1" && apps[2].date == DateTime(June1, 9, 0);
    SlotUnavailableIff(apps, June1, "b1", 0);
    forall i | 1 <= i < SlotCount ensures TimeSlots(apps, June1, "b1")[i].available {
      SlotStart(i);
      assert SlotHour(i) != 9 || SlotMinute(i) != 0;
      assert SlotHour(i) < 23;
      SlotUnavailableIff(apps, June1, "b1", i);
    }
  }

  /** Barber b2's slots on 2025-06-01 and b1's on 2025-06-02 are all free. */
  lemma ScenarioOtherSlots()
    ensures forall i :: 0 <= i < SlotCount ==> TimeSlots(ScenarioRecords(), June1, "b2")[i].available
    ensures forall i :: 0 <= i < SlotCount ==> TimeSlots(ScenarioRecords(), June2, "b1")[i].available
  {
    NoRecordsAllFree(ScenarioRecords(), June1, "b2");
    NoRecordsAllFree(ScenarioRecords(), June2, "b1");
  }

  /** No record of the walk-through has an id starting with any letter but 'a'. */
  lemma ScenarioIds()
    ensures forall k :: 0 <= k < |ScenarioRecords()| ==> ScenarioRecords()[k].id[0] == 'a'
  {
  }

  /** The seeded store after the two bookings: exactly the records of `ScenarioRecords`. */
  method BookTwo() returns (store: Store, booked: Appointment)
    ensures store.appointments == ScenarioRecords()
    ensures fresh(store)
    ensures booked == ScenarioRecords()[2]
  {
    store := new Store();
    booked := store.AddAppointment(AppointmentFields(
      "b1", "s1", "Cliente", "cliente@email.com", "(11) 90000-0000", DateTime(June1, 9, 0), true, true));
    var late := store.AddAppointment(AppointmentFields(
      "b1", "s2", "Cliente Tarde", "tarde@email.com", "(11) 90000-0001", DateTime(June1, 23, 30), false, false));
    assert IdFor(3) == "a3" && IdFor(4) == "a4" by {
      assert DecimalString(3) == "3" && DecimalString(4) == "4";
    }
  }

  /**
   * The booking walk-through on the seeded store: the new booking's id and flags,
   * the slots it blocks and leaves free, and an update with an unknown id that
   * changes nothing.
   */
  method BookingScenario() returns (store: Store, booked: Appointment, b1Slots: seq<TimeSlot>, b2Slots: seq<TimeSlot>,
                                    nextDaySlots: seq<TimeSlot>, missing: Option<Appointment>)
    ensures booked.id == "a3" && !booked.confirmed && !booked.completed
    ensures |b1Slots| == SlotCount && b1Slots[0].time == "09:00" && !b1Slots[0].available
    ensures forall i :: 1 <= i < |b1Slots| ==> b1Slots[i].available
    ensures |b2Slots| == SlotCount && forall i :: 0 <= i < |b2Slots| ==> b2Slots[i].available
    ensures |nextDaySlots| == SlotCount && forall i :: 0 <= i < |nextDaySlots| ==> nextDaySlots[i].available
    ensures missing == None && store.appointments == ScenarioRecords()
  {
    store, booked := BookTwo();
    b1Slots := store.GenerateTimeSlots(June1, "b1");
    b2Slots := store.GenerateTimeSlots(June1, "b2");
    nextDaySlots := store.GenerateTimeSlots(June2, "b1");
    ScenarioFirstDay();
    ScenarioOtherSlots();
    FirstAndLastSlotText();
    assert b1Slots[0] == SlotAt(store.appointments, June1, "b1", 0);
    ScenarioIds();
    missing := store.UpdateAppointment("nonexistent", ConfirmedPatch(true));
    UpdateUnknownId(ScenarioRecords(), "nonexistent", ConfirmedPatch(true));
  }
}
