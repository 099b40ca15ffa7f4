/**
 * The in-memory scheduling store of the barbershop: the appointment records,
 * the half-hour time slots of a business day with their availability, booking,
 * the per-barber view and partial updates of a record.
 *
 * A calendar date-time is abstracted to (day, hour, minute) on the local wall
 * clock; `day` numbers calendar days (days since 1970-01-01 in the seeded data).
 */
module Scheduling {
  import opened Wrappers
  import opened TimeFormat

  // ---------------------------------------------------------------------------
  // Data model

  datatype DateTime = DateTime(day: int, hour: int, minute: int)

  datatype Appointment = Appointment(
    id: string,
    barberId: string,
    serviceId: string,
    clientName: string,
    clientEmail: string,
    clientPhone: string,
    date: DateTime,
    confirmed: bool,
    completed: bool)

  /** What a caller hands to `addAppointment`: every field of a record except its id. */
  datatype AppointmentFields = AppointmentFields(
    barberId: string,
    serviceId: string,
    clientName: string,
    clientEmail: string,
    clientPhone: string,
    date: DateTime,
    confirmed: bool,
    completed: bool)

  datatype TimeSlot = TimeSlot(time: string, available: bool)

  /** A partial record: the fields that are present overwrite those of the stored record. */
  datatype Patch = Patch(
    id: Option<string>,
    barberId: Option<string>,
    serviceId: Option<string>,
    clientName: Option<string>,
    clientEmail: Option<string>,
    clientPhone: Option<string>,
    date: Option<DateTime>,
    confirmed: Option<bool>,
    completed: Option<bool>)

  /** The patch that sets only `confirmed`. */
  function ConfirmedPatch(value: bool): Patch {
    Patch(None, None, None, None, None, None, None, Some(value), None)
  }

  /** The patch that sets only `completed`. */
  function CompletedPatch(value: bool): Patch {
    Patch(None, None, None, None, None, None, None, None, Some(value))
  }

  /** Business hours: the first slot starts at 09:00, the last one ends at 19:00. */
  const StartHour: nat := 9
  const EndHour: nat := 19
  const MinuteStep: nat := 30
  const SlotCount: nat := 20

  // ---------------------------------------------------------------------------
  // Slots

  function SlotHour(i: nat): nat {
    StartHour + i / 2
  }

  function SlotMinute(i: nat): nat {
    (i % 2) * MinuteStep
  }

  /** The position of the slot that starts at `hour`:`minute`. */
  function SlotIndex(hour: int, minute: int): (i: nat)
    requires StartHour <= hour < EndHour
    requires minute == 0 || minute == MinuteStep
    ensures i < SlotCount
    ensures SlotHour(i) == hour && SlotMinute(i) == minute
  {
    2 * (hour - StartHour) + minute / MinuteStep
  }

  /** Whether appointment `a` occupies the slot `hour`:`minute` of `day` for `barberId`. */
  predicate Occupies(a: Appointment, barberId: string, day: int, hour: int, minute: int) {
    a.barberId == barberId && a.date.day == day && a.date.hour == hour && a.date.minute == minute
  }

  /** `appointments.some(...)`: some stored record occupies the slot; its flags play no part. */
  function IsBooked(apps: seq<Appointment>, barberId: string, day: int, hour: int, minute: int): (booked: bool)
    ensures booked <==> exists k :: 0 <= k < |apps| && Occupies(apps[k], barberId, day, hour, minute)
  {
    if apps == [] then false
    else
      assert forall k :: 1 <= k < |apps| ==> apps[k] == apps[1..][k - 1];
      Occupies(apps[0], barberId, day, hour, minute) || IsBooked(apps[1..], barberId, day, hour, minute)
  }

  /** The `i`-th slot that `generateTimeSlots` produces for `day` and `barberId`. */
  function SlotAt(apps: seq<Appointment>, day: int, barberId: string, i: nat): TimeSlot {
    TimeSlot(TimeString(SlotHour(i), SlotMinute(i)), !IsBooked(apps, barberId, day, SlotHour(i), SlotMinute(i)))
  }

  /** The whole list of slots for `day` and `barberId`, in the order they are produced. */
  function TimeSlots(apps: seq<Appointment>, day: int, barberId: string): seq<TimeSlot> {
    seq(SlotCount, (i: int) requires 0 <= i => SlotAt(apps, day, barberId, i))
  }

  // ---------------------------------------------------------------------------
  // The per-barber view

  /** `appointments.filter(app => app.barberId === barberId)`. */
  function FilterByBarber(apps: seq<Appointment>, barberId: string): (r: seq<Appointment>)
    ensures |r| <= |apps|
    ensures forall a :: a in r <==> a in apps && a.barberId == barberId
  {
    if apps == [] then []
    else
      assert apps == [apps[0]] + apps[1..];
      (if apps[0].barberId == barberId then [apps[0]] else []) + FilterByBarber(apps[1..], barberId)
  }

  // ---------------------------------------------------------------------------
  // Ids and partial updates

  /** The id `addAppointment` gives the `n`-th record: "a" followed by `n` in decimal. */
  function IdFor(n: nat): string {
    "a" + DecimalString(n)
  }

  /** Record `i` (from 0) has id "a(i+1)": what booking alone produces. */
  predicate IdsSequential(apps: seq<Appointment>) {
    forall i :: 0 <= i < |apps| ==> apps[i].id == IdFor(i + 1)
  }

  predicate UniqueIds(apps: seq<Appointment>) {
    forall i, j :: 0 <= i < j < |apps| ==> apps[i].id != apps[j].id
  }

  /** `{ ...a, ...patch }`: each field present in the patch replaces the record's. */
  function ApplyPatch(a: Appointment, p: Patch): Appointment {
    Appointment(
      p.id.GetOr(a.id),
      p.barberId.GetOr(a.barberId),
      p.serviceId.GetOr(a.serviceId),
      p.clientName.GetOr(a.clientName),
      p.clientEmail.GetOr(a.clientEmail),
      p.clientPhone.GetOr(a.clientPhone),
      p.date.GetOr(a.date),
      p.confirmed.GetOr(a.confirmed),
      p.completed.GetOr(a.completed))
  }

  /** Record `k` is the first one whose id is `id`. */
  predicate IsFirstWithId(apps: seq<Appointment>, id: string, k: nat)
    requires k < |apps|
  {
    apps[k].id == id && forall j :: 0 <= j < k ==> apps[j].id != id
  }

  /** `findIndex(app => app.id === id)`, with `None` for -1. */
  function FirstIndexOf(apps: seq<Appointment>, id: string): (r: Option<nat>)
    ensures r.None? <==> forall k :: 0 <= k < |apps| ==> apps[k].id != id
    ensures r.Some? ==> r.value < |apps| && IsFirstWithId(apps, id, r.value)
  {
    if apps == [] then None
    else if apps[0].id == id then Some(0)
    else
      match FirstIndexOf(apps[1..], id)
      case None => None
      case Some(k) => Some(k + 1)
  }

  /** The store after `updateAppointment(id, p)`. */
  function StoreAfterUpdate(apps: seq<Appointment>, id: string, p: Patch): (r: seq<Appointment>)
    ensures |r| == |apps|
    ensures forall i :: 0 <= i < |apps| && IsFirstWithId(apps, id, i) ==> r[i] == ApplyPatch(apps[i], p)
    ensures forall i :: 0 <= i < |apps| && !IsFirstWithId(apps, id, i) ==> r[i] == apps[i]
  {
    match FirstIndexOf(apps, id)
    case None => apps
    case Some(k) => apps[k := ApplyPatch(apps[k], p)]
  }

  /** The store's seed data: two confirmed appointments, on 2025-05-01 14:00 and 2025-05-02 10:00. */
  function SeedAppointments(): seq<Appointment> {
    [ Appointment("a1", "b1", "s1", "João Paulo", "joao@email.com", "(11) 99999-8888",
                  DateTime(20209, 14, 0), true, false),
      Appointment("a2", "b2", "s3", "Ricardo Mendes", "ricardo@email.com", "(11) 98888-7777",
                  DateTime(20210, 10, 0), true, false) ]
  }

  // ---------------------------------------------------------------------------
  // The store

  class Store {
    var appointments: seq<Appointment>

    /** Ids are "a1", "a2", ... in store order. */
    predicate Valid()
      reads this
    {
      IdsSequential(appointments)
    }

    constructor ()
      ensures appointments == SeedAppointments()
      ensures Valid()
    {
      appointments := SeedAppointments();
      new;
      assert IdFor(1) == "a1" && IdFor(2) == "a2";
    }

    /** The 20 half-hour slots of `day` for `barberId`, each marked available unless booked. */
    method GenerateTimeSlots(day: int, barberId: string) returns (slots: seq<TimeSlot>)
      ensures slots == TimeSlots(appointments, day, barberId)
    {
      ghost var spec := TimeSlots(appointments, day, barberId);
      slots := [];
      var hour: nat := StartHour;
      while hour < EndHour
        invariant StartHour <= hour <= EndHour
        invariant |slots| == 2 * (hour - StartHour)
        invariant slots == spec[..|slots|]
      {
        var minute: nat := 0;
        while minute < 60
          invariant minute == 0 || minute == 30 || minute == 60
          invariant |slots| == 2 * (hour - StartHour) + (if minute == 0 then 0 else if minute == 30 then 1 else 2)
          invariant slots == spec[..|slots|]
        {
          var timeString := TimeString(hour, minute);
          var isBooked := IsBooked(appointments, barberId, day, hour, minute);
          SlotAtIndex(appointments, day, barberId, hour, minute);
          assert |slots| == SlotIndex(hour, minute);
          assert spec[|slots|] == SlotAt(appointments, day, barberId, |slots|);
          assert spec[..|slots| + 1] == spec[..|slots|] + [spec[|slots|]];
          slots := slots + [TimeSlot(timeString, !isBooked)];
          minute := minute + MinuteStep;
        }
        hour := hour + 1;
      }
      assert spec[..SlotCount] == spec;
    }

    /** Appends a new pending record built from `fields` and returns it. */
    method AddAppointment(fields: AppointmentFields) returns (r: Appointment)
      modifies this
      ensures appointments == old(appointments) + [r]
      ensures r.id == IdFor(|old(appointments)| + 1)
      ensures !r.confirmed && !r.completed
      ensures r.barberId == fields.barberId && r.serviceId == fields.serviceId
      ensures r.clientName == fields.clientName && r.clientEmail == fields.clientEmail
      ensures r.clientPhone == fields.clientPhone && r.date == fields.date
      ensures old(Valid()) ==> Valid()
    {
      r := Appointment(IdFor(|appointments| + 1), fields.barberId, fields.serviceId,
                       fields.clientName, fields.clientEmail, fields.clientPhone,
                       fields.date, false, false);
      appointments := appointments + [r];
    }

    /** The records of `barberId`, in store order. */
    function GetBarberAppointments(barberId: string): (r: seq<Appointment>)
      reads this
      ensures forall a :: a in r <==> a in appointments && a.barberId == barberId
      ensures forall k :: 0 <= k < |r| ==> r[k].barberId == barberId
    {
      FilterByBarber(appointments, barberId)
    }

    /**
     * Overwrites the patched fields of the first record whose id is `id` and
     * returns that record, or returns `None` and changes nothing.
     */
    method UpdateAppointment(id: string, patch: Patch) returns (r: Option<Appointment>)
      modifies this
      ensures appointments == StoreAfterUpdate(old(appointments), id, patch)
      ensures r.None? <==> forall k :: 0 <= k < |old(appointments)| ==> old(appointments)[k].id != id
      ensures r.Some? ==> exists k :: 0 <= k < |old(appointments)| && IsFirstWithId(old(appointments), id, k)
                                      && r.value == appointments[k] && r.value == ApplyPatch(old(appointments)[k], patch)
      ensures old(Valid()) && patch.id.None? ==> Valid()
    {
      var index := 0;
      while index < |appointments| && appointments[index].id != id
        invariant 0 <= index <= |appointments|
        invariant forall j :: 0 <= j < index ==> appointments[j].id != id
      {
        index := index + 1;
      }
      if index < |appointments| {
        assert IsFirstWithId(appointments, id, index);
        appointments := appointments[index := ApplyPatch(appointments[index], patch)];
        r := Some(appointments[index]);
      } else {
        r := None;
      }
    }
  }

  // ---------------------------------------------------------------------------
  // Lemmas: slots

  /** Slot `i` starts 30 * i minutes after 09:00, so the slots run 09:00, 09:30, ..., 18:30 in order. */
  lemma SlotStart(i: nat)
    ensures SlotHour(i) * 60 + SlotMinute(i) == StartHour * 60 + MinuteStep * i
    ensures i < SlotCount ==> StartHour <= SlotHour(i) < EndHour && (SlotMinute(i) == 0 || SlotMinute(i) == MinuteStep)
  {
    assert i == 2 * (i / 2) + i % 2;
  }

  /** The slot at the position of `hour`:`minute` is named by that time and booked as that time is. */
  lemma SlotAtIndex(apps: seq<Appointment>, day: int, barberId: string, hour: nat, minute: nat)
    requires StartHour <= hour < EndHour
    requires minute == 0 || minute == MinuteStep
    ensures SlotAt(apps, day, barberId, SlotIndex(hour, minute)) ==
      TimeSlot(TimeString(hour, minute), !IsBooked(apps, barberId, day, hour, minute))
  {
  }

  /** Twenty slots, strictly chronological, each named by its zero-padded start time. */
  lemma TimeSlotsChronological(apps: seq<Appointment>, day: int, barberId: string)
    ensures |TimeSlots(apps, day, barberId)| == SlotCount
    ensures forall i :: 0 <= i < SlotCount ==>
      TimeSlots(apps, day, barberId)[i].time == TimeString(SlotHour(i), SlotMinute(i))
    ensures forall i, j :: 0 <= i < j < SlotCount ==>
      SlotHour(i) * 60 + SlotMinute(i) < SlotHour(j) * 60 + SlotMinute(j)
  {
    forall i, j | 0 <= i < j < SlotCount
      ensures SlotHour(i) * 60 + SlotMinute(i) < SlotHour(j) * 60 + SlotMinute(j)
    {
      SlotStart(i);
      SlotStart(j);
    }
  }

  /** Slot `i` is named by the two digits of its hour, a colon, and "00" or "30". */
  lemma SlotTimeText(i: nat)
    requires i < SlotCount
    ensures TimeString(SlotHour(i), SlotMinute(i)) ==
      [DigitChar(SlotHour(i) / 10), DigitChar(SlotHour(i) % 10)] + (if i % 2 == 0 then ":00" else ":30")
  {
    PaddedDigits(SlotHour(i));
    PaddedDigits(SlotMinute(i));
    assert DigitChar(0) == '0' && DigitChar(3) == '3';
  }

  /** The first slot is "09:00" and the last one "18:30". */
  lemma FirstAndLastSlotText()
    ensures TimeString(SlotHour(0), SlotMinute(0)) == "09:00"
    ensures TimeString(SlotHour(SlotCount - 1), SlotMinute(SlotCount - 1)) == "18:30"
  {
    PaddedDigits(9);
    PaddedDigits(0);
    PaddedDigits(18);
    PaddedDigits(30);
    assert DigitChar(0) == '0' && DigitChar(9) == '9' && DigitChar(1) == '1' && DigitChar(8) == '8';
    assert DigitChar(3) == '3';
  }

  /** A slot is unavailable exactly when a record of the same barber, day, hour and minute exists. */
  lemma SlotUnavailableIff(apps: seq<Appointment>, day: int, barberId: string, i: nat)
    requires i < SlotCount
    ensures !TimeSlots(apps, day, barberId)[i].available <==>
      exists k :: 0 <= k < |apps| && apps[k].barberId == barberId && apps[k].date.day == day
                  && apps[k].date.hour == SlotHour(i) && apps[k].date.minute == SlotMinute(i)
  {
    assert TimeSlots(apps, day, barberId)[i] == SlotAt(apps, day, barberId, i);
  }

  /** A barber with no record on a day has every slot of that day available. */
  lemma NoRecordsAllFree(apps: seq<Appointment>, day: int, barberId: string)
    requires forall k :: 0 <= k < |apps| ==> apps[k].barberId != barberId || apps[k].date.day != day
    ensures forall i :: 0 <= i < SlotCount ==> TimeSlots(apps, day, barberId)[i].available
  {
    forall i | 0 <= i < SlotCount ensures TimeSlots(apps, day, barberId)[i].available {
      SlotUnavailableIff(apps, day, barberId, i);
    }
  }

  /** Two stores that book the same slots of (day, barber) yield the same slot list. */
  lemma SameBookedSameSlots(apps: seq<Appointment>, other: seq<Appointment>, day: int, barberId: string)
    requires forall i :: 0 <= i < SlotCount ==>
      IsBooked(apps, barberId, day, SlotHour(i), SlotMinute(i)) == IsBooked(other, barberId, day, SlotHour(i), SlotMinute(i))
    ensures TimeSlots(apps, day, barberId) == TimeSlots(other, day, barberId)
  {
    assert forall i :: 0 <= i < SlotCount ==> TimeSlots(apps, day, barberId)[i] == TimeSlots(other, day, barberId)[i];
  }

  /** Two stores whose records agree on barber and date yield the same slots. */
  predicate SameBookings(apps: seq<Appointment>, other: seq<Appointment>) {
    |apps| == |other| &&
    forall k :: 0 <= k < |apps| ==> apps[k].barberId == other[k].barberId && apps[k].date == other[k].date
  }

  /** `confirmed` and `completed` never affect availability. */
  lemma FlagsDoNotAffectSlots(apps: seq<Appointment>, other: seq<Appointment>, day: int, barberId: string)
    requires SameBookings(apps, other)
    ensures TimeSlots(apps, day, barberId) == TimeSlots(other, day, barberId)
  {
    forall i | 0 <= i < SlotCount
      ensures IsBooked(apps, barberId, day, SlotHour(i), SlotMinute(i)) == IsBooked(other, barberId, day, SlotHour(i), SlotMinute(i))
    {
      var h, m := SlotHour(i), SlotMinute(i);
      if IsBooked(apps, barberId, day, h, m) {
        var k :| 0 <= k < |apps| && Occupies(apps[k], barberId, day, h, m);
        assert Occupies(other[k], barberId, day, h, m);
      }
      if IsBooked(other, barberId, day, h, m) {
        var k :| 0 <= k < |other| && Occupies(other[k], barberId, day, h, m);
        assert Occupies(apps[k], barberId, day, h, m);
      }
    }
    SameBookedSameSlots(apps, other, day, barberId);
  }

  /** The slots of a barber depend only on that barber's own records. */
  lemma OtherBarbersDoNotAffectSlots(apps: seq<Appointment>, day: int, barberId: string)
    ensures TimeSlots(apps, day, barberId) == TimeSlots(FilterByBarber(apps, barberId), day, barberId)
  {
    var mine := FilterByBarber(apps, barberId);
    forall i | 0 <= i < SlotCount
      ensures IsBooked(apps, barberId, day, SlotHour(i), SlotMinute(i)) == IsBooked(mine, barberId, day, SlotHour(i), SlotMinute(i))
    {
      var h, m := SlotHour(i), SlotMinute(i);
      if IsBooked(apps, barberId, day, h, m) {
        var k :| 0 <= k < |apps| && Occupies(apps[k], barberId, day, h, m);
        assert apps[k] in mine;
        var k' :| 0 <= k' < |mine| && mine[k'] == apps[k];
        assert Occupies(mine[k'], barberId, day, h, m);
      }
      if IsBooked(mine, barberId, day, h, m) {
        var k :| 0 <= k < |mine| && Occupies(mine[k], barberId, day, h, m);
        assert mine[k] in apps;
        var k' :| 0 <= k' < |apps| && apps[k'] == mine[k];
        assert Occupies(apps[k'], barberId, day, h, m);
      }
    }
    SameBookedSameSlots(apps, mine, day, barberId);
  }

  /** After appending `a`, a slot is booked iff it was booked before or `a` occupies it. */
  lemma BookedAfterAppend(apps: seq<Appointment>, a: Appointment, barberId: string, day: int, hour: int, minute: int)
    ensures IsBooked(apps + [a], barberId, day, hour, minute) <==>
      IsBooked(apps, barberId, day, hour, minute) || Occupies(a, barberId, day, hour, minute)
  {
    var apps' := apps + [a];
    if IsBooked(apps', barberId, day, hour, minute) {
      var k :| 0 <= k < |apps'| && Occupies(apps'[k], barberId, day, hour, minute);
      if k < |apps| { assert apps'[k] == apps[k]; }
    }
    if IsBooked(apps, barberId, day, hour, minute) {
      var k :| 0 <= k < |apps| && Occupies(apps[k], barberId, day, hour, minute);
      assert apps'[k] == apps[k];
    }
    if Occupies(a, barberId, day, hour, minute) {
      assert apps'[|apps|] == a;
    }
  }

  /** Adding record `a` blocks exactly the slot it occupies, and nothing else changes. */
  lemma BookingEffect(apps: seq<Appointment>, a: Appointment, day: int, barberId: string)
    ensures forall i :: 0 <= i < SlotCount ==>
      TimeSlots(apps + [a], day, barberId)[i].time == TimeSlots(apps, day, barberId)[i].time &&
      (TimeSlots(apps + [a], day, barberId)[i].available <==>
         TimeSlots(apps, day, barberId)[i].available && !Occupies(a, barberId, day, SlotHour(i), SlotMinute(i)))
  {
    forall i | 0 <= i < SlotCount
      ensures IsBooked(apps + [a], barberId, day, SlotHour(i), SlotMinute(i)) <==>
        IsBooked(apps, barberId, day, SlotHour(i), SlotMinute(i)) || Occupies(a, barberId, day, SlotHour(i), SlotMinute(i))
    {
      BookedAfterAppend(apps, a, barberId, day, SlotHour(i), SlotMinute(i));
    }
  }

  /** Booking barber b at (day, hour:minute) within business hours makes that slot unavailable. */
  lemma BookingBlocksSlot(apps: seq<Appointment>, a: Appointment)
    requires StartHour <= a.date.hour < EndHour
    requires a.date.minute == 0 || a.date.minute == MinuteStep
    ensures !TimeSlots(apps + [a], a.date.day, a.barberId)[SlotIndex(a.date.hour, a.date.minute)].available
  {
    var i := SlotIndex(a.date.hour, a.date.minute);
    BookedAfterAppend(apps, a, a.barberId, a.date.day, a.date.hour, a.date.minute);
    assert TimeSlots(apps + [a], a.date.day, a.barberId)[i] == SlotAt(apps + [a], a.date.day, a.barberId, i);
  }

  /** A record of another barber leaves this barber's slots untouched. */
  lemma BookingOtherBarber(apps: seq<Appointment>, a: Appointment, day: int, barberId: string)
    requires a.barberId != barberId
    ensures TimeSlots(apps + [a], day, barberId) == TimeSlots(apps, day, barberId)
  {
    forall i | 0 <= i < SlotCount
      ensures IsBooked(apps + [a], barberId, day, SlotHour(i), SlotMinute(i)) == IsBooked(apps, barberId, day, SlotHour(i), SlotMinute(i))
    {
      BookedAfterAppend(apps, a, barberId, day, SlotHour(i), SlotMinute(i));
    }
    SameBookedSameSlots(apps + [a], apps, day, barberId);
  }

  // ---------------------------------------------------------------------------
  // Lemmas: the per-barber view

  /** Filtering distributes over concatenation: the view keeps store order. */
  lemma {:induction false} FilterAppend(left: seq<Appointment>, right: seq<Appointment>, barberId: string)
    ensures FilterByBarber(left + right, barberId) == FilterByBarber(left, barberId) + FilterByBarber(right, barberId)
  {
    if left != [] {
      assert (left + right)[1..] == left[1..] + right;
      FilterAppend(left[1..], right, barberId);
    } else {
      assert left + right == right;
    }
  }

  /** Right after a booking, the barber's view ends with the new record. */
  lemma FilterAfterBooking(apps: seq<Appointment>, a: Appointment)
    ensures FilterByBarber(apps + [a], a.barberId) == FilterByBarber(apps, a.barberId) + [a]
  {
    FilterAppend(apps, [a], a.barberId);
    assert [a][1..] == [];
  }

  // ---------------------------------------------------------------------------
  // Lemmas: ids

  /** Distinct positions get distinct ids. */
  lemma IdForInjective(m: nat, n: nat)
    requires IdFor(m) == IdFor(n)
    ensures m == n
  {
    assert IdFor(m)[1..] == DecimalString(m) && IdFor(n)[1..] == DecimalString(n);
    DecimalStringInjective(m, n);
  }

  /** Sequential ids are unique. */
  lemma SequentialIdsUnique(apps: seq<Appointment>)
    requires IdsSequential(apps)
    ensures UniqueIds(apps)
  {
    forall i, j | 0 <= i < j < |apps| ensures apps[i].id != apps[j].id {
      if apps[i].id == apps[j].id { IdForInjective(i + 1, j + 1); }
    }
  }

  /** The id of a new booking differs from every id already stored. */
  lemma NewIdIsFresh(apps: seq<Appointment>)
    requires IdsSequential(apps)
    ensures forall k :: 0 <= k < |apps| ==> apps[k].id != IdFor(|apps| + 1)
  {
    forall k | 0 <= k < |apps| ensures apps[k].id != IdFor(|apps| + 1) {
      if apps[k].id == IdFor(|apps| + 1) { IdForInjective(k + 1, |apps| + 1); }
    }
  }

  // ---------------------------------------------------------------------------
  // Lemmas: updates

  /** An update with an unknown id changes nothing. */
  lemma UpdateUnknownId(apps: seq<Appointment>, id: string, p: Patch)
    requires forall k :: 0 <= k < |apps| ==> apps[k].id != id
    ensures StoreAfterUpdate(apps, id, p) == apps
  {
  }

  /**
   * Applying the same patch twice is applying it once, when the patch keeps the
   * record's id or when the store's ids are unique (so that a patch moving the
   * record to another id leaves nothing for the second update to find).
   */
  lemma UpdateIdempotent(apps: seq<Appointment>, id: string, p: Patch)
    requires p.id.None? || p.id == Some(id) || UniqueIds(apps)
    ensures StoreAfterUpdate(StoreAfterUpdate(apps, id, p), id, p) == StoreAfterUpdate(apps, id, p)
  {
    var once := StoreAfterUpdate(apps, id, p);
    if p.id.None? || p.id == Some(id) {
      var twice := StoreAfterUpdate(once, id, p);
      assert forall k :: 0 <= k < |apps| ==> once[k].id == apps[k].id;
      forall i | 0 <= i < |apps| ensures twice[i] == once[i] {
        if IsFirstWithId(apps, id, i) {
          assert IsFirstWithId(once, id, i);
        } else {
          assert !IsFirstWithId(once, id, i);
        }
      }
    } else {
      match FirstIndexOf(apps, id)
      case None =>
        UpdateUnknownId(apps, id, p);
      case Some(k) =>
        forall j | 0 <= j < |once| ensures once[j].id != id {
          if j != k {
            assert !IsFirstWithId(apps, id, j);
            assert apps[j].id != apps[k].id;
          }
        }
        UpdateUnknownId(once, id, p);
    }
  }

  /** An update that leaves ids alone keeps them sequential. */
  lemma UpdateKeepsIds(apps: seq<Appointment>, id: string, p: Patch)
    requires IdsSequential(apps) && p.id.None?
    ensures IdsSequential(StoreAfterUpdate(apps, id, p))
  {
  }
}
