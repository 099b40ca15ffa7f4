/**
 * The barber panel: the status label and the actions it offers for each
 * appointment, the three action handlers, and the panel's cached copy of the
 * selected barber's appointments, which each handler patches beside the store.
 */
module BarberPanel {
  import opened Wrappers
  import opened Scheduling

  // ---------------------------------------------------------------------------
  // Status and actions

  /** The badge text: completed wins over confirmed. */
  function StatusLabel(a: Appointment): (text: string)
    ensures text == "Concluído" <==> a.completed
    ensures text == "Confirmado" <==> !a.completed && a.confirmed
    ensures text == "Pendente" <==> !a.completed && !a.confirmed
  {
    if a.completed then "Concluído" else if a.confirmed then "Confirmado" else "Pendente"
  }

  /** The three buttons: "Confirmar", "Atendido" and "Cancelar". */
  datatype Action = Confirm | Complete | Cancel

  /** Whether the panel shows the button for `act` on appointment `a`. */
  predicate Offered(a: Appointment, act: Action) {
    !a.completed &&
    match act
    case Confirm => !a.confirmed
    case Complete => a.confirmed
    case Cancel => true
  }

  /** The update each handler sends to the store. */
  function ActionPatch(act: Action): Patch {
    match act
    case Confirm => ConfirmedPatch(true)
    case Complete => CompletedPatch(true)
    case Cancel => ConfirmedPatch(false)
  }

  /** What a handler does to one record. */
  function Perform(a: Appointment, act: Action): Appointment {
    ApplyPatch(a, ActionPatch(act))
  }

  /** Performs `acts` in order, each one only if the panel offers it at that point. */
  function Run(a: Appointment, acts: seq<Action>): Option<Appointment>
    decreases |acts|
  {
    if acts == [] then Some(a)
    else if !Offered(a, acts[0]) then None
    else Run(Perform(a, acts[0]), acts[1..])
  }

  /** A record that is completed is also confirmed: pending -> confirmed -> completed. */
  predicate Consistent(a: Appointment) {
    a.completed ==> a.confirmed
  }

  // ---------------------------------------------------------------------------
  // The cached list

  /** `prev.map(app => app.id === id ? { ...app, ...patch } : app)`. */
  function MapPatch(list: seq<Appointment>, id: string, p: Patch): (r: seq<Appointment>)
    ensures |r| == |list|
    ensures forall k :: 0 <= k < |list| && list[k].id == id ==> r[k] == ApplyPatch(list[k], p)
    ensures forall k :: 0 <= k < |list| && list[k].id != id ==> r[k] == list[k]
  {
    if list == [] then []
    else
      var rest := MapPatch(list[1..], id, p);
      assert forall k :: 1 <= k < |list| ==> list[k] == list[1..][k - 1];
      [if list[0].id == id then ApplyPatch(list[0], p) else list[0]] + rest
  }

  // ---------------------------------------------------------------------------
  // The panel

  class Panel {
    const store: Store
    var selectedBarberId: string
    var barberAppointments: seq<Appointment>

    /** The cached list is the store's view of the selected barber. */
    ghost predicate Synced()
      reads this, store
    {
      barberAppointments == FilterByBarber(store.appointments, selectedBarberId)
    }

    constructor (store: Store)
      ensures this.store == store
      ensures selectedBarberId == "" && barberAppointments == []
    {
      this.store := store;
      selectedBarberId := "";
      barberAppointments := [];
    }

    /** Choosing a barber; a non-empty choice loads that barber's appointments. */
    method SelectBarber(barberId: string)
      modifies this
      ensures selectedBarberId == barberId
      ensures barberId != "" ==> barberAppointments == store.GetBarberAppointments(barberId) && Synced()
      ensures barberId == "" ==> barberAppointments == old(barberAppointments)
    {
      selectedBarberId := barberId;
      if barberId != "" {
        barberAppointments := store.GetBarberAppointments(barberId);
      }
    }

    /** Sends `patch` for `appointmentId` to the store and patches the cached list alike. */
    method ApplyToBoth(appointmentId: string, patch: Patch)
      requires patch.id.None? && patch.barberId.None?
      modifies this, store
      ensures store.appointments == StoreAfterUpdate(old(store.appointments), appointmentId, patch)
      ensures barberAppointments == MapPatch(old(barberAppointments), appointmentId, patch)
      ensures selectedBarberId == old(selectedBarberId)
      ensures old(Synced()) && old(store.Valid()) ==> Synced() && store.Valid()
    {
      ghost var before := store.appointments;
      var _ := store.UpdateAppointment(appointmentId, patch);
      barberAppointments := MapPatch(barberAppointments, appointmentId, patch);
      if old(Synced()) && old(store.Valid()) {
        SequentialIdsUnique(before);
        CacheStaysInSync(before, selectedBarberId, appointmentId, patch);
      }
    }

    method HandleConfirmAppointment(appointmentId: string)
      modifies this, store
      ensures store.appointments == StoreAfterUpdate(old(store.appointments), appointmentId, ActionPatch(Confirm))
      ensures barberAppointments == MapPatch(old(barberAppointments), appointmentId, ActionPatch(Confirm))
      ensures selectedBarberId == old(selectedBarberId)
      ensures old(Synced()) && old(store.Valid()) ==> Synced() && store.Valid()
    {
      ApplyToBoth(appointmentId, ActionPatch(Confirm));
    }

    method HandleCancelAppointment(appointmentId: string)
      modifies this, store
      ensures store.appointments == StoreAfterUpdate(old(store.appointments), appointmentId, ActionPatch(Cancel))
      ensures barberAppointments == MapPatch(old(barberAppointments), appointmentId, ActionPatch(Cancel))
      ensures selectedBarberId == old(selectedBarberId)
      ensures old(Synced()) && old(store.Valid()) ==> Synced() && store.Valid()
    {
      ApplyToBoth(appointmentId, ActionPatch(Cancel));
    }

    method HandleMarkCompleted(appointmentId: string)
      modifies this, store
      ensures store.appointments == StoreAfterUpdate(old(store.appointments), appointmentId, ActionPatch(Complete))
      ensures barberAppointments == MapPatch(old(barberAppointments), appointmentId, ActionPatch(Complete))
      ensures selectedBarberId == old(selectedBarberId)
      ensures old(Synced()) && old(store.Valid()) ==> Synced() && store.Valid()
    {
      ApplyToBoth(appointmentId, ActionPatch(Complete));
    }
  }

  // ---------------------------------------------------------------------------
  // Lemmas: status and actions

  /** The badge tells the three states apart: equal labels mean equal states. */
  lemma LabelDeterminesState(a: Appointment, b: Appointment)
    requires StatusLabel(a) == StatusLabel(b)
    ensures a.completed == b.completed
    ensures !a.completed ==> a.confirmed == b.confirmed
  {
  }

  /** No button is shown for a completed appointment. */
  lemma CompletedIsTerminal(a: Appointment, act: Action)
    requires a.completed
    ensures !Offered(a, act)
  {
  }

  /** An open appointment shows "Cancelar" and exactly one of "Confirmar" and "Atendido". */
  lemma OpenAppointmentActions(a: Appointment)
    requires !a.completed
    ensures Offered(a, Cancel)
    ensures Offered(a, Confirm) != Offered(a, Complete)
  {
  }

  /** Each handler changes exactly one flag of the record and no other field. */
  lemma ActionEffects(a: Appointment)
    ensures Perform(a, Confirm) == a.(confirmed := true)
    ensures Perform(a, Cancel) == a.(confirmed := false)
    ensures Perform(a, Complete) == a.(completed := true)
  {
  }

  /** Each offered action moves the badge along pending -> confirmed -> completed, or back to pending. */
  lemma ActionTransitions(a: Appointment, act: Action)
    requires Offered(a, act)
    ensures StatusLabel(Perform(a, act)) ==
      match act
      case Confirm => "Confirmado"
      case Complete => "Concluído"
      case Cancel => "Pendente"
  {
  }

  /** Cancelling gives the same record as one freshly booked with the same details. */
  lemma CancelIsPending(a: Appointment)
    requires !a.completed
    ensures Perform(a, Cancel) == a.(confirmed := false, completed := false)
    ensures StatusLabel(Perform(a, Cancel)) == "Pendente"
  {
  }

  /** Along any run of offered actions, "completed implies confirmed" is kept. */
  lemma {:induction false} RunKeepsConsistent(a: Appointment, acts: seq<Action>)
    requires Consistent(a)
    requires Run(a, acts).Some?
    ensures Consistent(Run(a, acts).value)
    decreases |acts|
  {
    if acts != [] {
      RunKeepsConsistent(Perform(a, acts[0]), acts[1..]);
    }
  }

  /** From a completed appointment the only run is the empty one. */
  lemma RunFromCompleted(a: Appointment, acts: seq<Action>)
    requires a.completed
    requires Run(a, acts).Some?
    ensures acts == [] && Run(a, acts) == Some(a)
  {
  }

  /** Along any run of offered actions only the two flags change, and completion is never undone. */
  lemma {:induction false} RunKeepsDetails(a: Appointment, acts: seq<Action>)
    requires Run(a, acts).Some?
    ensures Run(a, acts).value == a.(confirmed := Run(a, acts).value.confirmed,
                                      completed := Run(a, acts).value.completed)
    ensures a.completed ==> Run(a, acts).value.completed
    decreases |acts|
  {
    if acts != [] {
      RunKeepsDetails(Perform(a, acts[0]), acts[1..]);
    }
  }

  /** The panel's actions never free or block a slot. */
  lemma ActionsKeepSlots(apps: seq<Appointment>, id: string, act: Action, day: int, barberId: string)
    ensures TimeSlots(StoreAfterUpdate(apps, id, ActionPatch(act)), day, barberId) == TimeSlots(apps, day, barberId)
  {
    FlagsDoNotAffectSlots(apps, StoreAfterUpdate(apps, id, ActionPatch(act)), day, barberId);
  }

  // ---------------------------------------------------------------------------
  // Lemmas: the cached list

  /** Patching a list that has no record with the id leaves it as it is. */
  lemma MapPatchAbsent(list: seq<Appointment>, id: string, p: Patch)
    requires forall k :: 0 <= k < |list| ==> list[k].id != id
    ensures MapPatch(list, id, p) == list
  {
  }

  /** The store update of a list that starts with another id starts with that record. */
  lemma StoreAfterUpdateCons(x: Appointment, rest: seq<Appointment>, id: string, p: Patch)
    requires x.id != id
    ensures StoreAfterUpdate([x] + rest, id, p) == [x] + StoreAfterUpdate(rest, id, p)
  {
    var apps := [x] + rest;
    var l := StoreAfterUpdate(apps, id, p);
    var r := [x] + StoreAfterUpdate(rest, id, p);
    forall i | 0 <= i < |apps| ensures l[i] == r[i] {
      if i > 0 {
        assert apps[i] == rest[i - 1];
        assert IsFirstWithId(apps, id, i) <==> IsFirstWithId(rest, id, i - 1) by {
          assert forall j :: 0 < j < i ==> apps[j] == rest[j - 1];
        }
      }
    }
  }

  /**
   * With unique ids, patching the cached view of barber `b` gives the view of
   * the updated store, for any patch that keeps ids and barbers.
   */
  lemma {:induction false} CacheStaysInSync(apps: seq<Appointment>, b: string, id: string, p: Patch)
    requires UniqueIds(apps)
    requires p.id.None? && p.barberId.None?
    ensures MapPatch(FilterByBarber(apps, b), id, p) == FilterByBarber(StoreAfterUpdate(apps, id, p), b)
  {
    if apps != [] {
      var x, rest := apps[0], apps[1..];
      assert apps == [x] + rest;
      assert UniqueIds(rest) by {
        forall i, j | 0 <= i < j < |rest| ensures rest[i].id != rest[j].id {
          assert rest[i] == apps[i + 1] && rest[j] == apps[j + 1];
        }
      }
      var head := if x.barberId == b then [x] else [];
      assert FilterByBarber(apps, b) == head + FilterByBarber(rest, b);
      if x.id == id {
        var updated := StoreAfterUpdate(apps, id, p);
        assert IsFirstWithId(apps, id, 0);
        assert updated == [ApplyPatch(x, p)] + rest by {
          forall i | 0 < i < |apps| ensures updated[i] == apps[i] {
            assert !IsFirstWithId(apps, id, i);
          }
        }
        assert forall k :: 0 <= k < |rest| ==> rest[k].id != id by {
          forall k | 0 <= k < |rest| ensures rest[k].id != id {
            assert rest[k] == apps[k + 1];
          }
        }
        var mine := FilterByBarber(rest, b);
        assert forall k :: 0 <= k < |mine| ==> mine[k].id != id by {
          forall k | 0 <= k < |mine| ensures mine[k].id != id {
            assert mine[k] in rest;
          }
        }
        MapPatchAbsent(mine, id, p);
        assert updated[1..] == rest;
        assert MapPatch(head + mine, id, p) == MapPatch(head, id, p) + MapPatch(mine, id, p) by {
          MapPatchAppend(head, mine, id, p);
        }
      } else {
        StoreAfterUpdateCons(x, rest, id, p);
        var updated := StoreAfterUpdate(apps, id, p);
        assert updated[0] == x && updated[1..] == StoreAfterUpdate(rest, id, p);
        CacheStaysInSync(rest, b, id, p);
        MapPatchAppend(head, FilterByBarber(rest, b), id, p);
      }
    }
  }

  /** Patching distributes over concatenation. */
  lemma MapPatchAppend(left: seq<Appointment>, right: seq<Appointment>, id: string, p: Patch)
    ensures MapPatch(left + right, id, p) == MapPatch(left, id, p) + MapPatch(right, id, p)
  {
    var l := MapPatch(left + right, id, p);
    var r := MapPatch(left, id, p) + MapPatch(right, id, p);
    forall k | 0 <= k < |left + right| ensures l[k] == r[k] {
      if k >= |left| { assert (left + right)[k] == right[k - |left|]; }
    }
  }
}
