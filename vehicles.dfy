/** The vehicle handlers: register a vehicle, update it, soft-delete and
    re-activate it, and its booking statistics. */
module Vehicles {
  import opened JsValues
  import opened Enums
  import opened Schema
  import opened Store
  import opened Messages
  import opened Text
  import Aggregates

  /** `findFirst({ where: { id, userId } })` on vehicles. */
  predicate OwnsVehicle(s: State, caller: Id, id: Id) {
    id in s.vehicles && s.vehicles[id].userId == caller
  }

  /** Every stored plate number is in upper case, the form both handlers
      write. */
  predicate PlatesUpper(vehicles: map<Id, Vehicle>) {
    forall k :: k in vehicles ==> vehicles[k].plateNumber == ToUpper(vehicles[k].plateNumber)
  }

  /** With plates stored upper-cased, the unique column makes plates unique
      regardless of letter case. */
  lemma PlatesUniqueIgnoringCase(vehicles: map<Id, Vehicle>)
    requires PlatesUnique(vehicles) && PlatesUpper(vehicles)
    ensures forall a, b :: (a in vehicles && b in vehicles
                            && ToUpper(vehicles[a].plateNumber) == ToUpper(vehicles[b].plateNumber)) ==> a == b
  {
  }

  // =====================================================================
  // getUserVehicles and getVehicleById

  /** The ids of the caller's vehicles; an `isActive` query parameter keeps
      the active ones when it is the text "true" and the inactive ones when
      it is any other text. */
  function UserVehicles(s: State, caller: Id, isActive: Option<string>): (r: set<Id>)
    ensures forall k :: k in r <==> (OwnsVehicle(s, caller, k)
                                    && (isActive.Some? ==> s.vehicles[k].isActive == (isActive.value == "true")))
  {
    set k | k in s.vehicles && s.vehicles[k].userId == caller
            && (isActive.Some? ==> s.vehicles[k].isActive == (isActive.value == "true"))
  }

  function GetVehicleById(s: State, caller: Id, id: Id): (r: Lookup<Vehicle>)
    ensures r.Found? <==> OwnsVehicle(s, caller, id)
    ensures r.Found? ==> r.item == s.vehicles[id]
    ensures r.NotFound? ==> r.code == 404 && r.message == VehicleNotFound
  {
    if OwnsVehicle(s, caller, id) then Found(s.vehicles[id]) else NotFound(404, VehicleNotFound)
  }

  // =====================================================================
  // createVehicle

  /** The vehicle createVehicle stores. The validator has already required
      every field, so each arrives as a string (the year as a number). */
  function NewVehicle(caller: Id, brand: string, model: string, year: int, color: string,
                      plateNumber: string, vehicleType: string): (v: Vehicle)
    ensures v.userId == caller && v.plateNumber == ToUpper(plateNumber) && v.isActive
  {
    Vehicle(caller, Trim(brand), Trim(model), year, Trim(color), ToUpper(plateNumber), vehicleType, true)
  }

  function AddVehicle(s: State, v: Vehicle): State {
    s.(vehicles := s.vehicles[s.nextId := v], nextId := s.nextId + 1)
  }

  /** The foreign key on the caller rejects a token for a user who is no
      longer in the table; the error handler reports that as 400. */
  function CreateVehicleStep(s: State, caller: Id, brand: string, model: string, year: int, color: string,
                             plateNumber: string, vehicleType: string): Reply
  {
    if PlateUsed(s.vehicles, ToUpper(plateNumber)) then Reply(400, PlateTaken, s)
    else if caller !in s.users then Reply(400, InvalidInputData, s)
    else Reply(201, VehicleAdded, AddVehicle(s, NewVehicle(caller, brand, model, year, color, plateNumber, vehicleType)))
  }

  method CreateVehicle(db: Db, caller: Id, brand: string, model: string, year: int, color: string,
                       plateNumber: string, vehicleType: string)
    returns (code: nat, message: Msg)
    modifies db
    ensures Reply(code, message, db.Snapshot())
         == CreateVehicleStep(old(db.Snapshot()), caller, brand, model, year, color, plateNumber, vehicleType)
  {
    var plate := ToUpper(plateNumber);
    if exists k :: k in db.vehicles && db.vehicles[k].plateNumber == plate {
      return 400, PlateTaken;
    }
    if caller !in db.users {
      return 400, InvalidInputData;
    }
    var id := db.NewId();
    db.vehicles := db.vehicles[id := NewVehicle(caller, brand, model, year, color, plateNumber, vehicleType)];
    return 201, VehicleAdded;
  }

  /** The duplicate check looks up the upper-cased plate among all
      vehicles, active or not and of any user. A success adds one active
      vehicle of the caller, under a fresh id, with the plate upper-cased
      and brand, model and color trimmed. */
  lemma CreateVehicleOutcome(s: State, caller: Id, brand: string, model: string, year: int, color: string,
                             plateNumber: string, vehicleType: string)
    requires IdsBelowNext(s)
    ensures var r := CreateVehicleStep(s, caller, brand, model, year, color, plateNumber, vehicleType);
      && (r.message == PlateTaken <==> exists k :: k in s.vehicles && s.vehicles[k].plateNumber == ToUpper(plateNumber))
      && (r.code == 201 <==> !PlateUsed(s.vehicles, ToUpper(plateNumber)) && caller in s.users)
      && (r.code != 201 ==> r.state == s)
      && (r.code == 201 ==>
            && s.nextId !in s.vehicles
            && r.state.vehicles == s.vehicles[s.nextId := r.state.vehicles[s.nextId]]
            && r.state.vehicles[s.nextId]
               == Vehicle(caller, Trim(brand), Trim(model), year, Trim(color), ToUpper(plateNumber), vehicleType, true)
            && r.state == s.(vehicles := r.state.vehicles, nextId := s.nextId + 1))
  {
  }

  lemma CreateVehicleKeepsValid(s: State, caller: Id, brand: string, model: string, year: int, color: string,
                                plateNumber: string, vehicleType: string)
    requires Valid(s)
    ensures Valid(CreateVehicleStep(s, caller, brand, model, year, color, plateNumber, vehicleType).state)
  {
    if CreateVehicleStep(s, caller, brand, model, year, color, plateNumber, vehicleType).code == 201 {
      var v := NewVehicle(caller, brand, model, year, color, plateNumber, vehicleType);
      AddVehicleKeepsRefs(s, v);
      NewPlateKeepsUnique(s.vehicles, s.nextId, v);
    }
  }

  lemma AddVehicleKeepsRefs(s: State, v: Vehicle)
    requires IdsBelowNext(s) && RefsResolve(s) && v.userId in s.users
    ensures IdsBelowNext(AddVehicle(s, v)) && RefsResolve(AddVehicle(s, v))
  {
    var t := AddVehicle(s, v);
    assert BookingRefs(t.bookings, t.users.Keys, t.services.Keys, t.vehicles.Keys) by {
      assert s.vehicles.Keys <= t.vehicles.Keys;
    }
  }

  /** Writing a vehicle whose plate no other vehicle has keeps plates
      unique. */
  lemma NewPlateKeepsUnique(vehicles: map<Id, Vehicle>, id: Id, v: Vehicle)
    requires PlatesUnique(vehicles)
    requires forall k :: k in vehicles && k != id ==> vehicles[k].plateNumber != v.plateNumber
    ensures PlatesUnique(vehicles[id := v])
  {
  }

  /** Both writers store the upper-cased plate, so stored plates stay
      upper-cased. */
  lemma CreateVehicleKeepsPlatesUpper(s: State, caller: Id, brand: string, model: string, year: int, color: string,
                                      plateNumber: string, vehicleType: string)
    requires PlatesUpper(s.vehicles)
    ensures PlatesUpper(CreateVehicleStep(s, caller, brand, model, year, color, plateNumber, vehicleType).state.vehicles)
  {
    ToUpperIdempotent(plateNumber);
  }

  // =====================================================================
  // updateVehicle

  /** The body of an update request; any field may be missing. */
  datatype VehicleChanges = VehicleChanges(brand: Option<string>, model: Option<string>, year: Option<int>,
                                           color: Option<string>, plateNumber: Option<string>,
                                           vehicleType: Option<string>)

  /** The vehicle with each field the body supplies with a truthy value
      written over it; strings trimmed, the plate upper-cased. */
  function PatchVehicle(v: Vehicle, c: VehicleChanges): Vehicle {
    v.(brand := if Present(c.brand) then Trim(c.brand.value) else v.brand,
       model := if Present(c.model) then Trim(c.model.value) else v.model,
       year := if PresentNum(c.year) then c.year.value else v.year,
       color := if Present(c.color) then Trim(c.color.value) else v.color,
       plateNumber := if Present(c.plateNumber) then ToUpper(c.plateNumber.value) else v.plateNumber,
       vehicleType := if Present(c.vehicleType) then c.vehicleType.value else v.vehicleType)
  }

  /** The duplicate check runs only for a supplied plate that differs,
      upper-cased, from the vehicle's own. */
  predicate PlateClash(s: State, id: Id, plateNumber: Option<string>)
    requires id in s.vehicles
  {
    Present(plateNumber) && ToUpper(plateNumber.value) != s.vehicles[id].plateNumber
    && PlateUsed(s.vehicles, ToUpper(plateNumber.value))
  }

  /** With unique plates, the check refuses exactly a supplied plate that
      another vehicle has. */
  lemma PlateClashIff(s: State, id: Id, plateNumber: Option<string>)
    requires PlatesUnique(s.vehicles) && id in s.vehicles
    ensures PlateClash(s, id, plateNumber) <==>
              Present(plateNumber)
              && exists k :: k in s.vehicles && k != id && s.vehicles[k].plateNumber == ToUpper(plateNumber.value)
  {
  }

  function UpdateVehicleStep(s: State, caller: Id, id: Id, c: VehicleChanges): Reply {
    if !OwnsVehicle(s, caller, id) then Reply(404, VehicleNotFound, s)
    else if PlateClash(s, id, c.plateNumber) then Reply(400, PlateTaken, s)
    else Reply(200, VehicleUpdated, s.(vehicles := s.vehicles[id := PatchVehicle(s.vehicles[id], c)]))
  }

  /** Builds the update field by field, then writes it. */
  method UpdateVehicle(db: Db, caller: Id, id: Id, c: VehicleChanges) returns (code: nat, message: Msg)
    modifies db
    ensures Reply(code, message, db.Snapshot()) == UpdateVehicleStep(old(db.Snapshot()), caller, id, c)
  {
    if !(id in db.vehicles && db.vehicles[id].userId == caller) {
      return 404, VehicleNotFound;
    }
    var existing := db.vehicles[id];
    if Present(c.plateNumber) && ToUpper(c.plateNumber.value) != existing.plateNumber
       && PlateUsed(db.vehicles, ToUpper(c.plateNumber.value)) {
      return 400, PlateTaken;
    }
    var v := PatchVehicle(existing, c);
    db.vehicles := db.vehicles[id := v];
    return 200, VehicleUpdated;
  }

  /** Only the caller's vehicle can be updated; a supplied plate that some
      other vehicle already has is refused, and re-sending the vehicle's own
      plate is not. A field changes exactly when it is supplied truthy; the
      owner and the active flag stay, and nothing else changes. */
  lemma UpdateVehicleOutcome(s: State, caller: Id, id: Id, c: VehicleChanges)
    requires PlatesUnique(s.vehicles)
    ensures var r := UpdateVehicleStep(s, caller, id, c);
      && (r.code == 404 <==> !OwnsVehicle(s, caller, id))
      && (r.code == 400 <==> OwnsVehicle(s, caller, id) && Present(c.plateNumber)
                             && exists k :: k in s.vehicles && k != id && s.vehicles[k].plateNumber == ToUpper(c.plateNumber.value))
      && (r.code == 200 <==> OwnsVehicle(s, caller, id)
                             && !(Present(c.plateNumber)
                                  && exists k :: k in s.vehicles && k != id && s.vehicles[k].plateNumber == ToUpper(c.plateNumber.value)))
      && (r.code != 200 ==> r.state == s)
      && (r.code == 200 ==>
            var v := r.state.vehicles[id];
            && r.state == s.(vehicles := s.vehicles[id := v])
            && v.userId == caller && v.isActive == s.vehicles[id].isActive
            && (v.brand == if Present(c.brand) then Trim(c.brand.value) else s.vehicles[id].brand)
            && (v.model == if Present(c.model) then Trim(c.model.value) else s.vehicles[id].model)
            && (v.year == if PresentNum(c.year) then c.year.value else s.vehicles[id].year)
            && (v.color == if Present(c.color) then Trim(c.color.value) else s.vehicles[id].color)
            && (v.plateNumber == if Present(c.plateNumber) then ToUpper(c.plateNumber.value) else s.vehicles[id].plateNumber)
            && (v.vehicleType == if Present(c.vehicleType) then c.vehicleType.value else s.vehicles[id].vehicleType))
  {
    if OwnsVehicle(s, caller, id) {
      PlateClashIff(s, id, c.plateNumber);
    }
  }

  lemma UpdateVehicleKeepsValid(s: State, caller: Id, id: Id, c: VehicleChanges)
    requires Valid(s)
    ensures Valid(UpdateVehicleStep(s, caller, id, c).state)
  {
    if OwnsVehicle(s, caller, id) && !PlateClash(s, id, c.plateNumber) {
      var v := PatchVehicle(s.vehicles[id], c);
      NewPlateKeepsUnique(s.vehicles, id, v);
      PatchVehicleKeepsRefs(s, id, v);
    }
  }

  lemma PatchVehicleKeepsRefs(s: State, id: Id, v: Vehicle)
    requires IdsBelowNext(s) && RefsResolve(s) && id in s.vehicles && v.userId == s.vehicles[id].userId
    ensures IdsBelowNext(s.(vehicles := s.vehicles[id := v])) && RefsResolve(s.(vehicles := s.vehicles[id := v]))
  {
    assert s.vehicles[id := v].Keys == s.vehicles.Keys;
  }

  lemma UpdateVehicleKeepsPlatesUpper(s: State, caller: Id, id: Id, c: VehicleChanges)
    requires PlatesUpper(s.vehicles)
    ensures PlatesUpper(UpdateVehicleStep(s, caller, id, c).state.vehicles)
  {
    if c.plateNumber.Some? {
      ToUpperIdempotent(c.plateNumber.value);
    }
  }

  // =====================================================================
  // deleteVehicle and activateVehicle

  function SetVehicleActive(s: State, id: Id, active: bool): State
    requires id in s.vehicles
  {
    s.(vehicles := s.vehicles[id := s.vehicles[id].(isActive := active)])
  }

  /** A soft delete: the record stays, marked inactive. */
  function DeleteVehicleStep(s: State, caller: Id, id: Id): Reply {
    if !OwnsVehicle(s, caller, id) then Reply(404, VehicleNotFound, s)
    else if VehicleBusy(s.bookings, id) then Reply(400, VehicleHasActiveBookings, s)
    else Reply(200, VehicleDeleted, SetVehicleActive(s, id, false))
  }

  method DeleteVehicle(db: Db, caller: Id, id: Id) returns (code: nat, message: Msg)
    modifies db
    ensures Reply(code, message, db.Snapshot()) == DeleteVehicleStep(old(db.Snapshot()), caller, id)
  {
    if !(id in db.vehicles && db.vehicles[id].userId == caller) {
      return 404, VehicleNotFound;
    }
    if exists k :: k in db.bookings && db.bookings[k].vehicleId == Some(id)
                   && (db.bookings[k].status == Pending || db.bookings[k].status == Processing) {
      return 400, VehicleHasActiveBookings;
    }
    db.vehicles := db.vehicles[id := db.vehicles[id].(isActive := false)];
    return 200, VehicleDeleted;
  }

  /** A vehicle with a pending or processing booking is never deleted; a
      delete keeps the record and clears only its active flag. */
  lemma DeleteVehicleOutcome(s: State, caller: Id, id: Id)
    ensures var r := DeleteVehicleStep(s, caller, id);
      && (r.code == 404 <==> !OwnsVehicle(s, caller, id))
      && (r.code == 400 <==> OwnsVehicle(s, caller, id) && VehicleBusy(s.bookings, id))
      && (r.code == 200 <==> OwnsVehicle(s, caller, id) && !VehicleBusy(s.bookings, id))
      && (r.code != 200 ==> r.state == s)
      && (r.code == 200 ==>
            && r.state.vehicles.Keys == s.vehicles.Keys
            && r.state.vehicles[id] == s.vehicles[id].(isActive := false)
            && (forall k :: k in s.vehicles && k != id ==> r.state.vehicles[k] == s.vehicles[k])
            && r.state == s.(vehicles := r.state.vehicles))
  {
  }

  function ActivateVehicleStep(s: State, caller: Id, id: Id): Reply {
    if !OwnsVehicle(s, caller, id) then Reply(404, VehicleNotFound, s)
    else Reply(200, VehicleActivated, SetVehicleActive(s, id, true))
  }

  method ActivateVehicle(db: Db, caller: Id, id: Id) returns (code: nat, message: Msg)
    modifies db
    ensures Reply(code, message, db.Snapshot()) == ActivateVehicleStep(old(db.Snapshot()), caller, id)
  {
    if !(id in db.vehicles && db.vehicles[id].userId == caller) {
      return 404, VehicleNotFound;
    }
    db.vehicles := db.vehicles[id := db.vehicles[id].(isActive := true)];
    return 200, VehicleActivated;
  }

  /** Activating sets the flag and nothing else, and activating twice is
      activating once. */
  lemma ActivateVehicleOutcome(s: State, caller: Id, id: Id)
    ensures var r := ActivateVehicleStep(s, caller, id);
      && (r.code == 404 <==> !OwnsVehicle(s, caller, id))
      && (r.code == 200 <==> OwnsVehicle(s, caller, id))
      && (r.code == 404 ==> r.state == s)
      && (r.code == 200 ==> r.state.vehicles[id] == s.vehicles[id].(isActive := true)
                            && r.state == s.(vehicles := s.vehicles[id := r.state.vehicles[id]]))
      && ActivateVehicleStep(r.state, caller, id).state == r.state
  {
  }

  /** Deleting after activating, or activating after deleting, each leave
      the record as the last call set it. */
  lemma ActivateUndoesDelete(s: State, caller: Id, id: Id)
    requires DeleteVehicleStep(s, caller, id).code == 200
    ensures ActivateVehicleStep(DeleteVehicleStep(s, caller, id).state, caller, id).state
         == SetVehicleActive(s, id, true)
  {
    assert SetVehicleActive(SetVehicleActive(s, id, false), id, true) == SetVehicleActive(s, id, true);
  }

  lemma SetVehicleActiveKeepsValid(s: State, id: Id, active: bool)
    requires Valid(s) && id in s.vehicles
    ensures Valid(SetVehicleActive(s, id, active))
  {
    PatchVehicleKeepsRefs(s, id, s.vehicles[id].(isActive := active));
    NewPlateKeepsUnique(s.vehicles, id, s.vehicles[id].(isActive := active));
  }

  lemma DeleteVehicleKeepsValid(s: State, caller: Id, id: Id)
    requires Valid(s)
    ensures Valid(DeleteVehicleStep(s, caller, id).state)
  {
    if DeleteVehicleStep(s, caller, id).code == 200 {
      SetVehicleActiveKeepsValid(s, id, false);
    }
  }

  lemma ActivateVehicleKeepsValid(s: State, caller: Id, id: Id)
    requires Valid(s)
    ensures Valid(ActivateVehicleStep(s, caller, id).state)
  {
    if ActivateVehicleStep(s, caller, id).code == 200 {
      SetVehicleActiveKeepsValid(s, id, true);
    }
  }

  // =====================================================================
  // getVehicleStats

  datatype VehicleStats = VehicleStats(totalBookings: nat, completedBookings: nat, totalSpent: int)

  function BookingsOf(s: State, id: Id): set<Id> {
    set k | k in s.bookings && s.bookings[k].vehicleId == Some(id)
  }

  function DoneBookingsOf(s: State, id: Id): set<Id> {
    set k | k in s.bookings && s.bookings[k].vehicleId == Some(id) && s.bookings[k].status == Done
  }

  /** The paid transactions of the vehicle's bookings. */
  function PaidFor(s: State, id: Id): set<Id> {
    set k | k in s.transactions && s.transactions[k].status == Paid
            && s.transactions[k].bookingId in s.bookings
            && s.bookings[s.transactions[k].bookingId].vehicleId == Some(id)
  }

  /** Two counts and `_sum: { amount }`, whose null (no paid transaction)
      reads as 0. */
  ghost function GetVehicleStats(s: State, caller: Id, id: Id): Lookup<VehicleStats> {
    if !OwnsVehicle(s, caller, id) then NotFound(404, VehicleNotFound)
    else
      Found(VehicleStats(|BookingsOf(s, id)|, |DoneBookingsOf(s, id)|,
                         Aggregates.SumOver(PaidFor(s, id), k => if k in s.transactions then s.transactions[k].amount else 0)))
  }

  /** Completed bookings are among all bookings, and the amount spent is
      never negative and is 0 when nothing was paid. */
  lemma VehicleStatsBounds(s: State, caller: Id, id: Id)
    requires AmountsPositive(s.transactions)
    ensures var r := GetVehicleStats(s, caller, id);
      && (r.NotFound? <==> !OwnsVehicle(s, caller, id))
      && (r.Found? ==>
            && r.item.completedBookings <= r.item.totalBookings
            && r.item.totalSpent >= 0
            && (PaidFor(s, id) == {} ==> r.item.totalSpent == 0))
  {
    if OwnsVehicle(s, caller, id) {
      Aggregates.SubsetBound(DoneBookingsOf(s, id), BookingsOf(s, id));
      Aggregates.SumOverNonNegative(PaidFor(s, id), k => if k in s.transactions then s.transactions[k].amount else 0);
    }
  }
}
