/**
 * The maintenance handlers: list by car, get, create, partial update and
 * delete over the Maintenance collection. Create and update reach into the
 * car registry for the car a record refers to and ratchet its mileage up.
 */
module MaintenanceRoutes {
  import opened Wrappers
  import opened Text
  import opened Store
  import CarSchema
  import CarRoutes
  import opened MaintenanceSchema

  /** The listing order `sort({ date: -1 })`: newest first. */
  predicate NewestFirst(a: (Id, Record), b: (Id, Record)) {
    a.1.date >= b.1.date
  }

  /** The record after the update handler's field assignments, before it is validated. */
  function Patched(rec: Record, input: RecordInput): Record {
    rec.(date := if TruthyInt(input.date) then input.date.value else rec.date)
       .(description := if TruthyString(input.description) then Trim(input.description.value) else rec.description)
       .(mileage := if TruthyInt(input.mileage) then input.mileage.value else rec.mileage)
       .(parts := if input.parts.Some? then CastParts(input.parts.value) else rec.parts)
       .(notes := if TruthyString(input.notes) then Some(Trim(input.notes.value)) else rec.notes)
  }

  /** The car table after the update handler's ratchet, which only a truthy mileage triggers. */
  function PatchRatchet(cars: map<Id, CarSchema.Car>, rec: Record, input: RecordInput): map<Id, CarSchema.Car> {
    if TruthyInt(input.mileage) then CarRoutes.Ratchet(cars, rec.carId, input.mileage.value) else cars
  }

  class MaintenanceLedger {
    const registry: CarRoutes.CarRegistry
    var records: map<Id, Record>
    var nextId: Id

    /** The registry's invariant, and every stored record validated and with its derived total. */
    ghost predicate Valid()
      reads this, registry
    {
      registry.Valid() && MaintenanceSchema.TableValid(records, nextId)
    }

    constructor (registry: CarRoutes.CarRegistry)
      requires registry.Valid()
      ensures Valid()
      ensures this.registry == registry && records == map[]
    {
      this.registry := registry;
      records := map[];
      nextId := 0;
    }

    /** GET /maintenance/car/:carId: exactly the records of that car, each once, newest first. */
    method ListByCar(carId: Id) returns (r: seq<(Id, Record)>)
      ensures forall i :: 0 <= i < |r| ==>
        r[i].0 in records && records[r[i].0] == r[i].1 && r[i].1.carId == carId
      ensures forall id :: id in records && records[id].carId == carId ==>
        exists i :: 0 <= i < |r| && r[i].0 == id
      ensures forall i, j :: 0 <= i < j < |r| ==> r[i].0 != r[j].0
      ensures forall i, j :: 0 <= i < j < |r| ==> r[i].1.date >= r[j].1.date
    {
      r := FindSorted(records, (rec: Record) => rec.carId == carId, NewestFirst);
    }

    /** GET /maintenance/:id. */
    function Find(id: Id): (r: Result<Record>)
      reads this
      ensures r.Ok? <==> id in records
      ensures r.Ok? ==> r.value == records[id]
      ensures r.Err? ==> r.error == NotFound
    {
      if id in records then Ok(records[id]) else Err(NotFound)
    }

    /**
     * POST /maintenance. The car must exist; the record is built, validated
     * and saved with its totalCost recomputed; only then, if the reading is
     * higher than the car's mileage, the car's mileage is raised to it.
     */
    method Create(input: RecordInput) returns (r: Result<Id>)
      requires Valid()
      modifies this, registry
      ensures Valid()
      ensures r == Err(NotFound) <==> input.carId.None? || input.carId.value !in old(registry.cars)
      ensures r == Err(Validation) <==>
        input.carId.Some? && input.carId.value in old(registry.cars) && Build(input.carId.value, input).Err?
      ensures r.Err? ==> r.error != Conflict && unchanged(this) && unchanged(registry)
      ensures registry.nextId == old(registry.nextId)
      ensures r.Ok? ==>
        var carId := input.carId.value;
        var rec := Build(carId, input).value;
        && r.value !in old(records)
        && records == old(records)[r.value := rec]
        && rec.carId == carId
        && rec.totalCost == SumOfLines(rec.parts)
        && registry.cars == CarRoutes.Ratchet(old(registry.cars), carId, input.mileage.value)
    {
      if input.carId.None? || input.carId.value !in registry.cars {
        return Err(NotFound);
      }
      var carId := input.carId.value;
      var car := registry.cars[carId];
      var built := Build(carId, input);
      if built.Err? {
        return Err(Validation);
      }
      var saved := RecomputeTotal(built.value);
      assert saved == built.value;
      var id := nextId;
      nextId := nextId + 1;
      WriteKeepsTableValid(records, nextId, id, saved);
      records := records[id := saved];
      if input.mileage.value > car.mileage {
        registry.RaiseMileage(carId, input.mileage.value);
      }
      r := Ok(id);
    }

    /**
     * PATCH /maintenance/:id. Only truthy fields are assigned (any parts
     * array counts, even an empty one) and carId never changes. A truthy
     * mileage ratchets the car up at once, before the record is validated,
     * so the car keeps the raised mileage even when the save then fails.
     */
    method Patch(id: Id, input: RecordInput) returns (r: Result<Record>)
      requires Valid()
      modifies this, registry
      ensures Valid()
      ensures r == Err(NotFound) <==> id !in old(records)
      ensures r == Err(Validation) <==> id in old(records) && !Conforms(Patched(old(records)[id], input))
      ensures r.Err? ==> r.error != Conflict
      ensures r.Ok? <==> id in old(records) && Conforms(Patched(old(records)[id], input))
      ensures registry.nextId == old(registry.nextId)
      ensures r.Err? ==> records == old(records) && nextId == old(nextId)
      ensures id !in old(records) ==> unchanged(registry)
      ensures id in old(records) ==>
        registry.cars == PatchRatchet(old(registry.cars), old(records)[id], input)
      ensures r.Ok? ==>
        && id in old(records)
        && records == old(records)[id := r.value]
        && nextId == old(nextId)
        && r.value == WithTotal(Patched(old(records)[id], input))
        && r.value.totalCost == SumOfLines(r.value.parts)
      ensures r.Ok? ==>
        var was := old(records)[id];
        && r.value.carId == was.carId
        && r.value.date == (if TruthyInt(input.date) then input.date.value else was.date)
        && r.value.description ==
             (if TruthyString(input.description) then Trim(input.description.value) else was.description)
        && r.value.mileage == (if TruthyInt(input.mileage) then input.mileage.value else was.mileage)
        && r.value.parts == (if input.parts.Some? then CastParts(input.parts.value) else was.parts)
        && r.value.notes == (if TruthyString(input.notes) then Some(Trim(input.notes.value)) else was.notes)
    {
      if id !in records {
        return Err(NotFound);
      }
      var rec := records[id];
      ghost var target := Patched(rec, input);
      if TruthyInt(input.date) {
        rec := rec.(date := input.date.value);
      }
      assert rec == target.(description := rec.description, mileage := rec.mileage, parts := rec.parts, notes := rec.notes);
      if TruthyString(input.description) {
        rec := rec.(description := Trim(input.description.value));
      }
      assert rec == target.(mileage := rec.mileage, parts := rec.parts, notes := rec.notes);
      if TruthyInt(input.mileage) {
        rec := rec.(mileage := input.mileage.value);
        if rec.carId in registry.cars && input.mileage.value > registry.cars[rec.carId].mileage {
          registry.RaiseMileage(rec.carId, input.mileage.value);
        }
      }
      assert rec == target.(parts := rec.parts, notes := rec.notes);
      assert registry.cars == PatchRatchet(old(registry.cars), old(records)[id], input);
      if input.parts.Some? {
        rec := rec.(parts := CastParts(input.parts.value));
      }
      if TruthyString(input.notes) {
        rec := rec.(notes := Some(Trim(input.notes.value)));
      }
      assert rec == target;
      if !Conforms(rec) {
        return Err(Validation);
      }
      var saved := RecomputeTotal(rec);
      WriteKeepsTableValid(records, nextId, id, saved);
      records := records[id := saved];
      r := Ok(saved);
    }

    /**
     * DELETE /maintenance/:id: removes that record alone. Only the ledger is
     * modified, so no car's mileage goes back down.
     */
    method Delete(id: Id) returns (r: Result<()>)
      requires Valid()
      modifies this
      ensures Valid()
      ensures r == Err(NotFound) <==> id !in old(records)
      ensures r.Err? ==> r.error == NotFound && unchanged(this)
      ensures r.Ok? ==> records == old(records) - {id} && nextId == old(nextId)
      ensures unchanged(registry)
    {
      if id !in records {
        return Err(NotFound);
      }
      records := records - {id};
      r := Ok(());
    }
  }
}
