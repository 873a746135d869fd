/**
 * The car handlers: list, get, create, partial update and delete over the
 * Car collection, which the registry holds as a table from identifiers to
 * documents.
 */
module CarRoutes {
  import opened Wrappers
  import opened Text
  import opened Store
  import opened CarSchema

  /** The listing order `sort({ make: 1, model: 1 })`: by make, then by model. */
  predicate ByMakeModel(a: (Id, Car), b: (Id, Car)) {
    if a.1.make == b.1.make then StrLe(a.1.model, b.1.model) else StrLe(a.1.make, b.1.make)
  }

  /** Any two cars are ordered one way or the other, so the listing is well defined. */
  lemma ByMakeModelTotal(a: (Id, Car), b: (Id, Car))
    ensures ByMakeModel(a, b) || ByMakeModel(b, a)
  {
    StrLeTotal(a.1.make, b.1.make);
    StrLeTotal(a.1.model, b.1.model);
  }

  /** The order is transitive, so adjacent pairs in order means the whole listing is. */
  lemma ByMakeModelTransitive(a: (Id, Car), b: (Id, Car), c: (Id, Car))
    requires ByMakeModel(a, b) && ByMakeModel(b, c)
    ensures ByMakeModel(a, c)
  {
    var x, y, z := a.1, b.1, c.1;
    if x.make == y.make && y.make == z.make {
      StrLeTransitive(x.model, y.model, z.model);
    } else if x.make == y.make || y.make == z.make {
    } else {
      StrLeTransitive(x.make, y.make, z.make);
      if x.make == z.make {
        StrLeAntisymmetric(x.make, y.make);
      }
    }
  }

  /**
   * The plate check runs for a truthy plate whose upper case differs from the
   * car's own stored plate. The comparison does not trim, so the car's own
   * plate sent with white space around it still runs the check.
   */
  predicate PlateChanges(c: Car, input: CarInput) {
    TruthyString(input.licensePlate) && Upper(input.licensePlate.value) != c.licensePlate
  }

  /** The car after the handler's field assignments, before it is validated. */
  function Patched(c: Car, input: CarInput): Car {
    c.(make := if TruthyString(input.make) then Trim(input.make.value) else c.make)
     .(model := if TruthyString(input.model) then Trim(input.model.value) else c.model)
     .(year := if TruthyInt(input.year) then input.year.value else c.year)
     .(licensePlate := if TruthyString(input.licensePlate) then NormalizePlate(input.licensePlate.value) else c.licensePlate)
     .(mileage := if TruthyInt(input.mileage) then input.mileage.value else c.mileage)
  }

  /** The setters leave every assigned field normalised. */
  lemma PatchedNormalised(c: Car, input: CarInput)
    requires Normalised(c)
    ensures Normalised(Patched(c, input))
  {
    if TruthyString(input.make) {
      TrimIdempotent(input.make.value);
    }
    if TruthyString(input.model) {
      TrimIdempotent(input.model.value);
    }
    if TruthyString(input.licensePlate) {
      NormalizePlateIdempotent(input.licensePlate.value);
    }
  }

  /**
   * Once the plate check has passed, no other car holds the patched car's
   * plate: either the plate is the car's own, which the unique index keeps
   * to it, or the check found no car with it.
   */
  lemma PatchedPlateIsFree(cars: map<Id, Car>, id: Id, input: CarInput)
    requires PlatesUnique(cars) && id in cars && Normalised(cars[id])
    requires !(PlateChanges(cars[id], input) && PlateTaken(cars, NormalizePlate(input.licensePlate.value)))
    ensures forall other :: other in cars && other != id ==>
      cars[other].licensePlate != Patched(cars[id], input).licensePlate
  {
    if TruthyString(input.licensePlate) && !PlateChanges(cars[id], input) {
      var own := cars[id].licensePlate;
      TrimIdempotent(Upper(own));
      assert NormalizePlate(input.licensePlate.value) == own;
    }
  }

  /**
   * The car's own plate sent back with white space in front of it runs the
   * plate check (its upper case is longer than the stored plate), and the
   * lookup, which trims, finds the car itself: the update is a Conflict.
   */
  lemma PaddedOwnPlateConflicts(cars: map<Id, Car>, id: Id, pad: char)
    requires id in cars && Normalised(cars[id]) && IsSpace(pad)
    ensures var input := CarInput(None, None, None, Some([pad] + cars[id].licensePlate), None);
      PlateChanges(cars[id], input) && PlateTaken(cars, NormalizePlate(input.licensePlate.value))
  {
    var own := cars[id].licensePlate;
    var sent := [pad] + own;
    assert Upper(sent) == [pad] + Upper(own);
    assert TrimStart(Upper(sent)) == TrimStart(Upper(own)) by {
      assert Upper(sent)[1..] == Upper(own);
    }
    assert NormalizePlate(sent) == own;
  }

  /**
   * The mileage ratchet: a service reading raises the car's mileage when it
   * is higher and otherwise leaves the table alone.
   */
  function Ratchet(cars: map<Id, Car>, id: Id, reading: int): map<Id, Car> {
    if id in cars && reading > cars[id].mileage then cars[id := cars[id].(mileage := reading)] else cars
  }

  /**
   * The ratchet only ever raises: the car gets the larger of its mileage and
   * the reading, no car disappears and every other car is as it was.
   */
  lemma RatchetNeverLowers(cars: map<Id, Car>, id: Id, reading: int)
    ensures var after := Ratchet(cars, id, reading);
      && after.Keys == cars.Keys
      && (id in cars ==> after[id] == cars[id].(mileage := if reading > cars[id].mileage then reading else cars[id].mileage))
      && (forall other :: other in cars && other != id ==> after[other] == cars[other])
  {
  }

  class CarRegistry {
    /** The year bound of the schema, fixed when the schema is loaded. */
    const currentYear: int
    var cars: map<Id, Car>
    var nextId: Id

    /** Every stored car passed the schema, and the unique index holds. */
    ghost predicate Valid()
      reads this
    {
      TableValid(cars, nextId, currentYear)
    }

    constructor (currentYear: int)
      ensures Valid()
      ensures this.currentYear == currentYear && cars == map[]
    {
      this.currentYear := currentYear;
      cars := map[];
      nextId := 0;
    }

    /** GET /cars: every car exactly once, ascending by make, then model. */
    method List() returns (r: seq<(Id, Car)>)
      ensures forall i :: 0 <= i < |r| ==> r[i].0 in cars && cars[r[i].0] == r[i].1
      ensures forall id :: id in cars ==> exists i :: 0 <= i < |r| && r[i].0 == id
      ensures forall i, j :: 0 <= i < j < |r| ==> r[i].0 != r[j].0
      ensures forall i, j :: 0 <= i < j < |r| ==> ByMakeModel(r[i], r[j])
    {
      forall a, b ensures ByMakeModel(a, b) || ByMakeModel(b, a) {
        ByMakeModelTotal(a, b);
      }
      forall a, b, c | ByMakeModel(a, b) && ByMakeModel(b, c) ensures ByMakeModel(a, c) {
        ByMakeModelTransitive(a, b, c);
      }
      r := FindSorted(cars, _ => true, ByMakeModel);
    }

    /** GET /cars/:id. */
    function Find(id: Id): (r: Result<Car>)
      reads this
      ensures r.Ok? <==> id in cars
      ensures r.Ok? ==> r.value == cars[id]
      ensures r.Err? ==> r.error == NotFound
    {
      if id in cars then Ok(cars[id]) else Err(NotFound)
    }

    /**
     * POST /cars. A missing plate fails before anything is read; a plate some
     * car already has is a Conflict; otherwise the schema decides, and a car
     * it accepts is stored under a fresh identifier.
     */
    method Create(input: CarInput) returns (r: Result<Id>)
      requires Valid()
      modifies this
      ensures Valid()
      ensures input.licensePlate.None? ==> r == Err(Validation)
      ensures input.licensePlate.Some? ==>
        (r == Err(Conflict) <==> PlateTaken(old(cars), NormalizePlate(input.licensePlate.value)))
      ensures r.Err? ==> r.error != NotFound
      ensures r.Ok? <==>
        && input.licensePlate.Some?
        && !PlateTaken(old(cars), NormalizePlate(input.licensePlate.value))
        && Build(input, currentYear).Ok?
      ensures r.Err? ==> unchanged(this)
      ensures r.Ok? ==>
        && r.value !in old(cars)
        && cars == old(cars)[r.value := Build(input, currentYear).value]
        && cars[r.value].licensePlate == NormalizePlate(input.licensePlate.value)
    {
      if input.licensePlate.None? {
        return Err(Validation);
      }
      var plate := NormalizePlate(input.licensePlate.value);
      if PlateTaken(cars, plate) {
        return Err(Conflict);
      }
      var built := Build(input, currentYear);
      if built.Err? {
        return Err(Validation);
      }
      var id := nextId;
      nextId := nextId + 1;
      WriteKeepsTableValid(cars, nextId, currentYear, id, built.value);
      cars := cars[id := built.value];
      r := Ok(id);
    }

    /**
     * PATCH /cars/:id. Only truthy fields are assigned; the plate check runs
     * only when the normalised plate differs from the car's own; then the
     * schema validates the whole car before it is written back.
     */
    method Patch(id: Id, input: CarInput) returns (r: Result<Car>)
      requires Valid()
      modifies this
      ensures Valid()
      ensures r == Err(NotFound) <==> id !in old(cars)
      ensures r == Err(Conflict) <==>
        id in old(cars) && PlateChanges(old(cars)[id], input)
        && PlateTaken(old(cars), NormalizePlate(input.licensePlate.value))
      ensures r == Err(Validation) <==>
        id in old(cars) && r != Err(Conflict) && !Conforms(Patched(old(cars)[id], input), currentYear)
      ensures r.Err? ==> unchanged(this)
      ensures r.Ok? ==> id in old(cars) && cars == old(cars)[id := r.value] && nextId == old(nextId)
      ensures r.Ok? ==>
        var was := old(cars)[id];
        && r.value.make == (if TruthyString(input.make) then Trim(input.make.value) else was.make)
        && r.value.model == (if TruthyString(input.model) then Trim(input.model.value) else was.model)
        && r.value.year == (if TruthyInt(input.year) then input.year.value else was.year)
        && r.value.licensePlate ==
             (if TruthyString(input.licensePlate) then NormalizePlate(input.licensePlate.value) else was.licensePlate)
        && r.value.mileage == (if TruthyInt(input.mileage) then input.mileage.value else was.mileage)
    {
      if id !in cars {
        return Err(NotFound);
      }
      var car := cars[id];
      if PlateChanges(car, input) {
        if PlateTaken(cars, NormalizePlate(input.licensePlate.value)) {
          return Err(Conflict);
        }
      }
      if TruthyString(input.make) {
        car := car.(make := Trim(input.make.value));
      }
      if TruthyString(input.model) {
        car := car.(model := Trim(input.model.value));
      }
      if TruthyInt(input.year) {
        car := car.(year := input.year.value);
      }
      if TruthyString(input.licensePlate) {
        car := car.(licensePlate := NormalizePlate(input.licensePlate.value));
      }
      if TruthyInt(input.mileage) {
        car := car.(mileage := input.mileage.value);
      }
      assert car == Patched(cars[id], input);
      if !Conforms(car, currentYear) {
        return Err(Validation);
      }
      PatchedNormalised(cars[id], input);
      PatchedPlateIsFree(cars, id, input);
      WriteKeepsTableValid(cars, nextId, currentYear, id, car);
      cars := cars[id := car];
      r := Ok(car);
    }

    /**
     * DELETE /cars/:id: removes that car alone. Only the registry is
     * modified, so maintenance records that refer to the car stay.
     */
    method Delete(id: Id) returns (r: Result<()>)
      requires Valid()
      modifies this
      ensures Valid()
      ensures r == Err(NotFound) <==> id !in old(cars)
      ensures r.Err? ==> r.error == NotFound && unchanged(this)
      ensures r.Ok? ==> cars == old(cars) - {id} && nextId == old(nextId)
    {
      if id !in cars {
        return Err(NotFound);
      }
      cars := cars - {id};
      r := Ok(());
    }

    /**
     * The write the maintenance handlers make once a service reading exceeds
     * the car's mileage: `car.mileage = reading` and the car is saved. The
     * save cannot fail: a higher mileage keeps a conforming car conforming
     * and the plate is untouched.
     */
    method RaiseMileage(id: Id, reading: int)
      requires Valid()
      requires id in cars && reading > cars[id].mileage
      modifies this
      ensures Valid()
      ensures nextId == old(nextId)
      ensures cars == Ratchet(old(cars), id, reading)
    {
      var car := cars[id];
      car := car.(mileage := reading);
      WriteKeepsTableValid(cars, nextId, currentYear, id, car);
      cars := cars[id := car];
    }
  }
}
