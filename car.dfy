/**
 * The Car document schema: its fields, the setters that run when a field is
 * assigned (trim, upper case), and the validators that run on save (required,
 * year bounds, mileage minimum). The unique index on the licence plate is a
 * property of a whole table, PlatesUnique.
 */
module CarSchema {
  import opened Wrappers
  import opened Text
  import opened Store

  datatype Car = Car(make: string, model: string, year: int, licensePlate: string, mileage: int)

  /** A request body for a car: every field may be missing. */
  datatype CarInput = CarInput(
    make: Option<string>,
    model: Option<string>,
    year: Option<int>,
    licensePlate: Option<string>,
    mileage: Option<int>)

  const MinYear: int := 1900

  /** The licence plate setters: upper case, then trim. */
  function NormalizePlate(p: string): string {
    Trim(Upper(p))
  }

  /** Storing a plate that was already stored does not change it. */
  lemma NormalizePlateIdempotent(p: string)
    ensures NormalizePlate(NormalizePlate(p)) == NormalizePlate(p)
  {
    var u := Upper(p);
    var t := Trim(u);
    UpperIsUpper(p);
    TrimKeepsCharacters(u);
    forall i | 0 <= i < |t| ensures UpperChar(t[i]) == t[i] {
      assert t[i] in u;
    }
    UpperOfUpper(t);
    TrimIdempotent(u);
  }

  /** Plates that differ only in letter case are the same stored plate. */
  lemma NormalizePlateIgnoresCase(p: string, q: string)
    requires Upper(p) == Upper(q)
    ensures NormalizePlate(p) == NormalizePlate(q)
  {
  }

  /** Every field is as its setters leave it. */
  ghost predicate Normalised(c: Car) {
    && c.make == Trim(c.make)
    && c.model == Trim(c.model)
    && c.licensePlate == NormalizePlate(c.licensePlate)
  }

  /** The schema's validators: the required strings are non-empty, the bounds hold. */
  predicate Conforms(c: Car, currentYear: int) {
    && c.make != ""
    && c.model != ""
    && MinYear <= c.year <= currentYear
    && c.licensePlate != ""
    && c.mileage >= 0
  }

  /**
   * The document `new Car(body)` builds and `save()` validates: Ok exactly
   * when every field is present and the validators accept the values the
   * setters produce; the stored strings are trimmed and the plate upper-cased.
   */
  function Build(input: CarInput, currentYear: int): (r: Result<Car>)
    ensures r.Ok? <==>
      && input.make.Some? && Trim(input.make.value) != ""
      && input.model.Some? && Trim(input.model.value) != ""
      && input.year.Some? && MinYear <= input.year.value <= currentYear
      && input.licensePlate.Some? && NormalizePlate(input.licensePlate.value) != ""
      && input.mileage.Some? && input.mileage.value >= 0
    ensures r.Err? ==> r.error == Validation
    ensures r.Ok? ==>
      && r.value.make == Trim(input.make.value)
      && r.value.model == Trim(input.model.value)
      && r.value.year == input.year.value
      && r.value.licensePlate == NormalizePlate(input.licensePlate.value)
      && r.value.mileage == input.mileage.value
      && Normalised(r.value)
  {
    if input.make.None? || input.model.None? || input.year.None?
      || input.licensePlate.None? || input.mileage.None? then
      Err(Validation)
    else
      var c := Car(Trim(input.make.value), Trim(input.model.value), input.year.value,
                   NormalizePlate(input.licensePlate.value), input.mileage.value);
      TrimIdempotent(input.make.value);
      TrimIdempotent(input.model.value);
      NormalizePlateIdempotent(input.licensePlate.value);
      if Conforms(c, currentYear) then Ok(c) else Err(Validation)
  }

  /** The unique index on licencePlate: no two cars in the table share a plate. */
  ghost predicate PlatesUnique(cars: map<Id, Car>) {
    forall a, b :: a in cars && b in cars && a != b ==> cars[a].licensePlate != cars[b].licensePlate
  }

  /** Some car in the table already has plate p (the route's findOne query). */
  predicate PlateTaken(cars: map<Id, Car>, p: string) {
    exists id :: id in cars && cars[id].licensePlate == p
  }

  /**
   * Writing a car under id keeps plates unique exactly when no other car
   * already holds its plate.
   */
  lemma WriteKeepsPlatesUnique(cars: map<Id, Car>, id: Id, c: Car)
    requires PlatesUnique(cars)
    ensures PlatesUnique(cars[id := c]) <==>
      forall other :: other in cars && other != id ==> cars[other].licensePlate != c.licensePlate
  {
    var m := cars[id := c];
    if !forall other :: other in cars && other != id ==> cars[other].licensePlate != c.licensePlate {
      var other :| other in cars && other != id && cars[other].licensePlate == c.licensePlate;
      assert m[other].licensePlate == m[id].licensePlate;
    }
  }

  /**
   * The registry's invariant: identifiers below the next fresh one, every
   * stored car accepted by the schema and normalised by its setters, and the
   * unique index intact.
   */
  ghost predicate TableValid(cars: map<Id, Car>, nextId: Id, currentYear: int) {
    && (forall id :: id in cars ==> id < nextId)
    && (forall id :: id in cars ==> Conforms(cars[id], currentYear) && Normalised(cars[id]))
    && PlatesUnique(cars)
  }

  /** Writing a conforming, normalised car whose plate no other car holds keeps the invariant. */
  lemma WriteKeepsTableValid(cars: map<Id, Car>, nextId: Id, currentYear: int, id: Id, c: Car)
    requires TableValid(cars, nextId, currentYear)
    requires id < nextId && Conforms(c, currentYear) && Normalised(c)
    requires forall other :: other in cars && other != id ==> cars[other].licensePlate != c.licensePlate
    ensures TableValid(cars[id := c], nextId, currentYear)
  {
    WriteKeepsPlatesUnique(cars, id, c);
  }
}
