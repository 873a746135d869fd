# Car maintenance tracker: registry and ledger

This project models the server core of a car maintenance tracker. The core has
two record managers over a document store:

- The **car registry** stores cars. Each car has a make, model, year, licence
  plate and mileage. The registry lists, reads, creates, partially updates and
  deletes cars. Licence plates are stored trimmed and upper-cased, and no two
  cars share one.
- The **maintenance ledger** stores service records, each for one car. A record
  has a date, description, mileage reading, a list of parts, notes and a
  derived `totalCost`. Creating or updating a record can raise the car's
  mileage, never lower it.

The store is modelled as in-memory tables (`map<Id, Car>`, `map<Id, Record>`)
held by two classes, `CarRoutes.CarRegistry` and
`MaintenanceRoutes.MaintenanceLedger`, whose methods change those tables in
place. Each handler's failure is one error kind: `NotFound` (the 404s),
`Conflict` (a licence plate that is already taken) or `Validation` (a save the
schema rejects, or a request body the handler cannot read).

Modules:

- `Wrappers`: `Option`, `Result`, the error kinds, and JavaScript truthiness for
  optional numbers and strings.
- `Text`: ASCII `toUpperCase`, `trim` over JavaScript's white-space set, and
  the code-point order on strings that sorting uses.
- `Store`: `find(filter).sort(order)` over one table, as the method `FindSorted`.
- `CarSchema`: the Car document, its setters and validators, and the unique
  plate index as a table invariant.
- `CarRoutes`: the car handlers, as `CarRegistry`.
- `MaintenanceSchema`: parts, records, their validators and the pre-save hook
  that recomputes `totalCost`.
- `MaintenanceRoutes`: the maintenance handlers, as `MaintenanceLedger`, which
  holds the registry it ratchets.

Modelling choices:

- **Truthiness.** A partial update assigns a field only when the value sent is
  truthy. `0` and `""` count as not sent. A `parts` array counts as sent even
  when it is empty.
- **Plate normalisation.** One plate normalisation, trim after upper case, is
  used both for the duplicate lookup and for the stored value. Mongoose casts a
  query value through the field's setters, so the plate the lookup searches for
  is the plate that would be stored. The update handler decides whether to run
  the lookup by comparing the upper case alone, untrimmed, with the car's
  stored plate. So the car's own plate sent back with white space around it
  runs the lookup, which finds the car itself and answers Conflict
  (`PaddedOwnPlateConflicts`).
- **The unique index.** It is the registry invariant `PlatesUnique`. The route's
  own check runs first and rejects every plate the index would reject, so the
  index's rejection path never fires.
- **Order of validation and hook.** Mongoose validates a document before the
  user pre-save hook runs. So the `totalCost` that is validated is the one the
  create handler computed, or the stored one on update. The hook then
  overwrites it with the fold over the parts.
- **Request bodies that cannot be read.** A create body without
  `licensePlate`, or a maintenance create body without `parts`, throws a
  TypeError inside the handler. The handler answers 400, which the model
  reports as `Validation`.
- **Missing carId.** A maintenance create without `carId` looks up
  `findById(undefined)`, which finds nothing, so the result is `NotFound`.
- **The mileage write.** The car save inside the mileage ratchet cannot fail.
  A higher mileage keeps a valid car valid, and the plate does not change.
  `RaiseMileage` is that write.
- **Order of the ratchet.** On create the ratchet runs after the record is
  saved, so a rejected record leaves the car as it was. On update it runs
  before the record is validated, so the car keeps the raised mileage even
  when the record is then rejected.
- **The year bound.** `currentYear` is a constant of the registry, fixed when
  it is built, as the schema fixes it when it is loaded.

## Model

The definitions the contracts are stated in have no rows of their own; the
lemmas and methods about them carry their meaning:
`Text.Trim` (Car.js:8) through `Text.TrimIsSlice` and `Text.TrimIdempotent`,
`Text.Upper` (Car.js:26) through `Text.UpperIsUpper` and
`CarSchema.NormalizePlateIgnoresCase`, `CarRoutes.Patched` (cars.js:80-85)
through `CarRoutes.CarRegistry.Patch` and `CarRoutes.PatchedNormalised`,
`CarRoutes.Ratchet` (maintenance.js:53-56) through `CarRoutes.RatchetNeverLowers`,
`MaintenanceRoutes.Patched` (maintenance.js:73-86) and
`MaintenanceRoutes.PatchRatchet` (maintenance.js:75-84) through
`MaintenanceRoutes.MaintenanceLedger.Patch`, whose contract spells out each
field and the ratchet, and `MaintenanceSchema.TotalCost` (Maintenance.js:63-66)
through `MaintenanceSchema.TotalCostIsSum`, `MaintenanceSchema.TotalCostAppend`
and `MaintenanceSchema.TotalCostNonNegative`.

| member | source | states |
|---|---|---|
| CarSchema.Build | server/models/Car.js:5-32 | the save succeeds exactly when make and model are non-blank after trimming, 1900 <= year <= currentYear, the normalised plate is non-empty, and mileage >= 0; every failure is a Validation error; the stored car holds the trimmed strings, the normalised plate, and the year and mileage as sent |
| CarSchema.NormalizePlateIdempotent | server/models/Car.js:21-27 | normalising a stored plate again (upper case, then trim) leaves it unchanged |
| CarSchema.NormalizePlateIgnoresCase | server/models/Car.js:26 | two plates with the same upper case are stored as the same plate |
| CarSchema.WriteKeepsPlatesUnique | server/models/Car.js:24 | writing a car keeps plates unique if and only if no other car already holds its plate |
| CarSchema.WriteKeepsTableValid | server/models/Car.js:5-32 | writing a conforming, normalised car whose plate is free keeps the registry invariant |
| CarRoutes.ByMakeModelTotal | server/routes/cars.js:8 | the make-then-model order compares any two cars |
| CarRoutes.ByMakeModelTransitive | server/routes/cars.js:8 | the make-then-model order is transitive |
| CarRoutes.PatchedNormalised | server/routes/cars.js:80-85 | a normalised car stays normalised after the update handler's field assignments |
| CarRoutes.PatchedPlateIsFree | server/routes/cars.js:65-77 | once the plate check passes, or is skipped because the upper case of the sent plate is the car's own plate, no other car holds the updated car's plate |
| CarRoutes.PaddedOwnPlateConflicts | server/routes/cars.js:65-77 | the car's own plate sent with a white-space character in front runs the plate check, and the trimming lookup finds the car itself, so the update is a Conflict |
| CarRoutes.RatchetNeverLowers | server/routes/maintenance.js:53-56 | the mileage ratchet gives the car the larger of its mileage and the reading; every other car and the set of cars stay the same |
| CarRoutes.CarRegistry.List | server/routes/cars.js:6-13 | every car is listed exactly once with its own document, in ascending order by make and then model: every earlier car is ordered at or before every later one |
| CarRoutes.CarRegistry.Find | server/routes/cars.js:16-26 | Ok with the stored car if the id exists, NotFound otherwise |
| CarRoutes.CarRegistry.Create | server/routes/cars.js:29-54 | a missing plate is a Validation error; Conflict if and only if some car holds the normalised plate; Ok if and only if the plate is free and the schema accepts the car; on success only the new car is added, under a fresh id, with the normalised plate; on failure nothing changes; plates stay unique |
| CarRoutes.CarRegistry.Patch | server/routes/cars.js:57-92 | NotFound if and only if the id is unknown; Conflict if and only if the upper case of a truthy plate differs from the car's own plate and some car holds the plate once normalised; Validation if and only if the updated car fails the schema; on success only truthy fields are overwritten and only that car changes; on failure nothing changes; plates stay unique |
| CarRoutes.CarRegistry.Delete | server/routes/cars.js:95-106 | NotFound if and only if the id is unknown; otherwise exactly that car is removed; the ledger's records are outside what it may modify |
| CarRoutes.CarRegistry.RaiseMileage | server/routes/maintenance.js:53-56 | setting a higher reading on an existing car is the ratchet's table and keeps the registry invariant |
| MaintenanceSchema.TotalCostIsSum | server/models/Maintenance.js:62-68 | the hook's left fold from 0 equals the sum of cost times quantity over the parts |
| MaintenanceSchema.TotalCostAppend | server/models/Maintenance.js:63-66 | the fold over two lists of parts put together is the sum of their folds |
| MaintenanceSchema.TotalCostNonNegative | server/models/Maintenance.js:9-18 | parts with costs and quantities of at least 0 sum to a total of at least 0, so the totalCost minimum never rejects |
| MaintenanceSchema.CastKeepsTotal | server/models/Maintenance.js:3-8 | trimming the part names leaves the total unchanged |
| MaintenanceSchema.RecomputeTotal | server/models/Maintenance.js:62-68 | the hook changes totalCost and nothing else; the new totalCost is the sum of cost times quantity over the parts, 0 for no parts, and at least 0 for conforming parts |
| MaintenanceSchema.Build | server/models/Maintenance.js:23-56 | the save succeeds exactly when parts are present and conform, the date is present, the description is non-blank after trimming, and mileage is present and >= 0; every failure is a Validation error; the stored record holds the trimmed strings and the part total |
| MaintenanceSchema.BuildIgnoresClientTotal | server/routes/maintenance.js:40-48 | the totalCost a client sends has no effect on the record that is built |
| MaintenanceSchema.WithTotalIdempotent | server/models/Maintenance.js:62-68 | running the hook twice gives the same record as running it once, with the sum over the parts as totalCost |
| MaintenanceSchema.WriteKeepsTableValid | server/models/Maintenance.js:62-68 | writing a validated record that carries its derived total keeps the ledger invariant |
| MaintenanceRoutes.MaintenanceLedger.ListByCar | server/routes/maintenance.js:7-16 | exactly the records of that car, each once with its own document, newest date first |
| MaintenanceRoutes.MaintenanceLedger.Find | server/routes/maintenance.js:19-29 | Ok with the stored record if the id exists, NotFound otherwise |
| MaintenanceRoutes.MaintenanceLedger.Create | server/routes/maintenance.js:32-62 | NotFound if and only if carId is missing or names no car; Validation if and only if the car exists but the schema rejects the record; on failure neither table changes; on success only the new record is added, under a fresh id, with totalCost equal to the sum over its parts, and the car's mileage becomes the larger of its old mileage and the reading; the registry hands out no identifier |
| MaintenanceRoutes.MaintenanceLedger.Patch | server/routes/maintenance.js:65-93 | NotFound if and only if the id is unknown, and then no car changes; never Conflict, so Ok if and only if the record exists and the updated record conforms; the registry hands out no identifier; a truthy mileage ratchets the record's car whether or not the record is then rejected; Validation if and only if the updated record fails the schema; on success only truthy fields are overwritten, carId is kept, totalCost is recomputed from the resulting parts, and no other record changes |
| MaintenanceRoutes.MaintenanceLedger.Delete | server/routes/maintenance.js:96-107 | NotFound if and only if the id is unknown; otherwise exactly that record is removed, and the registry, with every car's mileage, is unchanged |
| Store.FindSorted | server/routes/maintenance.js:9-11 | every document the filter keeps is listed exactly once with its own id, nothing else is listed, adjacent entries are in the given order, and under a transitive order every earlier entry is before every later one |
| Store.SortedByAll | server/routes/cars.js:8 | under a transitive order, a listing whose adjacent entries are in order has every earlier entry before every later one |
| Store.InsertionPoint | server/routes/cars.js:8 | the position after every entry ordered at or before the new one, and before the first entry that is not |
| Store.InsertKeepsSorted | server/routes/cars.js:8 | inserting between an entry ordered before and an entry ordered after keeps the listing sorted |
| Text.TrimIdempotent | server/models/Car.js:8 | trimming a trimmed string changes nothing |
| Text.TrimIsSlice | server/models/Car.js:8 | trim returns a contiguous piece of its input with no white space at either end, and everything it drops before and after that piece is white space |
| Text.TrimKeepsCharacters | server/models/Car.js:8 | trim introduces no characters that were not in its input |
| Text.UpperIsUpper | server/models/Car.js:26 | every character of an upper-cased string is its own upper case |
| Text.StrLeTotal | server/routes/cars.js:8 | the string order compares any two strings |
| Text.StrLeAntisymmetric | server/routes/cars.js:8 | two strings each ordered before the other are equal |
| Text.StrLeTransitive | server/routes/cars.js:8 | the string order is transitive |

## Left out

- HTTP routing, request parsing, status codes and message texts. Only the error kind of each response is kept.
- The store's own failures (the 500 answers) and a failed write. Every read and write of a table succeeds.
- async/await and the check-then-act races between concurrent requests on plate uniqueness and on the mileage ratchet. Handlers run one at a time.
- ObjectId generation and the `timestamps` fields. Identifiers are fresh naturals, and malformed identifiers (a CastError) are not modelled.
- Mongoose type casting of numbers and dates. Dates, costs, quantities, years and mileages are integers.
- Floating-point arithmetic in the cost sum. Costs and quantities are integers, so the sum is exact.
- Unicode case mapping. Upper case covers ASCII letters only.
- The secondary indexes on `licensePlate` and on `carId, date`. They only speed up queries.
- Parts without a cost or quantity. Every `Part` in the model has both fields, so the part validators that make them required are not modelled. The validators for a non-empty name, cost >= 0 and quantity >= 1 are modelled.
- The order among records with the same date, and among cars with the same make and model. The store does not fix an order for ties, so the contracts do not state one.
- The unique index's own rejection. The route's plate check always runs first, so the model states the index as the invariant `PlatesUnique` that every method keeps.
- A plate lookup by upper case alone. The create and update handlers look a plate up by its upper case, and the store casts that query value through the field's setters, so the model looks it up trimmed as well.
