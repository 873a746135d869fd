/**
 * The Maintenance document schema: parts and records, the setters that trim
 * strings, the validators that run on save, and the pre-save hook that
 * overwrites totalCost with the sum of cost times quantity over the parts.
 */
module MaintenanceSchema {
  import opened Wrappers
  import opened Text
  import opened Store

  datatype Part = Part(name: string, cost: int, quantity: int)

  datatype Record = Record(
    carId: Id,
    date: int,
    description: string,
    mileage: int,
    parts: seq<Part>,
    totalCost: int,
    notes: Option<string>)

  /** A request body for a record: every field may be missing. */
  datatype RecordInput = RecordInput(
    carId: Option<Id>,
    date: Option<int>,
    description: Option<string>,
    mileage: Option<int>,
    parts: Option<seq<Part>>,
    notes: Option<string>,
    totalCost: Option<int>)

  function LineCost(p: Part): int {
    p.cost * p.quantity
  }

  /** `parts.reduce((total, part) => total + part.cost * part.quantity, 0)`, folding from the left. */
  function TotalCost(parts: seq<Part>): int {
    if |parts| == 0 then 0 else TotalCost(parts[..|parts| - 1]) + LineCost(parts[|parts| - 1])
  }

  /** The plain sum of the line costs, taken from the front. */
  function SumOfLines(parts: seq<Part>): int {
    if |parts| == 0 then 0 else LineCost(parts[0]) + SumOfLines(parts[1..])
  }

  lemma {:induction false} TotalCostAppend(a: seq<Part>, b: seq<Part>)
    ensures TotalCost(a + b) == TotalCost(a) + TotalCost(b)
  {
    if |b| > 0 {
      var b' := b[..|b| - 1];
      assert (a + b)[..|a + b| - 1] == a + b';
      TotalCostAppend(a, b');
    } else {
      assert a + b == a;
    }
  }

  /** The left fold from 0 is the sum of cost times quantity over the parts. */
  lemma {:induction false} TotalCostIsSum(parts: seq<Part>)
    ensures TotalCost(parts) == SumOfLines(parts)
  {
    if |parts| > 0 {
      TotalCostIsSum(parts[1..]);
      TotalCostAppend([parts[0]], parts[1..]);
      assert [parts[0]] + parts[1..] == parts;
      assert TotalCost([parts[0]]) == LineCost(parts[0]) by {
        assert [parts[0]][..0] == [];
      }
    }
  }

  /** The part validators: a name, cost at least 0, quantity at least 1. */
  predicate PartConforms(p: Part) {
    p.name != "" && p.cost >= 0 && p.quantity >= 1
  }

  predicate PartsConform(parts: seq<Part>) {
    forall i :: 0 <= i < |parts| ==> PartConforms(parts[i])
  }

  /** Parts with non-negative costs and quantities never sum to a negative total. */
  lemma {:induction false} TotalCostNonNegative(parts: seq<Part>)
    requires forall i :: 0 <= i < |parts| ==> parts[i].cost >= 0 && parts[i].quantity >= 0
    ensures TotalCost(parts) >= 0
  {
    if |parts| > 0 {
      var last := parts[|parts| - 1];
      TotalCostNonNegative(parts[..|parts| - 1]);
      assert last.cost * last.quantity >= 0;
    }
  }

  /** The part name setter. */
  function CastPart(p: Part): Part {
    p.(name := Trim(p.name))
  }

  function CastParts(parts: seq<Part>): (r: seq<Part>)
    ensures |r| == |parts|
  {
    seq(|parts|, i requires 0 <= i < |parts| => CastPart(parts[i]))
  }

  /** Trimming part names leaves the total unchanged. */
  lemma {:induction false} CastKeepsTotal(parts: seq<Part>)
    ensures TotalCost(CastParts(parts)) == TotalCost(parts)
  {
    if |parts| > 0 {
      var init := parts[..|parts| - 1];
      CastKeepsTotal(init);
      assert CastParts(parts)[..|parts| - 1] == CastParts(init);
    }
  }

  function CastNotes(notes: Option<string>): Option<string> {
    if notes.Some? then Some(Trim(notes.value)) else None
  }

  /**
   * The record validators: a non-empty description, mileage at least 0,
   * conforming parts, and totalCost at least 0 (carId, date and mileage are
   * required, which a Record always has).
   */
  predicate Conforms(r: Record) {
    && r.description != ""
    && r.mileage >= 0
    && PartsConform(r.parts)
    && r.totalCost >= 0
  }

  /** What the pre-save hook leaves: totalCost derived from the parts. */
  function WithTotal(r: Record): Record {
    r.(totalCost := TotalCost(r.parts))
  }

  /**
   * The pre-save hook, run after validation: it folds the parts from 0 and
   * overwrites totalCost with the result, whatever totalCost held before.
   */
  method RecomputeTotal(doc: Record) returns (saved: Record)
    ensures saved == doc.(totalCost := saved.totalCost)
    ensures saved.totalCost == TotalCost(doc.parts) == SumOfLines(doc.parts)
    ensures doc.parts == [] ==> saved.totalCost == 0
    ensures PartsConform(doc.parts) ==> saved.totalCost >= 0
  {
    var total := 0;
    for i := 0 to |doc.parts|
      invariant total == TotalCost(doc.parts[..i])
    {
      assert doc.parts[..i + 1][..i] == doc.parts[..i];
      total := total + doc.parts[i].cost * doc.parts[i].quantity;
    }
    assert doc.parts[..|doc.parts|] == doc.parts;
    TotalCostIsSum(doc.parts);
    if PartsConform(doc.parts) {
      TotalCostNonNegative(doc.parts);
    }
    saved := doc.(totalCost := total);
  }

  /**
   * The document the create handler builds and validates. The parts are
   * required by the handler itself (it folds them for totalCost), the other
   * fields by the schema; a client-supplied totalCost is never read. The
   * totalCost validator never rejects, since conforming parts sum to at
   * least 0.
   */
  function Build(carId: Id, input: RecordInput): (r: Result<Record>)
    ensures r.Err? ==> r.error == Validation
    ensures r.Ok? <==>
      && input.parts.Some? && PartsConform(CastParts(input.parts.value))
      && input.date.Some?
      && input.description.Some? && Trim(input.description.value) != ""
      && input.mileage.Some? && input.mileage.value >= 0
    ensures r.Ok? ==>
      && r.value.carId == carId
      && r.value.date == input.date.value
      && r.value.description == Trim(input.description.value)
      && r.value.mileage == input.mileage.value
      && r.value.parts == CastParts(input.parts.value)
      && r.value.totalCost == TotalCost(r.value.parts)
      && r.value.notes == CastNotes(input.notes)
      && Conforms(r.value)
  {
    if input.parts.None? || input.date.None? || input.description.None? || input.mileage.None? then
      Err(Validation)
    else
      var parts := CastParts(input.parts.value);
      var doc := Record(carId, input.date.value, Trim(input.description.value), input.mileage.value,
                        parts, TotalCost(input.parts.value), CastNotes(input.notes));
      CastKeepsTotal(input.parts.value);
      assert PartsConform(parts) ==> TotalCost(parts) >= 0 by {
        if PartsConform(parts) {
          TotalCostNonNegative(parts);
        }
      }
      if Conforms(doc) then Ok(doc) else Err(Validation)
  }

  /** Whatever totalCost the client sends, the built record is the same. */
  lemma BuildIgnoresClientTotal(carId: Id, input: RecordInput, claimed: Option<int>)
    ensures Build(carId, input.(totalCost := claimed)) == Build(carId, input)
  {
  }

  /** Running the hook on a record it already saved changes nothing. */
  lemma WithTotalIdempotent(r: Record)
    ensures WithTotal(WithTotal(r)) == WithTotal(r)
    ensures WithTotal(r).totalCost == SumOfLines(r.parts)
  {
    TotalCostIsSum(r.parts);
  }

  /**
   * The record invariant the hook establishes on every save: the record
   * passed validation and its totalCost is the sum over its parts.
   */
  ghost predicate Stored(r: Record) {
    Conforms(r) && r.totalCost == TotalCost(r.parts)
  }

  ghost predicate TableValid(records: map<Id, Record>, nextId: Id) {
    forall id :: id in records ==> id < nextId && Stored(records[id])
  }

  /** Saving a validated record with its derived total keeps the invariant. */
  lemma WriteKeepsTableValid(records: map<Id, Record>, nextId: Id, id: Id, r: Record)
    requires TableValid(records, nextId) && id < nextId && Stored(r)
    ensures TableValid(records[id := r], nextId)
  {
  }
}
