/**
 * `WarehouseFiltersDto`: one (field, value) filter of the unit listing, and
 * the scan that tells whether a list of them filters on a given field.
 */
module FiltersDto {
  import opened Php

  class WarehouseFilter {
    var field: string
    var value: Scalar

    constructor(field: string, value: Scalar)
      ensures this.field == field && this.value == value
    {
      this.field := field;
      this.value := value;
    }

    function GetField(): string
      reads this
    {
      field
    }

    function GetValue(): Scalar
      reads this
    {
      value
    }

    /** Replaces the field; the value stays. */
    method SetField(field: string)
      modifies this
      ensures this.field == field && value == old(value)
    {
      this.field := field;
    }

    /** Replaces the value; the field stays. */
    method SetValue(value: Scalar)
      modifies this
      ensures this.value == value && field == old(field)
    {
      this.value := value;
    }
  }

  /** `strlen($v)` is not zero: "0" has a length, null has none. */
  predicate HasLength(v: Scalar)
  {
    |ToStr(v)| > 0
  }

  /** Some filter of the list is on `field` with a value of non-zero length. */
  predicate FieldSet(filters: seq<WarehouseFilter>, field: string)
    reads set f | f in filters
  {
    exists i | 0 <= i < |filters| :: filters[i].field == field && HasLength(filters[i].value)
  }

  /** `checkFieldExist`: scans the list and stops at the first filter on
      `field` whose value has a length. */
  method CheckFieldExist(filters: seq<WarehouseFilter>, field: string) returns (found: bool)
    ensures found <==> FieldSet(filters, field)
    ensures filters == [] ==> !found
  {
    var i := 0;
    while i < |filters|
      invariant 0 <= i <= |filters|
      invariant forall j | 0 <= j < i :: !(filters[j].field == field && HasLength(filters[j].value))
    {
      var item := filters[i];
      if item.GetField() == field {
        if HasLength(item.GetValue()) {
          return true;
        }
      }
      i := i + 1;
    }
    return false;
  }

  /** A value "0" has a length, so a filter `status_id = "0"` is seen. */
  lemma ZeroHasLength()
    ensures HasLength(Str("0")) && !HasLength(Str("")) && !HasLength(Null)
  {
  }
}
