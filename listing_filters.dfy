/**
 * `WarehouseService::getFilters`: the conditions the unit listing adds to its
 * query for a list of (field, value) filters, and which stored units the
 * resulting query lets through.
 */
module ListingFilters {
  import opened Php
  import opened WarehouseEntity
  import opened WarehouseStatus
  import opened FiltersDto

  /** One condition the query builder is given. */
  datatype Condition =
      /** `warehouse.serial like ("%needle%")` */
    | SerialLike(needle: string)
      /** `joinWith(['model m'])` and `m.id = v` */
    | ModelIs(v: Scalar)
    | StatusIs(v: Scalar)
    | ResponsibleIs(v: Scalar)
    | CompanyIs(v: Scalar)
      /** `warehouse.responsible is null` */
    | ResponsibleIsNull
      /** `amount = 1 and length(serial)` */
    | SingleDevice
      /** `amount > 1` */
    | Batch
      /** `warehouse.status_id <> 5` */
    | NotInstalled

  /** A serial that is neither NULL nor empty: `length(serial)` is true. */
  predicate HasSerial(u: Unit)
  {
    u.serial != Null && ToStr(u.serial) != ""
  }

  /** Whether the stored unit `u` meets condition `c`. */
  predicate Holds(c: Condition, u: Unit, models: map<int, CatalogModel>)
  {
    match c
    case SerialLike(needle) => u.serial != Null && Contains(ToStr(u.serial), needle)
    case ModelIs(v) => ModelOf(u, models).Some? && SqlMatches(Int(ToInt(u.modelId)), v)
    case StatusIs(v) => SqlMatches(u.statusId, v)
    case ResponsibleIs(v) => SqlMatches(u.responsible, v)
    case CompanyIs(v) => SqlMatches(u.companyId, v)
    case ResponsibleIsNull => u.responsible == Null
    case SingleDevice => SqlMatches(u.amount, Int(1)) && HasSerial(u)
    case Batch => u.amount != Null && ToInt(u.amount) > 1
    case NotInstalled => u.statusId != Null && ToInt(u.statusId) != AT_WORK
  }

  /** The query lets `u` through: every condition holds. */
  predicate Admits(query: seq<Condition>, u: Unit, models: map<int, CatalogModel>)
  {
    forall i | 0 <= i < |query| :: Holds(query[i], u, models)
  }

  /** `andFilterWhere` drops a condition whose value is null or blank. */
  predicate FilterValueEmpty(v: Scalar)
  {
    v == Null || (v.Str? && Trim(v.s) == "")
  }

  /** PHP's `$v == n` for an integer `n`: an integer compares by value, an
      integer-shaped string by its reading, anything else is unequal. */
  predicate LooseEquals(v: Scalar, n: int)
  {
    match v
    case Int(i) => i == n
    case Str(s) => IsIntegerString(s) && StrToInt(s) == n
    case _ => false
  }

  /** What one filter demands of a unit, stated field by field: an unknown
      field or a value without length demands nothing; `responsible_id` "0"
      asks for no responsible user; `warehouse_type` 1 asks for a single
      device with a serial, 2 for a batch, any other type for nothing. */
  predicate FilterAccepts(field: string, v: Scalar, u: Unit, models: map<int, CatalogModel>)
  {
    !HasLength(v) ||
    (if field == "serial" then u.serial != Null && Contains(ToStr(u.serial), Trim(ToStr(v)))
     else if field == "model" then
       FilterValueEmpty(v) || (ModelOf(u, models).Some? && ToInt(u.modelId) == ToInt(v))
     else if field == "status_id" then
       FilterValueEmpty(v) || (u.statusId != Null && ToInt(u.statusId) == ToInt(v))
     else if field == "responsible_id" then
       if LooseEquals(v, 0) then u.responsible == Null
       else FilterValueEmpty(v) || (u.responsible != Null && ToInt(u.responsible) == ToInt(v))
     else if field == "company_id" then
       FilterValueEmpty(v) || (u.companyId != Null && ToInt(u.companyId) == ToInt(v))
     else if field == "warehouse_type" then
       if LooseEquals(v, 1) then u.amount != Null && ToInt(u.amount) == 1 && HasSerial(u)
       else if LooseEquals(v, 2) then u.amount != Null && ToInt(u.amount) > 1
       else true
     else true)
  }

  /** The listing's selection: with no filters every unit that is not
      installed, otherwise the units every filter accepts. */
  predicate PassesFilters(filters: seq<WarehouseFilter>, u: Unit, models: map<int, CatalogModel>)
    reads set f | f in filters
  {
    if filters == [] then u.statusId != Null && ToInt(u.statusId) != AT_WORK
    else forall j | 0 <= j < |filters| :: FilterAccepts(filters[j].field, filters[j].value, u, models)
  }

  /** `getFilters`: one pass over the filters, adding each recognised
      filter's condition to the query. */
  method GetFilters(filters: seq<WarehouseFilter>) returns (query: seq<Condition>)
    ensures forall u, models :: Admits(query, u, models) <==> PassesFilters(filters, u, models)
  {
    if |filters| == 0 {
      query := [NotInstalled];
      forall u, models
        ensures Admits(query, u, models) <==> PassesFilters(filters, u, models)
      {
        assert query[0] == NotInstalled;
      }
      return;
    }
    query := [];
    var i := 0;
    while i < |filters|
      invariant 0 <= i <= |filters|
      invariant forall u, models :: Admits(query, u, models) <==>
                  forall j | 0 <= j < i :: FilterAccepts(filters[j].field, filters[j].value, u, models)
    {
      query := AddFilter(query, filters[i].field, filters[i].value);
      i := i + 1;
    }
  }

  /** The body of the loop for one filter. */
  method AddFilter(query: seq<Condition>, field: string, v: Scalar) returns (query': seq<Condition>)
    ensures forall u, models :: Admits(query', u, models) <==>
              Admits(query, u, models) && FilterAccepts(field, v, u, models)
  {
    query' := query;
    if field == "serial" && HasLength(v) {
      query' := query' + [SerialLike(Trim(ToStr(v)))];
    }
    if field == "model" && HasLength(v) && !FilterValueEmpty(v) {
      query' := query' + [ModelIs(v)];
    }
    if field == "status_id" && HasLength(v) && !FilterValueEmpty(v) {
      query' := query' + [StatusIs(v)];
    }
    if field == "responsible_id" && HasLength(v) {
      if LooseEquals(v, 0) {
        query' := query' + [ResponsibleIsNull];
      } else if !FilterValueEmpty(v) {
        query' := query' + [ResponsibleIs(v)];
      }
    }
    if field == "company_id" && HasLength(v) && !FilterValueEmpty(v) {
      query' := query' + [CompanyIs(v)];
    }
    if field == "warehouse_type" && HasLength(v) {
      if LooseEquals(v, 1) {
        query' := query' + [SingleDevice];
      } else if LooseEquals(v, 2) {
        query' := query' + [Batch];
      }
    }
    forall u, models
      ensures Admits(query', u, models) <==> Admits(query, u, models) && FilterAccepts(field, v, u, models)
    {
      AdmitsAppend(query, query', u, models);
    }
  }

  /** A query is the conditions of a prefix and at most one more. */
  lemma AdmitsAppend(query: seq<Condition>, query': seq<Condition>, u: Unit, models: map<int, CatalogModel>)
    requires |query| <= |query'| <= |query| + 1 && query'[..|query|] == query
    ensures Admits(query', u, models) <==>
              Admits(query, u, models) && (|query'| == |query| || Holds(query'[|query|], u, models))
  {
    if |query'| == |query| + 1 && Admits(query, u, models) && Holds(query'[|query|], u, models) {
      forall i | 0 <= i < |query'|
        ensures Holds(query'[i], u, models)
      {
        if i < |query| {
          assert query'[i] == query[i];
        }
      }
    }
  }

  /** With no filters the listing hides exactly the installed units. */
  lemma NoFiltersHideInstalled(u: Unit, models: map<int, CatalogModel>)
    requires u.statusId.Int?
    ensures PassesFilters([], u, models) <==> u.statusId.i != AT_WORK
  {
  }

  /** Filters on fields the listing does not know change nothing: adding
      one to a non-empty list keeps the selection. */
  lemma UnknownFieldIgnored(filters: seq<WarehouseFilter>, f: WarehouseFilter, u: Unit,
                            models: map<int, CatalogModel>)
    requires filters != []
    requires f.field !in {"serial", "model", "status_id", "responsible_id", "company_id", "warehouse_type"}
    ensures PassesFilters(filters + [f], u, models) <==> PassesFilters(filters, u, models)
  {
    var all := filters + [f];
    if PassesFilters(filters, u, models) {
      forall j | 0 <= j < |all|
        ensures FilterAccepts(all[j].field, all[j].value, u, models)
      {
        if j < |filters| {
          assert all[j] == filters[j];
        }
      }
    } else if PassesFilters(all, u, models) {
      forall j | 0 <= j < |filters|
        ensures FilterAccepts(filters[j].field, filters[j].value, u, models)
      {
        assert all[j] == filters[j];
      }
    }
  }

  /** `responsible_id` "0", " 0" or "00" selects the units with no
      responsible user, whatever they hold otherwise. */
  lemma ZeroResponsibleMeansUnassigned(u: Unit, models: map<int, CatalogModel>)
    ensures FilterAccepts("responsible_id", Str("0"), u, models) <==> u.responsible == Null
  {
    assert IsIntegerString("0") && StrToInt("0") == 0 by {
      assert LeadingDigits("0") == "0";
    }
  }
}
