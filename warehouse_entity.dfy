/**
 * The `warehouse` table: one stock unit (a device with a serial number, or a
 * batch of consumables with an amount), its `rules()`, its parent/child
 * lineage and the properties `afterFind()` derives after a load.
 */
module WarehouseEntity {
  import opened Php
  import opened Validators
  import opened OrdersWarehouseEntity

  /** A `Warehouse` record: the table's columns, then the three plain
      properties `vendor`, `type` and `order_id` that are not stored. */
  datatype Unit = Unit(
    id: Scalar, companyId: Scalar, shipperId: Scalar, modelId: Scalar, stockId: Scalar,
    serial: Scalar, amount: Scalar, statusId: Scalar, responsible: Scalar, pinCode: Scalar,
    comment: Scalar, userId: Scalar, createDate: Scalar, parentId: Scalar,
    vendor: Scalar, unitType: Scalar, orderId: Scalar)

  /** A row of the `models` catalogue, as far as the warehouse reads it. */
  datatype CatalogModel = CatalogModel(name: string, vendorId: Scalar, typeId: Scalar)

  /** `new Warehouse`: nothing set yet. */
  function NewUnit(): Unit
  {
    Unit(Null, Null, Null, Null, Null, Null, Null, Null, Null, Null, Null, Null, Null, Null, Null, Null, Null)
  }

  const ColumnNames: set<Attr> := {
    Id, CompanyId, ShipperId, ModelId, StockId, Serial, Amount, StatusId,
    Responsible, PinCode, Comment, UserId, CreateDate, ParentId}

  /** The column `a` of `u`; the plain properties and non-column names read as null. */
  function Column(u: Unit, a: Attr): Scalar
  {
    match a
    case Id => u.id
    case CompanyId => u.companyId
    case ShipperId => u.shipperId
    case ModelId => u.modelId
    case StockId => u.stockId
    case Serial => u.serial
    case Amount => u.amount
    case StatusId => u.statusId
    case Responsible => u.responsible
    case PinCode => u.pinCode
    case Comment => u.comment
    case UserId => u.userId
    case CreateDate => u.createDate
    case ParentId => u.parentId
    case _ => Null
  }

  /** `getAttributes()`: the columns by name; the plain properties are not attributes. */
  function Columns(u: Unit): (m: Payload)
    ensures m.Keys == ColumnNames
    ensures forall a | a in m :: m[a] == Column(u, a)
  {
    map a | a in ColumnNames :: Column(u, a)
  }

  function Pick(r: Payload, k: Attr, current: Scalar): Scalar
  {
    if k in r then r[k] else current
  }

  /** `setAttributes($r, false)`: every entry of `r` that names a column is
      assigned; other entries are ignored. */
  function Assign(u: Unit, r: Payload): Unit
  {
    u.(id := Pick(r, Id, u.id), companyId := Pick(r, CompanyId, u.companyId),
       shipperId := Pick(r, ShipperId, u.shipperId), modelId := Pick(r, ModelId, u.modelId),
       stockId := Pick(r, StockId, u.stockId), serial := Pick(r, Serial, u.serial),
       amount := Pick(r, Amount, u.amount), statusId := Pick(r, StatusId, u.statusId),
       responsible := Pick(r, Responsible, u.responsible), pinCode := Pick(r, PinCode, u.pinCode),
       comment := Pick(r, Comment, u.comment), userId := Pick(r, UserId, u.userId),
       createDate := Pick(r, CreateDate, u.createDate), parentId := Pick(r, ParentId, u.parentId))
  }

  /** `$u->attributes = $from->attributes`: a safe-only assignment, so every
      column but the primary key `id`, which no rule mentions, is copied. */
  function CopyAttributes(u: Unit, from: Unit): Unit
  {
    Assign(u, Columns(from) - {Id})
  }

  /** The row an insert or update writes for `u` under primary key `key`. The
      plain properties are not stored. */
  function Persist(u: Unit, key: int): (row: Unit)
    ensures row.id == Int(key)
  {
    Unit(Int(key), IntColumn(u.companyId), IntColumn(u.shipperId), IntColumn(u.modelId),
      IntColumn(u.stockId), TextColumn(u.serial), IntColumn(u.amount), IntColumn(u.statusId),
      IntColumn(u.responsible), TextColumn(u.pinCode), TextColumn(u.comment), IntColumn(u.userId),
      u.createDate, IntColumn(u.parentId), Null, Null, Null)
  }

  /** Every column keeps its `(int)` reading once written, and writing a
      row that was read back changes nothing. */
  lemma PersistKeepsReadings(u: Unit, key: int)
    ensures var row := Persist(u, key);
            ToInt(row.companyId) == ToInt(u.companyId) && ToInt(row.modelId) == ToInt(u.modelId) &&
            ToInt(row.stockId) == ToInt(u.stockId) && ToInt(row.amount) == ToInt(u.amount) &&
            ToInt(row.statusId) == ToInt(u.statusId) && ToInt(row.responsible) == ToInt(u.responsible) &&
            ToInt(row.userId) == ToInt(u.userId) && ToInt(row.parentId) == ToInt(u.parentId) &&
            Persist(row, key) == row
  {
    IntColumnKeepsReading(u.companyId);
    IntColumnKeepsReading(u.modelId);
    IntColumnKeepsReading(u.stockId);
    IntColumnKeepsReading(u.amount);
    IntColumnKeepsReading(u.statusId);
    IntColumnKeepsReading(u.responsible);
    IntColumnKeepsReading(u.userId);
    IntColumnKeepsReading(u.parentId);
    TextColumnIdempotent(u.serial);
    TextColumnIdempotent(u.pinCode);
    TextColumnIdempotent(u.comment);
  }

  /** `setAttributes($r, false)` sets exactly the columns named in `r`: each
      such column takes the request's value, every other column and the three
      plain properties keep theirs. */
  lemma AssignSetsNamedColumns(u: Unit, r: Payload, a: Attr)
    requires a in ColumnNames
    ensures Columns(Assign(u, r))[a] == if a in r then r[a] else Columns(u)[a]
    ensures Assign(u, r).vendor == u.vendor && Assign(u, r).unitType == u.unitType
    ensures Assign(u, r).orderId == u.orderId
  {
    match a
    case Id =>
    case CompanyId =>
    case ShipperId =>
    case ModelId =>
    case StockId =>
    case Serial =>
    case Amount =>
    case StatusId =>
    case Responsible =>
    case PinCode =>
    case Comment =>
    case UserId =>
    case CreateDate =>
    case ParentId =>
  }

  /** Copying attributes carries every column but `id` over. */
  lemma CopyKeepsId(u: Unit, from: Unit, a: Attr)
    requires a in ColumnNames
    ensures var c := CopyAttributes(u, from);
            Column(c, a) == if a == Id then u.id else Column(from, a)
  {
    var r := Columns(from) - {Id};
    assert a != Id ==> a in r && r[a] == Column(from, a);
    AssignSetsNamedColumns(u, r, a);
  }

  /** Two units agree on every stored column. */
  predicate SameColumns(u: Unit, v: Unit)
  {
    u.id == v.id && u.companyId == v.companyId && u.shipperId == v.shipperId &&
    u.modelId == v.modelId && u.stockId == v.stockId && u.serial == v.serial &&
    u.amount == v.amount && u.statusId == v.statusId && u.responsible == v.responsible &&
    u.pinCode == v.pinCode && u.comment == v.comment && u.userId == v.userId &&
    u.createDate == v.createDate && u.parentId == v.parentId
  }

  /** Units that agree on every stored column have the same attributes. */
  lemma SameColumnsSameAttributes(u: Unit, v: Unit)
    requires SameColumns(u, v)
    ensures Columns(u) == Columns(v)
  {
    forall a | a in ColumnNames
      ensures Column(u, a) == Column(v, a)
    {
    }
  }

  // ---------------------------------------------------------------------
  // Relations

  /** The `model` relation: the catalogue row that `model_id` names, if any. */
  function ModelOf(u: Unit, models: map<int, CatalogModel>): (r: Option<CatalogModel>)
    ensures r.Some? <==> u.modelId != Null && ToInt(u.modelId) in models
    ensures r.Some? ==> r.value == models[ToInt(u.modelId)]
  {
    if u.modelId != Null && ToInt(u.modelId) in models then Some(models[ToInt(u.modelId)]) else None
  }

  /** The first stored link of unit `id`, from the `i`-th row on, in the order
      the rows were written. */
  function FirstLinkFrom(links: seq<Link>, id: Scalar, i: nat): (r: Option<nat>)
    ensures r.Some? ==> i <= r.value < |links| && OfUnit(links[r.value], id)
    ensures r.Some? ==> forall j | i <= j < r.value :: !OfUnit(links[j], id)
    ensures r.None? ==> forall j | i <= j < |links| :: !OfUnit(links[j], id)
    decreases |links| - i
  {
    if i >= |links| then None
    else if OfUnit(links[i], id) then Some(i)
    else FirstLinkFrom(links, id, i + 1)
  }

  /** `afterFind()`: after a load, `vendor` and `type` come from the catalogue
      model (null when it is missing) and `order_id` from the first link of
      the unit, left as it was when the unit has none. */
  function AfterFind(u: Unit, models: map<int, CatalogModel>, links: seq<Link>): (r: Unit)
    ensures SameColumns(r, u)
    ensures var model := ModelOf(u, models);
            r.vendor == (if model.Some? then model.value.vendorId else Null) &&
            r.unitType == (if model.Some? then model.value.typeId else Null)
    ensures var first := FirstLinkFrom(links, u.id, 0);
            r.orderId == (if first.Some? then links[first.value].orderId else u.orderId)
  {
    var model := ModelOf(u, models);
    var first := FirstLinkFrom(links, u.id, 0);
    u.(vendor := if model.Some? then model.value.vendorId else Null,
       unitType := if model.Some? then model.value.typeId else Null,
       orderId := if first.Some? then links[first.value].orderId else u.orderId)
  }

  /** Loading twice gives what loading once gives: `afterFind` only reads
      stored columns, which it does not change. */
  lemma AfterFindIdempotent(u: Unit, models: map<int, CatalogModel>, links: seq<Link>)
    ensures AfterFind(AfterFind(u, models, links), models, links) == AfterFind(u, models, links)
  {
    var once := AfterFind(u, models, links);
    assert once.modelId == u.modelId && once.id == u.id;
  }

  /** A unit with a link to some order gets that order's id; the
      `order_id` of a unit without links survives the load. */
  lemma AfterFindOrder(u: Unit, models: map<int, CatalogModel>, links: seq<Link>, k: nat)
    requires k < |links| && OfUnit(links[k], u.id)
    requires forall j | 0 <= j < |links| && j != k :: !OfUnit(links[j], u.id)
    ensures AfterFind(u, models, links).orderId == links[k].orderId
  {
    var first := FirstLinkFrom(links, u.id, 0);
    assert first.Some?;
  }

  /** `getChilds()`: the ids of the stored units whose `parent_id` is `id`. */
  function Children(units: map<int, Unit>, id: int): set<int>
  {
    set k | k in units && units[k].parentId != Null && ToInt(units[k].parentId) == id
  }

  /** `getParent()`: the id of the stored unit that `parent_id` names, if any. */
  function ParentOf(units: map<int, Unit>, u: Unit): (p: Option<int>)
    ensures p.Some? ==> p.value in units
  {
    if u.parentId != Null && ToInt(u.parentId) in units then Some(ToInt(u.parentId)) else None
  }

  /** Parent and children are inverse relations among stored units. */
  lemma ChildrenAreInverseOfParent(units: map<int, Unit>, p: int, k: int)
    requires p in units
    ensures k in Children(units, p) <==> k in units && ParentOf(units, units[k]) == Some(p)
  {
  }

  /** A unit is a child of at most one parent. */
  lemma ChildrenDisjoint(units: map<int, Unit>, p: int, q: int)
    requires p != q
    ensures Children(units, p) !! Children(units, q)
  {
    forall k | k in Children(units, p)
      ensures k !in Children(units, q)
    {
    }
  }

  /** The rules check only that `parent_id` names an existing row: a unit
      may name itself or one of its own children, so lineage has neither a
      cycle nor a depth check. */
  lemma AnyExistingParentAccepted(m: Payload, t: Tables, p: int)
    requires UnitValid(m, t) && p in t.warehouses
    ensures UnitValid(m[ParentId := Int(p)], t)
  {
  }

  /** `Warehouse::rules()`, in declaration order. The `exist` rule on
      `responsibleUser` names the relation rather than the `responsible` column. */
  function UnitRules(): seq<Rule>
  {
    [ Required([CompanyId, ModelId, StockId, StatusId, UserId]),
      Integer([CompanyId, ModelId, StockId, Amount, StatusId, Responsible, UserId, ParentId]),
      Text([Serial, Comment], None),
      Safe([CreateDate, StatusId, OrderId]),
      Text([PinCode], Some(255)),
      Exist([UserId], Users),
      Exist([CompanyId], Companies),
      Exist([ShipperId], Companies),
      Exist([ModelId], Models),
      ExistOnRelation([ResponsibleUser]),
      Exist([StatusId], MaterialStatuses),
      Exist([StockId], Stocks),
      Exist([ParentId], Warehouses) ]
  }

  /** The errors `validate()` reports for `u`. */
  function UnitErrors(u: Unit, t: Tables): Errors
  {
    Validate(UnitRules(), Columns(u), t)
  }

  /** What the rules demand of a unit, attribute by attribute. */
  predicate UnitValid(m: Payload, t: Tables)
  {
    UnitWellFormed(m) && UnitReferencesFound(m, t)
  }

  /** Rules 0 to 4: the five required attributes are present, the integer
      columns hold integers, the texts are strings and the PIN has at most
      255 characters. */
  predicate UnitWellFormed(m: Payload)
  {
    && Present(m, CompanyId) && Present(m, ModelId) && Present(m, StockId)
    && Present(m, StatusId) && Present(m, UserId)
    && IntegerOrEmpty(m, CompanyId) && IntegerOrEmpty(m, ModelId) && IntegerOrEmpty(m, StockId)
    && IntegerOrEmpty(m, Amount) && IntegerOrEmpty(m, StatusId) && IntegerOrEmpty(m, Responsible)
    && IntegerOrEmpty(m, UserId) && IntegerOrEmpty(m, ParentId)
    && TextOrEmpty(m, Serial, None) && TextOrEmpty(m, Comment, None)
    && TextOrEmpty(m, PinCode, Some(255))
  }

  /** Rules 5 to 12: every reference that is set names an existing row; the
      rule on `responsibleUser` demands nothing. */
  predicate UnitReferencesFound(m: Payload, t: Tables)
  {
    && FoundOrEmpty(m, UserId, t.users) && FoundOrEmpty(m, CompanyId, t.companies)
    && FoundOrEmpty(m, ShipperId, t.companies) && FoundOrEmpty(m, ModelId, t.models)
    && FoundOrEmpty(m, StatusId, t.statuses) && FoundOrEmpty(m, StockId, t.stocks)
    && FoundOrEmpty(m, ParentId, t.warehouses)
  }

  // ---------------------------------------------------------------------
  // Properties

  /** A unit validates exactly when it meets every rule: the required five are
      present, the integer columns hold integers, the texts are strings (the
      PIN at most 255 characters) and every reference names an existing row.
      The rule on `responsibleUser` never adds an error. */
  lemma UnitValidIff(u: Unit, t: Tables)
    ensures UnitErrors(u, t) == [] <==> UnitValid(Columns(u), t)
  {
    UnitRulesIff(Columns(u), t);
  }

  lemma UnitRulesIff(m: Payload, t: Tables)
    ensures Validate(UnitRules(), m, t) == [] <==> UnitValid(m, t)
  {
    ValidateCleanIff(UnitRules(), m, t);
    UnitFormatRules(m, t);
    UnitReferenceRules(m, t);
  }

  /** Rules 0 to 4: presence, integers and texts. */
  lemma UnitFormatRules(m: Payload, t: Tables)
    ensures AllPassFrom(UnitRules(), 0, m, t) <==>
            UnitWellFormed(m) && AllPassFrom(UnitRules(), 5, m, t)
  {
    var rs := UnitRules();
    UnitRequiredRule(m, t);
    UnitIntegerRule(m, t);
    UnitTextRules(m, t);
    assert AllPassFrom(rs, 0, m, t) == (AttrsPass(rs[0], m, t) && AllPassFrom(rs, 1, m, t));
    assert AllPassFrom(rs, 1, m, t) == (AttrsPass(rs[1], m, t) && AllPassFrom(rs, 2, m, t));
    assert AllPassFrom(rs, 2, m, t) == (AttrsPass(rs[2], m, t) && AllPassFrom(rs, 3, m, t));
    assert AllPassFrom(rs, 3, m, t) == (AttrsPass(rs[3], m, t) && AllPassFrom(rs, 4, m, t));
    assert AllPassFrom(rs, 4, m, t) == (AttrsPass(rs[4], m, t) && AllPassFrom(rs, 5, m, t));
  }

  lemma UnitRequiredRule(m: Payload, t: Tables)
    ensures var r := UnitRules()[0];
            AttrsPass(r, m, t) <==>
            Present(m, CompanyId) && Present(m, ModelId) && Present(m, StockId) &&
            Present(m, StatusId) && Present(m, UserId)
  {
  }

  lemma UnitIntegerRule(m: Payload, t: Tables)
    ensures var r := UnitRules()[1];
            AttrsPass(r, m, t) <==>
            IntegerOrEmpty(m, CompanyId) && IntegerOrEmpty(m, ModelId) && IntegerOrEmpty(m, StockId) &&
            IntegerOrEmpty(m, Amount) && IntegerOrEmpty(m, StatusId) && IntegerOrEmpty(m, Responsible) &&
            IntegerOrEmpty(m, UserId) && IntegerOrEmpty(m, ParentId)
  {
  }

  lemma UnitTextRules(m: Payload, t: Tables)
    ensures var rs := UnitRules();
            (AttrsPass(rs[2], m, t) <==> TextOrEmpty(m, Serial, None) && TextOrEmpty(m, Comment, None)) &&
            AttrsPass(rs[3], m, t) &&
            (AttrsPass(rs[4], m, t) <==> TextOrEmpty(m, PinCode, Some(255)))
  {
  }

  /** The eight `exist` rules, rules 5 to 12. */
  lemma UnitReferenceRules(m: Payload, t: Tables)
    ensures AllPassFrom(UnitRules(), 5, m, t) <==> UnitReferencesFound(m, t)
  {
    var rs := UnitRules();
    UnitUserCompanyRules(m, t);
    UnitShipperModelRules(m, t);
    UnitResponsibleStatusRules(m, t);
    UnitStockParentRules(m, t);
    assert !AllPassFrom(rs, 13, m, t) ==> 13 < |rs|;
  }

  lemma UnitUserCompanyRules(m: Payload, t: Tables)
    ensures AllPassFrom(UnitRules(), 5, m, t) <==>
            FoundOrEmpty(m, UserId, t.users) && FoundOrEmpty(m, CompanyId, t.companies) &&
            AllPassFrom(UnitRules(), 7, m, t)
  {
    var rs := UnitRules();
    assert AllPassFrom(rs, 5, m, t) == (AttrsPass(rs[5], m, t) && AllPassFrom(rs, 6, m, t));
    assert AllPassFrom(rs, 6, m, t) == (AttrsPass(rs[6], m, t) && AllPassFrom(rs, 7, m, t));
  }

  lemma UnitShipperModelRules(m: Payload, t: Tables)
    ensures AllPassFrom(UnitRules(), 7, m, t) <==>
            FoundOrEmpty(m, ShipperId, t.companies) && FoundOrEmpty(m, ModelId, t.models) &&
            AllPassFrom(UnitRules(), 9, m, t)
  {
    var rs := UnitRules();
    assert AllPassFrom(rs, 7, m, t) == (AttrsPass(rs[7], m, t) && AllPassFrom(rs, 8, m, t));
    assert AllPassFrom(rs, 8, m, t) == (AttrsPass(rs[8], m, t) && AllPassFrom(rs, 9, m, t));
  }

  lemma UnitResponsibleStatusRules(m: Payload, t: Tables)
    ensures AllPassFrom(UnitRules(), 9, m, t) <==>
            FoundOrEmpty(m, StatusId, t.statuses) &&
            AllPassFrom(UnitRules(), 11, m, t)
  {
    var rs := UnitRules();
    assert AllPassFrom(rs, 9, m, t) == (AttrsPass(rs[9], m, t) && AllPassFrom(rs, 10, m, t));
    assert AllPassFrom(rs, 10, m, t) == (AttrsPass(rs[10], m, t) && AllPassFrom(rs, 11, m, t));
  }

  lemma UnitStockParentRules(m: Payload, t: Tables)
    ensures AllPassFrom(UnitRules(), 11, m, t) <==>
            FoundOrEmpty(m, StockId, t.stocks) && FoundOrEmpty(m, ParentId, t.warehouses) &&
            AllPassFrom(UnitRules(), 13, m, t)
  {
    var rs := UnitRules();
    assert AllPassFrom(rs, 11, m, t) == (AttrsPass(rs[11], m, t) && AllPassFrom(rs, 12, m, t));
    assert AllPassFrom(rs, 12, m, t) == (AttrsPass(rs[12], m, t) && AllPassFrom(rs, 13, m, t));
  }
}
