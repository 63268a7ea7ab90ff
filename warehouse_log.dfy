/**
 * The `warehouse_log` table: the audit trail of a unit, and its `rules()`.
 */
module LogEntity {
  import opened Php
  import opened Validators

  /** What `logUpdate` is given to encode: the attributes a save changed, or
      the labels of the old and the new status when a unit is linked to an order. */
  datatype Dirty = Fields(attrs: Payload) | StatusChange(before: Scalar, after: Scalar)

  /** What a log row says happened. `Added` is the text `logCreate` builds;
      `Changed` carries what `logUpdate` encodes as JSON after its prefix. */
  datatype LogAction =
    | Added(id: Scalar, modelName: string, serial: Scalar, amount: Scalar)
    | Changed(dirty: Dirty)

  /** A `WarehouseLog` record. */
  datatype LogRow = LogRow(warehouseId: Scalar, userId: Scalar, action: LogAction, createDate: Scalar)

  const AddedPrefix: string := "Добавлено оборудование "
  const ChangedPrefix: string := "Внесены изменения в данные об оборудовании:"

  /** The `action` text. The vendor part of the `Added` text reads a property
      of the scalar `vendor`, which PHP evaluates to null, so it is empty. */
  function ActionText(a: LogAction): (text: string)
    ensures |text| > 0
  {
    match a
    case Added(id, modelName, serial, amount) =>
      AddedPrefix + ToStr(id) + " " + modelName + " " + "" + " s/n: " + ToStr(serial) + " кол-во: " + ToStr(amount)
    case Changed(_) => ChangedPrefix
  }

  function LogAttributes(l: LogRow): Payload
  {
    map[WarehouseId := l.warehouseId, UserId := l.userId, Action := Str(ActionText(l.action)),
        CreateDate := l.createDate]
  }

  /** `WarehouseLog::rules()`, in declaration order. */
  function LogRules(): seq<Rule>
  {
    [ Required([WarehouseId, UserId, Action, CreateDate]),
      Integer([WarehouseId, UserId]),
      Text([Action], None),
      Safe([CreateDate, WarehouseId, Action, UserId]),
      Exist([WarehouseId], Warehouses),
      Exist([UserId], Users) ]
  }

  function LogErrors(l: LogRow, t: Tables): Errors
  {
    Validate(LogRules(), LogAttributes(l), t)
  }

  /** What the rules demand of a log row. */
  predicate LogValid(m: Payload, t: Tables)
  {
    && Present(m, WarehouseId) && Present(m, UserId) && Present(m, Action) && Present(m, CreateDate)
    && IntegerOrEmpty(m, WarehouseId) && IntegerOrEmpty(m, UserId)
    && TextOrEmpty(m, Action, None)
    && FoundOrEmpty(m, WarehouseId, t.warehouses) && FoundOrEmpty(m, UserId, t.users)
  }

  function PersistLog(l: LogRow): LogRow
  {
    LogRow(IntColumn(l.warehouseId), IntColumn(l.userId), l.action, l.createDate)
  }

  // ---------------------------------------------------------------------
  // Properties

  /** A log row validates exactly when its unit and user ids are present
      integers naming existing rows, and its action and date are set. */
  lemma LogValidIff(l: LogRow, t: Tables)
    ensures LogErrors(l, t) == [] <==> LogValid(LogAttributes(l), t)
  {
    LogRulesIff(LogAttributes(l), t);
  }

  lemma LogRulesIff(m: Payload, t: Tables)
    ensures Validate(LogRules(), m, t) == [] <==> LogValid(m, t)
  {
    ValidateCleanIff(LogRules(), m, t);
    LogFormatRules(m, t);
    LogReferenceRules(m, t);
  }

  lemma LogFormatRules(m: Payload, t: Tables)
    ensures AllPassFrom(LogRules(), 0, m, t) <==>
            Present(m, WarehouseId) && Present(m, UserId) && Present(m, Action) && Present(m, CreateDate) &&
            IntegerOrEmpty(m, WarehouseId) && IntegerOrEmpty(m, UserId) &&
            AllPassFrom(LogRules(), 2, m, t)
  {
    var rs := LogRules();
    LogRequiredRule(m, t);
    LogIntegerRule(m, t);
    assert AllPassFrom(rs, 0, m, t) == (AttrsPass(rs[0], m, t) && AllPassFrom(rs, 1, m, t));
    assert AllPassFrom(rs, 1, m, t) == (AttrsPass(rs[1], m, t) && AllPassFrom(rs, 2, m, t));
  }

  lemma LogRequiredRule(m: Payload, t: Tables)
    ensures var r := LogRules()[0];
            AttrsPass(r, m, t) <==>
            Present(m, WarehouseId) && Present(m, UserId) && Present(m, Action) && Present(m, CreateDate)
  {
  }

  lemma LogIntegerRule(m: Payload, t: Tables)
    ensures var r := LogRules()[1];
            AttrsPass(r, m, t) <==> IntegerOrEmpty(m, WarehouseId) && IntegerOrEmpty(m, UserId)
  {
  }

  lemma LogReferenceRules(m: Payload, t: Tables)
    ensures AllPassFrom(LogRules(), 2, m, t) <==>
            TextOrEmpty(m, Action, None) &&
            FoundOrEmpty(m, WarehouseId, t.warehouses) && FoundOrEmpty(m, UserId, t.users)
  {
    var rs := LogRules();
    assert AllPassFrom(rs, 2, m, t) == (AttrsPass(rs[2], m, t) && AllPassFrom(rs, 3, m, t));
    assert AllPassFrom(rs, 3, m, t) == (AttrsPass(rs[3], m, t) && AllPassFrom(rs, 4, m, t));
    assert AllPassFrom(rs, 4, m, t) == (AttrsPass(rs[4], m, t) && AllPassFrom(rs, 5, m, t));
    assert AllPassFrom(rs, 5, m, t) == (AttrsPass(rs[5], m, t) && AllPassFrom(rs, 6, m, t));
  }

  /** A log row can only be written for a unit that exists (so not once the
      unit is deleted) and by a user that exists. */
  lemma LogNeedsUnit(m: Payload, t: Tables)
    requires Validate(LogRules(), m, t) == []
    ensures ToInt(Get(m, WarehouseId)) in t.warehouses && ToInt(Get(m, UserId)) in t.users
  {
    LogRulesIff(m, t);
  }

  /** Conversely, a row naming an existing unit by an integer (or integer
      string), written by an existing user and carrying a date, is always
      accepted: its action text is never blank. */
  lemma LogRowAccepted(l: LogRow, t: Tables)
    requires !IsBlank(l.warehouseId) && IsIntegerValue(l.warehouseId) && ToInt(l.warehouseId) in t.warehouses
    requires l.userId.Int? && l.userId.i in t.users
    requires !IsBlank(l.createDate)
    ensures LogErrors(l, t) == []
  {
    var m := LogAttributes(l);
    assert Get(m, WarehouseId) == l.warehouseId && Get(m, UserId) == l.userId;
    assert Get(m, Action) == Str(ActionText(l.action)) && Get(m, CreateDate) == l.createDate;
    ActionTextNotBlank(l.action);
    LogAccepted(m, t);
  }

  lemma LogAccepted(m: Payload, t: Tables)
    requires Present(m, WarehouseId) && IsIntegerValue(Get(m, WarehouseId))
    requires ToInt(Get(m, WarehouseId)) in t.warehouses
    requires Get(m, UserId).Int? && Get(m, UserId).i in t.users
    requires Get(m, Action).Str? && Trim(Get(m, Action).s) != ""
    requires Present(m, CreateDate)
    ensures Validate(LogRules(), m, t) == []
  {
    LogRulesIff(m, t);
  }

  /** Both action texts start with a letter, so `required` never finds them blank. */
  lemma ActionTextNotBlank(a: LogAction)
    ensures Trim(ActionText(a)) != ""
  {
    var s := ActionText(a);
    assert !IsTrimmed(s[0]);
    TrimSpec(s);
  }

  /** The log rows a `deleteAll(['warehouse_id' => $id])` leaves in place. */
  function LogNotOf(id: int): LogRow -> bool
  {
    (l: LogRow) => !SqlMatches(l.warehouseId, Int(id))
  }
}
