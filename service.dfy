/**
 * `WarehouseService`: saving a unit from a request array (with its order
 * link and audit log), moving a unit or splitting a batch, the comment on a
 * status change, deleting a unit, and the small helpers these use. The
 * service keeps the record it last saved in its `warehouse` field.
 */
module Service {
  import opened Php
  import opened Validators
  import opened OrdersWarehouseEntity
  import opened CommentEntity
  import opened LogEntity
  import opened WarehouseEntity
  import opened WarehouseStatus
  import opened Database
  import opened Repository
  import opened ResponseDto

  /** What `save` returns: `true`, or the errors of the unit or of the link. */
  datatype SaveResult = Saved | Rejected(errors: Errors)

  /** The rows the service writes, as a value. */
  datatype Rows = Rows(units: map<int, Unit>, nextId: int, links: seq<Link>, logs: seq<LogRow>)

  ghost function RowsOf(s: Store): Rows
    reads s
  {
    Rows(s.units, s.nextId, s.links, s.logs)
  }

  const ManualLinkText: string := "Ручная привязка устройства к заявке"
  const NoResponsible: string := "Не был выбран ответственный сотрудник"
  const NoAmount: string := "Не указано кол-во"
  const TooMuch: string := "Запрошенное кол-во больше, чем есть на складе"
  const SaveFailed: string := "Проблема с сохранением данных"
  const CommentFailed: string := "Проблема с соохранением комментария к устройству"
  const DeleteFailed: string := "Проблема с удалением со склада"

  // ---------------------------------------------------------------------
  // Helpers of `save`

  /** `prepareLogAttributes`: the change set without `create_date`. */
  function PrepareLogAttributes(attrs: Payload): (r: Payload)
    ensures CreateDate !in r
    ensures forall a | a != CreateDate :: (a in r <==> a in attrs)
    ensures forall a | a in r :: r[a] == attrs[a]
  {
    attrs - {CreateDate}
  }

  /** The change set `save` logs: the attributes of the saved record whose
      value, compared as a string, is none of the values it had before. */
  function ChangeSet(after: Unit, before: Payload): Payload
  {
    PrepareLogAttributes(ArrayDiff(Columns(after), before))
  }

  /** The record after `setAttributes($r, false)`, stamped with the date and the actor. */
  function Prepared(base: Unit, r: Payload, actor: int): Unit
  {
    Assign(base, r).(createDate := DbNow, userId := Int(actor))
  }

  /** `isset($r['order_id']) && (int)$r['order_id'] > 0`. */
  predicate Linked(r: Payload)
  {
    IsSet(r, OrderId) && ToInt(Get(r, OrderId)) > 0
  }

  /** The link `save` writes by hand: the order's id when the order exists
      (null, read off a missing order, otherwise), the unit as the request
      names it, no comment. */
  function ManualLink(r: Payload, orders: set<int>, actor: int): Link
  {
    var o := ToInt(Get(r, OrderId));
    Link(if o in orders then Int(o) else Null, Get(r, Id), Null, Int(actor), DbNow)
  }

  /** The log row, if its rules accept it. */
  function LogIfAccepted(row: LogRow, t: Tables): (r: seq<LogRow>)
    ensures |r| <= 1 && (r != [] <==> LogErrors(row, t) == [])
  {
    if LogErrors(row, t) == [] then [PersistLog(row)] else []
  }

  /** The rows after the change-set log of `w`: one row more when its
      rules accept it. */
  function ChangesLogged(s: Store, rows: Rows, w: Unit, before: Payload, actor: int): (after: Rows)
    ensures after.units == rows.units && after.nextId == rows.nextId && after.links == rows.links
    ensures rows.logs <= after.logs && |after.logs| <= |rows.logs| + 1
  {
    rows.(logs := rows.logs + LogIfAccepted(UpdateRow(w, Fields(ChangeSet(w, before)), actor),
                                            s.TablesWith(rows.units, rows.links)))
  }

  /** The hand-written link on top of `rows`: none when the request names no
      order; otherwise the link, or its errors. */
  function LinkedByHand(s: Store, rows: Rows, r: Payload, actor: int): (o: (SaveResult, Rows))
    ensures o.1.units == rows.units && o.1.nextId == rows.nextId && o.1.logs == rows.logs
    ensures o.0.Saved? <==> o.1.links == rows.links + [PersistLink(ManualLink(r, s.orders, actor))] || !Linked(r)
  {
    if !Linked(r) then (Saved, rows)
    else
      var ow := ManualLink(r, s.orders, actor);
      var errs := LinkErrors(ow, s.TablesWith(rows.units, rows.links));
      if errs != [] then (Rejected(errs), rows)
      else (Saved, rows.(links := rows.links + [PersistLink(ow)]))
  }

  /** The links of the unit the request names are replaced by the
      hand-written one. */
  function Relinked(s: Store, rows: Rows, r: Payload, actor: int): (o: (SaveResult, Rows))
    ensures o.1.units == rows.units && o.1.nextId == rows.nextId && o.1.logs == rows.logs
  {
    LinkedByHand(s, rows.(links := Keep(rows.links, NotOfUnit(Get(r, Id)))), r, actor)
  }

  /** A record inserted under `k` that still counts as new: it takes the
      new id as a string, and its creation and then its change set are logged. */
  function CreatedOutcome(s: Store, written: Rows, prepared: Unit, before: Payload, k: int, actor: int)
    : (o: (Unit, Rows))
    ensures o.1.units == written.units && o.1.nextId == written.nextId && written.logs <= o.1.logs
  {
    var created := prepared.(id := Str(Decimal(k)));
    var logged := written.(logs := written.logs + LogIfAccepted(CreateRow(created, s.models, actor),
                                                                s.TablesWith(written.units, written.links)));
    (created, ChangesLogged(s, logged, created, before, actor))
  }

  /** Any other saved record `saved`: relinked, and its change set logged
      unless the link was rejected. */
  function UpdatedOutcome(s: Store, written: Rows, saved: Unit, before: Payload, r: Payload, actor: int)
    : (o: (SaveResult, Rows))
    ensures o.1.units == written.units && o.1.nextId == written.nextId
    ensures written.logs <= o.1.logs && |o.1.logs| <= |written.logs| + 1
    ensures o.0.Rejected? ==> o.1.logs == written.logs
  {
    var (res, relinked) := Relinked(s, written, r, actor);
    (res, if res.Saved? then ChangesLogged(s, relinked, saved, before, actor) else relinked)
  }

  /** What `save($r)` returns, leaves in the service's record and makes of
      the rows, from the rows `rows` and the service's record `current`: a
      positive id loads that unit, anything else works on the current
      record as a new one; a record the rules reject changes no row; an
      accepted one is written under its id (or the next id) and recorded. */
  function SaveOutcome(s: Store, rows: Rows, current: Unit, r: Payload, actor: int, stillNew: bool)
    : (o: (SaveResult, Unit, Rows))
    ensures rows.units.Keys <= o.2.units.Keys && rows.nextId <= o.2.nextId
    ensures rows.logs <= o.2.logs
  {
    var key := ToInt(Get(r, Id));
    var base := if key > 0 && key in rows.units then AfterFind(rows.units[key], s.models, rows.links) else current;
    var before: Payload := if key > 0 then Columns(base) else map[];
    var prepared := Prepared(base, r, actor);
    var errs := UnitErrors(prepared, s.TablesWith(rows.units, rows.links));
    if errs != [] then (Rejected(errs), prepared, rows)
    else
      var k := if key > 0 then key else rows.nextId;
      var written := rows.(units := rows.units[k := Persist(prepared, k)],
                           nextId := if key > 0 then rows.nextId else rows.nextId + 1);
      if key <= 0 && stillNew then
        var (created, after) := CreatedOutcome(s, written, prepared, before, k, actor);
        (Saved, created, after)
      else
        var saved := if key > 0 then prepared else prepared.(id := Int(k));
        var (res, after) := UpdatedOutcome(s, written, saved, before, r, actor);
        (res, saved, after)
  }

  // ---------------------------------------------------------------------
  // Helpers of `move`

  /** `move` takes the simple path when the request has a serial or moves
      the whole amount. */
  predicate SimpleMove(model: Unit, data: Payload)
  {
    (IsSet(data, Serial) && |ToStr(data[Serial])| > 0) ||
    (IsSet(data, Amount) && ToInt(model.amount) == ToInt(data[Amount]))
  }

  /** The problems the split path reports, all of them, in order. */
  function SplitProblems(model: Unit, data: Payload): seq<string>
  {
    (if !IsSet(data, Responsible) then [NoResponsible] else []) +
    (if !IsSet(data, Amount) then [NoAmount] else []) +
    (if IsSet(data, Amount) && ToInt(data[Amount]) > ToInt(model.amount) then [TooMuch] else [])
  }

  /** The source of a split, with the moved amount taken off. */
  function Decremented(model: Unit, data: Payload): Unit
  {
    model.(amount := Int(ToInt(model.amount) - ToInt(Get(data, Amount))))
  }

  /** The new unit of a split: the attributes of the reloaded source (none
      when it is missing), the moved amount, the company, responsible user,
      comment and status of the request (the comment '' and the status the
      source's when the request has none), the source as parent, the actor
      and the date. */
  function Child(source: Option<Unit>, model: Unit, data: Payload, actor: int): (c: Unit)
    ensures c.id == Null && c.parentId == model.id && c.amount == Get(data, Amount)
    ensures source.Some? ==>
              && c.shipperId == source.value.shipperId && c.modelId == source.value.modelId
              && c.stockId == source.value.stockId && c.serial == source.value.serial
              && c.pinCode == source.value.pinCode
    ensures source.None? ==>
              c.shipperId == Null && c.modelId == Null && c.stockId == Null && c.serial == Null
  {
    var base := if source.Some? then CopyAttributes(NewUnit(), source.value) else NewUnit();
    base.(amount := Get(data, Amount), companyId := Get(data, CompanyId), responsible := Get(data, Responsible),
          userId := Int(actor), comment := if IsSet(data, Comment) then data[Comment] else Str(""),
          statusId := if IsSet(data, StatusId) then data[StatusId]
                      else if source.Some? then source.value.statusId else Null,
          parentId := model.id, createDate := DbNow)
  }

  /** The comment `saveCommentStatus` writes. */
  function StatusComment(from: string, to: string, responsible: string): string
  {
    "Смена статуса устройства c : " + from + " на  " + to + "<br/>Ответственный: " + responsible
  }

  /** `getStatuses`: the active statuses without the unit's current one.
      PHP looks the status up as an array key, so only an integer or a
      canonical integer string removes anything. */
  function GetStatuses(all: map<int, string>, status: Scalar): (r: map<int, string>)
    ensures forall k :: k in r <==> k in all && ArrayKey(status) != Some(k)
    ensures forall k | k in r :: r[k] == all[k]
  {
    match ArrayKey(status)
    case Some(k) => all - {k}
    case None => all
  }

  class WarehouseService {
    var warehouse: Unit
    const repository: WarehouseRepository

    constructor(warehouse: Unit, repository: WarehouseRepository)
      ensures this.warehouse == warehouse && this.repository == repository
    {
      this.warehouse := warehouse;
      this.repository := repository;
    }

    /** `save($r)`. A positive id must name a stored unit (the code reads
        the attributes of what it loads). `stillNew` stands for the
        record's `isNewRecord` flag after an insert, which the framework
        decides. */
    method Save(r: Payload, actor: int, stillNew: bool) returns (res: SaveResult)
      requires repository.store.Valid()
      requires ToInt(Get(r, Id)) > 0 ==> ToInt(Get(r, Id)) in repository.store.units
      modifies this, repository.store
      ensures repository.store.Valid() && repository.store.comments == old(repository.store.comments)
      ensures (res, warehouse, RowsOf(repository.store)) ==
                SaveOutcome(repository.store, old(RowsOf(repository.store)), old(warehouse), r, actor, stillNew)
    {
      var key := ToInt(Get(r, Id));
      var before: Payload := map[];
      if key > 0 {
        warehouse := repository.store.FindOne(key).value;
        before := Columns(warehouse);
      }
      warehouse := Prepared(warehouse, r, actor);
      var errs, k := Write(key);
      res := Record(errs, key, k, r, before, actor, stillNew);
    }

    /** The `save()` of the prepared record: an update of row `key` when it
        is positive, an insert otherwise. */
    method Write(key: int) returns (errs: Errors, k: int)
      requires repository.store.Valid() && (key > 0 ==> key in repository.store.units)
      modifies repository.store
      ensures repository.store.Valid() && repository.store.comments == old(repository.store.comments)
      ensures errs == UnitErrors(warehouse, old(repository.store.Lookups()))
      ensures k == if key > 0 then key else old(repository.store.nextId)
      ensures RowsOf(repository.store) ==
                if errs == [] then old(RowsOf(repository.store)).(
                  units := old(repository.store.units)[k := Persist(warehouse, k)],
                  nextId := if key > 0 then old(repository.store.nextId) else old(repository.store.nextId) + 1)
                else old(RowsOf(repository.store))
    {
      if key > 0 {
        errs := repository.store.UpdateUnit(key, warehouse);
        k := key;
      } else {
        errs, k := repository.store.InsertUnit(warehouse);
      }
    }

    /** Everything `save` does after the write reported `errs`. */
    method Record(errs: Errors, key: int, k: int, r: Payload, before: Payload, actor: int, stillNew: bool)
      returns (res: SaveResult)
      requires repository.store.Valid()
      modifies this, repository.store
      ensures repository.store.Valid() && repository.store.comments == old(repository.store.comments)
      ensures errs != [] ==> res == Rejected(errs) && warehouse == old(warehouse) &&
                             RowsOf(repository.store) == old(RowsOf(repository.store))
      ensures errs == [] && key <= 0 && stillNew ==>
                res == Saved &&
                (warehouse, RowsOf(repository.store)) ==
                  CreatedOutcome(repository.store, old(RowsOf(repository.store)), old(warehouse), before, k, actor)
      ensures errs == [] && !(key <= 0 && stillNew) ==>
                warehouse == (if key > 0 then old(warehouse) else old(warehouse).(id := Int(k))) &&
                (res, RowsOf(repository.store)) ==
                  UpdatedOutcome(repository.store, old(RowsOf(repository.store)), warehouse, before, r, actor)
    {
      if errs != [] {
        return Rejected(errs);
      }
      if key <= 0 && stillNew {
        warehouse := warehouse.(id := Str(Decimal(k)));
        LogCreated(actor);
        LogChanges(Saved, before, actor);
        res := Saved;
      } else {
        if key <= 0 {
          warehouse := warehouse.(id := Int(k));
        }
        res := Relink(r, actor);
        LogChanges(res, before, actor);
      }
    }

    /** `logCreate` of the record just inserted. */
    method LogCreated(actor: int)
      requires repository.store.Valid()
      modifies repository.store
      ensures repository.store.Valid() && repository.store.comments == old(repository.store.comments)
      ensures RowsOf(repository.store) == old(RowsOf(repository.store)).(
                logs := old(repository.store.logs) +
                  LogIfAccepted(CreateRow(warehouse, repository.store.models, actor), old(repository.store.Lookups())))
    {
      var logErrs := repository.LogCreate(warehouse, actor);
    }

    /** The change-set log, written only when the save got that far. */
    method LogChanges(res: SaveResult, before: Payload, actor: int)
      requires repository.store.Valid()
      modifies repository.store
      ensures repository.store.Valid() && repository.store.comments == old(repository.store.comments)
      ensures RowsOf(repository.store) ==
                if res.Saved? then ChangesLogged(repository.store, old(RowsOf(repository.store)), warehouse, before, actor)
                else old(RowsOf(repository.store))
    {
      if res.Saved? {
        var logErrs := repository.LogUpdate(warehouse, Fields(ChangeSet(warehouse, before)), actor);
      }
    }

    /** The relinking of `save`: every link of the unit the request names is
        deleted, then the hand-written link is added. */
    method Relink(r: Payload, actor: int) returns (res: SaveResult)
      requires repository.store.Valid()
      modifies repository.store
      ensures repository.store.Valid() && repository.store.comments == old(repository.store.comments)
      ensures (res, RowsOf(repository.store)) == Relinked(repository.store, old(RowsOf(repository.store)), r, actor)
    {
      repository.store.DeleteLinksOf(Get(r, Id));
      res := LinkByHand(r, actor);
    }

    /** When the request names a positive order, the link to it is written
        and, once it is, `addDeviceToOrder` tries to write it again. */
    method LinkByHand(r: Payload, actor: int) returns (res: SaveResult)
      requires repository.store.Valid()
      modifies repository.store
      ensures repository.store.Valid() && repository.store.comments == old(repository.store.comments)
      ensures (res, RowsOf(repository.store)) == LinkedByHand(repository.store, old(RowsOf(repository.store)), r, actor)
    {
      if !Linked(r) {
        return Saved;
      }
      var store := repository.store;
      var ow := ManualLink(r, store.orders, actor);
      ManualLinkStored(r, store.orders, actor, store.Lookups(), store.links);
      ghost var rows := RowsOf(store);
      var linkErrs := store.InsertLink(ow);
      assert linkErrs != [] ==> store.links == rows.links;
      res := LinkAgain(linkErrs, r, actor);
    }

    /** After the hand-written link: its errors end the save; once it is
        stored, `addDeviceToOrder` is called for the same pair, whose own
        link is then refused as a duplicate, so it changes nothing. */
    method LinkAgain(linkErrs: Errors, r: Payload, actor: int) returns (res: SaveResult)
      requires repository.store.Valid()
      requires linkErrs == [] ==> (ToInt(Get(r, Id)), ToInt(Get(r, OrderId))) in Pairs(repository.store.links)
      modifies repository.store
      ensures repository.store.Valid() && repository.store.comments == old(repository.store.comments)
      ensures res == if linkErrs == [] then Saved else Rejected(linkErrs)
      ensures RowsOf(repository.store) == old(RowsOf(repository.store))
    {
      if linkErrs != [] {
        return Rejected(linkErrs);
      }
      var orderId, unitId := ToInt(Get(r, OrderId)), ToInt(Get(r, Id));
      StoredPairRejected(OrderLink(orderId, unitId, ManualLinkText, actor), repository.store.Lookups());
      var ignored := repository.AddDeviceToOrder(orderId, unitId, ManualLinkText, actor);
      res := Saved;
    }

    /** `move($model, $data)`. On the simple path the request is saved as
        is (`saved` is what that save returns); when that save fails, the
        code hands the error array to `addMessage`, which PHP refuses with
        a type error: `typeError`. On the split path every problem is
        reported before the single return; otherwise the source loses the
        moved amount and, once it is saved, a child carrying that amount is
        inserted. */
    method Move(model: Unit, data: Payload, actor: int, stillNew: bool)
      returns (result: WarehouseResponse, typeError: bool, ghost saved: SaveResult)
      requires repository.store.Valid()
      requires SimpleMove(model, data) && ToInt(Get(data, Id)) > 0 ==> ToInt(Get(data, Id)) in repository.store.units
      requires !SimpleMove(model, data) ==> model.id.Int? && model.id.i in repository.store.units
      modifies this, repository.store
      ensures fresh(result) && result.Valid()
      ensures repository.store.Valid() && repository.store.comments == old(repository.store.comments)
      ensures SimpleMove(model, data) ==>
                (saved, warehouse, RowsOf(repository.store)) ==
                  SaveOutcome(repository.store, old(RowsOf(repository.store)), old(warehouse), data, actor, stillNew) &&
                (typeError <==> saved.Rejected?) &&
                result.code == OK && result.messages == [AllWell]
      ensures !SimpleMove(model, data) ==> !typeError && warehouse == old(warehouse)
      ensures !SimpleMove(model, data) && SplitProblems(model, data) != [] ==>
                result.code == ERROR && result.messages == [AllWell] + SplitProblems(model, data) &&
                RowsOf(repository.store) == old(RowsOf(repository.store))
      ensures !SimpleMove(model, data) && SplitProblems(model, data) == [] ==>
                SplitOutcome(repository.store, old(RowsOf(repository.store)), model, data, actor,
                             result.code, result.messages, RowsOf(repository.store))
    {
      result := new WarehouseResponse();
      if SimpleMove(model, data) {
        var res := Save(data, actor, stillNew);
        typeError, saved := res.Rejected?, res;
        return;
      }
      typeError, saved := false, Saved;
      MoveSplit(model, data, actor, result);
    }

    /** The split path of `move`. */
    method MoveSplit(model: Unit, data: Payload, actor: int, result: WarehouseResponse)
      requires repository.store.Valid() && model.id.Int? && model.id.i in repository.store.units
      requires result.code == OK && result.messages == [AllWell]
      modifies repository.store, result
      ensures result.Valid()
      ensures repository.store.Valid() && repository.store.comments == old(repository.store.comments)
      ensures SplitProblems(model, data) != [] ==>
                result.code == ERROR && result.messages == [AllWell] + SplitProblems(model, data) &&
                RowsOf(repository.store) == old(RowsOf(repository.store))
      ensures SplitProblems(model, data) == [] ==>
                SplitOutcome(repository.store, old(RowsOf(repository.store)), model, data, actor,
                             result.code, result.messages, RowsOf(repository.store))
    {
      CheckSplit(model, data, result);
      if result.GetCode() != OK {
        return;
      }
      Split(model, data, actor, result);
    }

    /** The three checks of the split path, each adding its message and ERROR. */
    method CheckSplit(model: Unit, data: Payload, result: WarehouseResponse)
      requires result.code == OK && result.messages == [AllWell]
      modifies result
      ensures result.messages == [AllWell] + SplitProblems(model, data)
      ensures result.code == if SplitProblems(model, data) == [] then OK else ERROR
    {
      Report(!IsSet(data, Responsible), result, NoResponsible);
      Report(!IsSet(data, Amount), result, NoAmount);
      Report(IsSet(data, Amount) && ToInt(data[Amount]) > ToInt(model.amount), result, TooMuch);
    }

    /** The split itself, once the checks passed. */
    method Split(model: Unit, data: Payload, actor: int, result: WarehouseResponse)
      requires repository.store.Valid() && model.id.Int? && model.id.i in repository.store.units
      requires result.code == OK && result.messages == [AllWell]
      modifies repository.store, result
      ensures repository.store.Valid() && repository.store.comments == old(repository.store.comments)
      ensures SplitOutcome(repository.store, old(RowsOf(repository.store)), model, data, actor,
                           result.code, result.messages, RowsOf(repository.store))
    {
      var store := repository.store;
      var source := store.FindOne(ToInt(Get(data, Id)));
      var child := Child(source, model, data, actor);
      var errs := store.UpdateUnit(model.id.i, Decremented(model, data));
      SplitChild(errs, child, result);
    }

    /** The child's insert, once the source's update reported `errs`. */
    method SplitChild(errs: Errors, child: Unit, result: WarehouseResponse)
      requires repository.store.Valid()
      requires result.code == OK && result.messages == [AllWell]
      modifies repository.store, result
      ensures repository.store.Valid() && repository.store.comments == old(repository.store.comments)
      ensures errs != [] ==> RowsOf(repository.store) == old(RowsOf(repository.store)) &&
                             result.code == ERROR && result.messages == [AllWell, SaveFailed]
      ensures errs == [] ==>
                var childErrs := UnitErrors(child, old(repository.store.Lookups()));
                var k := old(repository.store.nextId);
                && RowsOf(repository.store) ==
                     (if childErrs == [] then old(RowsOf(repository.store)).(
                        units := old(repository.store.units)[k := Persist(child, k)], nextId := k + 1)
                      else old(RowsOf(repository.store)))
                && result.code == (if childErrs == [] then OK else ERROR)
                && result.messages == [AllWell] + (if childErrs == [] then [] else [SaveFailed])
    {
      if errs != [] {
        result.SetCode(ERROR);
        result.AddMessage(SaveFailed);
        return;
      }
      var childErrs, k := repository.store.InsertUnit(child);
      Report(childErrs != [], result, SaveFailed);
    }

    /** `saveCommentStatus`: a comment on unit `warehouseId` by the actor that
        names the old and the new status (by their coloured labels) and the
        responsible user, carrying the new status. Both statuses and the user
        must exist: the code calls methods on what it loads. */
    method SaveCommentStatus(oldStatus: int, newStatus: int, warehouseId: int, responsible: int, actor: int)
      returns (result: WarehouseResponse)
      requires repository.store.Valid()
      requires oldStatus in repository.store.statuses && newStatus in repository.store.statuses
      requires responsible > 0 && responsible in repository.store.users
      modifies repository.store
      ensures fresh(result) && result.Valid()
      ensures repository.store.Valid() && RowsOf(repository.store) == old(RowsOf(repository.store))
      ensures var store := repository.store;
              var c := StatusCommentRow(store, oldStatus, newStatus, warehouseId, responsible, actor);
              var errs := CommentErrors(c, old(store.Lookups()));
              && store.comments == old(store.comments) + (if errs == [] then [PersistComment(c)] else [])
              && result.code == (if errs == [] then OK else ERROR)
              && result.messages == [AllWell] + (if errs == [] then [] else [CommentFailed])
    {
      result := new WarehouseResponse();
      var store := repository.store;
      var c := StatusCommentRow(store, oldStatus, newStatus, warehouseId, responsible, actor);
      var errs := store.InsertComment(c);
      Report(errs != [], result, CommentFailed);
    }

    /** `delete($id)`: the unit's log rows and comments go first and stay
        gone; then the unit is deleted. A missing unit, or a delete the
        database refuses (`rejected`), gives ERROR. Links are not touched. */
    method Delete(id: int, rejected: bool) returns (result: WarehouseResponse)
      requires repository.store.Valid()
      modifies repository.store
      ensures fresh(result) && result.Valid()
      ensures var store := repository.store;
              var ok := id in old(store.units) && !rejected;
              && store.Valid()
              && store.logs == Keep(old(store.logs), LogNotOf(id))
              && store.comments == Keep(old(store.comments), CommentNotOf(id))
              && store.units == (if ok then old(store.units) - {id} else old(store.units))
              && store.links == old(store.links) && store.nextId == old(store.nextId)
              && result.code == (if ok then OK else ERROR)
              && result.messages == [AllWell] + (if ok then [] else [DeleteFailed])
    {
      result := new WarehouseResponse();
      var store := repository.store;
      store.DeleteLogsOf(id);
      store.DeleteCommentsOf(id);
      var ok := store.DeleteUnit(id, rejected);
      Report(!ok, result, DeleteFailed);
    }

    /** Marks the response as failed with `message` when `failed`. */
    method Report(failed: bool, result: WarehouseResponse, message: string)
      modifies result
      ensures result.code == (if failed then ERROR else old(result.code))
      ensures result.messages == old(result.messages) + (if failed then [message] else [])
    {
      if failed {
        result.AddMessage(message);
        result.SetCode(ERROR);
      }
    }
  }

  /** The comment row of a status change. */
  function StatusCommentRow(s: Store, oldStatus: int, newStatus: int, warehouseId: int, responsible: int,
                            actor: int): CommentRow
    requires oldStatus in s.statuses && newStatus in s.statuses && responsible in s.users
  {
    CommentRow(Int(warehouseId), Int(actor),
               Str(StatusComment(s.statuses[oldStatus], s.statuses[newStatus], s.users[responsible])),
               DbNow, Int(newStatus))
  }

  /** What the split leaves: the source saved with the moved amount taken
      off, then the child inserted; a failed source save reports ERROR and
      inserts nothing, a failed child save reports ERROR too. */
  ghost predicate SplitOutcome(s: Store, rows: Rows, model: Unit, data: Payload, actor: int,
                               code: int, messages: seq<string>, after: Rows)
    requires model.id.Int?
    ensures SplitOutcome(s, rows, model, data, actor, code, messages, after) ==>
              && after.links == rows.links && after.logs == rows.logs
              && rows.units.Keys <= after.units.Keys
              && (code == OK <==> after.nextId == rows.nextId + 1)
              && |messages| >= 1 && messages[0] == AllWell
  {
    var key := model.id.i;
    var source := if ToInt(Get(data, Id)) in rows.units
                  then Some(AfterFind(rows.units[ToInt(Get(data, Id))], s.models, rows.links)) else None;
    var child := Child(source, model, data, actor);
    var src := Decremented(model, data);
    var errs := UnitErrors(src, s.TablesWith(rows.units, rows.links));
    if errs != [] then
      after == rows && code == ERROR && messages == [AllWell, SaveFailed]
    else
      var units := rows.units[key := Persist(src, key)];
      var childErrs := UnitErrors(child, s.TablesWith(units, rows.links));
      && after == rows.(units := if childErrs == [] then units[rows.nextId := Persist(child, rows.nextId)] else units,
                        nextId := if childErrs == [] then rows.nextId + 1 else rows.nextId)
      && code == (if childErrs == [] then OK else ERROR)
      && messages == [AllWell] + (if childErrs == [] then [] else [SaveFailed])
  }

  /** The hand-written link, once accepted and appended, joins the unit
      and the order the request names. */
  lemma ManualLinkStored(r: Payload, orders: set<int>, actor: int, t: Tables, links: seq<Link>)
    ensures var ow := ManualLink(r, orders, actor);
            LinkErrors(ow, t) == [] ==>
              (ToInt(Get(r, Id)), ToInt(Get(r, OrderId))) in Pairs(links + [PersistLink(ow)])
  {
    var ow := ManualLink(r, orders, actor);
    if LinkErrors(ow, t) == [] {
      var m := LinkAttributes(ow);
      assert Get(m, OrderId) == ow.orderId && Get(m, WarehouseId) == ow.warehouseId;
      LinkUnique(m, t);
      IntColumnKeepsReading(ow.warehouseId);
      IntColumnKeepsReading(ow.orderId);
      var all := links + [PersistLink(ow)];
      assert all[|links|] == PersistLink(ow);
    }
  }

  /** A unit that validates names an existing user as its author. */
  lemma ValidUnitNamesActor(u: Unit, actor: int, t: Tables)
    requires u.userId == Int(actor)
    ensures UnitErrors(u, t) == [] ==> actor in t.users
  {
    if UnitErrors(u, t) == [] {
      UnitValidIff(u, t);
      ValidUnitFindsUser(Columns(u), t);
      ColumnsReadUser(u);
    }
  }

  lemma ValidUnitFindsUser(m: Payload, t: Tables)
    requires UnitValid(m, t)
    ensures FoundOrEmpty(m, UserId, t.users)
  {
  }

  lemma ColumnsReadUser(u: Unit)
    ensures Get(Columns(u), UserId) == u.userId
  {
    assert UserId in ColumnNames;
  }

  // ---------------------------------------------------------------------
  // Properties

  /** For a new record every column but `create_date` is logged as changed. */
  lemma NewRecordChangeSet(after: Unit)
    ensures ChangeSet(after, map[]) == Columns(after) - {CreateDate}
  {
    ArrayDiffAgainstEmpty(Columns(after));
  }

  /** An attribute in the change set is a column other than `create_date`,
      carries its new value, and differs, as a string, from its value before. */
  lemma ChangeSetSound(after: Unit, before: Payload, a: Attr)
    requires a in ChangeSet(after, before)
    ensures a != CreateDate && a in ColumnNames && ChangeSet(after, before)[a] == Column(after, a)
    ensures a in before ==> ToStr(Column(after, a)) != ToStr(before[a])
  {
    if a in before {
      ArrayDiffSound(Columns(after), before, a);
    }
  }

  /** Saving a loaded record without changing it logs an empty change set. */
  lemma UnchangedRecordLogsNothing(u: Unit)
    ensures ChangeSet(u, Columns(u)) == map[]
  {
    ArrayDiffSelf(Columns(u));
  }

  /** A status loaded as a string or as an integer removes the same entry. */
  lemma StatusKeyForms(all: map<int, string>, k: int)
    ensures GetStatuses(all, Str(Decimal(k))) == GetStatuses(all, Int(k)) == all - {k}
  {
    DecimalIsArrayKey(k);
  }

  /** A new record that still counts as new after its insert under `k` is
      given that id as a string and gets exactly two log rows: its creation,
      then every column but `create_date` as its change set. Nothing else
      changes. */
  lemma NewUnitLoggedTwice(s: Store, written: Rows, prepared: Unit, k: int, actor: int)
    requires k in written.units && actor in s.users && prepared.createDate == DbNow
    ensures var (w, after) := CreatedOutcome(s, written, prepared, map[], k, actor);
            && w == prepared.(id := Str(Decimal(k)))
            && after.units == written.units && after.nextId == written.nextId && after.links == written.links
            && after.logs == written.logs + [PersistLog(CreateRow(w, s.models, actor)),
                                             PersistLog(UpdateRow(w, Fields(ChangeSet(w, map[])), actor))]
  {
    var w := prepared.(id := Str(Decimal(k)));
    var t := s.TablesWith(written.units, written.links);
    var created, changed := PersistLog(CreateRow(w, s.models, actor)),
                            PersistLog(UpdateRow(w, Fields(ChangeSet(w, map[])), actor));
    NewRecordLogsAccepted(w, k, s.models, actor, t);
    var logged := written.(logs := written.logs + [created]);
    assert CreatedOutcome(s, written, prepared, map[], k, actor) == (w, ChangesLogged(s, logged, w, map[], actor));
    assert ChangesLogged(s, logged, w, map[], actor) == logged.(logs := logged.logs + [changed]);
    AppendTwo(written.logs, created, changed);
  }

  lemma AppendTwo<T>(a: seq<T>, x: T, y: T)
    ensures a + [x] + [y] == a + [x, y]
  {
  }

  lemma NewRecordLogsAccepted(w: Unit, k: int, models: map<int, CatalogModel>, actor: int, t: Tables)
    requires w.id == Str(Decimal(k)) && k in t.warehouses && actor in t.users && w.createDate == DbNow
    ensures LogIfAccepted(CreateRow(w, models, actor), t) == [PersistLog(CreateRow(w, models, actor))]
    ensures var d := Fields(ChangeSet(w, map[]));
            LogIfAccepted(UpdateRow(w, d, actor), t) == [PersistLog(UpdateRow(w, d, actor))]
  {
    DecimalRoundTrip(k);
    DecimalNotBlank(k);
    CreateRowAccepted(w, models, actor, t);
    UpdateRowAccepted(w, Fields(ChangeSet(w, map[])), actor, t);
  }

  /** Whatever `save` is given, a record it accepts names an existing user,
      so the log rows above are never refused. */
  lemma AcceptedSaveHasActor(s: Store, rows: Rows, current: Unit, r: Payload, actor: int, stillNew: bool)
    ensures SaveOutcome(s, rows, current, r, actor, stillNew).0.Saved? ==> actor in s.users
  {
    var key := ToInt(Get(r, Id));
    var base := if key > 0 && key in rows.units then AfterFind(rows.units[key], s.models, rows.links) else current;
    ValidUnitNamesActor(Prepared(base, r, actor), actor, s.TablesWith(rows.units, rows.links));
  }

  /** Once the relinking of a request that names an order has gone through,
      the unit the request names has exactly one link: the hand-written one. */
  lemma RelinkLeavesOneLink(s: Store, rows: Rows, r: Payload, actor: int)
    requires Linked(r)
    ensures var (res, after) := Relinked(s, rows, r, actor);
            var ow := PersistLink(ManualLink(r, s.orders, actor));
            res.Saved? ==> ow in after.links && forall l | l in after.links :: OfUnit(l, Get(r, Id)) <==> l == ow
  {
    var v := Get(r, Id);
    var ow := ManualLink(r, s.orders, actor);
    var kept := Keep(rows.links, NotOfUnit(v));
    var t := s.TablesWith(rows.units, kept);
    if LinkErrors(ow, t) == [] {
      var m := LinkAttributes(ow);
      LinkRulesIff(m, t);
      assert Get(m, WarehouseId) == v;
      IntColumnKeepsReading(v);
      assert OfUnit(PersistLink(ow), v);
      forall l | l in kept
        ensures !OfUnit(l, v)
      {
        assert NotOfUnit(v)(l);
      }
    }
  }

  /** Without an order, the relinking goes through and leaves the unit the
      request names with no link at all. */
  lemma UnlinkedRelinkDropsLinks(s: Store, rows: Rows, r: Payload, actor: int)
    requires !Linked(r)
    ensures var (res, after) := Relinked(s, rows, r, actor);
            && res.Saved?
            && after == rows.(links := Keep(rows.links, NotOfUnit(Get(r, Id))))
            && forall l | l in after.links :: !OfUnit(l, Get(r, Id))
  {
    var v := Get(r, Id);
    forall l | l in Keep(rows.links, NotOfUnit(v))
      ensures !OfUnit(l, v)
    {
      assert NotOfUnit(v)(l);
    }
  }

  /** An update without an order, by an existing user, of a unit stored
      under its id (an integer or an integer string): all links the request
      names go, and exactly one log row, its change set, is appended. */
  lemma UnlinkedUpdateLogged(s: Store, written: Rows, saved: Unit, before: Payload, r: Payload, actor: int)
    requires !Linked(r) && !IsBlank(saved.id) && IsIntegerValue(saved.id) && ToInt(saved.id) in written.units
    requires actor in s.users
    ensures var kept := Keep(written.links, NotOfUnit(Get(r, Id)));
            UpdatedOutcome(s, written, saved, before, r, actor)
              == (Saved, written.(links := kept,
                                  logs := written.logs + [PersistLog(UpdateRow(saved, Fields(ChangeSet(saved, before)), actor))]))
  {
    var kept := Keep(written.links, NotOfUnit(Get(r, Id)));
    UnlinkedRelinkDropsLinks(s, written, r, actor);
    UpdateRowAccepted(saved, Fields(ChangeSet(saved, before)), actor, s.TablesWith(written.units, kept));
  }

  /** A save of a stored unit, named by its id as an integer or an integer
      string and without an order, that the unit's rules accept: the unit
      is rewritten under its id, the links of that id are deleted, and
      `logUpdate` appends one row with what changed since the unit was
      loaded. */
  lemma UpdateLoggedOnce(s: Store, rows: Rows, current: Unit, r: Payload, actor: int, stillNew: bool, key: int)
    requires key > 0 && key in rows.units && ToInt(Get(r, Id)) == key
    requires IsIntegerValue(Get(r, Id)) && !IsBlank(Get(r, Id))
    requires !Linked(r) && actor in s.users
    requires UnitErrors(Prepared(AfterFind(rows.units[key], s.models, rows.links), r, actor),
                        s.TablesWith(rows.units, rows.links)) == []
    ensures var base := AfterFind(rows.units[key], s.models, rows.links);
            var w := Prepared(base, r, actor);
            SaveOutcome(s, rows, current, r, actor, stillNew)
              == (Saved, w, rows.(units := rows.units[key := Persist(w, key)],
                                  links := Keep(rows.links, NotOfUnit(Get(r, Id))),
                                  logs := rows.logs + [PersistLog(UpdateRow(w, Fields(ChangeSet(w, Columns(base))), actor))]))
  {
    var base := AfterFind(rows.units[key], s.models, rows.links);
    var w := Prepared(base, r, actor);
    assert w.id == Get(r, Id);
    StoredRecordTakesUpdate(s, rows, current, r, actor, stillNew, key);
    UnlinkedUpdateLogged(s, rows.(units := rows.units[key := Persist(w, key)]), w, Columns(base), r, actor);
  }

  /** An accepted request naming a stored unit by a positive id rewrites
      that unit under its id and takes the update branch, whatever
      `isNewRecord` says. */
  lemma StoredRecordTakesUpdate(s: Store, rows: Rows, current: Unit, r: Payload, actor: int, stillNew: bool, key: int)
    requires key > 0 && key in rows.units && ToInt(Get(r, Id)) == key
    requires UnitErrors(Prepared(AfterFind(rows.units[key], s.models, rows.links), r, actor),
                        s.TablesWith(rows.units, rows.links)) == []
    ensures var base := AfterFind(rows.units[key], s.models, rows.links);
            var w := Prepared(base, r, actor);
            var u := UpdatedOutcome(s, rows.(units := rows.units[key := Persist(w, key)]), w, Columns(base), r, actor);
            SaveOutcome(s, rows, current, r, actor, stillNew) == (u.0, w, u.1)
  {
  }

  /** A request without a positive id whose record the framework no longer
      counts as new after its insert (Yii 2's `insert()` leaves
      `isNewRecord` false) takes the update branch. The unit is stored, but
      with a positive order id the hand-written link names the request's own
      id, which is no stored unit, so `save` returns the link's errors and
      logs nothing. */
  lemma NewRecordLinkRejected(s: Store, rows: Rows, current: Unit, r: Payload, actor: int)
    requires ToInt(Get(r, Id)) <= 0 && Linked(r)
    requires rows.nextId > 0 && ToInt(Get(r, Id)) !in rows.units
    requires UnitErrors(Prepared(current, r, actor), s.TablesWith(rows.units, rows.links)) == []
    ensures var prepared := Prepared(current, r, actor);
            var (res, w, after) := SaveOutcome(s, rows, current, r, actor, false);
            && res.Rejected?
            && w == prepared.(id := Int(rows.nextId))
            && after == Written(rows, prepared).(links := Keep(rows.links, NotOfUnit(Get(r, Id))))
  {
    var prepared := Prepared(current, r, actor);
    UnsavedIdLinkRejected(s, Written(rows, prepared), r, actor);
    RejectedUpdateOnlyRelinks(s, Written(rows, prepared), prepared.(id := Int(rows.nextId)), map[], r, actor);
    NewRecordTakesUpdate(s, rows, current, r, actor);
  }

  /** With `isNewRecord` false, an accepted request without a positive id is
      written under the next id and then handled as an update. */
  lemma NewRecordTakesUpdate(s: Store, rows: Rows, current: Unit, r: Payload, actor: int)
    requires ToInt(Get(r, Id)) <= 0
    requires UnitErrors(Prepared(current, r, actor), s.TablesWith(rows.units, rows.links)) == []
    ensures var saved := Prepared(current, r, actor).(id := Int(rows.nextId));
            var u := UpdatedOutcome(s, Written(rows, Prepared(current, r, actor)), saved, map[], r, actor);
            SaveOutcome(s, rows, current, r, actor, false) == (u.0, saved, u.1)
  {
  }

  /** An update whose relinking is refused ends with the relinking's rows. */
  lemma RejectedUpdateOnlyRelinks(s: Store, written: Rows, saved: Unit, before: Payload, r: Payload, actor: int)
    requires Relinked(s, written, r, actor).0.Rejected?
    ensures UpdatedOutcome(s, written, saved, before, r, actor) == Relinked(s, written, r, actor)
  {
  }

  /** The rows after a new record is inserted under the next id. */
  function Written(rows: Rows, prepared: Unit): (w: Rows)
    ensures w.units.Keys == rows.units.Keys + {rows.nextId} && w.nextId == rows.nextId + 1
    ensures w.links == rows.links && w.logs == rows.logs
  {
    rows.(units := rows.units[rows.nextId := Persist(prepared, rows.nextId)], nextId := rows.nextId + 1)
  }

  /** The relinking of a request with an order id, whose own id names no
      stored unit, is always refused and only deletes links: the hand-written
      link's `warehouse_id` is blank or not found. */
  lemma UnsavedIdLinkRejected(s: Store, rows: Rows, r: Payload, actor: int)
    requires Linked(r) && ToInt(Get(r, Id)) !in rows.units
    ensures var (res, after) := Relinked(s, rows, r, actor);
            res.Rejected? && after == rows.(links := Keep(rows.links, NotOfUnit(Get(r, Id))))
  {
    var kept := Keep(rows.links, NotOfUnit(Get(r, Id)));
    var ow := ManualLink(r, s.orders, actor);
    LinkRulesIff(LinkAttributes(ow), s.TablesWith(rows.units, kept));
  }

  /** The two rows a split writes conserve the amount: the source keeps
      what the child did not take, no less than nothing once the checks
      passed, and the child names the source as its parent. */
  lemma SplitConservesAmount(model: Unit, data: Payload, source: Option<Unit>, actor: int, key: int, c: int)
    ensures var src := Persist(Decremented(model, data), key);
            var child := Persist(Child(source, model, data, actor), c);
            && ToInt(src.amount) + ToInt(child.amount) == ToInt(model.amount)
            && ToInt(child.parentId) == ToInt(model.id)
            && (SplitProblems(model, data) == [] ==> ToInt(src.amount) >= 0)
  {
    IntColumnKeepsReading(Get(data, Amount));
    IntColumnKeepsReading(model.id);
    if SplitProblems(model, data) == [] {
      assert IsSet(data, Amount) && ToInt(data[Amount]) <= ToInt(model.amount);
    }
  }

  /** The status comment is saved exactly when the unit, the actor and the
      new status exist. */
  lemma StatusCommentAcceptedIff(s: Store, oldStatus: int, newStatus: int, warehouseId: int,
                                 responsible: int, actor: int, t: Tables)
    requires oldStatus in s.statuses && newStatus in s.statuses && responsible in s.users
    ensures CommentErrors(StatusCommentRow(s, oldStatus, newStatus, warehouseId, responsible, actor), t) == [] <==>
            warehouseId in t.warehouses && actor in t.users && newStatus in t.statuses
  {
    CommentRowAcceptedIff(StatusCommentRow(s, oldStatus, newStatus, warehouseId, responsible, actor), t);
  }
}
