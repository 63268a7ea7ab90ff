/**
 * `WarehouseRepository`: the audit-log appenders, the link of a unit to an
 * order, comments, and the read-only selections of units. The user that
 * `\Yii::$app->user->id` names is the parameter `actor`.
 */
module Repository {
  import opened Php
  import opened Validators
  import opened OrdersWarehouseEntity
  import opened CommentEntity
  import opened LogEntity
  import opened WarehouseEntity
  import opened WarehouseStatus
  import opened Database

  /** The name of the unit's catalogue model; '' when the model is missing
      (reading a property of null). */
  function ModelName(model: Unit, models: map<int, CatalogModel>): string
  {
    var m := ModelOf(model, models);
    if m.Some? then m.value.name else ""
  }

  /** The row `logUpdate` writes. */
  function UpdateRow(model: Unit, dirty: Dirty, actor: int): LogRow
  {
    LogRow(model.id, Int(actor), Changed(dirty), DbNow)
  }

  /** The row `logCreate` writes: its date is the unit's own. */
  function CreateRow(model: Unit, models: map<int, CatalogModel>, actor: int): LogRow
  {
    LogRow(model.id, Int(actor), Added(model.id, ModelName(model, models), model.serial, model.amount),
           model.createDate)
  }

  /** The link `addDeviceToOrder` writes. */
  function OrderLink(orderId: int, warehouseId: int, comment: string, actor: int): Link
  {
    Link(Int(orderId), Int(warehouseId), Str(comment), Int(actor), DbNow)
  }

  /** What linking does to a unit: it is now installed. */
  function Installed(u: Unit): Unit
  {
    u.(statusId := Int(AT_WORK))
  }

  /** The change `addDeviceToOrder` logs: the labels of the old and the new status. */
  function StatusDirty(before: Scalar): Dirty
  {
    StatusChange(LabelOf(ToInt(before)), LabelOf(AT_WORK))
  }

  /** The comment `saveComment` writes for unit `id`, loaded as `unit`: the
      trimmed text, the unit's current status, and the given user or else
      the actor. */
  function CommentFor(id: int, text: string, userId: Scalar, actor: int, unit: Option<Unit>): CommentRow
  {
    CommentRow(Int(id), if Truthy(userId) then userId else Int(actor), Str(Trim(text)), DbNow,
               if unit.Some? then unit.value.statusId else Null)
  }

  /** What `saveComment` returns: nothing, the saved record, or its errors. */
  datatype CommentResult = NoResult | SavedComment(row: CommentRow) | CommentRejected(errors: Errors)

  /** Linking a unit always writes the status it forces, whatever the status before. */
  lemma InstalledStatus(u: Unit)
    ensures ToInt(Installed(u).statusId) == AT_WORK && LabelOf(AT_WORK) == Str("Установлено")
    ensures SameColumns(Installed(u), u.(statusId := Int(AT_WORK)))
  {
  }

  /** A `logUpdate` for an existing unit by an existing user is never rejected,
      whatever it encodes. */
  lemma UpdateRowAccepted(model: Unit, dirty: Dirty, actor: int, t: Tables)
    requires !IsBlank(model.id) && IsIntegerValue(model.id) && ToInt(model.id) in t.warehouses
    requires actor in t.users
    ensures LogErrors(UpdateRow(model, dirty, actor), t) == []
  {
    LogRowAccepted(UpdateRow(model, dirty, actor), t);
  }

  /** For a unit stored under an integer id, whether `logUpdate` writes its
      row depends only on the actor being an existing user. */
  lemma UpdateRowAcceptedIff(model: Unit, dirty: Dirty, actor: int, t: Tables)
    requires model.id.Int? && model.id.i in t.warehouses
    ensures LogErrors(UpdateRow(model, dirty, actor), t) == [] <==> actor in t.users
  {
    var l := UpdateRow(model, dirty, actor);
    if actor in t.users {
      LogRowAccepted(l, t);
    } else if LogErrors(l, t) == [] {
      var m := LogAttributes(l);
      assert Get(m, UserId) == Int(actor);
      LogNeedsUnit(m, t);
    }
  }

  /** The same for `logCreate`, given that the unit carries a date. */
  lemma CreateRowAccepted(model: Unit, models: map<int, CatalogModel>, actor: int, t: Tables)
    requires !IsBlank(model.id) && IsIntegerValue(model.id) && ToInt(model.id) in t.warehouses
    requires actor in t.users && !IsBlank(model.createDate)
    ensures LogErrors(CreateRow(model, models, actor), t) == []
  {
    LogRowAccepted(CreateRow(model, models, actor), t);
  }

  /** A comment that names an existing unit, user and status by integer ids is
      saved; one for a missing unit never is, so a comment always attaches to
      an existing unit. */
  lemma CommentForAccepted(id: int, text: string, userId: Scalar, actor: int, unit: Option<Unit>, t: Tables)
    requires !Truthy(userId) || userId.Int?
    requires unit.Some? ==> unit.value.statusId.Int?
    ensures var c := CommentFor(id, text, userId, actor, unit);
            CommentErrors(c, t) == [] <==>
            id in t.warehouses && ToInt(c.userId) in t.users && unit.Some? && ToInt(unit.value.statusId) in t.statuses
  {
    var c := CommentFor(id, text, userId, actor, unit);
    if unit.Some? {
      CommentRowAcceptedIff(c, t);
    } else {
      CommentSavedForUnit(c, t);
    }
  }

  /** What the second half of `addDeviceToOrder` leaves behind, given the
      unit `model` as loaded from `units[key]`: the errors of the unit with
      status AT_WORK; when there are none, that status stored and the labels
      of the old and the new status logged (a log row by a missing user is
      refused); when there are some, neither the units nor the log change. */
  ghost predicate InstallOutcome(units: map<int, Unit>, logs: seq<LogRow>, model: Unit, key: int, actor: int,
                                 errs: Errors, t: Tables, units': map<int, Unit>, logs': seq<LogRow>)
    requires key in units
  {
    && errs == UnitErrors(Installed(model), t)
    && units' == (if errs == [] then units[key := Installed(units[key])] else units)
    && logs' == logs + (if errs == [] && actor in t.users
                        then [PersistLog(UpdateRow(Installed(model), StatusDirty(units[key].statusId), actor))]
                        else [])
  }

  class WarehouseRepository {
    const store: Store

    constructor(store: Store)
      ensures this.store == store
    {
      this.store := store;
    }

    /** `logUpdate`: one log row for `model.id` by the actor, carrying the
        change set; its errors when its rules reject it. */
    method LogUpdate(model: Unit, dirty: Dirty, actor: int) returns (errs: Errors)
      requires store.Valid()
      modifies store
      ensures store.Valid()
      ensures errs == LogErrors(UpdateRow(model, dirty, actor), old(store.Lookups()))
      ensures store.logs == old(store.logs) + (if errs == [] then [PersistLog(UpdateRow(model, dirty, actor))] else [])
      ensures store.units == old(store.units) && store.nextId == old(store.nextId)
      ensures store.links == old(store.links) && store.comments == old(store.comments)
    {
      errs := store.InsertLog(UpdateRow(model, dirty, actor));
    }

    /** `logCreate`: one log row for `model.id` by the actor, naming the unit's
        id, model, serial and amount and dated as the unit is. */
    method LogCreate(model: Unit, actor: int) returns (errs: Errors)
      requires store.Valid()
      modifies store
      ensures store.Valid()
      ensures errs == LogErrors(CreateRow(model, store.models, actor), old(store.Lookups()))
      ensures store.logs == old(store.logs) + (if errs == [] then [PersistLog(CreateRow(model, store.models, actor))] else [])
      ensures store.units == old(store.units) && store.nextId == old(store.nextId)
      ensures store.links == old(store.links) && store.comments == old(store.comments)
    {
      errs := store.InsertLog(CreateRow(model, store.models, actor));
    }

    /** `addDeviceToOrder`: link the unit to the order; only once the link is
        saved, set the unit's status to AT_WORK; only once the unit is saved,
        log the old and new status labels. A rejected link changes nothing; a
        rejected unit keeps the link but not the status, and nothing is logged. */
    method AddDeviceToOrder(orderId: int, warehouseId: int, comment: string, actor: int) returns (errs: Errors)
      requires store.Valid()
      modifies store
      ensures store.Valid()
      ensures store.nextId == old(store.nextId) && store.comments == old(store.comments)
      ensures var link := OrderLink(orderId, warehouseId, comment, actor);
              var linkErrs := LinkErrors(link, old(store.Lookups()));
              store.links == old(store.links) + (if linkErrs == [] then [PersistLink(link)] else []) &&
              (linkErrs != [] ==>
                 errs == linkErrs && store.units == old(store.units) && store.logs == old(store.logs)) &&
              (linkErrs == [] ==>
                 warehouseId in old(store.units) &&
                 InstallOutcome(old(store.units), old(store.logs),
                                AfterFind(old(store.units)[warehouseId], store.models, store.links),
                                warehouseId, actor, errs, store.TablesWith(old(store.units), store.links),
                                store.units, store.logs))
    {
      var link := OrderLink(orderId, warehouseId, comment, actor);
      LinkFound(link, store.Lookups());
      var linkErrs := store.InsertLink(link);
      errs := InstallIfLinked(linkErrs, warehouseId, actor);
    }

    /** The rest of `addDeviceToOrder` once the link write reported `linkErrs`. */
    method InstallIfLinked(linkErrs: Errors, warehouseId: int, actor: int) returns (errs: Errors)
      requires store.Valid() && (linkErrs == [] ==> warehouseId in store.units)
      modifies store
      ensures store.Valid()
      ensures store.nextId == old(store.nextId) && store.comments == old(store.comments)
      ensures store.links == old(store.links)
      ensures linkErrs != [] ==> errs == linkErrs && store.units == old(store.units) && store.logs == old(store.logs)
      ensures linkErrs == [] ==>
                InstallOutcome(old(store.units), old(store.logs),
                               AfterFind(old(store.units)[warehouseId], store.models, store.links),
                               warehouseId, actor, errs, store.TablesWith(old(store.units), store.links),
                               store.units, store.logs)
    {
      if linkErrs != [] {
        errs := linkErrs;
      } else {
        errs := Install(warehouseId, actor);
      }
    }

    /** The second half of `addDeviceToOrder`, once the link is saved: the
        loaded unit `model` is saved with status AT_WORK, and once it is, the
        status change is logged. */
    method Install(warehouseId: int, actor: int) returns (errs: Errors)
      requires store.Valid() && warehouseId in store.units
      modifies store
      ensures store.Valid()
      ensures store.nextId == old(store.nextId) && store.comments == old(store.comments)
      ensures store.links == old(store.links)
      ensures InstallOutcome(old(store.units), old(store.logs),
                             AfterFind(old(store.units)[warehouseId], store.models, store.links),
                             warehouseId, actor, errs, store.TablesWith(old(store.units), store.links),
                             store.units, store.logs)
    {
      var model := store.FindOne(warehouseId).value;
      var moved := Installed(model);
      assert Persist(moved, warehouseId) == Installed(store.units[warehouseId]);
      errs := store.UpdateUnit(warehouseId, moved);
      LogInstall(errs, moved, StatusDirty(model.statusId), warehouseId, actor);
    }

    /** The log write of `addDeviceToOrder`, after the unit write reported `errs`. */
    method LogInstall(errs: Errors, moved: Unit, dirty: Dirty, warehouseId: int, actor: int)
      requires store.Valid() && moved.id == Int(warehouseId) && warehouseId in store.units
      modifies store
      ensures store.Valid()
      ensures store.logs == old(store.logs) +
                (if errs == [] && actor in store.users then [PersistLog(UpdateRow(moved, dirty, actor))] else [])
      ensures store.units == old(store.units) && store.nextId == old(store.nextId)
      ensures store.links == old(store.links) && store.comments == old(store.comments)
    {
      if errs == [] {
        UpdateRowAcceptedIff(moved, dirty, actor, store.Lookups());
        var logErrs := LogUpdate(moved, dirty, actor);
      }
    }

    /** `saveComment`: nothing for a non-positive id; otherwise a comment on
        unit `id` with the trimmed text, the unit's status at this moment and
        the given user (the actor when none is given). */
    method SaveComment(id: int, text: string, userId: Scalar, actor: int) returns (res: CommentResult)
      requires store.Valid()
      modifies store
      ensures store.Valid()
      ensures store.units == old(store.units) && store.nextId == old(store.nextId)
      ensures store.links == old(store.links) && store.logs == old(store.logs)
      ensures id <= 0 ==> res == NoResult && store.comments == old(store.comments)
      ensures id > 0 ==>
                var c := CommentFor(id, text, userId, actor, old(store.FindOne(id)));
                var errs := CommentErrors(c, old(store.Lookups()));
                res == (if errs == [] then SavedComment(c) else CommentRejected(errs)) &&
                store.comments == old(store.comments) + (if errs == [] then [PersistComment(c)] else [])
      ensures res.SavedComment? ==> id in old(store.units)
    {
      if id <= 0 {
        return NoResult;
      }
      var c := CommentFor(id, text, userId, actor, store.FindOne(id));
      CommentSavedForUnit(c, store.Lookups());
      var errs := store.InsertComment(c);
      res := if errs == [] then SavedComment(c) else CommentRejected(errs);
    }
  }

  /** A link that validates names an existing unit. */
  lemma LinkFound(l: Link, t: Tables)
    ensures LinkErrors(l, t) == [] && l.warehouseId.Int? ==> l.warehouseId.i in t.warehouses
  {
    if LinkErrors(l, t) == [] {
      var m := LinkAttributes(l);
      assert Get(m, WarehouseId) == l.warehouseId;
      LinkRulesIff(m, t);
    }
  }

  // ---------------------------------------------------------------------
  // Read-only selections

  /** `serial LIKE '%needle%'`: a null serial never matches. */
  predicate SerialLike(u: Unit, needle: string)
  {
    u.serial != Null && Contains(ToStr(u.serial), needle)
  }

  /** `searchBySerial`: the units whose serial contains the trimmed needle,
      whose status is `statusId` (NEW when the caller gives none) and whose
      responsible user is the actor. */
  function SearchBySerial(units: map<int, Unit>, serial: string, statusId: int, actor: int): (r: set<int>)
    ensures r <= units.Keys
    ensures forall k :: k in r <==>
              && k in units
              && units[k].serial != Null && Contains(ToStr(units[k].serial), Trim(serial))
              && units[k].statusId != Null && ToInt(units[k].statusId) == statusId
              && units[k].responsible != Null && ToInt(units[k].responsible) == actor
  {
    set k | k in units && SerialLike(units[k], Trim(serial)) &&
            SqlMatches(units[k].statusId, Int(statusId)) && SqlMatches(units[k].responsible, Int(actor))
  }

  /** `getConsumables`: the actor's units with the installer, without a serial. */
  function GetConsumables(units: map<int, Unit>, actor: int): (r: set<int>)
    ensures r <= units.Keys
    ensures forall k :: k in r <==>
              && k in units && units[k].serial == Str("")
              && units[k].statusId != Null && ToInt(units[k].statusId) == INSTALEER
              && units[k].responsible != Null && ToInt(units[k].responsible) == actor
  {
    set k | k in units && SqlMatches(units[k].responsible, Int(actor)) &&
            SqlMatches(units[k].statusId, Int(INSTALEER)) && units[k].serial == Str("")
  }

  /** `getConsumablesForOrder`: the installed units without a serial that
      have a link to the order. */
  function GetConsumablesForOrder(units: map<int, Unit>, links: seq<Link>, orderId: int): (r: set<int>)
    ensures r <= units.Keys
    ensures forall k | k in r :: (k, orderId) in Pairs(links)
    ensures forall k :: k in r <==>
              && k in units && units[k].serial == Str("")
              && units[k].statusId != Null && ToInt(units[k].statusId) == AT_WORK
              && exists j | 0 <= j < |links| :: && links[j].warehouseId != Null && ToInt(links[j].warehouseId) == k
                                                && links[j].orderId != Null && ToInt(links[j].orderId) == orderId
  {
    set k | k in units && SqlMatches(units[k].statusId, Int(AT_WORK)) && units[k].serial == Str("") &&
            exists j | 0 <= j < |links| :: OfUnit(links[j], Int(k)) && SqlMatches(links[j].orderId, Int(orderId))
  }

  /** A longer needle finds a subset of what a needle it contains finds. */
  lemma SearchNarrows(units: map<int, Unit>, a: string, b: string, statusId: int, actor: int)
    requires Contains(Trim(b), Trim(a))
    ensures SearchBySerial(units, b, statusId, actor) <= SearchBySerial(units, a, statusId, actor)
  {
    forall k | k in SearchBySerial(units, b, statusId, actor)
      ensures k in SearchBySerial(units, a, statusId, actor)
    {
      ContainsTransitive(ToStr(units[k].serial), Trim(b), Trim(a));
    }
  }

  /** A blank needle finds every unit of the status and the actor that has a serial at all. */
  lemma BlankNeedleFindsAllSerials(units: map<int, Unit>, serial: string, statusId: int, actor: int, k: int)
    requires Trim(serial) == "" && k in units
    ensures k in SearchBySerial(units, serial, statusId, actor) <==>
            units[k].serial != Null && SqlMatches(units[k].statusId, Int(statusId)) &&
            SqlMatches(units[k].responsible, Int(actor))
  {
    ContainsTrivial(ToStr(units[k].serial));
  }

  /** Consumables have an empty serial, so no search with a non-blank needle finds them. */
  lemma ConsumablesHaveNoSerial(units: map<int, Unit>, serial: string, statusId: int, actor: int)
    requires Trim(serial) != ""
    ensures GetConsumables(units, actor) !! SearchBySerial(units, serial, statusId, actor)
  {
    forall k | k in GetConsumables(units, actor)
      ensures !SerialLike(units[k], Trim(serial))
    {
      if Contains("", Trim(serial)) {
        var i: int :| 0 <= i <= 0 - |Trim(serial)| && OccursAt("", Trim(serial), i);
      }
    }
  }

  /** A consumable is with the installer or installed, never both. */
  lemma ConsumablesDisjoint(units: map<int, Unit>, links: seq<Link>, actor: int, orderId: int)
    ensures GetConsumables(units, actor) !! GetConsumablesForOrder(units, links, orderId)
  {
  }
}
