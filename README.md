# Warehouse: a Dafny model of the stock-keeping core

This project models the warehouse component of a PHP (Yii 2) field-service
application and proves properties of that model. The component keeps units
of equipment in stock. A unit is a single serialised device, or a batch of
an unserialised consumable with an amount. Each unit has:

- a status (new, defect, back to supplier, with the installer, installed,
  dismantled);
- a responsible user;
- optionally, a link to the service order it was installed for.

The model covers the following:

- **The four records** and their validation rules: the unit (`warehouse`),
  the order link (`orders_warehouse`), the audit log (`warehouse_log`) and
  the comment (`warehouse_comments`). Yii's `rules()` are interpreted as
  Yii runs them: in order, with `skipOnError` and `skipOnEmpty` (module
  `Validators`). Each entity's rule list is proved equivalent to a plain
  statement of what it demands.
- **`Warehouse::afterFind`** and the parent/children relations of split
  batches.
- **The database** the code writes through ActiveRecord (class
  `Database.Store`):
  - every insert or update validates first and writes nothing when
    validation fails;
  - integer columns are typecast on write;
  - the auto-increment id is modelled;
  - `deleteAll` keeps the rows the condition does not match, in order.
- **`WarehouseRepository`** (class `Repository.WarehouseRepository`):
  - the two audit-log appenders;
  - linking a unit to an order, which installs the unit and logs the status
    change;
  - saving a comment;
  - the serial search and the two consumable selections.
- **`WarehouseService`** (class `Service.WarehouseService`):
  - `save` (update or insert, relinking to an order, audit log of the
    change set);
  - `prepareLogAttributes`, `getStatuses` and `getFilters`;
  - `move` (the simple path and the split of a batch);
  - `saveCommentStatus` and `delete`.
- **The two DTOs** (`WarehouseResponseDto`, `WarehouseFiltersDto`) as
  classes, and the `WarehouseStatus` enumeration.

PHP's dynamic values are the datatype `Php.Scalar`: null, integer, string,
or the SQL expression `NOW()`. A request array or a record's attribute
array is a `Payload`, a map from attribute name to scalar. A missing key
reads as null, as an undefined index does in PHP. The PHP 8 rules for
`(int)`, string conversion, `trim`, `array_diff` and array-key
normalisation are written out in module `Php`.

The logged-in user, `\Yii::$app->user->id`, is the parameter `actor` of
every operation that reads it. Reference tables that the warehouse only
reads are fixed fields of the store:

- users with their short names;
- companies;
- catalogue models;
- stocks;
- material statuses with their coloured labels;
- orders.

The service's `save` is specified against the function
`Service.SaveOutcome`, which gives the result, the service's record and the
new rows. The properties of `save` are proved about that function and its
parts. `move` is specified against `Service.SaveOutcome` (simple path) and
the predicate `Service.SplitOutcome` (split path). The listing filter
`getFilters` is proved to select exactly the units a field-by-field reading
of the filters accepts.

### Behaviour of the code worth noting

- An update with a positive `order_id` does not move the unit to
  "installed" (AT_WORK). In the code (services/WarehouseService.php:100-118):
  - `save` first stores the link itself;
  - it then calls `addDeviceToOrder` for the same unit and order;
  - that call inserts the same (warehouse_id, order_id) pair again, which
    the link's `unique` rule (entities/OrdersWarehouse.php:43) rejects;
  - so the status is never changed and no status change is logged.

  `Service.WarehouseService.LinkAgain` proves that this second call changes
  nothing.
- A request without a positive id inserts a new unit. Which branch follows
  depends on the record's `isNewRecord` flag after that insert
  (services/WarehouseService.php:89), the parameter `stillNew` of the model:
  - while the record still counts as new, the unit is only logged as
    created, and no link is written;
  - once the insert has cleared the flag, as Yii 2's `insert()` does, the
    update branch runs. It deletes the links of the request's own id, and
    with a positive `order_id` it builds a link whose `warehouse_id` is that
    id (null or not positive). The `required`/`exist` rules refuse it, so
    `save` returns the link's errors although the unit is already stored.
    `Service.NewRecordLinkRejected` proves this.
- In `move`, a failed simple-path save hands the error array to
  `addMessage(string)`. PHP rejects that call with a type error, so no
  ERROR response is built. The model reports that case as `typeError`.
- The split path of `move` accepts a negative amount: none of the three
  checks rejects it. Such a split grows the source and gives the child a
  negative amount. `Service.SplitConservesAmount` shows the total is still
  conserved.
- `delete` removes the unit's log rows and comments before it tries the
  delete, and it never removes the unit's order links. A missing unit gives
  ERROR: `null->delete()` throws an `Error`, which the final
  `catch (\Throwable)` turns into the failure response.
- `getStatuses` removes the unit's status only when PHP would use that
  value as the same array key: an integer, or a canonical integer string.

## Model

| member | source | states |
|---|---|---|
| WarehouseStatus.Items | enum/WarehouseStatus.php:48-58 | `items()` has exactly the six status codes as keys, each with a non-empty label |
| WarehouseStatus.LabelOf | enum/WarehouseStatus.php:48-58 | `items()[$s]` is a label exactly for the codes 1 to 6, the one `items()` gives; any other code reads null |
| WarehouseStatus.CodesAreOneToSix | enum/WarehouseStatus.php:17-42 | the codes are NEW=1 < DEFECT < TO_SUPPLIER < INSTALEER < AT_WORK < DISMANTLED=6, and a code has a label iff it is between 1 and 6 |
| WarehouseStatus.LabelsDistinct | enum/WarehouseStatus.php:50-57 | two different statuses never share a label |
| ResponseDto.WarehouseResponse.constructor | dto/WarehouseResponseDto.php:30-34 | a fresh response has code OK (200) and the single message "Все в норме" |
| ResponseDto.WarehouseResponse.AddMessage | dto/WarehouseResponseDto.php:47-50 | the message is appended, the code is unchanged, and the first message stays the constructor's |
| ResponseDto.WarehouseResponse.SetCode | dto/WarehouseResponseDto.php:55-58 | the code is replaced and the messages are unchanged |
| ResponseDto.WarehouseResponse.GetMessages | dto/WarehouseResponseDto.php:63-66 | the messages of a well-formed response begin with the "all well" message |
| ResponseDto.WarehouseResponse.GetMessageText | dto/WarehouseResponseDto.php:71-74 | the joined text is at least as long as every message and begins with the first message |
| ResponseDto.MessagesInText | dto/WarehouseResponseDto.php:71-74 | `implode(',', ...)` begins with its first part and is at least as long as every part |
| ResponseDto.ExplodeImplode | dto/WarehouseResponseDto.php:71-74 | splitting the joined text at commas gives back the messages, when no message contains a comma |
| FiltersDto.WarehouseFilter.constructor | dto/WarehouseFiltersDto.php:16-20 | a filter holds the field and the value it is built with |
| FiltersDto.WarehouseFilter.SetField | dto/WarehouseFiltersDto.php:33-36 | the field is replaced and the value is kept |
| FiltersDto.WarehouseFilter.SetValue | dto/WarehouseFiltersDto.php:49-52 | the value is replaced and the field is kept |
| FiltersDto.CheckFieldExist | dto/WarehouseFiltersDto.php:62-73 | true iff some filter names the field and has a value of non-zero `strlen`; false for an empty list |
| FiltersDto.ZeroHasLength | dto/WarehouseFiltersDto.php:67 | "0" has a length and so counts as set; "" and null do not |
| ListingFilters.GetFilters | services/WarehouseService.php:202-244 | the query built lets a unit through iff every filter accepts it field by field; with no filters, iff the unit is not installed |
| ListingFilters.AddFilter | services/WarehouseService.php:205-237 | one filter's conditions narrow the query by exactly what that filter demands (serial substring, model, status, responsible or unassigned for 0, company, single device or batch) |
| ListingFilters.NoFiltersHideInstalled | services/WarehouseService.php:239-241 | with no filters the listing shows a unit iff its status is not AT_WORK |
| ListingFilters.UnknownFieldIgnored | services/WarehouseService.php:204-238 | adding a filter on an unrecognised field to a non-empty list does not change the selection |
| ListingFilters.ZeroResponsibleMeansUnassigned | services/WarehouseService.php:217-223 | `responsible_id` "0" selects exactly the units with no responsible user |
| Php.ArrayDiffAgainstEmpty | services/WarehouseService.php:122-123 | against an empty "before" array (a new record), `array_diff` keeps every attribute |
| Php.ArrayDiffSelf | services/WarehouseService.php:122-123 | comparing an attribute array with itself gives no changes |
| Php.ArrayDiffSound | services/WarehouseService.php:122-123 | an attribute in the diff keeps its new value, which differs as a string from its old value |
| Php.ArrayDiffMissesMovedValue | services/WarehouseService.php:122-123 | `array_diff` compares values, not keys: any attribute whose new value equals, as a string, the old value of any attribute at all is left out of the change set, even when its own value changed |
| Php.DecimalIsArrayKey | services/WarehouseService.php:157 | a status loaded as an integer or as its decimal string is the same array key |
| Validators.ValidateCleanIff | entities/Warehouse.php:71-137 | running a rule list reports no error iff every rule passes on every attribute it names |
| Validators.OneErrorEach | entities/Warehouse.php:71-137 | with `skipOnError`, an attribute collects at most one error |
| WarehouseEntity.AssignSetsNamedColumns | services/WarehouseService.php:82 | `setAttributes($r, false)` sets each column the request names to the request's value and keeps every other column |
| WarehouseEntity.CopyKeepsId | services/WarehouseService.php:303-304 | copying `$old->attributes` onto a new record copies every safe column but not the id |
| WarehouseEntity.AfterFind | entities/Warehouse.php:256-266 | a loaded unit keeps its columns, takes vendor and type from its catalogue model (null when there is none), and takes `order_id` from its first link when it has one |
| WarehouseEntity.AfterFindIdempotent | entities/Warehouse.php:256-266 | applying `afterFind` twice gives the same record as once |
| WarehouseEntity.AfterFindOrder | entities/Warehouse.php:262-265 | a unit with exactly one link takes that link's order |
| WarehouseEntity.ParentOf | entities/Warehouse.php:240-243 | the parent relation names a stored unit, or none |
| WarehouseEntity.ChildrenAreInverseOfParent | entities/Warehouse.php:224-243 | `childs` of p are exactly the stored units whose parent is p |
| WarehouseEntity.ChildrenDisjoint | entities/Warehouse.php:224-227 | two different units have no child in common |
| WarehouseEntity.AnyExistingParentAccepted | entities/Warehouse.php:129-135 | a valid unit stays valid when given any stored unit as parent |
| WarehouseEntity.UnitValidIff | entities/Warehouse.php:71-137 | a unit validates iff it has all five required ids, its integer columns are integers or empty, its texts are strings (pin code at most 255) and every referenced row exists |
| WarehouseEntity.UnitRulesIff | entities/Warehouse.php:71-137 | the same statement for any attribute array |
| WarehouseEntity.UnitFormatRules | entities/Warehouse.php:74-78 | the first five rules pass iff the attributes are well formed |
| WarehouseEntity.UnitRequiredRule | entities/Warehouse.php:74 | the `required` rule passes iff company, model, stock, status and user are all present |
| WarehouseEntity.UnitIntegerRule | entities/Warehouse.php:75 | the `integer` rule passes iff the eight integer columns are integers or empty |
| WarehouseEntity.UnitTextRules | entities/Warehouse.php:76-78 | serial and comment must be strings, the `safe` rule never fails, and the pin code is at most 255 characters |
| WarehouseEntity.UnitReferenceRules | entities/Warehouse.php:79-135 | the `exist` rules pass iff every referenced user, company, shipper, model, status, stock and parent exists |
| WarehouseEntity.UnitUserCompanyRules | entities/Warehouse.php:79-92 | the author and the owning company must exist |
| WarehouseEntity.UnitShipperModelRules | entities/Warehouse.php:93-106 | the shipper and the catalogue model must exist |
| WarehouseEntity.UnitResponsibleStatusRules | entities/Warehouse.php:107-120 | the rule declared on `responsibleUser` never fails; the status must exist |
| WarehouseEntity.UnitStockParentRules | entities/Warehouse.php:121-135 | the stock and the parent unit must exist |
| LogEntity.ActionText | repositories/WarehouseRepository.php:93-103 | the action text of a log row is never empty |
| LogEntity.ActionTextNotBlank | repositories/WarehouseRepository.php:93-103 | the action text passes the `required` rule: it is not blank after trimming |
| LogEntity.LogValidIff | entities/WarehouseLog.php:33-43 | a log row validates iff unit, user, action and date are present, the ids are integers and the action is a string, and the unit and the user exist |
| LogEntity.LogRulesIff | entities/WarehouseLog.php:33-43 | the same statement for any attribute array |
| LogEntity.LogFormatRules | entities/WarehouseLog.php:36-37 | the `required` and `integer` rules together |
| LogEntity.LogRequiredRule | entities/WarehouseLog.php:36 | unit, user, action and date must be present |
| LogEntity.LogIntegerRule | entities/WarehouseLog.php:37 | the unit and user ids must be integers or empty |
| LogEntity.LogReferenceRules | entities/WarehouseLog.php:38-41 | the action must be a string, and the unit and the user must exist |
| LogEntity.LogNeedsUnit | entities/WarehouseLog.php:40-41 | a stored log row names an existing unit and an existing user |
| LogEntity.LogRowAccepted | entities/WarehouseLog.php:36-41 | a row with an existing integer unit id, an existing actor and a date is accepted |
| LogEntity.LogAccepted | entities/WarehouseLog.php:36-41 | the same, for any attribute array with a non-blank action |
| CommentEntity.CommentValidIff | entities/WarehouseComments.php:36-47 | a comment validates iff unit, user and status are present integers naming existing rows and its text, if any, is a string |
| CommentEntity.CommentRulesIff | entities/WarehouseComments.php:36-47 | the same statement for any attribute array |
| CommentEntity.CommentFormatRules | entities/WarehouseComments.php:39-40 | the `required` and `integer` rules together |
| CommentEntity.CommentReferenceRules | entities/WarehouseComments.php:41-45 | the text must be a string; the user, the unit and the status must exist |
| CommentEntity.CommentNeedsUnit | entities/WarehouseComments.php:44-45 | a stored comment names an existing unit and an existing status |
| CommentEntity.CommentRowAcceptedIff | entities/WarehouseComments.php:39-45 | with integer ids and a string text, a comment is accepted iff its unit, user and status exist |
| CommentEntity.CommentIntegerIdsIff | entities/WarehouseComments.php:39-45 | the same, for any attribute array |
| CommentEntity.CommentSavedForUnit | entities/WarehouseComments.php:44-45 | an accepted comment row names an existing unit and status |
| OrdersWarehouseEntity.LinkValidIff | entities/OrdersWarehouse.php:36-48 | a link validates iff its three ids are present integers, its comment is a string, its (unit, order) pair is not stored yet, and the user, the order and the unit exist |
| OrdersWarehouseEntity.LinkRulesIff | entities/OrdersWarehouse.php:36-48 | the same statement for any attribute array |
| OrdersWarehouseEntity.LinkFormatRules | entities/OrdersWarehouse.php:39-40 | the `required` and `integer` rules together |
| OrdersWarehouseEntity.LinkUniqueUserRules | entities/OrdersWarehouse.php:41-43 | the comment must be a string, and the `unique` rule on (warehouse_id, order_id) holds for both attributes |
| OrdersWarehouseEntity.LinkReferenceRules | entities/OrdersWarehouse.php:44-46 | the user, the order and the unit must exist |
| OrdersWarehouseEntity.LinkUnique | entities/OrdersWarehouse.php:43 | a valid link names a unit and an order whose pair is not stored yet |
| OrdersWarehouseEntity.LinkSavedPairIsNew | entities/OrdersWarehouse.php:43 | the row a valid link writes carries a pair that no stored link has |
| OrdersWarehouseEntity.SavedPairIsNew | entities/OrdersWarehouse.php:43 | the same, stated for a link known to validate |
| OrdersWarehouseEntity.StoredPairRejected | entities/OrdersWarehouse.php:43 | a link whose pair is already stored is always rejected |
| Database.Keep | services/WarehouseService.php:94-96 | `deleteAll` keeps exactly the rows its condition does not match, and never adds rows |
| Database.KeepCounts | services/WarehouseService.php:94-96 | `deleteAll` leaves every row it does not match exactly as often as it occurred, and no matched row |
| Database.KeepKeepsPairsDistinct | entities/OrdersWarehouse.php:43 | deleting links keeps every (unit, order) pair unique |
| Database.AppendKeepsPairsDistinct | entities/OrdersWarehouse.php:43 | appending a link with a new pair keeps every pair unique |
| Database.Store.FindOne | services/WarehouseService.php:75 | `findOne($key)` finds a record iff the row is stored, and the record has that row's columns |
| Database.Store.InsertUnit | services/WarehouseService.php:86 | an insert validates, then stores the typecast row under the next id, or changes nothing |
| Database.Store.UpdateUnit | services/WarehouseService.php:86 | an update validates, then overwrites the stored row, or changes nothing |
| Database.Store.DeleteUnit | services/WarehouseService.php:389 | the delete succeeds iff the row exists and the database does not refuse it |
| Database.Store.InsertLink | services/WarehouseService.php:107 | a link is appended iff its rules accept it; pairs stay unique |
| Database.Store.DeleteLinksOf | services/WarehouseService.php:94-96 | removes exactly the links of the given unit |
| Database.Store.InsertLog | repositories/WarehouseRepository.php:76 | a log row is appended iff its rules accept it |
| Database.Store.DeleteLogsOf | services/WarehouseService.php:385 | removes exactly the log rows of the given unit |
| Database.Store.InsertComment | repositories/WarehouseRepository.php:216 | a comment is appended iff its rules accept it |
| Database.Store.DeleteCommentsOf | services/WarehouseService.php:386 | removes exactly the comments of the given unit |
| Repository.WarehouseRepository.constructor | repositories/WarehouseRepository.php:42-48 | the repository works on the given store |
| Repository.WarehouseRepository.LogUpdate | repositories/WarehouseRepository.php:68-84 | appends the "changes made" row for the unit, by the actor and dated now, iff its rules accept it, and returns its errors; nothing else changes |
| Repository.WarehouseRepository.LogCreate | repositories/WarehouseRepository.php:93-112 | appends the "equipment added" row, carrying the unit's own date, iff its rules accept it; nothing else changes |
| Repository.UpdateRowAccepted | repositories/WarehouseRepository.php:68-84 | the update row of a stored unit with an integer id is accepted when the actor exists |
| Repository.UpdateRowAcceptedIff | repositories/WarehouseRepository.php:68-84 | for a stored unit with an integer id, the update row is accepted iff the actor exists |
| Repository.CreateRowAccepted | repositories/WarehouseRepository.php:93-112 | the creation row of a stored unit with an integer id and a date is accepted when the actor exists |
| Repository.WarehouseRepository.AddDeviceToOrder | repositories/WarehouseRepository.php:166-194 | the link is appended iff accepted; a rejected link returns its errors and changes nothing else; an accepted one installs the unit as loaded after the link, and logs the status labels when that save succeeds |
| Repository.WarehouseRepository.InstallIfLinked | repositories/WarehouseRepository.php:175-193 | the installing save happens only after an accepted link |
| Repository.WarehouseRepository.Install | repositories/WarehouseRepository.php:177-190 | the unit is saved with status AT_WORK and its status change is logged, or the save's errors are returned and nothing changes |
| Repository.WarehouseRepository.LogInstall | repositories/WarehouseRepository.php:181-187 | the status-change row is logged only after a successful save, when the actor exists |
| Repository.InstalledStatus | repositories/WarehouseRepository.php:178-184 | installing sets AT_WORK ("Установлено") and keeps every other column |
| Repository.LinkFound | repositories/WarehouseRepository.php:175-177 | once the link is accepted, the unit it names exists, so the lookup after it finds the unit |
| Repository.WarehouseRepository.SaveComment | repositories/WarehouseRepository.php:206-222 | for a non-positive id, nothing happens; otherwise the trimmed comment is appended iff accepted, with the unit's status, by the given user or the actor; a saved comment names a stored unit |
| Repository.CommentForAccepted | repositories/WarehouseRepository.php:206-222 | the comment is accepted iff the unit exists, its status exists and the user the comment names exists |
| Repository.SearchBySerial | repositories/WarehouseRepository.php:148-155 | a unit is found iff it is stored, has a serial containing the trimmed needle, has the requested status and has the actor as responsible user |
| Repository.SearchNarrows | repositories/WarehouseRepository.php:148-155 | a search for a longer serial finds a subset of what a search for a substring of it finds |
| Repository.BlankNeedleFindsAllSerials | repositories/WarehouseRepository.php:148-155 | a blank serial finds every unit with a serial in the given status and held by the actor |
| Repository.ConsumablesHaveNoSerial | repositories/WarehouseRepository.php:227-233 | a non-blank serial search never returns one of the actor's consumables |
| Repository.GetConsumables | repositories/WarehouseRepository.php:227-233 | a unit is found iff it is stored, has the empty serial, has status INSTALEER and has the actor as responsible user |
| Repository.GetConsumablesForOrder | repositories/WarehouseRepository.php:239-247 | a unit is found iff it is stored, has the empty serial, has status AT_WORK and is named by a link to the order |
| Repository.ConsumablesDisjoint | repositories/WarehouseRepository.php:227-247 | a consumable with the installer is never one installed for an order; this holds only because the two queries demand different status constants, INSTALEER (4) and AT_WORK (5) |
| Service.PrepareLogAttributes | services/WarehouseService.php:140-145 | drops `create_date` and keeps every other attribute with its value |
| Service.GetStatuses | services/WarehouseService.php:154-161 | the active statuses without exactly the one whose key the unit's status is; labels unchanged |
| Service.StatusKeyForms | services/WarehouseService.php:154-161 | a status loaded as a string or as an integer removes the same entry |
| Service.WarehouseService.constructor | services/WarehouseService.php:53-63 | the service holds the given record and repository |
| Service.SaveOutcome | services/WarehouseService.php:72-131 | a save never removes a stored unit, never lowers the next id and only appends to the log |
| Service.WarehouseService.Save | services/WarehouseService.php:72-131 | the result, the service's record and the new rows are those `SaveOutcome` gives; comments are untouched and the store stays valid |
| Service.WarehouseService.Write | services/WarehouseService.php:86 | an update of the loaded row or an insert under the next id, exactly when the rules accept the prepared record |
| Service.WarehouseService.Record | services/WarehouseService.php:89-130 | rejected: the errors, nothing written; a record still new: logged as created and then as changed; otherwise: relinked, and logged as changed unless the link failed |
| Service.WarehouseService.LogCreated | services/WarehouseService.php:89-91 | the creation log row is appended iff accepted |
| Service.WarehouseService.LogChanges | services/WarehouseService.php:122-125 | the change set (`array_diff` without `create_date`) is logged only when the save got that far |
| Service.WarehouseService.Relink | services/WarehouseService.php:93-119 | every link of the unit the request names is deleted, then the hand-written link is added |
| Service.WarehouseService.LinkByHand | services/WarehouseService.php:100-118 | without a positive order, nothing; otherwise the link is appended and the save goes on, or its errors are returned |
| Service.WarehouseService.LinkAgain | services/WarehouseService.php:107-118 | after the link is stored, `addDeviceToOrder` for the same pair changes no row |
| Service.ManualLinkStored | services/WarehouseService.php:100-107 | once accepted and appended, the hand-written link joins the unit and the order the request names |
| Service.RelinkLeavesOneLink | services/WarehouseService.php:93-111 | after a relink to an order goes through, the unit has exactly one link, the hand-written one |
| Service.UnlinkedRelinkDropsLinks | services/WarehouseService.php:93-100 | without a positive `order_id` the relinking goes through, only deletes the links of the id the request names, and leaves that unit with no link |
| Service.UnlinkedUpdateLogged | services/WarehouseService.php:92-125 | an update without an order, by an existing user, of a unit stored under its id (an integer or an integer string, as a request carries it): the links of the id the request names are deleted and exactly the change-set row is appended |
| Service.StoredRecordTakesUpdate | services/WarehouseService.php:74-96 | an accepted request whose id reads (`(int)`) as a stored unit's key is written over that unit and takes the update branch, whatever `isNewRecord` says |
| Service.UpdateLoggedOnce | services/WarehouseService.php:74-127 | saving a stored unit named by its id as an integer or an integer string such as "5", without an order, accepted by the rules, by an existing user: `true`, the unit rewritten under its key, the links of the request's id deleted, and one `logUpdate` row with what changed since it was loaded |
| Service.ValidUnitNamesActor | services/WarehouseService.php:84-86 | a record stamped with the actor validates only if the actor exists |
| Service.AcceptedSaveHasActor | services/WarehouseService.php:82-86 | any save that succeeds was made by an existing user |
| Service.NewRecordLinkRejected | services/WarehouseService.php:89-111 | a request without a positive id and with a positive order, once the insert has cleared `isNewRecord`: the unit is stored under the next id, the links of the request's id are deleted, the hand-written link is refused and nothing is logged |
| Service.NewRecordTakesUpdate | services/WarehouseService.php:86-96 | with `isNewRecord` cleared, an accepted request without a positive id is inserted under the next id and then takes the update branch |
| Service.UnsavedIdLinkRejected | services/WarehouseService.php:93-111 | when the request's id names no stored unit, the hand-written link is refused and the relinking only deletes links |
| Service.NewRecordChangeSet | services/WarehouseService.php:122-125 | for a new record every column but `create_date` is logged as changed |
| Service.ChangeSetSound | services/WarehouseService.php:122-125 | a logged attribute is a column other than `create_date` with its new value, and that value differs as a string from the value before |
| Service.UnchangedRecordLogsNothing | services/WarehouseService.php:122-125 | saving a loaded record without changes logs an empty change set |
| Service.NewRecordLogsAccepted | services/WarehouseService.php:89-125 | both log rows of a newly inserted unit pass their rules |
| Service.NewUnitLoggedTwice | services/WarehouseService.php:89-127 | a new unit gets its id as a string and exactly two log rows, its creation and then all its columns as the change set; units and links are unchanged |
| Service.WarehouseService.Move | services/WarehouseService.php:253-331 | simple path: exactly `save`, a type error iff that save fails, and an OK response; split path: every failed check is reported with ERROR and nothing changes, otherwise `SplitOutcome` |
| Service.WarehouseService.MoveSplit | services/WarehouseService.php:273-330 | the checks come first, and the split runs only when none failed |
| Service.WarehouseService.CheckSplit | services/WarehouseService.php:273-298 | the messages are the missing responsible user, the missing amount and an amount too large, in that order; the code is ERROR iff there is one |
| Service.SplitOutcome | services/WarehouseService.php:300-330 | a split writes no link and no log row, removes no unit, reports OK iff the child took the next id, and its messages begin with "all well" |
| Service.Child | services/WarehouseService.php:301-322 | the child has no id, names the moved unit as parent, takes the requested amount, and copies shipper, model, stock, serial and PIN from the source unit (empty when there is none) |
| Service.WarehouseService.Split | services/WarehouseService.php:300-330 | the source is saved with the amount taken off, then the child is inserted, as `SplitOutcome` states |
| Service.WarehouseService.SplitChild | services/WarehouseService.php:308-328 | a failed source save reports ERROR and inserts nothing; otherwise the child is inserted under the next id, or ERROR is reported |
| Service.SplitConservesAmount | services/WarehouseService.php:300-321 | source and child amounts add up to the amount before; the child names the source as parent; once the checks passed, the source keeps a non-negative amount |
| Service.WarehouseService.SaveCommentStatus | services/WarehouseService.php:343-373 | the comment naming both status labels and the responsible user's name is appended with the new status iff accepted; otherwise code ERROR and the failure message; no other row changes |
| Service.StatusCommentAcceptedIff | services/WarehouseService.php:358-366 | the status comment is saved iff the unit, the actor and the new status exist |
| Service.WarehouseService.Delete | services/WarehouseService.php:379-412 | the unit's log rows and comments are removed; the unit is removed iff it exists and the delete is not refused, otherwise ERROR with the failure message; links stay |
| Service.WarehouseService.Report | services/WarehouseService.php:273-277 | on a failed check, the message is appended and the code becomes ERROR; otherwise nothing changes |

## Left out

- Logging through Monolog (every `logger->add…` call) is left out: it writes only to the application log.
- `getData` (the paged listing and its sort order) is left out. `getFilters` is modelled on the conditions it adds to the query, with the query builder's SQL semantics written out.
- `ListingFilters.GetFilters`: the `orderBy(['serial' => SORT_NUMERIC])` that `getFilters` adds for `warehouse_type` 2 (services/WarehouseService.php:232-234) is not modelled. The model gives the set of selected units, not their order.
- `WarehouseEntity.AfterFind` takes the unit's first link in write order. This stands for the `one()` of entities/Warehouse.php:262, which has no `orderBy`, so the database may return any of the unit's links.
- `WarehouseRepository::getCompanies`, `setModel` and `find` are left out. They are framework plumbing, and the service's user service (a role check used only by `getData`) is left out with them.
- `DevicesRepository` is not part of this model.
- JSON encoding is left out. `LogEntity.ActionText` keeps the change set of an update row as a structured value (`Dirty`) rather than as the JSON text that follows the prefix.
- The database is not modelled beyond its rows:
  - An insert with an explicit id is stored under the auto-increment counter.
  - Uniqueness is enforced only by the link's `unique` rule.
  - A database that refuses a write after validation is modelled only for the unit delete (`rejected`).
- `Service.WarehouseService.Save` takes the record's `isNewRecord` flag after an insert as the parameter `stillNew`, because the framework decides it. For a positive id it requires the id to name a stored unit, because the code reads the attributes of what `findOne` returns.
- `Service.WarehouseService.Move` on the split path requires `$model` to be a stored unit with an integer id, because `$model->save()` updates that row. Arithmetic on a non-numeric amount, a PHP type error, is not modelled.
- `Service.WarehouseService.SaveCommentStatus` requires both statuses and the responsible user to exist, with a positive id. The code calls `getWithColor` and `getShortName` on what it loads, and on null or `''` that is a fatal error.
- `Repository.WarehouseRepository.AddDeviceToOrder` takes its comment as text and its ids as integers, as the PHP signature declares.
- PHP notices and warnings (an undefined index, a property read on null) are modelled as PHP evaluates them, to null. An application whose error handler turns them into exceptions behaves differently.
- Request keys are the attribute names the four records know (`Validators.Attr`). Any other key is ignored, as `setAttributes` ignores names that are not attributes.
- Float strings, numeric strings with a leading "+" or exponent, and `LIKE` wildcards or quotes inside a serial search are not modelled. `Contains` is a plain substring test.
- MySQL collation details are not modelled. `serial = ""` is a plain comparison with the empty string.
- `Php.ToInt` reads non-integer ids with PHP 8 rules. `Database.Store.FindOne` looks rows up by that reading, as MySQL would compare an integer column with such a string.
