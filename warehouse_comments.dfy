/**
 * The `warehouse_comments` table: free-text notes on a unit, each stamped
 * with the unit's status at the time, and their `rules()`.
 */
module CommentEntity {
  import opened Php
  import opened Validators

  /** A `WarehouseComments` record. */
  datatype CommentRow = CommentRow(warehouseId: Scalar, userId: Scalar, comment: Scalar, createDate: Scalar, statusId: Scalar)

  function CommentAttributes(c: CommentRow): Payload
  {
    map[WarehouseId := c.warehouseId, UserId := c.userId, Comment := c.comment,
        CreateDate := c.createDate, StatusId := c.statusId]
  }

  /** `WarehouseComments::rules()`, in declaration order. */
  function CommentRules(): seq<Rule>
  {
    [ Required([WarehouseId, UserId, StatusId]),
      Integer([WarehouseId, UserId, StatusId]),
      Text([Comment], None),
      Safe([CreateDate]),
      Exist([UserId], Users),
      Exist([WarehouseId], Warehouses),
      Exist([StatusId], MaterialStatuses) ]
  }

  function CommentErrors(c: CommentRow, t: Tables): Errors
  {
    Validate(CommentRules(), CommentAttributes(c), t)
  }

  /** What the rules demand of a comment. */
  predicate CommentValid(m: Payload, t: Tables)
  {
    && Present(m, WarehouseId) && Present(m, UserId) && Present(m, StatusId)
    && IntegerOrEmpty(m, WarehouseId) && IntegerOrEmpty(m, UserId) && IntegerOrEmpty(m, StatusId)
    && TextOrEmpty(m, Comment, None)
    && FoundOrEmpty(m, UserId, t.users) && FoundOrEmpty(m, WarehouseId, t.warehouses)
    && FoundOrEmpty(m, StatusId, t.statuses)
  }

  function PersistComment(c: CommentRow): CommentRow
  {
    CommentRow(IntColumn(c.warehouseId), IntColumn(c.userId), TextColumn(c.comment), c.createDate, IntColumn(c.statusId))
  }

  // ---------------------------------------------------------------------
  // Properties

  /** A comment validates exactly when its unit, user and status ids are
      present integers naming existing rows and its text, if any, is a string. */
  lemma CommentValidIff(c: CommentRow, t: Tables)
    ensures CommentErrors(c, t) == [] <==> CommentValid(CommentAttributes(c), t)
  {
    CommentRulesIff(CommentAttributes(c), t);
  }

  lemma CommentRulesIff(m: Payload, t: Tables)
    ensures Validate(CommentRules(), m, t) == [] <==> CommentValid(m, t)
  {
    ValidateCleanIff(CommentRules(), m, t);
    CommentFormatRules(m, t);
    CommentReferenceRules(m, t);
  }

  lemma CommentFormatRules(m: Payload, t: Tables)
    ensures AllPassFrom(CommentRules(), 0, m, t) <==>
            Present(m, WarehouseId) && Present(m, UserId) && Present(m, StatusId) &&
            IntegerOrEmpty(m, WarehouseId) && IntegerOrEmpty(m, UserId) && IntegerOrEmpty(m, StatusId) &&
            AllPassFrom(CommentRules(), 2, m, t)
  {
    var rs := CommentRules();
    assert AllPassFrom(rs, 0, m, t) == (AttrsPass(rs[0], m, t) && AllPassFrom(rs, 1, m, t));
    assert AllPassFrom(rs, 1, m, t) == (AttrsPass(rs[1], m, t) && AllPassFrom(rs, 2, m, t));
  }

  lemma CommentReferenceRules(m: Payload, t: Tables)
    ensures AllPassFrom(CommentRules(), 2, m, t) <==>
            TextOrEmpty(m, Comment, None) &&
            FoundOrEmpty(m, UserId, t.users) && FoundOrEmpty(m, WarehouseId, t.warehouses) &&
            FoundOrEmpty(m, StatusId, t.statuses)
  {
    var rs := CommentRules();
    assert AllPassFrom(rs, 2, m, t) == (AttrsPass(rs[2], m, t) && AllPassFrom(rs, 3, m, t));
    assert AllPassFrom(rs, 3, m, t) == (AttrsPass(rs[3], m, t) && AllPassFrom(rs, 4, m, t));
    assert AllPassFrom(rs, 4, m, t) == (AttrsPass(rs[4], m, t) && AllPassFrom(rs, 5, m, t));
    assert AllPassFrom(rs, 5, m, t) == (AttrsPass(rs[5], m, t) && AllPassFrom(rs, 6, m, t));
    assert AllPassFrom(rs, 6, m, t) == (AttrsPass(rs[6], m, t) && AllPassFrom(rs, 7, m, t));
  }

  /** A comment can only be attached to a unit that exists. */
  lemma CommentNeedsUnit(m: Payload, t: Tables)
    requires Validate(CommentRules(), m, t) == []
    ensures ToInt(Get(m, WarehouseId)) in t.warehouses && ToInt(Get(m, StatusId)) in t.statuses
  {
    CommentRulesIff(m, t);
  }

  /** For a comment whose ids are integers and whose text is a string, the
      rules come down to the three rows existing. */
  lemma CommentRowAcceptedIff(c: CommentRow, t: Tables)
    requires c.warehouseId.Int? && c.userId.Int? && c.statusId.Int? && c.comment.Str?
    ensures CommentErrors(c, t) == [] <==>
            c.warehouseId.i in t.warehouses && c.userId.i in t.users && c.statusId.i in t.statuses
  {
    var m := CommentAttributes(c);
    assert Get(m, WarehouseId) == c.warehouseId && Get(m, UserId) == c.userId;
    assert Get(m, StatusId) == c.statusId && Get(m, Comment) == c.comment;
    CommentIntegerIdsIff(m, t);
  }

  lemma CommentIntegerIdsIff(m: Payload, t: Tables)
    requires Get(m, WarehouseId).Int? && Get(m, UserId).Int? && Get(m, StatusId).Int?
    requires Get(m, Comment).Str?
    ensures Validate(CommentRules(), m, t) == [] <==>
            Get(m, WarehouseId).i in t.warehouses && Get(m, UserId).i in t.users &&
            Get(m, StatusId).i in t.statuses
  {
    CommentRulesIff(m, t);
  }

  /** The same for a whole record: a saved comment names an existing unit and status. */
  lemma CommentSavedForUnit(c: CommentRow, t: Tables)
    ensures CommentErrors(c, t) == [] ==>
            ToInt(c.warehouseId) in t.warehouses && ToInt(c.statusId) in t.statuses
  {
    if CommentErrors(c, t) == [] {
      var m := CommentAttributes(c);
      assert Get(m, WarehouseId) == c.warehouseId && Get(m, StatusId) == c.statusId;
      CommentNeedsUnit(m, t);
    }
  }

  /** The comments a `deleteAll(['warehouse_id' => $id])` leaves in place. */
  function CommentNotOf(id: int): CommentRow -> bool
  {
    (c: CommentRow) => !SqlMatches(c.warehouseId, Int(id))
  }
}
