/**
 * The `orders_warehouse` table: the link between a unit and the order it is
 * installed for, and its `rules()`.
 */
module OrdersWarehouseEntity {
  import opened Php
  import opened Validators

  /** An `OrdersWarehouse` record. */
  datatype Link = Link(orderId: Scalar, warehouseId: Scalar, comment: Scalar, userId: Scalar, createDate: Scalar)

  /** The record's attributes by name, as the validators read them. */
  function LinkAttributes(l: Link): Payload
  {
    map[OrderId := l.orderId, WarehouseId := l.warehouseId, Comment := l.comment,
        UserId := l.userId, CreateDate := l.createDate]
  }

  /** `OrdersWarehouse::rules()`, in declaration order. */
  function LinkRules(): seq<Rule>
  {
    [ Required([OrderId, WarehouseId, UserId]),
      Integer([OrderId, WarehouseId, UserId]),
      Text([Comment], None),
      Safe([CreateDate]),
      UniquePair([WarehouseId, OrderId], WarehouseId, OrderId),
      Exist([UserId], Users),
      Exist([OrderId], Orders),
      Exist([WarehouseId], Warehouses) ]
  }

  function LinkErrors(l: Link, t: Tables): Errors
  {
    Validate(LinkRules(), LinkAttributes(l), t)
  }

  /** What the rules demand of a link. */
  predicate LinkValid(m: Payload, t: Tables)
  {
    && Present(m, OrderId) && Present(m, WarehouseId) && Present(m, UserId)
    && IntegerOrEmpty(m, OrderId) && IntegerOrEmpty(m, WarehouseId) && IntegerOrEmpty(m, UserId)
    && TextOrEmpty(m, Comment, None)
    && UniqueOrEmpty(m, WarehouseId, WarehouseId, OrderId, t.pairs)
    && UniqueOrEmpty(m, OrderId, WarehouseId, OrderId, t.pairs)
    && FoundOrEmpty(m, UserId, t.users) && FoundOrEmpty(m, OrderId, t.orders)
    && FoundOrEmpty(m, WarehouseId, t.warehouses)
  }

  /** The row an insert writes: integer columns typecast, the comment as text. */
  function PersistLink(l: Link): Link
  {
    Link(IntColumn(l.orderId), IntColumn(l.warehouseId), TextColumn(l.comment), IntColumn(l.userId), l.createDate)
  }

  /** The (warehouse_id, order_id) pairs of the stored links. */
  function Pairs(links: seq<Link>): set<(int, int)>
  {
    set i | 0 <= i < |links| :: PairOf(links[i])
  }

  function PairOf(l: Link): (int, int)
  {
    (ToInt(l.warehouseId), ToInt(l.orderId))
  }

  /** No two stored links join the same unit to the same order. */
  predicate PairsDistinct(links: seq<Link>)
  {
    forall i, j | 0 <= i < j < |links| :: PairOf(links[i]) != PairOf(links[j])
  }

  // ---------------------------------------------------------------------
  // Properties

  /** A link validates exactly when its three ids are present integers, its
      comment is a string, its (warehouse_id, order_id) pair is not stored
      yet, and its user, order and unit exist. */
  lemma LinkValidIff(l: Link, t: Tables)
    ensures LinkErrors(l, t) == [] <==> LinkValid(LinkAttributes(l), t)
  {
    LinkRulesIff(LinkAttributes(l), t);
  }

  lemma LinkRulesIff(m: Payload, t: Tables)
    ensures Validate(LinkRules(), m, t) == [] <==> LinkValid(m, t)
  {
    var rs := LinkRules();
    ValidateCleanIff(rs, m, t);
    LinkFormatRules(m, t);
    LinkUniqueUserRules(m, t);
    LinkReferenceRules(m, t);
  }

  lemma LinkFormatRules(m: Payload, t: Tables)
    ensures AllPassFrom(LinkRules(), 0, m, t) <==>
            Present(m, OrderId) && Present(m, WarehouseId) && Present(m, UserId) &&
            IntegerOrEmpty(m, OrderId) && IntegerOrEmpty(m, WarehouseId) && IntegerOrEmpty(m, UserId) &&
            AllPassFrom(LinkRules(), 2, m, t)
  {
    var rs := LinkRules();
    assert AllPassFrom(rs, 0, m, t) == (AttrsPass(rs[0], m, t) && AllPassFrom(rs, 1, m, t));
    assert AllPassFrom(rs, 1, m, t) == (AttrsPass(rs[1], m, t) && AllPassFrom(rs, 2, m, t));
  }

  lemma LinkUniqueUserRules(m: Payload, t: Tables)
    ensures AllPassFrom(LinkRules(), 2, m, t) <==>
            TextOrEmpty(m, Comment, None) &&
            UniqueOrEmpty(m, WarehouseId, WarehouseId, OrderId, t.pairs) &&
            UniqueOrEmpty(m, OrderId, WarehouseId, OrderId, t.pairs) &&
            AllPassFrom(LinkRules(), 5, m, t)
  {
    var rs := LinkRules();
    assert AllPassFrom(rs, 2, m, t) == (AttrsPass(rs[2], m, t) && AllPassFrom(rs, 3, m, t));
    assert AllPassFrom(rs, 3, m, t) == (AttrsPass(rs[3], m, t) && AllPassFrom(rs, 4, m, t));
    assert AllPassFrom(rs, 4, m, t) == (AttrsPass(rs[4], m, t) && AllPassFrom(rs, 5, m, t));
  }

  lemma LinkReferenceRules(m: Payload, t: Tables)
    ensures AllPassFrom(LinkRules(), 5, m, t) <==>
            FoundOrEmpty(m, UserId, t.users) && FoundOrEmpty(m, OrderId, t.orders) &&
            FoundOrEmpty(m, WarehouseId, t.warehouses)
  {
    var rs := LinkRules();
    assert AllPassFrom(rs, 5, m, t) == (AttrsPass(rs[5], m, t) && AllPassFrom(rs, 6, m, t));
    assert AllPassFrom(rs, 6, m, t) == (AttrsPass(rs[6], m, t) && AllPassFrom(rs, 7, m, t));
    assert AllPassFrom(rs, 7, m, t) == (AttrsPass(rs[7], m, t) && AllPassFrom(rs, 8, m, t));
  }

  /** A link that validates joins a set unit to a set order, and that pair
      is not stored yet. */
  lemma LinkUnique(m: Payload, t: Tables)
    requires Validate(LinkRules(), m, t) == []
    ensures Get(m, WarehouseId) != Null && Get(m, OrderId) != Null
    ensures (ToInt(Get(m, WarehouseId)), ToInt(Get(m, OrderId))) !in t.pairs
  {
    LinkRulesIff(m, t);
  }

  /** So the row a valid link writes carries a pair no stored row has. */
  lemma LinkSavedPairIsNew(l: Link, t: Tables)
    ensures LinkErrors(l, t) == [] ==> PairOf(PersistLink(l)) !in t.pairs
  {
    if LinkErrors(l, t) == [] {
      SavedPairIsNew(l, t);
    }
  }

  lemma SavedPairIsNew(l: Link, t: Tables)
    requires LinkErrors(l, t) == []
    ensures PairOf(PersistLink(l)) !in t.pairs
  {
    var m := LinkAttributes(l);
    assert Get(m, WarehouseId) == l.warehouseId && Get(m, OrderId) == l.orderId;
    LinkUnique(m, t);
    IntColumnKeepsReading(l.warehouseId);
    IntColumnKeepsReading(l.orderId);
  }

  /** Conversely, a link whose pair is already stored is always rejected. */
  lemma StoredPairRejected(l: Link, t: Tables)
    requires l.warehouseId.Int? && l.orderId.Int? && PairOf(l) in t.pairs
    ensures LinkErrors(l, t) != []
  {
    if LinkErrors(l, t) == [] {
      SavedPairIsNew(l, t);
    }
  }

  /** `where(['warehouse_id' => $v])`: the links of the unit that `v` names. */
  predicate OfUnit(l: Link, v: Scalar)
  {
    SqlMatches(l.warehouseId, v)
  }

  /** The links a `deleteAll(['warehouse_id' => $v])` leaves in place. */
  function NotOfUnit(v: Scalar): Link -> bool
  {
    l => !OfUnit(l, v)
  }
}
