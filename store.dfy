/**
 * The database the warehouse code reads and writes through ActiveRecord:
 * the `warehouse` table keyed by an auto-increment id, the
 * `orders_warehouse`, `warehouse_log` and `warehouse_comments` rows in the
 * order they were written, and the id sets of the tables the warehouse only
 * reads. Every write runs the record's `rules()` first and stores nothing
 * when they report an error.
 */
module Database {
  import opened Php
  import opened Validators
  import opened OrdersWarehouseEntity
  import opened CommentEntity
  import opened LogEntity
  import opened WarehouseEntity

  /** The elements of `s` that `keep` accepts: the rows a `deleteAll`
      leaves behind. `KeepCounts` shows each is kept as often as it occurs. */
  function Keep<T(!new)>(s: seq<T>, keep: T -> bool): (r: seq<T>)
    ensures |r| <= |s|
    ensures forall x :: x in r <==> x in s && keep(x)
  {
    if s == [] then []
    else (if keep(s[0]) then [s[0]] else []) + Keep(s[1..], keep)
  }

  /** `deleteAll` keeps every accepted row as often as it occurs, and no
      other row. */
  lemma {:induction false} KeepCounts<T(!new)>(s: seq<T>, keep: T -> bool, x: T)
    ensures multiset(Keep(s, keep))[x] == if keep(x) then multiset(s)[x] else 0
  {
    if s != [] {
      KeepCounts(s[1..], keep, x);
      assert s == [s[0]] + s[1..];
    }
  }

  /** Deleting rows never makes two remaining links share a pair. */
  lemma {:induction false} KeepKeepsPairsDistinct(links: seq<Link>, keep: Link -> bool)
    requires PairsDistinct(links)
    ensures PairsDistinct(Keep(links, keep))
    decreases |links|
  {
    if links != [] {
      var tail := links[1..];
      assert PairsDistinct(tail) by {
        forall i, j | 0 <= i < j < |tail|
          ensures PairOf(tail[i]) != PairOf(tail[j])
        {
          assert tail[i] == links[i + 1] && tail[j] == links[j + 1];
        }
      }
      KeepKeepsPairsDistinct(tail, keep);
      var rest := Keep(tail, keep);
      forall j | 0 <= j < |rest|
        ensures PairOf(links[0]) != PairOf(rest[j])
      {
        assert rest[j] in tail;
        var k :| 0 <= k < |tail| && tail[k] == rest[j];
        assert links[k + 1] == rest[j];
      }
    }
  }

  /** Appending a link whose pair is new keeps the pairs distinct. */
  lemma AppendKeepsPairsDistinct(links: seq<Link>, l: Link)
    requires PairsDistinct(links) && PairOf(l) !in Pairs(links)
    ensures PairsDistinct(links + [l])
  {
    var s := links + [l];
    forall i, j | 0 <= i < j < |s|
      ensures PairOf(s[i]) != PairOf(s[j])
    {
      if j == |links| {
        assert PairOf(s[i]) in Pairs(links) by {
          assert s[i] == links[i];
        }
      }
    }
  }

  /** The database. The tables the warehouse only reads are fixed; the four
      tables it writes are fields. */
  class Store {
    var units: map<int, Unit>
    var nextId: int
    var links: seq<Link>
    var logs: seq<LogRow>
    var comments: seq<CommentRow>

    /** User ids with each user's short name. */
    const users: map<int, string>
    const companies: set<int>
    const models: map<int, CatalogModel>
    const stocks: set<int>
    /** `MaterialStatuses` ids with each status's coloured label. */
    const statuses: map<int, string>
    const orders: set<int>

    /** Every stored unit sits under a key below the auto-increment counter
        and is typecast as a write leaves it; no two links join the same
        unit to the same order (the `unique` rule of `OrdersWarehouse`). */
    predicate Valid()
      reads this
    {
      && nextId > 0
      && (forall k | k in units :: 0 < k < nextId && units[k] == Persist(units[k], k))
      && PairsDistinct(links)
    }

    constructor(users: map<int, string>, companies: set<int>, models: map<int, CatalogModel>,
                stocks: set<int>, statuses: map<int, string>, orders: set<int>)
      ensures Valid()
      ensures this.users == users && this.companies == companies && this.models == models
      ensures this.stocks == stocks && this.statuses == statuses && this.orders == orders
      ensures units == map[] && nextId == 1 && links == [] && logs == [] && comments == []
    {
      this.users := users;
      this.companies := companies;
      this.models := models;
      this.stocks := stocks;
      this.statuses := statuses;
      this.orders := orders;
      units := map[];
      nextId := 1;
      links := [];
      logs := [];
      comments := [];
    }

    /** What the `exist` and `unique` validators see when the unit table and
        the links are `units` and `links`. */
    function TablesWith(units: map<int, Unit>, links: seq<Link>): (t: Tables)
      ensures t.warehouses == units.Keys && t.pairs == Pairs(links)
      ensures t.users == users.Keys && t.statuses == statuses.Keys && t.orders == orders
    {
      Tables(users.Keys, companies, models.Keys, stocks, statuses.Keys, orders, units.Keys, Pairs(links))
    }

    /** What the validators see now. */
    function Lookups(): Tables
      reads this
    {
      TablesWith(units, links)
    }

    /** `Warehouse::findOne($key)`: the stored row with `afterFind` applied. */
    function FindOne(key: int): (r: Option<Unit>)
      reads this
      ensures r.Some? <==> key in units
      ensures r.Some? ==> SameColumns(r.value, units[key])
    {
      if key in units then Some(AfterFind(units[key], models, links)) else None
    }

    /** An insert: validate, then store the typecast row under the next id. */
    method InsertUnit(u: Unit) returns (errs: Errors, key: int)
      requires Valid()
      modifies this
      ensures Valid()
      ensures errs == UnitErrors(u, old(Lookups())) && key == old(nextId)
      ensures units == (if errs == [] then old(units)[key := Persist(u, key)] else old(units))
      ensures nextId == (if errs == [] then old(nextId) + 1 else old(nextId))
      ensures links == old(links) && logs == old(logs) && comments == old(comments)
    {
      errs := UnitErrors(u, Lookups());
      key := nextId;
      WriteUnit(key, u, errs);
    }

    /** An update of the stored row `key`: validate, then write the typecast row. */
    method UpdateUnit(key: int, u: Unit) returns (errs: Errors)
      requires Valid() && key in units
      modifies this
      ensures Valid()
      ensures errs == UnitErrors(u, old(Lookups()))
      ensures units == (if errs == [] then old(units)[key := Persist(u, key)] else old(units))
      ensures nextId == old(nextId) && links == old(links) && logs == old(logs) && comments == old(comments)
    {
      errs := UnitErrors(u, Lookups());
      WriteUnit(key, u, errs);
    }

    /** The write that follows validation: nothing when it found errors,
        otherwise the typecast row under `key`, a stored key or the next one. */
    method WriteUnit(key: int, u: Unit, errs: Errors)
      requires Valid() && (key in units || key == nextId)
      modifies this
      ensures Valid()
      ensures units == (if errs == [] then old(units)[key := Persist(u, key)] else old(units))
      ensures nextId == (if errs == [] && key == old(nextId) then old(nextId) + 1 else old(nextId))
      ensures links == old(links) && logs == old(logs) && comments == old(comments)
    {
      if errs == [] {
        PersistKeepsReadings(u, key);
        units := units[key := Persist(u, key)];
        if key == nextId {
          nextId := nextId + 1;
        }
      }
    }

    /** `$model->delete()` of the row `key`. `rejected` stands for the
        database refusing the delete (a constraint or a stale row), which
        the code only sees as an exception. A missing row cannot be deleted. */
    method DeleteUnit(key: int, rejected: bool) returns (ok: bool)
      requires Valid()
      modifies this
      ensures Valid()
      ensures ok <==> key in old(units) && !rejected
      ensures units == (if ok then old(units) - {key} else old(units))
      ensures nextId == old(nextId) && links == old(links) && logs == old(logs) && comments == old(comments)
    {
      ok := key in units && !rejected;
      if ok {
        units := units - {key};
      }
    }

    method InsertLink(l: Link) returns (errs: Errors)
      requires Valid()
      modifies this
      ensures Valid()
      ensures errs == LinkErrors(l, old(Lookups()))
      ensures links == old(links) + (if errs == [] then [PersistLink(l)] else [])
      ensures units == old(units) && nextId == old(nextId) && logs == old(logs) && comments == old(comments)
    {
      errs := LinkErrors(l, Lookups());
      LinkSavedPairIsNew(l, Lookups());
      AppendLink(l, errs);
    }

    method AppendLink(l: Link, errs: Errors)
      requires Valid()
      requires errs == [] ==> PairOf(PersistLink(l)) !in Pairs(links)
      modifies this
      ensures Valid()
      ensures links == old(links) + (if errs == [] then [PersistLink(l)] else [])
      ensures units == old(units) && nextId == old(nextId) && logs == old(logs) && comments == old(comments)
    {
      if errs == [] {
        AppendKeepsPairsDistinct(links, PersistLink(l));
        links := links + [PersistLink(l)];
      }
    }

    /** `OrdersWarehouse::deleteAll(['warehouse_id' => $v])`. */
    method DeleteLinksOf(v: Scalar)
      requires Valid()
      modifies this
      ensures Valid()
      ensures links == Keep(old(links), NotOfUnit(v))
      ensures units == old(units) && nextId == old(nextId) && logs == old(logs) && comments == old(comments)
    {
      KeepKeepsPairsDistinct(links, NotOfUnit(v));
      links := Keep(links, NotOfUnit(v));
    }

    method InsertLog(l: LogRow) returns (errs: Errors)
      requires Valid()
      modifies this
      ensures Valid()
      ensures errs == LogErrors(l, old(Lookups()))
      ensures logs == old(logs) + (if errs == [] then [PersistLog(l)] else [])
      ensures units == old(units) && nextId == old(nextId) && links == old(links) && comments == old(comments)
    {
      errs := LogErrors(l, Lookups());
      AppendLog(l, errs);
    }

    method AppendLog(l: LogRow, errs: Errors)
      requires Valid()
      modifies this
      ensures Valid()
      ensures logs == old(logs) + (if errs == [] then [PersistLog(l)] else [])
      ensures units == old(units) && nextId == old(nextId) && links == old(links) && comments == old(comments)
    {
      if errs == [] {
        logs := logs + [PersistLog(l)];
      }
    }

    /** `WarehouseLog::deleteAll(['warehouse_id' => $id])`. */
    method DeleteLogsOf(id: int)
      requires Valid()
      modifies this
      ensures Valid()
      ensures logs == Keep(old(logs), LogNotOf(id))
      ensures units == old(units) && nextId == old(nextId) && links == old(links) && comments == old(comments)
    {
      logs := Keep(logs, LogNotOf(id));
    }

    method InsertComment(c: CommentRow) returns (errs: Errors)
      requires Valid()
      modifies this
      ensures Valid()
      ensures errs == CommentErrors(c, old(Lookups()))
      ensures comments == old(comments) + (if errs == [] then [PersistComment(c)] else [])
      ensures units == old(units) && nextId == old(nextId) && links == old(links) && logs == old(logs)
    {
      errs := CommentErrors(c, Lookups());
      AppendComment(c, errs);
    }

    method AppendComment(c: CommentRow, errs: Errors)
      requires Valid()
      modifies this
      ensures Valid()
      ensures comments == old(comments) + (if errs == [] then [PersistComment(c)] else [])
      ensures units == old(units) && nextId == old(nextId) && links == old(links) && logs == old(logs)
    {
      if errs == [] {
        comments := comments + [PersistComment(c)];
      }
    }

    /** `WarehouseComments::deleteAll(['warehouse_id' => $id])`. */
    method DeleteCommentsOf(id: int)
      requires Valid()
      modifies this
      ensures Valid()
      ensures comments == Keep(old(comments), CommentNotOf(id))
      ensures units == old(units) && nextId == old(nextId) && links == old(links) && logs == old(logs)
    {
      comments := Keep(comments, CommentNotOf(id));
    }
  }
}
