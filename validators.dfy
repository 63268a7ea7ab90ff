/**
 * The framework validators that the entities' `rules()` lists use
 * (`required`, `integer`, `string`, `safe`, `exist`, `unique`), and the way
 * `validate()` runs such a list: rule by rule in order, attribute by
 * attribute within a rule, skipping an attribute that already has an error
 * (skipOnError, on by default for every validator) and, for every validator
 * but `required`, an attribute whose value is empty (skipOnEmpty).
 */
module Validators {
  import opened Php

  /** The attribute names the records and the request arrays use: the
      columns of the four tables, the `responsibleUser` relation and the
      plain property `order_id`. A request entry under any other name is
      never read and is ignored by `setAttributes()`. */
  datatype Attr =
    | Id | CompanyId | ShipperId | ModelId | StockId | Serial | Amount | StatusId
    | Responsible | ResponsibleUser | PinCode | Comment | UserId | CreateDate | ParentId
    | OrderId | WarehouseId | Action

  /** A record's attributes or a request array such as `$r` or `$data`. */
  type Payload = map<Attr, Scalar>

  /** The tables an `exist` rule can look a value up in. */
  datatype Table = Users | Companies | Models | Stocks | MaterialStatuses | Orders | Warehouses

  /** The database as the validators see it: the ids of each table, and the
      (first, second) values of the rows already in the validated record's own
      table, for a `unique` rule over a pair of attributes. */
  datatype Tables = Tables(
    users: set<int>, companies: set<int>, models: set<int>, stocks: set<int>,
    statuses: set<int>, orders: set<int>, warehouses: set<int>,
    pairs: set<(int, int)>)

  function Rows(t: Tables, table: Table): set<int>
  {
    match table
    case Users => t.users
    case Companies => t.companies
    case Models => t.models
    case Stocks => t.stocks
    case MaterialStatuses => t.statuses
    case Orders => t.orders
    case Warehouses => t.warehouses
  }

  /** One entry of a `rules()` list. */
  datatype Rule =
    | Required(attrs: seq<Attr>)
    | Integer(attrs: seq<Attr>)
    | Text(attrs: seq<Attr>, max: Option<nat>)
    | Safe(attrs: seq<Attr>)
      /** `exist` with `targetAttribute => [attr => 'id']` in `table`. */
    | Exist(attrs: seq<Attr>, table: Table)
      /** `exist` declared on a relation name rather than on a column. The
          value the validator reads is the related record itself: null when
          the referenced row is missing, so the rule is skipped as empty, and
          an existing row otherwise, so the check passes. It never adds an
          error. */
    | ExistOnRelation(attrs: seq<Attr>)
      /** `unique` over the pair (`first`, `second`), reported on each of `attrs`. */
    | UniquePair(attrs: seq<Attr>, first: Attr, second: Attr)

  datatype ErrorKind = Blank | NotInteger | NotString | TooLong | NotFound(table: Table) | Taken

  datatype FieldError = FieldError(attr: Attr, kind: ErrorKind)

  /** The errors of a record, in the order the validators found them. */
  type Errors = seq<FieldError>

  /** The framework's notion of an empty value: null or the empty string. */
  predicate IsEmptyValue(v: Scalar)
  {
    v == Null || v == Str("")
  }

  /** What `required` rejects: null, or a string that is empty once trimmed. */
  predicate IsBlank(v: Scalar)
  {
    v == Null || (v.Str? && Trim(v.s) == "")
  }

  /** What `integer` accepts: an integer, or a string matching `/^\s*[+-]?\d+\s*$/`. */
  predicate IsIntegerValue(v: Scalar)
  {
    v.Int? || (v.Str? && IsIntegerString(v.s))
  }

  /** The error one validator reports for one attribute, if any, when it is not skipped. */
  function Check(r: Rule, m: Payload, a: Attr, t: Tables): Option<ErrorKind>
  {
    var v := Get(m, a);
    match r
    case Required(_) => if IsBlank(v) then Some(Blank) else None
    case Integer(_) => if IsIntegerValue(v) then None else Some(NotInteger)
    case Text(_, max) =>
      if !v.Str? then Some(NotString)
      else if max.Some? && |v.s| > max.value then Some(TooLong)
      else None
    case Safe(_) => None
    case Exist(_, table) => if ToInt(v) in Rows(t, table) then None else Some(NotFound(table))
    case ExistOnRelation(_) => None
    case UniquePair(_, first, second) =>
      var f, s := Get(m, first), Get(m, second);
      if f != Null && s != Null && (ToInt(f), ToInt(s)) in t.pairs then Some(Taken) else None
  }

  predicate SkipsEmpty(r: Rule)
  {
    !r.Required?
  }

  /** A validator lets an attribute through when it skips it as empty or finds nothing wrong. */
  predicate Passes(r: Rule, m: Payload, a: Attr, t: Tables)
  {
    (SkipsEmpty(r) && IsEmptyValue(Get(m, a))) || Check(r, m, a, t).None?
  }

  predicate HasError(errs: Errors, a: Attr)
  {
    exists k | 0 <= k < |errs| :: errs[k].attr == a
  }

  /** One validator over its attributes from the `j`-th on, adding to `errs`. */
  function ApplyRule(r: Rule, j: nat, m: Payload, t: Tables, errs: Errors): Errors
    decreases |r.attrs| - j
  {
    if j >= |r.attrs| then errs
    else
      var a := r.attrs[j];
      var skip := HasError(errs, a) || (SkipsEmpty(r) && IsEmptyValue(Get(m, a)));
      var found := Check(r, m, a, t);
      var next := if !skip && found.Some? then errs + [FieldError(a, found.value)] else errs;
      ApplyRule(r, j + 1, m, t, next)
  }

  /** The validators of `rules` from the `i`-th on, in order, adding to `errs`. */
  function Run(rules: seq<Rule>, i: nat, m: Payload, t: Tables, errs: Errors): Errors
    decreases |rules| - i
  {
    if i >= |rules| then errs
    else Run(rules, i + 1, m, t, ApplyRule(rules[i], 0, m, t, errs))
  }

  /** `validate()`: the errors of a record under a `rules()` list. */
  function Validate(rules: seq<Rule>, m: Payload, t: Tables): Errors
  {
    Run(rules, 0, m, t, [])
  }

  /** Every attribute of validator `r` from the `j`-th on gets through. */
  predicate AttrsPassFrom(r: Rule, j: nat, m: Payload, t: Tables)
    decreases |r.attrs| - j
  {
    j >= |r.attrs| || (Passes(r, m, r.attrs[j], t) && AttrsPassFrom(r, j + 1, m, t))
  }

  /** Every attribute of validator `r` gets through. */
  predicate AttrsPass(r: Rule, m: Payload, t: Tables)
  {
    AttrsPassFrom(r, 0, m, t)
  }

  /** Every attribute of every rule from the `i`-th on gets through. */
  predicate AllPassFrom(rules: seq<Rule>, i: nat, m: Payload, t: Tables)
    decreases |rules| - i
  {
    i >= |rules| || (AttrsPass(rules[i], m, t) && AllPassFrom(rules, i + 1, m, t))
  }

  /** Every attribute of every rule gets through. */
  predicate AllPass(rules: seq<Rule>, m: Payload, t: Tables)
  {
    AllPassFrom(rules, 0, m, t)
  }

  /** No attribute appears twice among the errors. */
  predicate OneErrorPerAttribute(errs: Errors)
  {
    forall i, j | 0 <= i < j < |errs| :: errs[i].attr != errs[j].attr
  }

  // What each validator demands of one attribute, as the entities' validity
  // predicates spell it out.

  /** `required`: not null and not blank once trimmed. */
  predicate Present(m: Payload, a: Attr)
  {
    !IsBlank(Get(m, a))
  }

  /** `integer`: empty, or an integer value. */
  predicate IntegerOrEmpty(m: Payload, a: Attr)
  {
    IsEmptyValue(Get(m, a)) || IsIntegerValue(Get(m, a))
  }

  /** `string` (with an optional `max`): empty, or a string short enough. */
  predicate TextOrEmpty(m: Payload, a: Attr, max: Option<nat>)
  {
    var v := Get(m, a);
    IsEmptyValue(v) || (v.Str? && (max.None? || |v.s| <= max.value))
  }

  /** `exist`: empty, or the `(int)` reading of the value is an id of the table. */
  predicate FoundOrEmpty(m: Payload, a: Attr, rows: set<int>)
  {
    IsEmptyValue(Get(m, a)) || ToInt(Get(m, a)) in rows
  }

  /** `unique` over (`first`, `second`), reported on `a`: empty, or no
      stored row has the same pair. */
  predicate UniqueOrEmpty(m: Payload, a: Attr, first: Attr, second: Attr, pairs: set<(int, int)>)
  {
    var f, s := Get(m, first), Get(m, second);
    IsEmptyValue(Get(m, a)) || !(f != Null && s != Null && (ToInt(f), ToInt(s)) in pairs)
  }

  // ---------------------------------------------------------------------
  // Properties

  lemma {:induction false} ApplyRuleExtends(r: Rule, j: nat, m: Payload, t: Tables, errs: Errors)
    ensures var out := ApplyRule(r, j, m, t, errs);
            |errs| <= |out| && out[..|errs|] == errs
    decreases |r.attrs| - j
  {
    if j < |r.attrs| {
      var a := r.attrs[j];
      var skip := HasError(errs, a) || (SkipsEmpty(r) && IsEmptyValue(Get(m, a)));
      var found := Check(r, m, a, t);
      var next := if !skip && found.Some? then errs + [FieldError(a, found.value)] else errs;
      ApplyRuleExtends(r, j + 1, m, t, next);
      assert next[..|errs|] == errs;
    }
  }

  lemma {:induction false} RunExtends(rules: seq<Rule>, i: nat, m: Payload, t: Tables, errs: Errors)
    ensures var out := Run(rules, i, m, t, errs);
            |errs| <= |out| && out[..|errs|] == errs
    decreases |rules| - i
  {
    if i < |rules| {
      var next := ApplyRule(rules[i], 0, m, t, errs);
      ApplyRuleExtends(rules[i], 0, m, t, errs);
      RunExtends(rules, i + 1, m, t, next);
      assert Run(rules, i, m, t, errs)[..|next|][..|errs|] == Run(rules, i, m, t, errs)[..|errs|];
    }
  }

  /** Starting from no errors, a validator adds none exactly when every one of
      its attributes gets through. */
  lemma {:induction false} ApplyRuleCleanIff(r: Rule, j: nat, m: Payload, t: Tables)
    ensures ApplyRule(r, j, m, t, []) == [] <==> AttrsPassFrom(r, j, m, t)
    decreases |r.attrs| - j
  {
    if j < |r.attrs| {
      var a := r.attrs[j];
      var none: Errors := [];
      assert !HasError(none, a);
      ApplyRuleCleanIff(r, j + 1, m, t);
      if !Passes(r, m, a, t) {
        var e := [FieldError(a, Check(r, m, a, t).value)];
        assert none + e == e;
        assert ApplyRule(r, j, m, t, none) == ApplyRule(r, j + 1, m, t, e);
        ApplyRuleExtends(r, j + 1, m, t, e);
      } else {
        assert ApplyRule(r, j, m, t, none) == ApplyRule(r, j + 1, m, t, none);
      }
    }
  }

  /** A record is valid (no errors) exactly when every attribute of every rule
      gets through: with no error recorded, skipOnError never skips anything. */
  lemma {:induction false} RunCleanIff(rules: seq<Rule>, i: nat, m: Payload, t: Tables)
    ensures Run(rules, i, m, t, []) == [] <==> AllPassFrom(rules, i, m, t)
    decreases |rules| - i
  {
    if i < |rules| {
      var first := ApplyRule(rules[i], 0, m, t, []);
      ApplyRuleCleanIff(rules[i], 0, m, t);
      RunExtends(rules, i + 1, m, t, first);
      RunCleanIff(rules, i + 1, m, t);
    }
  }

  lemma ValidateCleanIff(rules: seq<Rule>, m: Payload, t: Tables)
    ensures Validate(rules, m, t) == [] <==> AllPass(rules, m, t)
  {
    RunCleanIff(rules, 0, m, t);
  }

  lemma {:induction false} ApplyRuleKeepsOnePerAttribute(r: Rule, j: nat, m: Payload, t: Tables, errs: Errors)
    requires OneErrorPerAttribute(errs)
    ensures OneErrorPerAttribute(ApplyRule(r, j, m, t, errs))
    decreases |r.attrs| - j
  {
    if j < |r.attrs| {
      var a := r.attrs[j];
      var skip := HasError(errs, a) || (SkipsEmpty(r) && IsEmptyValue(Get(m, a)));
      var found := Check(r, m, a, t);
      var next := if !skip && found.Some? then errs + [FieldError(a, found.value)] else errs;
      if !skip && found.Some? {
        forall i, k | 0 <= i < k < |next|
          ensures next[i].attr != next[k].attr
        {
          if k == |errs| {
            assert errs[i].attr != a;
          }
        }
      }
      ApplyRuleKeepsOnePerAttribute(r, j + 1, m, t, next);
    }
  }

  lemma {:induction false} RunKeepsOnePerAttribute(rules: seq<Rule>, i: nat, m: Payload, t: Tables, errs: Errors)
    requires OneErrorPerAttribute(errs)
    ensures OneErrorPerAttribute(Run(rules, i, m, t, errs))
    decreases |rules| - i
  {
    if i < |rules| {
      ApplyRuleKeepsOnePerAttribute(rules[i], 0, m, t, errs);
      RunKeepsOnePerAttribute(rules, i + 1, m, t, ApplyRule(rules[i], 0, m, t, errs));
    }
  }

  /** Because every validator skips an attribute that already has an error,
      each attribute collects at most one error: a value that fails `integer`
      is never also looked up by `exist`. */
  lemma OneErrorEach(rules: seq<Rule>, m: Payload, t: Tables)
    ensures OneErrorPerAttribute(Validate(rules, m, t))
  {
    RunKeepsOnePerAttribute(rules, 0, m, t, []);
  }
}
