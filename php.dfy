/**
 * The slice of PHP value semantics that the warehouse code relies on: loosely
 * typed scalars, request arrays, the `(int)` and `(string)` casts, `trim`,
 * truthiness, `array_diff` and the substring match that `LIKE '%x%'` performs.
 */
module Php {

  datatype Option<T> = None | Some(value: T)

  /** A PHP value as it appears in request arrays and ActiveRecord attributes.
      `DbNow` is the `new Expression('NOW()')` object that the code assigns to
      timestamp attributes. */
  datatype Scalar = Null | Int(i: int) | Str(s: string) | DbNow

  /** `$m[$k]`: a missing key reads as null (PHP raises a notice). */
  function Get<K>(m: map<K, Scalar>, k: K): Scalar
  {
    if k in m then m[k] else Null
  }

  /** `isset($m[$k])`. */
  predicate IsSet<K>(m: map<K, Scalar>, k: K)
  {
    k in m && m[k] != Null
  }

  predicate IsDigit(c: char)
  {
    '0' <= c <= '9'
  }

  /** Whitespace in PHP numeric strings and in PCRE's `\s`. */
  predicate IsSpace(c: char)
  {
    c == ' ' || c == '\t' || c == '\n' || c == '\r' || c == '\U{B}' || c == '\U{C}'
  }

  /** The characters PHP's `trim` removes by default. */
  predicate IsTrimmed(c: char)
  {
    c == ' ' || c == '\t' || c == '\n' || c == '\r' || c == '\0' || c == '\U{B}'
  }

  /** The value of a digit character (0 for any other character). */
  function DigitValue(c: char): (d: nat)
    ensures d < 10
    ensures IsDigit(c) ==> d == (c as int) - ('0' as int)
  {
    if IsDigit(c) then (c as int) - ('0' as int) else 0
  }

  function DigitChar(d: nat): (c: char)
    requires d < 10
    ensures IsDigit(c) && DigitValue(c) == d
  {
    (('0' as int) + d) as char
  }

  /** The value of a string made only of digits. */
  function DigitsValue(ds: string): nat
  {
    if ds == [] then 0 else DigitsValue(ds[..|ds| - 1]) * 10 + DigitValue(ds[|ds| - 1])
  }

  /** The longest prefix of `s` made of digits. */
  function LeadingDigits(s: string): string
  {
    if s != [] && IsDigit(s[0]) then [s[0]] + LeadingDigits(s[1..]) else []
  }

  /** `s` without its leading whitespace. */
  function SkipSpaces(s: string): string
  {
    if s != [] && IsSpace(s[0]) then SkipSpaces(s[1..]) else s
  }

  /** `(int)$s` for a string: leading whitespace, an optional sign, then the
      longest run of digits; a string that does not start like a number is 0. */
  function StrToInt(s: string): int
  {
    var t := SkipSpaces(s);
    if t != [] && t[0] == '-' then -(DigitsValue(LeadingDigits(t[1..])) as int)
    else if t != [] && t[0] == '+' then DigitsValue(LeadingDigits(t[1..]))
    else DigitsValue(LeadingDigits(t))
  }

  /** `(int)$v`. An object converts to 1 (PHP's behaviour, with a notice). */
  function ToInt(v: Scalar): int
  {
    match v
    case Null => 0
    case Int(i) => i
    case Str(s) => StrToInt(s)
    case DbNow => 1
  }

  /** The decimal digits of a natural number, without leading zeros. */
  function Digits(n: nat): (ds: string)
    ensures ds != []
    ensures forall k :: 0 <= k < |ds| ==> IsDigit(ds[k])
  {
    if n < 10 then [DigitChar(n)] else Digits(n / 10) + [DigitChar(n % 10)]
  }

  /** `(string)$i` for an integer. */
  function Decimal(i: int): string
  {
    if i < 0 then "-" + Digits(-i) else Digits(i)
  }

  /** `(string)$v`: null is "", an integer its decimal form and the NOW()
      expression its SQL text. */
  function ToStr(v: Scalar): string
  {
    match v
    case Null => ""
    case Int(i) => Decimal(i)
    case Str(s) => s
    case DbNow => "NOW()"
  }

  /** The value an integer column holds once written: '' and null become
      NULL, a string its `(int)` reading. */
  function IntColumn(v: Scalar): Scalar
  {
    match v
    case Str(s) => if s == "" then Null else Int(StrToInt(s))
    case _ => v
  }

  /** Writing an integer column keeps its `(int)` reading. */
  lemma IntColumnKeepsReading(v: Scalar)
    ensures ToInt(IntColumn(v)) == ToInt(v)
    ensures IntColumn(v) == Null <==> v == Null || v == Str("")
    ensures IntColumn(IntColumn(v)) == IntColumn(v)
  {
  }

  /** The value a text column holds once written. */
  function TextColumn(v: Scalar): Scalar
  {
    match v
    case Int(i) => Str(Decimal(i))
    case _ => v
  }

  /** Writing a text column twice writes what writing it once does. */
  lemma TextColumnIdempotent(v: Scalar)
    ensures TextColumn(TextColumn(v)) == TextColumn(v)
    ensures TextColumn(v).Str? <==> v.Str? || v.Int?
  {
  }

  /** PHP truthiness, as used by `$userId ? $userId : ...`. */
  predicate Truthy(v: Scalar)
  {
    match v
    case Null => false
    case Int(i) => i != 0
    case Str(s) => s != "" && s != "0"
    case DbNow => true
  }

  /** A string that consists of whitespace, an optional sign, at least one
      digit and whitespace: the pattern `/^\s*[+-]?\d+\s*$/` of Yii's integer
      validator, and the integer-shaped numeric strings of PHP comparisons. */
  predicate IsIntegerString(s: string)
  {
    var t := SkipSpaces(s);
    var u := if t != [] && (t[0] == '-' || t[0] == '+') then t[1..] else t;
    var ds := LeadingDigits(u);
    ds != [] && forall k :: |ds| <= k < |u| ==> IsSpace(u[k])
  }

  /** `trim($s)`. */
  function Trim(s: string): string
  {
    TrimRight(TrimLeft(s))
  }

  function TrimLeft(s: string): string
  {
    if s != [] && IsTrimmed(s[0]) then TrimLeft(s[1..]) else s
  }

  function TrimRight(s: string): string
  {
    if s != [] && IsTrimmed(s[|s| - 1]) then TrimRight(s[..|s| - 1]) else s
  }

  /** `strpos($hay, $needle) !== false`, and the match of `LIKE '%needle%'`
      when the needle holds no wildcard. */
  predicate Contains(hay: string, needle: string)
  {
    exists i | 0 <= i <= |hay| - |needle| :: OccursAt(hay, needle, i)
  }

  predicate OccursAt(hay: string, needle: string, i: int)
  {
    0 <= i <= |hay| - |needle| && hay[i..i + |needle|] == needle
  }

  /** The hash condition `[column => v]` of a query on an integer column:
      `IS NULL` for a null value, otherwise the database's numeric equality,
      which compares the `(int)` readings. */
  predicate SqlMatches(column: Scalar, v: Scalar)
  {
    if v == Null then column == Null else column != Null && ToInt(column) == ToInt(v)
  }

  /** The integer key PHP uses for `$m[$v]` on an integer-keyed array: an
      integer, or a string in canonical decimal form. Other values are not
      an integer key (null reads as the key ''). */
  function ArrayKey(v: Scalar): Option<int>
  {
    match v
    case Int(i) => Some(i)
    case Str(s) => if s == Decimal(StrToInt(s)) then Some(StrToInt(s)) else None
    case _ => None
  }

  /** `array_diff($a, $b)`: the entries of `a` whose value, compared as a
      string, equals no value of `b`. Keys play no part in the comparison. */
  function ArrayDiff<K>(a: map<K, Scalar>, b: map<K, Scalar>): map<K, Scalar>
  {
    map k | k in a && ToStr(a[k]) !in (set j | j in b :: ToStr(b[j])) :: a[k]
  }

  // ---------------------------------------------------------------------
  // Properties

  lemma {:induction false} DigitsValueOfDigits(n: nat)
    ensures DigitsValue(Digits(n)) == n
    decreases n
  {
    if n >= 10 {
      var hi := Digits(n / 10);
      var ds := hi + [DigitChar(n % 10)];
      assert ds[..|ds| - 1] == hi;
      DigitsValueOfDigits(n / 10);
    }
  }

  lemma {:induction false} LeadingDigitsOfDigitString(ds: string)
    requires forall k :: 0 <= k < |ds| ==> IsDigit(ds[k])
    ensures LeadingDigits(ds) == ds
    decreases |ds|
  {
    if ds != [] {
      LeadingDigitsOfDigitString(ds[1..]);
    }
  }

  /** The `(int)` cast reads back every integer that `(string)` writes. */
  lemma DecimalRoundTrip(i: int)
    ensures ToInt(Str(Decimal(i))) == i
    ensures IsIntegerString(Decimal(i))
  {
    if i < 0 {
      NegativeRoundTrip(i);
    } else {
      var ds := Digits(i);
      DigitsValueOfDigits(i);
      UnsignedDigitString(ds);
    }
  }

  lemma NegativeRoundTrip(i: int)
    requires i < 0
    ensures ToInt(Str(Decimal(i))) == i
    ensures IsIntegerString(Decimal(i))
  {
    var n: nat := -i;
    var ds := Digits(n);
    DigitsValueOfDigits(n);
    NegatedDigitString(ds);
    assert Decimal(i) == "-" + ds;
  }

  /** A non-empty run of digits reads as its value. */
  lemma UnsignedDigitString(ds: string)
    requires ds != [] && forall k :: 0 <= k < |ds| ==> IsDigit(ds[k])
    ensures StrToInt(ds) == DigitsValue(ds)
    ensures IsIntegerString(ds)
  {
    LeadingDigitsOfDigitString(ds);
    assert !IsSpace(ds[0]) && ds[0] != '-' && ds[0] != '+';
    assert SkipSpaces(ds) == ds;
  }

  /** A minus sign and a non-empty run of digits read as the negated value. */
  lemma NegatedDigitString(ds: string)
    requires ds != [] && forall k :: 0 <= k < |ds| ==> IsDigit(ds[k])
    ensures StrToInt("-" + ds) == -(DigitsValue(ds) as int)
    ensures IsIntegerString("-" + ds)
  {
    var s := "-" + ds;
    assert s[1..] == ds;
    assert SkipSpaces(s) == s by {
      assert s[0] == '-';
    }
    LeadingDigitsOfDigitString(ds);
    SignedReading(s);
  }

  /** How `(int)` and the integer pattern read a string that starts with a minus sign. */
  lemma SignedReading(s: string)
    requires s != [] && s[0] == '-' && SkipSpaces(s) == s
    requires LeadingDigits(s[1..]) == s[1..] && s[1..] != []
    ensures StrToInt(s) == -(DigitsValue(s[1..]) as int)
    ensures IsIntegerString(s)
  {
  }

  /** The `(int)` and `(string)` casts agree on every integer. */
  lemma IntStrAgree(v: Scalar)
    requires v.Int?
    ensures ToInt(Str(ToStr(v))) == ToInt(v)
  {
    DecimalRoundTrip(v.i);
  }

  /** A string in canonical decimal form is the integer key it reads as. */
  lemma DecimalIsArrayKey(i: int)
    ensures ArrayKey(Str(Decimal(i))) == Some(i)
    ensures ArrayKey(Int(i)) == Some(i)
  {
    DecimalRoundTrip(i);
  }

  /** `ltrim` removes a prefix of whitespace and stops at the first other character. */
  lemma {:induction false} TrimLeftSpec(s: string)
    ensures var t := TrimLeft(s);
            |t| <= |s| && t == s[|s| - |t|..] &&
            (t != [] ==> !IsTrimmed(t[0])) &&
            forall k :: 0 <= k < |s| - |t| ==> IsTrimmed(s[k])
    decreases |s|
  {
    if s != [] && IsTrimmed(s[0]) {
      TrimLeftSpec(s[1..]);
      var t := TrimLeft(s);
      assert t == TrimLeft(s[1..]);
      forall k | 0 <= k < |s| - |t|
        ensures IsTrimmed(s[k])
      {
        if k > 0 {
          assert s[k] == s[1..][k - 1];
        }
      }
    }
  }

  /** `rtrim` removes a suffix of whitespace and stops at the last other character. */
  lemma {:induction false} TrimRightSpec(s: string)
    ensures var t := TrimRight(s);
            |t| <= |s| && t == s[..|t|] &&
            (t != [] ==> !IsTrimmed(t[|t| - 1])) &&
            forall k :: |t| <= k < |s| ==> IsTrimmed(s[k])
    decreases |s|
  {
    if s != [] && IsTrimmed(s[|s| - 1]) {
      var p := s[..|s| - 1];
      TrimRightSpec(p);
      var t := TrimRight(s);
      assert t == TrimRight(p);
      forall k | |t| <= k < |s|
        ensures IsTrimmed(s[k])
      {
        if k < |s| - 1 {
          assert s[k] == p[k];
        }
      }
    }
  }

  /** `trim` keeps the middle of the string: what it returns neither starts
      nor ends with whitespace, and only whitespace was removed around it. */
  lemma TrimSpec(s: string)
    ensures var t := Trim(s);
            |t| <= |s| &&
            (t != [] ==> !IsTrimmed(t[0]) && !IsTrimmed(t[|t| - 1])) &&
            (forall k :: 0 <= k < |s| && !IsTrimmed(s[k]) ==> t != [])
  {
    var l := TrimLeft(s);
    TrimLeftSpec(s);
    TrimRightSpec(l);
    var t := TrimRight(l);
    if t != [] {
      assert t[0] == l[0];
    }
    forall k | 0 <= k < |s| && !IsTrimmed(s[k])
      ensures t != []
    {
      var j := k - (|s| - |l|);
      assert l[j] == s[k];
    }
  }

  /** `trim` is idempotent. */
  lemma TrimIdempotent(s: string)
    ensures Trim(Trim(s)) == Trim(s)
  {
    var t := Trim(s);
    TrimSpec(s);
    assert TrimLeft(t) == t;
    assert TrimRight(t) == t;
  }

  /** The decimal form of an integer is never blank: it starts with a digit or a sign. */
  lemma DecimalNotBlank(i: int)
    ensures Trim(Decimal(i)) != ""
  {
    var s := Decimal(i);
    assert !IsTrimmed(s[0]);
    TrimSpec(s);
  }

  /** Every string contains the empty string, and itself. */
  lemma ContainsTrivial(s: string)
    ensures Contains(s, "") && Contains(s, s)
  {
    assert OccursAt(s, "", 0);
    assert OccursAt(s, s, 0);
  }

  /** Substring containment is transitive: a shorter needle that occurs in a
      longer one matches every string the longer one matches. */
  lemma ContainsTransitive(s: string, m: string, n: string)
    requires Contains(s, m) && Contains(m, n)
    ensures Contains(s, n)
  {
    var i: int :| 0 <= i <= |s| - |m| && OccursAt(s, m, i);
    var j: int :| 0 <= j <= |m| - |n| && OccursAt(m, n, j);
    assert m == s[i..i + |m|];
    var inner := s[i..i + |m|][j..j + |n|];
    var direct := s[i + j..i + j + |n|];
    forall k | 0 <= k < |n|
      ensures inner[k] == direct[k]
    {
    }
    assert inner == direct;
    assert OccursAt(s, n, i + j);
  }

  /** `array_diff` against an empty array keeps every entry. */
  lemma ArrayDiffAgainstEmpty<K>(a: map<K, Scalar>)
    ensures ArrayDiff(a, map[]) == a
  {
  }

  /** `array_diff` of an array with itself is empty. */
  lemma ArrayDiffSelf<K>(a: map<K, Scalar>)
    ensures ArrayDiff(a, a) == map[]
  {
    forall k | k in a
      ensures ToStr(a[k]) in (set j | j in a :: ToStr(a[j]))
    {
    }
  }

  /** Whatever `array_diff` keeps did change: its string value differs from
      the value the same key had before. */
  lemma ArrayDiffSound<K>(a: map<K, Scalar>, b: map<K, Scalar>, k: K)
    requires k in ArrayDiff(a, b) && k in b
    ensures ToStr(a[k]) != ToStr(b[k]) && ArrayDiff(a, b)[k] == a[k]
  {
    assert ToStr(b[k]) in (set j | j in b :: ToStr(b[j]));
  }

  /** ... but `array_diff` can miss a change: a key whose new value equals,
      as a string, the old value of any key at all is dropped, even when
      its own old value was different. */
  lemma ArrayDiffMissesMovedValue<K>(a: map<K, Scalar>, b: map<K, Scalar>, k: K, j: K)
    requires k in a && j in b && ToStr(a[k]) == ToStr(b[j])
    ensures k !in ArrayDiff(a, b)
  {
    assert ToStr(b[j]) in (set i | i in b :: ToStr(b[i]));
  }
}
