/**
 * The SQL column types the loader asks for (the sqlalchemy types NVARCHAR,
 * DateTime, Float and INT) and the pandas dtype-name tests that select them.
 */
module SqlTypes {
  import opened Wrappers
  import opened Text

  datatype SqlType =
    | NVarchar(length: int)
    | DateTime
    | Float(precision: Option<int>)
    | Int

  /** Python's `str(i)` for any integer: a minus sign exactly for a negative number, then the digits of its magnitude. */
  function IntToString(i: int): (r: string)
    ensures |r| >= 1 && (r[0] == '-' <==> i < 0)
    ensures i >= 0 ==> IsDigits(r) && ValueOf(r) == i
    ensures i < 0 ==> |r| >= 2 && IsDigits(r[1..]) && ValueOf(r[1..]) == -i
  {
    if i >= 0 then
      NatToStringValue(i);
      NatToString(i)
    else
      var digits := NatToString(-i);
      NatToStringValue(-i);
      assert ("-" + digits)[1..] == digits;
      "-" + digits
  }

  /** Distinct integers print differently. */
  lemma IntToStringInjective(i: int, j: int)
    requires IntToString(i) == IntToString(j)
    ensures i == j
  {
    if i >= 0 {
      assert j >= 0;
    } else {
      assert j < 0 && IntToString(i)[1..] == IntToString(j)[1..];
    }
  }

  /** The DDL text of a type, as `str()` of the sqlalchemy type object prints it. */
  function Render(t: SqlType): (r: string)
    ensures |r| > 0 && r[0] != '['
  {
    match t
    case NVarchar(n) => "NVARCHAR(" + IntToString(n) + ")"
    case DateTime => "DATETIME"
    case Float(p) => if p.Some? then "FLOAT(" + IntToString(p.value) + ")" else "FLOAT"
    case Int => "INTEGER"
  }

  /** Python's `pat in name`, written as a scan from the front. */
  predicate NameHas(name: string, pat: string)
    decreases |name|
  {
    |pat| <= |name| && (name[..|pat|] == pat || NameHas(name[1..], pat))
  }

  /** The scan agrees with the first-occurrence search behind `Contains`. */
  lemma {:induction false} NameHasContains(name: string, pat: string)
    ensures NameHas(name, pat) <==> Contains(name, pat)
    decreases |name|
  {
    if |pat| <= |name| && name[..|pat|] != pat {
      NameHasContains(name[1..], pat);
    }
  }

  /** The four substring tests applied to `str(dtype)`. */
  predicate IsObject(dtype: string) { NameHas(dtype, "object") }
  predicate IsDatetime(dtype: string) { NameHas(dtype, "datetime") }
  predicate IsFloat(dtype: string) { NameHas(dtype, "float") }
  predicate IsInt(dtype: string) { NameHas(dtype, "int") }

  /** How many of the four tests a dtype name passes. */
  function Matches(dtype: string): (n: nat)
    ensures n <= 4
    ensures n == 0 <==> !IsObject(dtype) && !IsDatetime(dtype) && !IsFloat(dtype) && !IsInt(dtype)
  {
    (if IsObject(dtype) then 1 else 0) + (if IsDatetime(dtype) then 1 else 0)
    + (if IsFloat(dtype) then 1 else 0) + (if IsInt(dtype) then 1 else 0)
  }
}
