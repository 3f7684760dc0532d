/**
 * The pieces of PHP's own semantics that the SOAP client leans on: values
 * and array keys, `empty()`, conversion to string, and the array union
 * operator `+`.
 */
module PhpValues {

  /** An array key as PHP stores it (a decimal-integer string key is already an int). */
  datatype Key = IntKey(i: int) | StrKey(s: string)

  /** A PHP value, as far as client options and cURL settings need one. */
  datatype Value =
    | Null
    | Bool(b: bool)
    | Int(i: int)
    | Str(s: string)
    | Array(entries: map<Key, Value>)

  datatype Option<+T> = None | Some(value: T)

  datatype Result<+T, +E> = Ok(value: T) | Err(error: E)

  /** PHP's `empty()`: null, false, 0, "", "0" and the empty array. */
  predicate IsEmpty(v: Value)
    // a scalar is empty exactly when its string form is "" or "0"
    ensures !v.Array? ==> (IsEmpty(v) <==> ToPhpString(v) == "" || ToPhpString(v) == "0")
    ensures v.Array? ==> (IsEmpty(v) <==> |v.entries| == 0)
  {
    match v
    case Null => true
    case Bool(b) => !b
    case Int(i) => i == 0
    case Str(s) => s == "" || s == "0"
    case Array(m) => m == map[]
  }

  /** PHP's conversion to bool, which for these values is the negation of `empty()`. */
  predicate IsTruthy(v: Value)
    ensures v.Null? ==> !IsTruthy(v)
    ensures v.Bool? ==> (IsTruthy(v) <==> v.b)
    ensures v.Int? ==> (IsTruthy(v) <==> v.i != 0)
    ensures v.Str? ==> (IsTruthy(v) <==> v.s != "" && v.s != "0")
    ensures v.Array? ==> (IsTruthy(v) <==> |v.entries| > 0)
  {
    !IsEmpty(v)
  }

  function DigitChar(d: nat): char
    requires d < 10
  {
    ('0' as int + d) as char
  }

  predicate AllDigits(ds: string) {
    forall i :: 0 <= i < |ds| ==> '0' <= ds[i] <= '9'
  }

  /** The number a string of decimal digits denotes, most significant digit first. */
  function DigitsValue(ds: string): nat
    requires AllDigits(ds)
    decreases |ds|
  {
    if ds == [] then 0 else 10 * DigitsValue(ds[..|ds| - 1]) + (ds[|ds| - 1] as int - '0' as int)
  }

  /** The decimal digits of n, without leading zeros: reading them back gives n. */
  function NatToDecimal(n: nat): (r: string)
    ensures |r| >= 1 && (r == "0" <==> n == 0)
    ensures n > 0 ==> r[0] != '0'
    ensures AllDigits(r) && DigitsValue(r) == n
    decreases n
  {
    if n < 10 then
      assert [DigitChar(n)][..0] == [];
      [DigitChar(n)]
    else
      var high := NatToDecimal(n / 10);
      assert (high + [DigitChar(n % 10)])[..|high|] == high;
      high + [DigitChar(n % 10)]
  }

  /** PHP's conversion to string, used by the `.` operator. */
  function ToPhpString(v: Value): (r: string)
    ensures v.Int? && v.i >= 0 ==> AllDigits(r) && DigitsValue(r) == v.i && (v.i > 0 ==> r[0] != '0')
    ensures v.Int? && v.i < 0 ==>
              && |r| >= 2 && r[0] == '-' && r[1] != '0'
              && AllDigits(r[1..]) && DigitsValue(r[1..]) == -v.i
    ensures v.Bool? ==> (r == "" <==> !v.b)
    ensures v.Str? ==> r == v.s
  {
    match v
    case Null => ""
    case Bool(b) => if b then "1" else ""
    case Int(i) =>
      if i < 0 then
        assert ("-" + NatToDecimal(-i))[1..] == NatToDecimal(-i);
        "-" + NatToDecimal(-i)
      else NatToDecimal(i)
    case Str(s) => s
    case Array(_) => "Array"
  }

  /**
   * PHP's array union `left + right` (also behind `left += right`): every
   * entry of `left`, and those entries of `right` whose key `left` lacks.
   */
  function ArrayUnion<K, V>(left: map<K, V>, right: map<K, V>): (r: map<K, V>)
    ensures r.Keys == left.Keys + right.Keys
    ensures forall k :: k in left ==> r[k] == left[k]
    ensures forall k :: k in right && k !in left ==> r[k] == right[k]
  {
    right + left
  }
}
