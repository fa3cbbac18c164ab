/**
 * The dynamic JavaScript values that the game stores in its Redux-like store,
 * in Phaser's registry and in LDtk field lists, with the few coercions the
 * modelled code relies on: truthiness (`||`), `+` with a number, `-`, and
 * `Math.max` / `Math.min` against a constant.
 */
module JsValues {

  datatype Option<+T> = None | Some(value: T)

  /** The outcome of a call that may throw. */
  datatype Result<+T> = Ok(value: T) | Err(error: Failure)

  /** A thrown error: its constructor and message. */
  datatype Failure = TypeError(message: string) | Error(message: string)

  /** A JavaScript value. `NaN` is kept apart from the other numbers. */
  datatype Value =
    | Undefined
    | Null
    | Bool(b: bool)
    | Num(n: real)
    | NaN
    | Str(s: string)
    | Obj(fields: map<string, Value>)

  // ---------------------------------------------------------------------------
  // Insertion-ordered sets (`Set`), as sequences without duplicates
  // ---------------------------------------------------------------------------

  predicate NoDuplicates<T(==)>(s: seq<T>)
  {
    forall i, j :: 0 <= i < j < |s| ==> s[i] != s[j]
  }

  /** `set.add(x)`: appended unless already present. */
  function SetAdd<T(==)>(s: seq<T>, x: T): (r: seq<T>)
    ensures x in r && forall i :: 0 <= i < |s| ==> s[i] in r
    ensures forall i :: 0 <= i < |r| ==> r[i] in s || r[i] == x
    ensures NoDuplicates(s) ==> NoDuplicates(r)
    ensures x !in s ==> |r| == |s| + 1
  {
    if x in s then s else s + [x]
  }

  /** `set.delete(x)`, keeping the order of the other elements. */
  function Remove<T(==)>(s: seq<T>, x: T): (r: seq<T>)
    ensures x !in r
    ensures forall i :: 0 <= i < |r| ==> r[i] in s
    ensures forall i :: 0 <= i < |s| && s[i] != x ==> s[i] in r
    ensures NoDuplicates(s) ==> NoDuplicates(r)
    ensures |r| <= |s|
  {
    if s == [] then []
    else if s[0] == x then Remove(s[1..], x)
    else
      var rest := Remove(s[1..], x);
      assert NoDuplicates(s) ==> s[0] !in s[1..];
      [s[0]] + rest
  }

  /** Deleting the first element of a duplicate-free sequence leaves its tail. */
  lemma {:induction false} RemoveFirst<T>(s: seq<T>)
    requires |s| > 0 && NoDuplicates(s)
    ensures Remove(s, s[0]) == s[1..]
  {
    RemoveAbsent(s[1..], s[0]);
  }

  lemma {:induction false} RemoveAbsent<T>(s: seq<T>, x: T)
    requires x !in s
    ensures Remove(s, x) == s
  {
    if s != [] {
      RemoveAbsent(s[1..], x);
    }
  }

  /** JavaScript truthiness, as used by `v || d` and `if (v)`. */
  predicate Truthy(v: Value)
  {
    match v
    case Undefined => false
    case Null => false
    case Bool(b) => b
    case Num(n) => n != 0.0
    case NaN => false
    case Str(s) => s != ""
    case Obj(_) => true
  }

  /** `v || d` */
  function OrElse(v: Value, d: Value): Value
  {
    if Truthy(v) then v else d
  }

  // ---------------------------------------------------------------------------
  // Decimal rendering of integers (template literals, string concatenation)
  // ---------------------------------------------------------------------------

  function DigitChar(d: nat): (c: char)
    requires d < 10
    ensures '0' <= c <= '9' && c as int - '0' as int == d
  {
    (d + '0' as int) as char
  }

  /** The decimal digits of n, most significant first, without leading zeros. */
  function NatToString(n: nat): (s: string)
    ensures |s| >= 1 && (|s| == 1 <==> n < 10)
  {
    if n < 10 then [DigitChar(n)] else NatToString(n / 10) + [DigitChar(n % 10)]
  }

  /** A rendering holds decimal digits only. */
  lemma {:induction false} NatToStringDigits(n: nat)
    ensures forall i :: 0 <= i < |NatToString(n)| ==> '0' <= NatToString(n)[i] <= '9'
  {
    if n >= 10 {
      NatToStringDigits(n / 10);
      var s, p := NatToString(n), NatToString(n / 10);
      forall i | 0 <= i < |s|
        ensures '0' <= s[i] <= '9'
      {
        if i < |p| {
          assert s[i] == p[i];
        }
      }
    }
  }

  /** `String(n)` for an integer n. */
  function IntToString(n: int): (s: string)
  {
    if n < 0 then "-" + NatToString(-n) else NatToString(n)
  }

  lemma {:induction false} NatToStringInjective(m: nat, n: nat)
    requires NatToString(m) == NatToString(n)
    ensures m == n
  {
    var sm, sn := NatToString(m), NatToString(n);
    if m < 10 {
      assert n < 10 && sm[0] == DigitChar(m) && sn[0] == DigitChar(n);
    } else {
      assert n >= 10;
      var pm, pn := NatToString(m / 10), NatToString(n / 10);
      assert pm == sm[..|sm| - 1] && pn == sn[..|sn| - 1];
      NatToStringInjective(m / 10, n / 10);
      assert sm[|sm| - 1] == DigitChar(m % 10) && sn[|sn| - 1] == DigitChar(n % 10);
    }
  }

  /** A rendering starts with a minus sign exactly when the integer is negative. */
  lemma IntToStringSign(m: int)
    ensures IntToString(m)[0] == '-' <==> m < 0
  {
    if m >= 0 {
      NatToStringDigits(m);
      assert '0' <= NatToString(m)[0] <= '9';
    }
  }

  /** Distinct integers render as distinct strings. */
  lemma {:induction false} IntToStringInjective(m: int, n: int)
    requires IntToString(m) == IntToString(n)
    ensures m == n
  {
    IntToStringSign(m);
    IntToStringSign(n);
    if m < 0 {
      assert NatToString(-m) == IntToString(m)[1..] && NatToString(-n) == IntToString(n)[1..];
      NatToStringInjective(-m, -n);
    } else {
      NatToStringInjective(m, n);
    }
  }

  /** A rendered integer holds a minus sign and digits only, so never a comma. */
  lemma IntToStringHasNoComma(m: int)
    ensures ',' !in IntToString(m)
  {
    var s := IntToString(m);
    var d := NatToString(if m < 0 then -m else m);
    NatToStringDigits(if m < 0 then -m else m);
    assert s == (if m < 0 then "-" else "") + d;
    forall i | 0 <= i < |s| ensures s[i] != ',' {
      if m < 0 && i > 0 {
        assert s[i] == d[i - 1];
      }
    }
  }

  // ---------------------------------------------------------------------------
  // Numeric coercion
  // ---------------------------------------------------------------------------

  /** The value of a non-empty string of decimal digits. */
  function DigitsValue(s: string): nat
    requires forall i :: 0 <= i < |s| ==> '0' <= s[i] <= '9'
  {
    if s == [] then 0 else 10 * DigitsValue(s[..|s| - 1]) + (s[|s| - 1] - '0') as nat
  }

  predicate IsDigits(s: string)
  {
    forall i :: 0 <= i < |s| ==> '0' <= s[i] <= '9'
  }

  /**
   * `Number(v)`: `None` stands for NaN. Strings are read as decimal digit
   * strings ("" is 0); signs, fractions and exponents read as NaN.
   */
  function ToNumber(v: Value): (r: Option<real>)
    ensures v.Num? ==> r == Some(v.n)
    ensures v.Undefined? || v.NaN? || v.Obj? ==> r == None
  {
    match v
    case Undefined => None
    case Null => Some(0.0)
    case Bool(b) => Some(if b then 1.0 else 0.0)
    case Num(n) => Some(n)
    case NaN => None
    case Str(s) => if IsDigits(s) then Some(DigitsValue(s) as real) else None
    case Obj(_) => None
  }

  /** `v + k` for an integer k: string concatenation for strings and objects, numeric addition otherwise. */
  function AddInt(v: Value, k: int): (r: Value)
    ensures v.Num? ==> r == Num(v.n + k as real)
    ensures v.Undefined? || v.NaN? ==> r == NaN
  {
    match v
    case Str(s) => Str(s + IntToString(k))
    case Obj(_) => Str("[object Object]" + IntToString(k))
    case _ => match ToNumber(v)
      case None => NaN
      case Some(x) => Num(x + k as real)
  }

  /** `v - k` for an integer k. */
  function SubInt(v: Value, k: int): (r: Value)
    ensures r.Num? || r.NaN?
    ensures r.Num? <==> ToNumber(v).Some?
    ensures r.Num? ==> r.n == ToNumber(v).value - k as real
  {
    match ToNumber(v)
    case None => NaN
    case Some(x) => Num(x - k as real)
  }

  /** `Math.max(0, v)` for a value that is a number or NaN. */
  function MaxZero(v: Value): (r: Value)
    requires v.Num? || v.NaN?
    ensures v.NaN? ==> r == NaN
    ensures v.Num? ==> r.Num? && r.n >= 0.0 && r.n >= v.n && (r.n == 0.0 || r.n == v.n)
  {
    if v.NaN? then NaN else if v.n < 0.0 then Num(0.0) else v
  }

  /** `x > 0` in JavaScript: false whenever x coerces to NaN. */
  predicate GreaterThanZero(v: Value)
  {
    ToNumber(v).Some? && ToNumber(v).value > 0.0
  }

  function RealMax(a: real, b: real): real { if a < b then b else a }
  function RealMin(a: real, b: real): real { if a < b then a else b }

  /** `Math.max(lo, Math.min(hi, x))`, also `Phaser.Math.Clamp(x, lo, hi)`. */
  function Clamp(x: real, lo: real, hi: real): (r: real)
    requires lo <= hi
    ensures lo <= r <= hi
    ensures lo <= x <= hi ==> r == x
    ensures x < lo ==> r == lo
    ensures x > hi ==> r == hi
  {
    RealMax(lo, RealMin(hi, x))
  }

  function IntClamp(x: int, lo: int, hi: int): (r: int)
    requires lo <= hi
    ensures lo <= r <= hi
    ensures lo <= x <= hi ==> r == x
    ensures x < lo ==> r == lo
    ensures x > hi ==> r == hi
  {
    if x < lo then lo else if x > hi then hi else x
  }
}
