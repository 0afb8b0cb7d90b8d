/** The loosely typed JavaScript values the client inspects: wallet
    responses, contract results and their fields. */
module Js {
  import opened Outcomes

  /** A JavaScript value. Numbers are integers here; objects are their own
      enumerable properties. Arrays carry no named properties. */
  datatype Value =
    | Undefined
    | Null
    | Bool(b: bool)
    | Num(n: int)
    | Str(s: string)
    | Arr(items: seq<Value>)
    | Obj(fields: map<string, Value>)

  /** `v === null || v === undefined`: what `??` skips. */
  predicate Nullish(v: Value) {
    v.Undefined? || v.Null?
  }

  /** `typeof v === 'object' && v !== null`. */
  predicate IsObject(v: Value) {
    v.Arr? || v.Obj?
  }

  /** JavaScript truthiness (`if (v)`, `!v`, `v && …`). */
  predicate Truthy(v: Value) {
    match v
    case Undefined => false
    case Null => false
    case Bool(b) => b
    case Num(n) => n != 0
    case Str(s) => s != ""
    case Arr(_) => true
    case Obj(_) => true
  }

  /** Property read `v[key]` on a non-nullish value; absent keys read as `undefined`. */
  function Get(v: Value, key: string): (r: Value)
    ensures !v.Obj? ==> r == Undefined
  {
    match v
    case Obj(fields) => if key in fields then fields[key] else Undefined
    case _ => Undefined
  }

  /** The `key in v` operator on an object. */
  predicate Has(v: Value, key: string) {
    v.Obj? && key in v.fields
  }

  /** `v[keys[0]] ?? v[keys[1]] ?? … ?? v[keys[n-1]]`: the first property that
      is neither null nor undefined, or the last one read when all are. */
  function Coalesce(v: Value, keys: seq<string>): (r: Value)
    requires |keys| > 0
    ensures Nullish(r) <==> forall i :: 0 <= i < |keys| ==> Nullish(Get(v, keys[i]))
    ensures Nullish(r) ==> r == Get(v, keys[|keys| - 1])
    ensures !Nullish(r) ==> exists i :: 0 <= i < |keys| && r == Get(v, keys[i]) && FirstPresentAt(v, keys, i)
  {
    var head := Get(v, keys[0]);
    if |keys| == 1 || !Nullish(head) then
      head
    else
      var r := Coalesce(v, keys[1..]);
      CoalesceShift(v, keys, r);
      r
  }

  /** Every property before `keys[i]` is nullish. */
  predicate FirstPresentAt(v: Value, keys: seq<string>, i: nat)
    requires i < |keys|
  {
    forall j :: 0 <= j < i ==> Nullish(Get(v, keys[j]))
  }

  /** Only one position can be the first present one. */
  lemma FirstPresentUnique(v: Value, keys: seq<string>, i: nat, j: nat)
    requires i < |keys| && j < |keys|
    requires FirstPresentAt(v, keys, i) && !Nullish(Get(v, keys[i]))
    requires FirstPresentAt(v, keys, j) && !Nullish(Get(v, keys[j]))
    ensures i == j
  {
  }

  lemma CoalesceShift(v: Value, keys: seq<string>, r: Value)
    requires |keys| > 1 && Nullish(Get(v, keys[0]))
    requires !Nullish(r) ==> exists i :: 0 <= i < |keys| - 1 && r == Get(v, keys[1..][i]) && FirstPresentAt(v, keys[1..], i)
    ensures !Nullish(r) ==> exists i :: 0 <= i < |keys| && r == Get(v, keys[i]) && FirstPresentAt(v, keys, i)
  {
    if !Nullish(r) {
      var i :| 0 <= i < |keys| - 1 && r == Get(v, keys[1..][i]) && FirstPresentAt(v, keys[1..], i);
      assert FirstPresentAt(v, keys, i + 1) by {
        forall j | 0 <= j < i + 1 ensures Nullish(Get(v, keys[j])) {
          if j > 0 { assert keys[j] == keys[1..][j - 1]; }
        }
      }
    }
  }

  /** A property that `Coalesce` finds to be an object is one of `v`'s own
      fields, so it is structurally smaller than `v`. */
  lemma CoalesceField(v: Value, keys: seq<string>)
    requires |keys| > 0 && IsObject(Coalesce(v, keys))
    ensures v.Obj? && exists k :: k in v.fields && v.fields[k] == Coalesce(v, keys)
  {
  }

  /** The decimal digit for `d`. */
  function DigitChar(d: nat): char
    requires d < 10
  {
    "0123456789"[d]
  }

  predicate IsDigit(c: char) {
    '0' <= c <= '9'
  }

  /** The decimal digits of `n`, most significant first, without leading zeros. */
  function NatDigits(n: nat): (r: string)
    ensures |r| > 0
    ensures forall i :: 0 <= i < |r| ==> IsDigit(r[i])
    ensures r[0] == '0' ==> n == 0 && r == "0"
    decreases n
  {
    if n < 10 then [DigitChar(n)] else NatDigits(n / 10) + [DigitChar(n % 10)]
  }

  /** `String(n)` for an integer-valued number: an optional minus sign, then
      the digits. */
  function Decimal(n: int): (r: string)
    ensures |r| > 0
  {
    if n < 0 then "-" + NatDigits(-n) else NatDigits(n)
  }

  /** The value of a string of decimal digits. */
  function DigitsValue(s: string): nat
    requires forall i :: 0 <= i < |s| ==> IsDigit(s[i])
  {
    if s == [] then 0
    else
      var last := s[|s| - 1];
      assert IsDigit(last);
      10 * DigitsValue(s[..|s| - 1]) + (last as int - '0' as int)
  }

  /** Reads back an optionally signed decimal integer. */
  function ParseDecimal(s: string): Option<int> {
    if |s| > 1 && s[0] == '-' && forall i :: 1 <= i < |s| ==> IsDigit(s[i]) then
      Some(0 - DigitsValue(s[1..]))
    else if |s| > 0 && forall i :: 0 <= i < |s| ==> IsDigit(s[i]) then
      Some(DigitsValue(s))
    else
      None
  }

  lemma {:induction false} DigitsRoundTrip(n: nat)
    ensures DigitsValue(NatDigits(n)) == n
    decreases n
  {
    var r := NatDigits(n);
    if n >= 10 {
      DigitsRoundTrip(n / 10);
      assert r[..|r| - 1] == NatDigits(n / 10);
    }
  }

  /** `String(n)` names exactly `n`: reading it back gives `n`, and it is a
      plain digit string, signed only when `n` is negative. */
  lemma DecimalRoundTrip(n: int)
    ensures ParseDecimal(Decimal(n)) == Some(n)
    ensures Decimal(n)[0] == '-' <==> n < 0
  {
    var r := Decimal(n);
    if n < 0 {
      DigitsRoundTrip(-n);
      assert r[1..] == NatDigits(-n);
    } else {
      DigitsRoundTrip(n);
    }
  }
}
