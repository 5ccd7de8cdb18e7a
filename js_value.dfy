/** JavaScript values as the client sees them after `JSON.parse`, and the few
    language operations its decision logic relies on: property reads, truthiness,
    `===`, object spread and a JSON stringify/parse round trip. */
module JsValue {

  /** A JavaScript value. `Undefined` never comes out of `JSON.parse`, but object
      literals such as `{action: parsed.action}` can hold it. Numbers are idealised
      as reals: NaN, the infinities and -0 are not represented. */
  datatype Value =
    | Undefined
    | Null
    | Bool(b: bool)
    | Num(n: real)
    | Str(s: string)
    | Arr(items: seq<Value>)
    | Obj(fields: map<string, Value>)

  /** Reading property `k` of `v`, for the non-index property names the client uses
      (`type`, `action`, `payload`, `key`, ...): an own member of an object, otherwise
      `undefined`. Reading from `null` or `undefined` throws; callers handle that. */
  function Get(v: Value, k: string): (r: Value)
    ensures !v.Obj? ==> r == Undefined
    ensures v.Obj? ==> (r != Undefined ==> k in v.fields)
  {
    if v.Obj? && k in v.fields then v.fields[k] else Undefined
  }

  /** JavaScript truthiness: `undefined`, `null`, `false`, `0` and `''` are falsy;
      every array and object, even `[]` and `{}`, is truthy. */
  predicate Truthy(v: Value) {
    match v
    case Undefined => false
    case Null => false
    case Bool(b) => b
    case Num(n) => n != 0.0
    case Str(s) => s != ""
    case Arr(_) => true
    case Obj(_) => true
  }

  /** `a === b` where `b` was produced by a fresh `JSON.parse` and `a` was stored
      earlier: primitives compare by value, and an array or object is never the same
      reference as one parsed from another message. */
  predicate StrictEquals(a: Value, b: Value) {
    !a.Arr? && !a.Obj? && !b.Arr? && !b.Obj? && a == b
  }

  predicate IsDigits(s: string) {
    forall i :: 0 <= i < |s| ==> '0' <= s[i] <= '9'
  }

  /** Decimal rendering of a non-negative integer, as `${n}` and array indices do. */
  function NatToString(n: nat): (r: string)
    ensures r != "" && IsDigits(r)
  {
    if n < 10 then [Digit(n)] else NatToString(n / 10) + [Digit(n % 10)]
  }

  /** The number a digit string denotes, the inverse of NatToString. */
  function DigitsValue(s: string): (n: nat)
    requires IsDigits(s)
  {
    if s == [] then 0 else DigitsValue(s[..|s| - 1]) * 10 + (s[|s| - 1] as int - '0' as int)
  }

  /** Reading back a rendered number gives the number. */
  lemma {:induction false} NatToStringRoundTrip(n: nat)
    ensures DigitsValue(NatToString(n)) == n
  {
    var s := NatToString(n);
    if n >= 10 {
      NatToStringRoundTrip(n / 10);
      assert s[..|s| - 1] == NatToString(n / 10);
    }
  }

  function Digit(d: nat): (c: char)
    requires d < 10
    ensures '0' <= c <= '9'
  {
    ('0' as int + d) as char
  }

  /** The index-keyed members `{"0": xs[0], "1": xs[1], ...}` that spreading an
      array (or a string) contributes. */
  function Indexed(xs: seq<Value>): (r: map<string, Value>)
    ensures forall k :: k in r ==> IsDigits(k) && k != ""
  {
    if xs == [] then map[]
    else Indexed(xs[..|xs| - 1])[NatToString(|xs| - 1) := xs[|xs| - 1]]
  }

  /** The characters of a string as one-character strings. */
  function Chars(s: string): (r: seq<Value>)
    ensures |r| == |s|
  {
    seq(|s|, i requires 0 <= i < |s| => Str([s[i]]))
  }

  /** The members `...v` contributes to an object literal: an object's own members,
      the indices of an array or string, and nothing for any other value
      (spreading `null` or `undefined` is allowed and adds nothing). */
  function Spread(v: Value): (r: map<string, Value>)
    ensures v.Obj? ==> r == v.fields
    ensures !v.Obj? ==> forall k :: k in r ==> IsDigits(k) && k != ""
    ensures !v.Obj? && !v.Arr? && !v.Str? ==> r == map[]
  {
    match v
    case Obj(m) => m
    case Arr(xs) => Indexed(xs)
    case Str(s) => Indexed(Chars(s))
    case _ => map[]
  }

  /** A value `JSON.stringify` renders in full: nothing `undefined` anywhere inside. */
  predicate IsJson(v: Value) {
    match v
    case Undefined => false
    case Arr(xs) => forall i :: 0 <= i < |xs| ==> IsJson(xs[i])
    case Obj(m) => forall k :: k in m ==> IsJson(m[k])
    case _ => true
  }

  /** `JSON.parse(JSON.stringify(v))` for a value `v` that is not itself undefined:
      object members whose value is `undefined` are dropped and `undefined` array
      slots become `null`. */
  function Wire(v: Value): (r: Value)
    ensures v.Obj? ==> r.Obj? && r.fields.Keys == set k | k in v.fields && v.fields[k] != Undefined
  {
    match v
    case Arr(xs) => Arr(seq(|xs|, i requires 0 <= i < |xs| => if xs[i] == Undefined then Null else Wire(xs[i])))
    case Obj(m) => Obj(map k | k in m && m[k] != Undefined :: Wire(m[k]))
    case _ => v
  }

  /** A value without `undefined` crosses the wire unchanged. */
  lemma {:induction false} WireKeepsJson(v: Value)
    requires IsJson(v)
    ensures Wire(v) == v
  {
    match v
    case Arr(xs) =>
      forall i | 0 <= i < |xs| ensures Wire(xs[i]) == xs[i] {
        WireKeepsJson(xs[i]);
      }
    case Obj(m) =>
      forall k | k in m ensures Wire(m[k]) == m[k] {
        WireKeepsJson(m[k]);
      }
      assert Wire(v).fields == m;
    case _ =>
  }

  /** What crosses the wire is always free of `undefined`. */
  lemma {:induction false} WireIsJson(v: Value)
    requires v != Undefined
    ensures IsJson(Wire(v))
  {
    match v
    case Arr(xs) =>
      forall i | 0 <= i < |xs| ensures IsJson(Wire(v).items[i]) {
        if xs[i] != Undefined { WireIsJson(xs[i]); }
      }
    case Obj(m) =>
      forall k | k in Wire(v).fields ensures IsJson(Wire(v).fields[k]) {
        WireIsJson(m[k]);
      }
    case _ =>
  }
}
