/** JavaScript values as they appear in the adapter's records, with the two
    pieces of JavaScript semantics the adapter relies on: truthiness and the
    string conversion a template literal or `+` applies. */
module Json {
  import opened Wrappers

  /** A field value. `JDate` is a `Date` object: records are saved as JSON
      text and date-like fields are rebuilt into dates when read, and this
      model takes that round trip as the identity. */
  datatype Json = JNull | JBool(b: bool) | JNum(n: int) | JStr(s: string) | JDate(millis: int)

  /** A record: the plain object `JSON.parse` returns. */
  type Record = map<string, Json>

  /** `r[name]`: `None` is a missing property, read as `undefined`. */
  function Field(r: Record, name: string): Option<Json> {
    if name in r then Some(r[name]) else None
  }

  /** JavaScript truthiness of a property value. */
  predicate Truthy(v: Option<Json>) {
    match v
    case None => false
    case Some(JNull) => false
    case Some(JBool(b)) => b
    case Some(JNum(n)) => n != 0
    case Some(JStr(s)) => s != ""
    case Some(JDate(_)) => true
  }

  function DigitChar(d: nat): char
    requires d < 10
  {
    "0123456789"[d]
  }

  /** Decimal digits of a natural number: what `String(n)` writes for an
      integer below 10^21 (from there on JavaScript switches to exponent form). */
  function NatText(n: nat): string
    decreases n
  {
    if n < 10 then [DigitChar(n)] else NatText(n / 10) + [DigitChar(n % 10)]
  }

  function IntText(n: int): string {
    if n < 0 then "-" + NatText(-n) else NatText(n)
  }

  /** `${v}`: the text a property value contributes to a key. */
  function JsString(v: Option<Json>): string {
    match v
    case None => "undefined"
    case Some(JNull) => "null"
    case Some(JBool(b)) => if b then "true" else "false"
    case Some(JNum(n)) => IntText(n)
    case Some(JStr(s)) => s
    case Some(JDate(ms)) => "Date(" + IntText(ms) + ")"
  }

  /** `${r[name]}` */
  function FieldText(r: Record, name: string): string {
    JsString(Field(r, name))
  }

  /** `{ ...base, ...over }`: the fields of `over` win, every other field of
      `base` is kept, and nothing else appears. */
  function ShallowMerge(base: Record, over: Record): (r: Record)
    ensures r.Keys == base.Keys + over.Keys
    ensures forall f :: f in over ==> r[f] == over[f]
    ensures forall f :: f in base && f !in over ==> r[f] == base[f]
  {
    base + over
  }

  /** The largest distance from the epoch, in milliseconds, a valid `Date`
      may have; beyond it `new Date` yields an Invalid Date. */
  const MaxDateMillis: int := 8_640_000_000_000_000

  /** `new Date(v * 1000)` for a number of seconds `v`, as the instant in
      milliseconds, or `None` when the result is an Invalid Date: out of
      range, or `undefined`, which multiplies to NaN. `null` and booleans
      multiply as 0 and 1, a Date as its milliseconds. */
  function SecondsToDate(v: Option<Json>): (r: Option<int>)
    ensures r.Some? ==> -MaxDateMillis <= r.value <= MaxDateMillis && r.value % 1000 == 0
    ensures forall n :: v == Some(JNum(n)) ==>
              r == (if -MaxDateMillis <= n * 1000 <= MaxDateMillis then Some(n * 1000) else None)
    ensures forall ms :: v == Some(JDate(ms)) ==>
              r == (if -MaxDateMillis <= ms * 1000 <= MaxDateMillis then Some(ms * 1000) else None)
    ensures forall b :: v == Some(JBool(b)) ==> r == Some(if b then 1000 else 0)
    ensures v == Some(JNull) ==> r == Some(0)
    ensures v.Some? && v.value.JStr? ==> r.None?
    ensures v.None? ==> r.None?
  {
    var seconds: Option<int> :=
      match v
      case Some(JNum(n)) => Some(n)
      case Some(JNull) => Some(0)
      case Some(JBool(b)) => Some(if b then 1 else 0)
      case Some(JDate(ms)) => Some(ms)
      case _ => None;
    match seconds
    case None => None
    case Some(t) => if -MaxDateMillis <= t * 1000 <= MaxDateMillis then Some(t * 1000) else None
  }

  /** The instant a `Date`-valued property holds, in milliseconds. */
  function DateMillis(v: Option<Json>): Option<int> {
    match v
    case Some(JDate(ms)) => Some(ms)
    case _ => None
  }
}
