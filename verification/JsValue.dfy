/** The attribute values a GeoJSON feature carries, as JavaScript sees
    them, and the lenient coercion `toNumberOrNull` (api/lookup.js). */
module JsValue {
  import opened Wrappers
  import opened JsText
  import opened JsNumber

  /** `Obj` stands for any object or array, carried as the text
      `String(v)` produces for it (`"[object Object]"`, `"5"` for `[5]`).
      An object for which `String(v)` throws has no representation here. */
  datatype Value =
    | Null
    | Undefined
    | Bool(b: bool)
    | Num(n: JsNumber)
    | Str(s: string)
    | Obj(text: string)

  /** `String(v)` for every value but a number. */
  function Text(v: Value): string
    requires !v.Num?
  {
    match v
    case Null => "null"
    case Undefined => "undefined"
    case Bool(b) => if b then "true" else "false"
    case Str(s) => s
    case Obj(text) => text
  }

  /** `Number(String(v).trim())`. For a number `String` and `Number` are
      inverse, so the number itself comes back; `Number` trims its argument
      itself, so the explicit `trim` changes nothing. */
  function ToNumber(v: Value): (n: JsNumber)
    ensures v.Null? || v.Undefined? || v.Bool? ==> n == NaN
  {
    if v.Num? then v.n
    else
      var t := Text(v);
      if v.Null? || v.Undefined? || v.Bool? then
        WordIsNaN(t);
        StringToNumber(t)
      else StringToNumber(t)
  }

  /** `toNumberOrNull`: `null` for `null` and `undefined`, otherwise the
      coerced number when it is finite and `null` when it is NaN or an
      infinity. */
  function ToNumberOrNull(v: Value): (r: Option<real>)
    ensures v.Null? || v.Undefined? || v.Bool? ==> r == None
    ensures r.Some? <==> ToNumber(v).Finite?
    ensures r.Some? ==> InRange(r.value) && ToNumber(v) == Finite(r.value)
  {
    if v.Null? || v.Undefined? then None
    else
      var n := ToNumber(v);
      if n.Finite? then Some(n.value) else None
  }

  /** A decimal integer string, padded with spaces and optionally negative,
      yields its value as long as that value is in range. */
  lemma DecimalStringCoerces(lead: string, n: nat, trail: string, negative: bool)
    requires AllSpace(lead) && AllSpace(trail)
    requires InRange(n as real)
    ensures ToNumberOrNull(Str(lead + (if negative then "-" else "") + Decimal(n) + trail))
            == Some(if negative then -(n as real) else n as real)
  {
    DecimalRoundTrip(lead, n, trail, negative);
  }

  /** The empty string and every whitespace-only string coerce to 0, not to
      `null`. */
  lemma BlankCoercesToZero(s: string)
    requires AllSpace(s)
    ensures ToNumberOrNull(Str(s)) == Some(0.0)
  {
    BlankIsZero(s);
  }

  /** `Infinity` parses but is not finite, so it yields `null`. */
  lemma InfinityIsNull(negative: bool)
    ensures ToNumberOrNull(Str(if negative then "-Infinity" else "Infinity")) == None
  {
    InfinityText(negative);
  }
}
