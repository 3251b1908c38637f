/** Decoded JSON values, the way the hook scripts receive them from
    json.load(), with Python's truthiness and the int() coercions the
    scripts apply to them. */
module Json {
  import opened Text

  /** A decoded JSON value. Objects are maps: the scripts never depend on
      key order. */
  datatype Json =
    | JNull
    | JBool(b: bool)
    | JInt(i: int)
    | JFloat(f: real)
    | JString(s: string)
    | JArray(items: seq<Json>)
    | JObject(fields: map<string, Json>)

  /** dict.get(key, default). */
  function Get(fields: map<string, Json>, key: string, default: Json): (v: Json)
    ensures key in fields ==> v == fields[key]
    ensures key !in fields ==> v == default
  {
    if key in fields then fields[key] else default
  }

  /** bool(v) in Python. */
  predicate Truthy(v: Json) {
    match v
    case JNull => false
    case JBool(b) => b
    case JInt(i) => i != 0
    case JFloat(f) => f != 0.0
    case JString(s) => s != []
    case JArray(items) => items != []
    case JObject(fields) => fields != map[]
  }

  /** isinstance(v, int): booleans are ints in Python. */
  predicate IsPyInt(v: Json) {
    v.JInt? || v.JBool?
  }

  /** The integer value of an int or a bool. */
  function PyIntValue(v: Json): (n: int)
    requires IsPyInt(v)
    ensures v.JInt? ==> n == v.i
    ensures v.JBool? ==> n == (if v.b then 1 else 0)
  {
    if v.JInt? then v.i else if v.b then 1 else 0
  }

  /** int(x) for a float: truncation toward zero. */
  function Trunc(x: real): (n: int)
    ensures x >= 0.0 ==> n as real <= x < n as real + 1.0
    ensures x < 0.0 ==> n as real - 1.0 < x <= n as real
  {
    if x >= 0.0 then x.Floor else -((-x).Floor)
  }

  /** int(v) for a decoded JSON value; None stands for the ValueError or
      TypeError that int() raises (null, lists, objects, strings that are
      not integer literals). */
  function IntCoerce(v: Json): (r: Option<int>)
    ensures v.JInt? ==> r == Some(v.i)
    ensures v.JBool? ==> r == Some(if v.b then 1 else 0)
    ensures v.JFloat? && v.f >= 0.0 ==> r.Some? && 0 <= r.value && r.value as real <= v.f < r.value as real + 1.0
    ensures v.JFloat? && v.f < 0.0 ==> r.Some? && r.value <= 0 && r.value as real - 1.0 < v.f <= r.value as real
    ensures v.JString? && r.Some? ==> Strip(v.s) != []
    ensures v.JString? ==> r == ParseInt(v.s)
    ensures (v.JNull? || v.JArray? || v.JObject?) ==> r == None
  {
    match v
    case JInt(i) => Some(i)
    case JBool(b) => Some(if b then 1 else 0)
    case JFloat(f) => Some(Trunc(f))
    case JString(s) => ParseInt(s)
    case _ => None
  }

  /** A string spelling a natural number converts to that number. */
  lemma IntCoerceOfNat(n: nat)
    ensures IntCoerce(JString(NatToString(n))) == Some(n)
  {
    ParseIntOfNat(n);
  }
}
