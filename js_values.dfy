/** The JavaScript values that reach the bot from its configuration file and
    from the HTTP client, with the three operations the bot applies to them:
    truthiness (`if (v)`, `v ? a : b`, `!v`), loose equality with a string
    literal (`v == "..."`) and conversion to a string (template literals). */
module JsValues {
  import opened Wrappers
  import opened JsStrings

  /** A JavaScript value. Numbers are integers here; `Obj(text)` is any
      object (an array, an `Error`, a plain object) whose conversion to a
      primitive yields `text`. */
  datatype JsValue =
    | Undefined
    | Null
    | Bool(b: bool)
    | Num(n: int)
    | Str(s: string)
    | Obj(text: string)

  /** `Boolean(v)`: only `undefined`, `null`, `false`, `0` and `""` are falsy. */
  predicate Truthy(v: JsValue)
    ensures Truthy(v) <==> v !in {Undefined, Null, Bool(false), Num(0), Str("")}
  {
    match v
    case Undefined => false
    case Null => false
    case Bool(b) => b
    case Num(n) => n != 0
    case Str(s) => s != ""
    case Obj(_) => true
  }

  /** `Number(s)` for a string: the empty string is 0, a string of decimal
      digits is its value, anything else is `NaN` (here `None`). */
  function StringToNumber(s: string): (r: Option<int>)
    ensures r.Some? ==> r.value >= 0
    ensures AllDigits(s) <==> r.Some?
    ensures s == "" ==> r == Some(0)
  {
    if AllDigits(s) then Some(ParseDecimal(s)) else None
  }

  /** `String(v)`, as a template literal `${v}` converts it. */
  function ToString(v: JsValue): (r: string)
    ensures v.Str? ==> r == v.s
    ensures v.Num? ==> StringToNumber(r) == if v.n >= 0 then Some(v.n) else None
  {
    match v
    case Undefined => "undefined"
    case Null => "null"
    case Bool(b) => if b then "true" else "false"
    case Num(n) =>
      ParseNatToDecimal(if n >= 0 then n else -n);
      IntToDecimal(n)
    case Str(s) => s
    case Obj(t) => t
  }

  /** The abstract equality `v == s` against a string `s`: `undefined` and
      `null` equal no string, booleans and numbers are compared as numbers,
      objects by their primitive (string) value. */
  predicate LooseEqualsString(v: JsValue, s: string)
    ensures v.Undefined? || v.Null? ==> !LooseEqualsString(v, s)
    ensures s == "" ==> (LooseEqualsString(v, s) <==> v in {Bool(false), Num(0), Str(""), Obj("")})
    ensures s == "undefined" ==>
      (LooseEqualsString(v, s) <==> v in {Str("undefined"), Obj("undefined")})
  {
    assert !IsDigit("undefined"[0]);
    match v
    case Undefined => false
    case Null => false
    case Bool(b) => StringToNumber(s) == Some(if b then 1 else 0)
    case Num(n) => StringToNumber(s) == Some(n)
    case Str(t) => t == s
    case Obj(t) => t == s
  }

  /** The eight values that `isSet` and the HTTP callback treat as absent. */
  const AbsentValues: set<JsValue> :=
    {Undefined, Null, Bool(false), Num(0), Str(""), Obj(""), Str("undefined"), Obj("undefined")}

  /** The check of `isSet` and of the HTTP callback's error check, negated:
      `!v || v == "" || v == "undefined"` is false. */
  predicate IsPresent(v: JsValue)
    ensures IsPresent(v) ==> Truthy(v)
    ensures !IsPresent(v) <==> v in AbsentValues
  {
    !(!Truthy(v) || LooseEqualsString(v, "") || LooseEqualsString(v, "undefined"))
  }

  /** What `IsPresent` accepts, kind by kind: `true`, a non-zero number, and a
      string or object whose text is neither empty nor "undefined". */
  lemma IsPresentMeaning(v: JsValue)
    ensures IsPresent(v) <==>
      match v
      case Undefined => false
      case Null => false
      case Bool(b) => b
      case Num(n) => n != 0
      case Str(s) => s != "" && s != "undefined"
      case Obj(t) => t != "" && t != "undefined"
  {
  }
}
