/** The order dictionaries that the dialog layer (ux/ and telegram-bot/)
    passes around: string keys mapped to `None`, a string or a number. A key
    that is absent differs from a key that holds `None`, because
    `dict.get(key, default)` tells them apart. */
module Records {
  import opened Common

  /** A dictionary value: `None`, a `str`, or a number (`float`). */
  datatype Value = Null | Str(s: string) | Num(x: real)

  type Dict = map<string, Value>

  /** `d.get(key)`. */
  function Get(d: Dict, key: string): Value {
    if key in d then d[key] else Null
  }

  /** `d.get(key, default)`. */
  function GetOr(d: Dict, key: string, default: Value): Value {
    if key in d then d[key] else default
  }

  /** Python truthiness: `None`, the empty string and zero are false. */
  predicate Truthy(v: Value) {
    match v
    case Null => false
    case Str(s) => s != ""
    case Num(x) => x != 0.0
  }

  /** `f"{v}"`: `None` prints as "None", a string as itself, a number as
      `showNum` prints it (Python's float `repr`, not modelled). */
  function Show(v: Value, showNum: real -> string): string {
    match v
    case Null => "None"
    case Str(s) => s
    case Num(x) => showNum(x)
  }

  /** An optional string as a dictionary value. */
  function OfString(o: Option<string>): Value {
    match o
    case None => Null
    case Some(s) => Str(s)
  }

  /** An optional number as a dictionary value. */
  function OfNumber(o: Option<real>): Value {
    match o
    case None => Null
    case Some(x) => Num(x)
  }

  /** A dictionary whose text fields hold strings and whose number fields
      hold numbers (or `None`), as every parse result does. */
  predicate WellTyped(d: Dict) {
    && (forall k :: k in d && k in NumberFields ==> !d[k].Str?)
    && (forall k :: k in d && k !in NumberFields ==> !d[k].Num?)
  }

  const NumberFields: set<string> := {"quantity", "price"}
}
