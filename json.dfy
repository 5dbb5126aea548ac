/** A JSON request body, as the validators receive it. Numbers are integers in this model. */
module Json {
  import opened Wrappers
  import opened JsString

  datatype Value =
    | Null
    | Bool(b: bool)
    | Num(n: int)
    | Str(s: string)
    | Arr(items: seq<Value>)
    | Obj(fields: map<string, Value>)

  /** `v[key]`: `None` stands for `undefined` (a missing key, or `v` not an object). */
  function Field(v: Value, key: string): Option<Value> {
    if v.Obj? && key in v.fields then Some(v.fields[key]) else None
  }

  // ---------------------------------------------------------------------------
  // the zod field checks the request schemas are built from; `None` means the check fails

  /** `key: z.string().min(n)` */
  function StringField(v: Value, key: string, n: nat): Option<string> {
    match Field(v, key)
    case Some(Str(s)) => if Utf16Length(s) >= n then Some(s) else None
    case _ => None
  }

  /** `key: z.string().optional()`: `Some(None)` when the key is absent. */
  function OptionalString(v: Value, key: string): Option<Option<string>> {
    match Field(v, key)
    case None => Some(None)
    case Some(Str(s)) => Some(Some(s))
    case Some(_) => None
  }

  /** `key: z.number()` */
  function NumberField(v: Value, key: string): Option<int> {
    match Field(v, key)
    case Some(Num(n)) => Some(n)
    case _ => None
  }

  /** `key: z.number().optional()` */
  function OptionalNumber(v: Value, key: string): Option<Option<int>> {
    match Field(v, key)
    case None => Some(None)
    case Some(Num(n)) => Some(Some(n))
    case Some(_) => None
  }

  /** `key: z.boolean()` */
  function BoolField(v: Value, key: string): Option<bool> {
    match Field(v, key)
    case Some(Bool(b)) => Some(b)
    case _ => None
  }

  /** `key: z.enum(values)` */
  function EnumField(v: Value, key: string, values: seq<string>): Option<string> {
    match Field(v, key)
    case Some(Str(s)) => if s in values then Some(s) else None
    case _ => None
  }
}
