/** The declarative request-body rules the backend uses (a string with an
    optional empty value and length bounds, a fixed set of allowed strings,
    an ISO date, an e-mail address, no unknown keys), written as total
    functions that list every violated field. */
module Schema {
  import opened Wrappers
  import opened Text

  /** A JSON body value: either a string or some other JSON value
      (number, boolean, null, array or object), which every string rule rejects. */
  datatype Value = Text(s: string) | NonText

  type Body = map<string, Value>

  datatype FieldError =
    | Required(key: string)
    | NotAString(key: string)
    | Empty(key: string)
    | TooShort(key: string, min: nat)
    | TooLong(key: string, max: nat)
    | NotAllowed(key: string)
    | NotIsoDate(key: string)
    | NotEmail(key: string)
    | UnknownKeys(keys: set<string>)
    | NoKeys

  function Get(b: Body, key: string): Option<Value> {
    if key in b then Some(b[key]) else None
  }

  /** The text of a present string value; None for an absent or non-string one. */
  function TextOf(v: Option<Value>): Option<string> {
    match v
    case Some(Text(s)) => Some(s)
    case _ => None
  }

  /** A string field: absent is fine unless required; a non-string is rejected;
      "" is rejected unless explicitly allowed; otherwise the length must lie in
      `minLen..maxLen`. */
  function StringErrors(key: string, v: Option<Value>, required: bool, allowEmpty: bool,
                        minLen: nat, maxLen: nat): (r: seq<FieldError>)
    ensures r == [] <==> match v
      case None => !required
      case Some(NonText) => false
      case Some(Text(s)) => (s == "" && allowEmpty) || (s != "" && minLen <= JsLength(s) <= maxLen)
    ensures |r| <= 1
  {
    match v
    case None => if required then [Required(key)] else []
    case Some(NonText) => [NotAString(key)]
    case Some(Text(s)) =>
      if s == "" then (if allowEmpty then [] else [Empty(key)])
      else if JsLength(s) < minLen then [TooShort(key, minLen)]
      else if JsLength(s) > maxLen then [TooLong(key, maxLen)]
      else []
  }

  /** A string field restricted to the listed values. */
  function OneOfErrors(key: string, v: Option<Value>, required: bool, allowed: set<string>): (r: seq<FieldError>)
    ensures r == [] <==> match v
      case None => !required
      case Some(NonText) => false
      case Some(Text(s)) => s in allowed
  {
    match v
    case None => if required then [Required(key)] else []
    case Some(Text(s)) => if s in allowed then [] else [NotAllowed(key)]
    case Some(NonText) => [NotAllowed(key)]
  }

  /** A date field given as ISO-8601 text, recognised by `isIso`; "" is never a date. */
  function IsoDateErrors(key: string, v: Option<Value>, required: bool, isIso: string -> bool): (r: seq<FieldError>)
    ensures r == [] <==> match v
      case None => !required
      case Some(NonText) => false
      case Some(Text(s)) => s != "" && isIso(s)
  {
    match v
    case None => if required then [Required(key)] else []
    case Some(Text(s)) => if s != "" && isIso(s) then [] else [NotIsoDate(key)]
    case Some(NonText) => [NotIsoDate(key)]
  }

  /** A required, non-empty string that `isEmail` recognises. */
  function EmailErrors(key: string, v: Option<Value>, isEmail: string -> bool): (r: seq<FieldError>)
    ensures r == [] <==> v.Some? && v.value.Text? && v.value.s != "" && isEmail(v.value.s)
  {
    match v
    case None => [Required(key)]
    case Some(NonText) => [NotAString(key)]
    case Some(Text(s)) => if s == "" then [Empty(key)] else if isEmail(s) then [] else [NotEmail(key)]
  }

  /** Keys outside the schema are an error, not silently dropped. */
  function UnknownKeyErrors(b: Body, known: set<string>): (r: seq<FieldError>)
  {
    if b.Keys <= known then [] else [UnknownKeys(b.Keys - known)]
  }
}
