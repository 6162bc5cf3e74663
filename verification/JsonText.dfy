/** JSON values and their text; the codec itself is a parameter. */
module JsonText {
  import opened Options

  datatype Json = Null | Bool(value: bool) | Num(number: int) | Str(text: string) | Arr(items: seq<Json>)
      | Obj(members: Record)
  type Record = map<string, Json>

  datatype Codec = Codec(dumps: Json -> string, loads: string -> Option<Json>)

  /** Reading undoes printing. */
  ghost predicate Lawful(c: Codec) {
    forall j :: c.loads(c.dumps(j)) == Some(j)
  }

  /** Printed text is one line, and that of an object is in braces. */
  ghost predicate OneLine(c: Codec) {
    && (forall j :: '\n' !in c.dumps(j))
    && (forall j: Json :: j.Obj? ==> |c.dumps(j)| >= 2 && c.dumps(j)[0] == '{' && c.dumps(j)[|c.dumps(j)| - 1] == '}')
  }

  /** Python's truth value. */
  predicate Truthy(j: Json) {
    match j
    case Null => false
    case Bool(b) => b
    case Num(n) => n != 0
    case Str(t) => t != ""
    case Arr(items) => items != []
    case Obj(m) => m != map[]
  }

  function OptionalStr(s: Option<string>): Json {
    if s.Some? then Str(s.value) else Null
  }

  /** `dict.get`. */
  function Get(m: Record, key: string, default: Json): Json {
    if key in m then m[key] else default
  }
}
