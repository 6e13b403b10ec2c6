/** Parsed JSON values and the type assertions Go makes on them. */
module Json {
  import opened Options

  datatype Json = Null | Bool(b: bool) | Num(n: real) | Str(s: string) | Arr(items: seq<Json>) | Obj(fields: Fields)

  type Fields = map<string, Json>

  /** The string under a key; "" when there is none. */
  function StrAt(o: Fields, key: string): string {
    if key in o && o[key].Str? then o[key].s else ""
  }

  predicate HasStr(o: Fields, key: string) {
    key in o && o[key].Str?
  }

  function NumAt(o: Fields, key: string): Option<real> {
    if key in o && o[key].Num? then Some(o[key].n) else None
  }

  function ObjAt(o: Fields, key: string): Option<Fields> {
    if key in o && o[key].Obj? then Some(o[key].fields) else None
  }

  /** The objects in the array under a key, in order; other items are skipped. */
  function ObjectsAt(o: Fields, key: string): seq<Fields> {
    if key in o && o[key].Arr? then Objects(o[key].items) else []
  }

  function Objects(items: seq<Json>): seq<Fields>
  {
    if items == [] then []
    else Objects(items[..|items| - 1]) + if items[|items| - 1].Obj? then [items[|items| - 1].fields] else []
  }

  /** Conversion of a float64 to an integer: towards zero. */
  function Truncate(r: real): int {
    if r >= 0.0 then r.Floor else -((-r).Floor)
  }
}
