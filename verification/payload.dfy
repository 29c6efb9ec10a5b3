/** Socket.IO event payloads are untyped JSON objects. A payload is modelled as
    a finite map from field name to value, so that object spread (`{...m, k: v}`)
    is map update and "the payload has no `id`" is `"id" !in m`. */
module Payload {

  /** The JSON values the chat exchanges: strings and integral numbers
      (millisecond timestamps). */
  datatype Value = Str(s: string) | Num(n: int)

  type Obj = map<string, Value>

  /** The value of `m.key` when it is the string `v`. */
  predicate HasStr(m: Obj, key: string, v: string)
  {
    key in m && m[key] == Str(v)
  }
}
