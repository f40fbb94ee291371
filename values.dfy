/** Opaque JSON-like payloads (`any`, `Record<string, any>`) and the two JavaScript operations the
    concepts apply to them: truthiness tests and object spread. */
module Values {
  import opened Wrappers

  /** A JavaScript value. Objects and arrays are not looked into; `Composite(tag)` stands for one,
      identified by `tag`. */
  datatype Value = Null | Bool(b: bool) | Num(n: real) | Str(s: string) | Composite(tag: nat)

  /** JavaScript truthiness: `null`, `false`, `0` and `""` are falsy, objects are truthy. */
  predicate Truthy(v: Value) {
    match v
    case Null => false
    case Bool(b) => b
    case Num(n) => n != 0.0
    case Str(s) => s != ""
    case Composite(_) => true
  }

  /** A plain object of configuration entries. */
  type Config = map<string, Value>

  /** `{ ...base, ...overlay }`: the keys of both; an overlay key wins over the same base key. */
  function Merge(base: Config, overlay: Config): (r: Config)
    ensures r.Keys == base.Keys + overlay.Keys
    ensures forall k :: k in overlay ==> r[k] == overlay[k]
    ensures forall k :: k in base && k !in overlay ==> r[k] == base[k]
  {
    base + overlay
  }

  /** An optional config as an object: `undefined` spreads to nothing, and `config || {}` is the
      same object. */
  function Spread(c: Option<Config>): Config {
    match c
    case None => map[]
    case Some(m) => m
  }

  /** Merging in the same overlay twice is merging it once, and an empty overlay changes nothing. */
  lemma MergeIdempotent(base: Config, overlay: Config)
    ensures Merge(Merge(base, overlay), overlay) == Merge(base, overlay)
    ensures Merge(base, map[]) == base
  {
  }
}
