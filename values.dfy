/**
 * The dynamically typed values that travel as JSON in this repository: `map[string]interface{}`
 * in the Go services and `dict` in the node-side Python runner.  Numbers are integers.
 */
module Values {
  datatype Value =
    | Null
    | Bool(b: bool)
    | Num(n: int)
    | Str(s: string)
    | Arr(items: seq<Value>)
    | Obj(fields: map<string, Value>)

  /** A JSON object as Go decodes it: `map[string]interface{}`. */
  type Config = map<string, Value>

  /** Python truthiness of a decoded JSON value. */
  predicate Truthy(v: Value) {
    match v
    case Null => false
    case Bool(b) => b
    case Num(n) => n != 0
    case Str(s) => s != ""
    case Arr(xs) => xs != []
    case Obj(m) => m != map[]
  }

  /**
   * The map that copying every entry of `base` and then every entry of `over` into a fresh
   * map produces: `over` wins on shared keys.
   */
  function Union<V>(base: map<string, V>, over: map<string, V>): (r: map<string, V>)
    ensures r.Keys == base.Keys + over.Keys
    ensures forall k :: k in over ==> r[k] == over[k]
    ensures forall k :: k in base && k !in over ==> r[k] == base[k]
  {
    map k | k in base.Keys + over.Keys :: if k in over then over[k] else base[k]
  }

  /**
   * Go's `for k, v := range src { dst[k] = v }` on a fresh copy of `dst`, visiting the keys in
   * an arbitrary order: the result is `Union(dst, src)`.
   */
  method PutAll<V>(dst: map<string, V>, src: map<string, V>) returns (r: map<string, V>)
    ensures r == Union(dst, src)
  {
    r := dst;
    var rest := src.Keys;
    while rest != {}
      invariant rest <= src.Keys
      invariant r.Keys == dst.Keys + (src.Keys - rest)
      invariant forall k :: k in src && k !in rest ==> r[k] == src[k]
      invariant forall k :: k in dst && (k !in src || k in rest) ==> r[k] == dst[k]
      decreases rest
    {
      var k :| k in rest;
      r := r[k := src[k]];
      rest := rest - {k};
    }
  }

  /** Union with an empty side is the other side. */
  lemma UnionEmpty<V>(m: map<string, V>)
    ensures Union(m, map[]) == m && Union(map[], m) == m
  {
  }

  /** Copying in `b` and then `c` is copying in their union: Union is associative. */
  lemma UnionAssociative<V>(a: map<string, V>, b: map<string, V>, c: map<string, V>)
    ensures Union(Union(a, b), c) == Union(a, Union(b, c))
  {
  }

  /** Copying a map onto itself gives the map back. */
  lemma UnionSelf<V>(m: map<string, V>)
    ensures Union(m, m) == m
  {
  }
}
