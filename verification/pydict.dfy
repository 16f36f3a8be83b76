/**
 * Python dictionaries as used by the error handler: insertion-ordered maps from string keys
 * to JSON-like values. A dictionary is its list of (key, value) entries in insertion order;
 * assigning an existing key replaces its value in place, a new key is appended.
 */
module PyDict {
  import opened Wrappers

  /** The values a response body holds: None, str, int, or a nested dict. */
  datatype Value = Null | Str(s: string) | Int(i: int) | Dict(entries: seq<(string, Value)>)

  type Body = seq<(string, Value)>

  function Keys(d: Body): set<string>
  {
    if d == [] then {} else {d[0].0} + Keys(d[1..])
  }

  /** Every key occurs once, as in any Python dict. */
  predicate UniqueKeys(d: Body)
  {
    d == [] || (d[0].0 !in Keys(d[1..]) && UniqueKeys(d[1..]))
  }

  /** `d.get(k)`: the value stored under `k`, or None when `k` is absent. */
  function Get(d: Body, k: string): (r: Option<Value>)
    ensures r.Some? <==> k in Keys(d)
  {
    if d == [] then None else if d[0].0 == k then Some(d[0].1) else Get(d[1..], k)
  }

  /** `d.get(k)` with the missing case read as Python's None. */
  function GetOrNull(d: Body, k: string): Value
  {
    match Get(d, k)
    case Some(v) => v
    case None => Null
  }

  /** `d[k] = v`: a present key keeps its position, a new key goes last. */
  function Set(d: Body, k: string, v: Value): (r: Body)
    ensures Keys(r) == Keys(d) + {k}
    ensures Get(r, k) == Some(v)
    ensures forall k' :: k' != k ==> Get(r, k') == Get(d, k')
    ensures UniqueKeys(d) ==> UniqueKeys(r)
  {
    if d == [] then [(k, v)]
    else if d[0].0 == k then [(k, v)] + d[1..]
    else [d[0]] + Set(d[1..], k, v)
  }

  /** `d.update(u)`: assigns every entry of `u` into `d`, in `u`'s order. */
  function Update(d: Body, u: Body): (r: Body)
    ensures Keys(r) == Keys(d) + Keys(u)
    ensures UniqueKeys(d) ==> UniqueKeys(r)
    ensures UniqueKeys(u) ==> forall k :: Get(r, k) == if k in Keys(u) then Get(u, k) else Get(d, k)
    decreases |u|
  {
    if u == [] then d else Update(Set(d, u[0].0, u[0].1), u[1..])
  }
}
