/**
 * JSON-like values and records (Python dicts with string keys), together with
 * the handful of Python string and truthiness rules that the repositories rely on.
 */
module Values {
  import opened IsoTime

  /**
   * A value as it appears in a dict. `Time` is a native `datetime` object (it only
   * appears in a model's `model_dump` before conversion to a storage record); every
   * other constructor is a JSON value.
   */
  datatype Value =
    | Null
    | Str(s: string)
    | Bool(b: bool)
    | Int(i: int)
    | Time(t: Instant)
    | Arr(elems: seq<Value>)
    | Obj(fields: map<string, Value>)

  type Record = map<string, Value>

  /** A value `json.dumps` can encode: no `datetime` anywhere inside it. */
  predicate Serialisable(v: Value)
  {
    match v
    case Time(_) => false
    case Arr(e) => forall i :: 0 <= i < |e| ==> Serialisable(e[i])
    case Obj(f) => forall k :: k in f ==> Serialisable(f[k])
    case _ => true
  }

  /** A record `json.dumps` can encode as a request body. */
  predicate SerialisableRecord(r: Record)
  {
    forall k :: k in r ==> Serialisable(r[k])
  }

  /** Python's `d.get(k)`: an absent key reads as `None`. */
  function Get(r: Record, k: string): (v: Value)
    ensures k !in r ==> v == Null
    ensures k in r ==> v == r[k]
  {
    if k in r then r[k] else Null
  }

  /** Python truthiness (`if value:`). */
  predicate Truthy(v: Value)
  {
    match v
    case Null => false
    case Str(s) => s != []
    case Bool(b) => b
    case Int(i) => i != 0
    case Time(_) => true
    case Arr(e) => e != []
    case Obj(f) => f != map[]
  }

  function StrValues(xs: seq<string>): (r: seq<Value>)
    ensures |r| == |xs|
    ensures forall i :: 0 <= i < |xs| ==> r[i] == Str(xs[i])
  {
    if xs == [] then [] else [Str(xs[0])] + StrValues(xs[1..])
  }

  lemma StrValuesSerialisable(xs: seq<string>)
    ensures Serialisable(Arr(StrValues(xs)))
  {
  }

  /** Storing a value without a datetime into a record without one keeps the record free of them. */
  lemma StoreSerialisable(r: Record, k: string, v: Value)
    requires SerialisableRecord(r) && Serialisable(v)
    ensures SerialisableRecord(r[k := v])
  {
  }

  /** `{k: v for k, v in d.items() if v is not None}`. */
  function DropNulls(d: Record): (r: Record)
    ensures r.Keys <= d.Keys
    ensures forall k :: k in r ==> r[k] == d[k] && r[k] != Null
    ensures forall k :: k in d && d[k] != Null ==> k in r
  {
    map k | k in d && d[k] != Null :: d[k]
  }
}
