/** The header names the builder writes. Their spelling is conventional; the model relies only on their being distinct. */
module HttpHeaderNames {
  const ACCEPT := "Accept"
  const ACCEPT_LANGUAGE := "Accept-Language"
  const ACCEPT_ENCODING := "Accept-Encoding"
  const CONTENT_TYPE := "Content-Type"
  const CONTENT_LANGUAGE := "Content-Language"
  const CONTENT_ENCODING := "Content-Encoding"
  const VARY := "Vary"
  const LOCATION := "Location"
  const CONTENT_LOCATION := "Content-Location"
  const ETAG := "ETag"
  const LAST_MODIFIED := "Last-Modified"
  const CACHE_CONTROL := "Cache-Control"
  const SET_COOKIE := "Set-Cookie"
  const EXPIRES := "Expires"
}

/**
 * The header multimap: each header name maps to the ordered list of its
 * values. A name that was never written is absent from the map.
 */
module Headers {
  import opened JaxRs

  type Multimap = map<string, seq<Value>>

  /** The values listed under `name`, empty when the name is absent. */
  function Values(m: Multimap, name: string): seq<Value> {
    if name in m then m[name] else []
  }

  /** putSingle: replace whatever `name` held by the one value `v`. */
  function PutSingle(m: Multimap, name: string, v: Value): (r: Multimap)
    ensures name in r && r[name] == [v]
    ensures r.Keys == m.Keys + {name}
    ensures r - {name} == m - {name}
  {
    m[name := [v]]
  }

  /** add: append `v` to the values of `name`, creating the list if needed. */
  function Add(m: Multimap, name: string, v: Value): (r: Multimap)
    ensures name in r && r[name] == Values(m, name) + [v]
    ensures r.Keys == m.Keys + {name}
    ensures r - {name} == m - {name}
  {
    m[name := Values(m, name) + [v]]
  }

  /** add, once per element of `vs`, in order. */
  function AddAll(m: Multimap, name: string, vs: seq<Value>): (r: Multimap)
    ensures Values(r, name) == Values(m, name) + vs
    ensures r.Keys == if vs == [] then m.Keys else m.Keys + {name}
    ensures r - {name} == m - {name}
    decreases |vs|
  {
    if vs == [] then m else AddAll(Add(m, name, vs[0]), name, vs[1..])
  }

  /** putAll: copy every entry of `other` into `m`, replacing entries of the same name. */
  function PutAll(m: Multimap, other: Multimap): (r: Multimap)
    ensures r.Keys == m.Keys + other.Keys
    ensures forall name :: name in other ==> r[name] == other[name]
    ensures forall name :: name in m && name !in other ==> r[name] == m[name]
  {
    m + other
  }

  /** Two putSingle calls on one name leave only the second value; the first leaves no trace. */
  lemma PutSingleOverwrites(m: Multimap, name: string, a: Value, b: Value)
    ensures PutSingle(PutSingle(m, name, a), name, b) == PutSingle(m, name, b)
  {
  }

  /** putSingle on two different names commutes. */
  lemma PutSingleCommutes(m: Multimap, n1: string, n2: string, a: Value, b: Value)
    requires n1 != n2
    ensures PutSingle(PutSingle(m, n1, a), n2, b) == PutSingle(PutSingle(m, n2, b), n1, a)
  {
  }

  /** Adding one more value after a run of adds is the same as one longer run. */
  lemma {:induction false} AddAllSnoc(m: Multimap, name: string, vs: seq<Value>, v: Value)
    ensures AddAll(m, name, vs + [v]) == Add(AddAll(m, name, vs), name, v)
  {
    var lhs, rhs := AddAll(m, name, vs + [v]), Add(AddAll(m, name, vs), name, v);
    assert lhs.Keys == rhs.Keys;
    assert Values(lhs, name) == Values(rhs, name);
    forall k | k in lhs
      ensures lhs[k] == rhs[k]
    {
      if k != name {
        assert k in lhs - {name};
        assert lhs[k] == (lhs - {name})[k] == (m - {name})[k] == (rhs - {name})[k] == rhs[k];
      }
    }
  }
}
