/**
 * An HTTP header map (Go's `http.Header`): each key maps to the list of its values.
 * Keys are taken to be in canonical form already, so `Set` and `Del` use them as given.
 */
module HttpHeader {

  type Header = map<string, seq<string>>

  /** `Header.Set(k, v)`: the key now holds exactly the one value `v`; every other key is untouched. */
  function Set(h: Header, k: string, v: string): (r: Header)
    ensures r.Keys == h.Keys + {k}
    ensures r[k] == [v]
    ensures forall k' :: k' in h && k' != k ==> r[k'] == h[k']
  {
    h[k := [v]]
  }

  /** `Header.Del(k)`: the key is gone, whether or not it was there; every other key is untouched. */
  function Del(h: Header, k: string): (r: Header)
    ensures r.Keys == h.Keys - {k}
    ensures forall k' :: k' in r ==> r[k'] == h[k']
  {
    h - {k}
  }
}
