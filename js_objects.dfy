/**
 * A plain JavaScript object used as a dictionary from string keys: the
 * entries, and the order in which `Object.entries` lists them (insertion order).
 */
module JsObjects {

  datatype Obj<V> = Obj(keys: seq<string>, entries: map<string, V>)

  /** The keys are listed once each, and exactly the keys that have entries. */
  ghost predicate Wf<V>(o: Obj<V>) {
    && (forall i, j :: 0 <= i < j < |o.keys| ==> o.keys[i] != o.keys[j])
    && (forall k :: k in o.entries <==> k in o.keys)
  }

  /** `{}` */
  function Empty<V>(): (o: Obj<V>)
    ensures Wf(o) && o.entries == map[]
  {
    Obj([], map[])
  }

  /** `o[k] ?? default` */
  function Get<V>(o: Obj<V>, k: string, default: V): V {
    if k in o.entries then o.entries[k] else default
  }

  /** `o[k] = v`: a new key goes to the end of the enumeration order, an existing
      key keeps its place. */
  function Put<V>(o: Obj<V>, k: string, v: V): (r: Obj<V>)
    ensures Wf(o) ==> Wf(r)
    ensures r.entries == o.entries[k := v]
    ensures k in o.entries ==> r.keys == o.keys
    ensures k !in o.entries ==> r.keys == o.keys + [k]
  {
    Obj(if k in o.entries then o.keys else o.keys + [k], o.entries[k := v])
  }
}
