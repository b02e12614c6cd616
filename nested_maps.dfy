/** The two-level dictionaries the bot keeps in memory and saves as JSON:
    `d[a][b]`, and `d.setdefault(a, {})[b] = v` written out as the bot writes it. */
module NestedMaps {
  import opened Wrappers

  /** `d[a][b]` when both keys are present. */
  function Get<K, L, V>(d: map<K, map<L, V>>, a: K, b: L): Option<V> {
    if a in d && b in d[a] then Some(d[a][b]) else None
  }

  /** `if a not in d: d[a] = {}` followed by `d[a][b] = v`: the entry reads back as `v`,
      every other entry keeps its value, and no key disappears. */
  function Put<K(!new), L(!new), V>(d: map<K, map<L, V>>, a: K, b: L, v: V): (r: map<K, map<L, V>>)
    ensures Get(r, a, b) == Some(v)
    ensures forall x, y :: (x != a || y != b) ==> Get(r, x, y) == Get(d, x, y)
    ensures r.Keys == d.Keys + {a}
  {
    var inner := if a in d then d[a] else map[];
    d[a := inner[b := v]]
  }
}
