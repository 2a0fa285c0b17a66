/** Listing a set in some order, as iterating over a map does. */
module Listings {

  /** `order` names every key exactly once. */
  ghost predicate Lists<K(!new)>(order: seq<K>, keys: set<K>) {
    && (forall k :: k in order <==> k in keys)
    && (forall i, j :: 0 <= i < j < |order| ==> order[i] != order[j])
  }

  lemma ListsSnoc<K(!new)>(order: seq<K>, keys: set<K>, k: K)
    requires Lists(order, keys) && k !in keys
    ensures Lists(order + [k], keys + {k})
  {}
}
