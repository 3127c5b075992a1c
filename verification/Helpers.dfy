/** What several of the models share. */
module Helpers {

  datatype Option<+T> = None | Some(value: T)

  /** Some element of a set: ranging over a Go map visits the keys in any order. */
  method AnyOf<T(==)>(s: set<T>) returns (k: T)
    requires s != {}
    ensures k in s
  {
    k :| k in s;
  }

  lemma SameMap<K(!new), V(!new)>(a: map<K, V>, b: map<K, V>)
    requires forall k :: k in a <==> k in b
    requires forall k <- a :: a[k] == b[k]
    ensures a == b
  {
  }

  lemma SameSet<T(!new)>(a: set<T>, b: set<T>)
    requires forall k :: k in a <==> k in b
    ensures a == b
  {
  }
}
