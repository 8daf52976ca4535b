/** Optional values and outcomes shared by every component. */
module Common {

  datatype Option<+T> = None | Some(value: T)

  /** A call that returned a value, or raised; a raised call leaves the store rolled back. */
  datatype Outcome<+T, +E> = Ok(value: T) | Raised(error: E)

  /** The value under a key, as `dict.get` gives it. */
  function Get<K, V>(m: map<K, V>, k: K): Option<V> {
    if k in m then Some(m[k]) else None
  }

  function Least(a: int, b: int): int {
    if a < b then a else b
  }

  /** At most `k` elements from the front, as a slice up to `k` gives them. */
  function First<T>(s: seq<T>, k: nat): seq<T> {
    if |s| <= k then s else s[..k]
  }

  /** Some element of a non-empty set. */
  ghost function Pick<T>(s: set<T>): (x: T)
    requires s != {}
    ensures x in s
  {
    var x :| x in s; x
  }

  lemma {:induction false} SubsetSize(a: set<int>, b: set<int>)
    requires a <= b
    ensures |a| <= |b|
  {
    if a != {} {
      var x := Pick(a);
      SubsetSize(a - {x}, b - {x});
    }
  }
}
