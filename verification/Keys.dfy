/** Keys, sorted key arrays and the library searches (std::lower_bound and
    std::upper_bound) that every node of both trees is accessed with. */
module Keys {

  /** SIZE_MAX, which findMedianKey uses as its upper sentinel. */
  const MAX_KEY: int := 0xFFFF_FFFF_FFFF_FFFF

  /** Keys are 64-bit unsigned integers. */
  type Key = k: int | 0 <= k <= MAX_KEY

  /** Page ids are opaque to the trees. */
  type PageId = int

  datatype Option<+T> = None | Some(value: T)

  function Get<T>(m: map<Key, T>, k: Key): Option<T> {
    if k in m then Some(m[k]) else None
  }

  ghost predicate StrictlySorted(s: seq<Key>) {
    forall i, j :: 0 <= i < j < |s| ==> s[i] < s[j]
  }

  /** Index of the first element that is not below `key`. */
  function LowerBound(s: seq<Key>, key: Key): (r: nat)
    ensures r <= |s|
    ensures forall i :: 0 <= i < r ==> s[i] < key
    ensures r < |s| ==> key <= s[r]
  {
    if s == [] || key <= s[0] then 0 else 1 + LowerBound(s[1..], key)
  }

  /** Index of the first element above `key`. */
  function UpperBound(s: seq<Key>, key: Key): (r: nat)
    ensures r <= |s|
    ensures forall i :: 0 <= i < r ==> s[i] <= key
    ensures r < |s| ==> key < s[r]
  {
    if s == [] || key < s[0] then 0 else 1 + UpperBound(s[1..], key)
  }

  /** In a sorted array the two searches differ by the key's own entry, if there is one. */
  lemma {:induction false} BoundsDiffer(s: seq<Key>, key: Key)
    requires StrictlySorted(s)
    ensures LowerBound(s, key) <= UpperBound(s, key) <= LowerBound(s, key) + 1
    ensures key in s <==> UpperBound(s, key) == LowerBound(s, key) + 1
    ensures key in s <==> LowerBound(s, key) < |s| && s[LowerBound(s, key)] == key
  {
    var lb, ub := LowerBound(s, key), UpperBound(s, key);
    assert lb + 1 < |s| ==> s[lb] < s[lb + 1];
  }

  /** The searches are the only indices with their two-sided property. */
  lemma LowerBoundUnique(s: seq<Key>, key: Key, r: nat)
    requires StrictlySorted(s) && r <= |s|
    requires r > 0 ==> s[r - 1] < key
    requires r < |s| ==> key <= s[r]
    ensures LowerBound(s, key) == r
  {
    var lb := LowerBound(s, key);
    assert forall i :: 0 <= i < r ==> s[i] <= s[r - 1];
  }

  lemma UpperBoundUnique(s: seq<Key>, key: Key, r: nat)
    requires StrictlySorted(s) && r <= |s|
    requires r > 0 ==> s[r - 1] <= key
    requires r < |s| ==> key < s[r]
    ensures UpperBound(s, key) == r
  {
    var ub := UpperBound(s, key);
    assert forall i :: 0 <= i < r ==> s[i] <= s[r - 1];
  }
}
