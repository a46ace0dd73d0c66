/** std::move_backward and std::move on one array, which the nodes' arrays are shifted with. */
module Arrays {

  /** Moves a[first..last] to the right by `dist` slots, last element first. */
  method MoveBackward<T>(a: array<T>, first: nat, last: nat, dist: nat)
    requires first <= last && last + dist <= a.Length
    modifies a
    ensures forall x :: first <= x < last ==> a[x + dist] == old(a[x])
    ensures forall x :: 0 <= x < a.Length && !(first + dist <= x < last + dist) ==> a[x] == old(a[x])
  {
    var i := last;
    while i > first
      invariant first <= i <= last
      invariant forall x :: i <= x < last ==> a[x + dist] == old(a[x])
      invariant forall x :: 0 <= x < a.Length && !(i + dist <= x < last + dist) ==> a[x] == old(a[x])
    {
      i := i - 1;
      a[i + dist] := a[i];
    }
  }

  /** Moves a[first..last] to the left by `dist` slots, first element first. */
  method MoveForward<T>(a: array<T>, first: nat, last: nat, dist: nat)
    requires dist <= first <= last <= a.Length
    modifies a
    ensures forall x :: first <= x < last ==> a[x - dist] == old(a[x])
    ensures forall x :: 0 <= x < a.Length && !(first - dist <= x < last - dist) ==> a[x] == old(a[x])
  {
    var i := first;
    while i < last
      invariant first <= i <= last
      invariant forall x :: first <= x < i ==> a[x - dist] == old(a[x])
      invariant forall x :: 0 <= x < a.Length && !(first - dist <= x < i - dist) ==> a[x] == old(a[x])
    {
      a[i - dist] := a[i];
      i := i + 1;
    }
  }
}
