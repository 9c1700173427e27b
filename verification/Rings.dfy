/** A fixed array used as a queue that pushes out its oldest element when full: the learner's buckets of
    points and its history of raw samples. */
module Rings {
  /** The last n elements. */
  function Keep<T>(n: nat, s: seq<T>): (k: seq<T>)
    ensures |k| <= n && |k| <= |s|
    ensures forall i | 0 <= i < |k| :: k[i] == s[|s| - |k| + i]
  {
    if |s| <= n then s else s[|s| - n..]
  }

  lemma KeepThenPush<T>(n: nat, s: seq<T>, x: T)
    requires n > 0
    ensures Keep(n, Keep(n, s) + [x]) == Keep(n, s + [x])
  {}

  lemma Wrap(x: nat, n: nat)
    requires x < 2 * n
    ensures x % n == if x < n then x else x - n
  {
    if x >= n { assert x == n + (x - n); }
  }

  /** The place of the i-th element. */
  function Slot(head: nat, i: nat, n: nat): (p: nat)
    requires head < n && i <= n
    ensures p < n && p == if head + i < n then head + i else head + i - n
  {
    Wrap(head + i, n);
    (head + i) % n
  }

  class Ring<T> {
    const slots: array<T>
    var head: nat
    var count: nat

    ghost predicate Valid()
      reads this
    {
      slots.Length > 0 && head < slots.Length && count <= slots.Length
    }

    /** Oldest first. */
    ghost function Contents(): (s: seq<T>)
      requires Valid()
      reads this, slots
      ensures |s| == count
    {
      seq(count, i requires 0 <= i < count && Valid() reads this, slots => slots[Slot(head, i, slots.Length)])
    }

    constructor (capacity: nat, fill: T)
      requires capacity > 0
      ensures Valid() && fresh(slots) && slots.Length == capacity && Contents() == []
    {
      slots := new T[capacity](_ => fill);
      head, count := 0, 0;
    }

    method Clear()
      requires Valid()
      modifies this
      ensures Valid() && Contents() == []
    {
      head, count := 0, 0;
    }

    method At(i: nat) returns (x: T)
      requires Valid() && i < count
      ensures x == Contents()[i]
    {
      x := slots[Slot(head, i, slots.Length)];
    }

    method Push(x: T)
      requires Valid()
      modifies this, slots
      ensures Valid() && Contents() == Keep(slots.Length, old(Contents()) + [x])
    {
      hide Slot;
      ghost var was := Contents();
      if count < slots.Length {
        slots[Slot(head, count, slots.Length)] := x;
        count := count + 1;
        assert Contents() == was + [x];
      } else {
        slots[head] := x;
        head := Slot(head, 1, slots.Length);
        assert Contents() == (was + [x])[1..];
      }
    }
  }
}
