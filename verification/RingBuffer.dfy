/** The fixed-capacity ring buffer behind every queue of the hub. */
module RingBuffer {

  /** An index that has run at most once past the end, brought back into the buffer. */
  function Wrap(x: nat, n: nat): (r: nat)
    requires 0 < n && x < 2 * n
    ensures r < n
  {
    if x < n then x else x - n
  }

  lemma WrapIsMod(x: nat, n: nat)
    requires 0 < n && x < 2 * n
    ensures x % n == Wrap(x, n)
  {
    if n <= x {
      assert x == n + (x - n);
    }
  }

  class ThreadSafeQueue<T(0)> {
    const buf: array<T>
    var head: nat   // next position to take from
    var tail: nat   // next position to put to
    var count: nat

    /** The queued items, oldest first. */
    ghost var items: seq<T>

    /** Representation invariant; `tail` is redundant and must stay in step with the other two. */
    ghost predicate Valid()
      reads this, buf
    {
      && 0 < buf.Length
      && head < buf.Length
      && count <= buf.Length
      && tail == Wrap(head + count, buf.Length)
      && |items| == count
      && forall i :: 0 <= i < count ==> items[i] == buf[Wrap(head + i, buf.Length)]
    }

    constructor (capacity: nat)
      requires 0 < capacity
      ensures Valid() && items == [] && buf.Length == capacity && fresh(buf)
    {
      buf := new T[capacity];
      head, tail, count, items := 0, 0, 0, [];
    }

    /** False, and no change, when full. */
    method Push(item: T) returns (ok: bool)
      requires Valid()
      modifies this, buf
      ensures Valid()
      ensures ok <==> |old(items)| < buf.Length
      ensures items == if ok then old(items) + [item] else old(items)
    {
      if count >= buf.Length {
        return false;
      }
      buf[tail] := item;
      WrapIsMod(tail + 1, buf.Length);
      tail := (tail + 1) % buf.Length;
      count := count + 1;
      items := items + [item];
      return true;
    }

    /** The oldest item, or `ok == false` and no change when empty. */
    method Pop(default: T) returns (ok: bool, item: T)
      requires Valid()
      modifies this
      ensures Valid()
      ensures ok <==> old(items) != []
      ensures ok ==> [item] + items == old(items)
      ensures !ok ==> items == old(items) && item == default
    {
      if count <= 0 {
        return false, default;
      }
      item := buf[head];
      WrapIsMod(head + 1, buf.Length);
      head := (head + 1) % buf.Length;
      count := count - 1;
      items := items[1..];
      return true, item;
    }

    /** Puts an item ahead of all others; `tail` is left alone. */
    method PushFront(item: T) returns (ok: bool)
      requires Valid()
      modifies this, buf
      ensures Valid()
      ensures ok <==> |old(items)| < buf.Length
      ensures items == if ok then [item] + old(items) else old(items)
    {
      if count >= buf.Length {
        return false;
      }
      WrapIsMod(head - 1 + buf.Length, buf.Length);
      head := (head - 1 + buf.Length) % buf.Length;
      buf[head] := item;
      count := count + 1;
      items := [item] + items;
      return true;
    }

    /** True exactly when some queued item satisfies the predicate. */
    method Contains(pred: T -> bool) returns (found: bool)
      requires Valid()
      ensures found <==> exists i :: 0 <= i < |items| && pred(items[i])
    {
      for i := 0 to count
        invariant forall k :: 0 <= k < i ==> !pred(items[k])
      {
        WrapIsMod(head + i, buf.Length);
        if pred(buf[(head + i) % buf.Length]) {
          assert pred(items[i]);
          return true;
        }
      }
      return false;
    }
  }
}
