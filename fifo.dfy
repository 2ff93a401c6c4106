/*
 * The fixed-capacity queue of fifo.h: `basic_fifo<T,LENGTH,IS_CIRCULAR>`, a ring
 * buffer over a fixed array with a read cursor (`_first_`), a write cursor
 * (`_last_`, the slot of the newest element) and an element count (`_items_`).
 * `fifo` rejects a push when full; `circular_fifo` overwrites the oldest element.
 */
module Fifo {

  /** The abstract effect of a push under the reject policy (`fifo`): the queue
      keeps what it had and takes `t` only if there is room. */
  function RejectPush<T>(s: seq<T>, capacity: nat, t: T): (r: seq<T>)
    ensures |s| <= capacity ==> |r| <= capacity
    ensures s <= r && r <= s + [t]
    ensures |r| == |s| + 1 <==> |s| < capacity
  {
    if |s| >= capacity then s else s + [t]
  }

  /** The abstract effect of a push under the overwrite policy (`circular_fifo`):
      `t` always becomes the newest element, and the queue grows only when there
      is room. */
  function OverwritePush<T>(s: seq<T>, capacity: nat, t: T): (r: seq<T>)
    requires 1 <= capacity
    ensures |s| <= capacity ==> 1 <= |r| <= capacity
    ensures 1 <= |r| && r[|r| - 1] == t
    ensures |s| <= capacity ==> (|r| == |s| + 1 <==> |s| < capacity)
  {
    if |s| >= capacity then s[1..] + [t] else s + [t]
  }

  /** Contents after pushing every element of `xs`, in order, under the given policy. */
  function PushAll<T>(s: seq<T>, capacity: nat, circular: bool, xs: seq<T>): seq<T>
    requires 1 <= capacity
    decreases |xs|
  {
    if xs == [] then s
    else
      var s' := if circular then OverwritePush(s, capacity, xs[0]) else RejectPush(s, capacity, xs[0]);
      PushAll(s', capacity, circular, xs[1..])
  }

  /** Pushing `xs` into a reject-policy queue keeps the first elements that fit, in order. */
  lemma {:induction false} RejectKeepsFirst<T>(s: seq<T>, capacity: nat, xs: seq<T>)
    requires 1 <= capacity && |s| <= capacity
    ensures PushAll(s, capacity, false, xs) == (s + xs)[..if |s| + |xs| <= capacity then |s| + |xs| else capacity]
    decreases |xs|
  {
    if xs != [] {
      var s' := RejectPush(s, capacity, xs[0]);
      RejectKeepsFirst(s', capacity, xs[1..]);
      if |s| < capacity {
        assert s' + xs[1..] == s + xs;
      } else {
        assert s' == s;
        if |xs[1..]| == 0 {
          assert (s + xs)[..capacity] == s;
        }
        assert (s + xs[1..])[..capacity] == s == (s + xs)[..capacity];
      }
    }
  }

  /** Pushing `xs` into an overwrite-policy queue keeps the last elements that fit, in order. */
  lemma {:induction false} OverwriteKeepsLast<T>(s: seq<T>, capacity: nat, xs: seq<T>)
    requires 1 <= capacity && |s| <= capacity
    ensures PushAll(s, capacity, true, xs) == (s + xs)[if |s| + |xs| <= capacity then 0 else |s| + |xs| - capacity..]
    decreases |xs|
  {
    if xs != [] {
      var s' := OverwritePush(s, capacity, xs[0]);
      OverwriteKeepsLast(s', capacity, xs[1..]);
      if |s| < capacity {
        assert s' + xs[1..] == s + xs;
      } else {
        assert s' + xs[1..] == (s + xs)[1..];
      }
    }
  }

  /** `LENGTH + 1` pushes into an empty `fifo` keep the first `LENGTH` items. */
  lemma RejectOverflowFromEmpty<T>(capacity: nat, xs: seq<T>)
    requires 1 <= capacity && |xs| == capacity + 1
    ensures PushAll([], capacity, false, xs) == xs[..capacity]
  {
    RejectKeepsFirst([], capacity, xs);
    assert [] + xs == xs;
  }

  /** `LENGTH + 1` pushes into an empty `circular_fifo` keep the last `LENGTH` items. */
  lemma OverwriteOverflowFromEmpty<T>(capacity: nat, xs: seq<T>)
    requires 1 <= capacity && |xs| == capacity + 1
    ensures PushAll([], capacity, true, xs) == xs[1..]
  {
    OverwriteKeepsLast([], capacity, xs);
    assert [] + xs == xs;
  }

  /** For `0 <= a < 2 * n`, reducing modulo `n` subtracts `n` at most once. */
  lemma ModOnce(a: int, n: int)
    requires 1 <= n && 0 <= a < 2 * n
    ensures a % n == Wrap(a, n)
  {
  }

  /** Adding one whole turn does not move a ring index. */
  lemma ModTurn(a: int, n: int)
    requires 1 <= n && 0 <= a
    ensures (a + n) % n == a % n
  {
    var q, r := a / n, a % n;
    var q', r' := (a + n) / n, (a + n) % n;
    var k := q' - q - 1;
    assert n * k == r - r';
  }

  /** Index `a` of a ring of `n` slots, for `a` less than two turns. */
  function Wrap(a: int, n: int): int
  {
    if a < n then a else a - n
  }

  /** `basic_fifo<T,LENGTH,IS_CIRCULAR>`; `circular` is the template's `IS_CIRCULAR`. */
  class BasicFifo<T(0)> {
    const length: nat
    const circular: bool
    const buffer: array<T>
    var first: int
    var last: int
    var items: int

    /** The queued elements, oldest first. */
    ghost var Contents: seq<T>

    /** The slot after `last` is the slot `items` places after `first`, that is
        `last == (first + items + length - 1) % length` (see LastCursor). */
    ghost predicate Valid()
      reads this, buffer
    {
      && 1 <= length
      && buffer.Length == length
      && 0 <= items <= length
      && 0 <= first < length
      && 0 <= last < length
      && Wrap(last + 1, length) == Wrap(first + items, length)
      && |Contents| == items
      && forall i :: 0 <= i < items ==> Contents[i] == buffer[Wrap(first + i, length)]
    }

    /** The write cursor invariant in the source's own modular form. */
    lemma LastCursor()
      requires Valid()
      ensures 0 <= items <= length && 0 <= first < length && 0 <= last < length
      ensures last == (first + items + length - 1) % length
    {
      if first + items == 0 {
        ModOnce(length - 1, length);
      } else {
        ModOnce(first + items - 1, length);
        ModTurn(first + items - 1, length);
      }
    }

    /** The constructor; `LENGTH - 1` is only meaningful for a capacity of at least one. */
    constructor (length: nat, circular: bool)
      requires 1 <= length
      ensures Valid() && fresh(buffer)
      ensures this.length == length && this.circular == circular
      ensures Contents == [] && first == 0 && last == length - 1
    {
      this.length := length;
      this.circular := circular;
      buffer := new T[length];
      first, last, items := 0, length - 1, 0;
      Contents := [];
    }

    function IsEmpty(): (r: bool)
      reads this, buffer
      requires Valid()
      ensures r <==> Contents == []
    {
      items == 0
    }

    function IsFull(): (r: bool)
      reads this, buffer
      requires Valid()
      ensures r <==> |Contents| == length
    {
      items == length
    }

    function Items(): (n: int)
      reads this, buffer
      requires Valid()
      ensures n == |Contents| && 0 <= n <= length
    {
      items
    }

    function Available(): (n: int)
      reads this, buffer
      requires Valid()
      ensures n + |Contents| == length && 0 <= n <= length
      ensures n == 0 <==> IsFull()
    {
      length - items
    }

    /** `push`: the policy is chosen by `circular`, as the template chooses `_push_`. */
    method Push(t: T) returns (r: bool)
      requires Valid()
      modifies this, buffer
      ensures Valid()
      ensures !circular ==> r == (|old(Contents)| < length) && Contents == RejectPush(old(Contents), length, t)
      ensures circular ==> r == (|old(Contents)| == length) && Contents == OverwritePush(old(Contents), length, t)
    {
      if circular {
        r := PushOverwriting(t);
      } else {
        r := PushRejecting(t);
      }
    }

    /** `_push_` for a `fifo`: a full queue refuses the element. */
    method PushRejecting(t: T) returns (r: bool)
      requires Valid()
      modifies this, buffer
      ensures Valid()
      ensures r == (|old(Contents)| < length)
      ensures !r ==> Contents == old(Contents) && first == old(first) && last == old(last)
      ensures !r ==> buffer[..] == old(buffer[..])
      ensures r ==> Contents == old(Contents) + [t] && first == old(first) && last == (old(last) + 1) % length
    {
      if items == length {
        return false;
      }
      ModOnce(last + 1, length);
      last := (last + 1) % length;
      buffer[last] := t;
      items := items + 1;
      Contents := Contents + [t];
      return true;
    }

    /** `_push_` for a `circular_fifo`: a full queue drops its oldest element.
        The result is `true` exactly when an element was overwritten. */
    method PushOverwriting(t: T) returns (r: bool)
      requires Valid()
      modifies this, buffer
      ensures Valid()
      ensures r == (|old(Contents)| == length)
      ensures r ==> Contents == old(Contents)[1..] + [t] && first == (old(first) + 1) % length
      ensures !r ==> Contents == old(Contents) + [t] && first == old(first)
      ensures last == (old(last) + 1) % length
    {
      var full := items == length;
      ModOnce(last + 1, length);
      if full {
        ModOnce(first + 1, length);
        first := (first + 1) % length;
        Contents := Contents[1..];
        items := items - 1;
      }
      last := (last + 1) % length;
      buffer[last] := t;
      items := items + 1;
      Contents := Contents + [t];
      r := full;
    }

    /** `pop`: `t` is the caller's variable, returned untouched when the queue is empty. */
    method Pop(t: T) returns (r: bool, t': T)
      requires Valid()
      modifies this
      ensures Valid()
      ensures r == (old(Contents) != [])
      ensures !r ==> t' == t && Contents == old(Contents) && first == old(first) && last == old(last)
      ensures r ==> t' == old(Contents)[0] && Contents == old(Contents)[1..]
      ensures r ==> first == Wrap(old(first) + 1, length) && last == old(last)
    {
      if items == 0 {
        return false, t;
      }
      t' := buffer[first];
      ModOnce(first + 1, length);
      items := items - 1;
      first := (first + 1) % length;
      Contents := Contents[1..];
      r := true;
    }

    /** `reset`: empties the queue and restores the initial cursors; the array is untouched. */
    method Reset()
      requires Valid()
      modifies this
      ensures Valid()
      ensures Contents == [] && first == 0 && last == length - 1
    {
      items, first, last := 0, 0, length - 1;
      Contents := [];
    }
  }
}
