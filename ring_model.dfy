/**
 * Value-level model of the fixed-capacity circular queue shared by
 * RingBuffer<T, Capacity> and InputRingBuffer<T, Capacity>.
 *
 * A ring is its slot array plus a read index and a write index.  One slot is
 * always left unused, so the ring is empty when read == write and full when
 * (write + 1) % capacity == read (Next below).  The class RingBuffers.RingBuffer is proved
 * to follow these functions step by step; the lemmas here state what the
 * queue promises its single producer and single consumer.
 */
module RingModel {

  datatype Ring<T> = Ring(slots: seq<T>, read: nat, write: nat)

  /** Capacity at least one and both indices inside [0, capacity). */
  predicate Wf<T>(r: Ring<T>)
  {
    0 < |r.slots| && r.read < |r.slots| && r.write < |r.slots|
  }

  /** The index after i, wrapping to 0 past the last slot. */
  function Next(i: nat, cap: nat): nat
  {
    if i + 1 < cap then i + 1 else 0
  }

  /** For an index inside the ring, Next is the source's `(i + 1) % Capacity`. */
  lemma NextIsMod(i: nat, cap: nat)
    requires i < cap
    ensures Next(i, cap) == (i + 1) % cap
  {
    if i + 1 < cap {
      assert (i + 1) / cap == 0;
    }
  }

  predicate IsEmpty<T>(r: Ring<T>)
  {
    r.read == r.write
  }

  predicate IsFull<T>(r: Ring<T>)
    requires Wf(r)
  {
    Next(r.write, |r.slots|) == r.read
  }

  /**
   * The queued items, oldest first: the slots from read up to (not
   * including) write, wrapping around the end of the slot array.
   */
  function Items<T>(r: Ring<T>): (s: seq<T>)
    requires Wf(r)
    ensures |s| <= |r.slots| - 1
    ensures s == [] <==> IsEmpty(r)
    ensures |s| == |r.slots| - 1 <==> IsFull(r)
  {
    if r.read <= r.write then r.slots[r.read..r.write]
    else r.slots[r.read..] + r.slots[..r.write]
  }

  /** Free places left before a push is rejected. */
  function Room<T>(r: Ring<T>): nat
    requires Wf(r)
  {
    |r.slots| - 1 - |Items(r)|
  }

  /** The ring both indices zero, as the constructor and clear() leave it. */
  function Clear<T>(r: Ring<T>): (c: Ring<T>)
    requires 0 < |r.slots|
    ensures Wf(c) && c.slots == r.slots && c.read == 0 && c.write == 0
    ensures Items(c) == []
  {
    Ring(r.slots, 0, 0)
  }

  /**
   * push(item): rejected (ring unchanged, false) when full; otherwise the
   * item goes into the slot at the old write index and write advances.
   */
  function Push<T>(r: Ring<T>, x: T): (res: (Ring<T>, bool))
    requires Wf(r)
    ensures Wf(res.0)
  {
    var next := Next(r.write, |r.slots|);
    if next == r.read then (r, false)
    else (Ring(r.slots[r.write := x], r.read, next), true)
  }

  /**
   * pop(item): on an empty ring returns false and leaves the ring and the
   * caller's item (`prior`) as they were; otherwise yields the slot at the
   * read index and advances read.
   */
  function Pop<T>(r: Ring<T>, prior: T): (res: (Ring<T>, bool, T))
    requires Wf(r)
    ensures Wf(res.0)
  {
    if r.read == r.write then (r, false, prior)
    else (Ring(r.slots, Next(r.read, |r.slots|), r.write), true, r.slots[r.read])
  }

  /** A push succeeds exactly when fewer than capacity - 1 items are queued, and appends. */
  lemma PushItems<T>(r: Ring<T>, x: T)
    requires Wf(r)
    ensures Push(r, x).1 <==> |Items(r)| < |r.slots| - 1
    ensures Items(Push(r, x).0) == if Push(r, x).1 then Items(r) + [x] else Items(r)
    ensures !Push(r, x).1 ==> Push(r, x).0 == r
  {
  }

  /** A pop succeeds exactly when an item is queued, and yields the oldest one. */
  lemma PopItems<T>(r: Ring<T>, prior: T)
    requires Wf(r)
    ensures Pop(r, prior).1 <==> Items(r) != []
    ensures Pop(r, prior).1 ==> Pop(r, prior).2 == Items(r)[0] && Items(Pop(r, prior).0) == Items(r)[1..]
    ensures !Pop(r, prior).1 ==> Pop(r, prior).0 == r && Pop(r, prior).2 == prior
  {
  }

  /** The ring after pushing xs one after another; a rejected push leaves it as it was. */
  function PushAll<T>(r: Ring<T>, xs: seq<T>): (res: Ring<T>)
    requires Wf(r)
    ensures Wf(res) && |res.slots| == |r.slots|
    decreases |xs|
  {
    if xs == [] then r else PushAll(Push(r, xs[0]).0, xs[1..])
  }

  /** The items of xs that those pushes accepted, in push order. */
  function Accepted<T>(r: Ring<T>, xs: seq<T>): seq<T>
    requires Wf(r)
    decreases |xs|
  {
    if xs == [] then []
    else
      var (r', ok) := Push(r, xs[0]);
      (if ok then [xs[0]] else []) + Accepted(r', xs[1..])
  }

  /** Without pops, the queue ends up as its old items followed by the accepted ones. */
  lemma {:induction false} PushAllItems<T>(r: Ring<T>, xs: seq<T>)
    requires Wf(r)
    ensures Items(PushAll(r, xs)) == Items(r) + Accepted(r, xs)
    decreases |xs|
  {
    if xs != [] {
      PushItems(r, xs[0]);
      PushAllItems(Push(r, xs[0]).0, xs[1..]);
    }
  }

  /**
   * Pushing without pops accepts exactly as many items as there is room
   * for, taken from the front of xs: the excess newest items are the ones
   * dropped.
   */
  lemma {:induction false} AcceptedIsPrefix<T>(r: Ring<T>, xs: seq<T>)
    requires Wf(r)
    ensures Accepted(r, xs) == if |xs| <= Room(r) then xs else xs[..Room(r)]
    decreases |xs|
  {
    if xs != [] {
      PushItems(r, xs[0]);
      var r' := Push(r, xs[0]).0;
      AcceptedIsPrefix(r', xs[1..]);
      if Room(r) == 0 {
        assert r' == r;
      } else {
        assert Room(r') == Room(r) - 1;
        assert xs == [xs[0]] + xs[1..];
        if |xs| > Room(r) {
          assert xs[..Room(r)] == [xs[0]] + xs[1..][..Room(r')];
        }
      }
    }
  }

  /** From empty, exactly capacity - 1 pushes succeed, and the next one is rejected. */
  lemma {:induction false} FillFromEmpty<T>(r: Ring<T>, xs: seq<T>, y: T)
    requires Wf(r) && IsEmpty(r)
    requires |xs| == |r.slots| - 1
    ensures Accepted(r, xs) == xs
    ensures Items(PushAll(r, xs)) == xs
    ensures !Push(PushAll(r, xs), y).1
  {
    AcceptedIsPrefix(r, xs);
    PushAllItems(r, xs);
    PushItems(PushAll(r, xs), y);
  }

  /** The items that popping until the queue is empty yields, in pop order. */
  function Drain<T>(r: Ring<T>, prior: T): seq<T>
    requires Wf(r)
    decreases |Items(r)|
  {
    var (r', ok, item) := Pop(r, prior);
    if !ok then []
    else
      PopItems(r, prior);
      [item] + Drain(r', item)
  }

  /** Draining yields every queued item exactly once, oldest first. */
  lemma {:induction false} DrainItems<T>(r: Ring<T>, prior: T)
    requires Wf(r)
    ensures Drain(r, prior) == Items(r)
    decreases |Items(r)|
  {
    PopItems(r, prior);
    var (r', ok, item) := Pop(r, prior);
    if ok {
      DrainItems(r', item);
    }
  }

  /**
   * FIFO: items pushed into an empty ring, no more than it can hold, come
   * out of a drain unchanged, each once, in the order they were pushed.
   */
  lemma {:induction false} Fifo<T>(r: Ring<T>, xs: seq<T>, prior: T)
    requires Wf(r) && IsEmpty(r)
    requires |xs| <= |r.slots| - 1
    ensures Drain(PushAll(r, xs), prior) == xs
  {
    AcceptedIsPrefix(r, xs);
    PushAllItems(r, xs);
    DrainItems(PushAll(r, xs), prior);
  }
}
