/**
 * RingBuffer<T, Capacity> of src/bridge/ring_buffer.hpp as a class over an
 * array.  InputRingBuffer<T, Capacity> of src/shared/frame_bridge.hpp is a
 * line-for-line copy of it and is modelled by this same class.
 *
 * The source's atomics only order the single producer (push) against the
 * single consumer (pop); here the buffer is one sequential object, and the
 * indices are plain fields.
 */
module RingBuffers {
  import RM = RingModel

  /** One visualization record, produced per audio block; the floats are only copied. */
  datatype VisualizationData = VisualizationData(rmsLeft: real, rmsRight: real, peakLeft: real, peakRight: real)

  /** Capacity of VisualizationRingBuffer. */
  const VisualizationCapacity: nat := 64

  class RingBuffer<T(0)> {
    const capacity: nat
    const buffer: array<T>
    var readPos: nat
    var writePos: nat

    ghost predicate Valid()
      reads this
    {
      0 < capacity && buffer.Length == capacity && readPos < capacity && writePos < capacity
    }

    /** Slots and indices as a ring value. */
    ghost function State(): RM.Ring<T>
      reads this, buffer
    {
      RM.Ring(buffer[..], readPos, writePos)
    }

    /** The queued items, oldest first. */
    ghost function Contents(): seq<T>
      reads this, buffer
      requires Valid()
    {
      RM.Items(State())
    }

    constructor (capacity: nat)
      requires 0 < capacity
      ensures Valid() && fresh(buffer)
      ensures this.capacity == capacity
      ensures readPos == 0 && writePos == 0
      ensures Contents() == []
    {
      this.capacity := capacity;
      buffer := new T[capacity];
      readPos, writePos := 0, 0;
    }

    method Push(item: T) returns (ok: bool)
      requires Valid()
      modifies this, buffer
      ensures Valid()
      ensures (State(), ok) == RM.Push(old(State()), item)
      ensures ok <==> |old(Contents())| < capacity - 1
      ensures ok ==> buffer[old(writePos)] == item && writePos == (old(writePos) + 1) % capacity
      ensures readPos == old(readPos)
      ensures !ok ==> writePos == old(writePos) && buffer[..] == old(buffer[..])
      ensures Contents() == if ok then old(Contents()) + [item] else old(Contents())
    {
      RM.PushItems(State(), item);
      RM.NextIsMod(writePos, capacity);
      var currentWrite := writePos;
      var nextWrite := (currentWrite + 1) % capacity;
      if nextWrite == readPos {
        return false;
      }
      buffer[currentWrite] := item;
      writePos := nextWrite;
      ok := true;
    }

    /** `prior` is what the caller's item held before; an empty buffer leaves it there. */
    method Pop(prior: T) returns (ok: bool, item: T)
      requires Valid()
      modifies this
      ensures Valid()
      ensures (State(), ok, item) == RM.Pop(old(State()), prior)
      ensures ok <==> old(Contents()) != []
      ensures ok ==> item == old(Contents())[0] && Contents() == old(Contents())[1..]
      ensures !ok ==> item == prior && readPos == old(readPos) && writePos == old(writePos)
      ensures writePos == old(writePos)
    {
      RM.PopItems(State(), prior);
      RM.NextIsMod(readPos, capacity);
      var currentRead := readPos;
      if currentRead == writePos {
        return false, prior;
      }
      item := buffer[currentRead];
      readPos := (currentRead + 1) % capacity;
      ok := true;
    }

    method Empty() returns (e: bool)
      requires Valid()
      ensures e <==> readPos == writePos
      ensures e <==> Contents() == []
    {
      e := readPos == writePos;
    }

    method Clear()
      requires Valid()
      modifies this
      ensures Valid()
      ensures readPos == 0 && writePos == 0
      ensures Contents() == []
      ensures State() == RM.Clear(old(State()))
    {
      readPos := 0;
      writePos := 0;
    }
  }
}
