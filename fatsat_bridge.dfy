/**
 * godot::FatSatBridge of src/bridge/fatsat_bridge.cpp: the engine-side twin
 * of DSPBridge, with the same parameter cells and visualization channel,
 * plus a class-wide "current instance" pointer that the constructor sets and
 * the destructor clears.
 *
 * The static pointer becomes an explicit SingletonSlot object handed to the
 * constructor and to Destroy, which stands for the C++ destructor.
 */
module FatSat {
  import opened RingBuffers

  /** The static FatSatBridge::singleton; `current` is what get_singleton() returns. */
  class SingletonSlot {
    var current: FatSatBridge?

    constructor ()
      ensures current == null
    {
      current := null;
    }
  }

  class FatSatBridge {
    var fatness: real
    var output: real
    const visualizationBuffer: RingBuffer<VisualizationData>
    var rmsLeft: real
    var rmsRight: real
    var peakLeft: real
    var peakRight: real

    ghost predicate Valid()
      reads this, visualizationBuffer
    {
      visualizationBuffer.Valid() && visualizationBuffer.capacity == VisualizationCapacity
    }

    /** The visualization records not yet polled, oldest first. */
    ghost function Pending(): seq<VisualizationData>
      reads this, visualizationBuffer, visualizationBuffer.buffer
      requires Valid()
    {
      visualizationBuffer.Contents()
    }

    /** The four displayed values as one record. */
    function Latest(): VisualizationData
      reads this
    {
      VisualizationData(rmsLeft, rmsRight, peakLeft, peakRight)
    }

    /** Defaults, and this object becomes the current instance, whatever was current before. */
    constructor (slot: SingletonSlot)
      modifies slot
      ensures Valid() && fresh(visualizationBuffer) && fresh(visualizationBuffer.buffer)
      ensures GetFatness() == 0.0 && GetOutput() == 1.0
      ensures Latest() == VisualizationData(0.0, 0.0, 0.0, 0.0)
      ensures Pending() == []
      ensures slot.current == this
    {
      fatness := 0.0;
      output := 1.0;
      rmsLeft, rmsRight, peakLeft, peakRight := 0.0, 0.0, 0.0, 0.0;
      visualizationBuffer := new RingBuffer<VisualizationData>(VisualizationCapacity);
      new;
      slot.current := this;
    }

    /** The destructor: clears the pointer only if it still designates this object. */
    method Destroy(slot: SingletonSlot)
      modifies slot
      ensures slot.current == if old(slot.current) == this then null else old(slot.current)
    {
      if slot.current == this {
        slot.current := null;
      }
    }

    function GetFatness(): real
      reads this
    {
      fatness
    }

    method SetFatness(value: real)
      modifies this
      ensures GetFatness() == value && GetOutput() == old(GetOutput())
      ensures Latest() == old(Latest())
    {
      fatness := value;
    }

    function GetOutput(): real
      reads this
    {
      output
    }

    method SetOutput(value: real)
      modifies this
      ensures GetOutput() == value && GetFatness() == old(GetFatness())
      ensures Latest() == old(Latest())
    {
      output := value;
    }

    function GetRmsLeft(): real
      reads this
    {
      rmsLeft
    }

    function GetRmsRight(): real
      reads this
    {
      rmsRight
    }

    function GetPeakLeft(): real
      reads this
    {
      peakLeft
    }

    function GetPeakRight(): real
      reads this
    {
      peakRight
    }

    /** Enqueues a record of the four arguments in order; dropped when 63 are pending. */
    method PushVisualization(rmsL: real, rmsR: real, peakL: real, peakR: real)
      requires Valid()
      modifies visualizationBuffer, visualizationBuffer.buffer
      ensures Valid()
      ensures Pending() ==
        if |old(Pending())| < VisualizationCapacity - 1
        then old(Pending()) + [VisualizationData(rmsL, rmsR, peakL, peakR)]
        else old(Pending())
    {
      var data := VisualizationData(rmsL, rmsR, peakL, peakR);
      var _ := visualizationBuffer.Push(data);
    }

    /** Pops every pending record; the displayed values end as the last one popped, or stay. */
    method PollVisualization()
      requires Valid()
      modifies this, visualizationBuffer
      ensures Valid()
      ensures Pending() == []
      ensures old(Pending()) != [] ==> Latest() == old(Pending())[|old(Pending())| - 1]
      ensures old(Pending()) == [] ==> Latest() == old(Latest())
      ensures GetFatness() == old(GetFatness()) && GetOutput() == old(GetOutput())
    {
      ghost var pending := Pending();
      ghost var popped := 0;
      var data := VisualizationData(0.0, 0.0, 0.0, 0.0);
      while true
        invariant Valid()
        invariant 0 <= popped <= |pending|
        invariant Pending() == pending[popped..]
        invariant popped > 0 ==> Latest() == pending[popped - 1]
        invariant popped == 0 ==> Latest() == old(Latest())
        invariant fatness == old(fatness) && output == old(output)
        decreases |Pending()|
      {
        var ok;
        ok, data := visualizationBuffer.Pop(data);
        if !ok {
          break;
        }
        rmsLeft := data.rmsLeft;
        rmsRight := data.rmsRight;
        peakLeft := data.peakLeft;
        peakRight := data.peakRight;
        popped := popped + 1;
      }
    }
  }

  /**
   * Two overlapping instances: the second construction takes the pointer
   * from the first, destroying the first then leaves it alone, and
   * destroying the second clears it while the first object still exists.
   */
  method OverlappingInstances()
    returns (first: FatSatBridge, second: FatSatBridge, afterSecond: FatSatBridge?,
             afterFirstDestroyed: FatSatBridge?, afterSecondDestroyed: FatSatBridge?)
    ensures first != second
    ensures afterSecond == second && afterFirstDestroyed == second
    ensures afterSecondDestroyed == null
  {
    var slot := new SingletonSlot();
    first := new FatSatBridge(slot);
    second := new FatSatBridge(slot);
    afterSecond := slot.current;
    first.Destroy(slot);
    afterFirstDestroyed := slot.current;
    second.Destroy(slot);
    afterSecondDestroyed := slot.current;
  }

  /** The two parameter cells are independent: each setter is seen by its getter only. */
  method ParametersIndependent(f: real, o: real, f2: real)
    returns (fatness: real, output: real, fatnessAfter: real, outputAfter: real)
    ensures fatness == f && output == o
    ensures fatnessAfter == f2 && outputAfter == o
  {
    var slot := new SingletonSlot();
    var bridge := new FatSatBridge(slot);
    bridge.SetFatness(f);
    bridge.SetOutput(o);
    fatness, output := bridge.GetFatness(), bridge.GetOutput();
    bridge.SetFatness(f2);
    fatnessAfter, outputAfter := bridge.GetFatness(), bridge.GetOutput();
  }
}
