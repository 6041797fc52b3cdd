/**
 * DSPBridge of src/shared/dsp_bridge.hpp: two parameter cells written by the
 * UI and read by the audio thread, and a visualization channel the audio
 * thread pushes into and the UI drains, keeping only the latest record.
 *
 * Atomics are plain fields; the static-local instance() and the extern "C"
 * wrappers around it are replaced by an explicitly constructed object.
 */
module DspBridges {
  import RM = RingModel
  import opened RingBuffers

  class DspBridge {
    var fatness: real
    var output: real
    const visualizationBuffer: RingBuffer<VisualizationData>
    var lastRmsLeft: real
    var lastRmsRight: real
    var lastPeakLeft: real
    var lastPeakRight: real

    ghost predicate Valid()
      reads this, visualizationBuffer
    {
      visualizationBuffer.Valid() && visualizationBuffer.capacity == VisualizationCapacity
    }

    /** The visualization records not yet polled, oldest first. */
    ghost function Pending(): seq<VisualizationData>
      reads this, visualizationBuffer, visualizationBuffer.buffer
      requires Valid()
    {
      visualizationBuffer.Contents()
    }

    /** The four latest values as one record. */
    function Latest(): VisualizationData
      reads this
    {
      VisualizationData(lastRmsLeft, lastRmsRight, lastPeakLeft, lastPeakRight)
    }

    constructor ()
      ensures Valid() && fresh(visualizationBuffer) && fresh(visualizationBuffer.buffer)
      ensures GetFatness() == 0.0 && GetOutput() == 1.0
      ensures Latest() == VisualizationData(0.0, 0.0, 0.0, 0.0)
      ensures Pending() == []
    {
      fatness := 0.0;
      output := 1.0;
      lastRmsLeft, lastRmsRight, lastPeakLeft, lastPeakRight := 0.0, 0.0, 0.0, 0.0;
      visualizationBuffer := new RingBuffer<VisualizationData>(VisualizationCapacity);
    }

    // === DSP thread side ===

    /** Enqueues {rmsL, rmsR, peakL, peakR}; dropped when 63 records are pending. */
    method PushVisualization(rmsL: real, rmsR: real, peakL: real, peakR: real)
      requires Valid()
      modifies visualizationBuffer, visualizationBuffer.buffer
      ensures Valid()
      ensures Pending() ==
        if |old(Pending())| < VisualizationCapacity - 1
        then old(Pending()) + [VisualizationData(rmsL, rmsR, peakL, peakR)]
        else old(Pending())
    {
      var data := VisualizationData(rmsL, rmsR, peakL, peakR);
      var _ := visualizationBuffer.Push(data);
    }

    function GetFatness(): real
      reads this
    {
      fatness
    }

    function GetOutput(): real
      reads this
    {
      output
    }

    // === UI thread side ===

    /**
     * Pops every pending record, leaving the latest values equal to the last
     * one popped; answers whether there was any.  With nothing pending the
     * latest values stay as they were.
     */
    method PollVisualization() returns (gotData: bool)
      requires Valid()
      modifies this, visualizationBuffer
      ensures Valid()
      ensures gotData <==> old(Pending()) != []
      ensures Pending() == []
      ensures gotData ==> Latest() == old(Pending())[|old(Pending())| - 1]
      ensures !gotData ==> Latest() == old(Latest())
      ensures GetFatness() == old(GetFatness()) && GetOutput() == old(GetOutput())
    {
      ghost var pending := Pending();
      ghost var popped := 0;
      var data := VisualizationData(0.0, 0.0, 0.0, 0.0);
      gotData := false;
      while true
        invariant Valid()
        invariant 0 <= popped <= |pending|
        invariant Pending() == pending[popped..]
        invariant gotData <==> popped > 0
        invariant popped > 0 ==> Latest() == pending[popped - 1]
        invariant popped == 0 ==> Latest() == old(Latest())
        invariant fatness == old(fatness) && output == old(output)
        decreases |Pending()|
      {
        var ok;
        ok, data := visualizationBuffer.Pop(data);
        if !ok {
          break;
        }
        lastRmsLeft := data.rmsLeft;
        lastRmsRight := data.rmsRight;
        lastPeakLeft := data.peakLeft;
        lastPeakRight := data.peakRight;
        gotData := true;
        popped := popped + 1;
      }
    }

    function GetRmsLeft(): real
      reads this
    {
      lastRmsLeft
    }

    function GetRmsRight(): real
      reads this
    {
      lastRmsRight
    }

    function GetPeakLeft(): real
      reads this
    {
      lastPeakLeft
    }

    function GetPeakRight(): real
      reads this
    {
      lastPeakRight
    }

    method SetFatness(value: real)
      modifies this
      ensures GetFatness() == value && GetOutput() == old(GetOutput())
      ensures Latest() == old(Latest())
    {
      fatness := value;
    }

    method SetOutput(value: real)
      modifies this
      ensures GetOutput() == value && GetFatness() == old(GetFatness())
      ensures Latest() == old(Latest())
    {
      output := value;
    }
  }

  /**
   * Records pushed with peaks rising in order, then one poll: the poll
   * reports an update and shows the last record; a second poll with nothing
   * new reports none and the values stay.
   */
  method DrainKeepsLatest(a: VisualizationData, b: VisualizationData, c: VisualizationData)
    returns (updated: bool, rmsL: real, rmsR: real, peakL: real, peakR: real, updatedAgain: bool, after: VisualizationData)
    ensures updated && VisualizationData(rmsL, rmsR, peakL, peakR) == c
    ensures !updatedAgain && after == c
  {
    var bridge := new DspBridge();
    bridge.PushVisualization(a.rmsLeft, a.rmsRight, a.peakLeft, a.peakRight);
    bridge.PushVisualization(b.rmsLeft, b.rmsRight, b.peakLeft, b.peakRight);
    bridge.PushVisualization(c.rmsLeft, c.rmsRight, c.peakLeft, c.peakRight);
    assert bridge.Pending() == [a, b, c];
    updated := bridge.PollVisualization();
    rmsL, rmsR := bridge.GetRmsLeft(), bridge.GetRmsRight();
    peakL, peakR := bridge.GetPeakLeft(), bridge.GetPeakRight();
    updatedAgain := bridge.PollVisualization();
    after := bridge.Latest();
  }

  /**
   * Whatever was pending before, after a run of pushes of which at least one
   * was accepted, the newest pending record (the one a poll leaves in the
   * latest values) is the last accepted push.
   */
  lemma {:induction false} PollSeesLastAccepted(r: RM.Ring<VisualizationData>, pushed: seq<VisualizationData>)
    requires RM.Wf(r) && RM.Accepted(r, pushed) != []
    ensures RM.Items(RM.PushAll(r, pushed)) != []
    ensures RM.Items(RM.PushAll(r, pushed))[|RM.Items(RM.PushAll(r, pushed))| - 1]
         == RM.Accepted(r, pushed)[|RM.Accepted(r, pushed)| - 1]
  {
    RM.PushAllItems(r, pushed);
  }

  /** The visualization buffer takes 63 records from empty and drops the 64th. */
  lemma VisualizationHolds63(r: RM.Ring<VisualizationData>, records: seq<VisualizationData>, extra: VisualizationData)
    requires RM.Wf(r) && |r.slots| == VisualizationCapacity && RM.IsEmpty(r)
    requires |records| == 63
    ensures RM.Items(RM.PushAll(r, records)) == records
    ensures !RM.Push(RM.PushAll(r, records), extra).1
  {
    RM.FillFromEmpty(r, records, extra);
  }
}
