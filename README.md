# Enlil cross-thread bridges, modelled in Dafny

The Enlil/GodotVST plugin framework connects three threads. The audio thread
runs the DSP. The UI thread presents frames and forwards input. The embedded
Godot engine renders frames and consumes that input. They exchange data
through a few small structures:

- a fixed-capacity single-producer/single-consumer ring buffer
  (`RingBuffer<T, Capacity>`, and `InputRingBuffer<T, Capacity>`, which is
  its exact copy);
- `FrameBridge`: a double-buffered RGBA frame store, an input-event queue of
  capacity 256, and a latest-wins viewport size request;
- `DSPBridge` and `godot::FatSatBridge`: two parameter cells (`fatness`,
  `output`) and a visualization channel of capacity 64. The UI drains this
  channel and keeps only the newest record.

This project models each structure as one sequential object. The atomics and
the mutex become plain fields, because each method stands for one call made
by the thread that owns that side of the channel. The source's discipline is
one producer and one consumer per channel; it is not modelled.

Files:

- `ring_model.dfy` (module `RingModel`): the ring as a value. It holds the
  slot sequence, the read index and the write index. The file defines the
  queue it represents (`Items`), its `Push`, `Pop` and `Clear` steps, and
  runs of pushes (`PushAll`, `Accepted`) and of pops (`Drain`). The lemmas
  prove the capacity bound, the full and empty conditions, that the excess
  newest pushes are the ones dropped, and FIFO order.
- `ring_buffer.dfy` (module `RingBuffers`): the `RingBuffer` class over an
  `array`, with `readPos` and `writePos` fields. Each method's contract ties
  the new slots and indices to the `RingModel` step and states the new queue
  contents. One class models both `RingBuffer` and `InputRingBuffer`.
  `VisualizationData` is also defined here.
- `frame_bridge.dfy` (module `FrameBridges`): `InputEvent` and the event
  builders, and the `FrameBridge` class. Its invariant says the front pixels
  always match the front dimensions, and that while a frame is pending the
  back pixels match the back dimensions.
- `dsp_bridge.dfy` (module `DspBridges`): the `DspBridge` class. Its
  drain-to-latest poll is a loop, as in the source.
- `fatsat_bridge.dfy` (module `FatSat`): the `FatSatBridge` class. The static
  `singleton` pointer becomes an explicit `SingletonSlot` object.

The parameter getters (`getFatness`, `get_output`, `getRmsLeft`, …) and
`getFrameWidth`/`getFrameHeight` are modelled as `reads` functions of the
same names. The setters', the polls' and the swap's contracts are stated
through them. `get_singleton()` is the field `SingletonSlot.current`.

Three points about the code that the model follows:

- `submitFrame` resizes the back buffer only when the byte size
  `width * height * 4` differs from the buffer's current size
  (src/shared/frame_bridge.hpp:111-113), and then always copies that many
  bytes into it. The resize cannot be observed, because the copy overwrites
  the whole buffer.
- An input event is one flat record with a type tag
  (src/shared/frame_bridge.hpp:22-38). `button` holds either the mouse button
  or the key code, and each builder sets the fields its type does not use to
  zero or false.
- The code keeps no lifecycle state. The only lifecycle behaviour is
  `FatSatBridge`'s constructor setting the singleton pointer and its
  destructor clearing it (src/bridge/fatsat_bridge.cpp:15-31).
  `OverlappingInstances` shows the consequence: a second instance takes over
  the pointer, and destroying it clears the pointer while the first instance
  still exists.

## Model

| member | source | states |
|---|---|---|
| `RingModel.NextIsMod` | src/bridge/ring_buffer.hpp:21 | for an index inside the ring, the model's wrap-to-0 successor equals the source's `(index + 1) % Capacity` |
| `RingModel.Items` | src/bridge/ring_buffer.hpp:19-47 | the queue never holds more than capacity − 1 items; it is empty exactly when read == write, and it holds capacity − 1 items exactly when (write + 1) % capacity == read |
| `RingModel.Push` | src/bridge/ring_buffer.hpp:19-30 | after a push, both indices are still in [0, capacity) |
| `RingModel.Pop` | src/bridge/ring_buffer.hpp:32-42 | after a pop, both indices are still in [0, capacity) |
| `RingModel.Clear` | src/bridge/ring_buffer.hpp:49-52 | clear keeps the slots, sets both indices to 0 and leaves the queue empty |
| `RingModel.PushItems` | src/bridge/ring_buffer.hpp:19-30 | a push succeeds exactly when fewer than capacity − 1 items are queued; a success appends the item; a rejection leaves the ring (slots and indices) unchanged |
| `RingModel.PopItems` | src/bridge/ring_buffer.hpp:32-42 | a pop succeeds exactly when the queue is non-empty and yields the oldest item, which leaves the queue; on an empty ring it returns false and leaves the ring and the caller's item unchanged |
| `RingModel.PushAll` | src/bridge/ring_buffer.hpp:19-30 | any run of pushes keeps indices in range and capacity fixed |
| `RingModel.PushAllItems` | src/bridge/ring_buffer.hpp:19-30 | after a run of pushes with no pops, the queue is its old items followed by the accepted ones |
| `RingModel.AcceptedIsPrefix` | src/bridge/ring_buffer.hpp:19-25 | a run of pushes accepts exactly as many items as there is room for, from the front of the run; the excess newest items are the ones dropped |
| `RingModel.FillFromEmpty` | src/bridge/ring_buffer.hpp:20-29 | from empty, exactly capacity − 1 pushes succeed and the next push fails |
| `RingModel.DrainItems` | src/bridge/ring_buffer.hpp:32-42 | popping until empty yields every queued item once, oldest first |
| `RingModel.Fifo` | src/bridge/ring_buffer.hpp:19-42 | items pushed into an empty ring (at most capacity − 1) come out of a drain identical, each once, in push order |
| `RingBuffers.RingBuffer.constructor` | src/bridge/ring_buffer.hpp:17 | a new buffer has both indices 0 and an empty queue |
| `RingBuffers.RingBuffer.Push` | src/bridge/ring_buffer.hpp:19-30 | follows `RingModel.Push`; on a full buffer it returns false and leaves the indices and the array unchanged; otherwise it stores the item at the old write index, advances write mod capacity, leaves read unchanged and appends to the contents |
| `RingBuffers.RingBuffer.Pop` | src/bridge/ring_buffer.hpp:32-42 | follows `RingModel.Pop`; on an empty buffer it returns false and leaves the item and both indices unchanged; otherwise it returns the oldest item and removes it from the contents |
| `RingBuffers.RingBuffer.Empty` | src/bridge/ring_buffer.hpp:44-47 | true exactly when read == write, and exactly when the queue is empty |
| `RingBuffers.RingBuffer.Clear` | src/bridge/ring_buffer.hpp:49-52 | sets both indices to 0, empties the queue and keeps the array |
| `FrameBridges.MouseMotionEvent` | src/shared/frame_bridge.hpp:172-182 | the event has type mouse motion and the given position; button, pressed and the scroll deltas are cleared |
| `FrameBridges.MouseButtonEvent` | src/shared/frame_bridge.hpp:184-194 | the event has type mouse button and the given position, button and pressed state; the scroll deltas are cleared |
| `FrameBridges.ScrollEvent` | src/shared/frame_bridge.hpp:196-206 | the event has type scroll and the given position and deltas; button and pressed are cleared |
| `FrameBridges.KeyEvent` | src/shared/frame_bridge.hpp:208-218 | the event has type key, the key code in `button` and the given pressed state; the position and the scroll deltas are cleared |
| `FrameBridges.FrameBridge.constructor` | src/shared/frame_bridge.hpp:249-258 | both buffers are empty and all their dimensions 0, no frame is pending, the event queue is empty, and the requested size is 600×400 with no change pending |
| `FrameBridges.FrameBridge.SubmitFrame` | src/shared/frame_bridge.hpp:101-120 | a null pointer or a width or height <= 0 changes nothing; otherwise the back buffer becomes the first w·h·4 bytes of the input, the back dimensions become (w, h) and a frame is pending; the front buffer and its dimensions never change |
| `FrameBridges.FrameBridge.GetFrameWidth` | src/shared/frame_bridge.hpp:132-134 | the displayed width is non-negative, and the front pixels are exactly width · height · 4 bytes |
| `FrameBridges.FrameBridge.GetFrameHeight` | src/shared/frame_bridge.hpp:136-138 | the displayed height is non-negative, and the front pixels are exactly width · height · 4 bytes |
| `FrameBridges.FrameBridge.GetFrameData` | src/shared/frame_bridge.hpp:124-129 | null exactly when the front buffer is empty; otherwise the front pixels, whose length matches the front width and height |
| `FrameBridges.FrameBridge.HasNewFrame` | src/shared/frame_bridge.hpp:142-156 | with no frame pending it returns false and changes nothing; otherwise it swaps front and back (the back buffer gets the previous front pixels), copies the back dimensions to the front, clears the flag and returns true |
| `FrameBridges.FrameBridge.PushInputEvent` | src/shared/frame_bridge.hpp:161-163 | appends the event to the pending events, or drops it silently when 255 are already pending |
| `FrameBridges.FrameBridge.PopInputEvent` | src/shared/frame_bridge.hpp:167-169 | returns the oldest pending event and removes it; with none pending it returns false and leaves the caller's event |
| `FrameBridges.FrameBridge.PushMouseMotion` | src/shared/frame_bridge.hpp:172-182 | offers `MouseMotionEvent(x, y)` to the queue |
| `FrameBridges.FrameBridge.PushMouseButton` | src/shared/frame_bridge.hpp:184-194 | offers `MouseButtonEvent(x, y, button, pressed)` to the queue |
| `FrameBridges.FrameBridge.PushScroll` | src/shared/frame_bridge.hpp:196-206 | offers `ScrollEvent(x, y, dx, dy)` to the queue |
| `FrameBridges.FrameBridge.PushKey` | src/shared/frame_bridge.hpp:208-218 | offers `KeyEvent(keycode, pressed)` to the queue |
| `FrameBridges.FrameBridge.SetRequestedSize` | src/shared/frame_bridge.hpp:223-227 | stores (width, height), replacing any unconsumed request, and raises the changed flag; the frame state is unchanged |
| `FrameBridges.FrameBridge.GetRequestedSize` | src/shared/frame_bridge.hpp:231-240 | returns the flag's old value; if it was set, outputs the stored size; if not, leaves the caller's width and height unwritten; the flag ends cleared |
| `FrameBridges.FrameBridge.GetCurrentSize` | src/shared/frame_bridge.hpp:243-246 | outputs the stored requested size and changes nothing (the flag stays) |
| `FrameBridges.SubmitThenSwap` | src/shared/frame_bridge.hpp:101-156 | a frame submitted to a fresh bridge comes out of the next swap with its width, height and bytes; a second swap returns false and the displayed frame stays |
| `FrameBridges.LatestSizeWins` | src/shared/frame_bridge.hpp:223-246 | set(a, b) then set(c, d): the next take returns true with (c, d); the take after that returns false and leaves its outputs unwritten; peeking still gives (c, d) |
| `FrameBridges.EventsInOrder` | src/shared/frame_bridge.hpp:161-218 | one scenario: a motion, a button, a scroll and a key event, pushed through their builders into a fresh bridge, pop out as the builders make them, in push order, and a fifth pop finds the queue empty |
| `FrameBridges.InputQueueHolds255` | src/shared/frame_bridge.hpp:46-87 | the 256-slot event queue accepts 255 events from empty and rejects the 256th |
| `DspBridges.DspBridge.constructor` | src/shared/dsp_bridge.hpp:83-90 | fatness 0, output 1, all last RMS and peak values 0, nothing pending |
| `DspBridges.DspBridge.PushVisualization` | src/shared/dsp_bridge.hpp:33-36 | appends the record {rmsL, rmsR, peakL, peakR}, in that field order, unless 63 are already pending |
| `DspBridges.DspBridge.PollVisualization` | src/shared/dsp_bridge.hpp:51-65 | empties the buffer; returns true exactly when something was pending, and the last values then equal the newest pending record; otherwise they are unchanged; the parameters are untouched |
| `DspBridges.DspBridge.SetFatness` | src/shared/dsp_bridge.hpp:74-76 | `GetFatness()` then returns the new value; output and the last values are unchanged |
| `DspBridges.DspBridge.SetOutput` | src/shared/dsp_bridge.hpp:78-80 | `GetOutput()` then returns the new value; fatness and the last values are unchanged |
| `DspBridges.DspBridge.GetFatness` | src/shared/dsp_bridge.hpp:39-41 | reads the fatness cell; no contract of its own: `SetFatness`, `SetOutput` and `PollVisualization` state what it returns |
| `DspBridges.DspBridge.GetOutput` | src/shared/dsp_bridge.hpp:43-45 | reads the output cell; no contract of its own: `SetOutput`, `SetFatness` and `PollVisualization` state what it returns |
| `DspBridges.DspBridge.GetRmsLeft` | src/shared/dsp_bridge.hpp:68 | reads the last left RMS value; no contract of its own: `PollVisualization` states it through `Latest`, and `DrainKeepsLatest` reads it after a poll |
| `DspBridges.DspBridge.GetRmsRight` | src/shared/dsp_bridge.hpp:69 | reads the last right RMS value; stated through `Latest` as for `GetRmsLeft` |
| `DspBridges.DspBridge.GetPeakLeft` | src/shared/dsp_bridge.hpp:70 | reads the last left peak value; stated through `Latest` as for `GetRmsLeft` |
| `DspBridges.DspBridge.GetPeakRight` | src/shared/dsp_bridge.hpp:71 | reads the last right peak value; stated through `Latest` as for `GetRmsLeft` |
| `DspBridges.DrainKeepsLatest` | src/shared/dsp_bridge.hpp:33-65 | three pushes then one poll: it reports an update and shows the third record; a second poll reports none and the values stay |
| `DspBridges.PollSeesLastAccepted` | src/shared/dsp_bridge.hpp:55-62 | after pushes of which at least one was accepted, the newest pending record, which a poll leaves in the last values, is the last accepted push |
| `DspBridges.VisualizationHolds63` | src/bridge/ring_buffer.hpp:69 | the 64-slot visualization buffer takes 63 records from empty and drops the 64th |
| `FatSat.SingletonSlot.constructor` | src/bridge/fatsat_bridge.cpp:13 | the pointer starts out null |
| `FatSat.FatSatBridge.constructor` | src/bridge/fatsat_bridge.cpp:15-24 | fatness 0, output 1, all RMS and peak values 0, nothing pending, and the singleton pointer is this object |
| `FatSat.FatSatBridge.Destroy` | src/bridge/fatsat_bridge.cpp:26-31 | clears the singleton pointer if it designates this object, and otherwise leaves it as it was |
| `FatSat.FatSatBridge.SetFatness` | src/bridge/fatsat_bridge.cpp:43-46 | `GetFatness()` then returns the new value; output and the RMS and peak values are unchanged |
| `FatSat.FatSatBridge.SetOutput` | src/bridge/fatsat_bridge.cpp:53-56 | `GetOutput()` then returns the new value; fatness and the RMS and peak values are unchanged |
| `FatSat.FatSatBridge.PushVisualization` | src/bridge/fatsat_bridge.cpp:78-86 | appends a record whose fields equal the arguments in order, or drops it when the buffer is full (63 pending) |
| `FatSat.FatSatBridge.PollVisualization` | src/bridge/fatsat_bridge.cpp:88-97 | empties the buffer; the RMS and peak values end equal to the newest pending record, or stay unchanged if nothing was pending |
| `FatSat.FatSatBridge.GetFatness` | src/bridge/fatsat_bridge.cpp:38-41 | reads the fatness cell; no contract of its own: `SetFatness`, `SetOutput` and `PollVisualization` state what it returns, and `ParametersIndependent` reads it |
| `FatSat.FatSatBridge.GetOutput` | src/bridge/fatsat_bridge.cpp:48-51 | reads the output cell; no contract of its own: `SetOutput`, `SetFatness` and `PollVisualization` state what it returns, and `ParametersIndependent` reads it |
| `FatSat.FatSatBridge.GetRmsLeft` | src/bridge/fatsat_bridge.cpp:58-61 | reads the left RMS value; no contract of its own: `PollVisualization` states it through `Latest` |
| `FatSat.FatSatBridge.GetRmsRight` | src/bridge/fatsat_bridge.cpp:63-66 | reads the right RMS value; stated through `Latest` as for `GetRmsLeft` |
| `FatSat.FatSatBridge.GetPeakLeft` | src/bridge/fatsat_bridge.cpp:68-71 | reads the left peak value; stated through `Latest` as for `GetRmsLeft` |
| `FatSat.FatSatBridge.GetPeakRight` | src/bridge/fatsat_bridge.cpp:73-76 | reads the right peak value; stated through `Latest` as for `GetRmsLeft` |
| `FatSat.OverlappingInstances` | src/bridge/fatsat_bridge.cpp:13-31 | a second instance takes over the pointer; destroying the first then leaves it on the second; destroying the second sets it to null |
| `FatSat.ParametersIndependent` | src/bridge/fatsat_bridge.cpp:38-56 | each getter returns what its setter stored last; setting fatness does not disturb output |

## Left out

- Memory orderings, `std::atomic` and the `std::mutex`/`lock_guard` around the frame swap: the model is sequential, so it says nothing about interleavings. Each channel is meant to have exactly one producer and one consumer; the model assumes this and does not check it.
- The static-local `instance()` accessors of `FrameBridge` and `DSPBridge`, and the `extern "C"` wrappers in src/shared/dsp_bridge.hpp: these are global-access plumbing. The model constructs explicit objects instead.
- `FatSatBridge::_bind_methods`, the Godot-facing wrappers in src/bridge/frame_bridge_gd.cpp and src/bridge/register_types.cpp: they call Godot APIs, which are not part of this model.
- src/plugin/FatSatPlugin.cpp (floating-point DSP through the host framework), src/plugin/FatSatUI.cpp, src/plugin/DistrhoPluginInfo.h and scripts/custom_godot.py: these are DSP, placeholder UI, metadata and build configuration, not the data-exchange core.
- Float semantics: the parameter and visualization values, and `InputEvent`'s `x`, `y`, `scrollX` and `scrollY` (src/shared/frame_bridge.hpp:32-37), are `real`, and only stored and copied. NaN, rounding and the 32-bit format are not modelled.
- Integer widths: indices are `nat` and stay below the capacity (proved), so `size_t` wrap-around cannot occur. Widths, heights, sizes, buttons and key codes are `int`. Only `submitFrame` does arithmetic on them (`width * height * 4` in `size_t`), and it only runs with positive 32-bit values, so the product fits in a 64-bit `size_t`; with a 32-bit `size_t` it can wrap. The model does not limit these values to 32 bits.
- `FrameBridges.FrameBridge.GetFrameData`: returns the front pixels as a value. Pointer identity, and aliasing of that pointer across a later swap, are not modelled.
- `FrameBridges.FrameBridge.SubmitFrame`: models the resize-then-`memcpy` as one assignment of the copied bytes. The model does not distinguish whether the vector was reallocated.
- The slot array's uninitialised contents: Dafny fills new arrays with a default value. No contract depends on what unused slots hold.
