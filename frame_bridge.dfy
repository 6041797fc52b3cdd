/**
 * FrameBridge of src/shared/frame_bridge.hpp: a double-buffered RGBA frame
 * store (render side submits into the back buffer, presentation side swaps
 * it to the front), a queue of input events going the other way, and a
 * latest-wins viewport size request.
 *
 * The mutex around the swap and the atomics on the flags are left out: the
 * bridge is one sequential object, and each method below is one call of the
 * thread that owns that side of the channel.  The static-local instance() is
 * replaced by an explicitly constructed object.
 */
module FrameBridges {
  import RM = RingModel
  import opened RingBuffers

  newtype byte = b: int | 0 <= b < 256

  /** A nullable pointer: None is nullptr. */
  datatype Option<T> = None | Some(value: T)

  /** Capacity of InputEventQueue; it holds at most 255 events. */
  const InputQueueCapacity: nat := 256

  /** Initial requested viewport size. */
  const DefaultRequestedWidth: int := 600
  const DefaultRequestedHeight: int := 400

  datatype EventType = MouseMotion | MouseButton | Key | Scroll

  /**
   * InputEvent is one flat record for every type: `button` carries the mouse
   * button or the key code, and the fields a type does not use are meant to
   * hold zero / false.
   */
  datatype InputEvent = InputEvent(
    kind: EventType,
    x: real,
    y: real,
    button: int,
    pressed: bool,
    scrollX: real,
    scrollY: real)

  /** The fields that an event of this type does not use are zero or false. */
  predicate UnusedFieldsCleared(e: InputEvent)
  {
    match e.kind
    case MouseMotion => e.button == 0 && !e.pressed && e.scrollX == 0.0 && e.scrollY == 0.0
    case MouseButton => e.scrollX == 0.0 && e.scrollY == 0.0
    case Scroll => e.button == 0 && !e.pressed
    case Key => e.x == 0.0 && e.y == 0.0 && e.scrollX == 0.0 && e.scrollY == 0.0
  }

  /** The event pushMouseMotion fills in. */
  function MouseMotionEvent(x: real, y: real): (e: InputEvent)
    ensures e.kind == MouseMotion && e.x == x && e.y == y
    ensures UnusedFieldsCleared(e)
  {
    InputEvent(MouseMotion, x, y, 0, false, 0.0, 0.0)
  }

  /** The event pushMouseButton fills in. */
  function MouseButtonEvent(x: real, y: real, button: int, pressed: bool): (e: InputEvent)
    ensures e.kind == MouseButton && e.x == x && e.y == y && e.button == button && e.pressed == pressed
    ensures UnusedFieldsCleared(e)
  {
    InputEvent(MouseButton, x, y, button, pressed, 0.0, 0.0)
  }

  /** The event pushScroll fills in. */
  function ScrollEvent(x: real, y: real, scrollX: real, scrollY: real): (e: InputEvent)
    ensures e.kind == Scroll && e.x == x && e.y == y && e.scrollX == scrollX && e.scrollY == scrollY
    ensures UnusedFieldsCleared(e)
  {
    InputEvent(Scroll, x, y, 0, false, scrollX, scrollY)
  }

  /** The event pushKey fills in; the key code travels in `button`. */
  function KeyEvent(keycode: int, pressed: bool): (e: InputEvent)
    ensures e.kind == Key && e.button == keycode && e.pressed == pressed
    ensures UnusedFieldsCleared(e)
  {
    InputEvent(Key, 0.0, 0.0, keycode, pressed, 0.0, 0.0)
  }

  /** The queue after offering e: appended unless 255 events are already pending. */
  function Offered(pending: seq<InputEvent>, e: InputEvent): seq<InputEvent>
  {
    if |pending| < InputQueueCapacity - 1 then pending + [e] else pending
  }

  class FrameBridge {
    var frontBuffer: seq<byte>
    var backBuffer: seq<byte>
    var frontWidth: int
    var frontHeight: int
    var backWidth: int
    var backHeight: int
    var newFrame: bool
    const inputQueue: RingBuffer<InputEvent>
    var requestedWidth: int
    var requestedHeight: int
    var sizeChanged: bool

    /**
     * The front pixels always match the front dimensions, and while a frame
     * is pending the back pixels match the back dimensions: a reader never
     * sees pixels of one size with dimensions of another.
     */
    ghost predicate Valid()
      reads this, inputQueue
    {
      && inputQueue.Valid() && inputQueue.capacity == InputQueueCapacity
      && frontWidth >= 0 && frontHeight >= 0 && backWidth >= 0 && backHeight >= 0
      && |frontBuffer| == frontWidth * frontHeight * 4
      && (newFrame ==> |backBuffer| == backWidth * backHeight * 4)
    }

    /** The pending input events, oldest first. */
    ghost function PendingEvents(): seq<InputEvent>
      reads this, inputQueue, inputQueue.buffer
      requires Valid()
    {
      inputQueue.Contents()
    }

    constructor ()
      ensures Valid() && fresh(inputQueue) && fresh(inputQueue.buffer)
      ensures frontBuffer == [] && backBuffer == []
      ensures frontWidth == 0 && frontHeight == 0 && backWidth == 0 && backHeight == 0
      ensures !newFrame
      ensures PendingEvents() == []
      ensures requestedWidth == DefaultRequestedWidth && requestedHeight == DefaultRequestedHeight
      ensures !sizeChanged
    {
      frontBuffer, backBuffer := [], [];
      frontWidth, frontHeight := 0, 0;
      backWidth, backHeight := 0, 0;
      newFrame := false;
      inputQueue := new RingBuffer<InputEvent>(InputQueueCapacity);
      requestedWidth, requestedHeight := DefaultRequestedWidth, DefaultRequestedHeight;
      sizeChanged := false;
    }

    // === Frame export (render side -> presentation side) ===

    /**
     * Copies width * height * 4 bytes of rgba into the back buffer and marks
     * a frame pending; a null pointer or a non-positive dimension is a no-op.
     * The copy reads that many bytes, so the caller must supply them.
     */
    method SubmitFrame(rgba: Option<seq<byte>>, width: int, height: int)
      requires Valid()
      requires rgba.Some? && width > 0 && height > 0 ==> |rgba.value| >= width * height * 4
      modifies this
      ensures Valid()
      ensures rgba.None? || width <= 0 || height <= 0 ==> unchanged(this)
      ensures rgba.Some? && width > 0 && height > 0 ==>
        && backBuffer == rgba.value[..width * height * 4]
        && backWidth == width && backHeight == height
        && newFrame
      ensures frontBuffer == old(frontBuffer)
      ensures frontWidth == old(frontWidth) && frontHeight == old(frontHeight)
      ensures requestedWidth == old(requestedWidth) && requestedHeight == old(requestedHeight)
      ensures sizeChanged == old(sizeChanged)
    {
      if rgba.None? || width <= 0 || height <= 0 {
        return;
      }
      var dataSize := width * height * 4;
      backBuffer := rgba.value[..dataSize];
      backWidth := width;
      backHeight := height;
      newFrame := true;
    }

    /** The front pixels, or null when no frame has been swapped in yet. */
    function GetFrameData(): (r: Option<seq<byte>>)
      reads this, inputQueue
      requires Valid()
      ensures r.None? <==> frontBuffer == []
      ensures r.Some? ==> r.value == frontBuffer && |r.value| == GetFrameWidth() * GetFrameHeight() * 4
    {
      if frontBuffer == [] then None else Some(frontBuffer)
    }

    /** The width of the displayed frame; its pixels are exactly width * height * 4 bytes. */
    function GetFrameWidth(): (w: int)
      reads this, inputQueue
      requires Valid()
      ensures w >= 0 && |frontBuffer| == w * frontHeight * 4
    {
      frontWidth
    }

    /** The height of the displayed frame; its pixels are exactly width * height * 4 bytes. */
    function GetFrameHeight(): (h: int)
      reads this, inputQueue
      requires Valid()
      ensures h >= 0 && |frontBuffer| == frontWidth * h * 4
    {
      frontHeight
    }

    /**
     * If a frame is pending, swaps the front and back buffers (the old front
     * pixels become the next back buffer), carries the back dimensions to
     * the front, clears the flag and answers true; otherwise answers false
     * and leaves the displayed frame as it was.
     */
    method HasNewFrame() returns (swapped: bool)
      requires Valid()
      modifies this
      ensures Valid()
      ensures swapped == old(newFrame)
      ensures !swapped ==> unchanged(this)
      ensures swapped ==>
        && frontBuffer == old(backBuffer) && backBuffer == old(frontBuffer)
        && frontWidth == old(backWidth) && frontHeight == old(backHeight)
        && backWidth == old(backWidth) && backHeight == old(backHeight)
        && !newFrame
      ensures requestedWidth == old(requestedWidth) && requestedHeight == old(requestedHeight)
      ensures sizeChanged == old(sizeChanged)
    {
      if !newFrame {
        return false;
      }
      frontBuffer, backBuffer := backBuffer, frontBuffer;
      frontWidth := backWidth;
      frontHeight := backHeight;
      newFrame := false;
      swapped := true;
    }

    // === Input injection (presentation side -> render side) ===

    /** Enqueues the event; when 255 are pending it is silently dropped. */
    method PushInputEvent(event: InputEvent)
      requires Valid()
      modifies inputQueue, inputQueue.buffer
      ensures Valid()
      ensures PendingEvents() == Offered(old(PendingEvents()), event)
    {
      var _ := inputQueue.Push(event);
    }

    /** Dequeues the oldest event; with none pending answers false and leaves `prior`. */
    method PopInputEvent(prior: InputEvent) returns (ok: bool, event: InputEvent)
      requires Valid()
      modifies inputQueue
      ensures Valid()
      ensures ok <==> old(PendingEvents()) != []
      ensures ok ==> event == old(PendingEvents())[0] && PendingEvents() == old(PendingEvents())[1..]
      ensures !ok ==> event == prior && PendingEvents() == old(PendingEvents())
    {
      ok, event := inputQueue.Pop(prior);
    }

    method PushMouseMotion(x: real, y: real)
      requires Valid()
      modifies inputQueue, inputQueue.buffer
      ensures Valid()
      ensures PendingEvents() == Offered(old(PendingEvents()), MouseMotionEvent(x, y))
    {
      PushInputEvent(MouseMotionEvent(x, y));
    }

    method PushMouseButton(x: real, y: real, button: int, pressed: bool)
      requires Valid()
      modifies inputQueue, inputQueue.buffer
      ensures Valid()
      ensures PendingEvents() == Offered(old(PendingEvents()), MouseButtonEvent(x, y, button, pressed))
    {
      PushInputEvent(MouseButtonEvent(x, y, button, pressed));
    }

    method PushScroll(x: real, y: real, scrollX: real, scrollY: real)
      requires Valid()
      modifies inputQueue, inputQueue.buffer
      ensures Valid()
      ensures PendingEvents() == Offered(old(PendingEvents()), ScrollEvent(x, y, scrollX, scrollY))
    {
      PushInputEvent(ScrollEvent(x, y, scrollX, scrollY));
    }

    method PushKey(keycode: int, pressed: bool)
      requires Valid()
      modifies inputQueue, inputQueue.buffer
      ensures Valid()
      ensures PendingEvents() == Offered(old(PendingEvents()), KeyEvent(keycode, pressed))
    {
      PushInputEvent(KeyEvent(keycode, pressed));
    }

    // === Resize handling (presentation side -> render side) ===

    /** Records the latest requested size, replacing any unconsumed one. */
    method SetRequestedSize(width: int, height: int)
      requires Valid()
      modifies this
      ensures Valid()
      ensures requestedWidth == width && requestedHeight == height && sizeChanged
      ensures frontBuffer == old(frontBuffer) && backBuffer == old(backBuffer)
      ensures frontWidth == old(frontWidth) && frontHeight == old(frontHeight)
      ensures backWidth == old(backWidth) && backHeight == old(backHeight)
      ensures newFrame == old(newFrame)
    {
      requestedWidth := width;
      requestedHeight := height;
      sizeChanged := true;
    }

    /**
     * If a request is pending, hands out the requested size, clears the flag
     * and answers true; otherwise answers false and leaves the caller's
     * width and height (`priorWidth`, `priorHeight`) unwritten.
     */
    method GetRequestedSize(priorWidth: int, priorHeight: int) returns (changed: bool, width: int, height: int)
      requires Valid()
      modifies this
      ensures Valid()
      ensures changed == old(sizeChanged)
      ensures changed ==> width == requestedWidth && height == requestedHeight
      ensures !changed ==> width == priorWidth && height == priorHeight
      ensures !sizeChanged
      ensures requestedWidth == old(requestedWidth) && requestedHeight == old(requestedHeight)
      ensures frontBuffer == old(frontBuffer) && backBuffer == old(backBuffer)
      ensures frontWidth == old(frontWidth) && frontHeight == old(frontHeight)
      ensures backWidth == old(backWidth) && backHeight == old(backHeight)
      ensures newFrame == old(newFrame)
    {
      if !sizeChanged {
        return false, priorWidth, priorHeight;
      }
      width := requestedWidth;
      height := requestedHeight;
      sizeChanged := false;
      changed := true;
    }

    /** The stored requested size, read without consuming the request. */
    method GetCurrentSize() returns (width: int, height: int)
      requires Valid()
      ensures width == requestedWidth && height == requestedHeight
    {
      width := requestedWidth;
      height := requestedHeight;
    }
  }

  /**
   * A frame submitted to a new bridge comes out of the next swap with its
   * dimensions and bytes; a second swap with no submit between answers false
   * and the displayed frame stays.
   */
  method SubmitThenSwap(pixels: seq<byte>, width: int, height: int)
    returns (first: bool, data: Option<seq<byte>>, w: int, h: int, second: bool, dataAfter: Option<seq<byte>>)
    requires width > 0 && height > 0 && |pixels| == width * height * 4
    ensures first && data == Some(pixels) && w == width && h == height
    ensures !second && dataAfter == data
  {
    var bridge := new FrameBridge();
    var none := bridge.GetFrameData();
    assert none.None?;
    bridge.SubmitFrame(Some(pixels), width, height);
    assert pixels[..width * height * 4] == pixels;
    first := bridge.HasNewFrame();
    data := bridge.GetFrameData();
    w, h := bridge.GetFrameWidth(), bridge.GetFrameHeight();
    second := bridge.HasNewFrame();
    dataAfter := bridge.GetFrameData();
  }

  /** Two size requests then one take: the later request wins, and a second take finds nothing. */
  method LatestSizeWins(a: int, b: int, c: int, d: int, priorW: int, priorH: int)
    returns (first: bool, w: int, h: int, second: bool, w2: int, h2: int, curW: int, curH: int)
    ensures first && w == c && h == d
    ensures !second && w2 == priorW && h2 == priorH
    ensures curW == c && curH == d
  {
    var bridge := new FrameBridge();
    bridge.SetRequestedSize(a, b);
    bridge.SetRequestedSize(c, d);
    first, w, h := bridge.GetRequestedSize(priorW, priorH);
    second, w2, h2 := bridge.GetRequestedSize(priorW, priorH);
    curW, curH := bridge.GetCurrentSize();
  }

  /**
   * One event of each type pushed through its builder (motion, button,
   * scroll, key) comes out of the queue in push order; then it is empty.
   */
  method EventsInOrder(x: real, y: real, dx: real, dy: real, keycode: int, prior: InputEvent)
    returns (e1: InputEvent, e2: InputEvent, e3: InputEvent, e4: InputEvent, more: bool)
    ensures e1 == MouseMotionEvent(x, y)
    ensures e2 == MouseButtonEvent(x, y, 1, true)
    ensures e3 == ScrollEvent(x, y, dx, dy)
    ensures e4 == KeyEvent(keycode, false)
    ensures !more
  {
    var bridge := new FrameBridge();
    ghost var pending := [MouseMotionEvent(x, y), MouseButtonEvent(x, y, 1, true),
                          ScrollEvent(x, y, dx, dy), KeyEvent(keycode, false)];
    bridge.PushMouseMotion(x, y);
    assert bridge.PendingEvents() == pending[..1];
    bridge.PushMouseButton(x, y, 1, true);
    assert bridge.PendingEvents() == pending[..2];
    bridge.PushScroll(x, y, dx, dy);
    assert bridge.PendingEvents() == pending[..3];
    bridge.PushKey(keycode, false);
    assert bridge.PendingEvents() == pending;
    var ok;
    ok, e1 := bridge.PopInputEvent(prior);
    assert bridge.PendingEvents() == pending[1..];
    ok, e2 := bridge.PopInputEvent(prior);
    assert bridge.PendingEvents() == pending[2..];
    ok, e3 := bridge.PopInputEvent(prior);
    assert bridge.PendingEvents() == pending[3..];
    ok, e4 := bridge.PopInputEvent(prior);
    assert bridge.PendingEvents() == [];
    var e5;
    more, e5 := bridge.PopInputEvent(prior);
  }

  /** The event queue of a bridge accepts 255 events from empty and rejects the 256th. */
  lemma InputQueueHolds255(q: RM.Ring<InputEvent>, events: seq<InputEvent>, extra: InputEvent)
    requires RM.Wf(q) && |q.slots| == InputQueueCapacity && RM.IsEmpty(q)
    requires |events| == 255
    ensures RM.Items(RM.PushAll(q, events)) == events
    ensures !RM.Push(RM.PushAll(q, events), extra).1
  {
    RM.FillFromEmpty(q, events, extra);
  }
}
