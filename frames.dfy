/**
 * Frames as the pipeline sees them: only their size and the order of their
 * colour channels. `cv2.resize` changes the size and keeps the order (and
 * raises on an empty source or a zero-sized target); `cv2.cvtColor` with
 * `COLOR_RGB2BGR` reverses the channel order (and raises on an empty source).
 */
module Frames {
  import opened Wrappers

  /** OpenCV delivers BGR; the virtual camera consumes RGB. */
  datatype ChannelOrder = BGR | RGB

  datatype Frame = Frame(width: nat, height: nat, order: ChannelOrder)

  /** `frame.size == 0`. */
  predicate IsEmpty(f: Frame) {
    f.width == 0 || f.height == 0
  }

  function Swapped(o: ChannelOrder): (r: ChannelOrder)
    ensures r != o
  {
    match o
    case BGR => RGB
    case RGB => BGR
  }

  /** `cv2.resize(f, (w, h))`; `None` where OpenCV raises. */
  function Resize(f: Frame, w: nat, h: nat): (r: Option<Frame>)
    ensures r.Some? <==> !IsEmpty(f) && w > 0 && h > 0
    ensures r.Some? ==> r.value == Frame(w, h, f.order)
  {
    if IsEmpty(f) || w == 0 || h == 0 then None else Some(Frame(w, h, f.order))
  }

  /** `cv2.cvtColor(f, cv2.COLOR_RGB2BGR)`; `None` where OpenCV raises. */
  function ConvertColor(f: Frame): (r: Option<Frame>)
    ensures r.Some? <==> !IsEmpty(f)
    ensures r.Some? ==> r.value == Frame(f.width, f.height, Swapped(f.order))
  {
    if IsEmpty(f) then None else Some(f.(order := Swapped(f.order)))
  }

  /** The placeholder of the recorder service: `np.zeros((h, w, 3))`, a black BGR frame of the configured size. */
  function BlackFrame(w: nat, h: nat): (f: Frame)
    ensures f.width == w && f.height == h && f.order == BGR
    ensures IsEmpty(f) <==> w == 0 || h == 0
  {
    Frame(w, h, BGR)
  }

  /**
   * `on_frame` of the recorder service: an empty frame is replaced by the
   * placeholder, then the frame is resized to the configured resolution and
   * its channels reversed before it is sent. `None` is the OpenCV error that
   * ends the receive loop.
   */
  function OnFrame(frame: Frame, black: Frame, w: nat, h: nat): (r: Option<Frame>)
    ensures var src := if IsEmpty(frame) then black else frame;
      && (r.Some? <==> !IsEmpty(src) && w > 0 && h > 0)
      && (r.Some? ==> r.value == Frame(w, h, Swapped(src.order)))
  {
    var src := if IsEmpty(frame) then black else frame;
    match Resize(src, w, h)
    case None => None
    case Some(resized) => ConvertColor(resized)
  }

  /** With a non-empty placeholder of a positive configured size, every frame reaches the sink, in that size and as RGB. */
  lemma OnFrameAlwaysSends(frame: Frame, w: nat, h: nat)
    requires w > 0 && h > 0
    requires frame.order == BGR
    ensures OnFrame(frame, BlackFrame(w, h), w, h) == Some(Frame(w, h, RGB))
  {
  }

  /** `VCAM_RESOLUTION` of the desktop variant. */
  const VcamWidth: nat := 1280
  const VcamHeight: nat := 720

  /** `vcam_error_frame`: a solid red frame of the virtual camera's size, laid out as BGR. */
  function ErrorFrame(): (f: Frame)
    ensures !IsEmpty(f) && f.width == VcamWidth && f.height == VcamHeight && f.order == BGR
  {
    Frame(VcamWidth, VcamHeight, BGR)
  }

  /**
   * One pass of `send_virtual_frame` in the desktop variant: the latest
   * output frame, or the error frame when there is none; channels reversed;
   * resized only when its size is not the virtual camera's. So the virtual
   * camera always receives its own size, with the channel order reversed
   * from the source. `None` is the OpenCV error raised for an empty frame.
   */
  function SinkFrame(output: Option<Frame>): (r: Option<Frame>)
    ensures var src := if output.Some? then output.value else ErrorFrame();
      && (r.Some? <==> !IsEmpty(src))
      && (r.Some? ==> r.value == Frame(VcamWidth, VcamHeight, Swapped(src.order)))
    ensures output.None? ==> r == Some(Frame(VcamWidth, VcamHeight, RGB))
  {
    var frame := if output.Some? then output.value else ErrorFrame();
    match ConvertColor(frame)
    case None => None
    case Some(converted) =>
      if converted.width != VcamWidth || converted.height != VcamHeight
      then Resize(converted, VcamWidth, VcamHeight)
      else Some(converted)
  }
}
