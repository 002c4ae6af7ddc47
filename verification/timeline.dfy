/**
 * The timeline component: pointer/time mapping, the drag state machine of
 * the playhead and the in/out handles, and double-click marking.
 */
module Timeline {
  import opened Wrappers
  import Js

  /** Minimum separation the handles keep between the in and out points, in seconds. */
  const Gap: real := 0.1

  type PositiveReal = r: real | r > 0.0 witness 1.0

  /** The bounding rectangle of the track element, as `getBoundingClientRect` reports it. */
  datatype Rect = Rect(left: real, width: PositiveReal)

  function Clamp01(x: real): (c: real)
    ensures 0.0 <= c <= 1.0
    ensures 0.0 <= x <= 1.0 ==> c == x
  {
    Js.Max(0.0, Js.Min(1.0, x))
  }

  /** Where `clientX` lies along the track, as a fraction clamped to [0, 1]. */
  function PointerFraction(clientX: real, rect: Rect): (c: real)
    ensures 0.0 <= c <= 1.0
  {
    Clamp01((clientX - rect.left) / rect.width)
  }

  /** `getTimeFromPosition`: 0 without a track or duration, otherwise the clamped pointer fraction of the duration. */
  function TimeFromPosition(clientX: real, track: Option<Rect>, duration: real): (t: real)
    ensures track.None? || duration == 0.0 ==> t == 0.0
    ensures duration >= 0.0 ==> 0.0 <= t <= duration
    ensures track.Some? && duration != 0.0 ==> t == PointerFraction(clientX, track.value) * duration
  {
    match track
    case None => 0.0
    case Some(rect) =>
      if duration == 0.0 then 0.0
      else
        Scale(PointerFraction(clientX, rect), duration)
  }

  /** A fraction `c` of `d`, which lies between 0 and `d` for a non-negative `d`. */
  function Scale(c: real, d: real): (r: real)
    requires 0.0 <= c <= 1.0
    ensures d >= 0.0 ==> 0.0 <= r <= d
  {
    ScaleWithin(c, d);
    c * d
  }

  lemma ScaleWithin(c: real, d: real)
    requires 0.0 <= c <= 1.0
    ensures d >= 0.0 ==> 0.0 <= c * d <= d
  {
    if d >= 0.0 {
      assert d - c * d == (1.0 - c) * d;
    }
  }

  /** `getPositionFromTime`: the percentage of the duration a time lies at. */
  function PositionFromTime(time: real, duration: real): (pct: real)
    ensures duration == 0.0 ==> pct == 0.0
    ensures duration != 0.0 ==> pct * duration == time * 100.0
  {
    if duration == 0.0 then 0.0 else time / duration * 100.0
  }

  /** Mapping a pointer to a time and back gives the clamped pointer fraction, as a percentage. */
  lemma PositionOfPointer(clientX: real, rect: Rect, duration: real)
    requires duration != 0.0
    ensures PositionFromTime(TimeFromPosition(clientX, Some(rect), duration), duration)
            == PointerFraction(clientX, rect) * 100.0
  {
    ScaleThenPosition(PointerFraction(clientX, rect), duration);
  }

  /** The percentage of a fraction of the duration is that fraction, times 100. */
  lemma ScaleThenPosition(c: real, d: real)
    requires d != 0.0
    ensures PositionFromTime(c * d, d) == c * 100.0
  {
    assert c * d / d == c;
  }

  /** For a positive duration the percentage preserves the order of times. */
  lemma PositionMonotone(a: real, b: real, duration: real)
    requires duration > 0.0
    ensures PositionFromTime(a, duration) < PositionFromTime(b, duration) <==> a < b
  {
    var pa, pb := PositionFromTime(a, duration), PositionFromTime(b, duration);
    assert pa * duration == a * 100.0 && pb * duration == b * 100.0;
    assert (pb - pa) * duration == (b - a) * 100.0;
    SignOfProduct(pb - pa, duration);
  }

  lemma SignOfProduct(x: real, d: real)
    requires d > 0.0
    ensures x > 0.0 <==> x * d > 0.0
  {
    if x <= 0.0 {
      assert x * d == -((-x) * d);
    }
  }

  datatype DragKind = Playhead | InHandle | OutHandle

  /** `isDragging`, `dragType`, `dragStartX`, `dragStartValue`. */
  datatype Drag = Drag(dragging: bool, kind: Option<DragKind>, startX: real, startValue: real)

  const Idle: Drag := Drag(false, None, 0.0, 0.0)

  /** The props the component renders with; `track` is the rectangle of the element positions are measured on. */
  datatype Props = Props(
    currentTime: real,
    duration: real,
    inPoint: real,
    outPoint: real,
    hasVideo: bool,
    track: Option<Rect>)

  /** What the component asks its parent to do. */
  datatype Commit = Seek(time: real) | SetIn(time: real) | SetOut(time: real)

  datatype Down = Down(drag: Drag, commit: Option<Commit>)

  /** `handleMouseDown`: ignored without a video; otherwise records the drag and, on the playhead, seeks. */
  function MouseDown(d: Drag, p: Props, kind: DragKind, clientX: real): (r: Down)
    ensures !p.hasVideo ==> r == Down(d, None)
    ensures p.hasVideo ==> r.drag.dragging && r.drag.kind == Some(kind) && r.drag.startX == clientX
    ensures p.hasVideo && kind == Playhead ==>
      r.drag.startValue == p.currentTime && r.commit == Some(Seek(TimeFromPosition(clientX, p.track, p.duration)))
    ensures p.hasVideo && kind == InHandle ==> r.drag.startValue == p.inPoint && r.commit.None?
    ensures p.hasVideo && kind == OutHandle ==> r.drag.startValue == p.outPoint && r.commit.None?
  {
    if !p.hasVideo then Down(d, None)
    else
      match kind
      case Playhead => Down(Drag(true, Some(kind), clientX, p.currentTime), Some(Seek(TimeFromPosition(clientX, p.track, p.duration))))
      case InHandle => Down(Drag(true, Some(kind), clientX, p.inPoint), None)
      case OutHandle => Down(Drag(true, Some(kind), clientX, p.outPoint), None)
  }

  /** The value a drag has reached: the start value plus the pointer travel scaled to the duration. */
  function DragTarget(d: Drag, clientX: real, trackWidth: PositiveReal, duration: real): real {
    d.startValue + (clientX - d.startX) / trackWidth * duration
  }

  function ClampPlayhead(v: real, duration: real): (t: real)
    ensures duration >= 0.0 ==> 0.0 <= t <= duration
    ensures 0.0 <= v <= duration ==> t == v
  {
    Js.Max(0.0, Js.Min(duration, v))
  }

  function ClampIn(v: real, outPoint: real): (t: real)
    ensures t >= 0.0
    ensures outPoint >= Gap ==> t <= outPoint - Gap
    ensures 0.0 <= v <= outPoint - Gap ==> t == v
  {
    Js.Max(0.0, Js.Min(outPoint - Gap, v))
  }

  function ClampOut(v: real, inPoint: real, duration: real): (t: real)
    ensures t >= inPoint + Gap
    ensures inPoint + Gap <= duration ==> t <= duration
    ensures inPoint + Gap <= v <= duration ==> t == v
  {
    Js.Max(inPoint + Gap, Js.Min(duration, v))
  }

  /** `handleMouseMove` while dragging: the clamped target is committed; with no drag, nothing is. */
  function MouseMove(d: Drag, p: Props, clientX: real, trackWidth: PositiveReal): (c: Option<Commit>)
    ensures !d.dragging || d.kind.None? ==> c.None?
    ensures d.dragging && d.kind == Some(Playhead) ==>
      c == Some(Seek(ClampPlayhead(DragTarget(d, clientX, trackWidth, p.duration), p.duration)))
    ensures d.dragging && d.kind == Some(InHandle) ==>
      c == Some(SetIn(ClampIn(DragTarget(d, clientX, trackWidth, p.duration), p.outPoint)))
    ensures d.dragging && d.kind == Some(OutHandle) ==>
      c == Some(SetOut(ClampOut(DragTarget(d, clientX, trackWidth, p.duration), p.inPoint, p.duration)))
  {
    if !d.dragging || d.kind.None? then None
    else
      var v := DragTarget(d, clientX, trackWidth, p.duration);
      match d.kind.value
      case Playhead => Some(Seek(ClampPlayhead(v, p.duration)))
      case InHandle => Some(SetIn(ClampIn(v, p.outPoint)))
      case OutHandle => Some(SetOut(ClampOut(v, p.inPoint, p.duration)))
  }

  /** Whatever a drag commits stays inside the bounds the handles promise. */
  lemma DragCommitsInBounds(d: Drag, p: Props, clientX: real, trackWidth: PositiveReal)
    requires MouseMove(d, p, clientX, trackWidth).Some?
    ensures var c := MouseMove(d, p, clientX, trackWidth).value;
      && (c.Seek? && p.duration >= 0.0 ==> 0.0 <= c.time <= p.duration)
      && (c.SetIn? ==> c.time >= 0.0 && (p.outPoint >= Gap ==> c.time <= p.outPoint - Gap))
      && (c.SetOut? ==> c.time >= p.inPoint + Gap && (p.inPoint + Gap <= p.duration ==> c.time <= p.duration))
  {
  }

  /** A drag that has not moved commits its start value when that value is already in bounds. */
  lemma StillDragCommitsStart(d: Drag, p: Props, trackWidth: PositiveReal)
    requires d.dragging && d.kind.Some?
    ensures var c := MouseMove(d, p, d.startX, trackWidth).value;
      && (d.kind.value == Playhead && 0.0 <= d.startValue <= p.duration ==> c == Seek(d.startValue))
      && (d.kind.value == InHandle && 0.0 <= d.startValue <= p.outPoint - Gap ==> c == SetIn(d.startValue))
      && (d.kind.value == OutHandle && p.inPoint + Gap <= d.startValue <= p.duration ==> c == SetOut(d.startValue))
  {
    assert DragTarget(d, d.startX, trackWidth, p.duration) == d.startValue;
  }

  /** `handleMouseUp`: back to idle with the start values zeroed. */
  function MouseUp(d: Drag): (r: Drag)
    ensures !r.dragging && r.kind.None? && r.startX == 0.0 && r.startValue == 0.0
  {
    Idle
  }

  /**
   * The timeline as the controls panel mounts it, without `hasVideo`: a
   * mouse-down never starts a drag, so moves from idle commit nothing.
   */
  lemma UnwiredTimelineIsInert(p: Props, kind: DragKind, downX: real, moveX: real, trackWidth: PositiveReal)
    requires !p.hasVideo
    ensures MouseDown(Idle, p, kind, downX) == Down(Idle, None)
    ensures MouseMove(MouseDown(Idle, p, kind, downX).drag, p, moveX, trackWidth).None?
  {
  }

  /** `handleDoubleClick`: marks the in point left of the playhead, otherwise the out point, unclamped. */
  function DoubleClick(p: Props, clientX: real): (c: Commit)
    ensures c.time == TimeFromPosition(clientX, p.track, p.duration)
    ensures c.SetIn? || c.SetOut?
  {
    var time := TimeFromPosition(clientX, p.track, p.duration);
    if PositionFromTime(time, p.duration) < PositionFromTime(p.currentTime, p.duration) then SetIn(time) else SetOut(time)
  }

  /** With a positive duration, a double-click sets the in point exactly when it lands before the playhead. */
  lemma DoubleClickSide(p: Props, clientX: real)
    requires p.duration > 0.0
    ensures DoubleClick(p, clientX).SetIn? <==> TimeFromPosition(clientX, p.track, p.duration) < p.currentTime
  {
    PositionMonotone(TimeFromPosition(clientX, p.track, p.duration), p.currentTime, p.duration);
  }
}
