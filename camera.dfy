/**
 * The orbit camera over the lab bench: dragging turns it (yaw freely,
 * pitch clamped so the bench never flips), the wheel zooms within limits.
 */
module Camera {
  import opened Numeric

  datatype View = View(pitch: real, yaw: real, zoom: real)

  const PITCH_MIN: real := -10.0
  const PITCH_MAX: real := 85.0
  const ZOOM_MIN: real := 0.4
  const ZOOM_MAX: real := 2.5
  /** Degrees per pixel of drag. */
  const ORBIT_SPEED: real := 0.5
  /** Zoom per unit of wheel movement. */
  const ZOOM_SPEED: real := 0.001

  /** The view the lab opens with and that "Reset View" restores. */
  const DEFAULT_VIEW: View := View(25.0, 0.0, 0.9)

  predicate InRange(v: View) {
    PITCH_MIN <= v.pitch <= PITCH_MAX && ZOOM_MIN <= v.zoom <= ZOOM_MAX
  }

  lemma DefaultInRange()
    ensures InRange(DEFAULT_VIEW)
  {
  }

  /**
   * A drag by (deltaX, deltaY) pixels: yaw follows the horizontal drag
   * without limit, pitch follows the vertical drag and ends in [-10, 85],
   * and the zoom is untouched.
   */
  function Orbit(v: View, deltaX: real, deltaY: real): (r: View)
    ensures PITCH_MIN <= r.pitch <= PITCH_MAX
    ensures r.yaw == v.yaw + deltaX * ORBIT_SPEED && r.zoom == v.zoom
    ensures PITCH_MIN <= v.pitch - deltaY * ORBIT_SPEED <= PITCH_MAX ==> r.pitch == v.pitch - deltaY * ORBIT_SPEED
    ensures InRange(v) ==> InRange(r)
  {
    v.(yaw := v.yaw + deltaX * ORBIT_SPEED,
       pitch := Clamp(v.pitch - deltaY * ORBIT_SPEED, PITCH_MIN, PITCH_MAX))
  }

  /** Dragging further down never tilts the camera further up. */
  lemma OrbitPitchMonotone(v: View, deltaX: real, deltaY: real, deltaY': real)
    requires deltaY <= deltaY'
    ensures Orbit(v, deltaX, deltaY').pitch <= Orbit(v, deltaX, deltaY).pitch
  {
    ClampMonotone(v.pitch - deltaY' * ORBIT_SPEED, v.pitch - deltaY * ORBIT_SPEED, PITCH_MIN, PITCH_MAX);
  }

  /**
   * A wheel event of `deltaY`: the zoom moves against the wheel and ends in
   * [0.4, 2.5]; pitch and yaw are untouched.
   */
  function Zoom(v: View, deltaY: real): (r: View)
    ensures ZOOM_MIN <= r.zoom <= ZOOM_MAX
    ensures r.pitch == v.pitch && r.yaw == v.yaw
    ensures ZOOM_MIN <= v.zoom - deltaY * ZOOM_SPEED <= ZOOM_MAX ==> r.zoom == v.zoom - deltaY * ZOOM_SPEED
    ensures InRange(v) ==> InRange(r)
  {
    v.(zoom := Clamp(v.zoom - deltaY * ZOOM_SPEED, ZOOM_MIN, ZOOM_MAX))
  }

  /** Scrolling further down never zooms in further. */
  lemma ZoomMonotone(v: View, deltaY: real, deltaY': real)
    requires deltaY <= deltaY'
    ensures Zoom(v, deltaY').zoom <= Zoom(v, deltaY).zoom
  {
    ClampMonotone(v.zoom - deltaY' * ZOOM_SPEED, v.zoom - deltaY * ZOOM_SPEED, ZOOM_MIN, ZOOM_MAX);
  }
}
