/**
 * The image widget the comic back end draws pages with
 * (Read.activity/imageview.py): a surface holding the decoded image, a zoom
 * factor kept within [ZOOM_MIN, ZOOM_MAX] by the zoom operations, and the
 * two points that place the image on the canvas: the anchor (a point of the
 * image, in surface coordinates) drawn at the target (a point of the canvas).
 * Rotating the surface a quarter turn swaps its width and height and moves
 * the anchor so that it names the same point of the image.
 *
 * Integer `/` is Python 2's floor division; the float factors are exact reals.
 */
module ImageView {
  import opened Wrappers
  import opened Builtins

  const ZOOM_STEP: real := 0.05
  const ZOOM_MAX: real := 10.0
  const ZOOM_MIN: real := 0.05

  /**
   * A cairo surface holding the page image: its size, and how many clockwise
   * quarter turns (0..3) its content is turned from the decoded image.
   */
  datatype Surface = Surface(width: int, height: int, turns: int)

  datatype Point = Point(x: real, y: real)

  /** A surface with the anchor placed on it. */
  datatype Placement = Placement(surface: Surface, anchor: Point)

  /** `_rotate_surface`: a new surface with width and height swapped, the content turned by `direction` (1 clockwise, -1 anticlockwise). */
  function RotateSurface(s: Surface, direction: int): (r: Surface)
    requires direction == 1 || direction == -1
    ensures r.width == s.height && r.height == s.width
    ensures r.turns == (s.turns + direction) % 4
  {
    Surface(s.height, s.width, (s.turns + direction) % 4)
  }

  /** `_flip_surface`: a new surface of the same size, the content turned half way. */
  function FlipSurface(s: Surface): (r: Surface)
    ensures r.width == s.width && r.height == s.height
    ensures r.turns == (s.turns + 2) % 4
  {
    Surface(s.width, s.height, (s.turns + 2) % 4)
  }

  /** A clockwise quarter turn: the anchor moves to the new width (the old height) less y, then x. */
  function Clockwise(p: Placement): Placement {
    Placement(RotateSurface(p.surface, 1), Point(p.surface.height as real - p.anchor.y, p.anchor.x))
  }

  /** An anticlockwise quarter turn: the anchor moves to y, then the new height (the old width) less x. */
  function Anticlockwise(p: Placement): Placement {
    Placement(RotateSurface(p.surface, -1), Point(p.anchor.y, p.surface.width as real - p.anchor.x))
  }

  /** A quarter turn one way and one the other give back the surface and the anchor. */
  lemma RotationRoundTrip(p: Placement)
    requires 0 <= p.surface.turns < 4
    ensures Anticlockwise(Clockwise(p)) == p
    ensures Clockwise(Anticlockwise(p)) == p
  {
  }

  /**
   * `n` quarter turns one after another (clockwise for n > 0, anticlockwise
   * for n < 0), each moving the anchor with the size of the surface it turns.
   */
  function Turns(p: Placement, n: int): Placement
    decreases if n >= 0 then n else -n
  {
    if n == 0 then p
    else if n > 0 then Clockwise(Turns(p, n - 1))
    else Anticlockwise(Turns(p, n + 1))
  }

  /** One to four clockwise quarter turns of a `w` x `h` surface with the anchor at (x, y), written out. */
  lemma ClockwiseTurns(w: int, h: int, t: int, x: real, y: real)
    requires 0 <= t < 4
    ensures Turns(Placement(Surface(w, h, t), Point(x, y)), 1)
      == Placement(Surface(h, w, (t + 1) % 4), Point(h as real - y, x))
    ensures Turns(Placement(Surface(w, h, t), Point(x, y)), 2)
      == Placement(Surface(w, h, (t + 2) % 4), Point(w as real - x, h as real - y))
    ensures Turns(Placement(Surface(w, h, t), Point(x, y)), 3)
      == Placement(Surface(h, w, (t + 3) % 4), Point(y, w as real - x))
    ensures Turns(Placement(Surface(w, h, t), Point(x, y)), 4) == Placement(Surface(w, h, t), Point(x, y))
  {
    var p := Placement(Surface(w, h, t), Point(x, y));
    assert Turns(p, 1) == Clockwise(p);
    assert Turns(p, 2) == Clockwise(Turns(p, 1));
    assert Turns(p, 3) == Clockwise(Turns(p, 2));
    assert Turns(p, 4) == Clockwise(Turns(p, 3));
  }

  /** One to four anticlockwise quarter turns, written out: -n turns end where 4 - n clockwise ones do. */
  lemma AnticlockwiseTurns(w: int, h: int, t: int, x: real, y: real)
    requires 0 <= t < 4
    ensures Turns(Placement(Surface(w, h, t), Point(x, y)), -1)
      == Placement(Surface(h, w, (t + 3) % 4), Point(y, w as real - x))
    ensures Turns(Placement(Surface(w, h, t), Point(x, y)), -2)
      == Placement(Surface(w, h, (t + 2) % 4), Point(w as real - x, h as real - y))
    ensures Turns(Placement(Surface(w, h, t), Point(x, y)), -3)
      == Placement(Surface(h, w, (t + 1) % 4), Point(h as real - y, x))
    ensures Turns(Placement(Surface(w, h, t), Point(x, y)), -4) == Placement(Surface(w, h, t), Point(x, y))
  {
    var p := Placement(Surface(w, h, t), Point(x, y));
    assert Turns(p, -1) == Anticlockwise(p);
    assert Turns(p, -2) == Anticlockwise(Turns(p, -1));
    assert Turns(p, -3) == Anticlockwise(Turns(p, -2));
    assert Turns(p, -4) == Anticlockwise(Turns(p, -3));
  }

  /** Four quarter turns either way leave surface and anchor as they were. */
  lemma FourTurns(p: Placement)
    requires 0 <= p.surface.turns < 4
    ensures Turns(p, 4) == p && Turns(p, -4) == p
  {
    ClockwiseTurns(p.surface.width, p.surface.height, p.surface.turns, p.anchor.x, p.anchor.y);
    AnticlockwiseTurns(p.surface.width, p.surface.height, p.surface.turns, p.anchor.x, p.anchor.y);
  }

  /** The surface `set_rotate(r)` makes: one turn for 1, -3, -1 and 3, a flip for every other value but 0. */
  function WrittenSurface(s: Surface, r: int): Surface {
    if r == 0 then s
    else if r == 1 || r == -3 then RotateSurface(s, 1)
    else if r == -1 || r == 3 then RotateSurface(s, -1)
    else FlipSurface(s)
  }

  /** For the counter values -3..3 the new surface is that of `r` quarter turns. */
  lemma WrittenSurfaceTurns(p: Placement, r: int)
    requires -3 <= r <= 3 && 0 <= p.surface.turns < 4
    ensures WrittenSurface(p.surface, r) == Turns(p, r).surface
  {
    ClockwiseTurns(p.surface.width, p.surface.height, p.surface.turns, p.anchor.x, p.anchor.y);
    AnticlockwiseTurns(p.surface.width, p.surface.height, p.surface.turns, p.anchor.x, p.anchor.y);
  }

  /** The surface `set_rotate(r)` makes is turned `r` quarter turns further, modulo 4. */
  lemma WrittenSurfaceOrientation(s: Surface, r: int)
    requires -3 <= r <= 3 && r != 0
    ensures WrittenSurface(s, r).turns == (s.turns + r) % 4
  {
    if r == -3 {
      assert (s.turns + 1) % 4 == (s.turns - 3) % 4;
    } else if r == 3 {
      assert (s.turns - 1) % 4 == (s.turns + 3) % 4;
    } else if r == 2 || r == -2 {
      assert (s.turns + 2) % 4 == (s.turns - 2) % 4;
    }
  }

  /** `n` clockwise steps of `set_rotate`'s first loop, every one with the final width `w`. */
  function FixedWidthSteps(w: real, a: Point, n: nat): Point {
    if n == 0 then a
    else
      var b := FixedWidthSteps(w, a, n - 1);
      Point(w - b.y, b.x)
  }

  /** `n` anticlockwise steps of `set_rotate`'s second loop, every one with the final height `h`. */
  function FixedHeightSteps(h: real, a: Point, n: nat): Point {
    if n == 0 then a
    else
      var b := FixedHeightSteps(h, a, n - 1);
      Point(b.y, h - b.x)
  }

  /** One to three steps of either loop, written out. */
  lemma FixedSteps(w: real, h: real, a: Point)
    ensures FixedWidthSteps(w, a, 1) == Point(w - a.y, a.x)
    ensures FixedWidthSteps(w, a, 2) == Point(w - a.x, w - a.y)
    ensures FixedWidthSteps(w, a, 3) == Point(a.y, w - a.x)
    ensures FixedHeightSteps(h, a, 1) == Point(a.y, h - a.x)
    ensures FixedHeightSteps(h, a, 2) == Point(h - a.x, h - a.y)
    ensures FixedHeightSteps(h, a, 3) == Point(h - a.y, a.x)
  {
    assert FixedWidthSteps(w, a, 2) == Point(w - FixedWidthSteps(w, a, 1).y, FixedWidthSteps(w, a, 1).x);
    assert FixedHeightSteps(h, a, 2) == Point(FixedHeightSteps(h, a, 1).y, h - FixedHeightSteps(h, a, 1).x);
  }

  /** The anchor `set_rotate(r)` computes from the new surface `t`. */
  function WrittenAnchor(t: Surface, a: Point, r: int): Point {
    if r > 0 then FixedWidthSteps(t.width as real, a, r)
    else if r < 0 then FixedHeightSteps(t.height as real, a, -r)
    else a
  }

  /** On one quarter turn, or on a square surface, `set_rotate` places the anchor as the turns do. */
  lemma WrittenAnchorAgrees(p: Placement, r: int)
    requires -3 <= r <= 3 && 0 <= p.surface.turns < 4
    requires r == 1 || r == -1 || r == 0 || p.surface.width == p.surface.height
    ensures WrittenAnchor(WrittenSurface(p.surface, r), p.anchor, r) == Turns(p, r).anchor
  {
    var written := WrittenSurface(p.surface, r);
    FixedSteps(written.width as real, written.height as real, p.anchor);
    ClockwiseTurns(p.surface.width, p.surface.height, p.surface.turns, p.anchor.x, p.anchor.y);
    AnticlockwiseTurns(p.surface.width, p.surface.height, p.surface.turns, p.anchor.x, p.anchor.y);
  }

  /**
   * `set_rotate(2)` on a 100 x 200 surface with the anchor at (10, 20): the
   * loops turn the anchor twice against the final width 100 and give (90, 80);
   * two quarter turns of the image move that point to (90, 180).
   */
  lemma SetRotateMisplacesAnchor()
    ensures WrittenAnchor(WrittenSurface(Surface(100, 200, 0), 2), Point(10.0, 20.0), 2) == Point(90.0, 80.0)
    ensures Turns(Placement(Surface(100, 200, 0), Point(10.0, 20.0)), 2).anchor == Point(90.0, 180.0)
  {
    ClockwiseTurns(100, 200, 0, 10.0, 20.0);
    FixedSteps(100.0, 200.0, Point(10.0, 20.0));
  }

  /** The zoom is within the bounds the zoom operations keep. */
  predicate InZoomRange(z: real) {
    ZOOM_MIN <= z <= ZOOM_MAX
  }

  /** The zoom `finish_zoomtouch` applies: the pinch scale times the zoom, clamped into range. */
  function ClampZoom(z: real): (r: real)
    ensures InZoomRange(r)
    ensures InZoomRange(z) ==> r == z
    ensures z < ZOOM_MIN ==> r == ZOOM_MIN
    ensures z > ZOOM_MAX ==> r == ZOOM_MAX
  {
    if z < ZOOM_MIN then ZOOM_MIN else if z > ZOOM_MAX then ZOOM_MAX else z
  }

  /** The middle of a surface, in whole pixels. */
  function Centre(s: Surface): Point {
    Point(FloorDiv(s.width, 2) as real, FloorDiv(s.height, 2) as real)
  }

  class ImageViewer {
    /** The encoded image `set_data` was given. */
    var data: Option<string>
    var dataChanged: bool
    var surface: Option<Surface>
    var zoom: Option<real>
    var target: Option<Point>
    var anchor: Option<Point>
    var inZoomtouch: bool
    var zoomtouchScale: real
    /** The widget's allocation. */
    const allocWidth: int
    const allocHeight: int

    /** `__init__`: nothing loaded, no zoom, no points; the pinch scale 1. */
    constructor (width: int, height: int)
      ensures allocWidth == width && allocHeight == height
      ensures data == None && !dataChanged && surface == None && zoom == None
      ensures target == None && anchor == None && !inZoomtouch && zoomtouchScale == 1.0
    {
      allocWidth := width;
      allocHeight := height;
      data := None;
      dataChanged := false;
      surface := None;
      zoom := None;
      target := None;
      anchor := None;
      inZoomtouch := false;
      zoomtouchScale := 1.0;
    }

    /** `set_data`: the new image waits for the next draw. */
    method SetData(d: string)
      modifies this`data, this`dataChanged
      ensures data == Some(d) && dataChanged
    {
      data := Some(d);
      dataChanged := true;
    }

    /**
     * The first part of the draw callback: with no surface yet, or new data,
     * the data (when there is any) is decoded into a fresh `width` x `height`
     * surface and 'setup-new-surface' emitted. `stop` says the callback
     * returns here: a surface was wanted and there is no data.
     */
    method DecodeSurface(width: int, height: int) returns (emitted: bool, stop: bool)
      modifies this`surface, this`dataChanged
      ensures stop <==> (old(surface).None? || old(dataChanged)) && data.None?
      ensures emitted <==> (old(surface).None? || old(dataChanged)) && data.Some?
      ensures emitted ==> surface == Some(Surface(width, height, 0)) && !dataChanged
      ensures !emitted ==> surface == old(surface) && dataChanged == old(dataChanged)
    {
      emitted, stop := false, false;
      if surface.None? || dataChanged {
        if data.None? {
          return false, true;
        }
        surface := Some(Surface(width, height, 0));
        dataChanged := false;
        emitted := true;
      }
    }

    /**
     * The rest of the draw callback, after 'setup-new-surface': a missing
     * zoom becomes the fit-to-width zoom (which centres both points), and a
     * missing target or anchor the centre of canvas or surface.
     */
    method DrawDefaults()
      requires surface.Some? && surface.value.width != 0
      modifies this`zoom, this`target, this`anchor
      ensures zoom.Some? && target.Some? && anchor.Some?
      ensures old(zoom).None? ==> zoom == Some(allocWidth as real / surface.value.width as real)
      ensures old(zoom).None? ==> target == Some(CanvasCentre()) && anchor == Some(Centre(surface.value))
      ensures old(target).None? ==> target == Some(CanvasCentre())
      ensures old(anchor).None? ==> anchor == Some(Centre(surface.value))
      ensures old(zoom).Some? ==> zoom == old(zoom)
      ensures old(zoom).Some? && old(target).Some? ==> target == old(target)
      ensures old(zoom).Some? && old(anchor).Some? ==> anchor == old(anchor)
    {
      if zoom.None? {
        ZoomToWidth();
      }
      if target.None? {
        CenterTargetPoint();
      }
      if anchor.None? {
        CenterAnchorPoint();
      }
    }

    /** The middle of the canvas, in whole pixels. */
    function CanvasCentre(): Point {
      Point(FloorDiv(allocWidth, 2) as real, FloorDiv(allocHeight, 2) as real)
    }

    /** `_center_target_point`: the middle of the canvas. */
    method CenterTargetPoint()
      modifies this`target
      ensures target == Some(CanvasCentre())
    {
      target := Some(CanvasCentre());
    }

    /** `_center_anchor_point`: the middle of the surface. */
    method CenterAnchorPoint()
      requires surface.Some?
      modifies this`anchor
      ensures anchor == Some(Centre(surface.value))
    {
      anchor := Some(Centre(surface.value));
    }

    /** The scaled image fits the canvas both ways. */
    predicate Small()
      reads this`surface, this`zoom
      requires surface.Some? && zoom.Some?
    {
      allocWidth as real >= surface.value.width as real * zoom.value
      && allocHeight as real >= surface.value.height as real * zoom.value
    }

    /**
     * `_center_if_small`: an image that fits is centred; otherwise the points
     * stay. Without a surface reading its width raises AttributeError.
     */
    method CenterIfSmall() returns (raised: bool)
      requires zoom.Some?
      modifies this`target, this`anchor
      ensures raised <==> surface.None?
      ensures surface.Some? && Small() ==> target == Some(CanvasCentre())
      ensures surface.Some? && Small() ==> anchor == Some(Centre(surface.value))
      ensures !(surface.Some? && Small()) ==> target == old(target) && anchor == old(anchor)
    {
      if surface.None? {
        return true;
      }
      raised := false;
      var scaledWidth := surface.value.width as real * zoom.value;
      var scaledHeight := surface.value.height as real * zoom.value;
      if allocWidth as real >= scaledWidth && allocHeight as real >= scaledHeight {
        CenterTargetPoint();
        CenterAnchorPoint();
      }
    }

    /** `set_zoom`: a value outside [ZOOM_MIN, ZOOM_MAX] is ignored. */
    method SetZoom(z: real)
      modifies this`zoom
      ensures InZoomRange(z) ==> zoom == Some(z)
      ensures !InZoomRange(z) ==> zoom == old(zoom)
    {
      if z < ZOOM_MIN || z > ZOOM_MAX {
        return;
      }
      zoom := Some(z);
    }

    /** `get_zoom`. */
    function GetZoom(): Option<real>
      reads this`zoom
    {
      zoom
    }

    /** `can_zoom_in`: one more step stays below ZOOM_MAX. */
    predicate CanZoomIn()
      reads this`zoom
      requires zoom.Some?
    {
      zoom.value + ZOOM_STEP < ZOOM_MAX
    }

    /** `can_zoom_out`: one step less stays above ZOOM_MIN. */
    predicate CanZoomOut()
      reads this`zoom
      requires zoom.Some?
    {
      zoom.value - ZOOM_STEP > ZOOM_MIN
    }

    /** `zoom_in`: one step larger when allowed; the zoom then stays below ZOOM_MAX. */
    method ZoomIn()
      requires zoom.Some?
      modifies this`zoom
      ensures old(CanZoomIn()) ==> zoom == Some(old(zoom.value) + ZOOM_STEP) && zoom.value < ZOOM_MAX
      ensures !old(CanZoomIn()) ==> zoom == old(zoom)
      ensures old(InZoomRange(zoom.value)) ==> InZoomRange(zoom.value)
    {
      if !CanZoomIn() {
        return;
      }
      zoom := Some(zoom.value + ZOOM_STEP);
    }

    /**
     * `zoom_out`: smaller by ZOOM_MIN (which equals the step) when allowed,
     * the zoom then staying above ZOOM_MIN, and a fitting image centred;
     * without a surface the centring raises after the zoom has changed.
     */
    method ZoomOut() returns (raised: bool)
      requires zoom.Some?
      modifies this`zoom, this`target, this`anchor
      ensures raised <==> old(CanZoomOut()) && surface.None?
      ensures old(CanZoomOut()) ==> zoom == Some(old(zoom.value) - ZOOM_MIN) && zoom.value > ZOOM_MIN
      ensures !old(CanZoomOut()) ==> zoom == old(zoom) && target == old(target) && anchor == old(anchor)
      ensures old(InZoomRange(zoom.value)) ==> InZoomRange(zoom.value)
      ensures old(CanZoomOut()) && surface.Some? && Small() ==>
        target == Some(CanvasCentre()) && anchor == Some(Centre(surface.value))
      ensures old(CanZoomOut()) && !(surface.Some? && Small()) ==> target == old(target) && anchor == old(anchor)
    {
      if !CanZoomOut() {
        return false;
      }
      zoom := Some(zoom.value - ZOOM_MIN);
      raised := CenterIfSmall();
    }

    /**
     * `zoom_original`: zoom 1, a fitting image centred; without a surface the
     * centring raises after the zoom has changed.
     */
    method ZoomOriginal() returns (raised: bool)
      modifies this`zoom, this`target, this`anchor
      ensures raised <==> surface.None?
      ensures zoom == Some(1.0) && InZoomRange(zoom.value)
      ensures surface.Some? && Small() ==> target == Some(CanvasCentre()) && anchor == Some(Centre(surface.value))
      ensures !(surface.Some? && Small()) ==> target == old(target) && anchor == old(anchor)
    {
      zoom := Some(1.0);
      raised := CenterIfSmall();
    }

    /** `zoom_to_width`: the zoom that makes the image as wide as the canvas, both points centred. */
    method ZoomToWidth()
      requires surface.Some? && surface.value.width != 0
      modifies this`zoom, this`target, this`anchor
      ensures zoom == Some(allocWidth as real / surface.value.width as real)
      ensures zoom.value * surface.value.width as real == allocWidth as real
      ensures target == Some(CanvasCentre())
      ensures anchor == Some(Centre(surface.value))
    {
      zoom := Some(allocWidth as real / surface.value.width as real);
      CenterTargetPoint();
      CenterAnchorPoint();
    }

    /** `zoom_to_fit`: the larger zoom at which the image still fits both ways, both points centred. */
    method ZoomToFit()
      requires surface.Some? && surface.value.width > 0 && surface.value.height > 0
      modifies this`zoom, this`target, this`anchor
      ensures zoom.Some?
      ensures zoom.value * surface.value.width as real <= allocWidth as real
      ensures zoom.value * surface.value.height as real <= allocHeight as real
      ensures zoom.value * surface.value.width as real == allocWidth as real
        || zoom.value * surface.value.height as real == allocHeight as real
      ensures target == Some(CanvasCentre())
      ensures anchor == Some(Centre(surface.value))
    {
      var byWidth := allocWidth as real / surface.value.width as real;
      var byHeight := allocHeight as real / surface.value.height as real;
      zoom := Some(if byWidth <= byHeight then byWidth else byHeight);
      CenterTargetPoint();
      CenterAnchorPoint();
    }

    /** `update_zoomtouch`: the pinch scale and the target follow the fingers. */
    method UpdateZoomtouch(centerX: real, centerY: real, allocX: real, allocY: real, scale: real)
      modifies this`zoomtouchScale, this`target
      ensures zoomtouchScale == scale && target == Some(Point(centerX - allocX, centerY - allocY))
    {
      zoomtouchScale := scale;
      target := Some(Point(centerX - allocX, centerY - allocY));
    }

    /**
     * `finish_zoomtouch`: the pinch scale is applied to the zoom, clamped into
     * [ZOOM_MIN, ZOOM_MAX], the scale reset to 1, and a fitting image
     * centred; without a surface the centring raises after all that.
     */
    method FinishZoomtouch() returns (raised: bool)
      requires zoom.Some?
      modifies this`inZoomtouch, this`zoom, this`zoomtouchScale, this`target, this`anchor
      ensures raised <==> surface.None?
      ensures !inZoomtouch && zoomtouchScale == 1.0
      ensures zoom == Some(ClampZoom(old(zoom.value) * old(zoomtouchScale)))
      ensures InZoomRange(zoom.value)
      ensures surface.Some? && Small() ==> target == Some(CanvasCentre()) && anchor == Some(Centre(surface.value))
      ensures !(surface.Some? && Small()) ==> target == old(target) && anchor == old(anchor)
    {
      inZoomtouch := false;
      var z := zoom.value * zoomtouchScale;
      assert z == old(zoom.value) * old(zoomtouchScale);
      zoomtouchScale := 1.0;
      if z < ZOOM_MIN {
        z := ZOOM_MIN;
      } else if z > ZOOM_MAX {
        z := ZOOM_MAX;
      }
      zoom := Some(z);
      raised := CenterIfSmall();
    }

    /**
     * `rotate_anticlockwise`: the surface turned, the anchor kept on the same
     * point of the image. Without a surface it raises before changing
     * anything; without an anchor it raises after turning the surface.
     */
    method RotateAnticlockwise() returns (raised: bool)
      modifies this`surface, this`anchor
      ensures raised <==> old(surface).None? || old(anchor).None?
      ensures old(surface).None? ==> surface == old(surface) && anchor == old(anchor)
      ensures old(surface).Some? ==> surface == Some(RotateSurface(old(surface.value), -1))
      ensures !raised ==> (anchor.Some?
        && Placement(surface.value, anchor.value) == Anticlockwise(Placement(old(surface.value), old(anchor.value))))
      ensures raised ==> anchor == old(anchor)
    {
      if surface.None? {
        return true;
      }
      surface := Some(RotateSurface(surface.value, -1));
      if anchor.None? {
        return true;
      }
      anchor := Some(Point(anchor.value.y, surface.value.height as real - anchor.value.x));
      return false;
    }

    /**
     * `rotate_clockwise`: the surface turned, the anchor kept on the same
     * point of the image. Without a surface it raises before changing
     * anything; without an anchor it raises after turning the surface.
     */
    method RotateClockwise() returns (raised: bool)
      modifies this`surface, this`anchor
      ensures raised <==> old(surface).None? || old(anchor).None?
      ensures old(surface).None? ==> surface == old(surface) && anchor == old(anchor)
      ensures old(surface).Some? ==> surface == Some(RotateSurface(old(surface.value), 1))
      ensures !raised ==> (anchor.Some?
        && Placement(surface.value, anchor.value) == Clockwise(Placement(old(surface.value), old(anchor.value))))
      ensures raised ==> anchor == old(anchor)
    {
      if surface.None? {
        return true;
      }
      surface := Some(RotateSurface(surface.value, 1));
      if anchor.None? {
        return true;
      }
      anchor := Some(Point(surface.value.width as real - anchor.value.y, anchor.value.x));
      return false;
    }

    /** The surface a non-zero `set_rotate` makes, then fails on a missing anchor. */
    method TurnSurface(r: int) returns (raised: bool)
      requires r != 0
      modifies this`surface
      ensures raised <==> old(surface).None?
      ensures raised ==> surface == old(surface)
      ensures !raised ==> surface == Some(WrittenSurface(old(surface.value), r))
    {
      if surface.None? {
        return true;
      } else if r == 1 || r == -3 {
        surface := Some(RotateSurface(surface.value, 1));
      } else if r == -1 || r == 3 {
        surface := Some(RotateSurface(surface.value, -1));
      } else {
        surface := Some(FlipSurface(surface.value));
      }
      return false;
    }

    /**
     * `set_rotate(r)` as written: the surface is turned once (or flipped),
     * then the anchor is stepped |r| times, every step with the width (or
     * height) of the final surface. Without a surface, or an anchor, it raises.
     */
    method SetRotate(r: int) returns (raised: bool)
      modifies this`surface, this`anchor
      ensures raised <==> r != 0 && (old(surface).None? || old(anchor).None?)
      ensures r == 0 || old(surface).None? ==> surface == old(surface)
      ensures r != 0 && old(surface).Some? ==> surface == Some(WrittenSurface(old(surface.value), r))
      ensures raised || r == 0 ==> anchor == old(anchor)
      ensures r != 0 && !raised ==> anchor == Some(WrittenAnchor(surface.value, old(anchor.value), r))
    {
      if r == 0 {
        return false;
      }
      raised := TurnSurface(r);
      if raised || anchor.None? {
        return true;
      }
      ghost var a0 := anchor.value;
      var s := surface.value;
      if r > 0 {
        var i := 0;
        while i < r
          invariant 0 <= i <= r && surface == Some(s) && anchor.Some?
          invariant anchor.value == FixedWidthSteps(s.width as real, a0, i)
        {
          anchor := Some(Point(s.width as real - anchor.value.y, anchor.value.x));
          i := i + 1;
        }
      }
      if r < 0 {
        var i := 0;
        while i < -r
          invariant 0 <= i <= -r && surface == Some(s) && anchor.Some?
          invariant anchor.value == FixedHeightSteps(s.height as real, a0, i)
        {
          anchor := Some(Point(anchor.value.y, s.height as real - anchor.value.x));
          i := i + 1;
        }
      }
    }

    /**
     * `set_rotate(r)` corrected: the same new surface, the anchor stepped
     * through |r| quarter turns as `rotate_clockwise` and
     * `rotate_anticlockwise` step it, each with the size of the surface that
     * turn starts from, so that it stays on the same point of the image.
     */
    method SetRotateCorrected(r: int) returns (raised: bool)
      modifies this`surface, this`anchor
      ensures raised <==> r != 0 && (old(surface).None? || old(anchor).None?)
      ensures r == 0 || old(surface).None? ==> surface == old(surface)
      ensures r != 0 && old(surface).Some? ==> surface == Some(WrittenSurface(old(surface.value), r))
      ensures raised || r == 0 ==> anchor == old(anchor)
      ensures r != 0 && !raised ==> anchor == Some(Turns(Placement(old(surface.value), old(anchor.value)), r).anchor)
      ensures !raised && r != 0 && -3 <= r <= 3 && 0 <= old(surface.value.turns) < 4 ==>
        Placement(surface.value, anchor.value) == Turns(Placement(old(surface.value), old(anchor.value)), r)
    {
      if r == 0 {
        return false;
      }
      if surface.None? || anchor.None? {
        raised := TurnSurface(r);
        return true;
      }
      var p0 := Placement(surface.value, anchor.value);
      var p := p0;
      var i := 0;
      if r > 0 {
        while i < r
          invariant 0 <= i <= r && p == Turns(p0, i)
        {
          p := Clockwise(p);
          i := i + 1;
        }
      } else {
        while i > r
          invariant r <= i <= 0 && p == Turns(p0, i)
        {
          p := Anticlockwise(p);
          i := i - 1;
        }
      }
      surface := Some(WrittenSurface(p0.surface, r));
      anchor := Some(p.anchor);
      if -3 <= r <= 3 && 0 <= p0.surface.turns < 4 {
        WrittenSurfaceTurns(p0, r);
      }
      return false;
    }
  }
}
