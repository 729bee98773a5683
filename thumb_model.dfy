/** The range-bar thumb as a value: its fields, the invariant that ties them
    together, and each of its operations as a function from the state before
    to the state after. The class `Thumbs.Thumb` updates its fields in place
    and is specified by these functions. */
module ThumbModel {
  import opened Units

  datatype Option<T> = None | Some(value: T)

  /** The radius animation in flight: it moves the visual radius from `from`
      towards `to`. The easing curve and the clock that drives it belong to the
      host's animation facility and are not modelled. */
  datatype Animation = Animation(from: real, to: real)

  /** What `draw` asks of the canvas: a filled circle. */
  datatype DrawCommand = Circle(cx: real, cy: real, radius: real, color: Int32)

  /** The fields of a thumb. `radius` is the current visual radius,
      `halfWidthNormal` and `halfWidthPressed` the two rest radii,
      `targetRadius` the half-size of the square touch zone, and
      `invalidations` counts the redraws the thumb has asked of its bar. */
  datatype ThumbState = ThumbState(
    y: real,
    x: real,
    pressed: bool,
    radius: real,
    halfWidthNormal: real,
    halfWidthPressed: real,
    targetRadius: real,
    colorNormal: Int32,
    colorPressed: Int32,
    anim: Option<Animation>,
    invalidations: nat)

  // The touch zone's smallest half-size, after the 48dp rhythm.
  const MinimumTargetRadiusDp: real := 24.0
  const DefaultThumbRadiusDp: real := 9.0
  // holo_blue_light, as the Java int literal 0xff33b5e5 (a negative int).
  const DefaultThumbColorNormal: Int32 := FromBits(0xff33b5e5)
  const DefaultThumbColorPressed: Int32 := FromBits(0xff33b5e5)
  const PressedScale: real := 1.5
  // The value a caller passes for a radius or a colour it leaves unset.
  const UnsetRadius: real := -1.0
  const UnsetColor: Int32 := -1

  /** The radius a thumb settles at once its animation is over. */
  function RestRadius(s: ThumbState): real
  {
    if s.pressed then s.halfWidthPressed else s.halfWidthNormal
  }

  /** The visual radius never leaves the segment between the two rest radii. */
  predicate InBand(s: ThumbState, v: real)
  {
    Between(v, s.halfWidthNormal, s.halfWidthPressed)
  }

  /** The thumb's invariant: the pressed radius is 1.5 times the normal one,
      the visual radius stays between them, at rest it equals the radius the
      pressed flag calls for, and a running animation heads for that radius. */
  predicate Valid(s: ThumbState)
  {
    && s.halfWidthPressed == PressedScale * s.halfWidthNormal
    && InBand(s, s.radius)
    && match s.anim
       case None => s.radius == RestRadius(s)
       case Some(a) => a.to == RestRadius(s) && InBand(s, a.from)
  }

  /** `t` has the configuration `s` was built with: position `y`, both rest
      radii, the touch zone and both colours. */
  predicate SameGeometry(s: ThumbState, t: ThumbState)
  {
    && t.y == s.y
    && t.halfWidthNormal == s.halfWidthNormal
    && t.halfWidthPressed == s.halfWidthPressed
    && t.targetRadius == s.targetRadius
    && t.colorNormal == s.colorNormal
    && t.colorPressed == s.colorPressed
  }

  function ResolveColor(c: Int32, default: Int32): Int32
  {
    if c == UnsetColor then default else c
  }

  /** The touch zone's half-size in pixels: the larger of 24dp and the
      requested radius, cut to a whole number of dp by Java's `(int)` cast,
      then converted. The requested radius is used as given, so the unset
      value -1 yields 24dp. */
  function TargetRadiusPx(radiusDp: real, density: real): (t: real)
    requires 0.0 < density
    ensures Dip(MinimumTargetRadiusDp, density) <= t
    ensures t <= Dip(Max(MinimumTargetRadiusDp, radiusDp), density)
    ensures radiusDp < IntMax as real + 1.0 ==> Dip(Max(MinimumTargetRadiusDp, radiusDp) - 1.0, density) < t
    ensures radiusDp < IntMax as real + 1.0 ==> t == Dip(Max(MinimumTargetRadiusDp, radiusDp).Floor as real, density)
  {
    var m := Max(MinimumTargetRadiusDp, radiusDp);
    var k := FloatToInt(m);
    DipMonotone(MinimumTargetRadiusDp, k as real, density);
    DipMonotone(k as real, m, density);
    DipStrictlyMonotone(m - 1.0, k as real, density);
    Dip(k as real, density)
  }

  /** A freshly constructed thumb: sentinels resolved to their defaults, the
      rest radii derived from the requested radius, the thumb at rest and
      unpressed, and its x at its own normal half-width. */
  function Create(y: real, colorNormal: Int32, colorPressed: Int32, radiusDp: real, density: real): (s: ThumbState)
    requires 0.0 < density
    ensures Valid(s)
    ensures !s.pressed && s.anim == None && s.invalidations == 0
    ensures s.y == y && s.x == s.halfWidthNormal && s.radius == s.halfWidthNormal
    ensures s.halfWidthNormal == Dip(if radiusDp == UnsetRadius then DefaultThumbRadiusDp else radiusDp, density)
    ensures s.halfWidthPressed == 1.5 * s.halfWidthNormal
    ensures Dip(MinimumTargetRadiusDp, density) <= s.targetRadius
    ensures s.targetRadius == TargetRadiusPx(radiusDp, density)
    ensures s.colorNormal == (if colorNormal == UnsetColor then DefaultThumbColorNormal else colorNormal)
    ensures s.colorPressed == (if colorPressed == UnsetColor then DefaultThumbColorPressed else colorPressed)
  {
    var r := Dip(if radiusDp == UnsetRadius then DefaultThumbRadiusDp else radiusDp, density);
    ThumbState(
      y := y,
      x := r,
      pressed := false,
      radius := r,
      halfWidthNormal := r,
      halfWidthPressed := r * PressedScale,
      targetRadius := TargetRadiusPx(radiusDp, density),
      colorNormal := ResolveColor(colorNormal, DefaultThumbColorNormal),
      colorPressed := ResolveColor(colorPressed, DefaultThumbColorPressed),
      anim := None,
      invalidations := 0)
  }

  /** `getHalfWidth`: the normal rest radius, whatever the visual radius. */
  function HalfWidth(s: ThumbState): (w: real)
    ensures w == s.halfWidthNormal
    ensures Valid(s) ==> s.halfWidthPressed == 1.5 * w && Min(w, 1.5 * w) <= s.radius <= Max(w, 1.5 * w)
  {
    s.halfWidthNormal
  }

  /** `setX` followed by `getX` gives back the value set, and nothing but x
      changes. */
  function SetX(s: ThumbState, v: real): (r: ThumbState)
    ensures r.x == v
    ensures r.(x := s.x) == s
    ensures Valid(s) ==> Valid(r)
  {
    s.(x := v)
  }

  /** Cancel whatever animation runs and start one from the current visual
      radius to `to`. Nothing is animated yet: the visual radius stays. */
  function Restart(s: ThumbState, to: real): ThumbState
  {
    s.(anim := Some(Animation(s.radius, to)))
  }

  /** `press`: the thumb is pressed and exactly one animation runs, from the
      visual radius as it stands to 1.5 times the normal radius. A second
      press restarts it from wherever the radius has got to. */
  function Press(s: ThumbState): (r: ThumbState)
    ensures r.pressed
    ensures r.anim == Some(Animation(s.radius, s.halfWidthPressed))
    ensures r.(pressed := s.pressed, anim := s.anim) == s
    ensures Valid(s) ==> Valid(r) && r.anim.value.to == 1.5 * HalfWidth(s)
  {
    Restart(s.(pressed := true), s.halfWidthPressed)
  }

  /** `release`: the thumb is released and exactly one animation runs, from
      the visual radius as it stands back to the normal radius. */
  function Release(s: ThumbState): (r: ThumbState)
    ensures !r.pressed
    ensures r.anim == Some(Animation(s.radius, s.halfWidthNormal))
    ensures r.(pressed := s.pressed, anim := s.anim) == s
    ensures Valid(s) ==> Valid(r) && r.anim.value.to == HalfWidth(s)
  {
    Restart(s.(pressed := false), s.halfWidthNormal)
  }

  /** One frame of the running animation: the animator hands over the
      interpolated value `v`, which becomes the visual radius, and the thumb
      asks its bar for a redraw. As long as `v` lies between the animation's
      endpoints, as the animator's interpolation guarantees, the invariant
      holds. */
  function Tick(s: ThumbState, v: real): (r: ThumbState)
    requires s.anim.Some?
    ensures r.radius == v && r.invalidations == s.invalidations + 1
    ensures r.(radius := s.radius, invalidations := s.invalidations) == s
    ensures Valid(s) && Between(v, s.anim.value.from, s.anim.value.to) ==> Valid(r)
  {
    s.(radius := v, invalidations := s.invalidations + 1)
  }

  /** The animation's last frame: the visual radius reaches the end value,
      a redraw is asked for, and no animation runs any more. */
  function Finish(s: ThumbState): (r: ThumbState)
    requires s.anim.Some?
    ensures r.anim == None && r.radius == s.anim.value.to
    ensures r.invalidations == s.invalidations + 1
    ensures r.(radius := s.radius, anim := s.anim, invalidations := s.invalidations) == s
    ensures Valid(s) ==> Valid(r) && r.radius == RestRadius(s)
  {
    s.(radius := s.anim.value.to, anim := None, invalidations := s.invalidations + 1)
  }

  /** Chebyshev distance between two points given by their offsets. */
  function Chebyshev(dx: real, dy: real): real
  {
    Max(Abs(dx), Abs(dy))
  }

  /** `isInTargetZone`: a touch hits the thumb when it lies in the closed
      square of half-size `targetRadius` around (x, y), that is, within
      Chebyshev distance `targetRadius`; the boundary counts as inside. */
  function InTargetZone(s: ThumbState, px: real, py: real): (hit: bool)
    ensures hit <==> Chebyshev(px - s.x, py - s.y) <= s.targetRadius
  {
    Abs(px - s.x) <= s.targetRadius && Abs(py - s.y) <= s.targetRadius
  }

  /** The zone is a square, not the disc the thumb looks like: the corner at
      distance sqrt(2) * targetRadius still hits. */
  lemma CornerOfZoneHits(s: ThumbState)
    requires 0.0 < s.targetRadius
    ensures var dx, dy := s.targetRadius, s.targetRadius;
            InTargetZone(s, s.x + dx, s.y + dy) && dx * dx + dy * dy > s.targetRadius * s.targetRadius
  {
  }

  /** A thumb at y = 100 with the default 9dp radius has a 24dp touch zone:
      a touch at its centre hits, one pixel beyond the zone's edge misses. */
  lemma TouchScenario(density: real)
    requires 0.0 < density
    ensures var s := Create(100.0, UnsetColor, UnsetColor, DefaultThumbRadiusDp, density);
            && s.targetRadius == 24.0 * density
            && InTargetZone(s, s.x, 100.0)
            && InTargetZone(s, s.x + s.targetRadius, 100.0)
            && !InTargetZone(s, s.x + s.targetRadius + 1.0, 100.0)
  {
  }

  /** `draw` as written: a circle at (x, y) with the visual radius, always in
      the pressed colour, whether the thumb is pressed or not. */
  function Draw(s: ThumbState): (c: DrawCommand)
    ensures c.cx == s.x && c.cy == s.y && c.radius == s.radius
    ensures c.color == s.colorPressed
  {
    Circle(s.x, s.y, s.radius, s.colorPressed)
  }

  /** An unpressed thumb with two distinct colours is drawn in the pressed
      one: the normal colour is configured but never used. */
  lemma UnpressedThumbDrawnInPressedColor()
    ensures var s := Create(0.0, 1, 2, DefaultThumbRadiusDp, 1.0);
            !s.pressed && s.colorNormal == 1 && Draw(s).color == 2
  {
  }

  /** `draw` as evidently intended: the same circle, in the colour that
      matches the pressed flag. */
  function DrawIntended(s: ThumbState): (c: DrawCommand)
    ensures c.(color := Draw(s).color) == Draw(s)
    ensures !s.pressed ==> c.color == s.colorNormal
    ensures s.pressed ==> c == Draw(s)
  {
    Circle(s.x, s.y, s.radius, if s.pressed then s.colorPressed else s.colorNormal)
  }

  /** The `(int)` cast cuts a fractional radius down, so the touch zone can
      be smaller than the thumb's own normal radius. */
  lemma TargetCanBeSmallerThanRadius()
    ensures var s := Create(0.0, -1, -1, 24.5, 1.0);
            s.targetRadius == 24.0 && s.halfWidthNormal == 24.5
  {
  }
}
