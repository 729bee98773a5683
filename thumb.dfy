/** The thumb as the object the bar holds: fields updated in place by
    `setX`, `press`, `release` and the animation's frame listener. Every
    method is specified by the matching function of `ThumbModel` on the
    state the fields make up, so the lemmas of `ThumbModel` and
    `ThumbHistory` apply to it. */
module Thumbs {
  import opened Units
  import opened ThumbModel

  class Thumb {
    const y: real
    var x: real
    var pressed: bool
    // The visual radius, written only by animation frames.
    var radius: real
    const halfWidthNormal: real
    const halfWidthPressed: real
    const targetRadius: real
    const colorNormal: Int32
    const colorPressed: Int32
    // The one animation in flight, if any; starting another replaces it.
    var anim: Option<Animation>
    // Redraw requests sent to the owning bar.
    var invalidations: nat

    /** The fields as a value. */
    function State(): ThumbState
      reads this
    {
      ThumbState(y, x, pressed, radius, halfWidthNormal, halfWidthPressed, targetRadius,
                 colorNormal, colorPressed, anim, invalidations)
    }

    ghost predicate Valid()
      reads this
    {
      ThumbModel.Valid(State())
    }

    /** Resolves the unset sentinels, derives both rest radii from the
        requested radius and the touch zone from the larger of it and 24dp;
        `density` is the host display's. */
    constructor (y: real, colorNormal: Int32, colorPressed: Int32, radiusDp: real, density: real)
      requires 0.0 < density
      ensures State() == Create(y, colorNormal, colorPressed, radiusDp, density)
      ensures Valid()
    {
      var r: real;
      if radiusDp == UnsetRadius {
        r := Dip(DefaultThumbRadiusDp, density);
      } else {
        r := Dip(radiusDp, density);
      }
      radius := r;
      if colorNormal == UnsetColor {
        this.colorNormal := DefaultThumbColorNormal;
      } else {
        this.colorNormal := colorNormal;
      }
      if colorPressed == UnsetColor {
        this.colorPressed := DefaultThumbColorPressed;
      } else {
        this.colorPressed := colorPressed;
      }
      halfWidthNormal := r;
      halfWidthPressed := r * PressedScale;
      targetRadius := TargetRadiusPx(radiusDp, density);
      x := r;
      this.y := y;
      pressed := false;
      anim := None;
      invalidations := 0;
    }

    function GetHalfWidth(): (w: real)
      reads this
      ensures w == halfWidthNormal && w == HalfWidth(State())
    {
      halfWidthNormal
    }

    function GetX(): (v: real)
      reads this
      ensures v == x && v == State().x
    {
      x
    }

    function IsPressed(): (p: bool)
      reads this
      ensures p == pressed && p == State().pressed
    {
      pressed
    }

    function IsInTargetZone(px: real, py: real): (hit: bool)
      reads this
      ensures hit <==> Abs(px - x) <= targetRadius && Abs(py - y) <= targetRadius
    {
      InTargetZone(State(), px, py)
    }

    function Draw(): (c: DrawCommand)
      reads this
      ensures c == Circle(x, y, radius, colorPressed)
    {
      ThumbModel.Draw(State())
    }

    method SetX(v: real)
      requires Valid()
      modifies this
      ensures Valid()
      ensures State() == ThumbModel.SetX(old(State()), v)
      ensures GetX() == v
    {
      x := v;
    }

    method Press()
      requires Valid()
      modifies this
      ensures Valid()
      ensures State() == ThumbModel.Press(old(State()))
      ensures IsPressed() && radius == old(radius)
      ensures anim == Some(Animation(old(radius), 1.5 * GetHalfWidth()))
    {
      pressed := true;
      if anim.Some? {
        anim := None;  // cancel: the old animation delivers no more frames
      }
      anim := Some(Animation(radius, halfWidthPressed));
    }

    method Release()
      requires Valid()
      modifies this
      ensures Valid()
      ensures State() == ThumbModel.Release(old(State()))
      ensures !IsPressed() && radius == old(radius)
      ensures anim == Some(Animation(old(radius), GetHalfWidth()))
    {
      pressed := false;
      if anim.Some? {
        anim := None;  // cancel: the old animation delivers no more frames
      }
      anim := Some(Animation(radius, halfWidthNormal));
    }

    /** The frame listener: the animator's interpolated value becomes the
        visual radius and the bar is asked to redraw. */
    method Tick(v: real)
      requires Valid() && anim.Some? && Between(v, anim.value.from, anim.value.to)
      modifies this
      ensures Valid()
      ensures State() == ThumbModel.Tick(old(State()), v)
    {
      radius := v;
      invalidations := invalidations + 1;
    }

    /** The animation's last frame, delivering its end value; the animation
        is then over. */
    method Finish()
      requires Valid() && anim.Some?
      modifies this
      ensures Valid()
      ensures State() == ThumbModel.Finish(old(State()))
      ensures radius == (if IsPressed() then 1.5 * GetHalfWidth() else GetHalfWidth())
    {
      radius := anim.value.to;
      invalidations := invalidations + 1;
      anim := None;
    }
  }
}
