# Range-bar thumb, modelled in Dafny

This project models the thumb of the range-bar slider. The thumb is the
circular handle that the user presses and drags. It keeps a fixed `y`, a
movable `x`, a pressed flag and a visual radius. On `press` and `release`
the visual radius is animated between two rest radii: the normal one, and
the pressed one, which is 1.5 times larger. The thumb also answers hit
tests against a square touch zone that is at least 24dp in half-size, and
it draws itself as a filled circle. `DummyThumb` is the inert placeholder
with the same interface.

Files:

- `units.dfy` (module `Units`) holds the numeric helpers:
  - Java's 32-bit `int` and the value of a hexadecimal colour literal;
  - Java's `(int)` cast from `float` (truncation toward zero, saturating);
  - the dp-to-pixel conversion, which multiplies by the display density.
- `thumb_model.dfy` (module `ThumbModel`) models the thumb as a value:
  - `ThumbState`, its fields;
  - `Valid`, the invariant that ties them together;
  - each operation as a function from the old state to the new one.
- `thumb.dfy` (module `Thumbs`) holds the class `Thumb`. Its fields are
  updated in place. Each method's postcondition equates the new state with
  the matching `ThumbModel` function applied to the old state.
- `thumb_history.dfy` (module `ThumbHistory`) models any interleaving of
  the bar's commands with the frames of the running animation, and proves
  what holds after every such history.
- `thumb_variants.dfy` (module `ThumbVariants`) models the two variants
  behind one interface: `Real(state)` and `Dummy`, which is `DummyThumb`.

The animation is the field `anim: Option<Animation(from, to)>`. A single
`Option` means at most one animation can exist. `press` and `release`
cancel the current animation and install a new one that starts from the
current visual radius. `Tick(v)` is the frame listener: it writes `v` into
the visual radius and counts one redraw request to the bar. `Finish` is the
last frame: it writes the end value and clears the animation. A frame's
value always lies between the animation's endpoints, because that is what
the host animator delivers. The model states this as the precondition of
`Tick`.

Where the code departs from what its own comments and constants suggest,
the model follows the code:

- The comments at `Thumb.java:35-37` and `135-136` and the constant at
  line 38 suggest a touch zone of at least 24dp that grows with the thumb.
  The code computes `(int) max(24, radiusDp)` dp. The `(int)` cast
  truncates, so with a radius of 24.5dp the zone is 24dp, smaller than the
  24.5dp normal radius (`TargetCanBeSmallerThanRadius`).
- The cast is applied to the raw argument, so the "unset" radius `-1`
  yields a 24dp zone.
- The requested radius is not checked, so a negative radius gives a
  negative visual radius. What the model proves for every radius is that
  the visual radius stays between the normal and the pressed radius.

## Model

| member | source | states |
|---|---|---|
| Units.FromBits | rangebar/src/com/edmodo/rangebar/Thumb.java:45-46 | A hexadecimal int literal such as the default colour `0xff33b5e5` denotes the Java int equal to it modulo 2^32, negative exactly when the top bit is set. |
| Units.FloatToInt | rangebar/src/com/edmodo/rangebar/Thumb.java:137 | The `(int)` cast truncates toward zero: the result lies within 1 of the argument and on its side of 0, and it saturates at the int bounds. |
| ThumbModel.TargetRadiusPx | rangebar/src/com/edmodo/rangebar/Thumb.java:135-141 | The touch zone's half-size is exactly floor(max(24, requested)) dp in pixels when the cast does not saturate; in every case it is at least 24dp and at most max(24, requested) dp. |
| ThumbModel.Create | rangebar/src/com/edmodo/rangebar/Thumb.java:91-145 | Construction: radius -1 means 9dp and colour -1 means the default colour; pressed radius = 1.5 × normal radius; the zone is `TargetRadiusPx` of the raw requested radius, so ≥ 24dp; x starts at the normal radius; y is the given y; the thumb is unpressed, at rest and satisfies the invariant. |
| ThumbModel.HalfWidth | rangebar/src/com/edmodo/rangebar/Thumb.java:149-151 | `getHalfWidth` is the normal rest radius, not the visual or pressed one; in a valid state the pressed radius is 1.5 times it and the visual radius lies between the two. |
| ThumbModel.SetX | rangebar/src/com/edmodo/rangebar/Thumb.java:153-159 | `getX` after `setX(v)` gives `v`; no other field changes; the invariant is kept. |
| ThumbModel.Press | rangebar/src/com/edmodo/rangebar/Thumb.java:165-174 | The flag becomes pressed. Exactly one animation runs afterwards, from the current visual radius (even mid-animation, so a second press restarts it) to the pressed radius, 1.5 × `getHalfWidth()`. The visual radius and every other field are unchanged; the invariant is kept. |
| ThumbModel.Release | rangebar/src/com/edmodo/rangebar/Thumb.java:176-185 | The flag becomes unpressed. Exactly one animation runs afterwards, from the current visual radius to the normal radius. x, y, the zone and the visual radius are unchanged; the invariant is kept. |
| ThumbModel.Tick | rangebar/src/com/edmodo/rangebar/Thumb.java:81-87 | A frame writes the animated value into the visual radius and requests one redraw, and changes nothing else. A value between the animation's endpoints keeps the invariant. |
| ThumbModel.Finish | rangebar/src/com/edmodo/rangebar/Thumb.java:81-87 | The last frame sets the visual radius to the animation's end value and requests one redraw; no animation remains. From a valid state the radius is then the rest radius for the pressed flag. |
| ThumbModel.InTargetZone | rangebar/src/com/edmodo/rangebar/Thumb.java:196-202 | A touch hits iff its Chebyshev distance from (x, y) is at most the zone's half-size: a closed square, boundary included. |
| ThumbModel.CornerOfZoneHits | rangebar/src/com/edmodo/rangebar/Thumb.java:196-202 | The zone is a square, not a disc: the corner point, farther away than the half-size, still hits. |
| ThumbModel.TouchScenario | rangebar/src/com/edmodo/rangebar/Thumb.java:196-202 | A default thumb at y = 100 has a 24dp zone. A touch at its centre or exactly on the zone's edge hits; a touch one pixel beyond the edge misses. |
| ThumbModel.TargetCanBeSmallerThanRadius | rangebar/src/com/edmodo/rangebar/Thumb.java:137-141 | A 24.5dp radius gives a 24dp zone: the truncating cast can make the zone smaller than the normal radius. |
| ThumbModel.Draw | rangebar/src/com/edmodo/rangebar/Thumb.java:210-213 | As written, `draw` issues a circle at (x, y) with the visual radius, always in the pressed colour, whatever the pressed flag. |
| ThumbModel.UnpressedThumbDrawnInPressedColor | rangebar/src/com/edmodo/rangebar/Thumb.java:210-213 | As written, an unpressed thumb with normal colour 1 and pressed colour 2 is drawn in colour 2. |
| ThumbModel.DrawIntended | rangebar/src/com/edmodo/rangebar/Thumb.java:210-213 | Corrected draw: the same circle as `draw`, in the normal colour when unpressed and the pressed colour when pressed. |
| ThumbHistory.RunKeepsGeometry | rangebar/src/com/edmodo/rangebar/Thumb.java:149-151 | After any history of commands and frames, `getHalfWidth()`, y, both rest radii, the zone and the colours are those fixed at construction. |
| ThumbHistory.RunPreservesValid | rangebar/src/com/edmodo/rangebar/Thumb.java:165-185 | After any history the invariant holds: pressed radius = 1.5 × normal radius; the visual radius lies between them; at rest it equals the rest radius for the flag; a running animation heads there. |
| ThumbHistory.RunPressedState | rangebar/src/com/edmodo/rangebar/Thumb.java:161-185 | `isPressed()` after any history is decided by the last `press` or `release`. Without either it is unchanged. |
| ThumbHistory.RunPosition | rangebar/src/com/edmodo/rangebar/Thumb.java:153-159 | `getX()` after any history is the value of the last `setX`, or the old x if there was none. |
| ThumbHistory.RunInvalidations | rangebar/src/com/edmodo/rangebar/Thumb.java:81-87 | The redraw requests after any history are exactly one per animation frame. |
| ThumbHistory.SettledRadius | rangebar/src/com/edmodo/rangebar/Thumb.java:165-185 | Once the animation has finished, the visual radius is 1.5 × `getHalfWidth()` if the last transition was a press, and `getHalfWidth()` if it was a release. |
| ThumbHistory.CommandsKeepRadius | rangebar/src/com/edmodo/rangebar/Thumb.java:81-87 | Only frames write the visual radius: any history of `setX`, `press` and `release` leaves it unchanged. |
| Thumbs.Thumb.constructor | rangebar/src/com/edmodo/rangebar/Thumb.java:91-145 | The fields built step by step equal `Create` of the arguments, and the invariant holds. |
| Thumbs.Thumb.GetHalfWidth | rangebar/src/com/edmodo/rangebar/Thumb.java:149-151 | Returns the normal rest radius fixed at construction, the model's `HalfWidth` of the thumb's state. |
| Thumbs.Thumb.GetX | rangebar/src/com/edmodo/rangebar/Thumb.java:157-159 | Returns the current x. |
| Thumbs.Thumb.IsPressed | rangebar/src/com/edmodo/rangebar/Thumb.java:161-163 | Returns the pressed flag. |
| Thumbs.Thumb.IsInTargetZone | rangebar/src/com/edmodo/rangebar/Thumb.java:196-202 | A touch hits iff it is within the zone's half-size of x and of y, each bound inclusive. |
| Thumbs.Thumb.Draw | rangebar/src/com/edmodo/rangebar/Thumb.java:210-213 | Issues the circle at (x, y) with the visual radius in the pressed colour, as the source does. |
| Thumbs.Thumb.SetX | rangebar/src/com/edmodo/rangebar/Thumb.java:153-155 | The new state is `SetX` of the old one: `GetX()` returns the value set, and nothing else changes. |
| Thumbs.Thumb.Press | rangebar/src/com/edmodo/rangebar/Thumb.java:165-174 | The new state is `Press` of the old one. The prior animation is cancelled and replaced by one from the old visual radius to 1.5 × `GetHalfWidth()`. |
| Thumbs.Thumb.Release | rangebar/src/com/edmodo/rangebar/Thumb.java:176-185 | The new state is `Release` of the old one. The prior animation is replaced by one from the old visual radius to `GetHalfWidth()`. |
| Thumbs.Thumb.Tick | rangebar/src/com/edmodo/rangebar/Thumb.java:81-87 | The frame listener's new state is `Tick` of the old one; the invariant is kept. |
| Thumbs.Thumb.Finish | rangebar/src/com/edmodo/rangebar/Thumb.java:81-87 | The last frame's new state is `Finish` of the old one. The visual radius is then 1.5 × `GetHalfWidth()` when pressed and `GetHalfWidth()` otherwise. |
| ThumbVariants.RealRunAgrees | rangebar/src/com/edmodo/rangebar/DummyThumb.java:14 | Through the shared interface, a real thumb accepts the same histories as the thumb itself and ends in the same state. |
| ThumbVariants.DummyRunStaysDummy | rangebar/src/com/edmodo/rangebar/DummyThumb.java:30-53 | `setX`, `press` and `release` on the placeholder change nothing, whatever the history. |
| ThumbVariants.DummyAcceptsCommands | rangebar/src/com/edmodo/rangebar/DummyThumb.java:30-53 | The placeholder accepts every sequence of `setX`, `press` and `release`. |
| ThumbVariants.DummyIsInert | rangebar/src/com/edmodo/rangebar/DummyThumb.java:20-62 | Whatever was called before, the placeholder is never pressed and never hit. `getX`, `getHalfWidth` and `getHalfHeight` are 0, so there is no set/get round trip. `draw` issues nothing. |

## Left out

- The host animator's clock, its 150 ms duration and its accelerate/decelerate easing curve are not modelled. A frame is any value between the animation's endpoints, delivered by `Tick`, and `Finish` delivers the end value. The frame the animator may deliver as it starts is such a `Tick` with the start value.
- `bar.invalidate()` is only counted (`invalidations`). The owning `RangeBar` and its redraw are not part of this model.
- Canvas and Paint rendering are out. `draw` yields the command `Circle(x, y, radius, colour)`. The anti-alias setting of the paints is not recorded.
- The dp-to-pixel conversion takes the display density as a parameter, which the host guarantees to be positive.
- Java `float` rounding, NaN and infinities are out. Values are `real`. The `(int)` cast is modelled exactly for reals.
- `DummyThumb`'s constructor is out. It calls a seven-argument `Thumb` constructor (with a `Context` and two image ids) that `Thumb` does not have, so it cannot be modelled against the shown `Thumb`.
- `getHalfHeight` overrides nothing in `Thumb`, so it is modelled only for the placeholder (`HalfHeight` requires `Dummy`).
- The choice, made by the owning `RangeBar`, of which thumb takes a drag is not part of this model.
- Thumbs.Thumb.Draw keeps the source's behaviour and always uses the pressed colour. The corrected colour choice is `ThumbModel.DrawIntended`.

## Findings

| source | as written | input that shows it | evidently intended | confidence | as-written member | corrected member |
|---|---|---|---|---|---|---|
| rangebar/src/com/edmodo/rangebar/Thumb.java:210-213 | `draw` always paints with the pressed paint, so the normal paint set up at lines 123-125 is never used | an unpressed thumb built with normal colour 1 and pressed colour 2 is drawn in colour 2 | the colour follows the pressed flag: normal when unpressed, pressed when pressed | medium (with the default colours both are the same blue, so it is invisible there); not executed | ThumbModel.UnpressedThumbDrawnInPressedColor | ThumbModel.DrawIntended |
