/** The bar's thumbs come in two variants behind one interface: a real
    thumb, and `DummyThumb`, the inert placeholder whose every query answers
    0 or false and whose every command does nothing. */
module ThumbVariants {
  import opened Units
  import M = ThumbModel
  import H = ThumbHistory

  datatype AnyThumb = Real(state: M.ThumbState) | Dummy

  function HalfWidth(t: AnyThumb): real
  {
    match t
    case Real(s) => M.HalfWidth(s)
    case Dummy => 0.0
  }

  /** `getHalfHeight` exists on the placeholder only. */
  function HalfHeight(t: AnyThumb): real
    requires t.Dummy?
  {
    0.0
  }

  function GetX(t: AnyThumb): real
  {
    match t
    case Real(s) => s.x
    case Dummy => 0.0
  }

  function IsPressed(t: AnyThumb): bool
  {
    match t
    case Real(s) => s.pressed
    case Dummy => false
  }

  function InTargetZone(t: AnyThumb, px: real, py: real): bool
  {
    match t
    case Real(s) => M.InTargetZone(s, px, py)
    case Dummy => false
  }

  /** The canvas command `draw` issues, if any. */
  function Draw(t: AnyThumb): M.Option<M.DrawCommand>
  {
    match t
    case Real(s) => M.Some(M.Draw(s))
    case Dummy => M.None
  }

  /** The placeholder never starts an animation, so it never gets a frame. */
  predicate Enabled(t: AnyThumb, e: H.Event)
  {
    match t
    case Real(s) => H.Enabled(s, e)
    case Dummy => e.SetX? || e.Press? || e.Release?
  }

  function Apply(t: AnyThumb, e: H.Event): AnyThumb
    requires Enabled(t, e)
  {
    match t
    case Real(s) => Real(H.Step(s, e))
    case Dummy => Dummy
  }

  predicate Admissible(t: AnyThumb, es: seq<H.Event>)
    decreases |es|
  {
    es == [] || (Enabled(t, es[0]) && Admissible(Apply(t, es[0]), es[1..]))
  }

  function Run(t: AnyThumb, es: seq<H.Event>): AnyThumb
    requires Admissible(t, es)
    decreases |es|
  {
    if es == [] then t else Run(Apply(t, es[0]), es[1..])
  }

  /** Through the interface a real thumb behaves exactly as the thumb
      itself. */
  lemma {:induction false} RealRunAgrees(s: M.ThumbState, es: seq<H.Event>)
    ensures Admissible(Real(s), es) <==> H.Admissible(s, es)
    ensures Admissible(Real(s), es) ==> Run(Real(s), es) == Real(H.Run(s, es))
    decreases |es|
  {
    if es != [] && H.Enabled(s, es[0]) {
      RealRunAgrees(H.Step(s, es[0]), es[1..]);
    }
  }

  /** The placeholder's commands change nothing. */
  lemma {:induction false} DummyRunStaysDummy(es: seq<H.Event>)
    requires Admissible(Dummy, es)
    ensures Run(Dummy, es) == Dummy
    decreases |es|
  {
    if es != [] {
      DummyRunStaysDummy(es[1..]);
    }
  }

  /** Whatever was called before, the placeholder is never pressed and never
      hit, reports x and both half-sizes as 0 (so `setX` then `getX` does
      not give the value back), and draws nothing. */
  lemma DummyIsInert(es: seq<H.Event>, px: real, py: real)
    requires Admissible(Dummy, es)
    ensures var t := Run(Dummy, es);
            && !IsPressed(t)
            && !InTargetZone(t, px, py)
            && GetX(t) == 0.0
            && HalfWidth(t) == 0.0
            && t.Dummy? && HalfHeight(t) == 0.0
            && Draw(t) == M.None
  {
    DummyRunStaysDummy(es);
  }

  /** The placeholder accepts every sequence of commands. */
  lemma {:induction false} DummyAcceptsCommands(es: seq<H.Event>)
    requires forall i :: 0 <= i < |es| ==> !es[i].Tick? && !es[i].Finish?
    ensures Admissible(Dummy, es)
    decreases |es|
  {
    if es != [] {
      DummyAcceptsCommands(es[1..]);
    }
  }
}
