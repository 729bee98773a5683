/** Histories of calls on one thumb: the owning bar's commands (`setX`,
    `press`, `release`) interleaved with the frames its running animation
    delivers, all on the one UI thread. The lemmas say what holds after any
    such history. */
module ThumbHistory {
  import opened Units
  import M = ThumbModel

  datatype Event =
    | SetX(x: real)
    | Press
    | Release
    | Tick(value: real)   // one frame of the running animation
    | Finish              // its last frame

  /** Commands can come at any time; frames only while an animation runs,
      and each frame's value lies between that animation's endpoints. */
  predicate Enabled(s: M.ThumbState, e: Event)
  {
    match e
    case Tick(v) => s.anim.Some? && Between(v, s.anim.value.from, s.anim.value.to)
    case Finish => s.anim.Some?
    case _ => true
  }

  function Step(s: M.ThumbState, e: Event): M.ThumbState
    requires Enabled(s, e)
  {
    match e
    case SetX(v) => M.SetX(s, v)
    case Press => M.Press(s)
    case Release => M.Release(s)
    case Tick(v) => M.Tick(s, v)
    case Finish => M.Finish(s)
  }

  /** Every event of `es` is enabled when it comes. */
  predicate Admissible(s: M.ThumbState, es: seq<Event>)
    decreases |es|
  {
    es == [] || (Enabled(s, es[0]) && Admissible(Step(s, es[0]), es[1..]))
  }

  function Run(s: M.ThumbState, es: seq<Event>): M.ThumbState
    requires Admissible(s, es)
    decreases |es|
  {
    if es == [] then s else Run(Step(s, es[0]), es[1..])
  }

  /** Reference for the pressed flag: the last `press` or `release` decides,
      and with neither the flag is as it was. */
  function PressedAfter(pressed: bool, es: seq<Event>): bool
    decreases |es|
  {
    if es == [] then pressed
    else PressedAfter(if es[0].Press? then true else if es[0].Release? then false else pressed, es[1..])
  }

  /** Reference for x: the last `setX` decides. */
  function XAfter(x: real, es: seq<Event>): real
    decreases |es|
  {
    if es == [] then x else XAfter(if es[0].SetX? then es[0].x else x, es[1..])
  }

  /** The number of animation frames in `es`. */
  function Frames(es: seq<Event>): nat
    decreases |es|
  {
    if es == [] then 0 else (if es[0].Tick? || es[0].Finish? then 1 else 0) + Frames(es[1..])
  }

  /** Position y, both rest radii (so `getHalfWidth`), the touch zone and the
      colours are the ones the thumb was built with, after any history. */
  lemma {:induction false} RunKeepsGeometry(s: M.ThumbState, es: seq<Event>)
    requires Admissible(s, es)
    ensures M.SameGeometry(s, Run(s, es))
    ensures M.HalfWidth(Run(s, es)) == M.HalfWidth(s)
    decreases |es|
  {
    if es != [] {
      RunKeepsGeometry(Step(s, es[0]), es[1..]);
    }
  }

  /** The invariant holds after any history: the pressed radius stays 1.5
      times the normal one, the visual radius stays between them, and at most
      one animation runs, heading for the radius the pressed flag calls for. */
  lemma {:induction false} RunPreservesValid(s: M.ThumbState, es: seq<Event>)
    requires M.Valid(s) && Admissible(s, es)
    ensures M.Valid(Run(s, es))
    decreases |es|
  {
    if es != [] {
      assert M.Valid(Step(s, es[0]));
      RunPreservesValid(Step(s, es[0]), es[1..]);
    }
  }

  /** `isPressed` reports the last `press` or `release`; frames and `setX`
      never change it. */
  lemma {:induction false} RunPressedState(s: M.ThumbState, es: seq<Event>)
    requires Admissible(s, es)
    ensures Run(s, es).pressed == PressedAfter(s.pressed, es)
    decreases |es|
  {
    if es != [] {
      RunPressedState(Step(s, es[0]), es[1..]);
    }
  }

  /** `getX` reports the last `setX`; nothing else moves the thumb. */
  lemma {:induction false} RunPosition(s: M.ThumbState, es: seq<Event>)
    requires Admissible(s, es)
    ensures Run(s, es).x == XAfter(s.x, es)
    decreases |es|
  {
    if es != [] {
      RunPosition(Step(s, es[0]), es[1..]);
    }
  }

  /** Each animation frame, and nothing else, asks the bar for one redraw. */
  lemma {:induction false} RunInvalidations(s: M.ThumbState, es: seq<Event>)
    requires Admissible(s, es)
    ensures Run(s, es).invalidations == s.invalidations + Frames(es)
    decreases |es|
  {
    if es != [] {
      RunInvalidations(Step(s, es[0]), es[1..]);
    }
  }

  /** Once its animation has finished, the thumb's visual radius is 1.5 times
      its normal radius if the last transition was a press, and the normal
      radius if it was a release; with neither, it is the rest radius of the
      initial flag. */
  lemma SettledRadius(s: M.ThumbState, es: seq<Event>)
    requires M.Valid(s) && Admissible(s, es) && Run(s, es).anim.None?
    ensures Run(s, es).radius == if PressedAfter(s.pressed, es) then 1.5 * M.HalfWidth(s) else M.HalfWidth(s)
  {
    RunPreservesValid(s, es);
    RunPressedState(s, es);
    RunKeepsGeometry(s, es);
  }

  /** Only animation frames write the visual radius. */
  lemma {:induction false} CommandsKeepRadius(s: M.ThumbState, es: seq<Event>)
    requires Admissible(s, es)
    requires forall i :: 0 <= i < |es| ==> !es[i].Tick? && !es[i].Finish?
    ensures Run(s, es).radius == s.radius
    decreases |es|
  {
    if es != [] {
      CommandsKeepRadius(Step(s, es[0]), es[1..]);
    }
  }
}
