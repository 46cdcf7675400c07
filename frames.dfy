/** Widgets over many frames: the answers a widget gives to a sequence of queries, and
    what the latch guarantees about them. */
module Frames {
  import opened Geometry
  import opened Input
  import opened Interaction

  /** The answers to `calls`, put in order to a widget whose latch starts at `latch`. */
  function Outputs(shape: Shape, position: Point, latch: bool, calls: seq<Call>): (out: seq<bool>)
    ensures |out| == |calls|
    decreases |calls|
  {
    if calls == [] then []
    else
      var s := Respond(shape, position, latch, calls[0]);
      [s.fired] + Outputs(shape, position, s.latch, calls[1..])
  }

  /** The latch after answering `calls`. */
  function FinalLatch(shape: Shape, position: Point, latch: bool, calls: seq<Call>): (final: bool)
    decreases |calls|
  {
    if calls == [] then latch
    else FinalLatch(shape, position, Respond(shape, position, latch, calls[0]).latch, calls[1..])
  }

  /** How many of the press queries in `calls` reported a press. */
  function PressesFired(shape: Shape, position: Point, latch: bool, calls: seq<Call>): (n: nat)
    decreases |calls|
  {
    if calls == [] then 0
    else
      var s := Respond(shape, position, latch, calls[0]);
      (if calls[0].Press? && s.fired then 1 else 0) + PressesFired(shape, position, s.latch, calls[1..])
  }

  /** How many of the release queries in `calls` reported a release. */
  function ReleasesFired(shape: Shape, position: Point, latch: bool, calls: seq<Call>): (n: nat)
    decreases |calls|
  {
    if calls == [] then 0
    else
      var s := Respond(shape, position, latch, calls[0]);
      (if calls[0].Release? && s.fired then 1 else 0) + ReleasesFired(shape, position, s.latch, calls[1..])
  }

  function B2N(b: bool): (n: nat) {
    if b then 1 else 0
  }

  /** Every reported release is paid for by an earlier reported press: over any sequence
      of queries, in any order, releases plus a still-set latch never outnumber the
      presses plus a latch set at the start. */
  lemma {:induction false} ReleasesNeverExceedPresses(shape: Shape, position: Point, latch: bool, calls: seq<Call>)
    ensures ReleasesFired(shape, position, latch, calls) + B2N(FinalLatch(shape, position, latch, calls))
         <= PressesFired(shape, position, latch, calls) + B2N(latch)
    decreases |calls|
  {
    if calls != [] {
      var s := Respond(shape, position, latch, calls[0]);
      ReleasesNeverExceedPresses(shape, position, s.latch, calls[1..]);
    }
  }

  /** A fresh widget (latch clear) that never reported a press never reports a release,
      whatever the button does. */
  lemma NoReleaseWithoutPress(shape: Shape, position: Point, calls: seq<Call>)
    requires PressesFired(shape, position, false, calls) == 0
    ensures ReleasesFired(shape, position, false, calls) == 0
  {
    ReleasesNeverExceedPresses(shape, position, false, calls);
  }

  /** `n` consecutive press queries with the same snapshot. */
  function Held(m: MouseState, n: nat): (calls: seq<Call>)
    ensures |calls| == n
  {
    seq(n, _ => Press(m))
  }

  /** An edge-triggered widget (rectangle or rounded rectangle) held down under the
      pointer reports the press on the first frame only, and only if the latch was
      clear; the latch stays set. */
  lemma {:induction false} EdgeTriggeredHeld(shape: Shape, position: Point, latch: bool, m: MouseState, n: nat)
    requires PolicyOf(shape) == EdgeTriggered
    requires m.leftDown && Hovered(shape, position, m.position)
    ensures forall i :: 0 <= i < n ==> Outputs(shape, position, latch, Held(m, n))[i] == (i == 0 && !latch)
    ensures n > 0 ==> FinalLatch(shape, position, latch, Held(m, n))
    decreases n
  {
    if n > 0 {
      assert Held(m, n)[1..] == Held(m, n - 1);
      EdgeTriggeredHeld(shape, position, true, m, n - 1);
    }
  }

  /** A circle held down under the pointer reports a press on every frame. */
  lemma {:induction false} LevelTriggeredHeld(shape: Shape, position: Point, latch: bool, m: MouseState, n: nat)
    requires PolicyOf(shape) == LevelTriggered
    requires m.leftDown && Hovered(shape, position, m.position)
    ensures forall i :: 0 <= i < n ==> Outputs(shape, position, latch, Held(m, n))[i]
    decreases n
  {
    if n > 0 {
      assert Held(m, n)[1..] == Held(m, n - 1);
      LevelTriggeredHeld(shape, position, true, m, n - 1);
    }
  }

  /** Three held frames: a rectangle answers [true, false, false], a circle [true, true, true]. */
  lemma ThreeHeldFrames(size: Point, rectPosition: Point, rm: MouseState, radius: int, center: Point, cm: MouseState)
    requires rm.leftDown && InBox(rm.position, rectPosition, size)
    requires cm.leftDown && InDisk(cm.position, center, radius)
    ensures Outputs(RectangleShape(size), rectPosition, false, Held(rm, 3)) == [true, false, false]
    ensures Outputs(CircleShape(radius), center, false, Held(cm, 3)) == [true, true, true]
  {
    EdgeTriggeredHeld(RectangleShape(size), rectPosition, false, rm, 3);
    LevelTriggeredHeld(CircleShape(radius), center, false, cm, 3);
  }

  /** Over any sequence of queries a rounded rectangle gives the same answers and ends with
      the same latch as the plain rectangle of the same size. */
  lemma {:induction false} RoundedTraceAsRectangle(size: Point, cornerRadius: int, position: Point, latch: bool, calls: seq<Call>)
    ensures Outputs(RoundedRectangleShape(size, cornerRadius), position, latch, calls)
         == Outputs(RectangleShape(size), position, latch, calls)
    ensures FinalLatch(RoundedRectangleShape(size, cornerRadius), position, latch, calls)
         == FinalLatch(RectangleShape(size), position, latch, calls)
    decreases |calls|
  {
    if calls != [] {
      RoundedRespondsAsRectangle(size, cornerRadius, position, latch, calls[0]);
      var s := Respond(RectangleShape(size), position, latch, calls[0]);
      RoundedTraceAsRectangle(size, cornerRadius, position, s.latch, calls[1..]);
    }
  }

  /** The order in which a caller queries press and release within one frame. */
  datatype QueryOrder = PressFirst | ReleaseFirst

  /** What a widget reports in one frame. */
  datatype FrameResult = FrameResult(pressed: bool, released: bool)

  function FrameCalls(m: MouseState, order: QueryOrder): (calls: seq<Call>) {
    match order
    case PressFirst => [Press(m), Release(m)]
    case ReleaseFirst => [Release(m), Press(m)]
  }

  /** Answering two queries, spelled out. */
  lemma OutputsOfTwo(shape: Shape, position: Point, latch: bool, first: Call, second: Call)
    ensures var s1 := Respond(shape, position, latch, first);
      var s2 := Respond(shape, position, s1.latch, second);
      Outputs(shape, position, latch, [first, second]) == [s1.fired, s2.fired]
      && FinalLatch(shape, position, latch, [first, second]) == s2.latch
  {
    var s1 := Respond(shape, position, latch, first);
    var s2 := Respond(shape, position, s1.latch, second);
    assert [first, second][1..] == [second];
    assert [second][1..] == [];
    assert FinalLatch(shape, position, s1.latch, [second]) == FinalLatch(shape, position, s2.latch, []);
  }

  /** The per-frame reports for a sequence of snapshots, each frame querying press and
      release once in the given order. */
  function RunFrames(shape: Shape, position: Point, latch: bool, frames: seq<MouseState>, order: QueryOrder): (rs: seq<FrameResult>)
    ensures |rs| == |frames|
    decreases |frames|
  {
    if frames == [] then []
    else
      var calls := FrameCalls(frames[0], order);
      var out := Outputs(shape, position, latch, calls);
      var r := if order == PressFirst then FrameResult(out[0], out[1]) else FrameResult(out[1], out[0]);
      [r] + RunFrames(shape, position, FinalLatch(shape, position, latch, calls), frames[1..], order)
  }

  /** A caller that asks `IsPressed` before `IsReleased` in every frame never sees a
      release, for either shape: the press query has already cleared the latch by the
      time the button is seen up. */
  lemma {:induction false} PressFirstNeverReleases(shape: Shape, position: Point, latch: bool, frames: seq<MouseState>)
    ensures forall i :: 0 <= i < |frames| ==> !RunFrames(shape, position, latch, frames, PressFirst)[i].released
    decreases |frames|
  {
    if frames != [] {
      var calls := FrameCalls(frames[0], PressFirst);
      ReleaseAfterPressInSameFrame(shape, position, latch, frames[0]);
      OutputsOfTwo(shape, position, latch, Press(frames[0]), Release(frames[0]));
      PressFirstNeverReleases(shape, position, FinalLatch(shape, position, latch, calls), frames[1..]);
    }
  }

  /** A click held for three frames and let go on the fourth, queried release-first:
      a rectangle reports the press on the first frame and the release on the last;
      a circle reports the press on all three held frames and the release on the last. */
  lemma ClickCycle(shape: Shape, position: Point, p: Point)
    requires Hovered(shape, position, p)
    ensures var held, up := MouseState(p, true), MouseState(p, false);
      RunFrames(shape, position, false, [held, held, held, up], ReleaseFirst)
      == if shape.CircleShape? then
           [FrameResult(true, false), FrameResult(true, false), FrameResult(true, false), FrameResult(false, true)]
         else
           [FrameResult(true, false), FrameResult(false, false), FrameResult(false, false), FrameResult(false, true)]
  {
    var held, up := MouseState(p, true), MouseState(p, false);
    var c := shape.CircleShape?;
    OutputsOfTwo(shape, position, false, Release(held), Press(held));
    OutputsOfTwo(shape, position, true, Release(held), Press(held));
    OutputsOfTwo(shape, position, true, Release(up), Press(up));
    assert RunFrames(shape, position, true, [up], ReleaseFirst) == [FrameResult(false, true)] by {
      assert [up][1..] == [];
    }
    assert RunFrames(shape, position, true, [held, up], ReleaseFirst)
        == [FrameResult(c, false), FrameResult(false, true)] by {
      assert [held, up][1..] == [up];
    }
    assert RunFrames(shape, position, true, [held, held, up], ReleaseFirst)
        == [FrameResult(c, false), FrameResult(c, false), FrameResult(false, true)] by {
      assert [held, held, up][1..] == [held, up];
    }
    assert [held, held, held, up][1..] == [held, held, up];
  }
}
