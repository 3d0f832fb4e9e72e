/**
 * The drag handler of `src/components/CatCard.jsx`. Each gesture sample the
 * gesture library reports is mapped to a spring command: ignore it, follow
 * the pointer, snap back to rest, or fly off-screen and report a swipe
 * decision once that exit animation comes to rest.
 *
 * Numbers are mathematical reals. The spring's physics are not modelled:
 * a command is described by the target it drives the spring to, and the
 * spring is taken to reach that target before its `onRest` callback runs.
 */
module CatCard {
  import opened Wrappers
  import opened Cats

  /** What the spring animates: offset `x` (px), rotation `rot` (deg), `scale`. */
  datatype Spring = Spring(x: real, rot: real, scale: real)

  /** The values the spring starts from when the card mounts. */
  const InitialSpring: Spring := Spring(0.0, 0.0, 1.0)

  /** The argument of `api.start`: the target values, whether to jump there
      without animating, and the decision `onRest` reports, if it has one. */
  datatype Target = Target(x: real, rot: real, scale: real, immediate: bool)
  datatype Command = Ignore | Start(target: Target, onRest: Option<Swipe>)

  /** One gesture sample: `active` while the pointer is down, the horizontal
      movement since the press `mx`, the horizontal direction `xDir` (its sign)
      and the horizontal speed `vx`. */
  datatype DragSample = DragSample(active: bool, mx: real, xDir: real, vx: real)

  function Abs(r: real): real { if r < 0.0 then -r else r }

  /** The swipe-commit threshold. */
  function IsSwiped(mx: real, vx: real): (swiped: bool)
    ensures Abs(mx) > 200.0 ==> swiped
    ensures Abs(mx) <= 100.0 ==> !swiped
    ensures 100.0 < Abs(mx) <= 200.0 ==> (swiped <==> vx > 0.5)
  {
    Abs(mx) > 200.0 || (Abs(mx) > 100.0 && vx > 0.5)
  }

  function DirectionOf(xDir: real): (d: Direction)
    ensures d == Left <==> xDir < 0.0
    ensures xDir == 0.0 ==> d == Right
  {
    if xDir < 0.0 then Left else Right
  }

  /** The handler passed to `useDrag`, for a card showing `cat` in a window
      `innerWidth` pixels wide. */
  function OnDrag(isTopCard: bool, cat: Cat, g: DragSample, innerWidth: nat): (cmd: Command)
    // a card below the top one never reacts
    ensures !isTopCard ==> cmd == Ignore
    ensures isTopCard ==> cmd.Start?
    // a decision is scheduled only on release past the threshold, and names this card
    ensures cmd.Start? && cmd.onRest.Some? <==> isTopCard && !g.active && IsSwiped(g.mx, g.vx)
    ensures cmd.Start? && cmd.onRest.Some? ==> cmd.onRest.value == Swipe(DirectionOf(g.xDir), cat)
    // while the pointer is down the card tracks it at once, even past the threshold
    ensures isTopCard && g.active ==>
      cmd.target == Target(g.mx, g.mx / 100.0, 1.05, true)
    // a release short of the threshold goes back to where the card started
    ensures isTopCard && !g.active && !IsSwiped(g.mx, g.vx) ==>
      cmd.target == Target(InitialSpring.x, InitialSpring.rot, InitialSpring.scale, false)
    // the exit flies past the window edge on the side of `xDir`, tilted that way
    ensures cmd.Start? && cmd.onRest.Some? ==>
      !cmd.target.immediate && cmd.target.scale == 1.0 &&
      (g.xDir > 0.0 ==> cmd.target.x >= 200.0 * g.xDir + innerWidth as real * g.xDir > 0.0 && cmd.target.rot > 0.0) &&
      (g.xDir < 0.0 ==> cmd.target.x < 0.0 && cmd.target.rot < 0.0) &&
      (g.xDir == 0.0 ==> cmd.target.x == 0.0 && cmd.target.rot == 0.0)
  {
    if !isTopCard then Ignore
    else
      var swiped := IsSwiped(g.mx, g.vx);
      var direction := DirectionOf(g.xDir);
      if !g.active && swiped then
        Start(Target((200.0 + innerWidth as real) * g.xDir, g.xDir * 20.0, 1.0, false),
              Some(Swipe(direction, cat)))
      else
        Start(Target(if g.active then g.mx else 0.0,
                     if g.active then g.mx / 100.0 else 0.0,
                     if g.active then 1.05 else 1.0,
                     g.active),
              None)
  }

  /** Where the spring comes to rest after a command. */
  function Settle(s: Spring, cmd: Command): Spring {
    match cmd
    case Ignore => s
    case Start(t, _) => Spring(t.x, t.rot, t.scale)
  }

  /** The decisions a command reports when its animation comes to rest. */
  function Emitted(cmd: Command): seq<Swipe> {
    if cmd.Start? && cmd.onRest.Some? then [cmd.onRest.value] else []
  }

  /** The resting spring and the decisions reported after the handler has seen
      `samples` in order, starting from spring `s`. */
  function Replay(isTopCard: bool, cat: Cat, s: Spring, samples: seq<DragSample>, innerWidth: nat): (Spring, seq<Swipe>)
    decreases |samples|
  {
    if samples == [] then (s, [])
    else
      var cmd := OnDrag(isTopCard, cat, samples[0], innerWidth);
      var (s', swipes) := Replay(isTopCard, cat, Settle(s, cmd), samples[1..], innerWidth);
      (s', Emitted(cmd) + swipes)
  }

  /** Replaying one more sample settles on that sample's command. */
  lemma {:induction false} ReplaySnoc(isTopCard: bool, cat: Cat, s: Spring, samples: seq<DragSample>, last: DragSample, innerWidth: nat)
    ensures Replay(isTopCard, cat, s, samples + [last], innerWidth).0 ==
      Settle(Replay(isTopCard, cat, s, samples, innerWidth).0, OnDrag(isTopCard, cat, last, innerWidth))
    ensures Replay(isTopCard, cat, s, samples + [last], innerWidth).1 ==
      Replay(isTopCard, cat, s, samples, innerWidth).1 + Emitted(OnDrag(isTopCard, cat, last, innerWidth))
    decreases |samples|
  {
    if samples != [] {
      var cmd := OnDrag(isTopCard, cat, samples[0], innerWidth);
      var s' := Settle(s, cmd);
      assert (samples + [last])[1..] == samples[1..] + [last];
      ReplaySnoc(isTopCard, cat, s', samples[1..], last, innerWidth);
      var whole := Replay(isTopCard, cat, s', samples[1..] + [last], innerWidth);
      var part := Replay(isTopCard, cat, s', samples[1..], innerWidth);
      var e := Emitted(OnDrag(isTopCard, cat, last, innerWidth));
      assert Replay(isTopCard, cat, s, samples + [last], innerWidth) == (whole.0, Emitted(cmd) + whole.1);
      assert Replay(isTopCard, cat, s, samples, innerWidth) == (part.0, Emitted(cmd) + part.1);
      assert Emitted(cmd) + (part.1 + e) == (Emitted(cmd) + part.1) + e;
    }
  }

  /** Samples taken while the pointer is down report nothing. */
  lemma {:induction false} DraggingReportsNothing(isTopCard: bool, cat: Cat, s: Spring, moves: seq<DragSample>, innerWidth: nat)
    requires forall k :: 0 <= k < |moves| ==> moves[k].active
    ensures Replay(isTopCard, cat, s, moves, innerWidth).1 == []
    decreases |moves|
  {
    if moves != [] {
      var cmd := OnDrag(isTopCard, cat, moves[0], innerWidth);
      DraggingReportsNothing(isTopCard, cat, Settle(s, cmd), moves[1..], innerWidth);
    }
  }

  /** A whole drag (any number of moves, then the release) reports at most one
      decision: exactly one, for this card and in the release's direction,
      when the release passes the threshold; otherwise none, and the card is
      back at its starting pose. */
  lemma OneDecisionPerDrag(isTopCard: bool, cat: Cat, s: Spring, moves: seq<DragSample>, release: DragSample, innerWidth: nat)
    requires forall k :: 0 <= k < |moves| ==> moves[k].active
    requires !release.active
    ensures var (rest, swipes) := Replay(isTopCard, cat, s, moves + [release], innerWidth);
      if !isTopCard then rest == s && swipes == []
      else if IsSwiped(release.mx, release.vx) then
        swipes == [Swipe(DirectionOf(release.xDir), cat)] &&
        rest == Spring((200.0 + innerWidth as real) * release.xDir, 20.0 * release.xDir, 1.0)
      else rest == InitialSpring && swipes == []
  {
    ReplaySnoc(isTopCard, cat, s, moves, release, innerWidth);
    DraggingReportsNothing(isTopCard, cat, s, moves, innerWidth);
    if !isTopCard {
      IgnoredThroughout(cat, s, moves, innerWidth);
    }
  }

  /** A card below the top one keeps its spring whatever it is sent. */
  lemma {:induction false} IgnoredThroughout(cat: Cat, s: Spring, samples: seq<DragSample>, innerWidth: nat)
    ensures Replay(false, cat, s, samples, innerWidth) == (s, [])
    decreases |samples|
  {
    if samples != [] {
      assert OnDrag(false, cat, samples[0], innerWidth) == Ignore;
      IgnoredThroughout(cat, s, samples[1..], innerWidth);
      assert Emitted(Ignore) + [] == [];
    }
  }
}
