/** The session of app.js: the module globals (score, isGameOver and the
    difficulty knobs) together with the scene objects the rules touch, and one
    pure step function per callback.

    The globals survive a scene restart; everything else is rebuilt by
    Create. Speed, x and y are in tenths of a pixel. */
module Game {
  import opened Wrappers
  import opened Difficulty
  import opened Pipes

  /** Vertical velocity a flap gives the bird. */
  const FlapVelocity: int := -300
  /** New pipes appear this many pixels right of the screen edge. */
  const SpawnOffset: int := 60

  datatype Session = Session(
    // module globals
    score: int,
    isGameOver: bool,
    knobs: Knobs,
    // scene objects
    pipes: seq<Slot>,
    birdVelocityY: int,
    scoreText: int,               // the number the score text shows
    finalScoreText: Option<int>,  // the final score text, None while hidden
    spawnTimer: Option<int>,      // delay of the live spawn timer, None once removed
    physicsPaused: bool)

  /** What holds of every session the game can reach. */
  ghost predicate Valid(s: Session)
  {
    && InRange(s.knobs)
    && s.score >= 0
    && s.scoreText == s.score
    && s.physicsPaused == s.isGameOver
    && (s.isGameOver <==> s.finalScoreText.Some?)
    && (s.isGameOver ==> s.finalScoreText == Some(s.score))
    && (!s.isGameOver ==> s.spawnTimer == Some(s.knobs.delay))
    && (s.spawnTimer.Some? ==> s.spawnTimer.value == s.knobs.delay)
  }

  /** The scene's create callback. It resets the game-over flag and the score
      but not the difficulty globals, which is why it takes only those. */
  function Create(d: Knobs): (r: Session)
    ensures r.knobs == d
    ensures !r.isGameOver && r.score == 0 && r.pipes == []
    ensures r.birdVelocityY == 0
    ensures InRange(d) <==> Valid(r)
  {
    Session(0, false, d, [], 0, 0, None, Some(d.delay), false)
  }

  /** The first create, with the globals at their declared initial values. */
  function Launch(): (r: Session)
    ensures Valid(r)
  {
    Create(Initial)
  }

  /** The difficulty-ramp callback. It does not look at isGameOver. The spawn
      timer is removed and re-added with the new delay when the delay changes. */
  function Tick(s: Session): (r: Session)
    ensures r.knobs == Ramp(s.knobs)
    ensures r.knobs.delay != s.knobs.delay ==> r.spawnTimer == Some(r.knobs.delay)
    ensures r.knobs.delay == s.knobs.delay ==> r.spawnTimer == s.spawnTimer
    ensures r.(knobs := s.knobs, spawnTimer := s.spawnTimer) == s
    ensures Valid(s) ==> Valid(r)
  {
    var d := Ramp(s.knobs);
    if d.delay != s.knobs.delay
    then s.(knobs := d, spawnTimer := Some(d.delay))
    else s.(knobs := d)
  }

  /** The update callback: nothing while game over; otherwise every live pipe
      moves, may score, and may be recycled. */
  function Frame(s: Session): (r: Session)
    ensures s.isGameOver ==> r == s
    ensures !s.isGameOver ==> r.pipes == Advance(s.pipes, s.knobs.speed).pipes
    ensures r.score - s.score == CountScoredBottoms(r.pipes) - CountScoredBottoms(s.pipes)
    ensures CountBottoms(r.pipes) == CountBottoms(s.pipes)
    ensures r.score >= s.score
    ensures r.score != s.score ==> r.scoreText == r.score
    ensures r.score == s.score ==> r.scoreText == s.scoreText
    ensures r.(pipes := s.pipes, score := s.score, scoreText := s.scoreText) == s
    ensures Valid(s) ==> Valid(r)
  {
    if s.isGameOver then s
    else
      var a := Advance(s.pipes, s.knobs.speed);
      if a.newlyScored == 0 then s.(pipes := a.pipes)
      else s.(pipes := a.pipes, score := s.score + a.newlyScored, scoreText := s.score + a.newlyScored)
  }

  function SpawnX(screenWidth: int): int { (screenWidth + SpawnOffset) * 10 }
  /** Bottom edge of the top pipe: centre minus half the gap, in tenths. */
  function TopEdge(centerY: int, gap: int): int { centerY * 10 - gap * 5 }
  /** Top edge of the bottom pipe: centre plus half the gap, in tenths. */
  function BottomEdge(centerY: int, gap: int): int { centerY * 10 + gap * 5 }

  /** The scored flag of whatever pipe the pool hands back at index i: a
      reused pipe keeps its own, a new sprite has none. */
  function PriorScored(ps: seq<Slot>, i: nat): bool
  {
    i < |ps| && ps[i].Some? && ps[i].value.scored
  }

  /** The pipe group's fixed properties: the width of the pipe texture in
      tenths and the group's size limit (None: unlimited, as app.js creates it). */
  datatype Group = Group(pipeWidth: nat, capacity: Option<nat>)

  /** The top pipe a spawn places: its bottom edge half a gap above the centre. */
  function TopPipe(g: Group, screenWidth: int, centerY: int, gap: int, prior: bool): Pipe
  {
    Pipe(SpawnX(screenWidth), TopEdge(centerY, gap), g.pipeWidth, true, prior, true)
  }

  /** The bottom pipe a spawn places: its top edge half a gap below the centre. */
  function BottomPipe(g: Group, screenWidth: int, centerY: int, gap: int): Pipe
  {
    Pipe(SpawnX(screenWidth), BottomEdge(centerY, gap), g.pipeWidth, false, false, true)
  }

  /** The spawn-timer callback. centerY is the random gap centre in pixels.
      The top pipe goes into the slot the first pool request answers; the
      bottom pipe into the slot the second request answers, on the pool in
      which the top pipe is already live; every other slot keeps its value. */
  function Spawn(s: Session, g: Group, screenWidth: int, centerY: int): (r: Session)
    ensures s.isGameOver ==> r == s
    ensures Acquire(s.pipes, g.capacity).None? ==> r == s
    ensures r.(pipes := s.pipes) == s
    ensures |s.pipes| <= |r.pipes| <= |s.pipes| + 2
    ensures !s.isGameOver && Acquire(s.pipes, g.capacity).Some? ==>
      var t := Acquire(s.pipes, g.capacity).value;
      var top := TopPipe(g, screenWidth, centerY, s.knobs.gap, PriorScored(s.pipes, t));
      var second := Acquire(Place(s.pipes, t, top), g.capacity);
      && t < |r.pipes| && r.pipes[t] == Some(top)
      && (second.Some? ==> second.value != t && second.value < |r.pipes|
                           && r.pipes[second.value] == Some(BottomPipe(g, screenWidth, centerY, s.knobs.gap)))
      && (second.None? ==> |r.pipes| == |Place(s.pipes, t, top)|)
      && (second.Some? ==> |r.pipes| == |Place(Place(s.pipes, t, top), second.value, BottomPipe(g, screenWidth, centerY, s.knobs.gap))|)
      // the pool grows only by the slots the pair was placed in
      && (forall i :: |s.pipes| <= i < |r.pipes| ==> r.pipes[i].Some? && (i == t || (second.Some? && i == second.value)))
      && (forall i :: 0 <= i < |s.pipes| && i != t && (second.None? || i != second.value) ==>
            r.pipes[i] == s.pipes[i])
    // no live pipe is disturbed
    ensures forall i :: 0 <= i < |s.pipes| && IsLive(s.pipes[i]) ==> r.pipes[i] == s.pipes[i]
    ensures CountLive(r.pipes) <= CountLive(s.pipes) + 2
    ensures !s.isGameOver && Acquire(s.pipes, g.capacity).Some? ==> CountLive(r.pipes) >= CountLive(s.pipes) + 1
    ensures !s.isGameOver && g.capacity.None? ==> CountLive(r.pipes) == CountLive(s.pipes) + 2
    ensures Valid(s) ==> Valid(r)
  {
    if s.isGameOver then s
    else
      match Acquire(s.pipes, g.capacity)
      case None => s
      case Some(t) =>
        var top := TopPipe(g, screenWidth, centerY, s.knobs.gap, PriorScored(s.pipes, t));
        var ps1 := Place(s.pipes, t, top);
        PlaceLive(s.pipes, t, top);
        match Acquire(ps1, g.capacity)
        case None => s.(pipes := ps1)
        case Some(b) =>
          assert IsLive(ps1[t]);
          var bottom := BottomPipe(g, screenWidth, centerY, s.knobs.gap);
          PlaceLive(ps1, b, bottom);
          s.(pipes := Place(ps1, b, bottom))
  }

  /** The collision callback: the one terminal transition. */
  function GameOver(s: Session): (r: Session)
    ensures s.isGameOver ==> r == s
    ensures r.isGameOver
    // the first call pauses physics, stops spawning and shows the score of that moment
    ensures !s.isGameOver ==> r.physicsPaused && r.spawnTimer == None && r.finalScoreText == Some(s.score)
    ensures r.(isGameOver := s.isGameOver, physicsPaused := s.physicsPaused,
               spawnTimer := s.spawnTimer, finalScoreText := s.finalScoreText) == s
    ensures Valid(s) ==> Valid(r)
  {
    if s.isGameOver then s
    else s.(isGameOver := true, physicsPaused := true, spawnTimer := None, finalScoreText := Some(s.score))
  }

  /** The flap handler. */
  function Flap(s: Session): (r: Session)
    ensures s.isGameOver ==> r == s
    ensures !s.isGameOver ==> r.birdVelocityY == FlapVelocity
    ensures r.(birdVelocityY := s.birdVelocityY) == s
  {
    if s.isGameOver then s else s.(birdVelocityY := FlapVelocity)
  }

  /** A space press or pointer press. Both fire the flap handler and then the
      restart handler; each tests isGameOver when it runs, and flap does not
      change it, so the press either flaps or restarts. */
  function Input(s: Session): (r: Session)
    ensures !s.isGameOver ==> r == Flap(s)
    ensures s.isGameOver ==> r == Create(s.knobs)
    ensures Valid(s) ==> Valid(r)
  {
    var afterFlap := Flap(s);
    if afterFlap.isGameOver then Create(afterFlap.knobs) else afterFlap
  }

  /** With the unlimited group app.js creates, a spawn outside game over always
      places the whole pair: the top pipe reuses the first inactive pipe (or
      is appended when there is none), the bottom pipe the next inactive one
      after it; both are live at x = width + 60, the gap between them is
      exactly the current gap, and every other slot is untouched. */
  lemma SpawnPlacesPair(s: Session, g: Group, screenWidth: int, centerY: int)
    requires !s.isGameOver && g.capacity.None?
    ensures var r := Spawn(s, g, screenWidth, centerY);
      var t := Acquire(s.pipes, None).value;
      var b := Acquire(Place(s.pipes, t, TopPipe(g, screenWidth, centerY, s.knobs.gap, PriorScored(s.pipes, t))), None).value;
      && t != b && t < |r.pipes| && b < |r.pipes|
      && (t < |s.pipes| <==> exists j :: 0 <= j < |s.pipes| && IsReusable(s.pipes[j]))
      && (forall j :: 0 <= j < t && j < |s.pipes| ==> !IsReusable(s.pipes[j]))
      && (forall j :: t < j < b && j < |s.pipes| ==> !IsReusable(s.pipes[j]))
      && r.pipes[t].Some? && r.pipes[t].value.isTop && r.pipes[t].value.active
      && r.pipes[t].value.x == SpawnX(screenWidth) && r.pipes[t].value.y == TopEdge(centerY, s.knobs.gap)
      && r.pipes[b] == Some(Pipe(SpawnX(screenWidth), BottomEdge(centerY, s.knobs.gap), g.pipeWidth, false, false, true))
      && r.pipes[b].value.y - r.pipes[t].value.y == 10 * s.knobs.gap
      && (forall i :: 0 <= i < |s.pipes| && i != t && i != b ==> r.pipes[i] == s.pipes[i])
      && (forall i :: |s.pipes| <= i < |r.pipes| ==> r.pipes[i].Some? && (i == t || i == b))
  {
    var t := Acquire(s.pipes, None).value;
    var ps1 := Place(s.pipes, t, TopPipe(g, screenWidth, centerY, s.knobs.gap, PriorScored(s.pipes, t)));
    var b := Acquire(ps1, None).value;
    if t < |s.pipes| {
      assert IsReusable(s.pipes[t]);
    }
    forall j | t < j < b && j < |s.pipes|
      ensures !IsReusable(s.pipes[j])
    {
      assert ps1[j] == s.pipes[j];
    }
  }

  /** The integer centres Phaser.Math.Between(0.35 h, 0.65 h) can return for a
      screen h px tall: it floors random * (0.3 h + 1) + 0.35 h, so the result
      runs from floor(0.35 h) up to the last integer below 0.65 h + 1. */
  predicate CanDrawCentre(h: int, centerY: int)
    requires h >= 0
  {
    (7 * h) / 20 <= centerY && 20 * centerY < 13 * h + 20
  }

  /** For every centre the draw can return and every gap in its range, the
      whole gap is on a screen at least 232 px tall. */
  lemma GapOnScreen(h: int, centerY: int, gap: int)
    requires h >= 232
    requires CanDrawCentre(h, centerY)
    requires MinGap <= gap <= InitialGap
    ensures 0 < TopEdge(centerY, gap) < BottomEdge(centerY, gap) < 10 * h
  {
    assert 20 * ((7 * h) / 20) >= 7 * h - 19;
  }

  /** The bound 232 is tight: on a 231 px screen the draw can return 80, and
      with the initial gap the top pipe then reaches the top of the screen. */
  lemma GapCanTouchTop()
    ensures CanDrawCentre(231, 80) && TopEdge(80, InitialGap) == 0
  {
  }
}
