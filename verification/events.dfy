/** The game as an event-driven state machine: every callback the engine can
    fire is one event, and a session's history is a sequence of events. */
module Events {
  import opened Wrappers
  import opened Difficulty
  import opened Pipes
  import opened Game

  datatype Event =
    | RampTick                      // the 8-second knobs timer fires
    | FrameUpdate                   // the scene's update callback
    | SpawnTick(screenWidth: int, centerY: int)   // screen width at that moment, random centre
    | Collision                     // the bird touches the ground or a pipe
    | Press                         // space key or pointer down

  /** One event on a scene whose pipe group is g. */
  function Step(g: Group, s: Session, e: Event): Session
  {
    match e
    case RampTick => Tick(s)
    case FrameUpdate => Frame(s)
    case SpawnTick(w, c) => Spawn(s, g, w, c)
    case Collision => GameOver(s)
    case Press => Input(s)
  }

  function Run(g: Group, s: Session, es: seq<Event>): Session
    decreases |es|
  {
    if es == [] then s else Run(g, Step(g, s, es[0]), es[1..])
  }

  predicate NoPress(es: seq<Event>)
  {
    forall i :: 0 <= i < |es| ==> !es[i].Press?
  }

  /** Every event keeps the session invariant. */
  lemma StepPreservesValid(g: Group, s: Session, e: Event)
    requires Valid(s)
    ensures Valid(Step(g, s, e))
  {
  }

  /** Any run of events from a valid session (Launch() is one) ends in a
      valid session: the score is never negative and matches its text, the
      knobs stay in range, and the final score text is shown exactly when the
      game is over. */
  lemma {:induction false} RunPreservesValid(g: Group, s: Session, es: seq<Event>)
    requires Valid(s)
    ensures Valid(Run(g, s, es))
    decreases |es|
  {
    if es != [] {
      StepPreservesValid(g, s, es[0]);
      RunPreservesValid(g, Step(g, s, es[0]), es[1..]);
    }
  }

  /** The score only falls when a press restarts a finished game, and then to 0. */
  lemma StepScore(g: Group, s: Session, e: Event)
    ensures Step(g, s, e).score < s.score ==> e.Press? && s.isGameOver && Step(g, s, e).score == 0
    ensures e.Press? && s.isGameOver ==> Step(g, s, e).score == 0 && !Step(g, s, e).isGameOver
  {
  }

  /** True when no event of the run restarts the scene: no press arrives
      while the game is over. Presses while playing are flaps and allowed. */
  predicate NoRestart(g: Group, s: Session, es: seq<Event>)
    decreases |es|
  {
    es == [] || (!(es[0].Press? && s.isGameOver) && NoRestart(g, Step(g, s, es[0]), es[1..]))
  }

  /** Within a session (any run, flaps included, without a restart) the score
      never decreases. */
  lemma {:induction false} RunScoreMonotone(g: Group, s: Session, es: seq<Event>)
    requires NoRestart(g, s, es)
    ensures Run(g, s, es).score >= s.score
    decreases |es|
  {
    if es != [] {
      StepScore(g, s, es[0]);
      RunScoreMonotone(g, Step(g, s, es[0]), es[1..]);
    }
  }

  /** Across any run, restarts included, the speed never falls and the gap
      and delay never rise: no event but the ramp touches the knobs, and a
      restart carries them over. */
  lemma {:induction false} RunKnobsMonotone(g: Group, s: Session, es: seq<Event>)
    ensures Run(g, s, es).knobs.speed >= s.knobs.speed
    ensures Run(g, s, es).knobs.gap <= s.knobs.gap
    ensures Run(g, s, es).knobs.delay <= s.knobs.delay
    decreases |es|
  {
    if es != [] {
      RunKnobsMonotone(g, Step(g, s, es[0]), es[1..]);
    }
  }

  /** After game over, frames, spawns and collisions change nothing; the ramp
      still fires but touches only the knobs and the spawn timer. */
  lemma GameOverFreezes(g: Group, s: Session, e: Event)
    requires s.isGameOver && !e.Press?
    ensures !e.RampTick? ==> Step(g, s, e) == s
    ensures Step(g, s, e).(knobs := s.knobs, spawnTimer := s.spawnTimer) == s
  {
  }

  /** Game over lasts until a press: through any events that are not presses
      the score, the pipes and the final score text stay as they were. */
  lemma {:induction false} GameOverIsTerminal(g: Group, s: Session, es: seq<Event>)
    requires s.isGameOver && NoPress(es)
    ensures Run(g, s, es).(knobs := s.knobs, spawnTimer := s.spawnTimer) == s
    decreases |es|
  {
    if es != [] {
      GameOverFreezes(g, s, es[0]);
      var s' := Step(g, s, es[0]);
      GameOverIsTerminal(g, s', es[1..]);
    }
  }

  /** A second collision changes nothing. */
  lemma GameOverIdempotent(s: Session)
    ensures GameOver(GameOver(s)) == GameOver(s)
    ensures !s.isGameOver ==> GameOver(s).finalScoreText == Some(s.score)
  {
  }

  function Frames(s: Session, n: nat): Session
  {
    if n == 0 then s else Frame(Frames(s, n - 1))
  }

  /** However many frames run, each bottom pipe in the pool adds at most one
      point and top pipes add none: the score gained is the number of bottom
      pipes that became scored, bounded by those not yet scored. */
  lemma {:induction false} FramesScoreBound(s: Session, n: nat)
    ensures Frames(s, n).score - s.score == CountScoredBottoms(Frames(s, n).pipes) - CountScoredBottoms(s.pipes)
    ensures Frames(s, n).score - s.score <= CountBottoms(s.pipes) - CountScoredBottoms(s.pipes)
  {
    if n > 0 {
      FramesScoreBound(s, n - 1);
    } else {
      ScoredBottomsBounded(s.pipes);
    }
    FramesKeepBottoms(s, n);
    ScoredBottomsBounded(Frames(s, n).pipes);
  }

  lemma {:induction false} FramesKeepBottoms(s: Session, n: nat)
    ensures CountBottoms(Frames(s, n).pipes) == CountBottoms(s.pipes)
  {
    if n > 0 {
      FramesKeepBottoms(s, n - 1);
    }
  }

  /** A restart keeps the knobs: one ramp tick, a crash and a press give a
      fresh session that is not the launch session, because its knobs are
      already harder. */
  lemma RestartKeepsDifficulty(g: Group)
    ensures Run(g, Launch(), [RampTick, Collision, Press]).score == 0
    ensures !Run(g, Launch(), [RampTick, Collision, Press]).isGameOver
    ensures Run(g, Launch(), [RampTick, Collision, Press]).knobs == Knobs(23, 155, 1400)
    ensures Run(g, Launch(), [RampTick, Collision, Press]) != Launch()
  {
    var s1 := Step(g, Launch(), RampTick);
    var s2 := Step(g, s1, Collision);
    var s3 := Step(g, s2, Press);
    assert Run(g, Launch(), [RampTick, Collision, Press]) == s3 by {
      assert [RampTick, Collision, Press][1..] == [Collision, Press];
      assert [Collision, Press][1..] == [Press];
    }
  }

  /** The ramp ignores game over: after a crash it still hardens the knobs and
      even re-adds a spawn timer, whose spawns then do nothing. */
  lemma RampRevivesSpawnTimer(g: Group, w: int, c: int)
    ensures GameOver(Launch()).spawnTimer == None
    ensures Tick(GameOver(Launch())).spawnTimer == Some(1400)
    ensures Tick(GameOver(Launch())).knobs == Knobs(23, 155, 1400)
    ensures Spawn(Tick(GameOver(Launch())), g, w, c) == Tick(GameOver(Launch()))
  {
  }
}
