/**
 The run lifecycle: reset, the per-frame update with its game-over guard,
 the best-score bookkeeping at the end of a run, and the activation input
 (the Space key or a touch) that either starts a run or flaps.
 */
module Game {
  import opened GameState
  import Physics
  import Pipes

  /** The best score at load: the stored value, or zero when nothing is stored. */
  function InitialBest(stored: Option<nat>): (b: nat)
    ensures stored.Some? ==> b == stored.value
    ensures stored.None? ==> b == 0
  {
    match stored
    case Some(v) => v
    case None => 0
  }

  /** A world at the very start of a run: bird at rest at one sixth of the
      width and half the height, no pipes, all counters back to their start. */
  predicate Fresh(w: World, screen: Screen) {
    && w.bird == Bird(screen.width as real / 6.0, screen.height as real / 2.0, 0.0)
    && w.pipes == []
    && w.frame == 0 && w.score == 0 && w.level == 1
    && !w.gameOver
  }

  /** The reset done at load and by every start: waits for the first input. */
  function InitGame(screen: Screen, best: nat): (w: World)
    ensures Fresh(w, screen) && w.awaitingStart && w.best == best
    ensures Valid(w)
  {
    World(Bird(screen.width as real / 6.0, screen.height as real / 2.0, 0.0), [], 0, 0, 1, false, true, best)
  }

  /** The reset part of starting a run; the best score is carried over. */
  function StartGame(w: World, screen: Screen): (r: World)
    ensures Fresh(r, screen) && !r.awaitingStart && r.best == w.best
    ensures Valid(r)
  {
    InitGame(screen, w.best).(awaitingStart := false)
  }

  /** One running frame: bird physics, then the pipes, then the frame counter. */
  function Tick(w: World, screen: Screen, u: real): (r: World)
    requires 0.0 <= u < 1.0
    ensures r.frame == w.frame + 1
    ensures r.best == w.best && r.awaitingStart == w.awaitingStart
    ensures r.bird.x == w.bird.x
    ensures w.gameOver ==> r.gameOver
    ensures w.score <= r.score && w.level <= r.level
    ensures Physics.HitsFloor(w.bird, screen) ==> r.gameOver
    // the bird is the one bird physics produced; the run ends exactly on a
    // floor hit or a hit of a scrolled pipe by the moved bird; the score grows
    // by the pipes newly passed, and the survivors are the scrolled pipes on screen
    ensures var b := Physics.UpdateBird(w, screen);
            var sp := Pipes.Spawn(w.pipes, w.frame, w.level, screen, u);
            var m := Pipes.ScrollPipes(b.bird, sp, Pipes.Tally(w.score, w.level, b.gameOver));
            && r.bird == b.bird
            && (r.gameOver <==> w.gameOver || Physics.HitsFloor(w.bird, screen)
                                || exists i :: 0 <= i < |m.0| && Pipes.Hits(b.bird, m.0[i]))
            && r.score == w.score + Pipes.NewlyPassed(sp, m.0)
            && r.pipes == Pipes.Prune(m.0)
    ensures forall i :: 0 <= i < |r.pipes| ==> Pipes.OnScreen(r.pipes[i])
    ensures Valid(w) ==> Valid(r)
  {
    var r := Pipes.UpdatePipes(Physics.UpdateBird(w, screen), screen, u);
    r.(frame := r.frame + 1)
  }

  /** The best-score rule at the end of a run: the run's score replaces the
      best one only when it is higher. */
  function Improve(best: nat, score: nat): (b: nat)
    ensures b >= best && b >= score
    ensures b == best || b == score
  {
    if score > best then score else best
  }

  /** The state part of the end of a run: record the best score and wait for
      the next start. The game-over flag is left set. */
  function EndGame(w: World): (r: World)
    ensures r.best == Improve(w.best, w.score)
    ensures r.best >= w.best && r.best >= w.score
    ensures r.awaitingStart && r.gameOver == w.gameOver
    ensures r.(best := w.best, awaitingStart := w.awaitingStart) == w
  {
    w.(best := Improve(w.best, w.score), awaitingStart := true)
  }

  /** The frame callback: once the run is over it ends the game instead of ticking. */
  function Update(w: World, screen: Screen, u: real): (r: World)
    requires 0.0 <= u < 1.0
    ensures w.gameOver ==> r.frame == w.frame && r.pipes == w.pipes && r.score == w.score
                           && r.gameOver && r.awaitingStart && r.best >= w.score
    ensures !w.gameOver ==> r.frame == w.frame + 1 && r.awaitingStart == w.awaitingStart
    // the guard: a crashed world ends the game, a running one plays a frame
    ensures w.gameOver ==> r == EndGame(w)
    ensures !w.gameOver ==> r == Tick(w, screen, u)
    ensures r.best >= w.best
    ensures Valid(w) ==> Valid(r)
  {
    if w.gameOver then EndGame(w) else Tick(w, screen, u)
  }

  /** An input event the game listens to. */
  datatype Input = KeyDown(code: string) | TouchStart

  /** Only the Space key and a touch act on the game. */
  predicate Activates(i: Input) {
    i.TouchStart? || i.code == "Space"
  }

  /** A world in which an activation starts a new run rather than flapping. */
  predicate Restartable(w: World) {
    w.awaitingStart || w.gameOver
  }

  /** The world right after a start: one frame played from a fresh reset, so
      exactly one pipe has been spawned at the right edge and moved once. */
  predicate JustStarted(r: World, screen: Screen, best: nat) {
    && r.frame == 1 && r.score == 0 && r.level == 1
    && !r.awaitingStart && r.best == best
    && r.bird.x == screen.width as real / 6.0
    && |r.pipes| == 1
    && r.pipes[0].x == screen.width as real - (BaseSpeed + 1) as real
    && r.pipes[0].bottom - r.pipes[0].top == (BaseGap - GapShrink) as real
    && !r.pipes[0].passed
  }

  /** The activation handler: starting a run resets the world and plays its
      first frame at once; otherwise the bird flaps and nothing else changes. */
  function Activate(w: World, screen: Screen, input: Input, u: real): (r: World)
    requires 0.0 <= u < 1.0
    ensures !Activates(input) ==> r == w
    ensures Activates(input) && Restartable(w) ==> JustStarted(r, screen, w.best) && Valid(r)
    ensures Activates(input) && Restartable(w) && screen.height >= 41 ==>
              r.bird == Bird(screen.width as real / 6.0, screen.height as real / 2.0 + Gravity, Gravity)
    // on a canvas at least 29 wide and 41 tall the first frame of a run cannot crash
    ensures Activates(input) && Restartable(w) && screen.width >= 29 && screen.height >= 41 ==> !r.gameOver
    ensures Activates(input) && !Restartable(w) ==>
              r.bird.velocity == Lift && r.(bird := w.bird) == w
              && r.bird.x == w.bird.x && r.bird.y == w.bird.y
    ensures r.best == w.best
    ensures Valid(w) ==> Valid(r)
  {
    if !Activates(input) then w
    else if Restartable(w) then
      var s := StartGame(w, screen);
      var r := Tick(s, screen, u);
      assert JustStarted(r, screen, w.best) by { StartFirstFrame(s, screen, u); }
      r
    else
      w.(bird := w.bird.(velocity := Lift))
  }

  /** The first frame of a fresh run cannot score: the new pipe is still at the right edge. */
  lemma StartFirstFrame(s: World, screen: Screen, u: real)
    requires 0.0 <= u < 1.0
    requires Fresh(s, screen) && !s.awaitingStart
    ensures JustStarted(Tick(s, screen, u), screen, s.best)
  {
  }

  /** A restart does not depend on the run it replaces, only on the best score. */
  lemma RestartForgetsRun(w1: World, w2: World, screen: Screen, input: Input, u: real)
    requires 0.0 <= u < 1.0
    requires Activates(input) && Restartable(w1) && Restartable(w2) && w1.best == w2.best
    ensures Activate(w1, screen, input, u) == Activate(w2, screen, input, u)
  {
  }

  /** The best score after a sequence of finished runs, applying the end-of-run rule in turn. */
  function BestAfterRuns(best: nat, scores: seq<nat>): nat
    decreases |scores|
  {
    if scores == [] then best else BestAfterRuns(Improve(best, scores[0]), scores[1..])
  }

  /** Across runs the best score is the maximum of the stored value and every
      run's score: it never decreases, bounds every score and is one of them. */
  lemma {:induction false} BestIsMaximum(best: nat, scores: seq<nat>)
    ensures BestAfterRuns(best, scores) >= best
    ensures forall i :: 0 <= i < |scores| ==> BestAfterRuns(best, scores) >= scores[i]
    ensures BestAfterRuns(best, scores) == best || BestAfterRuns(best, scores) in scores
    decreases |scores|
  {
    if scores != [] {
      var b := Improve(best, scores[0]);
      BestIsMaximum(b, scores[1..]);
      forall i | 0 <= i < |scores|
        ensures BestAfterRuns(best, scores) >= scores[i]
      {
        if i > 0 { assert scores[i] == scores[1..][i - 1]; }
      }
      if BestAfterRuns(b, scores[1..]) in scores[1..] {
        var k :| 0 <= k < |scores[1..]| && scores[1..][k] == BestAfterRuns(b, scores[1..]);
        assert scores[k + 1] == BestAfterRuns(b, scores[1..]);
      }
    }
  }

  /** A stored best of 5, then runs of 7 and 3, leave the best at 7. */
  lemma BestAcrossTwoRuns()
    ensures BestAfterRuns(5, [7]) == 7
    ensures BestAfterRuns(5, [7, 3]) == 7
  {
  }
}
