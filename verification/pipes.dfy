/**
 One tick of the pipes: a new pipe every ninety frames, then every pipe
 scrolls left by its own speed and is checked, in list order, for a collision
 with the bird and for being passed; last, the pipes that have left the canvas
 are dropped.
 */
module Pipes {
  import opened GameState

  /** The pipe spawned at `level`; `u` is the `Math.random()` draw in [0, 1)
      that places the gap in the upper half of the canvas. */
  function NewPipe(screen: Screen, level: nat, u: real): (p: Pipe)
    requires 0.0 <= u < 1.0
    ensures p.x == screen.width as real && p.width == PipeWidth && !p.passed
    ensures p.bottom - p.top == Gap(level) as real
    ensures p.speed == (BaseSpeed + level) as real
    ensures 0.0 <= p.top && (screen.height > 0 ==> p.top < screen.height as real / 2.0)
  {
    var half := screen.height as real / 2.0;
    var top := u * half;
    assert top <= half by { assert (1.0 - u) * half >= 0.0; }
    assert screen.height > 0 ==> top < half by {
      if screen.height > 0 { assert (1.0 - u) * half > 0.0; }
    }
    Pipe(screen.width as real, PipeWidth, top, top + Gap(level) as real, (BaseSpeed + level) as real, false)
  }

  /** A pipe spawned at a level of at least one has a gap of 90 to 140 pixels
      and a speed of at least 4. */
  lemma NewPipeWellShaped(screen: Screen, level: nat, u: real)
    requires 0.0 <= u < 1.0
    requires level >= 1
    ensures WellShaped(NewPipe(screen, level, u), level)
  {
  }

  /** The pipe list after the spawn step of a tick at `frame`. */
  function Spawn(ps: seq<Pipe>, frame: nat, level: nat, screen: Screen, u: real): (r: seq<Pipe>)
    requires 0.0 <= u < 1.0
    ensures frame % SpawnInterval != 0 ==> r == ps
    ensures frame % SpawnInterval == 0 ==>
              |r| == |ps| + 1 && r[..|ps|] == ps && r[|ps|] == NewPipe(screen, level, u)
  {
    if frame % SpawnInterval == 0 then ps + [NewPipe(screen, level, u)] else ps
  }

  /** The bird's box strictly overlaps the pipe horizontally and reaches
      outside the gap vertically. */
  predicate Hits(b: Bird, p: Pipe) {
    && b.x + Radius > p.x
    && b.x - Radius < p.x + p.width
    && (b.y - Radius < p.top || b.y + Radius > p.bottom)
  }

  /** The pipe has not been scored yet and its trailing edge is behind the bird. */
  predicate Crosses(b: Bird, p: Pipe) {
    !p.passed && p.x + p.width < b.x
  }

  predicate OnScreen(p: Pipe) {
    p.x + p.width > 0.0
  }

  /** The running score, level and crash flag threaded through the pipe loop. */
  datatype Tally = Tally(score: nat, level: nat, crashed: bool)

  /** One point scored: the level goes up when the new score is a multiple of ten. */
  function ScorePoint(t: Tally): (r: Tally)
    ensures r.score == t.score + 1 && r.crashed == t.crashed
    ensures r.level == t.level || r.level == t.level + 1
    ensures r.level == t.level + 1 <==> r.score % PointsPerLevel == 0
    ensures t.level == LevelFor(t.score) ==> r.level == LevelFor(r.score)
  {
    var s := t.score + 1;
    assert LevelFor(s) == LevelFor(t.score) + (if s % PointsPerLevel == 0 then 1 else 0);
    Tally(s, if s % PointsPerLevel == 0 then t.level + 1 else t.level, t.crashed)
  }

  /** The body of the pipe loop for one pipe: scroll it, test the collision,
      then score it if it was just passed. */
  function StepPipe(b: Bird, p: Pipe, t: Tally): (r: (Pipe, Tally))
    ensures r.0 == p.(x := p.x - p.speed, passed := r.0.passed)
    ensures r.0.passed <==> p.passed || r.0.x + r.0.width < b.x
    ensures r.1.crashed <==> t.crashed || Hits(b, r.0)
    ensures r.1.score == t.score + (if !p.passed && r.0.passed then 1 else 0)
    ensures t.level <= r.1.level
    ensures t.level == LevelFor(t.score) ==> r.1.level == LevelFor(r.1.score)
  {
    var moved := p.(x := p.x - p.speed);
    var t1 := t.(crashed := t.crashed || Hits(b, moved));
    if Crosses(b, moved) then (moved.(passed := true), ScorePoint(t1)) else (moved, t1)
  }

  /** Number of positions where a pipe went from unscored to scored. */
  function NewlyPassed(before: seq<Pipe>, after: seq<Pipe>): nat
    requires |before| == |after|
  {
    if before == [] then 0
    else (if !before[0].passed && after[0].passed then 1 else 0) + NewlyPassed(before[1..], after[1..])
  }

  /** Number of pipes not scored yet. */
  function Unpassed(ps: seq<Pipe>): nat {
    if ps == [] then 0 else (if ps[0].passed then 0 else 1) + Unpassed(ps[1..])
  }

  /** The whole pipe loop, in list order. */
  function ScrollPipes(b: Bird, ps: seq<Pipe>, t: Tally): (r: (seq<Pipe>, Tally))
    decreases |ps|
    ensures |r.0| == |ps|
    // each pipe moved left by exactly its own speed; nothing but `passed` changed
    ensures forall i :: 0 <= i < |ps| ==> r.0[i] == ps[i].(x := ps[i].x - ps[i].speed, passed := r.0[i].passed)
    // a pipe is scored once its trailing edge is behind the bird, and stays scored
    ensures forall i :: 0 <= i < |ps| ==> (r.0[i].passed <==> ps[i].passed || r.0[i].x + r.0[i].width < b.x)
    // a collision with any moved pipe ends the run; the flag is never cleared
    ensures r.1.crashed <==> t.crashed || exists i :: 0 <= i < |r.0| && Hits(b, r.0[i])
    // the score grows by the number of pipes newly passed
    ensures r.1.score == t.score + NewlyPassed(ps, r.0)
    // each point uses up one unscored pipe: scoring happens once per pipe
    ensures r.1.score + Unpassed(r.0) == t.score + Unpassed(ps)
    ensures t.level <= r.1.level
    ensures t.level == LevelFor(t.score) ==> r.1.level == LevelFor(r.1.score)
  {
    if ps == [] then ([], t)
    else
      var (p, t1) := StepPipe(b, ps[0], t);
      var (rest, t2) := ScrollPipes(b, ps[1..], t1);
      var out := [p] + rest;
      assert out[1..] == rest;
      assert forall i :: 1 <= i < |out| ==> out[i] == rest[i - 1];
      assert (exists i :: 0 <= i < |out| && Hits(b, out[i])) <==>
             Hits(b, p) || exists i :: 0 <= i < |rest| && Hits(b, rest[i]) by {
        if exists i :: 0 <= i < |rest| && Hits(b, rest[i]) {
          var i :| 0 <= i < |rest| && Hits(b, rest[i]);
          assert out[i + 1] == rest[i];
        }
        if exists i :: 0 <= i < |out| && Hits(b, out[i]) {
          var i :| 0 <= i < |out| && Hits(b, out[i]);
          if i > 0 {
            assert rest[i - 1] == out[i];
          } else {
            assert out[0] == p;
          }
        }
        if Hits(b, p) {
          assert out[0] == p;
        }
      }
      (out, t2)
  }

  /** A tick can score at most the pipes not scored yet, and pipes that have
      all been scored already score nothing more. */
  lemma ScoreOncePerPipe(b: Bird, ps: seq<Pipe>, t: Tally)
    ensures ScrollPipes(b, ps, t).1.score <= t.score + Unpassed(ps)
    ensures (forall i :: 0 <= i < |ps| ==> ps[i].passed) ==> ScrollPipes(b, ps, t).1.score == t.score
  {
  }

  /** Scoring the tenth point at level one moves to level two, whose pipes
      have a gap of 130. */
  lemma LevelTwoAtTen(crashed: bool)
    ensures ScorePoint(Tally(9, 1, crashed)) == Tally(10, 2, crashed)
    ensures Gap(2) == 130
  {
  }

  /** The filter at the end of the tick: keep the pipes still (partly) on screen. */
  function Prune(ps: seq<Pipe>): (r: seq<Pipe>)
    ensures |r| <= |ps|
    ensures forall i :: 0 <= i < |r| ==> OnScreen(r[i])
    ensures forall p :: p in r <==> p in ps && OnScreen(p)
  {
    if ps == [] then []
    else (if OnScreen(ps[0]) then [ps[0]] else []) + Prune(ps[1..])
  }

  /** Pruning respects concatenation, so the survivors keep their relative order. */
  lemma {:induction false} PruneAppend(a: seq<Pipe>, b: seq<Pipe>)
    ensures Prune(a + b) == Prune(a) + Prune(b)
    decreases |a|
  {
    if a == [] {
      assert a + b == b;
    } else {
      assert (a + b)[0] == a[0];
      assert (a + b)[1..] == a[1..] + b;
      PruneAppend(a[1..], b);
    }
  }

  /** A list whose pipes are all on screen is left as it is. */
  lemma {:induction false} PruneKeepsOnScreen(ps: seq<Pipe>)
    requires forall i :: 0 <= i < |ps| ==> OnScreen(ps[i])
    ensures Prune(ps) == ps
    decreases |ps|
  {
    if ps != [] {
      PruneKeepsOnScreen(ps[1..]);
      assert [ps[0]] + ps[1..] == ps;
    }
  }

  /** The pipe list, score, level and game-over flag after one tick of the pipes. */
  function UpdatePipes(w: World, screen: Screen, u: real): (r: World)
    requires 0.0 <= u < 1.0
    // only the pipes, the score, the level and the game-over flag change
    ensures r.(pipes := w.pipes, score := w.score, level := w.level, gameOver := w.gameOver) == w
    ensures w.gameOver ==> r.gameOver
    ensures w.score <= r.score && w.level <= r.level
    ensures forall i :: 0 <= i < |r.pipes| ==> OnScreen(r.pipes[i])
    ensures |r.pipes| <= |w.pipes| + (if w.frame % SpawnInterval == 0 then 1 else 0)
    ensures Valid(w) ==> Valid(r)
    // the score, the crash flag and the surviving pipes follow the scrolled list
    ensures var sp := Spawn(w.pipes, w.frame, w.level, screen, u);
            var m := ScrollPipes(w.bird, sp, Tally(w.score, w.level, w.gameOver));
            && r.score == w.score + NewlyPassed(sp, m.0)
            && (r.gameOver <==> w.gameOver || exists i :: 0 <= i < |m.0| && Hits(w.bird, m.0[i]))
            && (forall p :: p in r.pipes <==> p in m.0 && OnScreen(p))
            && r.pipes == Prune(m.0)
  {
    var spawned := Spawn(w.pipes, w.frame, w.level, screen, u);
    var (moved, t) := ScrollPipes(w.bird, spawned, Tally(w.score, w.level, w.gameOver));
    var r := w.(pipes := Prune(moved), score := t.score, level := t.level, gameOver := t.crashed);
    assert Valid(w) ==> Valid(r) by {
      if Valid(w) {
        forall i | 0 <= i < |spawned|
          ensures WellShaped(spawned[i], t.level)
        {
          if i < |w.pipes| {
            assert spawned[i] == w.pipes[i];
          } else {
            NewPipeWellShaped(screen, w.level, u);
          }
        }
        forall i | 0 <= i < |r.pipes|
          ensures WellShaped(r.pipes[i], r.level)
        {
          assert r.pipes[i] in moved;
          var j :| 0 <= j < |moved| && moved[j] == r.pipes[i];
          assert WellShaped(spawned[j], t.level);
        }
      }
    }
    r
  }
}
