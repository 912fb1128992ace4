/**
 One tick of bird physics: gravity is added to the velocity, the velocity to
 the height, then the bird is clamped to the canvas. The floor is lethal, the
 ceiling only stops the bird.
 */
module Physics {
  import opened GameState

  /** Height the bird would reach this tick if nothing clamped it. */
  function FreeFall(b: Bird): real {
    b.y + b.velocity + Gravity
  }

  predicate HitsFloor(b: Bird, screen: Screen) {
    FreeFall(b) + Radius > screen.height as real
  }

  function UpdateBird(w: World, screen: Screen): (r: World)
    // only the bird and the game-over flag change, and the bird keeps its column
    ensures r.(bird := w.bird, gameOver := w.gameOver) == w
    ensures r.bird.x == w.bird.x
    // the floor ends the run; nothing else sets or clears the flag here
    ensures r.gameOver <==> w.gameOver || HitsFloor(w.bird, screen)
    // the bird never ends above the ceiling
    ensures r.bird.y >= Radius
    // on a canvas at least one bird tall it also never ends below the floor
    ensures screen.height as real >= 2.0 * Radius ==> r.bird.y <= screen.height as real - Radius
    // a floor hit rests the bird on the floor
    ensures screen.height as real >= 2.0 * Radius && HitsFloor(w.bird, screen) ==>
              r.bird.y == screen.height as real - Radius && r.bird.velocity == w.bird.velocity + Gravity
    // a ceiling hit stops the bird at the ceiling
    ensures FreeFall(w.bird) - Radius < 0.0 ==> r.bird.y == Radius && r.bird.velocity == 0.0
    // the velocity is either the accelerated one or zero after the ceiling clamp
    ensures r.bird.velocity == w.bird.velocity + Gravity || (r.bird.velocity == 0.0 && r.bird.y == Radius)
    // inside the canvas the bird moves freely
    ensures Radius <= FreeFall(w.bird) <= screen.height as real - Radius ==>
              r.bird.velocity == w.bird.velocity + Gravity && r.bird.y == w.bird.y + r.bird.velocity
  {
    var v := w.bird.velocity + Gravity;
    var y := w.bird.y + v;
    var h := screen.height as real;
    var floored := if y + Radius > h then h - Radius else y;
    var over := w.gameOver || y + Radius > h;
    var b := if floored - Radius < 0.0 then w.bird.(y := Radius, velocity := 0.0)
             else w.bird.(y := floored, velocity := v);
    w.(bird := b, gameOver := over)
  }
}
