/**
 The game as the browser drives it: the world together with the number of
 frame callbacks queued with the host. `update` re-queues itself after every
 tick and stops once it has ended the game; starting a run calls `update`
 directly, which queues a callback of its own.

 The activation handler as written restarts whenever the game-over flag is
 set, including during the one frame between the tick that crashed and the
 callback that ends the game. A restart there leaves the old callback queued
 beside the new one, and the crashed run never reaches the best-score update.
 `PressGuarded` restarts only once the game has ended, and is the handler the
 event loop `Run` uses.
 */
module Session {
  import opened GameState
  import Game

  /** The world and the number of frame callbacks queued with the browser. */
  datatype Host = Host(world: World, pending: nat)

  type Input = Game.Input

  /** Page load: read the stored best score and reset, with nothing queued. */
  function Boot(screen: Screen, stored: Option<nat>): (s: Host)
    ensures s.pending == 0 && s.world.awaitingStart
    ensures Game.Fresh(s.world, screen) && s.world.best == Game.InitialBest(stored)
    ensures SingleLoop(s) && Valid(s.world)
  {
    Host(Game.InitGame(screen, Game.InitialBest(stored)), 0)
  }

  /** At most one callback is queued, and one is queued exactly while a run is
      in progress (not waiting for a start). */
  predicate SingleLoop(s: Host) {
    s.pending <= 1 && (s.pending == 0 <==> s.world.awaitingStart)
  }

  /** One call of `update`: it queues the next frame unless it ended the game. */
  function RunUpdate(s: Host, screen: Screen, u: real): (r: Host)
    requires 0.0 <= u < 1.0
    ensures r.pending == s.pending + (if s.world.gameOver then 0 else 1)
    ensures s.world.gameOver ==> r.world.awaitingStart && r.world.best >= s.world.score
    ensures r.world.best >= s.world.best
    ensures Valid(s.world) ==> Valid(r.world)
  {
    Host(Game.Update(s.world, screen, u), if s.world.gameOver then s.pending else s.pending + 1)
  }

  /** The host runs one queued callback. */
  function FireCallback(s: Host, screen: Screen, u: real): (r: Host)
    requires 0.0 <= u < 1.0
    requires s.pending > 0
    ensures SingleLoop(s) ==> SingleLoop(r)
    ensures r.world.best >= s.world.best
    ensures s.world.gameOver ==> r.world.best >= s.world.score && r.pending == s.pending - 1
    ensures Valid(s.world) ==> Valid(r.world)
  {
    RunUpdate(s.(pending := s.pending - 1), screen, u)
  }

  /** The activation handler as written: a restart calls `update` directly. */
  function Press(s: Host, screen: Screen, input: Input, u: real): (r: Host)
    requires 0.0 <= u < 1.0
    ensures r.world == Game.Activate(s.world, screen, input, u)
    ensures r.pending == s.pending + (if Game.Activates(input) && Game.Restartable(s.world) then 1 else 0)
  {
    var w := Game.Activate(s.world, screen, input, u);
    if Game.Activates(input) && Game.Restartable(s.world) then Host(w, s.pending + 1)
    else s.(world := w)
  }

  /** The world has crashed but its last queued callback has not ended the game yet. */
  predicate CrashPending(s: Host) {
    s.world.gameOver && !s.world.awaitingStart
  }

  /** As written, activating in the crash-pending frame queues a second frame
      loop, and the crashed run's score is not recorded by the next callback. */
  lemma PressInCrashWindow(s: Host, screen: Screen, input: Input, u: real)
    requires 0.0 <= u < 1.0
    requires SingleLoop(s) && CrashPending(s) && Game.Activates(input)
    requires s.world.score > s.world.best
    ensures Press(s, screen, input, u).pending == 2
    ensures !SingleLoop(Press(s, screen, input, u))
    ensures FireCallback(Press(s, screen, input, u), screen, u).world.best == s.world.best < s.world.score
  {
  }

  /** Outside the crash-pending frame the handler as written keeps a single loop. */
  lemma PressKeepsSingleLoop(s: Host, screen: Screen, input: Input, u: real)
    requires 0.0 <= u < 1.0
    requires SingleLoop(s) && !CrashPending(s)
    ensures SingleLoop(Press(s, screen, input, u))
  {
  }

  /** The corrected handler: start a run only once the game has ended (or
      before the first run), flap during a run, and ignore the input in the
      frame between a crash and the end of the game. */
  function PressGuarded(s: Host, screen: Screen, input: Input, u: real): (r: Host)
    requires 0.0 <= u < 1.0
    ensures SingleLoop(s) ==> SingleLoop(r)
    ensures r.world.best == s.world.best
    ensures Valid(s.world) ==> Valid(r.world)
    // a pending crash is left untouched for the next callback to record
    ensures CrashPending(s) ==> r == s
    // outside the crash-pending frame it behaves exactly as the handler as written
    ensures !CrashPending(s) ==> r == Press(s, screen, input, u)
  {
    if Game.Activates(input) && s.world.awaitingStart then
      Host(Game.Activate(s.world, screen, input, u), s.pending + 1)
    else if Game.Activates(input) && !s.world.gameOver then
      s.(world := s.world.(bird := s.world.bird.(velocity := Lift)))
    else s
  }

  /** With the guarded handler, whatever is pressed in the crash-pending
      frame, the next callback ends the game and records the crashed score. */
  lemma GuardedRecordsCrash(s: Host, screen: Screen, input: Input, u: real, v: real)
    requires 0.0 <= u < 1.0 && 0.0 <= v < 1.0
    requires SingleLoop(s) && CrashPending(s)
    ensures PressGuarded(s, screen, input, u).pending == 1
    ensures FireCallback(PressGuarded(s, screen, input, u), screen, v).world.best >= s.world.score
    ensures FireCallback(PressGuarded(s, screen, input, u), screen, v).world.awaitingStart
    ensures FireCallback(PressGuarded(s, screen, input, u), screen, v).pending == 0
  {
  }

  /** What the browser delivers: a queued frame callback becoming due, or an input. */
  datatype Event = Frame(screen: Screen, u: real) | Pressed(screen: Screen, input: Input, u: real)

  predicate WellFormed(e: Event) {
    0.0 <= e.u < 1.0
  }

  /** One event with the corrected handler; a frame with no callback queued does nothing. */
  function Step(s: Host, e: Event): (r: Host)
    requires WellFormed(e)
    ensures SingleLoop(s) ==> SingleLoop(r)
    ensures Valid(s.world) ==> Valid(r.world)
    ensures r.world.best >= s.world.best
  {
    match e
    case Frame(screen, u) => if s.pending > 0 then FireCallback(s, screen, u) else s
    case Pressed(screen, input, u) => PressGuarded(s, screen, input, u)
  }

  /** One event with the handler as written. */
  function StepAsWritten(s: Host, e: Event): (r: Host)
    requires WellFormed(e)
    ensures Valid(s.world) ==> Valid(r.world)
    ensures r.world.best >= s.world.best
  {
    match e
    case Frame(screen, u) => if s.pending > 0 then FireCallback(s, screen, u) else s
    case Pressed(screen, input, u) => Press(s, screen, input, u)
  }

  /** A whole session with the handler as written. */
  function RunAsWritten(s: Host, events: seq<Event>): Host
    requires forall i :: 0 <= i < |events| ==> WellFormed(events[i])
    decreases |events|
  {
    if events == [] then s else RunAsWritten(StepAsWritten(s, events[0]), events[1..])
  }

  /** Even with the handler as written, over any sequence of events the level
      follows the score, every pipe stays well shaped and the best score never
      decreases; only the single-loop property can be lost. */
  lemma {:induction false} RunAsWrittenKeepsValid(s: Host, events: seq<Event>)
    requires forall i :: 0 <= i < |events| ==> WellFormed(events[i])
    requires Valid(s.world)
    ensures Valid(RunAsWritten(s, events).world)
    ensures RunAsWritten(s, events).world.best >= s.world.best
    decreases |events|
  {
    if events != [] {
      assert forall i :: 0 <= i < |events[1..]| ==> WellFormed(events[1..][i]) by {
        forall i | 0 <= i < |events[1..]| ensures WellFormed(events[1..][i]) {
          assert events[1..][i] == events[i + 1];
        }
      }
      RunAsWrittenKeepsValid(StepAsWritten(s, events[0]), events[1..]);
    }
  }

  /** A whole session with the corrected handler: the events in order. */
  function Run(s: Host, events: seq<Event>): Host
    requires forall i :: 0 <= i < |events| ==> WellFormed(events[i])
    decreases |events|
  {
    if events == [] then s else Run(Step(s, events[0]), events[1..])
  }

  /** Over any sequence of events, a single frame loop runs, the level follows
      the score, every pipe stays well shaped and the best score never decreases. */
  lemma {:induction false} RunKeepsInvariants(s: Host, events: seq<Event>)
    requires forall i :: 0 <= i < |events| ==> WellFormed(events[i])
    requires SingleLoop(s) && Valid(s.world)
    ensures SingleLoop(Run(s, events)) && Valid(Run(s, events).world)
    ensures Run(s, events).world.best >= s.world.best
    decreases |events|
  {
    if events != [] {
      var s1 := Step(s, events[0]);
      assert forall i :: 0 <= i < |events[1..]| ==> WellFormed(events[1..][i]) by {
        forall i | 0 <= i < |events[1..]| ensures WellFormed(events[1..][i]) {
          assert events[1..][i] == events[i + 1];
        }
      }
      RunKeepsInvariants(s1, events[1..]);
    }
  }

  /** From page load, every session keeps a single loop and the invariants,
      and the best score never falls below the stored one. */
  lemma BootedRunKeepsInvariants(screen: Screen, stored: Option<nat>, events: seq<Event>)
    requires forall i :: 0 <= i < |events| ==> WellFormed(events[i])
    ensures SingleLoop(Run(Boot(screen, stored), events))
    ensures Valid(Run(Boot(screen, stored), events).world)
    ensures Run(Boot(screen, stored), events).world.best >= Game.InitialBest(stored)
  {
    RunKeepsInvariants(Boot(screen, stored), events);
  }
}
