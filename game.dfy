/**
 * The script of Question/Game/game.js as an object: its top-level variables
 * are the fields, each handler is a method that updates them in place, and the
 * browser's animation-frame scheduler is represented by the fields `pending`
 * and `nextFrameId`. Every method is proved to leave the object in the state
 * the matching function of Chase computes from the state before the call, so
 * the properties proved about Chase and ChaseRuns hold for the object.
 */
module Game {
  import opened Geometry
  import opened Chase

  class Game {
    var targetX: real
    var targetY: real
    var chaserX: real
    var chaserY: real
    var score: nat
    var isGameOver: bool
    /** The number written into the final-score text by endGame. */
    var finalSeconds: nat
    /** The id of the latest frame request, 0 while none was made. */
    var gameLoopId: nat
    /** Frame requests whose callback has neither run nor been cancelled. */
    var pending: set<nat>
    /** The id the scheduler hands out on the next request. */
    var nextFrameId: nat

    /** The object's state as a value of the pure model. */
    function Snapshot(): Machine
      reads this
    {
      Machine(Point(targetX, targetY), Point(chaserX, chaserY), score, isGameOver,
              finalSeconds, gameLoopId, pending, nextFrameId)
    }

    predicate Valid()
      reads this
    {
      Chase.Valid(Snapshot())
    }

    /** Loading the page: the variables get their initial values, then startGame() runs. */
    constructor (initialTargetX: real, initialTargetY: real)
      ensures Snapshot() == Initial(initialTargetX, initialTargetY)
      ensures Valid() && pending == {gameLoopId}
    {
      targetX, targetY := initialTargetX, initialTargetY;
      chaserX, chaserY := 50.0, 50.0;
      score := 0;
      isGameOver := false;
      finalSeconds := 0;
      gameLoopId := 0;
      pending := {};
      nextFrameId := 1;
      new;
      StartGame();
    }

    /** gameLoopId = requestAnimationFrame(gameLoop) */
    method RequestFrame()
      modifies this
      ensures Snapshot() == Chase.RequestFrame(old(Snapshot()))
    {
      var id := nextFrameId;
      nextFrameId := nextFrameId + 1;
      pending := pending + {id};
      gameLoopId := id;
    }

    /** cancelAnimationFrame(id) */
    method CancelFrame(id: nat)
      modifies this
      ensures Snapshot() == Chase.CancelFrame(old(Snapshot()), id)
    {
      pending := pending - {id};
    }

    /** The mousemove listener: the pointer's canvas coordinates become the target. */
    method MouseMove(offsetX: real, offsetY: real)
      modifies this
      ensures Snapshot() == Chase.MouseMove(old(Snapshot()), offsetX, offsetY)
      ensures old(Valid()) ==> Valid()
    {
      targetX := offsetX;
      targetY := offsetY;
    }

    method StartGame()
      modifies this
      ensures Snapshot() == Chase.StartGame(old(Snapshot()))
      ensures old(Valid()) ==> Valid()
    {
      score := 0;
      isGameOver := false;
      chaserX := 50.0;
      chaserY := 50.0;
      if gameLoopId != 0 {
        CancelFrame(gameLoopId);
      }
      RequestFrame();
    }

    method EndGame()
      modifies this
      ensures Snapshot() == Chase.EndGame(old(Snapshot()))
    {
      CancelFrame(gameLoopId);
      finalSeconds := score / FramesPerSecond;
    }

    /** update, with `root` the value Math.sqrt returns for dx * dx + dy * dy. */
    method Update(root: real)
      requires !isGameOver ==> IsDistance(Point(chaserX, chaserY), Point(targetX, targetY), root)
      modifies this
      ensures Snapshot() == Chase.Update(old(Snapshot()), root)
      ensures old(Valid()) ==> Valid()
    {
      if isGameOver {
        return;
      }
      var dx := targetX - chaserX;
      var dy := targetY - chaserY;
      var distance := root;
      if distance > 0.0 {
        var unitX := dx / distance;
        var unitY := dy / distance;
        chaserX := chaserX + unitX * ChaserSpeed;
        chaserY := chaserY + unitY * ChaserSpeed;
      }
      if distance < TargetSize + ChaserSize {
        isGameOver := true;
        EndGame();
      }
      score := score + 1;
    }

    /** gameLoop: update, draw (left out), and request the next frame unless the game ended. */
    method GameLoop(root: real)
      requires !isGameOver ==> IsDistance(Point(chaserX, chaserY), Point(targetX, targetY), root)
      modifies this
      ensures Snapshot() == Chase.GameLoop(old(Snapshot()), root)
    {
      Update(root);
      if !isGameOver {
        RequestFrame();
      }
    }

    /**
     * The browser runs the frame requested under gameLoopId, if it is still
     * pending: the request is consumed and gameLoop runs. `fired` tells whether
     * it ran.
     */
    method AnimationFrame(root: real) returns (fired: bool)
      requires gameLoopId in pending && !isGameOver ==>
                 IsDistance(Point(chaserX, chaserY), Point(targetX, targetY), root)
      modifies this
      ensures fired == (old(gameLoopId) in old(pending))
      ensures Snapshot() == Chase.AnimationFrame(old(Snapshot()), root)
      ensures old(Valid()) ==> Valid()
    {
      fired := gameLoopId in pending;
      if fired {
        pending := pending - {gameLoopId};
        GameLoop(root);
      }
    }
  }
}
