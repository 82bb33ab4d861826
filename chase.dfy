/**
 * The game-state machine of the chaser game (Question/Game/game.js) as values:
 * a `Machine` holds every variable the script's handlers read or write, and one
 * function per handler gives the machine after that handler has run.
 *
 * The browser's animation-frame scheduler is part of the machine: `pending` is
 * the set of frame-request ids whose callback (always `gameLoop`) has not run
 * yet and was not cancelled, and `nextId` is the id the next request returns.
 * Ids start at 1, so `loopId == 0` stands for the script's `gameLoopId` while it
 * is still undefined.
 */
module Chase {
  import opened Geometry

  /** target.size, chaser.size and chaser.speed: never written by the script. */
  const TargetSize: real := 15.0
  const ChaserSize: real := 20.0
  const ChaserSpeed: real := 2.5
  /** Where startGame puts the chaser. */
  const ChaserStart: Point := Point(50.0, 50.0)
  /** Frames per second the score display assumes. */
  const FramesPerSecond: nat := 60
  /** Pre-move distance below which the game ends: target.size + chaser.size. */
  const MinDistance: real := TargetSize + ChaserSize

  datatype Machine = Machine(
    target: Point,       // target.x, target.y
    chaser: Point,       // chaser.x, chaser.y
    score: nat,          // frames counted since the last start
    over: bool,          // isGameOver
    finalSeconds: nat,   // the number shown in the final-score text
    loopId: nat,         // gameLoopId, 0 while undefined
    pending: set<nat>,   // frame requests not yet run nor cancelled
    nextId: nat          // the id the scheduler hands out next
  )

  /**
   * The invariant the handlers keep from the first startGame on: ids in use are
   * below nextId, and exactly one frame is pending while the game runs, none
   * once it is over.
   */
  predicate Valid(m: Machine) {
    && 0 < m.loopId < m.nextId
    && m.pending == if m.over then {} else {m.loopId}
  }

  /** The number in the per-frame score text: whole seconds at 60 frames per second. */
  function DisplayedSeconds(m: Machine): (s: nat)
    ensures s * FramesPerSecond <= m.score < (s + 1) * FramesPerSecond
  {
    m.score / FramesPerSecond
  }

  /** requestAnimationFrame(gameLoop) stored in gameLoopId: a fresh id is pending and remembered. */
  function RequestFrame(m: Machine): (r: Machine)
    ensures r.loopId == m.nextId && r.nextId > r.loopId
    // the id is fresh whenever every id handed out so far is below the counter
    ensures (forall id :: id in m.pending ==> id < m.nextId) ==> r.loopId !in m.pending
    ensures r.pending == m.pending + {r.loopId}
    ensures r.(loopId := m.loopId, pending := m.pending, nextId := m.nextId) == m
  {
    m.(loopId := m.nextId, pending := m.pending + {m.nextId}, nextId := m.nextId + 1)
  }

  /** cancelAnimationFrame(id): idempotent, harmless when nothing is pending under id. */
  function CancelFrame(m: Machine, id: nat): (r: Machine)
    ensures id !in r.pending && r.pending <= m.pending
    ensures forall other :: other != id ==> (other in r.pending <==> other in m.pending)
    ensures r.(pending := m.pending) == m
  {
    m.(pending := m.pending - {id})
  }

  /** The script's state once it has loaded, before its closing startGame() call. */
  function Loaded(targetX: real, targetY: real): (m: Machine)
    ensures m.target == Point(targetX, targetY) && m.chaser == ChaserStart
    ensures m.score == 0 && !m.over && m.loopId == 0 && m.pending == {}
  {
    Machine(Point(targetX, targetY), ChaserStart, 0, false, 0, 0, {}, 1)
  }

  /**
   * startGame: reset the score, the flag and the chaser, cancel the frame under
   * gameLoopId if it is defined, and request one new frame.
   */
  function StartGame(m: Machine): (r: Machine)
    ensures r.score == 0 && !r.over && r.chaser == ChaserStart
    ensures r.target == m.target && r.finalSeconds == m.finalSeconds
    ensures r.loopId == m.nextId && r.nextId == m.nextId + 1
    // a pending frame is replaced, never doubled: at most one is pending afterwards
    ensures m.loopId != 0 ==> r.pending == (m.pending - {m.loopId}) + {r.loopId}
    ensures m.pending <= {m.loopId} && 0 !in m.pending && m.loopId < m.nextId ==>
              Valid(r) && r.pending == {r.loopId}
  {
    var reset := m.(score := 0, over := false, chaser := ChaserStart);
    var cancelled := if reset.loopId != 0 then CancelFrame(reset, reset.loopId) else reset;
    RequestFrame(cancelled)
  }

  /** The page load followed by the script's startGame() call. */
  function Initial(targetX: real, targetY: real): (m: Machine)
    ensures Valid(m) && m.pending == {m.loopId}
    ensures m.target == Point(targetX, targetY) && m.chaser == ChaserStart && m.score == 0 && !m.over
  {
    StartGame(Loaded(targetX, targetY))
  }

  /** The mousemove handler: the target jumps to the pointer, nothing else changes. */
  function MouseMove(m: Machine, x: real, y: real): (r: Machine)
    ensures r.target.x == x && r.target.y == y
    ensures r.(target := m.target) == m
    ensures Valid(m) ==> Valid(r)
  {
    m.(target := Point(x, y))
  }

  /** endGame: cancel the frame under gameLoopId and show the score counted so far. */
  function EndGame(m: Machine): (r: Machine)
    ensures r.finalSeconds == DisplayedSeconds(m)
    ensures r.pending == m.pending - {m.loopId}
    ensures r.(pending := m.pending, finalSeconds := m.finalSeconds) == m
  {
    CancelFrame(m, m.loopId).(finalSeconds := m.score / FramesPerSecond)
  }

  /**
   * update, given `root`, the value Math.sqrt returns for the squared distance
   * from chaser to target. Nothing happens once the game is over. Otherwise the
   * chaser steps toward the target, the game ends if the distance measured
   * before the step was below MinDistance, and the frame is counted.
   */
  function Update(m: Machine, root: real): (r: Machine)
    requires !m.over ==> IsDistance(m.chaser, m.target, root)
    // after game over nothing changes
    ensures m.over ==> r == m
    // the target, the frame ids and the scheduler's counter are never written
    ensures r.target == m.target && r.loopId == m.loopId && r.nextId == m.nextId
    // one frame counted per live step, the final one included
    ensures !m.over ==> r.score == m.score + 1
    // the game ends exactly when the pre-move distance is strictly below 35
    ensures !m.over ==> (r.over <==> DistSq(m.chaser, m.target) < MinDistance * MinDistance)
    // movement: stay when on the target, else exactly ChaserSpeed along the unit vector toward it
    ensures !m.over && root == 0.0 ==> r.chaser == m.chaser
    ensures !m.over && root > 0.0 ==>
              DistSq(m.chaser, r.chaser) == ChaserSpeed * ChaserSpeed
              && (r.chaser.x - m.chaser.x) * root == (m.target.x - m.chaser.x) * ChaserSpeed
              && (r.chaser.y - m.chaser.y) * root == (m.target.y - m.chaser.y) * ChaserSpeed
    // the final score is taken before this step's increment, the frame's own display after it
    ensures !m.over && r.over ==>
              r.finalSeconds == m.score / FramesPerSecond && DisplayedSeconds(r) == (m.score + 1) / FramesPerSecond
    ensures !m.over && r.over ==> r.pending == m.pending - {m.loopId}
    ensures !r.over ==> r.finalSeconds == m.finalSeconds && r.pending == m.pending
    ensures Valid(m) ==> Valid(r)
  {
    if m.over then m
    else
      var moved := m.(chaser := Toward(m.chaser, m.target, root, ChaserSpeed));
      DistanceBelow(m.chaser, m.target, root, MinDistance);
      var checked := if root < MinDistance then EndGame(moved.(over := true)) else moved;
      checked.(score := checked.score + 1)
  }

  /**
   * A live step that does not end the game brings the chaser ChaserSpeed closer:
   * the pre-move distance was at least MinDistance, more than the step.
   */
  lemma UpdateApproaches(m: Machine, root: real)
    requires !m.over && IsDistance(m.chaser, m.target, root)
    requires !Update(m, root).over
    ensures IsDistance(Update(m, root).chaser, m.target, root - ChaserSpeed)
    ensures DistSq(Update(m, root).chaser, m.target) < DistSq(m.chaser, m.target)
  {
    DistanceBelow(m.chaser, m.target, root, MinDistance);
    SquareLess(root - ChaserSpeed, root);
  }

  /** gameLoop: update, then (after drawing) request the next frame unless the game is over. */
  function GameLoop(m: Machine, root: real): (r: Machine)
    requires !m.over ==> IsDistance(m.chaser, m.target, root)
    ensures r.over == Update(m, root).over && r.score == Update(m, root).score
    ensures r.target == m.target && r.chaser == Update(m, root).chaser
    ensures r.over ==> r == Update(m, root)
    ensures !r.over ==> r.pending == m.pending + {r.loopId} && r.loopId == m.nextId
    ensures !r.over ==> r.finalSeconds == Update(m, root).finalSeconds && r.nextId == m.nextId + 1
  {
    var u := Update(m, root);
    if !u.over then RequestFrame(u) else u
  }

  /**
   * An animation frame: if the request under gameLoopId is pending, the browser
   * drops it from the pending set and runs gameLoop. Under Valid that request is
   * the only pending one, so this is the whole frame.
   */
  function AnimationFrame(m: Machine, root: real): (r: Machine)
    requires m.loopId in m.pending && !m.over ==> IsDistance(m.chaser, m.target, root)
    ensures Valid(m) ==> Valid(r)
    ensures Valid(m) && m.over ==> r == m
    ensures Valid(m) && !m.over ==>
              r.score == m.score + 1 && r.chaser == Update(m, root).chaser
              && r.over == Update(m, root).over && r.finalSeconds == Update(m, root).finalSeconds
    // a frame that is not pending does nothing
    ensures m.loopId !in m.pending ==> r == m
    ensures r.target == m.target
  {
    if m.loopId in m.pending then GameLoop(m.(pending := m.pending - {m.loopId}), root) else m
  }

  /** The number shown at game over can lag the per-frame display by one second. */
  lemma FinalScoreLagsDisplay()
    ensures var m := Machine(Point(0.0, 0.0), Point(0.0, 0.0), 59, false, 0, 1, {1}, 2);
            var r := Update(m, 0.0);
            r.over && r.finalSeconds == 0 && DisplayedSeconds(r) == 1
  {
  }

  /** A pre-move distance of exactly MinDistance does not end the game: the test is strict. */
  lemma BoundaryDoesNotCollide(m: Machine)
    requires !m.over && IsDistance(m.chaser, m.target, MinDistance)
    ensures !Update(m, MinDistance).over
  {
  }

  /** A chaser already on the target stays where it is, and that frame ends the game. */
  lemma OnTargetEndsGame(m: Machine, root: real)
    requires !m.over && m.chaser == m.target && IsDistance(m.chaser, m.target, root)
    ensures Update(m, root).chaser == m.chaser && Update(m, root).over
  {
    SelfDistance(m.chaser, root);
  }

  /**
   * On the frame that ends the game its own request was already consumed, so
   * the cancel in endGame finds nothing pending: the loop stops because gameLoop
   * requests no further frame.
   */
  lemma FinalFrameCancelsNothing(m: Machine, root: real)
    requires Valid(m) && !m.over && IsDistance(m.chaser, m.target, root)
    requires AnimationFrame(m, root).over
    ensures var consumed := m.(pending := m.pending - {m.loopId});
            var moved := consumed.(chaser := Update(m, root).chaser, over := true);
            CancelFrame(moved, moved.loopId).pending == moved.pending
    ensures AnimationFrame(m, root).nextId == m.nextId && AnimationFrame(m, root).pending == {}
  {
  }

  /**
   * Any step from a positive distance below MinDistance ends the game, yet from
   * ChaserSpeed on it still brings the chaser ChaserSpeed closer.
   */
  lemma EndingStepShrinks(m: Machine, root: real)
    requires !m.over && IsDistance(m.chaser, m.target, root)
    requires ChaserSpeed <= root < MinDistance
    ensures Update(m, root).over
    ensures IsDistance(Update(m, root).chaser, m.target, root - ChaserSpeed)
    ensures DistSq(Update(m, root).chaser, m.target) < DistSq(m.chaser, m.target)
  {
    DistanceBelow(m.chaser, m.target, root, MinDistance);
    SquareLess(root - ChaserSpeed, root);
  }

  /**
   * From a distance below half a step the chaser overshoots so far that it ends
   * farther from the target than it started; that step always ends the game.
   */
  lemma OvershootGrows(m: Machine, root: real)
    requires !m.over && IsDistance(m.chaser, m.target, root) && 0.0 < root < ChaserSpeed / 2.0
    ensures Update(m, root).over
    ensures DistSq(Update(m, root).chaser, m.target) > DistSq(m.chaser, m.target)
  {
    DistanceBelow(m.chaser, m.target, root, MinDistance);
    SquareLess(root, ChaserSpeed - root);
  }
}
