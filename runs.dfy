/**
 * Sequences of the events the page reacts to: pointer moves, animation frames
 * and restarts (a call of startGame). The lemmas here are about whole runs of
 * the machine in Chase, proved by induction over the event sequence.
 */
module ChaseRuns {
  import opened Geometry
  import opened Chase

  /**
   * One event. A frame carries `root`, what Math.sqrt returns when that frame's
   * update measures the distance from chaser to target.
   */
  datatype Event = PointerMove(x: real, y: real) | Frame(root: real) | Restart

  /** A frame's root must be the distance the update will measure, if it measures one. */
  predicate Admissible(m: Machine, e: Event) {
    e.Frame? && m.loopId in m.pending && !m.over ==> IsDistance(m.chaser, m.target, e.root)
  }

  function Apply(m: Machine, e: Event): (r: Machine)
    requires Admissible(m, e)
    ensures Valid(m) ==> Valid(r)
  {
    match e
    case PointerMove(x, y) => MouseMove(m, x, y)
    case Frame(root) => AnimationFrame(m, root)
    case Restart => StartGame(m)
  }

  predicate AdmissibleRun(m: Machine, es: seq<Event>)
    decreases |es|
  {
    es == [] || (Admissible(m, es[0]) && AdmissibleRun(Apply(m, es[0]), es[1..]))
  }

  function Run(m: Machine, es: seq<Event>): Machine
    requires AdmissibleRun(m, es)
    decreases |es|
  {
    if es == [] then m else Run(Apply(m, es[0]), es[1..])
  }

  predicate NoRestart(es: seq<Event>) {
    forall i :: 0 <= i < |es| ==> !es[i].Restart?
  }

  /** How many animation frames the sequence holds. */
  function FrameCount(es: seq<Event>): nat
    decreases |es|
  {
    if es == [] then 0 else (if es[0].Frame? then 1 else 0) + FrameCount(es[1..])
  }

  /** Where the last pointer move of es puts the target, p if there is none. */
  function LastPointer(p: Point, es: seq<Event>): Point
    decreases |es|
  {
    if es == [] then p
    else LastPointer(if es[0].PointerMove? then Point(es[0].x, es[0].y) else p, es[1..])
  }

  /** Every run keeps the invariant: never more than one frame pending, none after game over. */
  lemma {:induction false} RunKeepsValid(m: Machine, es: seq<Event>)
    requires Valid(m) && AdmissibleRun(m, es)
    ensures Valid(Run(m, es))
    decreases |es|
  {
    if es != [] {
      RunKeepsValid(Apply(m, es[0]), es[1..]);
    }
  }

  /** Once the game is over, only a restart changes the chaser, the score or the final score. */
  lemma {:induction false} OverIsFrozen(m: Machine, es: seq<Event>)
    requires Valid(m) && m.over && AdmissibleRun(m, es) && NoRestart(es)
    ensures var r := Run(m, es);
            r.over && r.pending == {} && r.chaser == m.chaser && r.score == m.score
            && r.finalSeconds == m.finalSeconds
    decreases |es|
  {
    if es != [] {
      assert !es[0].Restart?;
      OverIsFrozen(Apply(m, es[0]), es[1..]);
    }
  }

  /**
   * Without a restart the score grows by at most one per frame, and by exactly
   * one per frame as long as the game has not ended.
   */
  lemma {:induction false} ScoreCountsFrames(m: Machine, es: seq<Event>)
    requires Valid(m) && AdmissibleRun(m, es) && NoRestart(es)
    ensures Run(m, es).score <= m.score + FrameCount(es)
    ensures !Run(m, es).over ==> Run(m, es).score == m.score + FrameCount(es)
    decreases |es|
  {
    if es != [] {
      var m' := Apply(m, es[0]);
      assert !es[0].Restart?;
      assert es[0].Frame? ==> m'.score == m.score + (if m.over then 0 else 1);
      assert !es[0].Frame? ==> m'.score == m.score && m'.over == m.over;
      ScoreCountsFrames(m', es[1..]);
      if !Run(m, es).over && m.over {
        OverIsFrozen(m, es);
      }
    }
  }

  /** The target is wherever the last pointer move put it: last value wins, nothing else writes it. */
  lemma {:induction false} TargetFollowsPointer(m: Machine, es: seq<Event>)
    requires AdmissibleRun(m, es)
    ensures Run(m, es).target == LastPointer(m.target, es)
    decreases |es|
  {
    if es != [] {
      TargetFollowsPointer(Apply(m, es[0]), es[1..]);
    }
  }
}
