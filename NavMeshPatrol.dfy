/**
 * Model of Assets/Scripts/AI/NavMeshPatrol.cs: an agent walking between
 * waypoints, in order or in random order, optionally waiting at each one.
 * The NavMesh agent is reduced to its `isStopped` flag and its destination;
 * distance checks arrive as booleans, the wait coroutine is split at its
 * `yield`, and `Random.Range` is a nondeterministic choice.
 */
module Patrol {

  /**
   * What a call did about the next waypoint: set a destination, logged one of
   * SetNextWaypoint's two errors, or did not try to pick one at all.
   */
  datatype Status = NextSet | NoWaypoints | TooFewForRandom | NoPick

  /** The index after `current` in sequential mode, wrapping to 0 after the last waypoint. */
  function NextSequential(current: int, count: nat): (r: nat)
    requires count > 0 && -1 <= current < count
    ensures r < count
    ensures current + 1 < count ==> r == current + 1
    ensures current + 1 == count ==> r == 0
  {
    // C#'s % truncates toward zero; the dividend is never negative here, so it agrees with Dafny's.
    (current + 1) % count
  }

  /** The waypoint counts SetNextWaypoint refuses to work with. */
  predicate Rejected(count: nat, randomOrder: bool)
  {
    count == 0 || (count == 1 && randomOrder)
  }

  /** The index reached after `steps` sequential advances from the start index -1. */
  function SequentialAfter(steps: nat, count: nat): int
    requires count > 0
    decreases steps
  {
    if steps == 0 then -1
    else NextSequential(SequentialAfter(steps - 1, count), count)
  }

  /** In its first round, sequential patrol from the start visits waypoint k at step k + 1. */
  lemma {:induction false} SequentialFirstRound(k: nat, count: nat)
    requires k < count
    ensures SequentialAfter(k + 1, count) == k
    decreases k
  {
    if k > 0 {
      SequentialFirstRound(k - 1, count);
    }
  }

  /** After the first pick, sequential patrol repeats itself every `count` steps. */
  lemma {:induction false} SequentialPeriodic(steps: nat, count: nat)
    requires count > 0 && steps >= 1
    ensures SequentialAfter(steps + count, count) == SequentialAfter(steps, count)
    decreases steps
  {
    if steps == 1 {
      SequentialFirstRound(count - 1, count);
      assert SequentialAfter(count, count) == count - 1;
    } else {
      SequentialPeriodic(steps - 1, count);
    }
  }

  class NavMeshPatrol<Position> {
    const randomOrder: bool
    const waypoints: seq<Position>
    const waitAtWaypoint: bool

    var currentWaypointIndex: int
    var waiting: bool
    /** The agent's `isStopped`. */
    var isStopped: bool
    /** The agent's `destination`. */
    var destination: Position
    /** Number of ResumePatrol handlers subscribed to the dialogue-closed event. */
    var resumeSubscriptions: nat

    /** The index is -1 or points at a waypoint, and then the agent is heading for it. */
    ghost predicate Valid()
      reads this
    {
      -1 <= currentWaypointIndex < |waypoints|
      && (currentWaypointIndex >= 0 ==> destination == waypoints[currentWaypointIndex])
    }

    /** Field initialisers: index -1, not waiting; the agent starts where it stands. */
    constructor (randomOrder: bool, waypoints: seq<Position>, waitAtWaypoint: bool, position: Position)
      ensures Valid()
      ensures this.randomOrder == randomOrder && this.waypoints == waypoints && this.waitAtWaypoint == waitAtWaypoint
      ensures currentWaypointIndex == -1 && !waiting && !isStopped && destination == position
      ensures resumeSubscriptions == 0
    {
      this.randomOrder := randomOrder;
      this.waypoints := waypoints;
      this.waitAtWaypoint := waitAtWaypoint;
      currentWaypointIndex := -1;
      waiting := false;
      isStopped := false;
      destination := position;
      resumeSubscriptions := 0;
    }

    /**
     * Picks the next waypoint and sends the agent there; with no waypoints,
     * or with one waypoint in random order, logs an error and changes nothing.
     */
    method SetNextWaypoint() returns (status: Status)
      requires Valid()
      modifies this`currentWaypointIndex, this`destination
      ensures Valid()
      ensures status == NoWaypoints <==> |waypoints| == 0
      ensures status == TooFewForRandom <==> |waypoints| == 1 && randomOrder
      ensures status == NextSet <==> !Rejected(|waypoints|, randomOrder)
      ensures status != NextSet ==>
        currentWaypointIndex == old(currentWaypointIndex) && destination == old(destination)
      ensures status == NextSet ==>
        0 <= currentWaypointIndex < |waypoints| && destination == waypoints[currentWaypointIndex]
      ensures status == NextSet && randomOrder ==> currentWaypointIndex != old(currentWaypointIndex)
      ensures status == NextSet && !randomOrder ==>
        currentWaypointIndex == NextSequential(old(currentWaypointIndex), |waypoints|)
    {
      if |waypoints| == 0 {
        return NoWaypoints;
      } else if |waypoints| == 1 && randomOrder {
        return TooFewForRandom;
      }
      if randomOrder {
        // The retry loop only ends with an index in range that differs from the current one.
        var other := if currentWaypointIndex == 0 then 1 else 0;
        assert 0 <= other < |waypoints| && other != currentWaypointIndex;
        var newWaypointIndex :| 0 <= newWaypointIndex < |waypoints| && newWaypointIndex != currentWaypointIndex;
        currentWaypointIndex := newWaypointIndex;
      } else {
        currentWaypointIndex := NextSequential(currentWaypointIndex, |waypoints|);
      }
      destination := waypoints[currentWaypointIndex];
      status := NextSet;
    }

    /** Start: the first pick. */
    method Start() returns (status: Status)
      requires Valid()
      modifies this`currentWaypointIndex, this`destination
      ensures Valid()
      ensures status == NoWaypoints <==> |waypoints| == 0
      ensures status == TooFewForRandom <==> |waypoints| == 1 && randomOrder
      ensures status == NextSet <==> !Rejected(|waypoints|, randomOrder)
      ensures status != NextSet ==>
        currentWaypointIndex == old(currentWaypointIndex) && destination == old(destination)
      ensures status == NextSet ==> 0 <= currentWaypointIndex < |waypoints| && destination == waypoints[currentWaypointIndex]
      ensures status == NextSet && randomOrder ==> currentWaypointIndex != old(currentWaypointIndex)
      ensures status == NextSet && !randomOrder ==>
        currentWaypointIndex == NextSequential(old(currentWaypointIndex), |waypoints|)
      ensures status == NextSet && !randomOrder && old(currentWaypointIndex) == -1 ==> currentWaypointIndex == 0
    {
      status := SetNextWaypoint();
    }

    /**
     * One Update: unless waiting or still computing a path, a reached waypoint
     * either starts the wait (its first part runs until the `yield`) or moves on at once.
     */
    method CheckIfWaypointIsReached(pathPending: bool, reached: bool) returns (status: Status)
      requires Valid()
      modifies this`currentWaypointIndex, this`destination, this`waiting
      ensures Valid()
      ensures status == NoPick <==> old(waiting) || pathPending || !reached || waitAtWaypoint
      ensures old(waiting) || pathPending || !reached ==>
        waiting == old(waiting) && currentWaypointIndex == old(currentWaypointIndex) && destination == old(destination)
      ensures !old(waiting) && !pathPending && reached && waitAtWaypoint ==>
        waiting && currentWaypointIndex == old(currentWaypointIndex) && destination == old(destination)
      ensures !old(waiting) && !pathPending && reached && !waitAtWaypoint ==>
        !waiting && (status == NextSet <==> !Rejected(|waypoints|, randomOrder))
        && (status == NoWaypoints <==> |waypoints| == 0)
        && (status == TooFewForRandom <==> |waypoints| == 1 && randomOrder)
      ensures status != NextSet ==>
        currentWaypointIndex == old(currentWaypointIndex) && destination == old(destination)
      ensures status == NextSet ==>
        0 <= currentWaypointIndex < |waypoints| && destination == waypoints[currentWaypointIndex]
        && (randomOrder ==> currentWaypointIndex != old(currentWaypointIndex))
        && (!randomOrder ==> currentWaypointIndex == NextSequential(old(currentWaypointIndex), |waypoints|))
    {
      status := NoPick;
      if waiting { return; }
      if pathPending { return; }
      if reached {
        if waitAtWaypoint {
          waiting := true;
        } else {
          status := SetNextWaypoint();
        }
      }
    }

    /** The rest of WaitBeforeNextWaypoint, after its wait has elapsed: move on, then stop waiting. */
    method FinishWait() returns (status: Status)
      requires Valid() && waiting
      modifies this`currentWaypointIndex, this`destination, this`waiting
      ensures Valid()
      ensures !waiting
      ensures status == NoWaypoints <==> |waypoints| == 0
      ensures status == TooFewForRandom <==> |waypoints| == 1 && randomOrder
      ensures status == NextSet <==> !Rejected(|waypoints|, randomOrder)
      ensures status != NextSet ==>
        currentWaypointIndex == old(currentWaypointIndex) && destination == old(destination)
      ensures status == NextSet ==>
        0 <= currentWaypointIndex < |waypoints| && destination == waypoints[currentWaypointIndex]
        && (randomOrder ==> currentWaypointIndex != old(currentWaypointIndex))
        && (!randomOrder ==> currentWaypointIndex == NextSequential(old(currentWaypointIndex), |waypoints|))
    {
      status := SetNextWaypoint();
      waiting := false;
    }

    method StopPatrol()
      modifies this`isStopped
      ensures isStopped
    {
      isStopped := true;
    }

    /** Stops and subscribes ResumePatrol to the dialogue-closed event. */
    method StopPatrolForDialogue()
      modifies this`isStopped, this`resumeSubscriptions
      ensures isStopped && resumeSubscriptions == old(resumeSubscriptions) + 1
    {
      StopPatrol();
      resumeSubscriptions := resumeSubscriptions + 1;
    }

    /** Resumes and removes one ResumePatrol subscription, if any. */
    method ResumePatrol()
      modifies this`isStopped, this`resumeSubscriptions
      ensures !isStopped
      ensures resumeSubscriptions == if old(resumeSubscriptions) > 0 then old(resumeSubscriptions) - 1 else 0
    {
      isStopped := false;
      if resumeSubscriptions > 0 {
        resumeSubscriptions := resumeSubscriptions - 1;
      }
    }
  }
}
