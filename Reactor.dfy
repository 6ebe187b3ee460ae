/**
 * Model of Assets/Scripts/State/Reactor.cs: a one-bit edge detector over the
 * result of the game state's condition check. The condition check itself
 * (GameState.CheckConditions) is outside the model and arrives as a boolean.
 */
module Reactors {

  /** The two UnityEvents a Reactor can fire. */
  datatype Signal = Fulfilled | Unfulfilled

  /** The events one check fires, given the stored state and the new result. */
  function Fired(fulfilled: bool, newFulfilled: bool): (r: seq<Signal>)
    ensures r == [Fulfilled] <==> !fulfilled && newFulfilled
    ensures r == [Unfulfilled] <==> fulfilled && !newFulfilled
    ensures r == [] <==> fulfilled == newFulfilled
  {
    if !fulfilled && newFulfilled then [Fulfilled]
    else if fulfilled && !newFulfilled then [Unfulfilled]
    else []
  }

  /** The signal expected at position `i` of a trace that starts in state `start`. */
  function Expected(start: bool, i: nat): Signal
  {
    if (i % 2 == 0) != start then Fulfilled else Unfulfilled
  }

  /** `signals` alternates, beginning with the edge that leaves `start`. */
  ghost predicate AlternatesFrom(start: bool, signals: seq<Signal>)
  {
    forall i :: 0 <= i < |signals| ==> signals[i] == Expected(start, i)
  }

  /** Everything a sequence of checks fires, starting from state `fulfilled`. */
  function Trace(fulfilled: bool, results: seq<bool>): seq<Signal>
    decreases |results|
  {
    if results == [] then []
    else Fired(fulfilled, results[0]) + Trace(results[0], results[1..])
  }

  /** The stored state after a sequence of checks. */
  function Final(fulfilled: bool, results: seq<bool>): bool
  {
    if results == [] then fulfilled else results[|results| - 1]
  }

  /**
   * Whatever the results of the checks, the fired events strictly alternate,
   * and an odd number of them fired exactly when the final state differs from
   * the starting one.
   */
  lemma {:induction false} TraceAlternates(fulfilled: bool, results: seq<bool>)
    ensures AlternatesFrom(fulfilled, Trace(fulfilled, results))
    ensures |Trace(fulfilled, results)| % 2 == 1 <==> Final(fulfilled, results) != fulfilled
    decreases |results|
  {
    if results != [] {
      var rest := results[1..];
      var tail := Trace(results[0], rest);
      TraceAlternates(results[0], rest);
      assert Final(results[0], rest) == Final(fulfilled, results);
      if results[0] != fulfilled {
        var s := Trace(fulfilled, results);
        assert s == Fired(fulfilled, results[0]) + tail;
        assert |Fired(fulfilled, results[0])| == 1;
        forall i | 0 <= i < |s|
          ensures s[i] == Expected(fulfilled, i)
        {
          if i > 0 {
            assert s[i] == tail[i - 1];
            assert tail[i - 1] == Expected(results[0], i - 1);
          }
        }
      }
    }
  }

  /**
   * Appending one check to a sequence of checks appends exactly the events
   * that check fires from the state the earlier checks left behind.
   */
  lemma {:induction false} TraceSnoc(fulfilled: bool, results: seq<bool>, newFulfilled: bool)
    ensures Trace(fulfilled, results + [newFulfilled])
         == Trace(fulfilled, results) + Fired(Final(fulfilled, results), newFulfilled)
    ensures Final(fulfilled, results + [newFulfilled]) == newFulfilled
    decreases |results|
  {
    if results != [] {
      assert (results + [newFulfilled])[1..] == results[1..] + [newFulfilled];
      TraceSnoc(results[0], results[1..], newFulfilled);
      assert Final(results[0], results[1..]) == Final(fulfilled, results);
    } else {
      assert [newFulfilled][1..] == [];
    }
  }

  /** A Reactor's stored state together with the events it has fired so far. */
  class Reactor {
    var fulfilled: bool
    var fired: seq<Signal>
    /** Every result CheckConditions has seen, in order. */
    ghost var results: seq<bool>

    /**
     * The log is the Trace of the results from `false` and the stored state is
     * the last result; hence the edges alternate, and the stored state records
     * which edge came last.
     */
    ghost predicate Valid()
      reads this
    {
      fired == Trace(false, results) && fulfilled == Final(false, results)
      && AlternatesFrom(false, fired) && (fulfilled <==> |fired| % 2 == 1)
    }

    /** The field initialiser `fulfilled = false`; nothing has fired yet. */
    constructor ()
      ensures Valid() && !fulfilled && fired == [] && results == []
    {
      fulfilled := false;
      fired := [];
      results := [];
    }

    /** One check of the conditions, whose outcome is `newFulfilled`. */
    method CheckConditions(newFulfilled: bool)
      requires Valid()
      modifies this
      ensures Valid()
      ensures fulfilled == newFulfilled
      ensures fired == old(fired) + Fired(old(fulfilled), newFulfilled)
      ensures results == old(results) + [newFulfilled]
    {
      TraceSnoc(false, results, newFulfilled);
      TraceAlternates(false, results + [newFulfilled]);
      if !fulfilled && newFulfilled {
        fired := fired + [Fulfilled];
      } else if fulfilled && !newFulfilled {
        fired := fired + [Unfulfilled];
      }
      fulfilled := newFulfilled;
      results := results + [newFulfilled];
    }
  }
}
