/**
 * Model of Assets/Scripts/Dialogue/InkEvents.cs: a list of named events that
 * an ink story can trigger by name. Each UnityEvent handler is represented by
 * an identifier; invoking it is recorded in a log.
 */
module InkEventDispatch {
  import opened Wrappers

  /** Identifies the UnityEvent `onEvent` of one entry. */
  type HandlerId = nat

  /** The serialised struct InkEvent: a name and the handler it triggers. */
  datatype InkEvent = InkEvent(name: string, onEvent: HandlerId)

  /** Index of the first entry named `eventName`, or None when no entry has that name. */
  function FirstMatch(events: seq<InkEvent>, eventName: string): (r: Option<nat>)
    ensures r.Some? ==> r.value < |events| && events[r.value].name == eventName
    ensures r.Some? ==> forall j :: 0 <= j < r.value ==> events[j].name != eventName
    ensures r.None? <==> forall j :: 0 <= j < |events| ==> events[j].name != eventName
    decreases |events|
  {
    if events == [] then None
    else if events[0].name == eventName then Some(0)
    else match FirstMatch(events[1..], eventName)
      case None => None
      case Some(k) => Some(k + 1)
  }

  /**
   * When several entries share a name, only the first of them can be chosen:
   * no later duplicate is ever invoked.
   */
  lemma DuplicateIsShadowed(events: seq<InkEvent>, i: nat, j: nat)
    requires i < j < |events| && events[i].name == events[j].name
    ensures FirstMatch(events, events[j].name) != Some(j)
  {
  }

  /** The component: its (never modified) list of events and the handlers invoked so far. */
  class InkEvents {
    const inkEvents: seq<InkEvent>
    var invoked: seq<HandlerId>

    constructor (inkEvents: seq<InkEvent>)
      ensures this.inkEvents == inkEvents && invoked == []
    {
      this.inkEvents := inkEvents;
      invoked := [];
    }

    /**
     * Invokes the handler of the first entry whose name equals `eventName`,
     * exactly once, and nothing when no entry matches.
     */
    method TryInvokeEvent(eventName: string)
      modifies this
      ensures FirstMatch(inkEvents, eventName).None? ==> invoked == old(invoked)
      ensures FirstMatch(inkEvents, eventName).Some? ==>
        invoked == old(invoked) + [inkEvents[FirstMatch(inkEvents, eventName).value].onEvent]
    {
      var i := 0;
      while i < |inkEvents|
        invariant 0 <= i <= |inkEvents|
        invariant forall j :: 0 <= j < i ==> inkEvents[j].name != eventName
        invariant invoked == old(invoked)
      {
        if inkEvents[i].name == eventName {
          invoked := invoked + [inkEvents[i].onEvent];
          return;
        }
        i := i + 1;
      }
    }
  }
}
