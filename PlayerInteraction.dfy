/**
 * Model of the interaction part of Assets/Scripts/Player/PlayerController.cs:
 * the single `selectedInteractable` slot. Interactables are identified by
 * number; the calls the player makes on them (Select, Deselect, Interact) are
 * recorded in a log.
 */
module PlayerInteraction {
  import opened Wrappers

  /** Identifies one Interactable component. */
  type InteractableId = nat

  /** A collider and the result of `GetComponent<Interactable>()` on it. */
  datatype Collider = Collider(interactable: Option<InteractableId>)

  /** A call the player makes on an Interactable. */
  datatype Call = Select(target: InteractableId) | Deselect(target: InteractableId) | Interact(target: InteractableId)

  /** The effect of one call on the set of highlighted interactables. */
  function Apply(highlighted: set<InteractableId>, c: Call): set<InteractableId>
  {
    match c
    case Select(x) => highlighted + {x}
    case Deselect(x) => highlighted - {x}
    case Interact(_) => highlighted
  }

  /** The interactables left highlighted by a log of calls: selected and not deselected since. */
  function Highlighted(calls: seq<Call>): set<InteractableId>
    decreases |calls|
  {
    if calls == [] then {}
    else Apply(Highlighted(calls[..|calls| - 1]), calls[|calls| - 1])
  }

  /** The set holding the selection, if any. */
  function AsSet(selected: Option<InteractableId>): (r: set<InteractableId>)
    ensures |r| <= 1
    ensures forall x :: x in r <==> selected == Some(x)
  {
    if selected.Some? then {selected.value} else {}
  }

  /** Highlighting a log extended by one call depends only on the earlier log and that call. */
  lemma HighlightedSnoc(calls: seq<Call>, c: Call)
    ensures Highlighted(calls + [c]) == Apply(Highlighted(calls), c)
  {
  }

  class PlayerController {
    var selectedInteractable: Option<InteractableId>
    var calls: seq<Call>

    /** Exactly the selected interactable is highlighted, so at most one ever is. */
    ghost predicate Valid()
      reads this
    {
      Highlighted(calls) == AsSet(selectedInteractable)
    }

    /** The field starts null and no call has been made. */
    constructor ()
      ensures Valid() && selectedInteractable == None && calls == []
    {
      selectedInteractable := None;
      calls := [];
    }

    /** Interact input: forwards to the selection, if there is one. */
    method Interact()
      requires Valid()
      modifies this`calls
      ensures Valid()
      ensures calls == old(calls) + (if selectedInteractable.Some? then [Call.Interact(selectedInteractable.value)] else [])
    {
      if selectedInteractable.Some? {
        HighlightedSnoc(calls, Call.Interact(selectedInteractable.value));
        calls := calls + [Call.Interact(selectedInteractable.value)];
      }
    }

    /** Trigger enter: an interactable collider replaces the selection, deselecting the old one first. */
    method TrySelectInteractable(other: Collider)
      requires Valid()
      modifies this
      ensures Valid()
      ensures other.interactable.None? ==> selectedInteractable == old(selectedInteractable) && calls == old(calls)
      ensures other.interactable.Some? ==>
        selectedInteractable == other.interactable &&
        calls == old(calls)
          + (if old(selectedInteractable).Some? then [Deselect(old(selectedInteractable).value)] else [])
          + [Select(other.interactable.value)]
    {
      var interactable := other.interactable;
      if interactable.None? { return; }
      if selectedInteractable.Some? {
        HighlightedSnoc(calls, Deselect(selectedInteractable.value));
        calls := calls + [Deselect(selectedInteractable.value)];
      }
      selectedInteractable := interactable;
      HighlightedSnoc(calls, Select(selectedInteractable.value));
      calls := calls + [Select(selectedInteractable.value)];
    }

    /** Trigger exit: only the selected interactable is deselected and cleared. */
    method TryDeselectInteractable(other: Collider)
      requires Valid()
      modifies this
      ensures Valid()
      ensures other.interactable.None? || other.interactable != old(selectedInteractable) ==>
        selectedInteractable == old(selectedInteractable) && calls == old(calls)
      ensures other.interactable.Some? && other.interactable == old(selectedInteractable) ==>
        selectedInteractable == None && calls == old(calls) + [Deselect(other.interactable.value)]
    {
      var interactable := other.interactable;
      if interactable.None? { return; }
      if interactable == selectedInteractable {
        HighlightedSnoc(calls, Deselect(selectedInteractable.value));
        calls := calls + [Deselect(selectedInteractable.value)];
        selectedInteractable := None;
      }
    }
  }
}
