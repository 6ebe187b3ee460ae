/**
 * Model of Assets/Scripts/Utility/TriggerEvents.cs: forwards trigger enter and
 * exit callbacks, optionally only for colliders carrying one tag. The inspector
 * string `reactOn` may be null, hence an Option.
 */
module TriggerFilter {
  import opened Wrappers

  /** The tag Unity gives to untagged objects. */
  const NoTag: string := "Untagged"
  /** The tag of the player object, the default filter. */
  const PlayerTag: string := "Player"

  /** The collider that entered or left the trigger; only its tag matters here. */
  datatype Collider = Collider(tag: string)

  /** .NET's char.IsWhiteSpace: the Unicode space separators, line and paragraph separators, and U+0009-U+000D, U+0085, U+00A0. */
  predicate IsWhiteSpace(c: char)
  {
    var k := c as int;
    (0x09 <= k <= 0x0D) || k == 0x20 || k == 0x85 || k == 0xA0 || k == 0x1680
    || (0x2000 <= k <= 0x200A) || k == 0x2028 || k == 0x2029 || k == 0x202F
    || k == 0x205F || k == 0x3000
  }

  /** string.IsNullOrWhiteSpace */
  predicate IsNullOrWhiteSpace(s: Option<string>)
  {
    s.None? || forall i :: 0 <= i < |s.value| ==> IsWhiteSpace(s.value[i])
  }

  /** The value OnValidate leaves in `reactOn`. */
  function Validated(reactOn: Option<string>): (r: Option<string>)
    ensures !IsNullOrWhiteSpace(r)
    ensures IsNullOrWhiteSpace(reactOn) ==> r == Some(NoTag)
    ensures !IsNullOrWhiteSpace(reactOn) ==> r == reactOn
  {
    if IsNullOrWhiteSpace(reactOn) then
      assert !IsWhiteSpace(NoTag[0]);
      Some(NoTag)
    else reactOn
  }

  /** Validating twice is validating once. */
  lemma ValidatedIdempotent(reactOn: Option<string>)
    ensures Validated(Validated(reactOn)) == Validated(reactOn)
  {
  }

  /**
   * Whether a trigger callback for a collider tagged `tag` is forwarded.
   * CompareTag with a null tag is taken to match no collider.
   */
  function Passes(filterOnTag: bool, reactOn: Option<string>, tag: string): (r: bool)
    ensures r <==> !filterOnTag || reactOn == Some(tag)
  {
    !(filterOnTag && !(reactOn.Some? && reactOn.value == tag))
  }

  /** The component, with the colliders passed on to onTriggerEnter and onTriggerExit. */
  class TriggerEvents {
    var filterOnTag: bool
    var reactOn: Option<string>
    var entered: seq<Collider>
    var exited: seq<Collider>

    /** The inspector defaults. */
    constructor ()
      ensures filterOnTag && reactOn == Some(PlayerTag)
      ensures entered == [] && exited == []
    {
      filterOnTag := true;
      reactOn := Some(PlayerTag);
      entered := [];
      exited := [];
    }

    /** Replaces an empty, blank or null `reactOn` with "Untagged". */
    method OnValidate()
      modifies this`reactOn
      ensures reactOn == Validated(old(reactOn))
      ensures !IsNullOrWhiteSpace(reactOn)
    {
      if IsNullOrWhiteSpace(reactOn) {
        reactOn := Some(NoTag);
      }
    }

    method OnTriggerEnter(other: Collider)
      modifies this`entered
      ensures entered == old(entered) + (if Passes(filterOnTag, reactOn, other.tag) then [other] else [])
    {
      if filterOnTag && !(reactOn.Some? && reactOn.value == other.tag) {
        return;
      }
      entered := entered + [other];
    }

    method OnTriggerExit(other: Collider)
      modifies this`exited
      ensures exited == old(exited) + (if Passes(filterOnTag, reactOn, other.tag) then [other] else [])
    {
      if filterOnTag && !(reactOn.Some? && reactOn.value == other.tag) {
        return;
      }
      exited := exited + [other];
    }
  }
}
