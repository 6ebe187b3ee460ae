/**
 * Model of Assets/Scripts/Dialogue/DialogueController.cs: shows an ink story
 * line by line in a dialogue box. The ink Story is reduced to a cursor (the
 * text units it can still produce and the number of choices it offers), the
 * effect of a jump to a function of the story's history, and the dialogue box to its
 * active flag and the lines handed to it.
 */
module Dialogue {
  import opened Wrappers

  /**
   * Where the ink story stands: the units `Continue` will still return before
   * the story next stops, and `currentChoices.Count` once it has stopped there.
   */
  datatype StoryCursor = StoryCursor(units: seq<string>, choiceCount: nat)

  /** The struct DialogueLine; `None` is a field left at its default, null. */
  datatype DialogueLine = DialogueLine(speaker: Option<string>, text: Option<string>)

  /** `new DialogueLine()`: both fields null. */
  const EmptyLine: DialogueLine := DialogueLine(None, None)

  /** The story's `canContinue`. */
  function CanContinue(story: StoryCursor): (r: bool)
    ensures r <==> |story.units| > 0
  {
    story.units != []
  }

  /** `currentChoices.Count > 0`. */
  function HasChoices(story: StoryCursor): (r: bool)
    ensures r <==> story.choiceCount != 0
  {
    story.choiceCount > 0
  }

  /** The story has nothing left to say and nothing to choose. */
  function IsAtEnd(story: StoryCursor): (r: bool)
    ensures r <==> story.units == [] && story.choiceCount == 0
  {
    !CanContinue(story) && !HasChoices(story)
  }

  /** The text a line carries, as a sequence of zero or one units. */
  function TextOf(line: DialogueLine): seq<string>
  {
    if line.text.Some? then [line.text.value] else []
  }

  /** All text carried by a sequence of lines, in order. */
  function Texts(lines: seq<DialogueLine>): seq<string>
    decreases |lines|
  {
    if lines == [] then [] else Texts(lines[..|lines| - 1]) + TextOf(lines[|lines| - 1])
  }

  /** What one ContinueDialogue step does: close the box, or display a line and leave the story at `next`. */
  datatype Step = Close | Display(line: DialogueLine, next: StoryCursor)

  function ContinueStep(story: StoryCursor): (r: Step)
    ensures r.Close? <==> IsAtEnd(story)
    ensures r.Display? ==> r.line.speaker.None?
    ensures r.Display? ==> TextOf(r.line) + r.next.units == story.units && r.next.choiceCount == story.choiceCount
    ensures r.Display? && CanContinue(story) ==> r.line.text.Some?
    ensures r.Display? && !CanContinue(story) ==> r.line == EmptyLine && r.next == story
  {
    if IsAtEnd(story) then Close
    else if CanContinue(story) then
      Display(DialogueLine(None, Some(story.units[0])), StoryCursor(story.units[1..], story.choiceCount))
    else Display(EmptyLine, story)
  }

  /** The outcome of `k` continue steps: the lines displayed, where the story stands, and whether the box was closed. */
  datatype Run = Run(lines: seq<DialogueLine>, story: StoryCursor, closed: bool)

  function Play(story: StoryCursor, k: nat): Run
    decreases k
  {
    if k == 0 then Run([], story, false)
    else match ContinueStep(story)
      case Close => Run([], story, true)
      case Display(line, next) =>
        var rest := Play(next, k - 1);
        Run([line] + rest.lines, rest.story, rest.closed)
  }

  /** Prepending one line prepends its text. */
  lemma {:induction false} TextsCons(line: DialogueLine, lines: seq<DialogueLine>)
    ensures Texts([line] + lines) == TextOf(line) + Texts(lines)
    decreases |lines|
  {
    if lines == [] {
      assert [line] + lines == [line];
      assert Texts([line]) == Texts([]) + TextOf(line);
    } else {
      var all := [line] + lines;
      assert all[..|all| - 1] == [line] + lines[..|lines| - 1];
      TextsCons(line, lines[..|lines| - 1]);
    }
  }

  /**
   * The first `k` steps of a conversation (`k` at most the number of units)
   * display the first `k` units, one per line, without closing the box.
   */
  lemma {:induction false} PlayShowsUnits(story: StoryCursor, k: nat)
    requires k <= |story.units|
    ensures !Play(story, k).closed
    ensures |Play(story, k).lines| == k
    ensures Texts(Play(story, k).lines) == story.units[..k]
    ensures Play(story, k).story == StoryCursor(story.units[k..], story.choiceCount)
    decreases k
  {
    if k > 0 {
      var next := StoryCursor(story.units[1..], story.choiceCount);
      assert ContinueStep(story) == Display(DialogueLine(None, Some(story.units[0])), next);
      PlayShowsUnits(next, k - 1);
      TextsCons(DialogueLine(None, Some(story.units[0])), Play(next, k - 1).lines);
      assert story.units[..k] == [story.units[0]] + next.units[..k - 1];
      assert next.units[k - 1..] == story.units[k..];
    }
  }

  /** Without choices, the box closes on the step after the last unit, having displayed every unit once, in order. */
  lemma {:induction false} ClosesAfterLastUnit(story: StoryCursor)
    requires story.choiceCount == 0
    ensures Play(story, |story.units| + 1).closed
    ensures Texts(Play(story, |story.units| + 1).lines) == story.units
    decreases |story.units|
  {
    if story.units == [] {
      assert ContinueStep(story) == Close;
    } else {
      var line := DialogueLine(None, Some(story.units[0]));
      var next := StoryCursor(story.units[1..], 0);
      assert ContinueStep(story) == Display(line, next);
      ClosesAfterLastUnit(next);
      TextsCons(line, Play(next, |next.units| + 1).lines);
    }
  }

  /** While the story offers choices, no number of continue steps closes the box. */
  lemma {:induction false} ChoicesKeepOpen(story: StoryCursor, k: nat)
    requires story.choiceCount > 0
    ensures !Play(story, k).closed
    decreases k
  {
    if k > 0 {
      ChoicesKeepOpen(ContinueStep(story).next, k - 1);
    }
  }

  /** Values of ink's ErrorType enum; a C# enum variable can hold any other integer too. */
  const Author: int := 0
  const Warning: int := 1
  const Error: int := 2

  /** What OnInkError does with an error reported by the story. */
  datatype ErrorReaction = Suppressed | LogWarning(message: string) | LogError(message: string) | Throw(errorType: int)

  function OnInkError(message: string, errorType: int): (r: ErrorReaction)
    ensures r == Suppressed <==> errorType == Author
    ensures r == LogWarning(message) <==> errorType == Warning
    ensures r == LogError(message) <==> errorType == Error
    ensures r.Throw? <==> errorType != Author && errorType != Warning && errorType != Error
    ensures r.Throw? ==> r.errorType == errorType
  {
    if errorType == Author then Suppressed
    else if errorType == Warning then LogWarning(message)
    else if errorType == Error then LogError(message)
    else Throw(errorType)
  }

  /** The controller, its story and the dialogue box it drives. */
  class DialogueController {
    /**
     * Where `ChoosePathString` leaves the story. The ink story persists across
     * dialogues and keeps visit counts, variables and once-only content, so
     * the landing depends on the story's history, not on the path alone: it
     * is given every path chosen so far (the new one last) and every unit the
     * story has produced.
     */
    const jumpTarget: (seq<string>, seq<string>) -> StoryCursor
    var story: StoryCursor
    /** `dialogueBox.gameObject.activeSelf`. */
    var boxActive: bool
    /** Every line handed to `dialogueBox.DisplayText`, in order. */
    var displayed: seq<DialogueLine>
    /** Every unit returned by the story's `Continue`, in order. */
    var pulled: seq<string>
    /** Every path handed to `ChoosePathString`, in order. */
    var chosenPaths: seq<string>

    /** Where a jump to `dialoguePath` made now would leave the story. */
    function JumpTarget(dialoguePath: string): StoryCursor
      reads this
    {
      jumpTarget(chosenPaths + [dialoguePath], pulled)
    }

    /** Each unit pulled from the story is displayed exactly once, in order, and no line names a speaker. */
    ghost predicate Valid()
      reads this
    {
      Texts(displayed) == pulled
      && forall i :: 0 <= i < |displayed| ==> displayed[i].speaker.None?
    }

    /** Awake creates the story from the asset; Start hides the box. */
    constructor (jumpTarget: (seq<string>, seq<string>) -> StoryCursor, initial: StoryCursor)
      ensures Valid()
      ensures this.jumpTarget == jumpTarget && story == initial && !boxActive
      ensures displayed == [] && pulled == [] && chosenPaths == []
    {
      this.jumpTarget := jumpTarget;
      story := initial;
      boxActive := false;
      displayed := [];
      pulled := [];
      chosenPaths := [];
    }

    /** Shows the box, jumps to `dialoguePath` as given, and performs one continue step. */
    method StartDialogue(dialoguePath: string)
      requires Valid()
      modifies this
      ensures Valid()
      ensures chosenPaths == old(chosenPaths) + [dialoguePath]
      ensures ContinueStep(old(JumpTarget(dialoguePath))).Close? ==>
        !boxActive && story == old(JumpTarget(dialoguePath)) && displayed == old(displayed) && pulled == old(pulled)
      ensures ContinueStep(old(JumpTarget(dialoguePath))).Display? ==>
        boxActive && story == ContinueStep(old(JumpTarget(dialoguePath))).next
        && displayed == old(displayed) + [ContinueStep(old(JumpTarget(dialoguePath))).line]
        && pulled == old(pulled) + TextOf(ContinueStep(old(JumpTarget(dialoguePath))).line)
    {
      OpenDialogue();
      ChoosePathString(dialoguePath);
      ContinueDialogue();
    }

    method OpenDialogue()
      modifies this`boxActive
      ensures boxActive
    {
      boxActive := true;
    }

    method CloseDialogue()
      modifies this`boxActive
      ensures !boxActive
    {
      boxActive := false;
    }

    /** The story's ChoosePathString. */
    method ChoosePathString(dialoguePath: string)
      modifies this`story, this`chosenPaths
      ensures story == jumpTarget(old(chosenPaths) + [dialoguePath], pulled)
      ensures chosenPaths == old(chosenPaths) + [dialoguePath]
    {
      story := jumpTarget(chosenPaths + [dialoguePath], pulled);
      chosenPaths := chosenPaths + [dialoguePath];
    }

    /** The story's Continue: returns the next unit and moves past it. */
    method Continue() returns (text: string)
      requires CanContinue(story)
      modifies this`story, this`pulled
      ensures text == old(story).units[0]
      ensures story == StoryCursor(old(story).units[1..], old(story).choiceCount)
      ensures pulled == old(pulled) + [text]
    {
      text := story.units[0];
      story := StoryCursor(story.units[1..], story.choiceCount);
      pulled := pulled + [text];
    }

    /** The box's DisplayText. */
    method DisplayText(line: DialogueLine)
      modifies this`displayed
      ensures displayed == old(displayed) + [line]
    {
      displayed := displayed + [line];
    }

    /**
     * Closes the box when the story is at its end; otherwise displays one
     * line, holding the next unit when the story can continue and empty when
     * only choices remain.
     */
    method ContinueDialogue()
      requires Valid()
      modifies this`story, this`boxActive, this`displayed, this`pulled
      ensures Valid()
      ensures ContinueStep(old(story)).Close? ==>
        !boxActive && story == old(story) && displayed == old(displayed) && pulled == old(pulled)
      ensures ContinueStep(old(story)).Display? ==>
        boxActive == old(boxActive) && story == ContinueStep(old(story)).next
        && displayed == old(displayed) + [ContinueStep(old(story)).line]
        && pulled == old(pulled) + TextOf(ContinueStep(old(story)).line)
    {
      if IsAtEnd(story) {
        CloseDialogue();
        return;
      }
      var line := EmptyLine;
      if CanContinue(story) {
        var inkLine := Continue();
        line := line.(text := Some(inkLine));
      }
      assert Texts(displayed + [line]) == Texts(displayed) + TextOf(line);
      DisplayText(line);
    }

    /** The box's continue button: one continue step. */
    method OnDialogueContinued()
      requires Valid()
      modifies this`story, this`boxActive, this`displayed, this`pulled
      ensures Valid()
      ensures ContinueStep(old(story)).Close? ==>
        !boxActive && story == old(story) && displayed == old(displayed) && pulled == old(pulled)
      ensures ContinueStep(old(story)).Display? ==>
        boxActive == old(boxActive) && story == ContinueStep(old(story)).next
        && displayed == old(displayed) + [ContinueStep(old(story)).line]
        && pulled == old(pulled) + TextOf(ContinueStep(old(story)).line)
    {
      ContinueDialogue();
    }
  }
}
