# QuestGame gameplay state machines in Dafny

This project models the small sequential state machines of a Unity quest game.
Each one is stated over an abstract model of its Unity or ink collaborators.

- **Dialogue lifecycle** (`Dialogue`, DialogueController.dfy). A `DialogueController` keeps the
  dialogue box hidden until `StartDialogue`. That method jumps the ink story to a path and performs
  one continue step. A step closes the box when the story can neither continue nor offer choices.
  Otherwise it pulls one text unit into a `DialogueLine`, or uses an empty line when only choices
  remain, and hands the line to the box. The ink `Story` is a `StoryCursor`: the units `Continue`
  will still return, plus the number of choices offered once they run out. The story persists
  across dialogues, so where a jump lands is modelled as a function `jumpTarget` of every path
  chosen so far and every unit produced. `OnInkError` sorts ink error severities into
  suppress, warn, error or throw.
- **Menu stack** (`Menus`, MenuController.dfy). `openMenus` is a sequence with the top last.
  `OpenMenu` pushes, `CloseMenu` pops unless the protected base menu is alone on the stack, and
  `ToggleMenu` opens the base menu or goes back. A `Menu` is reduced to its active flag.
- **Patrol** (`Patrol`, NavMeshPatrol.dfy). Waypoint selection is sequential with wrap-around, or
  random with a new index different from the current one. Degenerate waypoint counts are rejected.
  The model also covers the waiting gate of the per-frame check and the stop/resume flag.
- **Reactor** (`Reactors`, Reactor.dfy). A one-bit edge detector that fires `onFulfilled` on
  false→true and `onUnfulfilled` on true→false. The class invariant states that the fired events
  strictly alternate.
- **Ink events** (`InkEventDispatch`, InkEvents.dfy). A first-match search by name that invokes at
  most one handler.
- **Interactable selection** (`PlayerInteraction`, PlayerInteraction.dfy). The single
  `selectedInteractable` slot with select, deselect and interact. A log of the calls made on
  interactables shows that exactly the selected one is highlighted.
- **Trigger tag filter** (`TriggerFilter`, TriggerEvents.dfy). `OnValidate` turns a null, empty or
  blank `reactOn` into `"Untagged"`. Enter and exit events are forwarded when filtering is off or
  the tag matches.

Side effects on objects outside a component are recorded in a log field. Examples are
`DisplayText`, `Select`/`Deselect`/`Interact`, UnityEvent invocations and `ChoosePathString`
paths.

The dialogue controller has no speaker/body parsing: DialogueController.cs:90 is a TODO. It does
not skip blank units, has no choice selection and no counter bridge to game state, and does not
guard against a second `StartDialogue` while a dialogue is open. `DialogueLine.text` gets the raw
unit and `speaker` is never set.

## Model

| member | source | states |
|---|---|---|
| `Dialogue.CanContinue` | Assets/Scripts/Dialogue/DialogueController.cs:106-109 | the story can continue exactly when a unit is left |
| `Dialogue.HasChoices` | Assets/Scripts/Dialogue/DialogueController.cs:111-114 | choices exist exactly when the choice count is positive |
| `Dialogue.IsAtEnd` | Assets/Scripts/Dialogue/DialogueController.cs:106-119 | at end exactly when the story has no unit left and zero choices |
| `Dialogue.ContinueStep` | Assets/Scripts/Dialogue/DialogueController.cs:78-95 | closes exactly at the end; otherwise the displayed text followed by the remaining units is the old units (exactly one unit pulled when the story can continue), the choices are untouched, an empty default line and unchanged story when only choices remain, and the speaker is never set |
| `Dialogue.PlayShowsUnits` | Assets/Scripts/Dialogue/DialogueController.cs:78-100 | the first k continue steps display the first k units, one line each, in order, without closing |
| `Dialogue.ClosesAfterLastUnit` | Assets/Scripts/Dialogue/DialogueController.cs:78-100 | without choices, the step after the last unit closes the box, having displayed every unit once |
| `Dialogue.ChoicesKeepOpen` | Assets/Scripts/Dialogue/DialogueController.cs:80-94 | while choices exist, no number of continue steps closes the box |
| `Dialogue.OnInkError` | Assets/Scripts/Dialogue/DialogueController.cs:121-136 | Author is suppressed, Warning logs a warning, Error logs an error, any other value throws with that value |
| `Dialogue.DialogueController.constructor` | Assets/Scripts/Dialogue/DialogueController.cs:26-41 | story created from the asset, box hidden, nothing displayed or pulled |
| `Dialogue.DialogueController.StartDialogue` | Assets/Scripts/Dialogue/DialogueController.cs:58-65 | the path is handed over unmodified, then one continue step from where the jump lands; the box ends hidden exactly when that step finds the story at its end, and is shown with that step's line otherwise |
| `Dialogue.DialogueController.OpenDialogue` | Assets/Scripts/Dialogue/DialogueController.cs:67-70 | box becomes active |
| `Dialogue.DialogueController.CloseDialogue` | Assets/Scripts/Dialogue/DialogueController.cs:72-76 | box becomes inactive |
| `Dialogue.DialogueController.ChoosePathString` | Assets/Scripts/Dialogue/DialogueController.cs:62-63 | the path is recorded as given, and the story lands where `jumpTarget` says for the paths chosen so far (this one last) and the units produced so far |
| `Dialogue.DialogueController.Continue` | Assets/Scripts/Dialogue/DialogueController.cs:89 | returns the next unit and advances the story past exactly that unit |
| `Dialogue.DialogueController.DisplayText` | Assets/Scripts/Dialogue/DialogueBox.cs:52-58 | the box replaces its shown text with the line's text; the model records the line at the end of `displayed`, the history of every line handed to the box |
| `Dialogue.DialogueController.ContinueDialogue` | Assets/Scripts/Dialogue/DialogueController.cs:78-95 | at the end: hides the box and leaves story, display and pulled units unchanged; otherwise displays the step's line and advances the story; keeps "every pulled unit displayed once, in order, no speaker" |
| `Dialogue.DialogueController.OnDialogueContinued` | Assets/Scripts/Dialogue/DialogueController.cs:97-100 | each continue event performs exactly one continue step |
| `Menus.AfterClose` | Assets/Scripts/UI/MenuController.cs:95-110 | the result is a prefix of the stack at most one shorter; with the base protected, a base menu at the bottom stays at the bottom |
| `Menus.CloseRemovesOnlyTop` | Assets/Scripts/UI/MenuController.cs:95-110 | a close either removes exactly the top, keeping the rest, or leaves the stack unchanged (empty stack, or protected base alone) |
| `Menus.OpenThenClose` | Assets/Scripts/UI/MenuController.cs:88-110 | open followed by close restores the stack exactly unless the base is protected, the opened menu is the base, and the stack was empty |
| `Menus.BaseSurvivesCloses` | Assets/Scripts/UI/MenuController.cs:97-109 | with preventBaseClosing, a base menu at the bottom survives any number of closes and is left alone on the stack |
| `Menus.Menu.Open` | Assets/Scripts/UI/Menu.cs:42-44 | the menu becomes active |
| `Menus.Menu.Close` | Assets/Scripts/UI/Menu.cs:62-69 | the menu becomes inactive |
| `Menus.MenuController.constructor` | Assets/Scripts/UI/MenuController.cs:28-45 | the stack is [baseMenu] if the base menu is active, otherwise empty |
| `Menus.MenuController.OpenMenu` | Assets/Scripts/UI/MenuController.cs:88-93 | the menu is opened and pushed on top; the rest of the stack is unchanged |
| `Menus.MenuController.CloseMenu` | Assets/Scripts/UI/MenuController.cs:95-110 | the stack becomes AfterClose of the old stack and a popped menu is closed; only a popped menu may change, so a blocked close leaves the protected base menu open |
| `Menus.MenuController.GoBackMenu` | Assets/Scripts/UI/MenuController.cs:124-127 | same as CloseMenu |
| `Menus.MenuController.ToggleMenu` | Assets/Scripts/UI/MenuController.cs:112-122 | an inactive base menu is opened and pushed, and no other menu changes; otherwise it behaves exactly like CloseMenu, and only a popped menu may change |
| `Patrol.NextSequential` | Assets/Scripts/AI/NavMeshPatrol.cs:102-106 | the next index is in range: one more, or 0 after the last waypoint |
| `Patrol.SequentialFirstRound` | Assets/Scripts/AI/NavMeshPatrol.cs:29 | starting from -1, the k-th sequential pick is waypoint k - 1 during the first round |
| `Patrol.SequentialPeriodic` | Assets/Scripts/AI/NavMeshPatrol.cs:102-106 | sequential picks repeat with period equal to the waypoint count |
| `Patrol.NavMeshPatrol.constructor` | Assets/Scripts/AI/NavMeshPatrol.cs:15-31 | index -1, not waiting, agent not stopped |
| `Patrol.NavMeshPatrol.SetNextWaypoint` | Assets/Scripts/AI/NavMeshPatrol.cs:75-111 | zero waypoints, or one waypoint in random order, report their error and change nothing; otherwise the new index is in range and the destination is that waypoint; random mode picks a different index, sequential mode the wrapped successor |
| `Patrol.NavMeshPatrol.Start` | Assets/Scripts/AI/NavMeshPatrol.cs:43-46 | the first pick, with all of SetNextWaypoint's outcomes: a rejected count logs its error and changes nothing; otherwise an in-range index with matching destination, a different index in random mode, the wrapped successor in sequential mode, which from -1 is waypoint 0 |
| `Patrol.NavMeshPatrol.CheckIfWaypointIsReached` | Assets/Scripts/AI/NavMeshPatrol.cs:113-131 | nothing happens while waiting, while the path is pending, or before the waypoint is reached, and no pick is reported; on reaching it, either starts a wait (no pick reported) or advances at once with SetNextWaypoint's outcome, where a rejected count changes nothing |
| `Patrol.NavMeshPatrol.FinishWait` | Assets/Scripts/AI/NavMeshPatrol.cs:133-139 | after the wait: advances once, then clears waiting |
| `Patrol.NavMeshPatrol.StopPatrol` | Assets/Scripts/AI/NavMeshPatrol.cs:64-67 | the agent is stopped |
| `Patrol.NavMeshPatrol.StopPatrolForDialogue` | Assets/Scripts/AI/NavMeshPatrol.cs:58-62 | the agent is stopped and one resume handler is subscribed |
| `Patrol.NavMeshPatrol.ResumePatrol` | Assets/Scripts/AI/NavMeshPatrol.cs:69-73 | the agent moves again and one resume subscription, if any, is removed |
| `Reactors.Fired` | Assets/Scripts/State/Reactor.cs:49-58 | onFulfilled fires exactly on false→true, onUnfulfilled exactly on true→false, nothing when the result repeats |
| `Reactors.TraceAlternates` | Assets/Scripts/State/Reactor.cs:45-61 | over any sequence of checks the events strictly alternate, starting with the edge away from the initial state; an odd count exactly when the final state differs |
| `Reactors.TraceSnoc` | Assets/Scripts/State/Reactor.cs:45-61 | one more check appends exactly the events fired from the state the earlier checks left |
| `Reactors.Reactor.constructor` | Assets/Scripts/State/Reactor.cs:21 | fulfilled starts false and nothing has fired |
| `Reactors.Reactor.CheckConditions` | Assets/Scripts/State/Reactor.cs:45-61 | fulfilled becomes the latest result and the fired events are appended; the log stays the Trace of all results from false, so alternation starting with onFulfilled is preserved |
| `InkEventDispatch.FirstMatch` | Assets/Scripts/Dialogue/InkEvents.cs:32-40 | the index of an entry with exactly that name and no earlier such entry; none exactly when no entry has the name |
| `InkEventDispatch.DuplicateIsShadowed` | Assets/Scripts/Dialogue/InkEvents.cs:36-37 | a later entry sharing a name with an earlier one is never the one chosen |
| `InkEventDispatch.InkEvents.constructor` | Assets/Scripts/Dialogue/InkEvents.cs:10-12 | the event list is fixed and nothing is invoked |
| `InkEventDispatch.InkEvents.TryInvokeEvent` | Assets/Scripts/Dialogue/InkEvents.cs:30-40 | exactly the first matching handler is invoked once, nothing when none matches; the list is constant |
| `PlayerInteraction.PlayerController.constructor` | Assets/Scripts/Player/PlayerController.cs:86 | the selection slot starts empty |
| `PlayerInteraction.PlayerController.Interact` | Assets/Scripts/Player/PlayerController.cs:340-346 | the selection is told to interact only when there is one |
| `PlayerInteraction.PlayerController.TrySelectInteractable` | Assets/Scripts/Player/PlayerController.cs:348-361 | a collider without an Interactable changes nothing; otherwise the old selection is deselected, then the new one stored and selected; exactly the selection stays highlighted |
| `PlayerInteraction.PlayerController.TryDeselectInteractable` | Assets/Scripts/Player/PlayerController.cs:363-375 | clears and deselects only when the exiting interactable is the selected one; anything else leaves the slot unchanged |
| `TriggerFilter.Validated` | Assets/Scripts/Utility/TriggerEvents.cs:28-35 | a null or blank tag becomes "Untagged", any other is kept, and the result is never blank |
| `TriggerFilter.ValidatedIdempotent` | Assets/Scripts/Utility/TriggerEvents.cs:28-35 | validating twice equals validating once |
| `TriggerFilter.Passes` | Assets/Scripts/Utility/TriggerEvents.cs:39-42 | an event passes exactly when filtering is off or the collider's tag equals reactOn |
| `TriggerFilter.TriggerEvents.constructor` | Assets/Scripts/Utility/TriggerEvents.cs:6-21 | defaults: filterOnTag on, reactOn "Player" |
| `TriggerFilter.TriggerEvents.OnValidate` | Assets/Scripts/Utility/TriggerEvents.cs:28-35 | reactOn becomes Validated of its old value and is never blank |
| `TriggerFilter.TriggerEvents.OnTriggerEnter` | Assets/Scripts/Utility/TriggerEvents.cs:37-45 | onTriggerEnter receives the collider exactly when it passes the filter |
| `TriggerFilter.TriggerEvents.OnTriggerExit` | Assets/Scripts/Utility/TriggerEvents.cs:47-55 | onTriggerExit receives the collider exactly when it passes the filter |

## Left out

- Ink internals: parsing the asset, how `ChoosePathString`, `Continue` and `currentChoices` work. The story is a cursor of remaining units and a choice count.
- Dialogue.DialogueController.ChoosePathString: where a jump lands is any fixed function of the paths chosen and units produced so far. The model does not say what ink computes there, and a path that does not exist (an exception in ink) is not modelled.
- Dialogue line parsing, choice selection and the game-state counter bridge: the code does not have them.
- The events `DialogueController.InkEvent` and `DialogueController.DialogueClosed` are referenced but never declared in the controller. Nothing raises them in the model. `GameState` is not part of this model, and its condition check is an input boolean of `CheckConditions`.
- Event subscription wiring (`OnEnable`/`OnDisable`/`OnDestroy` `+=`/`-=`) and the input-system callbacks. Each callback is a method that can be called directly.
- `Patrol.NavMeshPatrol.SetNextWaypoint`: the random pick is a do-while loop over `Random.Range`. It is modelled as a nondeterministic choice of any in-range index different from the current one, which is every result the loop can end with. The loop's retries and its reliance on randomness to terminate are not modelled.
- NavMesh distances, `pathPending`, `autoBraking`, the animator and the wait duration. Reaching a waypoint is an input boolean. The coroutine is split at its `yield` into the start of the wait and `FinishWait`.
- A coroutine stopped by disabling the object, which would leave `waiting` set.
- `Menu` selection handling (EventSystem, delayed select, DOTween), scene loading and quitting in `MenuController`.
- `TriggerFilter.Passes`: Unity's `CompareTag` against a null or undefined tag is taken to match nothing. The warning Unity logs for an undefined tag is not modelled.
- Reactors.Reactor.CheckConditions: each check is one atomic step. In the source the listeners of `onFulfilled`/`onUnfulfilled` run before `fulfilled` is stored (Reactor.cs:52-60). A listener that changes game state and so triggers a nested check is not modelled; that nested check would still see the old `fulfilled` and could fire the same edge twice. The alternation of `Valid` and `TraceAlternates` is proved only for listeners that do not re-enter.
- Movement, camera, slope and coyote-time code of the player controllers, `PlayerSounds`, `DialogueBox` rendering, `SliderTextValue`, `QuestEntry`, `ButtonAnimation`, `Billboard` and `GameController`. These are floating-point physics or engine and UI glue.
