# Arcade walk-and-talk, modelled in Dafny

This project models the interactive core of a small browser arcade game. The
player walks a fixed 20×15 tile map of an arcade hall with the arrow keys. They
talk to the nine stationary machines ("static NPCs") with Space or Enter.
Alongside the game screen sit three small state machines:

- the title-screen menu cursor and its blinking help line;
- the speech-recognition hook, which assembles a transcript from recognition
  results and tracks whether it is listening;
- the dialogue box, whose typewriter effect reveals a line one character per
  tick.

Modules, one per source file:

- `World` (`World.dfy`, from `constants.ts` and `types.ts`): tile kinds,
  directions, positions, machine records, the map, the start position, the
  machines and the unused roaming-customer list. It also holds the lemmas
  about this data: map shape, border walls, the single exit, carpets, a
  walkable start cell, distinct machine ids and cells, two-line scripts, and
  which machines stand on wall tiles.
- `Game` (`Game.dfy`, from `components/Game.tsx`): the walkability oracle and
  the faced-cell computation as functions. `GameState` with `Interacted` and
  `AfterKey` specifies the two handlers. The class `Game` holds the four
  state variables, and its methods are proved to follow that specification.
  The lemmas show that a game played from the start never puts the player out
  of bounds, on a wall or on a machine. They also show that the dialogue
  cursor stays on a line of the open script.
- `Title` (`Title.dfy`, from `components/Title.tsx`): the menu cursor clamp
  and the Enter/Space dispatch. Cursor value 2 can be reached with ArrowDown
  but highlights no item, and confirming on it does nothing, as in the source.
- `Speech` (`Speech.dfy`, from `hooks/useSpeechRecognition.ts`): the
  `onresult` loop, proved against a recursive concatenation. It also holds the
  listening flag and transcript updates of the start, stop, reset, error and
  end handlers.
- `DialogueBox` (`DialogueBox.dfy`, from `components/DialogueBox.tsx`): the
  typewriter interval as a class with a `Tick` method, and the
  continue-indicator choice.
- `Wrappers` (`Wrappers.dfy`): `Option`, standing for `null`/`undefined`.

The game component modelled here has no roaming customers, movement tick,
spawning, battle mode or remote calls. Its `isWalkable` checks only bounds, walls and
the stationary machines, so the model does the same. Four machines (ids 1, 2, 5
and 6) stand on wall tiles; `World.MachinesOnWalls` states which ones.

## Model

| member | source | states |
|---|---|---|
| `World.TileFromCode` | types.ts:2-8 | the numeric map codes 0..4 decode to Floor, Wall, vertical carpet, horizontal carpet and Exit, in enum order |
| `World.MapShape` | constants.ts:6-28 | the layout has MAP_HEIGHT = 15 rows of MAP_WIDTH = 20 tiles each |
| `World.BorderIsWall` | constants.ts:12-28 | rows 0 and 14 and column 0 are all wall; column 19 is wall in every row except row 7 |
| `World.OnlyExit` | constants.ts:12-28 | an in-bounds cell is an Exit tile exactly when it is (19, 7) |
| `World.Carpets` | constants.ts:12-28 | column 9 is vertical carpet in rows 1 to 13; row 7 is horizontal carpet in columns 1 to 18 except column 9 |
| `World.StartIsFreeFloor` | constants.ts:9-39 | the start cell (10, 12) is in bounds, a floor tile, and not a machine's cell |
| `World.NpcsWellFormed` | constants.ts:30-40 | there are nine machines, with pairwise distinct ids and distinct in-bounds cells |
| `World.ScriptsHaveTwoLines` | constants.ts:30-40 | every machine's script has exactly two lines |
| `World.MovingIdsDisjoint` | constants.ts:30-45 | the roaming customers' ids 100 and 101 differ from every machine id |
| `World.MachinesOnWalls` | constants.ts:12-40 | machines 1, 2, 5 and 6 stand on wall tiles and the other five do not |
| `Game.IsWalkable` | components/Game.tsx:16-28 | out-of-bounds cells, wall cells and machine cells are not walkable; an in-bounds floor, carpet or exit cell with no machine is |
| `Game.FindNpcAt` | components/Game.tsx:49 | finds nothing exactly when no machine stands on the cell; otherwise returns the first machine in list order on that cell |
| `Game.InitialInv` | components/Game.tsx:11-14 | the initial state (start cell, facing down, no dialogue, cursor 0) satisfies the screen invariant |
| `Game.MachineCellsBlocked` | components/Game.tsx:24-26 | every machine's cell is unwalkable, whatever its tile |
| `Game.Step` | components/Game.tsx:41-47 | the faced cell is one cell away along the direction's axis, on the side the direction names (up and left decrease y and x, down and right increase them) |
| `Game.Interacted` | components/Game.tsx:30-54 | interacting never changes position or facing; with a dialogue open it either stays on the same script one line further on or closes with the cursor reset to 0 (its full case split is stated by InteractionOpensFacedMachine and InteractionAdvancesDialogue) |
| `Game.AfterKey` | components/Game.tsx:56-99 | after any key the player is either where they were or on the walkable cell one step ahead in the new facing; while a dialogue is open neither position nor facing changes; Space or Enter, with or without a dialogue open, acts exactly as interacting does (per-key behaviour in ArrowTurnsAndSteps, DialogueFreezesKeys, OtherKeysIgnored and ConfirmKeyOpensFacedMachine) |
| `Game.InteractionOpensFacedMachine` | components/Game.tsx:41-53 | with no dialogue open, a dialogue opens exactly when a machine stands on the faced cell; it is that machine's script at line 0; otherwise nothing changes |
| `Game.ConfirmKeyOpensFacedMachine` | components/Game.tsx:85-89 | with no dialogue open, Space or Enter opens the faced machine's script at line 0 exactly when a machine stands on the faced cell, and otherwise changes nothing |
| `Game.InteractionAdvancesDialogue` | components/Game.tsx:31-39 | with a dialogue open, a confirm moves to the next line, or on the last line closes the dialogue and resets the cursor to 0 |
| `Game.ConfirmsWalkThroughScript` | components/Game.tsx:31-39 | from any line, k confirms with k below the lines left show the line k further on; exactly the lines-left count of confirms closes the dialogue without moving the player |
| `Game.DialogueFreezesKeys` | components/Game.tsx:57-63 | while a dialogue is open, every key but Space/Enter changes nothing, and Space/Enter acts as handleInteraction |
| `Game.ArrowTurnsAndSteps` | components/Game.tsx:68-98 | an arrow key always sets facing to its direction; position changes only onto a walkable cell and then to the neighbour in that direction; a walkable neighbour is always entered |
| `Game.OtherKeysIgnored` | components/Game.tsx:90-91 | keys that are neither arrows nor Space/Enter change nothing |
| `Game.InteractedKeepsInv` | components/Game.tsx:30-54 | interacting keeps the player on a walkable cell and keeps an open dialogue a machine's script with the cursor inside it |
| `Game.AfterKeyKeepsInv` | components/Game.tsx:56-99 | every key press keeps the screen invariant |
| `Game.RunKeepsInv` | components/Game.tsx:56-99 | any sequence of key presses from an invariant state keeps the invariant |
| `Game.ReachablePositionsSafe` | components/Game.tsx:16-99 | in every state reachable from the start, the player is in bounds, not on a wall, not on a machine, and the cursor is within the open two-line script |
| `Game.BoxShowsCursorLine` | components/Game.tsx:121-127 | the box is shown exactly while a dialogue is open; it shows the cursor's line; hasNext holds exactly when the next confirm keeps the dialogue open |
| `Game.Game.constructor` | components/Game.tsx:11-14 | the component starts in the initial state, which satisfies the invariant |
| `Game.Game.HandleInteraction` | components/Game.tsx:30-54 | the new state is Interacted of the old one, and the invariant is kept |
| `Game.Game.HandleKeyDown` | components/Game.tsx:56-99 | the new state is AfterKey of the old state and the key, and the invariant is kept |
| `Game.Box` | components/Game.tsx:121-127 | a box is shown exactly when a dialogue is open; its message is a line of the open script, and when it says no next line follows, it is the script's last line |
| `Game.Game.ShownBox` | components/Game.tsx:121-127 | the box is shown exactly while a dialogue is open, with the line at the cursor, and it announces a next line exactly when a confirm would keep the dialogue open |
| `Title.Highlighted` | components/Title.tsx:104-118 | a menu item is highlighted exactly for cursor values 0 and 1, and it is the item at the cursor |
| `Title.CursorPastLastItem` | components/Title.tsx:45-48 | cursor values 0 and 1 highlight their items, but value 2, the clamp's upper end, highlights no item |
| `Title.TitleScreen.constructor` | components/Title.tsx:8-9 | the help line starts visible and the cursor at 0 |
| `Title.TitleScreen.BlinkTick` | components/Title.tsx:12-14 | each blink tick negates blinkText and leaves the cursor alone |
| `Title.TitleScreen.BlinkTwice` | components/Title.tsx:12-14 | two blink ticks restore blinkText |
| `Title.TitleScreen.HandleKeyDown` | components/Title.tsx:19-39 | ArrowUp decrements the cursor but not below 0; ArrowDown increments it but not above 2; Enter/Space start the game on 0, show credits on 1, and do nothing on 2; other keys change nothing; the cursor stays in 0..2 |
| `Speech.Joined` | hooks/useSpeechRecognition.ts:69-76 | the joined text of one kind is never longer than all first alternatives together (JoinedSplitsText: the final and interim texts together are exactly that long; order and concatenation in JoinedAppend and JoinedCons) |
| `Speech.JoinedSplitsText` | hooks/useSpeechRecognition.ts:70-75 | every result's first alternative lands in exactly one of the final and the interim texts: their lengths add up to the total |
| `Speech.JoinedAppend` | hooks/useSpeechRecognition.ts:69-76 | the concatenated text of two result lists joined is the texts of each, in order |
| `Speech.JoinedSingle` | hooks/useSpeechRecognition.ts:70-75 | one result contributes its first alternative to the final text if final, otherwise to the interim text |
| `Speech.JoinedCons` | hooks/useSpeechRecognition.ts:69-76 | joining reads results front to back: the first result's text comes before the rest's |
| `Speech.JoinedNoneOfKind` | hooks/useSpeechRecognition.ts:69-76 | a list with no final results has an empty final text, and likewise for interim |
| `Speech.Stored` | hooks/useSpeechRecognition.ts:78 | the stored transcript is the final text when it is non-empty and the interim text otherwise; it is empty exactly when both are |
| `Speech.EarlierResultsIgnored` | hooks/useSpeechRecognition.ts:69 | results before resultIndex never affect the stored transcript |
| `Speech.AllFinalStoresFinal` | hooks/useSpeechRecognition.ts:78 | when every changed result is final, the stored transcript is their final text |
| `Speech.CollectTranscripts` | hooks/useSpeechRecognition.ts:66-76 | the loop's final and interim texts are the in-order concatenations of the first alternatives of the final and of the interim results from resultIndex on |
| `Speech.ErrorAlert` | hooks/useSpeechRecognition.ts:86-92 | an alert is shown for every error code except "no-speech" |
| `Speech.SpeechHook.constructor` | hooks/useSpeechRecognition.ts:44-46 | empty transcript, not listening, no recogniser |
| `Speech.SpeechHook.Mount` | hooks/useSpeechRecognition.ts:52-99 | after mounting, a recogniser exists exactly when one existed before or the API is supported (so, on a fresh hook, exactly when the API is supported); transcript and flag untouched |
| `Speech.SpeechHook.OnResult` | hooks/useSpeechRecognition.ts:65-79 | the transcript becomes the final text when it is non-empty, otherwise the interim text |
| `Speech.SpeechHook.OnError` | hooks/useSpeechRecognition.ts:81-93 | listening stops; the alert follows the error code; the transcript is kept |
| `Speech.SpeechHook.OnEnd` | hooks/useSpeechRecognition.ts:95-97 | listening stops |
| `Speech.SpeechHook.StartListening` | hooks/useSpeechRecognition.ts:108-114 | without a recogniser or while listening nothing changes; otherwise the transcript is cleared and listening starts |
| `Speech.SpeechHook.StopListening` | hooks/useSpeechRecognition.ts:116-121 | without a recogniser or when not listening nothing changes; otherwise listening stops |
| `Speech.SpeechHook.ResetTranscript` | hooks/useSpeechRecognition.ts:123-125 | the transcript is empty afterwards and the flag is kept |
| `DialogueBox.Indicator` | components/DialogueBox.tsx:33-37 | the indicator appears exactly when the displayed text is as long as the message; it is the arrow glyph when hasNext and "x" otherwise |
| `DialogueBox.IndicatorOnlyWhenComplete` | components/DialogueBox.tsx:33 | for typewriter output, the indicator appears exactly when the whole message is displayed |
| `DialogueBox.Typewriter.constructor` | components/DialogueBox.tsx:11-15 | the box starts with empty text, counter 0 and the interval running |
| `DialogueBox.Typewriter.NewMessage` | components/DialogueBox.tsx:13-15 | a new message resets the text to empty and the counter to 0 and restarts the interval |
| `DialogueBox.Typewriter.Tick` | components/DialogueBox.tsx:16-21 | a tick shows the first i+1 characters, capped at the length; the text only grows and stays a prefix of the message; the interval stops once i reaches the length |
| `DialogueBox.Typewriter.RunToEnd` | components/DialogueBox.tsx:16-22 | the interval stops after max(1, length) ticks with the whole message displayed |

## Left out

- Rendering and styling: the JSX of every component, tile colours, sprite placement, `TILE_SIZE`, the chat history and the app shell. None of it makes a decision.
- The title screen's random background stars, which use `Math.random` and floating point.
- Browser plumbing: registering and removing keydown listeners, `preventDefault`, `setInterval` timing (a tick is a method call), and `alert` (the credits alert is the `ShowCredits` action; the speech error alert is returned as text).
- The Web Speech API object: its construction and settings, and the `start`/`stop` calls on it. Mounting is reduced to whether a recogniser exists. The stop call on unmount is not modelled.
- React closure staleness in `useCallback`/`useEffect`. Each handler reads the current state.
- Speech.CollectTranscripts: assumes every changed result has at least one alternative, because the source reads the first alternative of each changed result without a guard (hooks/useSpeechRecognition.ts:72 and 74) and browsers always supply one; the TypeError an empty result would raise is not modelled.
- Speech.SpeechHook.OnResult: makes the same at-least-one-alternative assumption as CollectTranscripts, for the same reason.
- Speech alternatives' `confidence` is carried but never read, as in the source.
- String length: the source counts UTF-16 code units and the model counts Unicode characters. Every message in the map data uses only Basic Multilingual Plane characters, so the two agree on them.
- The optional customer profile fields of the character record (name, age, money, portrait URLs, profile text, level). No modelled logic reads them.
- Roaming customers, a movement tick, spawning, battles, banning and remote calls. The modelled game component has none of these. `World.MovingNpcs` is declared but unused, as in the source.
