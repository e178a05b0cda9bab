/** The game screen: the player walks the arcade grid with the arrow keys and
    talks to the machine in front of them with Space or Enter.

    `GameState` and the functions `Interacted` and `AfterKey` are the
    specification of the two handlers; the class `Game` holds the component's
    four pieces of state and its methods are proved to follow them. */
module Game {
  import opened Wrappers
  import opened World

  /** `isWalkable`: in bounds, not a wall, and no machine standing there. */
  function IsWalkable(pos: Position): (r: bool)
    ensures !InBounds(pos) ==> !r
    ensures InBounds(pos) && TileAt(pos) == Wall ==> !r
    ensures (exists i :: 0 <= i < |Npcs| && Npcs[i].position == pos) ==> !r
    ensures (&& InBounds(pos) && TileAt(pos) in {Floor, CarpetV, CarpetH, Exit}
             && forall i :: 0 <= i < |Npcs| ==> Npcs[i].position != pos) ==> r
  {
    if !(0 <= pos.x < MapWidth && 0 <= pos.y < MapHeight) then
      false
    else if TileAt(pos) == Wall then
      false
    else if exists i :: 0 <= i < |Npcs| && Npcs[i].position == pos then
      false
    else
      true
  }

  /** The neighbouring cell in direction `d`: exactly one cell away, along
      the direction's axis, on the side the direction names. */
  function Step(pos: Position, d: Direction): (t: Position)
    ensures d == Up || d == Down ==> t.x == pos.x && (t.y - pos.y == 1 || pos.y - t.y == 1)
    ensures d == Left || d == Right ==> t.y == pos.y && (t.x - pos.x == 1 || pos.x - t.x == 1)
    ensures (d == Up ==> t.y < pos.y) && (d == Down ==> t.y > pos.y)
    ensures (d == Left ==> t.x < pos.x) && (d == Right ==> t.x > pos.x)
  {
    match d
    case Up => pos.(y := pos.y - 1)
    case Down => pos.(y := pos.y + 1)
    case Left => pos.(x := pos.x - 1)
    case Right => pos.(x := pos.x + 1)
  }

  /** `npcs.find(npc => npc.position is pos)`: the first character on `pos`. */
  function FindNpcAt(npcs: seq<NpcData>, pos: Position): (r: Option<NpcData>)
    ensures r.None? <==> forall i :: 0 <= i < |npcs| ==> npcs[i].position != pos
    ensures r.Some? ==> exists i :: 0 <= i < |npcs| && npcs[i] == r.value && r.value.position == pos
                                    && forall j :: 0 <= j < i ==> npcs[j].position != pos
  {
    if npcs == [] then
      None
    else if npcs[0].position == pos then
      Some(npcs[0])
    else
      var r := FindNpcAt(npcs[1..], pos);
      assert r.Some? ==> exists i :: 0 <= i < |npcs| && npcs[i] == r.value && r.value.position == pos
                                    && forall j :: 0 <= j < i ==> npcs[j].position != pos by {
        if r.Some? {
          var i :| 0 <= i < |npcs[1..]| && npcs[1..][i] == r.value && r.value.position == pos
                   && forall j :: 0 <= j < i ==> npcs[1..][j].position != pos;
          assert npcs[i + 1] == r.value;
        }
      }
      r
  }

  /** The arrow key names of `KeyboardEvent.key` and their directions. */
  function ArrowDirection(key: string): Option<Direction> {
    if key == "ArrowUp" then Some(Up)
    else if key == "ArrowDown" then Some(Down)
    else if key == "ArrowLeft" then Some(Left)
    else if key == "ArrowRight" then Some(Right)
    else None
  }

  /** Space and Enter confirm. */
  predicate IsConfirm(key: string) {
    key == " " || key == "Enter"
  }

  /** The component's state: `playerPosition`, `playerDirection`,
      `dialogue` (`None` for `null`) and `dialogueIndex`. */
  datatype GameState = GameState(position: Position, facing: Direction, dialogue: Option<seq<string>>, index: int)

  const Initial: GameState := GameState(PlayerStartPosition, Down, None, 0)

  /** `handleInteraction`: advance or close an open dialogue; otherwise open
      the script of the machine on the faced cell, if any. */
  function Interacted(s: GameState): (r: GameState)
    ensures r.position == s.position && r.facing == s.facing
    ensures s.dialogue.Some? && r.dialogue.Some? ==> r.dialogue == s.dialogue && r.index == s.index + 1
    ensures s.dialogue.Some? && r.dialogue.None? ==> r.index == 0
  {
    match s.dialogue
    case Some(lines) =>
      if s.index < |lines| - 1 then s.(index := s.index + 1)
      else s.(dialogue := None, index := 0)
    case None =>
      match FindNpcAt(Npcs, Step(s.position, s.facing))
      case Some(npc) => s.(dialogue := Some(npc.message), index := 0)
      case None => s
  }

  /** `handleKeyDown`: with a dialogue open only a confirm key acts; otherwise
      an arrow key turns the player and moves them if the cell is walkable. */
  function AfterKey(s: GameState, key: string): (r: GameState)
    ensures r.position == s.position || (r.position == Step(s.position, r.facing) && IsWalkable(r.position))
    ensures s.dialogue.Some? ==> r.position == s.position && r.facing == s.facing
    ensures IsConfirm(key) ==> r == Interacted(s)
  {
    if s.dialogue.Some? then
      if IsConfirm(key) then Interacted(s) else s
    else
      match ArrowDirection(key)
      case Some(d) =>
        var target := Step(s.position, d);
        s.(facing := d, position := if IsWalkable(target) then target else s.position)
      case None =>
        if IsConfirm(key) then Interacted(s) else s
  }

  /** The state after a run of key presses. */
  function Run(s: GameState, keys: seq<string>): GameState
    decreases |keys|
  {
    if keys == [] then s else Run(AfterKey(s, keys[0]), keys[1..])
  }

  /** The state after `n` confirms. */
  function ConfirmTimes(s: GameState, n: nat): GameState
    decreases n
  {
    if n == 0 then s else ConfirmTimes(Interacted(s), n - 1)
  }

  /** The invariant of the screen: the player stands on a walkable cell, an
      open dialogue is one machine's script with the cursor on one of its
      lines, and a closed one leaves the cursor at 0. */
  ghost predicate Inv(s: GameState) {
    && IsWalkable(s.position)
    && (s.dialogue.None? ==> s.index == 0)
    && (s.dialogue.Some? ==>
          && (exists i :: 0 <= i < |Npcs| && Npcs[i].message == s.dialogue.value)
          && 0 <= s.index < |s.dialogue.value|)
  }

  /** What the dialogue box is given: the current line and whether another
      follows. */
  datatype BoxProps = BoxProps(message: string, hasNext: bool)

  function Box(s: GameState): (r: Option<BoxProps>)
    requires s.dialogue.Some? ==> 0 <= s.index < |s.dialogue.value|
    ensures r.Some? <==> s.dialogue.Some?
    ensures r.Some? ==> r.value.message in s.dialogue.value
    ensures r.Some? && !r.value.hasNext ==> r.value.message == s.dialogue.value[|s.dialogue.value| - 1]
  {
    match s.dialogue
    case None => None
    case Some(lines) => Some(BoxProps(lines[s.index], s.index < |lines| - 1))
  }

  // ---------------------------------------------------------------------
  // Properties of the specification

  /** The player starts on a walkable cell with no dialogue open. */
  lemma InitialInv()
    ensures Inv(Initial)
  {
    StartIsFreeFloor();
  }

  /** Every machine's cell is blocked, whatever tile it stands on. */
  lemma MachineCellsBlocked()
    ensures forall i :: 0 <= i < |Npcs| ==> !IsWalkable(Npcs[i].position)
  {
  }

  /** With no dialogue open, interacting opens a dialogue exactly when a
      machine stands on the faced cell, and then it is that machine's script
      from its first line. */
  lemma InteractionOpensFacedMachine(s: GameState)
    requires s.dialogue.None?
    ensures var r := Interacted(s);
      && (r.dialogue.Some? <==> exists i :: 0 <= i < |Npcs| && Npcs[i].position == Step(s.position, s.facing))
      && (r.dialogue.Some? ==> r.index == 0 && exists i :: 0 <= i < |Npcs| && Npcs[i].position == Step(s.position, s.facing)
                                                         && Npcs[i].message == r.dialogue.value)
      && (r.dialogue.None? ==> r == s)
  {
  }

  /** With no dialogue open, Space or Enter opens the script of the machine on
      the faced cell, at its first line, and does nothing when none stands
      there. */
  lemma ConfirmKeyOpensFacedMachine(s: GameState, key: string)
    requires s.dialogue.None? && IsConfirm(key)
    ensures var r := AfterKey(s, key);
      && (r.dialogue.Some? <==> exists i :: 0 <= i < |Npcs| && Npcs[i].position == Step(s.position, s.facing))
      && (r.dialogue.Some? ==> r.index == 0 && exists i :: 0 <= i < |Npcs| && Npcs[i].position == Step(s.position, s.facing)
                                                         && Npcs[i].message == r.dialogue.value)
      && (r.dialogue.None? ==> r == s)
  {
    InteractionOpensFacedMachine(s);
  }

  /** With a dialogue open, a confirm moves the cursor to the next line, or
      on the last line closes the dialogue and resets the cursor. */
  lemma InteractionAdvancesDialogue(s: GameState)
    requires Inv(s) && s.dialogue.Some?
    ensures var r := Interacted(s);
      && (s.index < |s.dialogue.value| - 1 ==> r.dialogue == s.dialogue && r.index == s.index + 1)
      && (s.index == |s.dialogue.value| - 1 ==> r.dialogue.None? && r.index == 0)
  {
  }

  /** An open dialogue shows every remaining line once, in order: fewer
      confirms than the lines left keep it open on the line that many further
      on, and exactly that many close it without moving the player. */
  lemma {:induction false} ConfirmsWalkThroughScript(s: GameState, n: nat)
    requires Inv(s) && s.dialogue.Some?
    requires n <= |s.dialogue.value| - s.index
    decreases n
    ensures var r := ConfirmTimes(s, n);
      && r.position == s.position && r.facing == s.facing
      && (n < |s.dialogue.value| - s.index ==> r.dialogue == s.dialogue && r.index == s.index + n)
      && (n == |s.dialogue.value| - s.index ==> r.dialogue.None? && r.index == 0)
  {
    if n > 0 {
      var t := Interacted(s);
      if s.index < |s.dialogue.value| - 1 {
        ConfirmsWalkThroughScript(t, n - 1);
      } else {
        assert n == 1;
      }
    }
  }

  /** While a dialogue is open, any key other than a confirm changes nothing,
      and a confirm acts exactly as `handleInteraction`. */
  lemma DialogueFreezesKeys(s: GameState, key: string)
    requires s.dialogue.Some?
    ensures !IsConfirm(key) ==> AfterKey(s, key) == s
    ensures IsConfirm(key) ==> AfterKey(s, key) == Interacted(s)
  {
  }

  /** With no dialogue open, an arrow key always turns the player to its
      direction; the player moves only onto a walkable cell, and then exactly
      to the neighbouring cell in that direction. */
  lemma ArrowTurnsAndSteps(s: GameState, key: string, d: Direction)
    requires s.dialogue.None? && ArrowDirection(key) == Some(d)
    ensures var r := AfterKey(s, key);
      && r.facing == d && r.dialogue == s.dialogue && r.index == s.index
      && (r.position != s.position ==> r.position == Step(s.position, d) && IsWalkable(r.position))
      && (IsWalkable(Step(s.position, d)) ==> r.position == Step(s.position, d))
  {
  }

  /** Keys that are neither arrows nor confirms change nothing. */
  lemma OtherKeysIgnored(s: GameState, key: string)
    requires ArrowDirection(key).None? && !IsConfirm(key)
    ensures AfterKey(s, key) == s
  {
  }

  /** Interacting keeps the screen invariant: an opened script belongs to a
      machine and has lines, and the cursor stays on one of them. */
  lemma InteractedKeepsInv(s: GameState)
    requires Inv(s)
    ensures Inv(Interacted(s))
  {
    ScriptsHaveTwoLines();
    if s.dialogue.None? {
      var npc := FindNpcAt(Npcs, Step(s.position, s.facing));
      if npc.Some? {
        var i :| 0 <= i < |Npcs| && Npcs[i] == npc.value && npc.value.position == Step(s.position, s.facing)
                 && forall j :: 0 <= j < i ==> Npcs[j].position != Step(s.position, s.facing);
        assert Npcs[i].message == Interacted(s).dialogue.value;
      }
    }
  }

  /** A key press keeps the screen invariant. */
  lemma AfterKeyKeepsInv(s: GameState, key: string)
    requires Inv(s)
    ensures Inv(AfterKey(s, key))
  {
    InteractedKeepsInv(s);
  }

  /** From the start of the game, whatever keys are pressed, the player never
      stands out of bounds, on a wall or on a machine, and the dialogue cursor
      stays on a line of the open script. */
  lemma {:induction false} RunKeepsInv(s: GameState, keys: seq<string>)
    requires Inv(s)
    ensures Inv(Run(s, keys))
    decreases |keys|
  {
    if keys != [] {
      AfterKeyKeepsInv(s, keys[0]);
      RunKeepsInv(AfterKey(s, keys[0]), keys[1..]);
    }
  }

  /** The consequences for a game played from the start. */
  lemma ReachablePositionsSafe(keys: seq<string>)
    ensures var r := Run(Initial, keys);
      && InBounds(r.position) && TileAt(r.position) != Wall
      && (forall i :: 0 <= i < |Npcs| ==> Npcs[i].position != r.position)
      && (r.dialogue.Some? ==> 0 <= r.index < |r.dialogue.value| == 2)
  {
    InitialInv();
    RunKeepsInv(Initial, keys);
    ScriptsHaveTwoLines();
  }

  /** The box shows the cursor's line, and `hasNext` holds exactly when the
      next confirm keeps the dialogue open. */
  lemma BoxShowsCursorLine(s: GameState)
    requires Inv(s)
    ensures Box(s).Some? <==> s.dialogue.Some?
    ensures Box(s).Some? ==> Box(s).value.message == s.dialogue.value[s.index]
    ensures Box(s).Some? ==> (Box(s).value.hasNext <==> Interacted(s).dialogue.Some?)
  {
  }

  // ---------------------------------------------------------------------
  // The component

  class Game {
    var playerPosition: Position
    var playerDirection: Direction
    var dialogue: Option<seq<string>>
    var dialogueIndex: int

    function State(): GameState
      reads this
    {
      GameState(playerPosition, playerDirection, dialogue, dialogueIndex)
    }

    ghost predicate Valid()
      reads this
    {
      Inv(State())
    }

    constructor ()
      ensures State() == Initial && Valid()
    {
      playerPosition := PlayerStartPosition;
      playerDirection := Down;
      dialogue := None;
      dialogueIndex := 0;
      InitialInv();
    }

    method HandleInteraction()
      modifies this
      ensures State() == Interacted(old(State()))
      ensures old(Valid()) ==> Valid()
    {
      ghost var s := State();
      if dialogue.Some? {
        if dialogueIndex < |dialogue.value| - 1 {
          dialogueIndex := dialogueIndex + 1;
        } else {
          dialogue := None;
          dialogueIndex := 0;
        }
      } else {
        var targetPos := Step(playerPosition, playerDirection);
        var targetNpc := FindNpcAt(Npcs, targetPos);
        if targetNpc.Some? {
          dialogue := Some(targetNpc.value.message);
          dialogueIndex := 0;
        }
      }
      if Inv(s) {
        InteractedKeepsInv(s);
      }
    }

    method HandleKeyDown(key: string)
      modifies this
      ensures State() == AfterKey(old(State()), key)
      ensures old(Valid()) ==> Valid()
    {
      ghost var s := State();
      if old(Valid()) {
        AfterKeyKeepsInv(s, key);
      }
      if dialogue.Some? {
        if key == " " || key == "Enter" {
          HandleInteraction();
        }
        return;
      }
      var newPosition := playerPosition;
      var newDirection := playerDirection;
      if key == "ArrowUp" {
        newPosition := newPosition.(y := newPosition.y - 1);
        newDirection := Up;
      } else if key == "ArrowDown" {
        newPosition := newPosition.(y := newPosition.y + 1);
        newDirection := Down;
      } else if key == "ArrowLeft" {
        newPosition := newPosition.(x := newPosition.x - 1);
        newDirection := Left;
      } else if key == "ArrowRight" {
        newPosition := newPosition.(x := newPosition.x + 1);
        newDirection := Right;
      } else if key == " " || key == "Enter" {
        HandleInteraction();
        return;
      } else {
        return;
      }
      playerDirection := newDirection;
      if IsWalkable(newPosition) {
        playerPosition := newPosition;
      }
    }

    /** The props handed to the dialogue box while one is open. */
    function ShownBox(): (r: Option<BoxProps>)
      reads this
      requires Valid()
      ensures r.Some? <==> dialogue.Some?
      ensures r.Some? ==> r.value.message == dialogue.value[dialogueIndex]
      ensures r.Some? ==> (r.value.hasNext <==> Interacted(State()).dialogue.Some?)
    {
      Box(State())
    }
  }
}
