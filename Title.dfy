/** The title screen: a menu cursor moved with the arrow keys and confirmed
    with Enter or Space, and a blinking help line. */
module Title {
  import opened Wrappers

  /** What confirming the menu does: start the game, show the credits (an
      alert), or nothing. */
  datatype MenuAction = StartGame | ShowCredits | NoAction

  const MenuItems: seq<string> := ["ゲームスタート", "クレジット"]

  /** The largest value the cursor is clamped to; one past the last item. */
  const MaxOption: int := 2

  /** The menu item drawn highlighted for a cursor value, if any. */
  function Highlighted(selected: int): (r: Option<string>)
    ensures r.Some? <==> 0 <= selected < |MenuItems|
    ensures r.Some? ==> r.value == MenuItems[selected]
  {
    if selected == 0 then Some(MenuItems[0])
    else if selected == 1 then Some(MenuItems[1])
    else None
  }

  /** Cursor values 0 and 1 each highlight their item, but value 2, which
      ArrowDown can reach from the last item, highlights none. */
  lemma CursorPastLastItem()
    ensures forall k :: 0 <= k < MaxOption ==> Highlighted(k) == Some(MenuItems[k])
    ensures Highlighted(MaxOption).None?
  {
  }

  class TitleScreen {
    var blinkText: bool
    var selectedOption: int

    constructor ()
      ensures blinkText && selectedOption == 0
    {
      blinkText := true;
      selectedOption := 0;
    }

    /** One tick of the 800 ms blink interval. */
    method BlinkTick()
      modifies this
      ensures blinkText == !old(blinkText)
      ensures selectedOption == old(selectedOption)
    {
      blinkText := !blinkText;
    }

    /** Two blink ticks bring the help line back to how it was. */
    method BlinkTwice()
      modifies this
      ensures blinkText == old(blinkText) && selectedOption == old(selectedOption)
    {
      BlinkTick();
      BlinkTick();
    }

    /** The keydown handler: ArrowUp and ArrowDown move the cursor within
        0..2, Enter and Space act on it, other keys do nothing. */
    method HandleKeyDown(key: string) returns (action: MenuAction)
      modifies this
      ensures blinkText == old(blinkText)
      ensures 0 <= old(selectedOption) <= MaxOption ==> 0 <= selectedOption <= MaxOption
      ensures key == "ArrowUp" ==>
        action == NoAction && selectedOption == (if old(selectedOption) - 1 < 0 then 0 else old(selectedOption) - 1)
      ensures key == "ArrowDown" ==>
        action == NoAction && selectedOption == (if old(selectedOption) + 1 > MaxOption then MaxOption else old(selectedOption) + 1)
      ensures key == "Enter" || key == " " ==>
        && selectedOption == old(selectedOption)
        && (action == StartGame <==> old(selectedOption) == 0)
        && (action == ShowCredits <==> old(selectedOption) == 1)
      ensures key !in {"ArrowUp", "ArrowDown", "Enter", " "} ==>
        action == NoAction && selectedOption == old(selectedOption)
    {
      action := NoAction;
      if key == "ArrowUp" {
        selectedOption := if 0 > selectedOption - 1 then 0 else selectedOption - 1;
      } else if key == "ArrowDown" {
        selectedOption := if MaxOption < selectedOption + 1 then MaxOption else selectedOption + 1;
      } else if key == "Enter" || key == " " {
        if selectedOption == 0 {
          action := StartGame;
        } else if selectedOption == 1 {
          action := ShowCredits;
        }
      }
    }
  }
}
