/** The dialogue box: a typewriter effect reveals the current line one
    character per tick, and a continue indicator appears once the whole line
    is shown. */
module DialogueBox {
  import opened Wrappers

  function Min(a: int, b: int): int {
    if a < b then a else b
  }

  function Max(a: int, b: int): int {
    if a < b then b else a
  }

  /** The indicator glyph when another line follows; the source file holds
      the down-pointing triangle read with the wrong encoding. */
  const NextGlyph: string := "â–¼"

  /** The indicator glyph on the last line. */
  const CloseGlyph: string := "x"

  /** The continue indicator: shown only when the displayed text is as long
      as the message, the arrow if another line follows, else the cross. */
  function Indicator(displayedText: string, message: string, hasNext: bool): (r: Option<string>)
    ensures r.Some? <==> |displayedText| == |message|
    ensures r.Some? ==> (r.value == NextGlyph <==> hasNext) && (r.value == CloseGlyph <==> !hasNext)
  {
    if |displayedText| == |message| then
      Some(if hasNext then NextGlyph else CloseGlyph)
    else
      None
  }

  /** For text revealed by the typewriter, the indicator appears exactly
      when the whole message is shown. */
  lemma IndicatorOnlyWhenComplete(message: string, shown: nat, hasNext: bool)
    ensures Indicator(message[..Min(shown, |message|)], message, hasNext).Some?
            <==> message[..Min(shown, |message|)] == message
  {
  }

  class Typewriter {
    var message: string
    var displayedText: string
    /** The tick counter of the interval. */
    var i: int
    /** Whether the interval is still set. */
    var running: bool

    /** The displayed text is always the first `i` characters of the message
        (capped at its length); the interval runs until it has ticked at
        least once and `i` reached the length. */
    ghost predicate Valid()
      reads this
    {
      && 0 <= i
      && displayedText == message[..Min(i, |message|)]
      && (running ==> i < Max(1, |message|))
      && (!running ==> i == Max(1, |message|))
    }

    /** The box appears with its first message. */
    constructor (message: string)
      ensures this.message == message && displayedText == "" && i == 0 && running && Valid()
    {
      this.message := message;
      displayedText := "";
      i := 0;
      running := true;
    }

    /** The effect run on a new message: the old interval is cleared, the
        text emptied and a new interval started from 0. */
    method NewMessage(m: string)
      modifies this
      ensures message == m && displayedText == "" && i == 0 && running && Valid()
    {
      message := m;
      displayedText := "";
      i := 0;
      running := true;
    }

    /** One tick of the 30 ms interval (a cleared interval never ticks). */
    method Tick()
      requires Valid() && running
      modifies this
      ensures Valid() && message == old(message)
      ensures i == old(i) + 1
      ensures displayedText == message[..Min(i, |message|)]
      ensures old(displayedText) <= displayedText <= message
      ensures running <==> i < |message|
    {
      displayedText := message[..Min(i + 1, |message|)];
      i := i + 1;
      if i >= |message| {
        running := false;
      }
    }

    /** Let the interval run out: after max(1, length) ticks in all the
        whole message is displayed and the interval is cleared. */
    method RunToEnd()
      requires Valid()
      modifies this
      ensures Valid() && message == old(message) && !running
      ensures displayedText == message && i == Max(1, |message|)
    {
      while running
        invariant Valid() && message == old(message)
        decreases Max(1, |message|) - i
      {
        Tick();
      }
    }
  }
}
