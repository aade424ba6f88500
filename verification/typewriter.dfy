/** The typewriter banner: it types each text of a list one character per
    tick, pauses on the full text, deletes it one character per tick, and
    goes on with the next text, round the list. The timers are events here:
    `Tick` is the tick timer firing and `PauseElapsed` the pause timer. */
module Typewriter {
  import opened Wrappers
  import opened Text

  const DEFAULT_TYPING_SPEED: int := 50
  const DEFAULT_DELETING_SPEED: int := 30
  const DEFAULT_PAUSE_DURATION: int := 1500

  /** The displayed text, whether it is being deleted, and which text of the
      list is current. */
  datatype Phase = Phase(displayed: string, deleting: bool, index: nat)

  /** The display shows the start of the current text. */
  predicate ValidPhase(texts: seq<string>, p: Phase)
  {
    p.index < |texts| && p.displayed <= texts[p.index]
  }

  /** One tick: the display grows or shrinks by one character of the
      current text (`substring` clamps at both ends); a full display asks
      for the pause, and an empty display while deleting ends the deleting
      and moves to the next text. The flag is whether the pause timer
      starts. */
  function TickOf(texts: seq<string>, p: Phase): (Phase, bool)
    requires p.index < |texts|
  {
    var current := texts[p.index];
    var shown := if p.deleting then Substring(current, 0, |p.displayed| - 1)
                 else Substring(current, 0, |p.displayed| + 1);
    if !p.deleting && p.displayed == current then (Phase(shown, false, p.index), true)
    else if p.deleting && p.displayed == "" then (Phase(shown, false, (p.index + 1) % |texts|), false)
    else (Phase(shown, p.deleting, p.index), false)
  }

  /** A tick keeps the display a start of the current text and the index in
      range; the index moves, by one round the list, exactly when deleting
      has emptied the display. */
  lemma TickKeepsPhase(texts: seq<string>, p: Phase)
    requires ValidPhase(texts, p)
    ensures ValidPhase(texts, TickOf(texts, p).0)
    ensures TickOf(texts, p).0.index == if p.deleting && p.displayed == "" then (p.index + 1) % |texts| else p.index
    ensures TickOf(texts, p).1 <==> !p.deleting && p.displayed == texts[p.index]
  {
    var current := texts[p.index];
    var r := TickOf(texts, p).0;
    if p.deleting && p.displayed == "" {
      assert r.displayed == "";
    } else if p.deleting {
      assert r.displayed == current[..|p.displayed| - 1];
    } else if p.displayed == current {
      assert r.displayed == current;
    } else {
      assert |p.displayed| < |current|;
      assert r.displayed == current[..|p.displayed| + 1];
      assert p.displayed == current[..|p.displayed|];
    }
  }

  /** Typing shows one more character of the current text. */
  lemma TypingStep(texts: seq<string>, p: Phase)
    requires ValidPhase(texts, p) && !p.deleting && p.displayed != texts[p.index]
    ensures var r := TickOf(texts, p).0;
            r.displayed == texts[p.index][..|p.displayed| + 1] && |r.displayed| == |p.displayed| + 1 &&
            r.displayed[..|p.displayed|] == p.displayed && !r.deleting && r.index == p.index
  {
    var current := texts[p.index];
    assert |p.displayed| < |current|;
    assert p.displayed == current[..|p.displayed|];
  }

  /** Deleting drops the last character shown. */
  lemma DeletingStep(texts: seq<string>, p: Phase)
    requires ValidPhase(texts, p) && p.deleting && p.displayed != ""
    ensures var r := TickOf(texts, p).0;
            r.displayed == p.displayed[..|p.displayed| - 1] && r.deleting && r.index == p.index
  {
    var current := texts[p.index];
    assert p.displayed == current[..|p.displayed|];
  }

  /** `k` ticks, with no pause timer firing in between. */
  function Ticks(texts: seq<string>, p: Phase, k: nat): (r: Phase)
    requires ValidPhase(texts, p)
    ensures ValidPhase(texts, r)
    decreases k
  {
    TickKeepsPhase(texts, p);
    if k == 0 then p else Ticks(texts, TickOf(texts, p).0, k - 1)
  }

  /** From any start of the text, typing reaches the whole text after as
      many ticks as there are characters missing. */
  lemma {:induction false} TypingReachesText(texts: seq<string>, p: Phase)
    requires ValidPhase(texts, p) && !p.deleting
    ensures var r := Ticks(texts, p, |texts[p.index]| - |p.displayed|);
            r == Phase(texts[p.index], false, p.index)
    decreases |texts[p.index]| - |p.displayed|
  {
    var current := texts[p.index];
    if p.displayed == current {
    } else {
      TypingStep(texts, p);
      var q := TickOf(texts, p).0;
      assert q.displayed <= current;
      TypingReachesText(texts, q);
    }
  }

  /** Deleting empties the display after as many ticks as it shows
      characters, and the next tick moves on to the next text. */
  lemma {:induction false} DeletingReachesNext(texts: seq<string>, p: Phase)
    requires ValidPhase(texts, p) && p.deleting
    ensures Ticks(texts, p, |p.displayed|) == Phase("", true, p.index)
    ensures Ticks(texts, p, |p.displayed| + 1) == Phase("", false, (p.index + 1) % |texts|)
    decreases |p.displayed|
  {
    if p.displayed == "" {
      assert Ticks(texts, p, 1) == Ticks(texts, TickOf(texts, p).0, 0);
    } else {
      DeletingStep(texts, p);
      var q := TickOf(texts, p).0;
      DeletingReachesNext(texts, q);
    }
  }

  class Typewriter {
    const texts: seq<string>
    const typingSpeed: int
    const deletingSpeed: int
    const pauseDuration: int
    var displayedText: string
    var isDeleting: bool
    var textIndex: nat

    function State(): Phase
      reads this
    {
      Phase(displayedText, isDeleting, textIndex)
    }

    predicate Valid()
      reads this
    {
      ValidPhase(texts, State())
    }

    /** The banner needs a text to show. */
    constructor (texts: seq<string>, typingSpeed: int, deletingSpeed: int, pauseDuration: int)
      requires |texts| > 0
      ensures this.texts == texts && this.typingSpeed == typingSpeed
      ensures this.deletingSpeed == deletingSpeed && this.pauseDuration == pauseDuration
      ensures State() == Phase("", false, 0) && Valid()
    {
      this.texts := texts;
      this.typingSpeed := typingSpeed;
      this.deletingSpeed := deletingSpeed;
      this.pauseDuration := pauseDuration;
      displayedText := "";
      isDeleting := false;
      textIndex := 0;
    }

    /** The delay of the next tick. */
    function Delay(): int
      reads this
    {
      if isDeleting then deletingSpeed else typingSpeed
    }

    /** The tick timer fired; the answer is the delay of the pause timer
        when one starts. */
    method Tick() returns (pause: Option<int>)
      requires Valid()
      modifies this
      ensures Valid()
      ensures State() == TickOf(texts, old(State())).0
      ensures pause.Some? <==> !old(isDeleting) && old(displayedText) == texts[old(textIndex)]
      ensures pause.Some? ==> pause.value == pauseDuration && State() == old(State())
    {
      TickKeepsPhase(texts, State());
      var current := texts[textIndex];
      var full := !isDeleting && displayedText == current;
      var emptied := isDeleting && displayedText == "";
      if isDeleting {
        displayedText := Substring(current, 0, |displayedText| - 1);
      } else {
        displayedText := Substring(current, 0, |displayedText| + 1);
      }
      pause := None;
      if full {
        pause := Some(pauseDuration);
      } else if emptied {
        isDeleting := false;
        textIndex := (textIndex + 1) % |texts|;
      }
    }

    /** The pause timer fired: deleting starts. */
    method PauseElapsed()
      requires Valid()
      modifies this
      ensures Valid()
      ensures State() == old(State()).(deleting := true)
    {
      isDeleting := true;
    }
  }
}
