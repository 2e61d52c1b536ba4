/**
 * The word screen's gesture latch, foreground effect and timer text
 * (ui/WordView.kt). A tilt of the phone shows up as a large angular rate on
 * the gyroscope's y axis; `hasTriggered`, remembered per displayed word,
 * lets at most one tilt per word reach `onCorrect` or `onSkip`.
 */
module WordScreen {
  import opened Wrappers
  import opened Kotlin

  /** The angular rate (rad/s) a tilt must exceed. */
  const THRESHOLD: real := 5.0

  /** The two callbacks a tilt can fire. */
  datatype Gesture = Correct | Skip

  /** What one reading asks for: tilting forward (y below -5) is correct, backward (y above 5) a skip. */
  function Classify(y: real): (g: Option<Gesture>)
    ensures g == Some(Correct) <==> y < -THRESHOLD
    ensures g == Some(Skip) <==> y > THRESHOLD
    ensures g == None <==> -THRESHOLD <= y <= THRESHOLD
  {
    if y < -THRESHOLD then Some(Correct)
    else if y > THRESHOLD then Some(Skip)
    else None
  }

  /**
   * One run of the sample effect: a new y reading, and whether the 3-2-1
   * countdown was on screen then (the effect is not composed while it is).
   */
  datatype Sample = Sample(y: real, countdownVisible: bool)

  /** The gesture a reading triggers on a screen whose latch is still open. */
  function Trigger(s: Sample): (g: Option<Gesture>)
    ensures s.countdownVisible ==> g == None
    ensures !s.countdownVisible ==> (g == Some(Correct) <==> s.y < -THRESHOLD)
    ensures !s.countdownVisible ==> (g == Some(Skip) <==> s.y > THRESHOLD)
  {
    if s.countdownVisible then None else Classify(s.y)
  }

  /** The callbacks the screen fires for the readings it gets while one word is shown. */
  function Fired(samples: seq<Sample>): seq<Gesture> {
    if samples == [] then []
    else
      var before := Fired(samples[..|samples| - 1]);
      var t := Trigger(samples[|samples| - 1]);
      if before == [] && t.Some? then [t.value] else before
  }

  /** The position of the first reading that crosses a threshold outside the countdown. */
  function FirstTrigger(samples: seq<Sample>): (r: Option<nat>)
    ensures r.Some? ==> r.value < |samples| && Trigger(samples[r.value]).Some?
    ensures r.Some? ==> forall j :: 0 <= j < r.value ==> Trigger(samples[j]).None?
    ensures r.None? ==> forall j :: 0 <= j < |samples| ==> Trigger(samples[j]).None?
  {
    if samples == [] then None
    else if Trigger(samples[0]).Some? then Some(0)
    else
      match FirstTrigger(samples[1..])
      case None => None
      case Some(k) => Some(k + 1)
  }

  /**
   * For any readings on one word, the screen fires at most one callback,
   * and it is the one asked for by the first reading that crosses a threshold.
   */
  lemma {:induction false} OneCallbackPerWord(samples: seq<Sample>)
    ensures |Fired(samples)| <= 1
    ensures FirstTrigger(samples).None? ==> Fired(samples) == []
    ensures FirstTrigger(samples).Some? ==> Fired(samples) == [Trigger(samples[FirstTrigger(samples).value]).value]
  {
    if samples != [] {
      var init := samples[..|samples| - 1];
      OneCallbackPerWord(init);
      FirstTriggerOfExtension(init, samples[|samples| - 1]);
      assert init + [samples[|samples| - 1]] == samples;
    }
  }

  lemma {:induction false} FirstTriggerOfExtension(init: seq<Sample>, s: Sample)
    ensures FirstTrigger(init).Some? ==> FirstTrigger(init + [s]) == FirstTrigger(init)
    ensures FirstTrigger(init).None? && Trigger(s).Some? ==> FirstTrigger(init + [s]) == Some(|init|)
    ensures FirstTrigger(init).None? && Trigger(s).None? ==> FirstTrigger(init + [s]).None?
  {
    var all := init + [s];
    if init == [] {
      assert all == [s];
    } else {
      assert all[0] == init[0] && all[1..] == init[1..] + [s];
      FirstTriggerOfExtension(init[1..], s);
    }
  }

  /** What a change of foreground state asks of the game's timer. */
  datatype TimerRequest = ResumeTimer | PauseTimer

  /** The foreground effect: regaining the foreground resumes the timer, losing it pauses it. */
  function ForegroundRequest(inAppForeground: bool): (r: TimerRequest)
    ensures r == ResumeTimer <==> inAppForeground
    ensures r == PauseTimer <==> !inAppForeground
  {
    if inAppForeground then ResumeTimer else PauseTimer
  }

  /** The time shown in the corner: "∞" for the unlimited sentinel `Int.MAX_VALUE`, else the seconds. */
  function TimeLeftText(timeLeft: Int32): (r: string)
    ensures r == "∞" <==> timeLeft == MAX_INT
    ensures timeLeft != MAX_INT ==> r == IntToString(timeLeft)
  {
    if timeLeft == MAX_INT then "∞" else IntToString(timeLeft)
  }

  /** The gesture latch of one composed word screen. */
  class WordView {
    /** The word on screen; `hasTriggered` is remembered with this word as its key. */
    var word: string
    var hasTriggered: bool
    /** The readings processed since `word` was first shown. */
    ghost var samples: seq<Sample>
    /** The callbacks fired since `word` was first shown. */
    ghost var fired: seq<Gesture>

    ghost predicate Valid()
      reads this
    {
      && fired == Fired(samples)
      && (hasTriggered <==> fired != [])
    }

    /** First composition: the latch is open. */
    constructor (word: string)
      ensures Valid()
      ensures this.word == word && !hasTriggered && samples == [] && fired == []
    {
      this.word := word;
      hasTriggered := false;
      samples := [];
      fired := [];
    }

    /**
     * Recomposition with the game's current word: `remember(word)` makes a
     * fresh, open latch for a different word and keeps the latch otherwise.
     */
    method ShowWord(w: string)
      requires Valid()
      modifies this
      ensures Valid() && word == w
      ensures w != old(word) ==> !hasTriggered && samples == [] && fired == []
      ensures w == old(word) ==> hasTriggered == old(hasTriggered) && samples == old(samples) && fired == old(fired)
    {
      if w != word {
        word := w;
        hasTriggered := false;
        samples := [];
        fired := [];
      }
    }

    /** The sample effect: a tripped latch ignores the reading, an open one may fire and trip. */
    method OnSample(s: Sample) returns (callback: Option<Gesture>)
      requires Valid()
      modifies this
      ensures Valid() && word == old(word)
      ensures samples == old(samples) + [s]
      ensures callback == if old(hasTriggered) then None else Trigger(s)
      ensures hasTriggered == (old(hasTriggered) || callback.Some?)
      ensures fired == old(fired) + (if callback.Some? then [callback.value] else [])
      ensures |fired| <= 1
    {
      if hasTriggered {
        callback := None;
      } else {
        callback := Trigger(s);
        if callback.Some? {
          hasTriggered := true;
          fired := fired + [callback.value];
        }
      }
      ghost var before := samples;
      samples := before + [s];
      assert samples[..|samples| - 1] == before;
      assert Fired(samples) == if Fired(before) == [] && Trigger(s).Some? then [Trigger(s).value] else Fired(before);
      OneCallbackPerWord(samples);
    }
  }
}
