/**
 * The settings screen's timer stepper and category buttons
 * (ui/GameSettingsView.kt). The screen holds no state: it computes the next
 * timer value and hands it to `onTimerChange`, and highlights the button of
 * the selected category.
 */
module GameSettings {
  import opened Wrappers
  import opened Kotlin
  import opened Categories

  const STEP: int := 15

  /** The minus button is enabled only above 0 (0 stands for an unlimited timer). */
  predicate MinusEnabled(timerValue: Int32) {
    timerValue > 0
  }

  /**
   * The minus button: the value passed to `onTimerChange`, or None when the
   * click changes nothing. 15 seconds steps down to 0, the unlimited timer.
   */
  function MinusClick(timerValue: Int32): (r: Option<Int32>)
    ensures r.Some? ==> r.value == timerValue - STEP
    ensures r.Some? ==> 0 <= r.value < timerValue
    ensures r.None? <==> timerValue < STEP
  {
    if timerValue > STEP then Some(timerValue - STEP)
    else if timerValue == STEP then Some(0)
    else None
  }

  /** The plus button: 0 (unlimited) steps up to 15, anything else gains 15 in `Int` arithmetic. */
  function PlusClick(timerValue: Int32): (r: Int32)
    ensures 0 <= timerValue <= MAX_INT - STEP ==> r == timerValue + STEP
  {
    if timerValue == 0 then STEP else Add(timerValue, STEP)
  }

  /** The value shown between the buttons. */
  function TimerText(timerValue: Int32): (r: string)
    ensures r == "∞" <==> timerValue == 0
    ensures timerValue != 0 ==> r == IntToString(timerValue)
  {
    if timerValue == 0 then "∞" else IntToString(timerValue)
  }

  /** The values the stepper produces: non-negative multiples of 15. */
  predicate OnStepGrid(v: int) {
    v >= 0 && v % STEP == 0
  }

  /** Both buttons keep the timer on the grid (below the `Int` limit for plus). */
  lemma StepsStayOnGrid(v: Int32)
    requires OnStepGrid(v)
    ensures MinusClick(v).Some? ==> OnStepGrid(MinusClick(v).value)
    ensures v <= MAX_INT - STEP ==> OnStepGrid(PlusClick(v))
  {
  }

  /** Minus is undone by plus, for every value minus changes. */
  lemma PlusUndoesMinus(v: Int32)
    requires v >= STEP
    ensures PlusClick(MinusClick(v).value) == v
  {
  }

  /** Plus is undone by minus, for every value the stepper can show. */
  lemma MinusUndoesPlus(v: Int32)
    requires 0 <= v <= MAX_INT - STEP
    ensures MinusClick(PlusClick(v)) == Some(v)
  {
  }

  /**
   * On the values the stepper produces, the minus button is enabled exactly
   * when its click changes the value; only an off-grid value below 15
   * leaves it enabled with nothing to do.
   */
  lemma MinusEnabledIffChanges(v: Int32)
    ensures MinusClick(v).Some? ==> MinusEnabled(v)
    ensures OnStepGrid(v) ==> (MinusEnabled(v) <==> MinusClick(v).Some?)
    ensures MinusEnabled(v) && MinusClick(v).None? ==> 0 < v < STEP
  {
  }

  /** A button of the category row: "Visi" (all categories) or one category. */
  datatype CategoryButton = AllButton | CategoryButton(category: Category)

  /** The row: "Visi", then the bundled categories, then the user's own. */
  function Buttons(customCategories: seq<CustomCategory>): seq<CategoryButton> {
    [AllButton] + ButtonsFor(PredefinedCategories + customCategories)
  }

  function ButtonsFor(cats: seq<Category>): (r: seq<CategoryButton>)
    ensures |r| == |cats|
    ensures forall i :: 0 <= i < |cats| ==> r[i] == CategoryButton(cats[i])
  {
    if cats == [] then [] else [CategoryButton(cats[0])] + ButtonsFor(cats[1..])
  }

  /** "Visi" is highlighted when no category is selected, any other button when its category is the selected one. */
  predicate IsSelected(b: CategoryButton, selected: Option<Category>) {
    match b
    case AllButton => selected.None?
    case CategoryButton(c) => selected == Some(c)
  }

  function SelectedCount(buttons: seq<CategoryButton>, selected: Option<Category>): nat {
    if buttons == [] then 0
    else (if IsSelected(buttons[0], selected) then 1 else 0) + SelectedCount(buttons[1..], selected)
  }

  lemma {:induction false} SelectedCountOfCategories(cats: seq<Category>, c: Category)
    ensures SelectedCount(ButtonsFor(cats), Some(c)) == multiset(cats)[c]
  {
    if cats != [] {
      SelectedCountOfCategories(cats[1..], c);
      assert cats == [cats[0]] + cats[1..];
      assert ButtonsFor(cats)[1..] == ButtonsFor(cats[1..]);
    }
  }

  lemma {:induction false} NoCategoryButtonSelected(cats: seq<Category>)
    ensures SelectedCount(ButtonsFor(cats), None) == 0
  {
    if cats != [] {
      NoCategoryButtonSelected(cats[1..]);
      assert ButtonsFor(cats)[1..] == ButtonsFor(cats[1..]);
    }
  }

  /**
   * With no category selected exactly "Visi" is highlighted; with category
   * `c` selected, one button is highlighted for each time `c` is listed.
   */
  lemma HighlightedButtons(customCategories: seq<CustomCategory>, selected: Option<Category>)
    ensures selected.None? ==> SelectedCount(Buttons(customCategories), selected) == 1
    ensures selected.Some? ==>
      SelectedCount(Buttons(customCategories), selected) == multiset(PredefinedCategories + customCategories)[selected.value]
  {
    var row := Buttons(customCategories);
    assert row[1..] == ButtonsFor(PredefinedCategories + customCategories);
    if selected.None? {
      NoCategoryButtonSelected(PredefinedCategories + customCategories);
    } else {
      SelectedCountOfCategories(PredefinedCategories + customCategories, selected.value);
    }
  }
}
