/** The font-size buttons of `Eink` (Eink.js:23-33, 1576-1644, 1735-1785): a step
    counter `#totalFontSizeChange` kept in `[0, #maxIncrease]` in steps of 2, the
    pending `#fontSizeAdjustment` not yet applied to the books, and the enabled or
    disabled icons of the two buttons. */
module FontSize {

  const MaxIncrease: int := 10

  const Step: int := 2

  /** The fields of an `Eink` instance the buttons touch. `applied` stands for the
      total change the books' `changeFontSizeBy` has received. */
  datatype FontState = FontState(
    total: int,
    adjustment: int,
    applied: int,
    complete: bool,
    increaseIcon: string,
    decreaseIcon: string)

  /** The icon names `#updateFontSizeButtons(disable)` puts on the two buttons. */
  function IncreaseIcon(total: int, disable: bool): string {
    if !disable && total != MaxIncrease then "increaseText_enabled" else "increaseText_disabled"
  }

  function DecreaseIcon(total: int, disable: bool): string {
    if !disable && total != 0 then "decreaseText_enabled" else "decreaseText_disabled"
  }

  function WithButtons(st: FontState, disable: bool): FontState {
    st.(increaseIcon := IncreaseIcon(st.total, disable), decreaseIcon := DecreaseIcon(st.total, disable))
  }

  /** `#increaseText` */
  function Increase(st: FontState): FontState {
    if st.complete && st.total < MaxIncrease then
      WithButtons(st.(total := st.total + Step, adjustment := st.adjustment + Step), false)
    else st
  }

  /** `#decreaseText` */
  function Decrease(st: FontState): FontState {
    if st.complete && st.total > 0 then
      WithButtons(st.(total := st.total - Step, adjustment := st.adjustment - Step), false)
    else st
  }

  /** `#changeBookFontSize`, once its promise has settled: a pending adjustment is
      handed to the books and cleared. */
  function ApplyAdjustment(st: FontState): FontState {
    if st.adjustment != 0 then
      WithButtons(st.(applied := st.applied + st.adjustment, adjustment := 0, complete := true), false)
    else st
  }

  /** What holds of the counter whenever no button handler is running: even, in
      range, the books plus the pending adjustment add up to it, and the icons
      show its state. */
  predicate Valid(st: FontState) {
    0 <= st.total <= MaxIncrease && st.total % 2 == 0 &&
    st.total == st.applied + st.adjustment &&
    st.increaseIcon == IncreaseIcon(st.total, false) && st.decreaseIcon == DecreaseIcon(st.total, false)
  }

  const Initial: FontState := FontState(0, 0, 0, true, IncreaseIcon(0, false), DecreaseIcon(0, false))

  /** The increase button is shown disabled exactly at the maximum, the decrease
      button exactly at 0, and `disable` disables both. */
  lemma IconsShowLimits(total: int)
    ensures IncreaseIcon(total, false) == "increaseText_disabled" <==> total == MaxIncrease
    ensures DecreaseIcon(total, false) == "decreaseText_disabled" <==> total == 0
    ensures IncreaseIcon(total, true) == "increaseText_disabled" && DecreaseIcon(total, true) == "decreaseText_disabled"
  {
    assert "increaseText_enabled" != "increaseText_disabled" by {
      assert "increaseText_enabled"[13] != "increaseText_disabled"[13];
    }
    assert "decreaseText_enabled" != "decreaseText_disabled" by {
      assert "decreaseText_enabled"[13] != "decreaseText_disabled"[13];
    }
  }

  /** Every handler keeps the counter valid. */
  lemma HandlersKeepValid(st: FontState)
    requires Valid(st)
    ensures Valid(Increase(st)) && Valid(Decrease(st)) && Valid(ApplyAdjustment(st))
  {
  }

  /** Increase acts only below the maximum and decrease only above 0, each by one
      step of 2, and the pending adjustment moves by the same amount. */
  lemma StepsMoveByTwo(st: FontState)
    requires st.complete
    ensures Increase(st).total == (if st.total < MaxIncrease then st.total + 2 else st.total)
    ensures Decrease(st).total == (if st.total > 0 then st.total - 2 else st.total)
    ensures Increase(st).adjustment - st.adjustment == Increase(st).total - st.total
    ensures Decrease(st).adjustment - st.adjustment == Decrease(st).total - st.total
  {
  }

  /** While a change is being applied (`complete` is false) the buttons do nothing. */
  lemma BusyIgnoresButtons(st: FontState)
    requires !st.complete
    ensures Increase(st) == st && Decrease(st) == st
  {
  }

  function Presses(st: FontState, k: nat): FontState {
    if k == 0 then st else Increase(Presses(st, k - 1))
  }

  /** Pressing increase `k` times from a valid state reaches `min(total + 2k, 10)`. */
  lemma {:induction false} PressesSaturate(st: FontState, k: nat)
    requires Valid(st) && st.complete
    ensures Presses(st, k).total == (if st.total + 2 * k < MaxIncrease then st.total + 2 * k else MaxIncrease)
    ensures Valid(Presses(st, k)) && Presses(st, k).complete
  {
    if k > 0 {
      PressesSaturate(st, k - 1);
    }
  }

  /** Applying a change leaves the books changed by everything the buttons asked for
      and nothing pending. */
  lemma ApplyCarriesTotal(st: FontState)
    requires Valid(st)
    ensures ApplyAdjustment(st).applied == st.total && ApplyAdjustment(st).adjustment == 0
  {
  }

  /** The buttons' owner. */
  class FontSizeControl {
    var total: int
    var adjustment: int
    var applied: int
    var complete: bool
    var increaseIcon: string
    var decreaseIcon: string

    function State(): FontState
      reads this
    {
      FontState(total, adjustment, applied, complete, increaseIcon, decreaseIcon)
    }

    constructor()
      ensures State() == Initial && Valid(State())
    {
      total, adjustment, applied, complete := 0, 0, 0, true;
      increaseIcon, decreaseIcon := IncreaseIcon(0, false), DecreaseIcon(0, false);
    }

    /** `#updateFontSizeButtons(disable)` */
    method UpdateFontSizeButtons(disable: bool)
      modifies this
      ensures State() == WithButtons(old(State()), disable)
    {
      if !disable {
        increaseIcon := if total == MaxIncrease then "increaseText_disabled" else "increaseText_enabled";
        decreaseIcon := if total == 0 then "decreaseText_disabled" else "decreaseText_enabled";
      } else {
        increaseIcon := "increaseText_disabled";
        decreaseIcon := "decreaseText_disabled";
      }
    }

    /** `#increaseText` */
    method IncreaseText()
      modifies this
      ensures State() == Increase(old(State()))
    {
      if complete && total < MaxIncrease {
        total := total + Step;
        adjustment := adjustment + Step;
        UpdateFontSizeButtons(false);
      }
    }

    /** `#decreaseText` */
    method DecreaseText()
      modifies this
      ensures State() == Decrease(old(State()))
    {
      if complete && total > 0 {
        total := total - Step;
        adjustment := adjustment - Step;
        UpdateFontSizeButtons(false);
      }
    }

    /** `#changeBookFontSize` up to its promise's `then`: the buttons are disabled
        while the books are changed, then shown again. */
    method ChangeBookFontSize()
      modifies this
      ensures State() == ApplyAdjustment(old(State()))
    {
      if adjustment != 0 {
        complete := false;
        UpdateFontSizeButtons(true);
        applied := applied + adjustment;
        adjustment := 0;
        complete := true;
        UpdateFontSizeButtons(false);
      }
    }
  }
}
