/**
 * The discount panel component: the earned discount, the count-up animation
 * of the displayed percentage, and the message under it. No page of the app
 * renders it; the model follows the component on its own.
 */
module Discount {

  const FullDiscount := 15

  const CompleteAllSteps := "Complete all steps to get the full 15% discount on non-wine merchandise!"
  const Congratulations := "Congratulations! You've earned the maximum 15% discount!"

  /** 5% for visiting, plus 5% for each completed action. */
  function TotalDiscount(googleReviewed: bool, instagramFollowed: bool): (total: int)
    ensures 5 <= total <= FullDiscount && total % 5 == 0
    ensures total == FullDiscount <==> googleReviewed && instagramFollowed
    ensures total == 5 <==> !googleReviewed && !instagramFollowed
  {
    5 + (if googleReviewed then 5 else 0) + (if instagramFollowed then 5 else 0)
  }

  /** Completing an action never lowers the discount. */
  lemma TotalDiscountMonotone(g: bool, i: bool, g': bool, i': bool)
    requires (g ==> g') && (i ==> i')
    ensures TotalDiscount(g, i) <= TotalDiscount(g', i')
  {
  }

  /** One firing of the animation interval: `Math.min(prev + 1, total)`. */
  function Tick(prev: int, total: int): (next: int)
    ensures prev <= total ==> prev <= next <= total && next <= prev + 1
    ensures prev < total ==> next == prev + 1
    ensures next == total <==> prev + 1 >= total
  {
    if prev + 1 < total then prev + 1 else total
  }

  /** The displayed value after `k` firings. */
  function Ticks(start: int, total: int, k: nat): int {
    if k == 0 then start else Tick(Ticks(start, total, k - 1), total)
  }

  function Min(a: int, b: int): int {
    if a <= b then a else b
  }

  /** From a value at or below the total, `k` firings count up by one each, stopping at the total. */
  lemma {:induction false} TicksCountUp(start: int, total: int, k: nat)
    requires start <= total
    ensures Ticks(start, total, k) == Min(start + k, total)
  {
    if k > 0 {
      TicksCountUp(start, total, k - 1);
    }
  }

  /** From 0, the display after `k` firings is `min(k, total)`. */
  lemma TicksFromZero(total: int, k: nat)
    requires total >= 0
    ensures Ticks(0, total, k) == Min(k, total)
  {
    TicksCountUp(0, total, k);
  }

  /** The messages under the percentage. */
  function Messages(showMessage: bool, total: int): seq<string> {
    (if showMessage && total < FullDiscount then [CompleteAllSteps] else []) +
    (if showMessage && total == FullDiscount then [Congratulations] else [])
  }

  /**
   * Once the message is due, exactly one is shown: the congratulations iff
   * both actions are done, the prompt to complete all steps otherwise.
   * Before that, none is.
   */
  lemma ExactlyOneMessage(g: bool, i: bool)
    ensures Messages(false, TotalDiscount(g, i)) == []
    ensures |Messages(true, TotalDiscount(g, i))| == 1
    ensures Messages(true, TotalDiscount(g, i))[0] == Congratulations <==> g && i
    ensures Messages(true, TotalDiscount(g, i))[0] == CompleteAllSteps <==> !(g && i)
  {
    assert CompleteAllSteps != Congratulations by {
      assert |CompleteAllSteps| != |Congratulations|;
    }
  }

  /** The panel's state: the displayed percentage and the two display flags. */
  class DiscountDisplay {
    var displayDiscount: int
    var isAnimating: bool
    var showMessage: bool

    constructor ()
      ensures displayDiscount == 0 && !isAnimating && !showMessage
    {
      displayDiscount := 0;
      isAnimating := false;
      showMessage := false;
    }

    /** The effect run when the total changes: it starts the interval only when the display is below the total. */
    method OnTotalChange(total: int) returns (started: bool)
      modifies this
      ensures started == (old(displayDiscount) < total)
      ensures isAnimating == (started || old(isAnimating))
      ensures displayDiscount == old(displayDiscount) && showMessage == old(showMessage)
    {
      started := displayDiscount < total;
      if started {
        isAnimating := true;
      }
    }

    /** One firing of the interval; `stop` is `clearInterval`. */
    method TickOnce(total: int) returns (stop: bool)
      modifies this
      ensures displayDiscount == Tick(old(displayDiscount), total)
      ensures stop == (displayDiscount == total)
      ensures stop ==> !isAnimating && showMessage
      ensures !stop ==> isAnimating == old(isAnimating) && showMessage == old(showMessage)
    {
      var newValue := Min(displayDiscount + 1, total);
      stop := newValue == total;
      if stop {
        isAnimating := false;
        showMessage := true;
      }
      displayDiscount := newValue;
    }

    /**
     * The effect followed by the interval firing until it clears itself. A
     * total at or below the display changes nothing; otherwise the display
     * counts up one firing at a time to the total, the animation ends and the
     * message is shown.
     */
    method Animate(total: int) returns (firings: nat)
      modifies this
      ensures old(displayDiscount) >= total ==>
                firings == 0 && displayDiscount == old(displayDiscount) &&
                isAnimating == old(isAnimating) && showMessage == old(showMessage)
      ensures old(displayDiscount) < total ==>
                firings == total - old(displayDiscount) &&
                displayDiscount == total == Ticks(old(displayDiscount), total, firings) &&
                !isAnimating && showMessage
    {
      var start := displayDiscount;
      firings := 0;
      var started := OnTotalChange(total);
      if started {
        var stop := false;
        while !stop
          invariant start <= displayDiscount <= total
          invariant displayDiscount == Ticks(start, total, firings) == start + firings
          invariant stop <==> displayDiscount == total
          invariant stop ==> !isAnimating && showMessage
          decreases total - displayDiscount, !stop
        {
          stop := TickOnce(total);
          firings := firings + 1;
        }
      }
    }
  }
}
