/**
 * The reviews carousel: the third DOMContentLoaded listener of
 * hero-video-handler.js. `currentSlide` moves by arithmetic modulo the number
 * of slides; showing a slide marks exactly one slide and one dot `active`.
 * Every operand of `%` here is non-negative, so JavaScript's remainder and
 * Dafny's agree.
 */
module Carousel {
  import opened Dom

  /** `nextSlide`'s index arithmetic. */
  function Next(i: nat, n: nat): (r: nat)
    requires n > 0
    ensures r < n
  {
    (i + 1) % n
  }

  /** `prevSlide`'s index arithmetic. */
  function Prev(i: nat, n: nat): (r: nat)
    requires n > 0
    ensures r < n
  {
    (i - 1 + n) % n
  }

  /** From an in-range index, next moves one step forward and wraps from the last slide to the first. */
  lemma NextStep(i: nat, n: nat)
    requires i < n
    ensures Next(i, n) == if i == n - 1 then 0 else i + 1
  {
    if i < n - 1 {
      ModSmall(i + 1, n);
    }
  }

  /** From an in-range index, previous moves one step back and wraps from the first slide to the last. */
  lemma PrevStep(i: nat, n: nat)
    requires i < n
    ensures Prev(i, n) == if i == 0 then n - 1 else i - 1
  {
    if i == 0 {
      ModSmall(n - 1, n);
    } else {
      assert i - 1 + n == (i - 1) + n;
      ModShift(i - 1, n);
    }
  }

  lemma ModSmall(a: int, n: int)
    requires 0 <= a < n
    ensures a % n == a
  {
  }

  lemma ModShift(a: int, n: int)
    requires 0 <= a < n
    ensures (a + n) % n == a
  {
  }

  /** Previous undoes next, and next undoes previous, on in-range indices. */
  lemma PrevNext(i: nat, n: nat)
    requires i < n
    ensures Prev(Next(i, n), n) == i
    ensures Next(Prev(i, n), n) == i
  {
    NextStep(i, n);
    PrevStep(i, n);
    PrevStep(Next(i, n), n);
    NextStep(Prev(i, n), n);
  }

  /** `k` presses of next. */
  function NextTimes(i: nat, n: nat, k: nat): (r: nat)
    requires n > 0
    decreases k
  {
    if k == 0 then i else Next(NextTimes(i, n, k - 1), n)
  }

  /** From an in-range index, `k` presses of next that do not pass the last slide move `k` steps. */
  lemma {:induction false} NextTimesForward(i: nat, n: nat, k: nat)
    requires i + k < n
    ensures NextTimes(i, n, k) == i + k
    decreases k
  {
    if k > 0 {
      NextTimesForward(i, n, k - 1);
      NextStep(i + k - 1, n);
    }
  }

  /** Pressing next `a` times and then `b` times is pressing it `a + b` times. */
  lemma {:induction false} NextTimesAdd(i: nat, n: nat, a: nat, b: nat)
    requires n > 0
    ensures NextTimes(NextTimes(i, n, a), n, b) == NextTimes(i, n, a + b)
    decreases b
  {
    if b > 0 {
      NextTimesAdd(i, n, a, b - 1);
    }
  }

  /** `slides.length` presses of next return to the starting slide. */
  lemma NextFullCycle(i: nat, n: nat)
    requires i < n
    ensures NextTimes(i, n, n) == i
  {
    NextTimesForward(i, n, n - 1 - i);
    NextStep(n - 1, n);
    assert NextTimes(i, n, n - i) == 0;
    if i > 0 {
      NextTimesForward(0, n, i);
    }
    NextTimesAdd(i, n, n - i, i);
  }

  /**
   * A dot click shows `ActiveOnly` at the dot's index: a slide is active only
   * when that index names one. A dot beyond the last slide leaves no slide
   * active, and the next press (or the auto-advance) shows slide
   * `Next(index, |slides|)`, which always exists.
   */
  lemma DotClickThenNext(slides: seq<ClassList>, index: nat)
    requires |slides| > 0
    ensures ActiveIndices(ActiveOnly(slides, index)) == if index < |slides| then {index} else {}
    ensures var j := Next(index, |slides|);
      ActiveIndices(ActiveOnly(ActiveOnly(slides, index), j)) == {j}
  {
    ActiveOnlyCount(slides, index);
    ActiveOnlyCount(ActiveOnly(slides, index), Next(index, |slides|));
  }

  /** The carousel's page objects; built only when the page has at least one slide. */
  class ReviewsCarousel {
    const slides: array<ClassList>
    const dots: array<ClassList>
    var currentSlide: nat

    ghost predicate Valid()
      reads this
    {
      slides.Length > 0 && slides != dots
    }

    /** The DOMContentLoaded listener: the index starts at 0 and the first slide is shown. */
    constructor (slideClasses: seq<ClassList>, dotClasses: seq<ClassList>)
      requires |slideClasses| > 0
      ensures Valid() && fresh(slides) && fresh(dots)
      ensures currentSlide == 0
      ensures slides[..] == ActiveOnly(slideClasses, 0) && dots[..] == ActiveOnly(dotClasses, 0)
    {
      slides := new ClassList[|slideClasses|](k requires 0 <= k < |slideClasses| => slideClasses[k]);
      dots := new ClassList[|dotClasses|](k requires 0 <= k < |dotClasses| => dotClasses[k]);
      currentSlide := 0;
      new;
      assert slides[..] == slideClasses && dots[..] == dotClasses;
      ShowSlide(0);
    }

    /** `showSlide(index)`: strip `active` everywhere, then mark the slide and the dot at `index` if they exist. */
    method ShowSlide(index: int)
      requires Valid()
      modifies slides, dots
      ensures slides[..] == ActiveOnly(old(slides[..]), index)
      ensures dots[..] == ActiveOnly(old(dots[..]), index)
    {
      RemoveFromAll(slides, Active);
      RemoveFromAll(dots, Active);
      if 0 <= index < slides.Length {
        slides[index] := slides[index] + {Active};
      }
      if 0 <= index < dots.Length {
        dots[index] := dots[index] + {Active};
      }
      assert forall k :: 0 <= k < slides.Length ==> slides[..][k] == ActiveOnly(old(slides[..]), index)[k];
      assert forall k :: 0 <= k < dots.Length ==> dots[..][k] == ActiveOnly(old(dots[..]), index)[k];
    }

    /** The next button, and the 8-second auto-advance. */
    method NextSlide()
      requires Valid()
      modifies this, slides, dots
      ensures Valid() && currentSlide == Next(old(currentSlide), slides.Length)
      ensures slides[..] == ActiveOnly(old(slides[..]), currentSlide)
      ensures dots[..] == ActiveOnly(old(dots[..]), currentSlide)
    {
      currentSlide := (currentSlide + 1) % slides.Length;
      ShowSlide(currentSlide);
    }

    /** The previous button. */
    method PrevSlide()
      requires Valid()
      modifies this, slides, dots
      ensures Valid() && currentSlide == Prev(old(currentSlide), slides.Length)
      ensures slides[..] == ActiveOnly(old(slides[..]), currentSlide)
      ensures dots[..] == ActiveOnly(old(dots[..]), currentSlide)
    {
      currentSlide := (currentSlide - 1 + slides.Length) % slides.Length;
      ShowSlide(currentSlide);
    }

    /** A click on the dot at `index`; the index need not be a slide's. */
    method DotClicked(index: nat)
      requires Valid() && index < dots.Length
      modifies this, slides, dots
      ensures Valid() && currentSlide == index
      ensures slides[..] == ActiveOnly(old(slides[..]), index)
      ensures dots[..] == ActiveOnly(old(dots[..]), index)
    {
      currentSlide := index;
      ShowSlide(currentSlide);
    }
  }
}
