/** The photo carousel: a cyclic slide index whose arrows are locked while a slide animation
    runs, the dots that jump to a slide, and each slide's horizontal offset. */
module Carousel {
  import Cyclic

  datatype Carousel = Carousel(currentIndex: nat, isTransitioning: bool)

  const InitialCarousel: Carousel := Carousel(0, false)

  /** The arrow moving forward: ignored during an animation,
      otherwise the next slide, wrapping after the last, with the animation started. */
  function NextSlide(c: Carousel, n: nat): (r: Carousel)
    requires n > 0
    ensures c.isTransitioning ==> r == c
    ensures !c.isTransitioning ==> r.isTransitioning && r.currentIndex < n
    ensures !c.isTransitioning && c.currentIndex + 1 < n ==> r.currentIndex == c.currentIndex + 1
    ensures !c.isTransitioning && c.currentIndex == n - 1 ==> r.currentIndex == 0
  {
    if c.isTransitioning then c
    else Carousel(Cyclic.Succ(c.currentIndex, n), true)
  }

  /** The arrow moving back: ignored during an animation, otherwise the previous slide,
      wrapping before the first, with the animation started. */
  function PrevSlide(c: Carousel, n: nat): (r: Carousel)
    requires n > 0
    ensures c.isTransitioning ==> r == c
    ensures !c.isTransitioning ==> r.isTransitioning && r.currentIndex < n
    ensures !c.isTransitioning && 0 < c.currentIndex <= n ==> r.currentIndex == c.currentIndex - 1
    ensures !c.isTransitioning && c.currentIndex == 0 ==> r.currentIndex == n - 1
  {
    if c.isTransitioning then c
    else Carousel(Cyclic.Pred(c.currentIndex, n), true)
  }

  /** The end of the slide animation unlocks the arrows and keeps the slide. */
  function TransitionEnd(c: Carousel): (r: Carousel)
    ensures !r.isTransitioning && r.currentIndex == c.currentIndex
  {
    c.(isTransitioning := false)
  }

  /** Clicking dot `k` shows slide `k` at once, without touching the animation lock. */
  function SelectDot(c: Carousel, k: nat): (r: Carousel)
    ensures r.isTransitioning == c.isTransitioning
  {
    c.(currentIndex := k)
  }

  /** The dot drawn highlighted. */
  predicate DotActive(k: nat, c: Carousel)
  {
    k == c.currentIndex
  }

  /** Slide `k`'s horizontal translation, in percent of the carousel's width. */
  function SlideOffset(k: nat, c: Carousel): (r: int)
    ensures r % 100 == 0
    ensures r == 0 <==> k == c.currentIndex
    ensures r > 0 <==> k > c.currentIndex
  {
    (k - c.currentIndex) * 100
  }

  /** A second arrow press during an animation is lost; the next one after the animation
      ends counts. */
  lemma ArrowsLockedWhileAnimating(c: Carousel, n: nat)
    requires n > 0
    ensures NextSlide(NextSlide(c, n), n) == NextSlide(c, n)
    ensures PrevSlide(NextSlide(c, n), n) == NextSlide(c, n)
    ensures NextSlide(PrevSlide(c, n), n) == PrevSlide(c, n)
  {
  }

  /** Forward, let the animation finish, back, let it finish: the carousel is where it
      started, and the same the other way round. With a single photo no animation runs, so
      there is no end of animation to wait for; `SinglePhotoLocksArrows` covers that case. */
  lemma ForwardThenBackRestores(c: Carousel, n: nat)
    requires n > 1 && c.currentIndex < n && !c.isTransitioning
    ensures TransitionEnd(PrevSlide(TransitionEnd(NextSlide(c, n)), n)) == c
    ensures TransitionEnd(NextSlide(TransitionEnd(PrevSlide(c, n)), n)) == c
  {
    Cyclic.PredSuccInverse(c.currentIndex, n);
  }

  /** With a single photo an arrow press takes the lock but moves no slide, so no animation
      runs and nothing ever releases the lock: every later arrow press does nothing. */
  lemma SinglePhotoLocksArrows(c: Carousel)
    requires c.currentIndex == 0 && !c.isTransitioning
    ensures NextSlide(c, 1) == PrevSlide(c, 1) == Carousel(0, true)
    ensures forall k: nat :: SlideOffset(k, NextSlide(c, 1)) == SlideOffset(k, c)
    ensures NextSlide(NextSlide(c, 1), 1) == NextSlide(c, 1)
    ensures PrevSlide(NextSlide(c, 1), 1) == NextSlide(c, 1)
  {
  }

  /** Every slide index the arrows produce has a dot, and exactly one dot is highlighted. */
  lemma ArrowsStayOnDots(c: Carousel, n: nat)
    requires n > 0
    requires c.currentIndex < n
    ensures NextSlide(c, n).currentIndex < n && PrevSlide(c, n).currentIndex < n
    ensures forall k: nat :: k < n && DotActive(k, NextSlide(c, n)) ==> k == NextSlide(c, n).currentIndex
  {
  }

  /** After a dot click the chosen slide is the one in view: its offset is zero and it alone
      is highlighted, and the other slides sit whole widths to its sides. */
  lemma DotShowsItsSlide(c: Carousel, k: nat, j: nat)
    ensures var r := SelectDot(c, k);
            && SlideOffset(k, r) == 0
            && DotActive(k, r)
            && (DotActive(j, r) <==> j == k)
            && (SlideOffset(j, r) == 0 <==> j == k)
            && SlideOffset(j, r) == (j - k) * 100
  {
  }

  /** Exactly the current slide has offset zero, and neighbouring slides sit one width apart. */
  lemma OffsetsAreEvenlySpaced(c: Carousel, k: nat)
    ensures SlideOffset(k, c) == 0 <==> DotActive(k, c)
    ensures SlideOffset(k + 1, c) == SlideOffset(k, c) + 100
    ensures SlideOffset(k, c) < 0 <==> k < c.currentIndex
  {
  }
}
