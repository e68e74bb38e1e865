/**
 * The mobile onboarding carousel: a slide index stepped by Next, a Skip that
 * leaves for language selection, the pagination dots and the button label.
 */
module Onboarding {
  /** The screen both Skip and Next on the last slide navigate to. */
  const LanguageSelection := "LanguageSelection"

  const GetStarted := "Get Started"
  const NextLabel := "Next"

  /** The three slides, by title; their other texts and images only decorate them. */
  const Slides: seq<string> := ["Welcome to Bisklet", "Find & Unlock Bikes", "Ethiopian Payment Methods"]

  /** The pagination dots: one per slide, active exactly at the current slide. */
  function Dots(current: int): (dots: seq<bool>)
    ensures |dots| == |Slides|
  {
    seq(|Slides|, i => i == current)
  }

  /** The number of active dots. */
  function CountActive(dots: seq<bool>): nat
  {
    if dots == [] then 0 else (if dots[0] then 1 else 0) + CountActive(dots[1..])
  }

  /** Exactly one dot is active, the one at the current slide. */
  lemma ExactlyOneDot(current: int)
    requires 0 <= current < |Slides|
    ensures Dots(current)[current]
    ensures forall i :: 0 <= i < |Slides| && i != current ==> !Dots(current)[i]
    ensures CountActive(Dots(current)) == 1
  {
    CountSingle(Dots(current), current);
  }

  lemma {:induction false} CountSingle(dots: seq<bool>, c: int)
    requires 0 <= c < |dots|
    requires forall i :: 0 <= i < |dots| ==> (dots[i] <==> i == c)
    ensures CountActive(dots) == 1
  {
    if c == 0 {
      CountNone(dots[1..]);
    } else {
      CountSingle(dots[1..], c - 1);
    }
  }

  lemma {:induction false} CountNone(dots: seq<bool>)
    requires forall i :: 0 <= i < |dots| ==> !dots[i]
    ensures CountActive(dots) == 0
  {
    if dots != [] {
      CountNone(dots[1..]);
    }
  }

  /** The label of the forward button: 'Get Started' exactly on the last slide, 'Next' otherwise. */
  function ButtonLabel(current: int): (r: string)
    ensures r == GetStarted <==> current == |Slides| - 1
    ensures r == NextLabel <==> current != |Slides| - 1
  {
    if current == |Slides| - 1 then GetStarted else NextLabel
  }

  class OnboardingScreen {
    var currentSlide: int
    /** The navigations requested so far, oldest first. */
    var navigations: seq<string>

    /** The index always names a slide. */
    ghost predicate Valid()
      reads this
    {
      0 <= currentSlide < |Slides|
    }

    constructor ()
      ensures Valid() && currentSlide == 0 && navigations == []
    {
      currentSlide := 0;
      navigations := [];
    }

    /** `handleNext`: the next slide, or language selection from the last one. */
    method HandleNext()
      requires Valid()
      modifies this`currentSlide, this`navigations
      ensures Valid()
      ensures old(currentSlide) < |Slides| - 1 ==> currentSlide == old(currentSlide) + 1 && navigations == old(navigations)
      ensures old(currentSlide) == |Slides| - 1 ==> currentSlide == old(currentSlide) && navigations == old(navigations) + [LanguageSelection]
    {
      if currentSlide < |Slides| - 1 {
        currentSlide := currentSlide + 1;
      } else {
        navigations := navigations + [LanguageSelection];
      }
    }

    /** `handleSkip`: language selection from any slide; the index stays. */
    method HandleSkip()
      requires Valid()
      modifies this`navigations
      ensures Valid()
      ensures navigations == old(navigations) + [LanguageSelection]
    {
      navigations := navigations + [LanguageSelection];
    }
  }

  /** Three presses of the forward button from a new screen: two slides on, then one navigation. */
  method WalkThrough() returns (screen: OnboardingScreen)
    ensures screen.currentSlide == |Slides| - 1 && screen.navigations == [LanguageSelection]
    ensures ButtonLabel(screen.currentSlide) == GetStarted
  {
    screen := new OnboardingScreen();
    screen.HandleNext();
    screen.HandleNext();
    screen.HandleNext();
  }
}
