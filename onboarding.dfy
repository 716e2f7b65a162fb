/**
 * The onboarding page (app/page.tsx): a learner who already has interests is
 * sent to the dashboard; otherwise they toggle labels and continue, which
 * stores the selection and opens the dashboard.
 */
module Onboarding {
  import opened Wrappers
  import opened Interests

  /** The page's state: the selection on screen and the interests stored in
      the app's shared context, whose `hasInterests` flag the page reads. */
  class OnboardingPage {
    var selected: seq<string>
    var stored: seq<string>
    const hasInterests: bool

    /** The continue button is disabled. */
    predicate ContinueDisabled()
      reads this
      ensures ContinueDisabled() <==> forall x :: x !in selected
    {
      assert |selected| > 0 ==> selected[0] in selected;
      |selected| == 0
    }

    constructor (stored: seq<string>, hasInterests: bool)
      ensures this.selected == [] && this.stored == stored && this.hasInterests == hasInterests
    {
      this.selected := [];
      this.stored := stored;
      this.hasInterests := hasInterests;
    }

    /** The redirect effect: the dashboard exactly when the learner already
        has interests. */
    method Mount() returns (navigation: Option<string>)
      ensures navigation.Some? <==> hasInterests
      ensures navigation.Some? ==> navigation.value == Dashboard
    {
      navigation := None;
      if hasInterests {
        navigation := Some(Dashboard);
      }
    }

    /** `toggleInterest`. */
    method ToggleInterest(item: string)
      modifies this
      ensures selected == Toggle(old(selected), item)
      ensures stored == old(stored)
    {
      selected := Toggle(selected, item);
    }

    /** `handleContinue`: with labels selected it stores them as they are and
        opens the dashboard; with none it does nothing. */
    method HandleContinue() returns (navigation: Option<string>)
      modifies this
      ensures old(ContinueDisabled()) <==> navigation.None?
      ensures old(ContinueDisabled()) ==> stored == old(stored)
      ensures !old(ContinueDisabled()) ==> stored == old(selected) && navigation == Some(Dashboard)
      ensures selected == old(selected)
    {
      navigation := None;
      if |selected| > 0 {
        stored := selected;
        navigation := Some(Dashboard);
      }
    }
  }
}
