/**
 * The settings page (app/settings/page.tsx): on mount it pre-selects the
 * stored interests the catalogue still offers and drops the others from the
 * store; the learner toggles labels; saving stores the selection and leads
 * back to the dashboard.
 */
module Settings {
  import opened Wrappers
  import opened Interests

  /** The page's state: the selection on screen, the interests stored in the
      app's shared context, and whether the selection was saved. */
  class SettingsPage {
    var selected: seq<string>
    var stored: seq<string>
    var saved: bool
    /** The labels of the catalogue the page shows. */
    const known: seq<string>

    /** Every selected label is one the catalogue offers. */
    predicate Offered()
      reads this
    {
      forall x :: x in selected ==> x in known
    }

    /** The save button is disabled. */
    predicate SaveDisabled()
      reads this
      ensures SaveDisabled() <==> forall x :: x !in selected
    {
      assert |selected| > 0 ==> selected[0] in selected;
      |selected| == 0
    }

    /** The page as it first renders: nothing selected, nothing saved. */
    constructor (stored: seq<string>)
      ensures this.selected == [] && this.stored == stored && !this.saved
      ensures known == KnownLabels()
      ensures Offered()
    {
      this.known := KnownLabels();
      this.selected := [];
      this.stored := stored;
      this.saved := false;
    }

    /** The mount effect. With stored interests, the selection becomes the
        stored interests the catalogue offers, in their order, and the store
        is rewritten exactly when that dropped something. */
    method Mount()
      modifies this
      ensures saved == old(saved)
      ensures old(stored) == [] ==> selected == old(selected) && stored == []
      ensures old(stored) != [] ==> selected == Keep(old(stored), known)
      ensures stored == Keep(old(stored), known)
      ensures stored != old(stored) <==> exists x :: x in old(stored) && x !in known
      ensures old(stored) != [] || old(Offered()) ==> Offered()
    {
      KeepChanges(stored, known);
      if |stored| > 0 {
        var filtered := Keep(stored, known);
        KeepMembers(stored, known);
        selected := filtered;
        if |filtered| != |stored| {
          stored := filtered;
        }
      }
    }

    /** `toggleInterest`. */
    method ToggleInterest(item: string)
      modifies this
      ensures selected == Toggle(old(selected), item)
      ensures stored == old(stored) && saved == old(saved)
      ensures old(Offered()) && item in known ==> Offered()
    {
      if Offered() && item in known {
        ToggleKeepsKnown(selected, item, known);
      }
      selected := Toggle(selected, item);
    }

    /** `handleSave`: with labels selected it stores them as they are, marks
        the page saved and returns the route the timer then opens; with none
        it does nothing. Once saved, the page shows a message in place of the
        button, so the handler only runs on a page not yet saved. */
    method HandleSave() returns (navigation: Option<string>)
      requires !saved
      modifies this
      ensures old(SaveDisabled()) <==> navigation.None?
      ensures old(SaveDisabled()) ==> stored == old(stored) && saved == old(saved)
      ensures !old(SaveDisabled()) ==> stored == old(selected) && saved && navigation == Some(Dashboard)
      ensures selected == old(selected)
    {
      navigation := None;
      if |selected| > 0 {
        stored := selected;
        saved := true;
        navigation := Some(Dashboard);
      }
    }
  }
}
