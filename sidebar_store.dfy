/**
 * The sidebar store: three booleans (expanded, mobile menu open, toggled by
 * hand) and the four actions that overwrite them.
 */
module SidebarStore {

  /** A snapshot of the store's fields. */
  datatype SidebarState = SidebarState(isExpanded: bool, isMobileMenuOpen: bool, isManualToggle: bool)

  const Initial: SidebarState := SidebarState(true, false, false)

  function ToggleSidebar(s: SidebarState): (r: SidebarState)
    ensures r.isExpanded == !s.isExpanded
    ensures r.isMobileMenuOpen == s.isMobileMenuOpen && r.isManualToggle == s.isManualToggle
  {
    s.(isExpanded := !s.isExpanded)
  }

  function ToggleMobileMenu(s: SidebarState): (r: SidebarState)
    ensures r.isMobileMenuOpen == !s.isMobileMenuOpen
    ensures r.isExpanded == s.isExpanded && r.isManualToggle == s.isManualToggle
  {
    s.(isMobileMenuOpen := !s.isMobileMenuOpen)
  }

  function SetExpanded(s: SidebarState, expanded: bool): (r: SidebarState)
    ensures r.isExpanded == expanded
    ensures r.isMobileMenuOpen == s.isMobileMenuOpen && r.isManualToggle == s.isManualToggle
  {
    s.(isExpanded := expanded)
  }

  function SetManualToggle(s: SidebarState, manual: bool): (r: SidebarState)
    ensures r.isManualToggle == manual
    ensures r.isExpanded == s.isExpanded && r.isMobileMenuOpen == s.isMobileMenuOpen
  {
    s.(isManualToggle := manual)
  }

  /** Each toggle is its own inverse, and the two toggles commute. */
  lemma TogglesInvolutive(s: SidebarState)
    ensures ToggleSidebar(ToggleSidebar(s)) == s
    ensures ToggleMobileMenu(ToggleMobileMenu(s)) == s
    ensures ToggleSidebar(ToggleMobileMenu(s)) == ToggleMobileMenu(ToggleSidebar(s))
  {
  }

  /** Setting a field twice is setting it once; `setExpanded` is toggling when the value differs. */
  lemma SettersIdempotent(s: SidebarState, b: bool)
    ensures SetExpanded(SetExpanded(s, b), b) == SetExpanded(s, b)
    ensures SetManualToggle(SetManualToggle(s, b), b) == SetManualToggle(s, b)
    ensures SetExpanded(s, b) == if b == s.isExpanded then s else ToggleSidebar(s)
  {
  }

  /** The store object, whose actions overwrite its fields. */
  class Store {
    var isExpanded: bool
    var isMobileMenuOpen: bool
    var isManualToggle: bool

    function State(): SidebarState
      reads this
    {
      SidebarState(isExpanded, isMobileMenuOpen, isManualToggle)
    }

    constructor ()
      ensures State() == Initial
    {
      isExpanded := true;
      isMobileMenuOpen := false;
      isManualToggle := false;
    }

    method ToggleSidebarAction()
      modifies this
      ensures State() == ToggleSidebar(old(State()))
    {
      isExpanded := !isExpanded;
    }

    method ToggleMobileMenuAction()
      modifies this
      ensures State() == ToggleMobileMenu(old(State()))
    {
      isMobileMenuOpen := !isMobileMenuOpen;
    }

    method SetExpandedAction(expanded: bool)
      modifies this
      ensures State() == SetExpanded(old(State()), expanded)
    {
      isExpanded := expanded;
    }

    method SetManualToggleAction(manual: bool)
      modifies this
      ensures State() == SetManualToggle(old(State()), manual)
    {
      isManualToggle := manual;
    }
  }
}
