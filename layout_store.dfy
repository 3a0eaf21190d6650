/** The layout store of `src/hooks/useLayoutStore.js`: whether the sidebar is
    collapsed and whether the mobile sidebar is open. */
module Layout {

  class LayoutStore {
    var isCollapsed: bool
    var sidebarOpen: bool

    constructor ()
      ensures !isCollapsed && !sidebarOpen
    {
      isCollapsed, sidebarOpen := false, false;
    }

    method SetIsCollapsed(value: bool)
      modifies this
      ensures isCollapsed == value && sidebarOpen == old(sidebarOpen)
    {
      isCollapsed := value;
    }

    method ToggleCollapse()
      modifies this
      ensures isCollapsed == !old(isCollapsed) && sidebarOpen == old(sidebarOpen)
    {
      isCollapsed := !isCollapsed;
    }

    method SetSidebarOpen(value: bool)
      modifies this
      ensures sidebarOpen == value && isCollapsed == old(isCollapsed)
    {
      sidebarOpen := value;
    }
  }

  /** Toggling twice restores both fields. */
  method ToggleTwice(store: LayoutStore)
    modifies store
    ensures store.isCollapsed == old(store.isCollapsed) && store.sidebarOpen == old(store.sidebarOpen)
  {
    store.ToggleCollapse();
    store.ToggleCollapse();
  }
}
