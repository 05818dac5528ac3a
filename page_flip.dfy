/** The notebook frame around a logbook spread: its pages, with the page controls when there is more than one page. */
module PageFlip {

  import opened Optional
  import PageNavigation

  /** The properties handed to the page controls. */
  datatype NavigationProps<Callback> =
    NavigationProps(currentPage: int, totalPages: int, onPrevPage: Callback, onNextPage: Callback)

  datatype FlipProps<Node, Callback> =
    FlipProps(currentPage: int, totalPages: int, onPrevPage: Callback, onNextPage: Callback, children: Node)

  /** What the frame renders: its children, and the page controls or nothing. */
  datatype FlipView<Node, Callback> = FlipView(children: Node, navigation: Option<NavigationProps<Callback>>)

  predicate ShowsNavigation(totalPages: int) { totalPages > 1 }

  /** The frame's view; the children are rendered whatever the page count. */
  function Render<Node, Callback>(p: FlipProps<Node, Callback>): (r: FlipView<Node, Callback>)
    ensures r.children == p.children
    ensures r.navigation.Some? ==> r.navigation.value.totalPages >= 2
  {
    FlipView(
      p.children,
      if ShowsNavigation(p.totalPages)
      then Some(NavigationProps(p.currentPage, p.totalPages, p.onPrevPage, p.onNextPage))
      else None)
  }

  /** The controls are rendered exactly when there is more than one page, and get the frame's props unchanged. */
  lemma NavigationForwarded<Node, Callback>(p: FlipProps<Node, Callback>)
    ensures Render(p).navigation.Some? <==> p.totalPages > 1
    ensures Render(p).navigation.Some? ==>
              Render(p).navigation.value == NavigationProps(p.currentPage, p.totalPages, p.onPrevPage, p.onNextPage)
  {
  }

  /** When the controls are shown on a page in range, at least one of the buttons is enabled. */
  lemma ShownControlsCanMove<Node, Callback>(p: FlipProps<Node, Callback>)
    requires 0 <= p.currentPage < p.totalPages
    requires Render(p).navigation.Some?
    ensures var nav := Render(p).navigation.value;
      var view := PageNavigation.Render(nav.currentPage, nav.totalPages);
      !view.prevDisabled || !view.nextDisabled
  {
  }
}
