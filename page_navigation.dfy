/**
 * The page controls under the logbook: a previous button, the page indicator
 * and a next button, over a zero-based `currentPage` and a `totalPages` count.
 */
module PageNavigation {

  import opened Optional
  import opened JsText

  /** On a page in range, only the first page disables the previous button. */
  predicate CanGoPrev(currentPage: int)
    ensures currentPage >= 0 ==> (!CanGoPrev(currentPage) <==> currentPage == 0)
  {
    currentPage > 0
  }

  /** On a page in range, only the last page disables the next button. */
  predicate CanGoNext(currentPage: int, totalPages: int)
    ensures currentPage < totalPages ==> (!CanGoNext(currentPage, totalPages) <==> currentPage == totalPages - 1)
  {
    currentPage < totalPages - 1
  }

  /** The indicator's text: the one-based page, " / ", then the page count. */
  function Indicator(currentPage: int, totalPages: int): (r: string)
    ensures ParseInt(r) == Some(currentPage + 1)
  {
    var rest := " / " + IntToString(totalPages);
    ParseIntOfRendered(currentPage + 1, rest);
    IntToString(currentPage + 1) + rest
  }

  /** What the controls show: which buttons are disabled, and the indicator. */
  datatype NavigationView = NavigationView(prevDisabled: bool, indicator: string, nextDisabled: bool)

  /** On a page in range, exactly the first page disables previous and exactly the last disables next. */
  function Render(currentPage: int, totalPages: int): (r: NavigationView)
    ensures 0 <= currentPage < totalPages ==>
              && (r.prevDisabled <==> currentPage == 0)
              && (r.nextDisabled <==> currentPage == totalPages - 1)
    ensures r.indicator == Indicator(currentPage, totalPages)
  {
    NavigationView(!CanGoPrev(currentPage), Indicator(currentPage, totalPages), !CanGoNext(currentPage, totalPages))
  }

  datatype Button = Previous | Next

  /** Whether a click on the button reaches its callback: a disabled button swallows it. */
  predicate Fires(b: Button, currentPage: int, totalPages: int)
  {
    var view := Render(currentPage, totalPages);
    match b
    case Previous => !view.prevDisabled
    case Next => !view.nextDisabled
  }

  /** The page one step in the button's direction. */
  function Step(b: Button, currentPage: int): int
  {
    match b
    case Previous => currentPage - 1
    case Next => currentPage + 1
  }

  /** From a page in range, a step that the guard lets through lands on a page in range. */
  lemma GuardedStepStaysInRange(b: Button, currentPage: int, totalPages: int)
    requires 0 <= currentPage < totalPages
    requires Fires(b, currentPage, totalPages)
    ensures 0 <= Step(b, currentPage) < totalPages
  {
  }

  /** Each button fires exactly when its step stays in range. */
  lemma FiresIffStepInRange(b: Button, currentPage: int, totalPages: int)
    requires 0 <= currentPage < totalPages
    ensures Fires(b, currentPage, totalPages) <==> 0 <= Step(b, currentPage) < totalPages
  {
  }

  /** On a single page both buttons are disabled. */
  lemma SinglePageDisablesBoth()
    ensures Render(0, 1).prevDisabled && Render(0, 1).nextDisabled
    ensures !Fires(Previous, 0, 1) && !Fires(Next, 0, 1)
  {
  }

  /** The indicator reads as three words: the one-based page, "/", and the page count. */
  lemma IndicatorWords(currentPage: int, totalPages: int)
    ensures Split(Indicator(currentPage, totalPages), ' ') ==
            [IntToString(currentPage + 1), "/", IntToString(totalPages)]
  {
    var page := IntToString(currentPage + 1);
    var count := IntToString(totalPages);
    IntToStringChars(currentPage + 1);
    IntToStringChars(totalPages);
    assert Indicator(currentPage, totalPages) == page + [' '] + ("/" + [' '] + count);
    SplitAtFirstSeparator(page, ' ', "/" + [' '] + count);
    SplitAtFirstSeparator("/", ' ', count);
    SplitWithoutSeparator(count, ' ');
  }

  /**
   * The first and last words read back as the one-based page and the count;
   * for a page in range the shown page lies in 1..totalPages.
   */
  lemma IndicatorShowsOneBasedPage(currentPage: int, totalPages: int)
    ensures var words := Split(Indicator(currentPage, totalPages), ' ');
      |words| == 3 && ParseInt(words[0]) == Some(currentPage + 1) && ParseInt(words[2]) == Some(totalPages)
    ensures var words := Split(Indicator(currentPage, totalPages), ' ');
      0 <= currentPage < totalPages ==> 1 <= ParseInt(words[0]).value <= ParseInt(words[2]).value
  {
    IndicatorWords(currentPage, totalPages);
    ParseIntRoundTrip(currentPage + 1);
    ParseIntRoundTrip(totalPages);
  }
}
