/**
 * The user list and the chef list pages: the rows of the current server page,
 * a loading flag, an error message, and the page counters moved by the two
 * clamping buttons. Each page shows a loading text, an error text, or the
 * table with its page buttons.
 */
module ListView {
  import opened Wrappers
  import Pager

  /** How the fetch of one list page ended. */
  datatype Fetched<T> =
    | Success(rows: seq<T>, totalPages: int)
    | Refused(statusMessage: string)
    | Failed

  /** The texts each list shows when its request fails. */
  const UsersFailure := "Failed to fetch users"
  const ChefsFailure := "Failed to fetch chefs"

  /** What the page renders. */
  datatype Screen<T> =
    | LoadingScreen
    | ErrorScreen(message: string)
    | TableScreen(rows: seq<T>, pagerShown: bool)

  class ListPage<T> {
    var rows: seq<T>
    var loading: bool
    var error: Option<string>
    var currentPage: int
    var totalPages: int
    const failureText: string

    ghost predicate Valid()
      reads this
    {
      Pager.InRange(currentPage, totalPages)
    }

    /** No rows, loading, no error, page 1 of 1. */
    constructor (failureText: string)
      ensures rows == [] && loading && error == None
      ensures currentPage == 1 && totalPages == 1 && this.failureText == failureText
      ensures Valid()
    {
      rows := [];
      loading := true;
      error := None;
      currentPage := 1;
      totalPages := 1;
      this.failureText := failureText;
    }

    /**
     * Loading hides everything; otherwise a non-empty error replaces the table
     * (an empty message is falsy and shows the table); the page buttons appear
     * only with more than one page.
     */
    function View(): (s: Screen<T>)
      reads this
      ensures s.LoadingScreen? <==> loading
      ensures s.ErrorScreen? <==> !loading && error.Some? && error.value != []
      ensures s.ErrorScreen? ==> s.message == error.value
      ensures s.TableScreen? ==> s.rows == rows && (s.pagerShown <==> Pager.ClampedVisible(totalPages))
    {
      if loading then LoadingScreen
      else if error.Some? && error.value != [] then ErrorScreen(error.value)
      else TableScreen(rows, totalPages > 1)
    }

    /** The start of a fetch, run again whenever the page number changes. */
    method FetchStart()
      modifies this`loading
      ensures loading
    {
      loading := true;
    }

    /**
     * The end of a fetch: the rows and page count of a success, the status
     * message of a refusal, the list's failure text for a failed request. No
     * outcome clears an earlier error.
     */
    method FetchDone(outcome: Fetched<T>)
      modifies this`rows, this`totalPages, this`error, this`loading
      ensures !loading
      ensures outcome.Success? ==> rows == outcome.rows && totalPages == outcome.totalPages && error == old(error)
      ensures outcome.Refused? ==> rows == old(rows) && totalPages == old(totalPages)
                                   && error == Some(outcome.statusMessage)
      ensures outcome.Failed? ==> rows == old(rows) && totalPages == old(totalPages) && error == Some(failureText)
    {
      match outcome {
        case Success(rs, total) =>
          rows := rs;
          totalPages := total;
        case Refused(message) =>
          error := Some(message);
        case Failed =>
          error := Some(failureText);
      }
      loading := false;
    }

    /** "Previous": `Math.max(page - 1, 1)`. */
    method Previous()
      modifies this`currentPage
      ensures currentPage == Pager.ClampedPrevious(old(currentPage))
      ensures old(Valid()) ==> Valid()
    {
      currentPage := if currentPage - 1 > 1 then currentPage - 1 else 1;
    }

    /** "Next": `Math.min(page + 1, total)`. */
    method Next()
      modifies this`currentPage
      ensures currentPage == Pager.ClampedNext(old(currentPage), totalPages)
      ensures old(Valid()) ==> Valid()
    {
      currentPage := if currentPage + 1 < totalPages then currentPage + 1 else totalPages;
    }
  }

  /**
   * Once a fetch failed the page shows only the error: a later fetch cannot
   * clear it, and the page buttons that would start one are not rendered.
   */
  method ErrorStays<T>(p: ListPage<T>, outcome: Fetched<T>)
    requires !p.loading && p.error.Some? && p.error.value != []
    requires outcome.Refused? ==> outcome.statusMessage != []
    requires p.failureText != []
    modifies p
    ensures p.View().ErrorScreen?
  {
    p.FetchStart();
    p.FetchDone(outcome);
  }
}
