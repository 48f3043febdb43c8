/**
 * The page counters of the list views. Pages are numbered from 1 and the
 * number of pages comes from the server. The order table has four buttons whose
 * updates are guarded (first, previous, next, last); the user and chef lists
 * have two buttons that clamp, `Math.max(p - 1, 1)` and `Math.min(p + 1, total)`.
 */
module Pager {

  predicate InRange(page: int, total: int) {
    1 <= page <= total
  }

  // ------------------------------------------------ the order table's buttons

  /** "Previous page": steps back only from a page after the first. */
  function GuardedPrevious(page: int): (r: int)
    ensures 1 <= page ==> 1 <= r <= page
    ensures r == page <==> page <= 1
  {
    if page > 1 then page - 1 else page
  }

  /** "Next page": steps forward only from a page before the last. */
  function GuardedNext(page: int, total: int): (r: int)
    ensures page <= total ==> page <= r <= total
    ensures r == page <==> page >= total
  {
    if page < total then page + 1 else page
  }

  /** "First page". */
  function FirstPage(): int {
    1
  }

  /** "Last page": the number of pages the server reported. */
  function LastPage(total: int): int {
    total
  }

  /** A button is disabled on the page it would not leave. */
  predicate BackwardEnabled(page: int) {
    page != 1
  }

  predicate ForwardEnabled(page: int, total: int) {
    page != total
  }

  /** With at least one page, each of the four buttons keeps the page in range. */
  lemma GuardedKeepRange(page: int, total: int)
    requires InRange(page, total)
    ensures InRange(FirstPage(), total)
    ensures InRange(GuardedPrevious(page), total)
    ensures InRange(GuardedNext(page, total), total)
    ensures InRange(LastPage(total), total)
  {
  }

  /** A disabled button would leave the page where it is even if it fired. */
  lemma GuardedDisabledAreNoOps(page: int, total: int)
    ensures !BackwardEnabled(page) ==> FirstPage() == page && GuardedPrevious(page) == page
    ensures !ForwardEnabled(page, total) ==> GuardedNext(page, total) == page && LastPage(total) == page
  {
  }

  /** When the server reports no pages at all, "last page" leaves the range. */
  lemma LastPageWithoutPages(page: int)
    requires InRange(page, 1)
    ensures ForwardEnabled(page, 0) && !InRange(LastPage(0), 0) && LastPage(0) == 0
  {
  }

  datatype Click = First | Previous | Next | Last

  function Press(c: Click, page: int, total: int): int {
    match c
    case First => FirstPage()
    case Previous => GuardedPrevious(page)
    case Next => GuardedNext(page, total)
    case Last => LastPage(total)
  }

  /** The page after a sequence of clicks on the order table's buttons. */
  function PressAll(cs: seq<Click>, page: int, total: int): int
    decreases |cs|
  {
    if cs == [] then page else PressAll(cs[1..], Press(cs[0], page, total), total)
  }

  /** Any sequence of clicks keeps the page within 1 and the number of pages. */
  lemma {:induction false} PressAllKeepsRange(cs: seq<Click>, page: int, total: int)
    requires InRange(page, total)
    ensures InRange(PressAll(cs, page, total), total)
    decreases |cs|
  {
    if cs != [] {
      GuardedKeepRange(page, total);
      PressAllKeepsRange(cs[1..], Press(cs[0], page, total), total);
    }
  }

  /** `n` presses of "next page" move `n` pages forward, stopping at the last page. */
  lemma {:induction false} NextRepeatedly(n: nat, page: int, total: int)
    requires page <= total
    ensures PressAll(seq(n, _ => Next), page, total) == if page + n <= total then page + n else total
    decreases n
  {
    if n > 0 {
      var cs := seq(n, _ => Next);
      assert cs[0] == Next && cs[1..] == seq(n - 1, _ => Next);
      NextRepeatedly(n - 1, GuardedNext(page, total), total);
    }
  }

  /** `n` presses of "previous page" move `n` pages back, stopping at page 1. */
  lemma {:induction false} PreviousRepeatedly(n: nat, page: int, total: int)
    requires page >= 1
    ensures PressAll(seq(n, _ => Previous), page, total) == if page - n >= 1 then page - n else 1
    decreases n
  {
    if n > 0 {
      var cs := seq(n, _ => Previous);
      assert cs[0] == Previous && cs[1..] == seq(n - 1, _ => Previous);
      PreviousRepeatedly(n - 1, GuardedPrevious(page), total);
    }
  }

  // ------------------------------------------ the user and chef lists' buttons

  /** "Previous": `Math.max(page - 1, 1)`. */
  function ClampedPrevious(page: int): (r: int)
    ensures r >= 1 && r >= page - 1
    ensures r == 1 || r == page - 1
  {
    if page - 1 > 1 then page - 1 else 1
  }

  /** "Next": `Math.min(page + 1, total)`. */
  function ClampedNext(page: int, total: int): (r: int)
    ensures r <= total && r <= page + 1
    ensures r == total || r == page + 1
  {
    if page + 1 < total then page + 1 else total
  }

  /** The two buttons are shown only when there is more than one page. */
  predicate ClampedVisible(total: int) {
    total > 1
  }

  lemma ClampedKeepRange(page: int, total: int)
    requires InRange(page, total)
    ensures InRange(ClampedPrevious(page), total)
    ensures InRange(ClampedNext(page, total), total)
  {
  }

  /** "Previous" on the first page and "next" on the last leave the page unchanged. */
  lemma ClampedFixedPoints(total: int)
    requires total >= 1
    ensures ClampedPrevious(1) == 1
    ensures ClampedNext(total, total) == total
  {
  }

  /**
   * Where the two pagers differ: past the last page (the server reported fewer
   * pages than before) the clamped "next" jumps back to the last page, while
   * the guarded one stays put.
   */
  lemma BeyondLastPage(page: int, total: int)
    requires page > total
    ensures ClampedNext(page, total) == total < page
    ensures GuardedNext(page, total) == page
  {
  }

  datatype Move = Back | Forward

  function Step(m: Move, page: int, total: int): int {
    match m
    case Back => ClampedPrevious(page)
    case Forward => ClampedNext(page, total)
  }

  /** The page after a sequence of "previous" and "next" clicks. */
  function StepAll(ms: seq<Move>, page: int, total: int): int
    decreases |ms|
  {
    if ms == [] then page else StepAll(ms[1..], Step(ms[0], page, total), total)
  }

  /** Any sequence of "previous" and "next" keeps the page within 1 and the number of pages. */
  lemma {:induction false} StepAllKeepsRange(ms: seq<Move>, page: int, total: int)
    requires InRange(page, total)
    ensures InRange(StepAll(ms, page, total), total)
    decreases |ms|
  {
    if ms != [] {
      ClampedKeepRange(page, total);
      StepAllKeepsRange(ms[1..], Step(ms[0], page, total), total);
    }
  }

  /** `n` presses of "previous" move `n` pages back, stopping at the first page. */
  lemma {:induction false} BackRepeatedly(n: nat, page: int, total: int)
    requires page >= 1
    ensures StepAll(seq(n, _ => Back), page, total) == if page - n >= 1 then page - n else 1
    decreases n
  {
    if n > 0 {
      var ms := seq(n, _ => Back);
      assert ms[0] == Back && ms[1..] == seq(n - 1, _ => Back);
      BackRepeatedly(n - 1, ClampedPrevious(page), total);
    }
  }
}
