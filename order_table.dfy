/**
 * The display rules of the order table: the short order id, the status label,
 * the action cell, the meal-time cells, the page-size menu, the sortable header
 * and the "Showing X to Y" line under the table.
 */
module OrderTable {
  import opened Wrappers
  import Text
  import Orders

  /** `id.slice(-6)`. */
  function IdSuffix(id: string): (r: string)
    ensures |r| == if |id| < 6 then |id| else 6
    ensures id == id[..|id| - |r|] + r
  {
    if |id| < 6 then id else id[|id| - 6..]
  }

  /** `status.charAt(0).toUpperCase() + status.slice(1)`. */
  function StatusLabel(status: string): (r: string)
    ensures |r| == |status|
    ensures status != [] ==> r[0] == Text.UpperChar(status[0])
    ensures status != [] ==> r[1..] == status[1..]
  {
    if status == [] then [] else [Text.UpperChar(status[0])] + status[1..]
  }

  /** The four statuses an order can have, as the table labels them. */
  lemma StatusLabels()
    ensures StatusLabel("pending") == "Pending"
    ensures StatusLabel("confirmed") == "Confirmed"
    ensures StatusLabel("cancelled") == "Cancelled"
    ensures StatusLabel("failed") == "Failed"
  {
  }

  /** Lower-casing the first character of a label gives back a status that began in lower case. */
  lemma StatusLabelInverse(status: string)
    requires status != [] && 'a' <= status[0] <= 'z'
    ensures [Text.LowerChar(StatusLabel(status)[0])] + StatusLabel(status)[1..] == status
  {
    assert [status[0]] + status[1..] == status;
  }

  /** What the action cell of a row shows. */
  datatype Action = ChefName(name: string) | AssignChef(orderId: string) | NoAction

  function ActionCell(o: Orders.Order): (r: Action)
    ensures r.ChefName? <==> o.chef.Some?
    ensures r.ChefName? ==> r.name == o.chef.value.name
    ensures r.AssignChef? <==> o.chef.None? && o.status == "confirmed"
    ensures r.AssignChef? ==> r.orderId == o.id
  {
    match o.chef
    case Some(c) => ChefName(c.name)
    case None => if o.status == "confirmed" then AssignChef(o.id) else NoAction
  }

  const NotSelected := "Not selected"

  /** A meal time, or "Not selected" when it is missing or empty (both are falsy). */
  function MealTimeCell(m: Option<string>): (r: string)
    ensures m.Some? && m.value != [] ==> r == m.value
    ensures m.None? || m.value == [] ==> r == NotSelected
  {
    if m.Some? && m.value != [] then m.value else NotSelected
  }

  /** The "rows per page" menu. */
  const PageSizeOptions: seq<int> := [10, 20, 30, 40, 50]

  /** The menu offers exactly the multiples of ten from 10 to 50, in increasing order. */
  lemma PageSizeOptionsExactly()
    ensures forall n :: n in PageSizeOptions <==> 10 <= n <= 50 && n % 10 == 0
    ensures forall i, j :: 0 <= i < j < |PageSizeOptions| ==> PageSizeOptions[i] < PageSizeOptions[j]
  {
    forall n | 10 <= n <= 50 && n % 10 == 0
      ensures n in PageSizeOptions
    {
      assert n == 10 || n == 20 || n == 30 || n == 40 || n == 50;
    }
  }

  /** The only header with a click handler. */
  const SortableColumns: seq<Orders.Column> := [Orders.CreatedAt]

  /** Clicking it flips the creation-date sort, which starts newest first. */
  lemma SortableHeader(n: nat)
    ensures forall c :: c in SortableColumns <==> c == Orders.CreatedAt
    ensures Orders.ClickTimes(Orders.InitialSort, SortableColumns[0], n).direction
         == (if n % 2 == 0 then Orders.Desc else Orders.Asc)
  {
    Orders.HeaderClicks(n);
  }

  // ------------------------------------------------------- "Showing X to Y"

  function Min(a: int, b: int): int {
    if a < b then a else b
  }

  /**
   * The showing line as the table computes it: from `(page - 1) * size + 1` to
   * `min(page * size, rows)` of `rows` entries, where `rows` is the number of
   * orders handed to the table.
   */
  function ShowingAsWritten(page: int, size: int, rows: nat): (r: (int, int, nat))
    ensures r.0 == (page - 1) * size + 1
    ensures r.1 <= rows && r.1 <= page * size
    ensures r.1 == rows || r.1 == page * size
    ensures r.2 == rows
  {
    ((page - 1) * size + 1, Min(page * size, rows), rows)
  }

  /**
   * The server already sends one page, so the table never has more rows than
   * the page size; from the second page on, the line then ends before it
   * starts, and the total it names is no more than one page.
   */
  lemma ShowingAsWrittenInverted(page: int, size: int, rows: nat)
    requires page >= 2 && size >= 1 && rows <= size
    ensures ShowingAsWritten(page, size, rows).1 < ShowingAsWritten(page, size, rows).0
    ensures ShowingAsWritten(page, size, rows).2 < ShowingAsWritten(page, size, rows).0
  {
    assert (page - 1) * size >= size;
  }

  /** Page 2 of ten-row pages, with ten orders on it, reads "Showing 11 to 10 of 10 entries". */
  lemma ShowingAsWrittenExample()
    ensures ShowingAsWritten(2, 10, 10) == (11, 10, 10)
  {
  }

  /**
   * The line for a server page of `rows` orders: it starts after the earlier
   * pages and counts exactly the rows on this one.
   */
  function Showing(page: int, size: int, rows: nat): (r: (int, int))
    ensures r.0 == (page - 1) * size + 1
    ensures r.1 - r.0 + 1 == rows
  {
    ((page - 1) * size + 1, (page - 1) * size + rows)
  }

  /** For a page of at most `size` rows, the range stays within the page's own slots. */
  lemma ShowingWithinPage(page: int, size: int, rows: nat)
    requires page >= 1 && rows <= size
    ensures (page - 1) * size < Showing(page, size, rows).0
    ensures Showing(page, size, rows).1 <= page * size
  {
  }

  /** On the first page the two computations agree. */
  lemma ShowingFirstPageAgrees(size: int, rows: nat)
    requires rows <= size
    ensures Showing(1, size, rows).0 == ShowingAsWritten(1, size, rows).0
    ensures Showing(1, size, rows).1 == ShowingAsWritten(1, size, rows).1
  {
  }
}
