/**
 * The order list page: the orders of the current server page, the search term,
 * the sort column and direction, and the page counters. The page filters the
 * orders by the customer's name, sorts a copy of the result with a comparator
 * on one column, and hands that to the order table.
 */
module Orders {
  import opened Wrappers
  import Text
  import Seqs
  import Pager

  // ---------------------------------------------------------------- records

  datatype Customer = Customer(firstName: string, lastName: string)

  datatype ChefRef = ChefRef(name: string)

  /**
   * One order as the server sends it. Amounts and counts are integers here;
   * the three optional fields of the record, and the two meal times the table
   * treats as optional, are `Option`s.
   */
  datatype Order = Order(
    id: string,
    user: Customer,
    planId: string,
    totalPeople: int,
    morningMealTime: Option<string>,
    eveningMealTime: Option<string>,
    chefDayOff: string,
    planStartDate: string,
    baseAmount: int,
    extraPersonAmount: int,
    discountAmount: int,
    totalAmount: int,
    razorpayOrderId: string,
    status: string,
    createdAt: string,
    updatedAt: string,
    expiresAt: string,
    chef: Option<ChefRef>,
    version: int,
    razorpayPaymentId: Option<string>,
    razorpaySignature: Option<string>)

  /** The keys of an order, any of which can be the sort column. */
  datatype Column =
    | Id | User | PlanId | TotalPeople | MorningMealTime | EveningMealTime
    | ChefDayOff | PlanStartDate | BaseAmount | ExtraPersonAmount | DiscountAmount
    | TotalAmount | RazorpayOrderId | Status | CreatedAt | UpdatedAt | ExpiresAt
    | Chef | Version | RazorpayPaymentId | RazorpaySignature

  /** What `order[column]` evaluates to. */
  datatype Value = Undefined | Str(s: string) | Num(n: int) | Obj

  function OptStr(o: Option<string>): Value {
    match o
    case None => Undefined
    case Some(s) => Str(s)
  }

  function Field(o: Order, c: Column): Value {
    match c
    case Id => Str(o.id)
    case User => Obj
    case PlanId => Str(o.planId)
    case TotalPeople => Num(o.totalPeople)
    case MorningMealTime => OptStr(o.morningMealTime)
    case EveningMealTime => OptStr(o.eveningMealTime)
    case ChefDayOff => Str(o.chefDayOff)
    case PlanStartDate => Str(o.planStartDate)
    case BaseAmount => Num(o.baseAmount)
    case ExtraPersonAmount => Num(o.extraPersonAmount)
    case DiscountAmount => Num(o.discountAmount)
    case TotalAmount => Num(o.totalAmount)
    case RazorpayOrderId => Str(o.razorpayOrderId)
    case Status => Str(o.status)
    case CreatedAt => Str(o.createdAt)
    case UpdatedAt => Str(o.updatedAt)
    case ExpiresAt => Str(o.expiresAt)
    case Chef => if o.chef.Some? then Obj else Undefined
    case Version => Num(o.version)
    case RazorpayPaymentId => OptStr(o.razorpayPaymentId)
    case RazorpaySignature => OptStr(o.razorpaySignature)
  }

  /**
   * JavaScript's `<` on two values of one column: strings by their characters,
   * numbers by size; two objects both become "[object Object]", so neither is
   * less than the other.
   */
  predicate Less(a: Value, b: Value) {
    if a.Str? && b.Str? then Text.StrLess(a.s, b.s)
    else if a.Num? && b.Num? then a.n < b.n
    else false
  }

  // ---------------------------------------------------------------- sort state

  datatype Direction = Asc | Desc

  function Flip(d: Direction): (r: Direction)
    ensures r != d
  {
    if d == Asc then Desc else Asc
  }

  datatype SortState = SortState(column: Column, direction: Direction)

  /** The sort state after a click on the header of `clicked`. */
  function NextSort(st: SortState, clicked: Column): (r: SortState)
    ensures r.column == clicked
    ensures st.column == clicked ==> r.direction != st.direction
    ensures st.column != clicked ==> r.direction == Asc
  {
    if st.column == clicked then SortState(clicked, Flip(st.direction))
    else SortState(clicked, Asc)
  }

  /** Sorted on the creation date, newest first. */
  const InitialSort := SortState(CreatedAt, Desc)

  /** Clicking the same header twice restores the state. */
  lemma NextSortTwice(st: SortState)
    ensures NextSort(NextSort(st, st.column), st.column) == st
  {
  }

  /** Clicking a new column and then clicking it again sorts it descending. */
  lemma NewColumnThenAgain(st: SortState, c: Column)
    requires st.column != c
    ensures NextSort(NextSort(st, c), c) == SortState(c, Desc)
  {
  }

  function ClickTimes(st: SortState, c: Column, n: nat): SortState
    decreases n
  {
    if n == 0 then st else NextSort(ClickTimes(st, c, n - 1), c)
  }

  /**
   * The table's only sortable header is the creation date; from the initial
   * state, `n` clicks on it leave it descending exactly when `n` is even.
   */
  lemma {:induction false} HeaderClicks(n: nat)
    ensures ClickTimes(InitialSort, CreatedAt, n).column == CreatedAt
    ensures ClickTimes(InitialSort, CreatedAt, n).direction == (if n % 2 == 0 then Desc else Asc)
    decreases n
  {
    if n > 0 {
      HeaderClicks(n - 1);
    }
  }

  // ---------------------------------------------------------------- filter

  /** The customer's first or last name contains the term, ignoring case. */
  predicate NameMatches(o: Order, term: string) {
    Text.Contains(Text.Lower(o.user.firstName), Text.Lower(term))
    || Text.Contains(Text.Lower(o.user.lastName), Text.Lower(term))
  }

  function FilteredOrders(orders: seq<Order>, term: string): seq<Order> {
    Seqs.Filter(orders, o => NameMatches(o, term))
  }

  /**
   * The filter keeps exactly the orders whose customer name matches, in their
   * original relative order: `idx` lists the kept positions, increasing.
   */
  lemma FilterKeepsExactly(orders: seq<Order>, term: string) returns (idx: seq<int>)
    ensures Seqs.SelectedAt(FilteredOrders(orders, term), orders, idx)
    ensures forall i :: 0 <= i < |orders| ==> (i in idx <==> NameMatches(orders[i], term))
  {
    idx := Seqs.FilterSelects(orders, o => NameMatches(o, term));
  }

  /** An empty search keeps every order. */
  lemma EmptyTermKeepsAll(orders: seq<Order>)
    ensures FilteredOrders(orders, []) == orders
  {
    forall i | 0 <= i < |orders|
      ensures NameMatches(orders[i], [])
    {
      Text.ContainsEmpty(Text.Lower(orders[i].user.firstName));
    }
    Seqs.FilterAll(orders, o => NameMatches(o, []));
  }

  /** Terms that differ only in the case of their letters select the same orders. */
  lemma FilterIgnoresCase(orders: seq<Order>, t1: string, t2: string)
    requires Text.Lower(t1) == Text.Lower(t2)
    ensures FilteredOrders(orders, t1) == FilteredOrders(orders, t2)
  {
    Seqs.FilterAgree(orders, o => NameMatches(o, t1), o => NameMatches(o, t2));
  }

  // ---------------------------------------------------------------- sort

  /**
   * The comparator handed to `sort`: 0 when either side is undefined, otherwise
   * -1, 1 or 0 by `<` in each direction, the signs swapped for "desc".
   */
  function Compare(a: Order, b: Order, c: Column, d: Direction): (r: int)
    ensures r == 0 || r == 1 || r == -1
  {
    var av := Field(a, c);
    var bv := Field(b, c);
    if av == Undefined || bv == Undefined then 0
    else if Less(av, bv) then (if d == Asc then -1 else 1)
    else if Less(bv, av) then (if d == Asc then 1 else -1)
    else 0
  }

  /** Puts `x` before the first element it does not compare above. */
  function Insert(x: Order, r: seq<Order>, c: Column, d: Direction): seq<Order>
    decreases |r|
  {
    if r == [] then [x]
    else if Compare(x, r[0], c, d) <= 0 then [x] + r
    else [r[0]] + Insert(x, r[1..], c, d)
  }

  /**
   * `[...orders].sort(comparator)`: a stable insertion sort. It returns the
   * same orders (`SortPermutes`), ordered by the column when every order
   * defines it (`SortIsOrdered`), with orders of equal value in their input
   * order (`SortIsStable`).
   */
  function SortOrders(s: seq<Order>, c: Column, d: Direction): seq<Order>
    decreases |s|
  {
    if s == [] then [] else Insert(s[0], SortOrders(s[1..], c, d), c, d)
  }

  lemma {:induction false} InsertPermutes(x: Order, r: seq<Order>, c: Column, d: Direction)
    ensures multiset(Insert(x, r, c, d)) == multiset{x} + multiset(r)
    decreases |r|
  {
    if r != [] && Compare(x, r[0], c, d) > 0 {
      InsertPermutes(x, r[1..], c, d);
      assert r == [r[0]] + r[1..];
    }
  }

  /** Sorting returns the same orders, each as often as before. */
  lemma {:induction false} SortPermutes(s: seq<Order>, c: Column, d: Direction)
    ensures multiset(SortOrders(s, c, d)) == multiset(s)
    decreases |s|
  {
    if s != [] {
      var rest := SortOrders(s[1..], c, d);
      calc {
        multiset(SortOrders(s, c, d));
        multiset(Insert(s[0], rest, c, d));
        { InsertPermutes(s[0], rest, c, d); }
        multiset{s[0]} + multiset(rest);
        { SortPermutes(s[1..], c, d); }
        multiset{s[0]} + multiset(s[1..]);
        { assert s == [s[0]] + s[1..]; }
        multiset(s);
      }
    }
  }

  /** Every order has a value for column `c`. */
  predicate DefinedOn(s: seq<Order>, c: Column) {
    forall i :: 0 <= i < |s| ==> Field(s[i], c) != Undefined
  }

  /** `a` may precede `b`. */
  predicate Le(a: Order, b: Order, c: Column, d: Direction) {
    Compare(a, b, c, d) <= 0
  }

  predicate SortedBy(r: seq<Order>, c: Column, d: Direction) {
    forall i, j :: 0 <= i < j < |r| ==> Le(r[i], r[j], c, d)
  }

  /** Two defined values of one column are of one kind. */
  lemma SameKind(a: Order, b: Order, c: Column)
    requires Field(a, c) != Undefined && Field(b, c) != Undefined
    ensures Field(a, c).Str? <==> Field(b, c).Str?
    ensures Field(a, c).Num? <==> Field(b, c).Num?
  {
  }

  /** `<` on the values of one column never holds both ways. */
  lemma LessAsymmetric(u: Value, v: Value)
    requires Less(u, v)
    ensures !Less(v, u)
  {
    if u.Str? {
      Text.StrLessAsymmetric(u.s, v.s);
    }
  }

  /** If `w < u` then `w < v` or `v < u`, for values of one kind. */
  lemma LessSplits(u: Value, v: Value, w: Value)
    requires u.Str? <==> v.Str?
    requires u.Num? <==> v.Num?
    requires Less(w, u)
    ensures Less(w, v) || Less(v, u)
  {
    if u.Str? && v.s != u.s {
      Text.StrLessTotal(v.s, u.s);
      if Text.StrLess(u.s, v.s) {
        Text.StrLessTransitive(w.s, u.s, v.s);
      }
    }
  }

  /** With both sides defined, `Le(a, b)` means `b` is not below `a` in the direction. */
  lemma LeMeans(a: Order, b: Order, c: Column, d: Direction)
    requires Field(a, c) != Undefined && Field(b, c) != Undefined
    ensures d == Asc ==> (Le(a, b, c, d) <==> !Less(Field(b, c), Field(a, c)))
    ensures d == Desc ==> (Le(a, b, c, d) <==> !Less(Field(a, c), Field(b, c)))
  {
    if Less(Field(a, c), Field(b, c)) {
      LessAsymmetric(Field(a, c), Field(b, c));
    }
  }

  lemma LeTotal(a: Order, b: Order, c: Column, d: Direction)
    requires Field(a, c) != Undefined && Field(b, c) != Undefined
    ensures Le(a, b, c, d) || Le(b, a, c, d)
  {
    LeMeans(a, b, c, d);
    LeMeans(b, a, c, d);
    if Less(Field(a, c), Field(b, c)) {
      LessAsymmetric(Field(a, c), Field(b, c));
    }
  }

  lemma LeTransitive(a: Order, b: Order, e: Order, c: Column, d: Direction)
    requires Field(a, c) != Undefined && Field(b, c) != Undefined && Field(e, c) != Undefined
    requires Le(a, b, c, d) && Le(b, e, c, d)
    ensures Le(a, e, c, d)
  {
    LeMeans(a, b, c, d);
    LeMeans(b, e, c, d);
    LeMeans(a, e, c, d);
    SameKind(a, b, c);
    SameKind(b, e, c);
    var u, v, w := Field(a, c), Field(b, c), Field(e, c);
    if d == Asc && Less(w, u) {
      LessSplits(u, v, w);
    } else if d == Desc && Less(u, w) {
      LessSplits(w, v, u);
    }
  }

  /** `y` may precede every order of `r`. */
  predicate LeAll(y: Order, r: seq<Order>, c: Column, d: Direction) {
    forall j :: 0 <= j < |r| ==> Le(y, r[j], c, d)
  }

  lemma ConsSorted(y: Order, r: seq<Order>, c: Column, d: Direction)
    requires LeAll(y, r, c, d) && SortedBy(r, c, d)
    ensures SortedBy([y] + r, c, d)
  {
    var out := [y] + r;
    forall i, j | 0 <= i < j < |out|
      ensures Le(out[i], out[j], c, d)
    {
      assert out[j] == r[j - 1];
      if i > 0 {
        assert out[i] == r[i - 1];
      }
    }
  }

  lemma {:induction false} InsertDefined(x: Order, r: seq<Order>, c: Column, d: Direction)
    requires DefinedOn(r, c) && Field(x, c) != Undefined
    ensures DefinedOn(Insert(x, r, c, d), c)
    decreases |r|
  {
    if r != [] && Compare(x, r[0], c, d) > 0 {
      assert DefinedOn(r[1..], c) by {
        forall i | 0 <= i < |r[1..]|
          ensures Field(r[1..][i], c) != Undefined
        {
          assert r[1..][i] == r[i + 1];
        }
      }
      InsertDefined(x, r[1..], c, d);
      var out := Insert(x, r, c, d);
      forall i | 0 <= i < |out|
        ensures Field(out[i], c) != Undefined
      {
        if i > 0 {
          assert out[i] == Insert(x, r[1..], c, d)[i - 1];
        }
      }
    }
  }

  /** Inserting an order `y` may precede keeps `y` a lower bound. */
  lemma {:induction false} InsertKeepsBound(y: Order, x: Order, r: seq<Order>, c: Column, d: Direction)
    requires LeAll(y, r, c, d) && Le(y, x, c, d)
    ensures LeAll(y, Insert(x, r, c, d), c, d)
    decreases |r|
  {
    if r != [] && Compare(x, r[0], c, d) > 0 {
      assert LeAll(y, r[1..], c, d) by {
        forall j | 0 <= j < |r[1..]|
          ensures Le(y, r[1..][j], c, d)
        {
          assert r[1..][j] == r[j + 1];
        }
      }
      InsertKeepsBound(y, x, r[1..], c, d);
      var out := Insert(x, r, c, d);
      forall j | 0 <= j < |out|
        ensures Le(y, out[j], c, d)
      {
        if j > 0 {
          assert out[j] == Insert(x, r[1..], c, d)[j - 1];
        }
      }
    }
  }

  lemma {:induction false} InsertSorted(x: Order, r: seq<Order>, c: Column, d: Direction)
    requires SortedBy(r, c, d) && DefinedOn(r, c) && Field(x, c) != Undefined
    ensures SortedBy(Insert(x, r, c, d), c, d)
    ensures DefinedOn(Insert(x, r, c, d), c)
    decreases |r|
  {
    InsertDefined(x, r, c, d);
    if r == [] {
    } else if Compare(x, r[0], c, d) <= 0 {
      forall j | 0 <= j < |r|
        ensures Le(x, r[j], c, d)
      {
        if j > 0 {
          LeTransitive(x, r[0], r[j], c, d);
        }
      }
      ConsSorted(x, r, c, d);
    } else {
      var tail := r[1..];
      assert SortedBy(tail, c, d) && DefinedOn(tail, c) && LeAll(r[0], tail, c, d) by {
        forall i, j | 0 <= i < j < |tail|
          ensures Le(tail[i], tail[j], c, d)
        {
          assert tail[i] == r[i + 1] && tail[j] == r[j + 1];
        }
        forall i | 0 <= i < |tail|
          ensures Field(tail[i], c) != Undefined && Le(r[0], tail[i], c, d)
        {
          assert tail[i] == r[i + 1];
        }
      }
      InsertSorted(x, tail, c, d);
      LeTotal(x, r[0], c, d);
      InsertKeepsBound(r[0], x, tail, c, d);
      ConsSorted(r[0], Insert(x, tail, c, d), c, d);
    }
  }

  lemma {:induction false} SortSortedBy(s: seq<Order>, c: Column, d: Direction)
    requires DefinedOn(s, c)
    ensures SortedBy(SortOrders(s, c, d), c, d)
    ensures DefinedOn(SortOrders(s, c, d), c)
    decreases |s|
  {
    if s != [] {
      assert DefinedOn(s[1..], c) by {
        forall i | 0 <= i < |s[1..]|
          ensures Field(s[1..][i], c) != Undefined
        {
          assert s[1..][i] == s[i + 1];
        }
      }
      SortSortedBy(s[1..], c, d);
      InsertSorted(s[0], SortOrders(s[1..], c, d), c, d);
    }
  }

  /**
   * For a column every order defines, "asc" lists the orders with no later
   * value below an earlier one under `<`, and "desc" with no later value above
   * an earlier one; the result holds the same orders as the input.
   */
  lemma SortIsOrdered(s: seq<Order>, c: Column, d: Direction)
    requires DefinedOn(s, c)
    ensures multiset(SortOrders(s, c, d)) == multiset(s)
    ensures var r := SortOrders(s, c, d);
      forall i, j :: 0 <= i < j < |r| ==>
        if d == Asc then !Less(Field(r[j], c), Field(r[i], c))
        else !Less(Field(r[i], c), Field(r[j], c))
  {
    SortPermutes(s, c, d);
    SortSortedBy(s, c, d);
    var r := SortOrders(s, c, d);
    forall i, j | 0 <= i < j < |r|
      ensures if d == Asc then !Less(Field(r[j], c), Field(r[i], c))
              else !Less(Field(r[i], c), Field(r[j], c))
    {
      LeMeans(r[i], r[j], c, d);
    }
  }

  /** The test "the order's value for `c` is `v`". */
  function ValueIs(c: Column, v: Value): Order -> bool {
    o => Field(o, c) == v
  }

  /** Orders of equal value compare as 0, whichever their kind. */
  lemma EqualValuesTie(x: Order, y: Order, c: Column, d: Direction)
    requires Field(x, c) == Field(y, c)
    ensures Compare(x, y, c, d) == 0
  {
    if Less(Field(x, c), Field(y, c)) {
      LessAsymmetric(Field(x, c), Field(y, c));
    }
  }

  /** An order that `x` is inserted after holds a different value from `x`. */
  lemma PassedDiffers(x: Order, y: Order, c: Column, d: Direction, v: Value)
    requires Compare(x, y, c, d) > 0
    ensures !ValueIs(c, v)(x) || !ValueIs(c, v)(y)
  {
    if Field(x, c) == Field(y, c) {
      EqualValuesTie(x, y, c, d);
    }
  }

  /** Inserting `x` passes only orders whose value differs from `x`'s. */
  lemma {:induction false} InsertStable(x: Order, r: seq<Order>, c: Column, d: Direction, v: Value)
    ensures Seqs.Filter(Insert(x, r, c, d), ValueIs(c, v)) == Seqs.Filter([x] + r, ValueIs(c, v))
    decreases |r|
  {
    var p := ValueIs(c, v);
    if r != [] && Compare(x, r[0], c, d) > 0 {
      var tail := Insert(x, r[1..], c, d);
      assert Insert(x, r, c, d) == [r[0]] + tail;
      InsertStable(x, r[1..], c, d, v);
      PassedDiffers(x, r[0], c, d, v);
      calc {
        Seqs.Filter([r[0]] + tail, p);
        { Seqs.FilterAppend([r[0]], tail, p); }
        Seqs.Filter([r[0]], p) + Seqs.Filter(tail, p);
        Seqs.Filter([r[0]], p) + Seqs.Filter([x] + r[1..], p);
        { Seqs.FilterAppend([r[0]], [x] + r[1..], p); }
        Seqs.Filter([r[0]] + ([x] + r[1..]), p);
        { Seqs.FilterSwap(r[0], x, r[1..], p); }
        Seqs.Filter([x] + ([r[0]] + r[1..]), p);
        { assert [r[0]] + r[1..] == r; }
        Seqs.Filter([x] + r, p);
      }
    }
  }

  /**
   * The sort is stable: for every value of the column, the orders holding it
   * appear in the result in the order they had in the input. This holds on
   * every column, including those some orders leave undefined.
   */
  lemma {:induction false} SortIsStable(s: seq<Order>, c: Column, d: Direction, v: Value)
    ensures Seqs.Filter(SortOrders(s, c, d), ValueIs(c, v)) == Seqs.Filter(s, ValueIs(c, v))
    decreases |s|
  {
    if s != [] {
      var p := ValueIs(c, v);
      var rest := SortOrders(s[1..], c, d);
      calc {
        Seqs.Filter(SortOrders(s, c, d), p);
        Seqs.Filter(Insert(s[0], rest, c, d), p);
        { InsertStable(s[0], rest, c, d, v); }
        Seqs.Filter([s[0]] + rest, p);
        { Seqs.FilterAppend([s[0]], rest, p); }
        Seqs.Filter([s[0]], p) + Seqs.Filter(rest, p);
        { SortIsStable(s[1..], c, d, v); }
        Seqs.Filter([s[0]], p) + Seqs.Filter(s[1..], p);
        { Seqs.FilterAppend([s[0]], s[1..], p); assert [s[0]] + s[1..] == s; }
        Seqs.Filter(s, p);
      }
    }
  }

  /** Every order's `user` is an object, so sorting on `user` keeps the list as it is. */
  lemma SortOnUserKeepsOrder(s: seq<Order>, d: Direction)
    ensures SortOrders(s, User, d) == s
  {
    SortIsStable(s, User, d, Obj);
    Seqs.FilterAll(s, ValueIs(User, Obj));
    Seqs.FilterAll(SortOrders(s, User, d), ValueIs(User, Obj));
  }

  // ---------------------------------------------------------------- the page

  /** How the fetch of one page of orders ended. */
  datatype Fetched =
    | Success(orders: seq<Order>, totalPages: int)
    | Unsuccessful
    | Failed

  const FetchUnsuccessfulMessage := "Failed to fetch orders."
  const FetchFailedMessage := "An error occurred while fetching orders."

  /** The state of the order list page. */
  class OrdersPage {
    var orders: seq<Order>
    var searchTerm: string
    var sortColumn: Column
    var sortDirection: Direction
    var currentPage: int
    var pageSize: int
    var totalPages: int
    var isLoading: bool
    var error: Option<string>

    /** The page counter is within its bounds. */
    ghost predicate PageValid()
      reads this
    {
      Pager.InRange(currentPage, totalPages)
    }

    /** No orders yet; sorted on the creation date, newest first; page 1 of 1, ten rows. */
    constructor ()
      ensures orders == [] && searchTerm == []
      ensures sortColumn == CreatedAt && sortDirection == Desc
      ensures currentPage == 1 && pageSize == 10 && totalPages == 1
      ensures isLoading && error == None
      ensures PageValid()
    {
      orders := [];
      searchTerm := [];
      sortColumn := CreatedAt;
      sortDirection := Desc;
      currentPage := 1;
      pageSize := 10;
      totalPages := 1;
      isLoading := true;
      error := None;
    }

    /** The orders the page hands to the table: filtered, then a sorted copy. */
    function Shown(): seq<Order>
      reads this
    {
      SortOrders(FilteredOrders(orders, searchTerm), sortColumn, sortDirection)
    }

    method HandleSearch(term: string)
      modifies this`searchTerm
      ensures searchTerm == term
    {
      searchTerm := term;
    }

    method HandleSort(column: Column)
      modifies this`sortColumn, this`sortDirection
      ensures SortState(sortColumn, sortDirection)
           == NextSort(SortState(old(sortColumn), old(sortDirection)), column)
    {
      if sortColumn == column {
        sortDirection := if sortDirection == Asc then Desc else Asc;
      } else {
        sortColumn := column;
        sortDirection := Asc;
      }
    }

    /** A new page size always returns to the first page. */
    method HandlePageSizeChange(size: int)
      modifies this`pageSize, this`currentPage
      ensures pageSize == size && currentPage == 1
      ensures totalPages >= 1 ==> PageValid()
    {
      pageSize := size;
      currentPage := 1;
    }

    method FirstPage()
      modifies this`currentPage
      ensures currentPage == Pager.FirstPage()
      ensures totalPages >= 1 ==> PageValid()
    {
      currentPage := 1;
    }

    method PreviousPage()
      modifies this`currentPage
      ensures currentPage == Pager.GuardedPrevious(old(currentPage))
      ensures old(PageValid()) ==> PageValid()
    {
      if currentPage > 1 {
        currentPage := currentPage - 1;
      }
    }

    method NextPage()
      modifies this`currentPage
      ensures currentPage == Pager.GuardedNext(old(currentPage), totalPages)
      ensures old(PageValid()) ==> PageValid()
    {
      if currentPage < totalPages {
        currentPage := currentPage + 1;
      }
    }

    method LastPage()
      modifies this`currentPage
      ensures currentPage == Pager.LastPage(totalPages)
      ensures totalPages >= 1 ==> PageValid()
    {
      currentPage := totalPages;
    }

    /** The start of a fetch: loading, and the previous error cleared. */
    method FetchStart()
      modifies this`isLoading, this`error
      ensures isLoading && error == None
    {
      isLoading := true;
      error := None;
    }

    /** The end of a fetch: new orders and page count, or an error message. */
    method FetchDone(outcome: Fetched)
      modifies this`orders, this`totalPages, this`error, this`isLoading
      ensures !isLoading
      ensures outcome.Success? ==> orders == outcome.orders && totalPages == outcome.totalPages && error == None
      ensures outcome.Unsuccessful? ==> orders == old(orders) && totalPages == old(totalPages)
                                        && error == Some(FetchUnsuccessfulMessage)
      ensures outcome.Failed? ==> orders == old(orders) && totalPages == old(totalPages)
                                  && error == Some(FetchFailedMessage)
    {
      isLoading := false;
      error := None;
      match outcome
      case Success(os, total) =>
        orders := os;
        totalPages := total;
      case Unsuccessful =>
        error := Some(FetchUnsuccessfulMessage);
      case Failed =>
        error := Some(FetchFailedMessage);
    }
  }

  /**
   * What the page shows is a reordering of the orders that match the search,
   * and no order it shows fails to match; sorting touches neither `orders` nor
   * the filtered list, since it works on a copy.
   */
  lemma ShownAreFiltered(p: OrdersPage)
    ensures multiset(p.Shown()) == multiset(FilteredOrders(p.orders, p.searchTerm))
    ensures forall i :: 0 <= i < |p.Shown()| ==> NameMatches(p.Shown()[i], p.searchTerm)
  {
    var f := FilteredOrders(p.orders, p.searchTerm);
    SortPermutes(f, p.sortColumn, p.sortDirection);
    forall i | 0 <= i < |p.Shown()|
      ensures NameMatches(p.Shown()[i], p.searchTerm)
    {
      assert p.Shown()[i] in multiset(f);
      var k :| 0 <= k < |f| && f[k] == p.Shown()[i];
    }
  }
}
