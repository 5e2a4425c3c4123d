/**
 * The table logic of the web dashboard: the order on peer types, sorting
 * the peers and routes tables by a column, the sort-column state that a
 * header click changes, and the pagination of both tables.
 */
module Dashboard {
  import opened Common
  import opened Sorting
  import Api

  /* ----------------------------------------------------------------- peer types */

  datatype PeerType = Static | LinkLocalDiscovery | Inbound

  /** The dashboard's order on peer types. */
  function ComparePeerTypes(a: PeerType, b: PeerType): Ordering {
    match (a, b)
    case (Static, Static) => Equal
    case (Static, _) => Less
    case (LinkLocalDiscovery, Static) => Greater
    case (LinkLocalDiscovery, LinkLocalDiscovery) => Equal
    case (LinkLocalDiscovery, Inbound) => Less
    case (Inbound, Inbound) => Equal
    case (Inbound, _) => Greater
  }

  /** The position of a peer type in the order Static, LinkLocalDiscovery, Inbound. */
  function PeerTypeRank(t: PeerType): nat {
    match t
    case Static => 0
    case LinkLocalDiscovery => 1
    case Inbound => 2
  }

  /** The hand-written comparison is the numeric order of the ranks. */
  lemma ComparePeerTypesByRank(a: PeerType, b: PeerType)
    ensures ComparePeerTypes(a, b) == CompareInts(PeerTypeRank(a), PeerTypeRank(b))
  {
  }

  lemma ComparePeerTypesOrder()
    ensures ComparePeerTypes(Static, LinkLocalDiscovery) == Less
    ensures ComparePeerTypes(LinkLocalDiscovery, Inbound) == Less
    ensures ComparePeerTypes(Static, Inbound) == Less
  {
  }

  lemma ComparePeerTypesAntisymmetric(a: PeerType, b: PeerType)
    ensures ComparePeerTypes(b, a) == ComparePeerTypes(a, b).Reverse()
  {
    ComparePeerTypesByRank(a, b);
    ComparePeerTypesByRank(b, a);
  }

  /** Equality of peer types, which agrees with the comparison. */
  function PeerTypesEqual(a: PeerType, b: PeerType): (r: bool)
    ensures r <==> ComparePeerTypes(a, b) == Equal
  {
    ComparePeerTypesByRank(a, b);
    a == b
  }

  lemma ComparePeerTypesIsTotalPreorder()
    ensures IsTotalPreorder(ComparePeerTypes)
  {
    forall x, y ensures ComparePeerTypes(y, x) == ComparePeerTypes(x, y).Reverse() {
      ComparePeerTypesAntisymmetric(x, y);
    }
    forall x, y, z | ComparePeerTypes(x, y) != Greater && ComparePeerTypes(y, z) != Greater
      ensures ComparePeerTypes(x, z) != Greater
    {
      ComparePeerTypesByRank(x, y);
      ComparePeerTypesByRank(y, z);
      ComparePeerTypesByRank(x, z);
    }
  }

  /* ------------------------------------------------------------ sort directions */

  datatype SortDirection = Ascending | Descending

  function Flip(d: SortDirection): SortDirection {
    match d
    case Ascending => Descending
    case Descending => Ascending
  }

  /** A comparison read in the given direction. */
  function Directed(direction: SortDirection, o: Ordering): (r: Ordering)
    ensures direction == Ascending ==> r == o
    ensures direction == Descending ==> r == o.Reverse()
    ensures direction == Ascending ==> (r != Greater <==> o != Greater)
    ensures direction == Descending ==> (r != Greater <==> o != Less)
  {
    match direction
    case Ascending => o
    case Descending => o.Reverse()
  }

  function DirectedOrder<T>(cmp: (T, T) -> Ordering, direction: SortDirection): (T, T) -> Ordering {
    (a: T, b: T) => Directed(direction, cmp(a, b))
  }

  /** Reading a comparator backwards is still a comparator a sort can rely on. */
  lemma DirectedIsTotalPreorder<T(!new)>(cmp: (T, T) -> Ordering, direction: SortDirection)
    requires IsTotalPreorder(cmp)
    ensures IsTotalPreorder(DirectedOrder(cmp, direction))
  {
    var d := DirectedOrder(cmp, direction);
    forall x, y ensures d(y, x) == d(x, y).Reverse() {
      assert cmp(y, x) == cmp(x, y).Reverse();
    }
    forall x, y, z | d(x, y) != Greater && d(y, z) != Greater
      ensures d(x, z) != Greater
    {
      if direction == Descending {
        assert cmp(y, x) == cmp(x, y).Reverse() && cmp(z, y) == cmp(y, z).Reverse();
        assert cmp(z, x) == cmp(x, z).Reverse();
        assert cmp(z, y) != Greater && cmp(y, x) != Greater;
      }
    }
  }

  /* ------------------------------------------------------------------ peers table */

  /**
   * A row of the peers table. The endpoint is given by its text and the
   * connection state by its position in its type's declared order.
   */
  datatype PeerStats = PeerStats(endpoint: string, pt: PeerType, connectionState: nat, txBytes: U64, rxBytes: U64)

  predicate IsPeerColumn(column: string) {
    column == "Endpoint" || column == "Type" || column == "Connection State"
    || column == "Tx bytes" || column == "Rx bytes"
  }

  /** Compares two peers by the named column; any other name compares everything equal. */
  function ComparePeers(column: string, a: PeerStats, b: PeerStats): (r: Ordering)
    ensures !IsPeerColumn(column) ==> r == Equal
  {
    match column
    case "Endpoint" => CompareStrings(a.endpoint, b.endpoint)
    case "Type" => ComparePeerTypes(a.pt, b.pt)
    case "Connection State" => CompareInts(a.connectionState, b.connectionState)
    case "Tx bytes" => CompareInts(a.txBytes, b.txBytes)
    case "Rx bytes" => CompareInts(a.rxBytes, b.rxBytes)
    case _ => Equal
  }

  function PeerKeyOrder(column: string): (PeerStats, PeerStats) -> Ordering {
    (a: PeerStats, b: PeerStats) => ComparePeers(column, a, b)
  }

  lemma PeerKeyOrderIsTotalPreorder(column: string)
    ensures IsTotalPreorder(PeerKeyOrder(column))
  {
    var cmp := PeerKeyOrder(column);
    forall x, y ensures cmp(y, x) == cmp(x, y).Reverse() {
      CompareStringsAntisymmetric(x.endpoint, y.endpoint);
      ComparePeerTypesAntisymmetric(x.pt, y.pt);
    }
    forall x, y, z | cmp(x, y) != Greater && cmp(y, z) != Greater
      ensures cmp(x, z) != Greater
    {
      if column == "Endpoint" {
        CompareStringsTransitive(x.endpoint, y.endpoint, z.endpoint);
      } else if column == "Type" {
        ComparePeerTypesIsTotalPreorder();
        assert ComparePeerTypes(x.pt, y.pt) != Greater && ComparePeerTypes(y.pt, z.pt) != Greater;
      }
    }
  }

  /**
   * Sorts the peers table in place by a column: ascending or descending by
   * that column's key, a rearrangement of the same rows, and for a column
   * name it does not know, the rows stay where they are.
   */
  method SortPeers(peers: array<PeerStats>, column: string, direction: SortDirection)
    modifies peers
    ensures direction == Ascending ==>
      forall i, j :: 0 <= i < j < peers.Length ==> ComparePeers(column, peers[i], peers[j]) != Greater
    ensures direction == Descending ==>
      forall i, j :: 0 <= i < j < peers.Length ==> ComparePeers(column, peers[i], peers[j]) != Less
    ensures multiset(peers[..]) == multiset(old(peers[..]))
    ensures !IsPeerColumn(column) ==> peers[..] == old(peers[..])
  {
    var order := DirectedOrder(PeerKeyOrder(column), direction);
    PeerKeyOrderIsTotalPreorder(column);
    DirectedIsTotalPreorder(PeerKeyOrder(column), direction);
    if !IsPeerColumn(column) {
      assert SortedBy(peers[..], order);
    }
    InsertionSortBy(peers, order);
    forall i, j | 0 <= i < j < peers.Length
      ensures Directed(direction, ComparePeers(column, peers[i], peers[j])) != Greater
    {
      assert order(peers[..][i], peers[..][j]) != Greater;
    }
  }

  /* ----------------------------------------------------------------- routes table */

  /** The order on reported metrics: finite values numerically, all before infinite. */
  function CompareMetrics(a: Api.ApiMetric, b: Api.ApiMetric): (r: Ordering)
    ensures r == Equal <==> a == b
    ensures a.Value? && b.Infinite? ==> r == Less
  {
    match (a, b)
    case (Value(x), Value(y)) => CompareInts(x, y)
    case (Value(_), Infinite) => Less
    case (Infinite, Value(_)) => Greater
    case (Infinite, Infinite) => Equal
  }

  predicate IsRouteColumn(column: string) {
    column == "Subnet" || column == "Next-hop" || column == "Metric" || column == "Seqno"
  }

  /** Compares two routes by the named column; any other name compares everything equal. */
  function CompareRoutes(column: string, a: Api.Route, b: Api.Route): (r: Ordering)
    ensures !IsRouteColumn(column) ==> r == Equal
  {
    match column
    case "Subnet" => CompareStrings(a.subnet, b.subnet)
    case "Next-hop" => CompareStrings(a.nextHop, b.nextHop)
    case "Metric" => CompareMetrics(a.metric, b.metric)
    case "Seqno" => CompareInts(a.seqno, b.seqno)
    case _ => Equal
  }

  function RouteKeyOrder(column: string): (Api.Route, Api.Route) -> Ordering {
    (a: Api.Route, b: Api.Route) => CompareRoutes(column, a, b)
  }

  lemma RouteKeyOrderIsTotalPreorder(column: string)
    ensures IsTotalPreorder(RouteKeyOrder(column))
  {
    var cmp := RouteKeyOrder(column);
    forall x, y ensures cmp(y, x) == cmp(x, y).Reverse() {
      CompareStringsAntisymmetric(x.subnet, y.subnet);
      CompareStringsAntisymmetric(x.nextHop, y.nextHop);
    }
    forall x, y, z | cmp(x, y) != Greater && cmp(y, z) != Greater
      ensures cmp(x, z) != Greater
    {
      if column == "Subnet" {
        CompareStringsTransitive(x.subnet, y.subnet, z.subnet);
      } else if column == "Next-hop" {
        CompareStringsTransitive(x.nextHop, y.nextHop, z.nextHop);
      }
    }
  }

  /**
   * Sorts the routes table in place by a column, with the same guarantees as
   * the peers table.
   */
  method SortRoutes(routes: array<Api.Route>, column: string, direction: SortDirection)
    modifies routes
    ensures direction == Ascending ==>
      forall i, j :: 0 <= i < j < routes.Length ==> CompareRoutes(column, routes[i], routes[j]) != Greater
    ensures direction == Descending ==>
      forall i, j :: 0 <= i < j < routes.Length ==> CompareRoutes(column, routes[i], routes[j]) != Less
    ensures multiset(routes[..]) == multiset(old(routes[..]))
    ensures !IsRouteColumn(column) ==> routes[..] == old(routes[..])
  {
    var order := DirectedOrder(RouteKeyOrder(column), direction);
    RouteKeyOrderIsTotalPreorder(column);
    DirectedIsTotalPreorder(RouteKeyOrder(column), direction);
    if !IsRouteColumn(column) {
      assert SortedBy(routes[..], order);
    }
    InsertionSortBy(routes, order);
    forall i, j | 0 <= i < j < routes.Length
      ensures Directed(direction, CompareRoutes(column, routes[i], routes[j])) != Greater
    {
      assert order(routes[..][i], routes[..][j]) != Greater;
    }
  }

  /* ------------------------------------------------------------------- pagination */

  /** The index of the last page of a non-empty table. */
  function LastPage(len: nat, perPage: nat): nat
    requires perPage >= 1
  {
    if len == 0 then 0 else (len - 1) / perPage
  }

  /** The page a "change page" click leads to: the target, clamped to the existing pages. */
  function ClampPage(target: int, len: nat, perPage: nat): (r: nat)
    requires len >= 1 && perPage >= 1
    ensures r <= LastPage(len, perPage)
    ensures 0 <= target <= LastPage(len, perPage) ==> r == target
    ensures target < 0 ==> r == 0
    ensures target > LastPage(len, perPage) ==> r == LastPage(len, perPage)
  {
    var atLeastZero := if target < 0 then 0 else target;
    var last := (len - 1) / perPage;
    if atLeastZero < last then atLeastZero else last
  }

  /**
   * The rows shown on a page: from `page * perPage` up to `perPage` rows
   * further, cut at the end of the table. None where the slice would be
   * invalid.
   */
  function PageWindow(page: nat, perPage: nat, len: nat): Option<(nat, nat)> {
    var start := page * perPage;
    var end := if start + perPage < len then start + perPage else len;
    if start <= end then Some((start, end)) else None
  }

  /** On every existing page the window lies in the table, holds at most one page, and is not empty. */
  lemma PageWindowInRange(page: nat, perPage: nat, len: nat)
    requires perPage >= 1 && page <= LastPage(len, perPage)
    ensures PageWindow(page, perPage, len).Some?
    ensures var (start, end) := PageWindow(page, perPage, len).value;
      start <= end <= len && end - start <= perPage && (len >= 1 ==> start < end)
  {
    if len >= 1 {
      var last := (len - 1) / perPage;
      assert last * perPage <= len - 1;
      assert page * perPage <= last * perPage by {
        MultiplyMonotone(page, last, perPage);
      }
    }
  }

  lemma MultiplyMonotone(a: nat, b: nat, k: nat)
    requires a <= b
    ensures a * k <= b * k
  {
  }

  function PreviousDisabled(page: nat): bool {
    page == 0
  }

  function NextDisabled(page: nat, perPage: nat, len: nat): bool {
    (page + 1) * perPage >= len
  }

  /**
   * Each page button is disabled exactly where its click would leave the
   * page unchanged.
   */
  lemma ButtonsMatchPaging(page: nat, perPage: nat, len: nat)
    requires len >= 1 && perPage >= 1 && page <= LastPage(len, perPage)
    ensures PreviousDisabled(page) <==> ClampPage(page - 1, len, perPage) == page
    ensures NextDisabled(page, perPage, len) <==> ClampPage(page + 1, len, perPage) == page
  {
    var last := (len - 1) / perPage;
    assert len - 1 < (last + 1) * perPage;
    if page == last {
      assert NextDisabled(page, perPage, len);
    } else {
      MultiplyMonotone(page + 1, last, perPage);
      assert last * perPage <= len - 1;
      assert !NextDisabled(page, perPage, len);
    }
  }

  /**
   * An empty table can only be on page 0, and there both buttons are
   * disabled, so "change page" is never clicked on an empty table.
   */
  lemma EmptyTableButtonsDisabled(page: nat, perPage: nat)
    requires perPage >= 1 && page <= LastPage(0, perPage)
    ensures page == 0
    ensures PreviousDisabled(page) && NextDisabled(page, perPage, 0)
  {
  }

  /* --------------------------------------------------------------- sort column state */

  const ARROW_UP: string := " \U{2191}"
  const ARROW_DOWN: string := " \U{2193}"

  /** The arrow shown after a column header. */
  function SortIndicator(sortColumn: string, direction: SortDirection, column: string): (r: string)
    ensures r == "" <==> sortColumn != column
    ensures sortColumn == column ==> r == (if direction == Ascending then ARROW_UP else ARROW_DOWN)
  {
    if sortColumn == column then
      match direction
      case Ascending => ARROW_UP
      case Descending => ARROW_DOWN
    else ""
  }

  /**
   * The sort column and direction after a click on the header of `clicked`:
   * the active column flips its direction; another column becomes active
   * with the table's `freshDirection`.
   */
  function ClickColumn(sortColumn: string, direction: SortDirection, clicked: string, freshDirection: SortDirection): (r: (string, SortDirection))
    ensures r.0 == clicked
    ensures clicked == sortColumn ==> r.1 == Flip(direction) && r.1 != direction
    ensures clicked != sortColumn ==> r.1 == freshDirection
  {
    if clicked == sortColumn then (sortColumn, Flip(direction)) else (clicked, freshDirection)
  }

  /**
   * Two clicks on the same header: on the active column they restore the
   * direction, on another column they leave it at the flipped fresh direction.
   * Afterwards only that header shows an arrow.
   */
  lemma ClickColumnTwice(sortColumn: string, direction: SortDirection, clicked: string, freshDirection: SortDirection, other: string)
    ensures var (c1, d1) := ClickColumn(sortColumn, direction, clicked, freshDirection);
      var (c2, d2) := ClickColumn(c1, d1, clicked, freshDirection);
      && c2 == clicked
      && d2 == (if clicked == sortColumn then direction else Flip(freshDirection))
      && SortIndicator(c2, d2, clicked) != ""
      && (other != clicked ==> SortIndicator(c2, d2, other) == "")
  {
  }

  /** The paging and sort state a table keeps between renders. */
  class TableView {
    const itemsPerPage: nat
    const len: nat
    const freshColumnDirection: SortDirection
    var currentPage: nat
    var sortColumn: string
    var sortDirection: SortDirection

    ghost predicate Valid()
      reads this
    {
      itemsPerPage >= 1 && currentPage <= LastPage(len, itemsPerPage)
    }

    /** The peers table: 20 rows a page, sorted by type ascending; a new column starts descending. */
    constructor Peers(len: nat)
      ensures Valid()
      ensures this.len == len && itemsPerPage == 20 && currentPage == 0
      ensures sortColumn == "Type" && sortDirection == Ascending && freshColumnDirection == Descending
    {
      this.len := len;
      itemsPerPage := 20;
      freshColumnDirection := Descending;
      currentPage := 0;
      sortColumn := "Type";
      sortDirection := Ascending;
    }

    /** A routes table: 10 rows a page, sorted by subnet descending; a new column starts ascending. */
    constructor Routes(len: nat)
      ensures Valid()
      ensures this.len == len && itemsPerPage == 10 && currentPage == 0
      ensures sortColumn == "Subnet" && sortDirection == Descending && freshColumnDirection == Ascending
    {
      this.len := len;
      itemsPerPage := 10;
      freshColumnDirection := Ascending;
      currentPage := 0;
      sortColumn := "Subnet";
      sortDirection := Descending;
    }

    /** Moves `delta` pages, staying within the table's pages. */
    method ChangePage(delta: int)
      requires Valid() && len >= 1
      modifies this`currentPage
      ensures Valid()
      ensures currentPage == ClampPage(old(currentPage) + delta, len, itemsPerPage)
    {
      var target := currentPage + delta;
      var atLeastZero := if target < 0 then 0 else target;
      var last := (len - 1) / itemsPerPage;
      currentPage := if atLeastZero < last then atLeastZero else last;
    }

    /** Handles a click on the header of `column`. */
    method SortBy(column: string)
      requires Valid()
      modifies this`sortColumn, this`sortDirection
      ensures Valid()
      ensures (sortColumn, sortDirection) == ClickColumn(old(sortColumn), old(sortDirection), column, freshColumnDirection)
    {
      if column == sortColumn {
        sortDirection := Flip(sortDirection);
      } else {
        sortColumn := column;
        sortDirection := freshColumnDirection;
      }
    }

    /** The rows the current page shows. */
    function Window(): (r: (nat, nat))
      reads this
      requires Valid()
      ensures PageWindow(currentPage, itemsPerPage, len) == Some(r)
      ensures r.0 <= r.1 <= len && r.1 - r.0 <= itemsPerPage
      ensures len >= 1 ==> r.0 < r.1
    {
      PageWindowInRange(currentPage, itemsPerPage, len);
      PageWindow(currentPage, itemsPerPage, len).value
    }
  }
}
