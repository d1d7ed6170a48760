/** Listing invoices page by page with a (created_at, id) cursor while the table changes underneath. */
module Paging {
  import opened Prelude

  /** A row of the filtered table; ids are compared as the database orders them. */
  datatype Row = Row(createdAt: int, id: nat)

  type Cursor = Option<Row>

  /** ORDER BY created_at DESC, id DESC */
  predicate Before(a: Row, b: Row) {
    a.createdAt > b.createdAt || (a.createdAt == b.createdAt && a.id > b.id)
  }

  /** The cursor filter of the query. */
  predicate Below(row: Row, cursor: Cursor) {
    cursor.None? ||
    (row.createdAt < cursor.value.createdAt || (row.createdAt == cursor.value.createdAt && row.id < cursor.value.id))
  }

  predicate Descending(rows: seq<Row>) {
    forall i, j :: 0 <= i < j < |rows| ==> Before(rows[i], rows[j])
  }

  lemma FirstExists(table: set<Row>)
    requires table != {}
    ensures exists top :: top in table && forall r :: r in table && r != top ==> Before(top, r)
    decreases |table|
  {
    var x :| x in table;
    var rest := table - {x};
    if rest == {} {
      assert table == {x};
    } else {
      FirstExists(rest);
      var top :| top in rest && forall r :: r in rest && r != top ==> Before(top, r);
      if Before(x, top) {
        forall r | r in table && r != x ensures Before(x, r) {
          assert r in rest;
        }
      } else {
        forall r | r in table && r != top ensures Before(top, r) {
          assert r == x || r in rest;
        }
      }
    }
  }

  ghost function First(table: set<Row>): (top: Row)
    requires table != {}
    ensures top in table && forall r :: r in table && r != top ==> Before(top, r)
  {
    FirstExists(table);
    var top :| top in table && forall r :: r in table && r != top ==> Before(top, r);
    top
  }

  /** The one-shot listing: every row of the table, in order. */
  ghost function Sorted(table: set<Row>): (rows: seq<Row>)
    ensures |rows| == |table|
    decreases |table|
  {
    if table == {} then [] else [First(table)] + Sorted(table - {First(table)})
  }

  ghost predicate Lists(rows: seq<Row>, table: set<Row>) {
    Descending(rows) && forall r :: r in rows <==> r in table
  }

  /** Putting the first row of a table before a listing of the others lists the table. */
  lemma ListsCons(top: Row, rest: seq<Row>, table: set<Row>)
    requires top in table && Lists(rest, table - {top}) && forall r :: r in table && r != top ==> Before(top, r)
    ensures Lists([top] + rest, table)
  {
    var rows := [top] + rest;
    forall r ensures r in rows <==> r in table {
      assert r in rows <==> r == top || r in rest;
    }
    forall j | 0 < j < |rows| ensures Before(rows[0], rows[j]) {
      assert rows[j] == rest[j - 1] && rest[j - 1] in rest;
    }
  }

  lemma {:induction false} SortedLists(table: set<Row>)
    ensures Lists(Sorted(table), table)
    decreases |table|
  {
    if table != {} {
      SortedLists(table - {First(table)});
      ListsCons(First(table), Sorted(table - {First(table)}), table);
    }
  }

  lemma ListHead(rows: seq<Row>, table: set<Row>)
    requires Lists(rows, table) && rows != []
    ensures rows[0] in table && forall r :: r in table && r != rows[0] ==> Before(rows[0], r)
  {
    assert rows[0] in rows;
    forall r | r in table && r != rows[0] ensures Before(rows[0], r) {
      assert r in rows;
    }
  }

  lemma ListTail(rows: seq<Row>, table: set<Row>)
    requires Lists(rows, table) && rows != []
    ensures Lists(rows[1..], table - {rows[0]})
  {
    var head, tail := rows[0], rows[1..];
    assert rows == [head] + tail;
    assert forall r :: r in rows <==> r == head || r in tail;
    assert head !in tail by {
      assert forall j :: 0 <= j < |tail| ==> tail[j] == rows[j + 1] && Before(rows[0], rows[j + 1]);
    }
  }

  /** There is only one descending listing of a table. */
  lemma {:induction false} ListingIsSorted(rows: seq<Row>, table: set<Row>)
    requires Lists(rows, table)
    ensures rows == Sorted(table)
    decreases |rows|
  {
    if rows == [] {
      assert forall r :: r !in table;
    } else {
      ListHead(rows, table);
      ListTail(rows, table);
      assert First(table) == rows[0];
      ListingIsSorted(rows[1..], table - {rows[0]});
    }
  }

  datatype Page = Page(rows: seq<Row>, next: Cursor)

  /** The page that is cut from a listing of what lies below the cursor. */
  ghost function CutPage(found: seq<Row>, limit: nat): Page
    requires limit >= 1
  {
    if |found| > limit then Page(found[..limit], Some(found[limit - 1])) else Page(found, None)
  }

  /** list_invoices: the first limit rows below the cursor, and a next cursor when there are more. */
  ghost function ListInvoices(table: set<Row>, cursor: Cursor, limit: nat): Page
    requires limit >= 1
  {
    CutPage(Sorted(set r | r in table && Below(r, cursor)), limit)
  }

  /** The client: one page per snapshot of the table, following the cursor, stopping when there is none. */
  ghost function Walk(tables: seq<set<Row>>, cursor: Cursor, limit: nat): (rows: seq<Row>)
    requires limit >= 1
    decreases |tables|
  {
    if tables == [] then []
    else
      var page := ListInvoices(tables[0], cursor, limit);
      if page.next.None? then page.rows else page.rows + Walk(tables[1..], page.next, limit)
  }

  /** The walk reaches a page without a cursor. */
  ghost predicate Ends(tables: seq<set<Row>>, cursor: Cursor, limit: nat)
    requires limit >= 1
    decreases |tables|
  {
    tables != [] &&
    var next := ListInvoices(tables[0], cursor, limit).next;
    next.None? || Ends(tables[1..], next, limit)
  }

  /** Cutting a descending listing: what is left out lies below the last row kept. */
  lemma Cut(found: seq<Row>, limit: nat)
    requires Descending(found) && 1 <= limit < |found|
    ensures var kept, last := found[..limit], found[limit - 1];
      && last in kept
      && (forall r :: r in kept ==> r in found && (r == last || Before(r, last)))
      && (forall r :: r in found ==> r in kept || Before(last, r))
  {
    var kept, last := found[..limit], found[limit - 1];
    assert kept[limit - 1] == last;
    forall r | r in kept ensures r in found && (r == last || Before(r, last)) {
      var i :| 0 <= i < limit && kept[i] == r;
      assert found[i] == r;
    }
    forall r | r in found ensures r in kept || Before(last, r) {
      var i :| 0 <= i < |found| && found[i] == r;
      if i < limit { assert kept[i] == r; }
    }
  }

  ghost predicate IsPageOf(page: Page, table: set<Row>, cursor: Cursor) {
    && Descending(page.rows)
    && (forall r :: r in page.rows ==> r in table && Below(r, cursor))
    && (forall r :: r in table && Below(r, cursor) ==> r in page.rows || (page.next.Some? && Below(r, page.next)))
    && (page.next.Some? ==>
          && page.next.value in page.rows
          && forall r :: r in page.rows ==> r == page.next.value || Before(r, page.next.value))
  }

  lemma FirstOf(found: seq<Row>, left: set<Row>, limit: nat)
    requires limit >= 1 && Lists(found, left)
    ensures var page := CutPage(found, limit);
      && Descending(page.rows) && |page.rows| <= limit && (forall r :: r in page.rows ==> r in left)
      && (forall r :: r in left ==> r in page.rows || (page.next.Some? && Below(r, page.next)))
      && (page.next.Some? ==>
            && page.next.value in page.rows
            && forall r :: r in page.rows ==> r == page.next.value || Before(r, page.next.value))
  {
    if |found| > limit {
      Cut(found, limit);
    }
  }

  lemma PageContents(table: set<Row>, cursor: Cursor, limit: nat)
    requires limit >= 1
    ensures IsPageOf(ListInvoices(table, cursor, limit), table, cursor)
    ensures |ListInvoices(table, cursor, limit).rows| <= limit
    ensures var page := ListInvoices(table, cursor, limit);
      && (page.next.Some? <==> |set r | r in table && Below(r, cursor)| > limit)
      && (page.next.Some? ==> |page.rows| == limit && page.next.value == page.rows[limit - 1])
  {
    var left := set r | r in table && Below(r, cursor);
    SortedLists(left);
    FirstOf(Sorted(left), left, limit);
  }

  lemma {:induction false} WalkBelow(tables: seq<set<Row>>, cursor: Cursor, limit: nat)
    requires limit >= 1
    ensures Descending(Walk(tables, cursor, limit))
    ensures forall r :: r in Walk(tables, cursor, limit) ==> Below(r, cursor)
    decreases |tables|
  {
    if tables != [] {
      var page := ListInvoices(tables[0], cursor, limit);
      PageContents(tables[0], cursor, limit);
      if page.next.Some? {
        WalkBelow(tables[1..], page.next, limit);
        var rest := Walk(tables[1..], page.next, limit);
        forall i, j | 0 <= i < j < |page.rows + rest| ensures Before((page.rows + rest)[i], (page.rows + rest)[j]) {
          if i < |page.rows| <= j {
            assert page.rows[i] in page.rows && rest[j - |page.rows|] in rest;
          }
        }
      }
    }
  }

  /**
   * Whatever is inserted or removed between pages: a walk that ends lists strictly downwards, hence
   * nothing twice, lists only rows some snapshot held, and lists every row that was there throughout.
   */
  lemma {:induction false} WalkIsComplete(tables: seq<set<Row>>, cursor: Cursor, limit: nat)
    requires limit >= 1
    ensures Descending(Walk(tables, cursor, limit))
    ensures forall r :: r in Walk(tables, cursor, limit) ==> exists i :: 0 <= i < |tables| && r in tables[i]
    ensures Ends(tables, cursor, limit) ==>
      forall r :: (forall i :: 0 <= i < |tables| ==> r in tables[i]) && Below(r, cursor) ==> r in Walk(tables, cursor, limit)
    decreases |tables|
  {
    WalkBelow(tables, cursor, limit);
    if tables != [] {
      var page := ListInvoices(tables[0], cursor, limit);
      var rows := Walk(tables, cursor, limit);
      PageContents(tables[0], cursor, limit);
      WalkIsComplete(tables[1..], page.next, limit);
      forall r | r in rows ensures exists i :: 0 <= i < |tables| && r in tables[i] {
        if r in page.rows {
          assert r in tables[0];
        } else {
          var i :| 0 <= i < |tables[1..]| && r in tables[1..][i];
          assert r in tables[i + 1];
        }
      }
    }
  }

  /** A table that does not change is listed exactly as one sorted query would. */
  lemma StableWalkIsSorted(table: set<Row>, tables: seq<set<Row>>, limit: nat)
    requires limit >= 1 && Ends(tables, None, limit)
    requires forall i :: 0 <= i < |tables| ==> tables[i] == table
    ensures Walk(tables, None, limit) == Sorted(table)
  {
    WalkIsComplete(tables, None, limit);
    ListingIsSorted(Walk(tables, None, limit), table);
  }

  /** On a table that does not change the walk ends: each page without it takes rows off what is left. */
  lemma {:induction false} StableWalkEnds(table: set<Row>, tables: seq<set<Row>>, cursor: Cursor, limit: nat)
    requires limit >= 1
    requires forall i :: 0 <= i < |tables| ==> tables[i] == table
    requires |tables| > |set r | r in table && Below(r, cursor)|
    ensures Ends(tables, cursor, limit)
    decreases |tables|
  {
    var page := ListInvoices(table, cursor, limit);
    if page.next.Some? {
      PageContents(table, cursor, limit);
      var left := set r | r in table && Below(r, cursor);
      var after := set r | r in table && Below(r, page.next);
      assert after <= left - {page.next.value};
      SubsetIsNoLarger(after, left - {page.next.value});
      StableWalkEnds(table, tables[1..], page.next, limit);
    }
  }
}
