/**
  Cursor paging over a fetched list: a page starts after the item the cursor names and, when more
  follow, names its own last item as the next cursor.
 */
module CursorPaging {
  import opened Text
  import opened Ordering

  const MAXIMUM_CURSOR: nat := 128
  const MAXIMUM_RESULTS: int := 25
  const DEFAULT_RESULTS: int := 10

  const START := Name("")

  datatype Item<T> = Item(id: Name, view: T)

  datatype Page<T> = Page(items: seq<Item<T>>, next: Name)

  /** The limit to use, if cursor and limit are acceptable. */
  function BoundedPage(cursor: Name, limit: int): Option<nat> {
    if ByteLength(cursor.text) > MAXIMUM_CURSOR then None
    else
      var n := if limit == 0 then DEFAULT_RESULTS else limit;
      if n < 1 || n > MAXIMUM_RESULTS then None else Some(n)
  }

  /** The limits as written: a cursor of at most 128 bytes, and one to twenty-five results, ten unless said. */
  lemma BoundedExactly(cursor: Name, limit: int)
    ensures BoundedPage(cursor, limit)
         == if ByteLength(cursor.text) <= 128 && 0 <= limit <= 25 then Some(if limit == 0 then 10 else limit) else None
  {
  }

  /** The items after the first one with the cursor's name; all of them for the empty cursor. */
  function After<T>(items: seq<Item<T>>, cursor: Name): seq<Item<T>> {
    if cursor == START then items
    else if items == [] then []
    else if items[0].id == cursor then items[1..]
    else After(items[1..], cursor)
  }

  function FirstOf<T>(items: seq<T>, n: nat): seq<T> {
    if |items| <= n then items else items[..n]
  }

  function Finish<T>(views: seq<Item<T>>, limit: nat): Page<T>
    requires limit >= 1
  {
    if |views| > limit then Page(views[..limit], views[limit - 1].id) else Page(views, START)
  }

  function PageAfter<T>(items: seq<Item<T>>, cursor: Name, limit: nat): Page<T>
    requires limit >= 1
  {
    Finish(FirstOf(After(items, cursor), limit + 1), limit)
  }

  lemma AfterStep<T>(items: seq<Item<T>>, cursor: Name, n: nat)
    requires n < |items| && cursor != START
    ensures After(items[n..], cursor) == if items[n].id == cursor then items[n + 1..] else After(items[n + 1..], cursor)
  {
    assert items[n..][1..] == items[n + 1..];
  }

  /** Scans with a flag that is set once the cursor's item has gone by, and stops one item past the limit. */
  method BuildPage<T>(items: seq<Item<T>>, cursor: Name, limit: nat) returns (page: Page<T>)
    requires limit >= 1
    ensures page == PageAfter(items, cursor, limit)
  {
    var views: seq<Item<T>> := [];
    var passed := cursor == START;
    ghost var all := After(items, cursor);
    for n := 0 to |items|
      invariant |views| <= limit
      invariant passed ==> all == views + items[n..]
      invariant !passed ==> views == [] && cursor != START && all == After(items[n..], cursor)
    {
      if !passed {
        AfterStep(items, cursor, n);
        passed := items[n].id == cursor;
        continue;
      }
      assert items[n..] == [items[n]] + items[n + 1..];
      views := views + [items[n]];
      if |views| == limit + 1 {
        assert all[..limit + 1] == views;
        break;
      }
    }
    page := Finish(views, limit);
  }

  // ----- Following the cursor ---------------------------------------------------------------

  predicate DistinctNames<T>(items: seq<Item<T>>) {
    forall i, j :: 0 <= i < j < |items| ==> items[i].id != items[j].id
  }

  predicate NamesFit<T>(items: seq<Item<T>>) {
    forall i :: 0 <= i < |items| ==> items[i].id != START && ByteLength(items[i].id.text) <= MAXIMUM_CURSOR
  }

  /** The cursor named by the item before place n; the empty one at the start. */
  function CursorAt<T>(items: seq<Item<T>>, n: nat): Name
    requires n <= |items|
  {
    if n == 0 then START else items[n - 1].id
  }

  lemma {:induction false} AfterCursor<T>(items: seq<Item<T>>, n: nat)
    requires DistinctNames(items) && NamesFit(items) && n <= |items|
    ensures After(items, CursorAt(items, n)) == items[n..]
    decreases items
  {
    if n > 0 {
      var rest := items[1..];
      if n == 1 {
        assert items[0].id == CursorAt(items, 1);
      } else {
        assert items[0].id != items[n - 1].id;
        assert CursorAt(rest, n - 1) == CursorAt(items, n);
        AfterCursor(rest, n - 1);
        assert rest[n - 1..] == items[n..];
      }
    }
  }

  /** The page at place n: the next items, and a cursor exactly when more follow. */
  lemma PageAt<T>(items: seq<Item<T>>, n: nat, limit: nat)
    requires DistinctNames(items) && NamesFit(items) && n <= |items| && limit >= 1
    ensures PageAfter(items, CursorAt(items, n), limit)
         == if n + limit < |items| then Page(items[n..n + limit], CursorAt(items, n + limit))
            else Page(items[n..], START)
  {
    AfterCursor(items, n);
    var views := FirstOf(items[n..], limit + 1);
    if n + limit < |items| {
      assert views[..limit] == items[n..n + limit];
      assert views[limit - 1] == items[n + limit - 1];
    }
  }

  /** Follows cursors from the given one, for at most the given number of pages. */
  function Follow<T>(items: seq<Item<T>>, cursor: Name, limit: nat, pages: nat): Option<seq<Item<T>>>
    requires limit >= 1
    decreases pages
  {
    if pages == 0 then None
    else
      var page := PageAfter(items, cursor, limit);
      if page.next == START then Some(page.items)
      else Joined(page.items, Follow(items, page.next, limit, pages - 1))
  }

  function Joined<T>(first: seq<Item<T>>, rest: Option<seq<Item<T>>>): Option<seq<Item<T>>> {
    match rest case None => None case Some(items) => Some(first + items)
  }

  /** How many pages a number of items takes; no items take one, empty page. */
  function PagesFor(count: nat, limit: nat): (pages: nat)
    requires limit >= 1
    ensures 1 <= pages <= count + 1
    decreases count
  {
    if count <= limit then 1 else 1 + PagesFor(count - limit, limit)
  }

  lemma SliceJoin<T>(items: seq<T>, n: nat, m: nat)
    requires n <= m <= |items|
    ensures items[n..m] + items[m..] == items[n..]
  {
  }

  lemma {:induction false} FollowFrom<T>(items: seq<Item<T>>, n: nat, limit: nat)
    requires DistinctNames(items) && NamesFit(items) && n <= |items| && limit >= 1
    ensures Follow(items, CursorAt(items, n), limit, PagesFor(|items| - n, limit)) == Some(items[n..])
    decreases |items| - n
  {
    PageAt(items, n, limit);
    if n + limit < |items| {
      var m := n + limit;
      FollowFrom(items, m, limit);
      CursorPresent(items, m);
      FollowMore(items, n, m, limit);
    } else {
      FollowLast(items, CursorAt(items, n), limit, items[n..]);
    }
  }

  /** Another page before those that follow. */
  lemma FollowMore<T>(items: seq<Item<T>>, n: nat, m: nat, limit: nat)
    requires m == n + limit < |items| && limit >= 1 && CursorAt(items, m) != START
    requires PageAfter(items, CursorAt(items, n), limit) == Page(items[n..m], CursorAt(items, m))
    requires Follow(items, CursorAt(items, m), limit, PagesFor(|items| - m, limit)) == Some(items[m..])
    ensures Follow(items, CursorAt(items, n), limit, PagesFor(|items| - n, limit)) == Some(items[n..])
  {
    SliceJoin(items, n, m);
    var pages := PagesFor(|items| - m, limit);
    FollowStep(items, CursorAt(items, n), limit, pages, items[n..m], CursorAt(items, m), items[m..]);
  }

  lemma FollowLast<T>(items: seq<Item<T>>, cursor: Name, limit: nat, rest: seq<Item<T>>)
    requires limit >= 1 && PageAfter(items, cursor, limit) == Page(rest, START)
    ensures Follow(items, cursor, limit, 1) == Some(rest)
  {
  }

  lemma FollowStep<T>(
      items: seq<Item<T>>, cursor: Name, limit: nat, pages: nat, first: seq<Item<T>>, next: Name, rest: seq<Item<T>>)
    requires limit >= 1 && PageAfter(items, cursor, limit) == Page(first, next) && next != START
    requires Follow(items, next, limit, pages) == Some(rest)
    ensures Follow(items, cursor, limit, 1 + pages) == Some(first + rest)
  {
  }

  lemma CursorPresent<T>(items: seq<Item<T>>, n: nat)
    requires NamesFit(items) && 0 < n <= |items|
    ensures CursorAt(items, n) != START
  {
  }

  /** Following the cursors visits every fetched item once, in order, and stops after the pages they take. */
  lemma FollowVisitsAll<T>(items: seq<Item<T>>, limit: nat)
    requires DistinctNames(items) && NamesFit(items) && limit >= 1
    ensures Follow(items, START, limit, PagesFor(|items|, limit)) == Some(items)
  {
    FollowFrom(items, 0, limit);
    assert items[0..] == items;
  }

  /** No cursor on the way is refused: each is an item's name of at most 128 bytes. */
  lemma CursorsAccepted<T>(items: seq<Item<T>>, n: nat, limit: int)
    requires NamesFit(items) && n <= |items| && BoundedPage(START, limit).Some?
    ensures BoundedPage(CursorAt(items, n), limit) == BoundedPage(START, limit)
  {
  }
}
