/** Keyset pagination: newest first on (created_at, id), each page continuing below the
    position where the one before ended. */
module Paging {
  import opened Common

  /** The key of a row. */
  datatype Row = Row(ts: int, id: int)

  /** `next` is the position the client is handed to continue from. */
  datatype Page = Page(items: seq<Row>, next: Option<Row>)

  /** What a position has become when it arrives with the next request, having been
      encoded for the client and decoded again. */
  type Wire = Row -> Result<Row>

  predicate Above(a: Row, b: Row) { a.ts > b.ts || (a.ts == b.ts && a.id > b.id) }

  /** A table as `ORDER BY created_at DESC, id DESC` lists it. */
  ghost predicate Sorted(t: seq<Row>) {
    forall i, j :: 0 <= i < j < |t| ==> Above(t[i], t[j])
  }
  /** Its rows' positions survive the wire. */
  ghost predicate IsTable(t: seq<Row>, wire: Wire) {
    Sorted(t) && forall r {:trigger wire(r)} :: r in t ==> wire(r) == Ok(r)
  }

  /** `(created_at, id) < cursor`. */
  function Below(t: seq<Row>, c: Row): seq<Row> {
    if t == [] then [] else (if Above(c, t[0]) then [t[0]] else []) + Below(t[1..], c)
  }

  function Take(t: seq<Row>, n: nat): seq<Row> { if |t| <= n then t else t[..n] }

  /** Cut an overfetched result to the limit; the row beyond it says there is more. */
  function PageOf(rows: seq<Row>, limit: nat): Page {
    var items := Take(rows, limit);
    Page(items, if |rows| > limit && items != [] then Some(items[|items| - 1]) else None)
  }

  function Clamp(limit: int): nat { if limit < 1 then 1 else if limit > 100 then 100 else limit }

  /** A limit from 1 to 100 is taken as asked for, and any other as the nearest of these. */
  lemma ClampIsNearest(limit: int, other: int)
    requires 1 <= other <= 100
    ensures 1 <= Clamp(limit) <= 100
    ensures 1 <= limit <= 100 ==> Clamp(limit) == limit
    ensures (if limit < Clamp(limit) then Clamp(limit) - limit else limit - Clamp(limit))
            <= (if limit < other then other - limit else limit - other)
  {
  }

  /** One `history` request, `after` being the decoded cursor. */
  function History(t: seq<Row>, after: Option<Row>, limit: int): Page {
    var rows := match after case None => t case Some(c) => Below(t, c);
    PageOf(Take(rows, Clamp(limit) + 1), Clamp(limit))
  }

  // ── the filter on sorted tables ──────────────────────────────────────────

  lemma {:induction false} BelowKeeps(t: seq<Row>, c: Row)
    ensures forall r :: r in Below(t, c) <==> r in t && Above(c, r)
    ensures Sorted(t) ==> Sorted(Below(t, c))
  {
    if t != [] {
      BelowKeeps(t[1..], c);
      var rest := Below(t[1..], c);
      assert forall r :: r in t <==> r == t[0] || r in t[1..];
      if Sorted(t) {
        assert Sorted(t[1..]);
        forall j | 0 <= j < |rest| ensures Above(t[0], rest[j]) {
          assert rest[j] in t[1..];
        }
      }
    }
  }

  lemma HeadIsHighest(t: seq<Row>, r: Row)
    requires Sorted(t) && r in t
    ensures r == t[0] || Above(t[0], r)
  {
  }

  /** Two sorted lists of the same rows are the same list. */
  lemma {:induction false} SortedIsUnique(a: seq<Row>, b: seq<Row>)
    requires Sorted(a) && Sorted(b) && forall r :: r in a <==> r in b
    ensures a == b
  {
    assert b == [] || b[0] in b;
    if a != [] {
      assert a[0] in b;
      HeadIsHighest(b, a[0]);
      assert b[0] in a;
      HeadIsHighest(a, b[0]);
      assert a[0] == b[0];
      forall r ensures r in a[1..] <==> r in b[1..] {
        TailOf(a, r);
        TailOf(b, r);
      }
      SortedIsUnique(a[1..], b[1..]);
    }
  }

  lemma TailOf(t: seq<Row>, r: Row)
    requires Sorted(t) && t != []
    ensures r in t[1..] <==> r in t && r != t[0]
  {
  }

  /** Below its own k-th row a sorted table continues with the next. */
  lemma BelowOwnRow(t: seq<Row>, k: nat)
    requires Sorted(t) && k < |t|
    ensures Below(t, t[k]) == t[k + 1..]
  {
    BelowKeeps(t, t[k]);
    forall i | 0 <= i <= k ensures !Above(t[k], t[i]) {}
    forall r ensures r in Below(t, t[k]) <==> r in t[k + 1..] {
      if r in t && Above(t[k], r) {
        var i :| 0 <= i < |t| && t[i] == r;
        assert t[k + 1..][i - k - 1] == r;
      }
      if r in t[k + 1..] {
        var i :| 0 <= i < |t[k + 1..]| && t[k + 1..][i] == r;
        assert r == t[k + 1 + i];
      }
    }
    SortedIsUnique(Below(t, t[k]), t[k + 1..]);
  }

  /** Between two requests rows may come and go, but not at or below the cursor. */
  ghost predicate SameFrom(t: seq<Row>, t': seq<Row>, c: Row) {
    forall r {:trigger r in t'} :: !Above(r, c) ==> (r in t <==> r in t')
  }

  lemma BelowIsUndisturbed(t: seq<Row>, t': seq<Row>, c: Row)
    requires Sorted(t) && Sorted(t') && SameFrom(t, t', c)
    ensures Below(t, c) == Below(t', c)
  {
    BelowKeeps(t, c);
    BelowKeeps(t', c);
    SortedIsUnique(Below(t, c), Below(t', c));
  }

  // ── walking the cursors ──────────────────────────────────────────────────

  /** The requests of one reader, each answered from the table of its moment. */
  datatype Walk =
    | First(table: seq<Row>, page: Page)
    | Then(before: Walk, table: seq<Row>, page: Page)

  /** Each request follows the cursor of the one before, and in between the table changed
      only above that cursor. */
  ghost predicate IsWalk(w: Walk, limit: int, wire: Wire) {
    && IsTable(w.table, wire)
    && match w
       case First(t, page) => page == History(t, None, limit)
       case Then(before, t, page) => IsWalk(before, limit, wire) && FollowsPage(before.table, before.page, t, page, limit, wire)
  }
  ghost predicate FollowsPage(t: seq<Row>, before: Page, t': seq<Row>, page: Page, limit: int, wire: Wire) {
    && before.next.Some? && SameFrom(t, t', before.next.value)
    && wire(before.next.value).Ok?
    && page == History(t', Some(wire(before.next.value).value), limit)
  }

  function Items(w: Walk): seq<Row> {
    match w case First(_, page) => page.items case Then(before, _, page) => Items(before) + page.items
  }
  function Pages(w: Walk): nat {
    match w case First(_, _) => 1 case Then(before, _, _) => Pages(before) + 1
  }
  function Origin(w: Walk): seq<Row> {
    match w case First(t, _) => t case Then(before, _, _) => Origin(before)
  }

  /** What is left to read below the last page is what the first table still had. */
  ghost predicate OnTrack(first: seq<Row>, t: seq<Row>, page: Page, seen: nat) {
    if page.next.None? then seen >= |first|
    else 0 < seen < |first| && page.next == Some(first[seen - 1]) && Below(t, first[seen - 1]) == first[seen..]
  }

  lemma FirstPage(t: seq<Row>, limit: int)
    requires Sorted(t)
    ensures var page := History(t, None, limit);
            page.items == Take(t, Clamp(limit)) && OnTrack(t, t, page, Clamp(limit))
  {
    if |t| > Clamp(limit) {
      BelowOwnRow(t, Clamp(limit) - 1);
    }
  }

  lemma NextPage(first: seq<Row>, t: seq<Row>, t': seq<Row>, before: Page, seen: nat, limit: int)
    requires Sorted(t) && Sorted(t')
    requires OnTrack(first, t, before, seen) && before.next.Some? && SameFrom(t, t', before.next.value)
    ensures var page := History(t', before.next, limit);
            page.items == Take(first[seen..], Clamp(limit)) && OnTrack(first, t', page, seen + Clamp(limit))
  {
    var c, n, rest := first[seen - 1], Clamp(limit), first[seen..];
    BelowIsUndisturbed(t, t', c);
    CutPage(rest, n);
    assert History(t', before.next, limit) == PageOf(Take(rest, n + 1), n);
    if |rest| > n {
      BelowAll(t', c, rest[n - 1], rest, n - 1);
      assert rest[n..] == first[seen + n..] && rest[n - 1] == first[seen + n - 1];
    }
  }

  /** One row beyond the limit is enough to know that there are more. */
  lemma CutPage(rows: seq<Row>, n: nat)
    requires n > 0
    ensures PageOf(Take(rows, n + 1), n) == Page(Take(rows, n), if |rows| > n then Some(rows[n - 1]) else None)
  {
  }

  /** Below a row that is itself below `c`, the table continues as its part below `c` does. */
  lemma BelowAll(t: seq<Row>, c: Row, last: Row, rest: seq<Row>, k: nat)
    requires Sorted(t) && Below(t, c) == rest && k < |rest| && rest[k] == last
    ensures Below(t, last) == rest[k + 1..]
  {
    BelowKeeps(t, c);
    BelowKeeps(t, last);
    BelowKeeps(rest, last);
    BelowOwnRow(rest, k);
    assert last in rest;
    SortedIsUnique(Below(t, last), Below(rest, last));
  }

  lemma TakeTwice(t: seq<Row>, seen: nat, n: nat)
    requires seen <= |t|
    ensures Take(t, seen) + Take(t[seen..], n) == Take(t, seen + n)
  {
  }

  lemma OneMorePage(first: seq<Row>, t: seq<Row>, before: Page, t': seq<Row>, page: Page, seen: nat, limit: int)
    requires Sorted(t) && Sorted(t') && OnTrack(first, t, before, seen)
    requires before.next.Some? && SameFrom(t, t', before.next.value) && page == History(t', before.next, limit)
    ensures OnTrack(first, t', page, seen + Clamp(limit))
    ensures Take(first, seen) + page.items == Take(first, seen + Clamp(limit))
  {
    NextPage(first, t, t', before, seen, limit);
    TakeTwice(first, seen, Clamp(limit));
  }

  /** Pages times limit. */
  function Seen(w: Walk, limit: int): nat {
    match w case First(_, _) => Clamp(limit) case Then(before, _, _) => Seen(before, limit) + Clamp(limit)
  }

  lemma {:induction false} SeenIsTheProduct(w: Walk, limit: int)
    ensures Seen(w, limit) == Pages(w) * Clamp(limit)
  {
    if w.Then? {
      SeenIsTheProduct(w.before, limit);
      OneMore(Pages(w.before), Clamp(limit));
    }
  }

  /** After k pages exactly the first k * limit rows of the first table were returned, in
      order, each once; and there is a next cursor exactly while rows remain. */
  lemma {:induction false} WalkReadsInOrder(w: Walk, limit: int, wire: Wire)
    requires IsWalk(w, limit, wire)
    ensures IsTable(Origin(w), wire)
    ensures Items(w) == Take(Origin(w), Seen(w, limit))
    ensures w.page.next.Some? <==> Seen(w, limit) < |Origin(w)|
    ensures OnTrack(Origin(w), w.table, w.page, Seen(w, limit))
  {
    match w {
      case First(t, page) =>
        FirstPage(t, limit);
      case Then(before, t, page) =>
        WalkReadsInOrder(before, limit, wire);
        assert before.page.next.value in Origin(w);
        OneMorePage(Origin(w), before.table, before.page, t, page, Seen(before, limit), limit);
    }
  }

  lemma OneMore(k: nat, n: nat)
    ensures k * n + n == (k + 1) * n
  {
  }

  /** max(1, ceil(size / n)): a page for every full or begun `n` rows, and one for none. */
  function PagesFor(size: nat, n: nat): nat
    requires n > 0
  {
    if size <= n then 1 else 1 + PagesFor(size - n, n)
  }

  /** Following the cursors to the end visits every row of the first table exactly once,
      in descending order, in max(1, ceil(n / limit)) pages, whatever was inserted above. */
  lemma FullWalkVisitsEverything(w: Walk, limit: int, wire: Wire)
    requires IsWalk(w, limit, wire) && w.page.next.None?
    ensures Items(w) == Origin(w) && Sorted(Items(w))
    ensures Pages(w) == PagesFor(|Origin(w)|, Clamp(limit))
  {
    WalkReadsInOrder(w, limit, wire);
    if w.Then? {
      WalkReadsInOrder(w.before, limit, wire);
    }
    LeastPages(w, limit, |Origin(w)|);
  }

  lemma LeastPages(w: Walk, limit: int, size: nat)
    requires size <= Seen(w, limit) && (w.Then? ==> Seen(w.before, limit) < size)
    ensures Pages(w) == PagesFor(size, Clamp(limit))
  {
    SeenIsTheProduct(w, limit);
    if w.Then? {
      SeenIsTheProduct(w.before, limit);
    }
    PageCount(size, Clamp(limit), Pages(w));
  }

  lemma {:induction false} PageCount(size: nat, n: nat, k: nat)
    requires n > 0 && k > 0 && size <= k * n && (k > 1 ==> (k - 1) * n < size)
    ensures k == PagesFor(size, n)
  {
    if k > 1 {
      OneMore(k - 1, n);
      OneMore(k - 2, n);
      PageCount(size - n, n, k - 1);
    }
  }
}

/** The real wire: positions travel as cursors. */
module PagedHistory {
  import opened Common
  import opened Paging
  import Cursor

  /** What the database stores: whole microseconds in range, and a uuid. */
  ghost predicate Storable(r: Row) {
    Cursor.InRange(r.ts) && r.ts % 1000 == 0 && 0 <= r.id < Cursor.UUID_BOUND
  }

  function ThroughCursor(): Wire {
    (r: Row) =>
      if 0 <= r.id < Cursor.UUID_BOUND then
        match Cursor.Decode(Cursor.Encode(r.ts, r.id))
        case Ok((ts, id)) => Ok(Row(ts, id))
        case Err(e) => Err(e)
      else Err(Invalid)
  }

  lemma StorableSurvives(r: Row)
    requires Storable(r)
    ensures ThroughCursor()(r) == Ok(r)
  {
    Cursor.CursorRoundTrip(r.ts, r.id);
  }

  lemma StoredTable(t: seq<Row>)
    requires Sorted(t) && forall r :: r in t ==> Storable(r)
    ensures IsTable(t, ThroughCursor())
  {
    forall r | r in t ensures ThroughCursor()(r) == Ok(r) {
      StorableSurvives(r);
    }
  }

  /** The tables of a walk hold stored rows only, newest first. */
  ghost predicate AllStored(w: Walk) {
    && Sorted(w.table) && (forall r :: r in w.table ==> Storable(r))
    && (w.Then? ==> AllStored(w.before))
  }
  /** Every page but the first was asked for with the cursor of the page before it. */
  ghost predicate FollowsCursors(w: Walk, limit: int) {
    match w
    case First(t, page) => page == History(t, None, limit)
    case Then(before, t, page) =>
      FollowsCursors(before, limit) && FollowsPage(before.table, before.page, t, page, limit, ThroughCursor())
  }

  lemma {:induction false} StoredWalk(w: Walk, limit: int)
    requires AllStored(w) && FollowsCursors(w, limit)
    ensures IsWalk(w, limit, ThroughCursor())
  {
    StoredTable(w.table);
    if w.Then? {
      StoredWalk(w.before, limit);
    }
  }

  /** Reading a ledger history through its encoded cursors, to the end: every transfer
      once, newest first, in as few pages as hold them. */
  lemma CursorsVisitEverything(w: Walk, limit: int)
    requires AllStored(w) && FollowsCursors(w, limit) && w.page.next.None?
    ensures Items(w) == Origin(w) && Sorted(Items(w))
    ensures Pages(w) == PagesFor(|Origin(w)|, Clamp(limit))
  {
    StoredWalk(w, limit);
    FullWalkVisitsEverything(w, limit, ThroughCursor());
  }

  /** And a reader that is not at the end can always go on. */
  lemma NextRequestIsAnswered(w: Walk, limit: int, t: seq<Row>)
    requires AllStored(w) && FollowsCursors(w, limit) && w.page.next.Some?
    requires Sorted(t) && (forall r :: r in t ==> Storable(r)) && SameFrom(w.table, t, w.page.next.value)
    ensures var position := ThroughCursor()(w.page.next.value);
            position.Ok? && FollowsCursors(Then(w, t, History(t, Some(position.value), limit)), limit)
  {
    StoredWalk(w, limit);
    WalkReadsInOrder(w, limit, ThroughCursor());
    assert w.page.next.value in Origin(w);
  }
}
