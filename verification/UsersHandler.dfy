/** The two list handlers: by ids, and page by page. */
module UsersListing {
  import opened UsersModel
  import opened UsersAccess
  import opened UsersProtocol
  import opened Wrappers

  /** The listed rows of a map, in the order of the ids and as often as they occur. */
  function InOrder(ids: seq<Id>, items: map<Id, Row>): seq<Row> {
    if ids == [] then []
    else InOrder(ids[..|ids| - 1], items)
         + (if ids[|ids| - 1] in items then [items[ids[|ids| - 1]]] else [])
  }

  method ListByIDs(dao: UsersDao, ids: seq<Id>, f: Faults) returns (r: Option<seq<Row>>, ghost queries: nat)
    requires dao.Valid()
    modifies dao.store
    ensures dao.cached ==>
              (exists items :: BatchStep(old(dao.State()), ids, f, dao.State(), items, queries)
                               && r == if items.None? then None else Some(InOrder(ids, items.value)))
    ensures !dao.cached ==> r == if f.database then None else Some(InOrder(ids, UncachedMap(old(dao.State()), ids)))
  {
    var items, q := dao.GetByIDs(ids, f);
    queries := q;
    if items.None? {
      return None, q;
    }
    var users: seq<Row> := [];
    for i := 0 to |ids|
      invariant users == InOrder(ids[..i], items.value)
    {
      assert ids[..i + 1][..i] == ids[..i];
      if ids[i] in items.value {
        users := users + [items.value[ids[i]]];
      }
    }
    assert ids[..|ids|] == ids;
    r := Some(users);
  }

  /** The reply holds the row of every id that was found, as often as that id was asked for, and nothing else. */
  lemma {:induction false} InOrderKeepsOccurrences(ids: seq<Id>, items: map<Id, Row>)
    requires forall i | i in items :: items[i].id == i
    ensures forall id | id in items :: multiset(InOrder(ids, items))[items[id]] == multiset(ids)[id]
    ensures forall row | row in InOrder(ids, items) :: row.id in items && row == items[row.id] && row.id in ids
  {
    if ids != [] {
      var n := |ids| - 1;
      InOrderKeepsOccurrences(ids[..n], items);
      assert ids == ids[..n] + [ids[n]];
    }
  }

  ghost predicate Increasing(positions: seq<nat>) {
    forall i, j | 0 <= i < j < |positions| :: positions[i] < positions[j]
  }

  /** The rows of a reply are those of increasing positions in the list, with none left out. */
  ghost predicate Follows(users: seq<Row>, ids: seq<Id>, items: map<Id, Row>, positions: seq<nat>) {
    && |positions| == |users| && Increasing(positions)
    && (forall i | 0 <= i < |positions| ::
          positions[i] < |ids| && ids[positions[i]] in items && users[i] == items[ids[positions[i]]])
    && (forall p: nat | p < |ids| && ids[p] in items :: p in positions)
  }

  lemma FollowsSkips(users: seq<Row>, ids: seq<Id>, items: map<Id, Row>, positions: seq<nat>, id: Id)
    requires Follows(users, ids, items, positions) && id !in items
    ensures Follows(users, ids + [id], items, positions)
  {
    var list := ids + [id];
    assert forall p: nat | p < |ids| :: list[p] == ids[p];
  }

  lemma FollowsTakes(users: seq<Row>, ids: seq<Id>, items: map<Id, Row>, positions: seq<nat>, id: Id)
    requires Follows(users, ids, items, positions) && id in items
    ensures Follows(users + [items[id]], ids + [id], items, positions + [|ids|])
  {
    var list, longer := ids + [id], positions + [|ids|];
    assert forall p: nat | p < |ids| :: list[p] == ids[p];
    assert forall p | p in positions :: p in longer;
    assert longer[|positions|] == |ids| && list[|ids|] == id;
  }

  /** The reply takes the listed ids in their order. */
  lemma {:induction false} InOrderFollowsTheIds(ids: seq<Id>, items: map<Id, Row>) returns (positions: seq<nat>)
    ensures Follows(InOrder(ids, items), ids, items, positions)
  {
    positions := [];
    if ids != [] {
      var n := |ids| - 1;
      positions := InOrderFollowsTheIds(ids[..n], items);
      assert ids == ids[..n] + [ids[n]];
      if ids[n] in items {
        FollowsTakes(InOrder(ids[..n], items), ids[..n], items, positions, ids[n]);
        positions := positions + [n];
      } else {
        FollowsSkips(InOrder(ids[..n], items), ids[..n], items, positions, ids[n]);
      }
    }
  }

  // ---------------------------------------------------------------- paging

  const MAX_INT32: nat := 0x7FFF_FFFF

  const DEFAULT_LIMIT: nat := 10

  /** The orders of the id column: `sort=id` is ascending, `sort=-id` and no sort at all descending. */
  datatype Order = Ascending | Descending

  predicate Before(a: Id, b: Id, order: Order) {
    if order.Ascending? then a < b else a > b
  }

  ghost predicate IsFirst(m: Id, ids: set<Id>, order: Order) {
    m in ids && forall id | id in ids && id != m :: Before(m, id, order)
  }

  lemma {:induction false} FirstExists(ids: set<Id>, order: Order) returns (m: Id)
    requires ids != {}
    ensures IsFirst(m, ids, order)
  {
    var any :| any in ids;
    m := any;
    if ids != {any} {
      var rest := FirstExists(ids - {any}, order);
      m := if Before(rest, any, order) then rest else any;
      assert forall id | id in ids :: id == any || id in ids - {any};
    }
  }

  function Below(ids: set<Id>, bound: nat): set<Id> {
    set id | id in ids && id < bound
  }

  /** `ORDER BY id LIMIT limit`. */
  ghost function Take(ids: set<Id>, limit: nat, order: Order): seq<Id>
    decreases limit
  {
    if limit == 0 || ids == {} then []
    else
      assert exists m :: IsFirst(m, ids, order) by { var m := FirstExists(ids, order); }
      var m :| IsFirst(m, ids, order);
      [m] + Take(ids - {m}, limit - 1, order)
  }

  /** The page of the ids under a bound. */
  ghost function Page(ids: set<Id>, bound: nat, limit: nat, order: Order): seq<Id> {
    Take(Below(ids, bound), limit, order)
  }

  ghost predicate InOrderOf(list: seq<Id>, order: Order) {
    forall i, j | 0 <= i < j < |list| :: Before(list[i], list[j], order)
  }

  lemma {:induction false} TakeIsTheTop(ids: set<Id>, limit: nat, order: Order)
    ensures var p := Take(ids, limit, order);
            && |p| <= limit && InOrderOf(p, order)
            && (forall id | id in p :: id in ids)
            && (forall id | id in ids :: id in p || (|p| == limit && (p != [] ==> Before(p[|p| - 1], id, order))))
  {
    if limit > 0 && ids != {} {
      var p := Take(ids, limit, order);
      var rest := Take(ids - {p[0]}, limit - 1, order);
      assert IsFirst(p[0], ids, order) && p == [p[0]] + rest;
      TakeIsTheTop(ids - {p[0]}, limit - 1, order);
      PrependKeepsOrder(p[0], rest, order);
      assert forall id | id in ids :: id == p[0] || id in ids - {p[0]};
    }
  }

  /** A page is an ordered run of the ids under its bound, without gaps, and full unless they run out. */
  lemma PageIsTheTop(ids: set<Id>, bound: nat, limit: nat, order: Order)
    ensures var p := Page(ids, bound, limit, order);
            && |p| <= limit && InOrderOf(p, order)
            && (forall id | id in p :: id in ids && id < bound)
            && (forall id | id in ids && id < bound ::
                  id in p || (|p| == limit && (p != [] ==> Before(p[|p| - 1], id, order))))
  {
    TakeIsTheTop(Below(ids, bound), limit, order);
    forall id | id in ids && id < bound
      ensures id in Below(ids, bound)
    {
    }
  }

  lemma PrependKeepsOrder(m: Id, rest: seq<Id>, order: Order)
    requires InOrderOf(rest, order) && forall id | id in rest :: Before(m, id, order)
    ensures InOrderOf([m] + rest, order)
  {
    forall i, j | 0 <= i < j < 1 + |rest|
      ensures Before(([m] + rest)[i], ([m] + rest)[j], order)
    {
      assert rest[j - 1] in rest;
    }
  }

  /** The handler's reading of its query: no cursor means the largest 32-bit integer. */
  function Cursor(lastID: nat): nat {
    if lastID == 0 then MAX_INT32 else lastID
  }

  method ListByLastID(rows: map<Id, Row>, lastID: nat, limit: nat, order: Order) returns (users: seq<Row>)
    requires forall id | id in rows :: rows[id].id == id
    ensures var page := Page(rows.Keys, Cursor(lastID), if limit == 0 then DEFAULT_LIMIT else limit, order);
            |users| == |page| && forall i | 0 <= i < |users| :: page[i] in rows && users[i] == rows[page[i]]
    ensures var size := if limit == 0 then 10 else limit;
            |users| <= size
            && (|users| < size ==>
                  forall id | id in rows && id < Cursor(lastID) :: exists i :: 0 <= i < |users| && users[i].id == id)
    ensures lastID == 0 ==> forall i | 0 <= i < |users| :: users[i].id < 2147483647
  {
    PageIsTheTop(rows.Keys, Cursor(lastID), if limit == 0 then DEFAULT_LIMIT else limit, order);
    var bound, size := lastID, limit;
    if bound == 0 {
      bound := MAX_INT32;
    }
    if size == 0 {
      size := DEFAULT_LIMIT;
    }
    users := GetByLastID(rows, bound, size, order);
    ghost var page := Page(rows.Keys, bound, size, order);
    forall id | |users| < size && id in rows && id < bound
      ensures exists i :: 0 <= i < |users| && users[i].id == id
    {
      assert id in page;
      var i :| 0 <= i < |page| && page[i] == id;
      assert users[i].id == id;
    }
  }

  /** The table's ordered query. */
  method GetByLastID(rows: map<Id, Row>, bound: nat, size: nat, order: Order) returns (users: seq<Row>)
    ensures var page := Page(rows.Keys, bound, size, order);
            |users| == |page| && forall i | 0 <= i < |users| :: page[i] in rows && users[i] == rows[page[i]]
  {
    users := [];
    var left, n := (set id | id in rows && id < bound), size;
    assert left == Below(rows.Keys, bound);
    ghost var page := Page(rows.Keys, bound, size, order);
    while n > 0 && left != {}
      invariant left <= rows.Keys && |users| <= |page| && page[|users|..] == Take(left, n, order)
      invariant forall i | 0 <= i < |users| :: page[i] in rows && users[i] == rows[page[i]]
      decreases n
    {
      ghost var m := FirstExists(left, order);
      var first: Id :| first in left && forall id | id in left && id != first :: Before(first, id, order);
      FirstIsUnique(left, first, page[|users|], order);
      assert page[|users| + 1..] == page[|users|..][1..];
      users := users + [rows[first]];
      left, n := left - {first}, n - 1;
    }
  }

  lemma FirstIsUnique(ids: set<Id>, a: Id, b: Id, order: Order)
    requires IsFirst(a, ids, order) && IsFirst(b, ids, order)
    ensures a == b
  {
  }

  /** Everything a client sees that asks for page after page, each from the last id of the one before. */
  ghost function Crawl(ids: set<Id>, lastID: nat, limit: nat, order: Order): seq<Id>
    requires 0 !in ids && limit > 0
    decreases Cursor(lastID)
  {
    PageIsTheTop(ids, Cursor(lastID), limit, order);
    var page := Page(ids, Cursor(lastID), limit, order);
    if page == [] then []
    else
      assert page[|page| - 1] in page;
      page + Crawl(ids, page[|page| - 1], limit, order)
  }

  /** In descending order, paging shows every id under the cursor exactly once, and then an empty page. */
  lemma {:induction false} CrawlVisitsEverythingOnce(ids: set<Id>, lastID: nat, limit: nat)
    requires 0 !in ids && limit > 0
    ensures InOrderOf(Crawl(ids, lastID, limit, Descending), Descending)
    ensures forall id :: id in Crawl(ids, lastID, limit, Descending) <==> id in ids && id < Cursor(lastID)
    decreases Cursor(lastID)
  {
    PageIsTheTop(ids, Cursor(lastID), limit, Descending);
    var page := Page(ids, Cursor(lastID), limit, Descending);
    if page != [] {
      var last := page[|page| - 1];
      assert last in page;
      CrawlVisitsEverythingOnce(ids, last, limit);
      var rest := Crawl(ids, last, limit, Descending);
      assert Crawl(ids, lastID, limit, Descending) == page + rest;
      forall i, j | 0 <= i < j < |page + rest|
        ensures (page + rest)[i] > (page + rest)[j]
      {
        if i < |page| <= j {
          assert rest[j - |page|] in rest;
        }
      }
    }
  }

  /** In particular, rows from the largest 32-bit integer on are never listed, and all others are. */
  lemma CrawlFromTheStart(ids: set<Id>, limit: nat)
    requires 0 !in ids && limit > 0
    ensures InOrderOf(Crawl(ids, 0, limit, Descending), Descending)
    ensures forall id | id in ids :: id in Crawl(ids, 0, limit, Descending) <==> id < 2147483647
  {
    CrawlVisitsEverythingOnce(ids, 0, limit);
  }

  lemma {:induction false} CrawlStaysBelow(ids: set<Id>, lastID: nat, limit: nat, order: Order)
    requires 0 !in ids && limit > 0
    ensures forall id | id in Crawl(ids, lastID, limit, order) :: id in ids && id < Cursor(lastID)
    decreases Cursor(lastID)
  {
    PageIsTheTop(ids, Cursor(lastID), limit, order);
    var page := Page(ids, Cursor(lastID), limit, order);
    if page != [] {
      assert page[|page| - 1] in page;
      CrawlStaysBelow(ids, page[|page| - 1], limit, order);
    }
  }

  /** In ascending order, paging never gets past the first page: the cursor is an upper bound in either order. */
  lemma AscendingCrawlStaysOnThePage(ids: set<Id>, lastID: nat, limit: nat)
    requires 0 !in ids && limit > 0
    ensures forall id ::
              id in Crawl(ids, lastID, limit, Ascending) <==> id in Page(ids, Cursor(lastID), limit, Ascending)
  {
    PageIsTheTop(ids, Cursor(lastID), limit, Ascending);
    var page := Page(ids, Cursor(lastID), limit, Ascending);
    if page != [] {
      var last := page[|page| - 1];
      assert last in page;
      CrawlStaysBelow(ids, last, limit, Ascending);
    }
  }
}
