/** The data-access object for users: the table, and the cache in front of it when there is one. */
module UsersAccess {
  import opened UsersCaching
  import opened UsersModel
  import opened UsersProtocol
  import opened Wrappers

  class UsersDao {
    var rows: map<Id, Row>
    const cached: bool            // false where the source's cache is nil; `store` is then not used
    const store: UsersCache

    constructor (rows: map<Id, Row>, cached: bool, store: UsersCache)
      ensures this.rows == rows && this.cached == cached && this.store == store
    {
      this.rows, this.cached, this.store := rows, cached, store;
    }

    ghost function State(): World
      reads this, store
    {
      World(rows, store.entries, store.now)
    }

    /** Every row is filed under its own id. */
    ghost predicate Valid()
      reads this
    {
      forall id | id in rows :: rows[id].id == id
    }

    /** The table's `id IN (...)` query: each matching row once, in no particular order. */
    method FindIn(ids: seq<Id>) returns (records: seq<Row>)
      requires Valid()
      ensures DistinctIds(records)
      ensures forall i | 0 <= i < |records| ::
                records[i].id in ids && records[i].id in rows && records[i] == rows[records[i].id]
      ensures forall id | id in ids && id in rows :: HasId(records, id)
    {
      records := [];
      var todo := set id | id in ids && id in rows;
      while todo != {}
        invariant forall id | id in todo :: id in ids && id in rows && !HasId(records, id)
        invariant DistinctIds(records)
        invariant forall i | 0 <= i < |records| ::
                    records[i].id in ids && records[i].id in rows && records[i] == rows[records[i].id]
        invariant forall id | id in ids && id in rows :: id in todo || HasId(records, id)
        decreases todo
      {
        var id :| id in todo;
        ghost var before := records;
        records := records + [rows[id]];
        forall other: Id { HasIdGrows(records, |before|, other); }
        assert records[..|before|] == before && records[..|records|] == records;
        todo := todo - {id};
      }
    }

    // -------------------------------------------------------------- reads

    method GetByID(id: Id, f: Faults) returns (answer: Answer)
      modifies store
      ensures cached ==> GetStep(old(State()), id, f, State(), answer)
      ensures !cached ==> State() == old(State())
      ensures !cached ==> answer == if f.database then Failed else if id in rows then Found(rows[id]) else NotFound
    {
      if !cached {
        return if f.database then Failed else ToAnswer(Lookup(rows, id));
      }
      var reply := store.Get(id, id in f.unread);
      if reply.None? {
        return Failed;
      }
      match reply.value
      case Hit(row) =>
        answer := Found(row);
      case Placeholder =>
        answer := NotFound;
      case Absent =>
        if f.database {
          return Failed;
        }
        if id !in rows {
          var _ := store.SetPlaceholder(id, id in f.placeholders);
          return NotFound;
        }
        var _ := store.Set(id, Some(rows[id]), USERS_EXPIRE_TIME, f.writes);
        answer := Found(rows[id]);
    }

    /** The ids of a list that a batch read did not find, in order and as often as they occur. */
    method MissedIDs(ids: seq<Id>, items: map<Id, Row>) returns (missed: seq<Id>)
      ensures forall id :: id in missed <==> id in ids && id !in items
    {
      missed := [];
      for i := 0 to |ids|
        invariant forall id :: id in missed <==> id in ids[..i] && id !in items
      {
        assert ids[..i + 1] == ids[..i] + [ids[i]];
        if ids[i] !in items {
          missed := missed + [ids[i]];
        }
      }
      assert ids[..|ids|] == ids;
    }

    /** Of those, the ones for which no placeholder can be read. */
    method RealMissedIDs(missed: seq<Id>, f: Faults) returns (unknown: seq<Id>)
      ensures forall id :: id in unknown <==> id in missed && !(store.ReplyTo(id).Placeholder? && id !in f.unread)
    {
      unknown := [];
      for i := 0 to |missed|
        invariant forall id :: id in unknown <==>
                    (id in missed[..i] && !(store.ReplyTo(id).Placeholder? && id !in f.unread))
      {
        assert missed[..i + 1] == missed[..i] + [missed[i]];
        var reply := store.Get(missed[i], missed[i] in f.unread);
        if reply == Some(Placeholder) {
          continue;
        }
        unknown := unknown + [missed[i]];
      }
      assert missed[..|missed|] == missed;
    }

    /** Adds the records to the map under their ids; also returns those ids. */
    method Collect(items: map<Id, Row>, records: seq<Row>) returns (all: map<Id, Row>, found: set<Id>)
      requires DistinctIds(records)
      ensures forall id :: id in found <==> HasId(records, id)
      ensures forall id :: id in all <==> id in items || id in found
      ensures forall i | 0 <= i < |records| :: records[i].id in all && all[records[i].id] == records[i]
      ensures forall id | id in items && id !in found :: all[id] == items[id]
    {
      all, found := items, {};
      for i := 0 to |records|
        invariant forall id :: id in found <==> HasId(records[..i], id)
        invariant forall id :: id in all <==> id in items || id in found
        invariant forall j | 0 <= j < i :: records[j].id in all && all[records[j].id] == records[j]
        invariant forall id | id in items && id !in found :: all[id] == items[id]
      {
        forall id: Id { HasIdGrows(records, i, id); }
        all := all[records[i].id := records[i]];
        found := found + {records[i].id};
      }
      assert records[..|records|] == records;
    }

    /** Puts a placeholder for every listed id that was not found. */
    method SetPlaceholders(ids: seq<Id>, found: set<Id>, f: Faults)
      modifies store
      ensures store.now == old(store.now)
      ensures forall id: Id :: EntryOf(store.entries, id) ==
                if id in ids && id !in found && id !in f.placeholders then Some(EntryFor(None, store.now))
                else old(EntryOf(store.entries, id))
    {
      for i := 0 to |ids|
        invariant store.now == old(store.now)
        invariant forall id: Id :: EntryOf(store.entries, id) ==
                    if id in ids[..i] && id !in found && id !in f.placeholders then Some(EntryFor(None, store.now))
                    else old(EntryOf(store.entries, id))
      {
        assert ids[..i + 1] == ids[..i] + [ids[i]];
        if ids[i] !in found {
          var _ := store.SetPlaceholder(ids[i], ids[i] in f.placeholders);
        }
      }
      assert ids[..|ids|] == ids;
    }

    method GetByIDs(ids: seq<Id>, f: Faults) returns (r: Option<map<Id, Row>>, queries: nat)
      requires Valid()
      modifies store
      ensures cached ==> BatchStep(old(State()), ids, f, State(), r, queries)
      ensures !cached ==> State() == old(State()) && queries == 1
                          && r == if f.database then None else Some(UncachedMap(old(State()), ids))
    {
      if !cached {
        if f.database {
          return None, 1;
        }
        var records := FindIn(ids);
        var items, _ := Collect(map[], records);
        assert items == UncachedMap(State(), ids);
        return Some(items), 1;
      }
      ghost var w := State();
      var cachedItems := store.MultiGet(ids, f.multiGet);
      if cachedItems.None? {
        return None, 0;
      }
      var items := cachedItems.value;
      var missed := MissedIDs(ids, items);
      var unknown := RealMissedIDs(missed, f);
      assert forall id :: id in unknown <==> id in ids && Asks(w, f, id);
      if |unknown| == 0 {
        assert forall id | id in ids :: id !in unknown;
        return Some(items), 0;
      }
      assert unknown[0] in unknown;
      if f.database {
        return None, 1;
      }
      r, queries := Complete(ids, items, unknown, f);
    }

    /** The part of GetByIDs that asks the table for what the cache did not have. */
    method Complete(ids: seq<Id>, items: map<Id, Row>, unknown: seq<Id>, f: Faults)
      returns (r: Option<map<Id, Row>>, queries: nat)
      requires Valid() && !f.multiGet && !f.database
      requires forall id :: id in unknown <==> id in ids && Asks(State(), f, id)
      requires unknown != []
      requires forall id :: id in items <==> id in ids && ReplyFor(State(), id).Hit?
      requires forall id | id in items :: items[id] == ReplyFor(State(), id).row
      modifies store
      ensures BatchStep(old(State()), ids, f, State(), r, queries)
    {
      ghost var w := State();
      var records := FindIn(unknown);
      var all, found := Collect(items, records);
      assert forall id :: id in found <==> id in unknown && id in rows;
      CollectedIsBatchAnswer(w, ids, f, unknown, items, all);
      if |records| > 0 {
        StoreFound(records, f);
        if |records| == |unknown| {
          AllFound(records, unknown);
          CompletedIsBatchStep(w, State(), ids, f, unknown, all);
          return Some(all), 1;
        }
      }
      SetPlaceholders(unknown, found, f);
      CompletedIsBatchStep(w, State(), ids, f, unknown, all);
      return Some(all), 1;
    }

    method StoreFound(records: seq<Row>, f: Faults)
      requires DistinctIds(records)
      requires forall i | 0 <= i < |records| :: records[i].id in rows && records[i] == rows[records[i].id]
      modifies store
      ensures store.now == old(store.now)
      ensures forall id: Id :: EntryOf(store.entries, id) ==
                if HasId(records, id) && !f.writes then Some(EntryFor(Lookup(rows, id), store.now))
                else old(EntryOf(store.entries, id))
    {
      var _ := store.MultiSet(records, USERS_EXPIRE_TIME, f.writes);
    }

    // -------------------------------------------------------------- writes

    /** `nextId` is the id that the table gives to a row that comes without one. */
    method Create(table: Row, nextId: Id, f: Faults) returns (created: Option<Row>)
      requires Valid() && nextId != 0 && nextId !in rows
      modifies this`rows
      ensures Valid()
      ensures created.None? <==> f.database || (table.id != 0 && table.id in old(rows))
      ensures created.None? ==> State() == old(State())
      ensures created.Some? ==> created.value.id == if table.id == 0 then nextId else table.id
      ensures created.Some? ==>
                created.value.columns == table.columns && CreateStep(old(State()), created.value, State())
    {
      var row := if table.id == 0 then table.(id := nextId) else table;
      if f.database || row.id in rows {
        return None;
      }
      rows := rows[row.id := row];
      created := Some(row);
    }

    /** The update that a row stands for: its non-zero columns. */
    method Changes(table: Row) returns (update: map<string, Value>)
      ensures update == map c | c in UPDATABLE && c in table.columns && !IsZero(table.columns[c]) :: table.columns[c]
    {
      update := map[];
      for i := 0 to |UPDATABLE|
        invariant forall c :: c in update <==> c in UPDATABLE[..i] && c in table.columns && !IsZero(table.columns[c])
        invariant forall c | c in update :: update[c] == table.columns[c]
      {
        var column := UPDATABLE[i];
        assert UPDATABLE[..i + 1] == UPDATABLE[..i] + [column];
        if column in table.columns && !IsZero(table.columns[column]) {
          update := update[column := table.columns[column]];
        }
      }
      assert UPDATABLE[..|UPDATABLE|] == UPDATABLE;
    }

    method UpdateByID(table: Row, f: Faults) returns (ok: bool)
      requires Valid()
      modifies this`rows, store
      ensures Valid()
      ensures ok == (table.id >= 1 && !f.database)
      ensures Invalidated(old(State()), State(), if cached then {table.id} - f.deletes else {})
      ensures rows == if ok then Updated(old(rows), table) else old(rows)
      ensures rows.Keys == old(rows).Keys
      ensures forall id | id in rows && (id != table.id || !ok) :: rows[id] == old(rows)[id]
      ensures ok && table.id in rows ==> rows[table.id] == Patch(old(rows)[table.id], table)
      ensures cached && table.id !in f.deletes ==> UpdateStep(old(State()), table, ok, State())
    {
      ok := table.id >= 1;
      if ok {
        var update := Changes(table);
        ok := !f.database;
        if ok && table.id in rows {
          var row := rows[table.id];
          rows := rows[table.id := row.(columns := row.columns + update)];
        }
      }
      if cached {
        var _ := store.Del(table.id, table.id in f.deletes);
      }
    }

    method DeleteByID(id: Id, f: Faults) returns (ok: bool)
      requires Valid()
      modifies this`rows, store
      ensures Valid()
      ensures ok == !f.database
      ensures !ok ==> State() == old(State())
      ensures ok ==> rows == old(rows) - {id}
      ensures ok ==> Invalidated(old(State()), State(), if cached then {id} - f.deletes else {})
      ensures ok && cached && id !in f.deletes ==> DeleteStep(old(State()), {id}, State())
    {
      if f.database {
        return false;
      }
      rows := rows - {id};
      if cached {
        var _ := store.Del(id, id in f.deletes);
      }
      ok := true;
    }

    method DeleteByIDs(ids: seq<Id>, f: Faults) returns (ok: bool)
      requires Valid()
      modifies this`rows, store
      ensures Valid()
      ensures ok == !f.database
      ensures !ok ==> State() == old(State())
      ensures ok ==> rows == old(rows) - Members(ids)
      ensures ok ==> Invalidated(old(State()), State(), if cached then Members(ids) - f.deletes else {})
      ensures ok && cached && Members(ids) !! f.deletes ==> DeleteStep(old(State()), Members(ids), State())
    {
      if f.database {
        return false;
      }
      rows := rows - Members(ids);
      for i := 0 to |ids|
        invariant rows == old(rows) - Members(ids) && store.now == old(store.now)
        invariant forall id: Id :: EntryOf(store.entries, id) ==
                    if cached && id in ids[..i] && id !in f.deletes then None else old(EntryOf(store.entries, id))
      {
        assert ids[..i + 1] == ids[..i] + [ids[i]];
        if cached {
          var _ := store.Del(ids[i], ids[i] in f.deletes);
        }
      }
      assert ids[..|ids|] == ids;
      ok := true;
    }
  }

  /** The map that a batch puts together is the cached records and the rows found for the other ids. */
  lemma CollectedIsBatchAnswer(w: World, ids: seq<Id>, f: Faults, unknown: seq<Id>, items: map<Id, Row>,
                               all: map<Id, Row>)
    requires forall id :: id in unknown <==> id in ids && Asks(w, f, id)
    requires forall id :: id in items <==> id in ids && ReplyFor(w, id).Hit?
    requires forall id | id in items :: items[id] == ReplyFor(w, id).row
    requires forall id :: id in all <==> id in items || (id in unknown && id in w.rows)
    requires forall id | id in all :: all[id] == if id in unknown && id in w.rows then w.rows[id] else items[id]
    ensures BatchAnswer(w, ids, f, all)
  {
  }

  lemma CompletedIsBatchStep(w: World, w': World, ids: seq<Id>, f: Faults, unknown: seq<Id>, all: map<Id, Row>)
    requires !f.multiGet && !f.database && unknown != [] && OnlyCacheMoved(w, w')
    requires forall id :: id in unknown <==> id in ids && Asks(w, f, id)
    requires BatchAnswer(w, ids, f, all)
    requires forall id: Id :: if id in unknown && StoresInBatch(w, f, id) then Refilled(w, w', id) else Stays(w, w', id)
    ensures BatchStep(w, ids, f, w', Some(all), 1)
  {
    assert unknown[0] in unknown;
  }

  // ---------------------------------------------------------------- pigeonhole

  ghost function IdsOf(records: seq<Row>): set<Id> {
    set i | 0 <= i < |records| :: records[i].id
  }

  lemma {:induction false} DistinctIdsCount(records: seq<Row>)
    requires DistinctIds(records)
    ensures |IdsOf(records)| == |records|
  {
    if records != [] {
      var n := |records| - 1;
      DistinctIdsCount(records[..n]);
      assert IdsOf(records) == IdsOf(records[..n]) + {records[n].id};
    }
  }

  function Members(ids: seq<Id>): set<Id> {
    set id | id in ids
  }

  lemma {:induction false} MembersCount(ids: seq<Id>)
    ensures |Members(ids)| <= |ids|
  {
    if ids != [] {
      var n := |ids| - 1;
      MembersCount(ids[..n]);
      assert Members(ids) == Members(ids[..n]) + {ids[n]};
    }
  }

  /**
   As many distinct records as ids asked for: then every one of the ids was found, so that returning
   early leaves no id without its placeholder, and no id was asked for twice.
   */
  lemma AllFound(records: seq<Row>, asked: seq<Id>)
    requires DistinctIds(records) && |records| == |asked|
    requires forall i | 0 <= i < |records| :: records[i].id in asked
    ensures forall id | id in asked :: HasId(records, id)
    ensures forall i, j | 0 <= i < j < |asked| :: asked[i] != asked[j]
  {
    DistinctIdsCount(records);
    MembersCount(asked);
    var have, want := IdsOf(records), Members(asked);
    assert have <= want;
    if have != want {
      var missing :| missing in want && missing !in have;
      assert have <= want - {missing};
      SubsetCount(have, want - {missing});
    }
    assert forall id | id in asked :: id in want;
    FullCountMeansDistinct(asked);
  }

  lemma {:induction false} FullCountMeansDistinct(ids: seq<Id>)
    requires |Members(ids)| == |ids|
    ensures forall i, j | 0 <= i < j < |ids| :: ids[i] != ids[j]
  {
    if ids != [] {
      var n := |ids| - 1;
      MembersCount(ids[..n]);
      assert Members(ids) == Members(ids[..n]) + {ids[n]};
      assert forall i | 0 <= i < n && ids[i] == ids[n] :: ids[n] in ids[..n];
      FullCountMeansDistinct(ids[..n]);
    }
  }

  lemma {:induction false} SubsetCount(a: set<Id>, b: set<Id>)
    requires a <= b
    ensures |a| <= |b|
  {
    assert b == a + (b - a);
  }
}
