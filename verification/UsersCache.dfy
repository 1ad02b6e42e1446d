/** The typed cache of users: ids in front, string keys and encoded values behind. */
module UsersCaching {
  import opened UsersModel
  import opened Wrappers

  class UsersCache {
    var entries: map<string, Entry>
    var now: Time

    constructor ()
      ensures entries == map[]
    {
      entries, now := map[], 0;
    }

    /** What the cache would reply for an id at this instant. */
    ghost function ReplyTo(id: Id): Reply
      reads this
    {
      Live(entries, now, id)
    }

    /** Nothing but the entry of one id may have changed. */
    twostate predicate OnlyChanged(id: Id)
      reads this
    {
      && now == old(now)
      && forall other: Id | other != id :: EntryOf(entries, other) == old(EntryOf(entries, other))
    }

    method Set(id: Id, data: Option<Row>, duration: Time, fails: bool) returns (ok: bool)
      modifies this`entries
      ensures ok == (data.None? || id == 0 || !fails)
      ensures OnlyChanged(id)
      ensures EntryOf(entries, id) == if data.Some? && id != 0 && !fails then Some(Entry(data, now + duration))
                                      else old(EntryOf(entries, id))
    {
      if data.None? || id == 0 {
        return true;
      }
      if fails {
        return false;
      }
      forall other: Id { PutAt(entries, id, Entry(data, now + duration), other); }
      entries := entries[Key(id) := Entry(data, now + duration)];
      ok := true;
    }

    method Get(id: Id, fails: bool) returns (reply: Option<Reply>)
      ensures reply == if fails then None else Some(ReplyTo(id))
    {
      reply := if fails then None else Some(Live(entries, now, id));
    }

    /** The store's own batch read: the records under the given keys. */
    method FetchMany(keys: seq<string>) returns (items: map<string, Row>)
      ensures forall k :: k in items <==> k in keys && Slot(entries, now, k).Hit?
      ensures forall k | k in items :: items[k] == Slot(entries, now, k).row
    {
      items := map k | k in keys && Slot(entries, now, k).Hit? :: Slot(entries, now, k).row;
    }

    /** The found records by id; placeholders and expired entries are left out. */
    method MultiGet(ids: seq<Id>, fails: bool) returns (found: Option<map<Id, Row>>)
      ensures found.None? <==> fails
      ensures found.Some? ==> forall id :: id in found.value <==> id in ids && ReplyTo(id).Hit?
      ensures found.Some? ==> forall id | id in found.value :: found.value[id] == ReplyTo(id).row
    {
      var keys: seq<string> := [];
      for i := 0 to |ids|
        invariant |keys| == i && forall j | 0 <= j < i :: keys[j] == Key(ids[j])
      {
        keys := keys + [Key(ids[i])];
      }
      if fails {
        return None;
      }
      var items := FetchMany(keys);
      var retMap: map<Id, Row> := map[];
      for i := 0 to |ids|
        invariant forall id :: id in retMap <==> id in ids[..i] && ReplyTo(id).Hit?
        invariant forall id | id in retMap :: retMap[id] == ReplyTo(id).row
      {
        var key := Key(ids[i]);
        assert key == keys[i];
        assert ids[..i + 1] == ids[..i] + [ids[i]];
        if key in items {
          retMap := retMap[ids[i] := items[key]];
        }
      }
      assert ids[..|ids|] == ids;
      return Some(retMap);
    }

    /** Stores each record under its own id, all at once. */
    method MultiSet(data: seq<Row>, duration: Time, fails: bool) returns (ok: bool)
      requires DistinctIds(data)
      modifies this`entries
      ensures ok == !fails
      ensures forall i | 0 <= i < |data| :: EntryOf(entries, data[i].id) ==
                if ok then Some(Entry(Some(data[i]), now + duration)) else old(EntryOf(entries, data[i].id))
      ensures forall id: Id | !HasId(data, id) :: EntryOf(entries, id) == old(EntryOf(entries, id))
    {
      var values: map<string, Entry> := map[];
      for i := 0 to |data|
        invariant entries == old(entries)
        invariant forall id: Id | !HasId(data[..i], id) :: EntryOf(values, id) == None
        invariant forall j | 0 <= j < i :: EntryOf(values, data[j].id) == Some(Entry(Some(data[j]), now + duration))
      {
        var entry := Entry(Some(data[i]), now + duration);
        forall other: Id { PutAt(values, data[i].id, entry, other); }
        forall id: Id { HasIdGrows(data, i, id); }
        values := values[Key(data[i].id) := entry];
      }
      if fails {
        return false;
      }
      assert data[..|data|] == data;
      forall id: Id { MergeAt(entries, values, id); }
      entries := entries + values;
      ok := true;
    }

    method Del(id: Id, fails: bool) returns (ok: bool)
      modifies this`entries
      ensures ok == !fails
      ensures OnlyChanged(id)
      ensures EntryOf(entries, id) == if ok then None else old(EntryOf(entries, id))
    {
      if fails {
        return false;
      }
      forall other: Id { RemoveAt(entries, id, other); }
      entries := entries - {Key(id)};
      ok := true;
    }

    method SetPlaceholder(id: Id, fails: bool) returns (ok: bool)
      modifies this`entries
      ensures ok == !fails
      ensures OnlyChanged(id)
      ensures EntryOf(entries, id) == if ok then Some(EntryFor(None, now)) else old(EntryOf(entries, id))
    {
      if fails {
        return false;
      }
      forall other: Id { PutAt(entries, id, EntryFor(None, now), other); }
      entries := entries[Key(id) := EntryFor(None, now)];
      ok := true;
    }
  }
}
