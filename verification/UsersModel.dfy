/** The users table and the cache in front of it, as values. */
module UsersModel {
  import opened Text
  import opened Wrappers

  type Id = nat

  /** Nanoseconds. */
  type Time = int

  const MINUTE: Time := 60_000_000_000

  const USERS_EXPIRE_TIME: Time := 5 * MINUTE

  const PLACEHOLDER_EXPIRE_TIME: Time := 10 * MINUTE

  /** A column value; instants are counted from Go's zero time. */
  datatype Value = Str(s: string) | Number(n: int) | Instant(t: Time)

  predicate IsZero(v: Value) {
    match v
    case Str(s) => s == ""
    case Number(n) => n == 0
    case Instant(t) => t == 0
  }

  datatype Row = Row(id: Id, columns: map<string, Value>)

  /** The columns that an update may change, in the order in which the source looks at them. */
  const UPDATABLE: seq<string> := [
    "email", "encrypted_password", "reset_password_token", "reset_password_sent_at", "remember_created_at",
    "sign_in_count", "current_sign_in_at", "last_sign_in_at", "current_sign_in_ip", "last_sign_in_ip",
    "confirmation_token", "confirmed_at", "confirmation_sent_at", "unconfirmed_email", "failed_attempts",
    "unlock_token", "locked_at", "admin", "username", "remember_token"]

  /** A cache entry: a record, or the placeholder for an id that the table does not have. */
  datatype Entry = Entry(value: Option<Row>, expiry: Time)

  datatype Reply = Hit(row: Row) | Placeholder | Absent

  datatype World = World(rows: map<Id, Row>, entries: map<string, Entry>, now: Time)

  function Key(id: Id): string {
    "users:" + Decimal(id)
  }

  lemma KeyInjective(a: Id, b: Id)
    requires Key(a) == Key(b)
    ensures a == b
  {
    assert Key(a)[6..] == Decimal(a) && Key(b)[6..] == Decimal(b);
    DecimalRoundTrip(a);
    DecimalRoundTrip(b);
  }

  /** What the store replies for a key: an expired entry is no entry. */
  function Slot(entries: map<string, Entry>, now: Time, key: string): Reply {
    if key in entries && now < entries[key].expiry then
      match entries[key].value
      case Some(row) => Hit(row)
      case None => Placeholder
    else Absent
  }

  function Live(entries: map<string, Entry>, now: Time, id: Id): Reply {
    Slot(entries, now, Key(id))
  }

  function Lookup(rows: map<Id, Row>, id: Id): Option<Row> {
    if id in rows then Some(rows[id]) else None
  }

  function TimeToLive(value: Option<Row>): Time {
    if value.Some? then USERS_EXPIRE_TIME else PLACEHOLDER_EXPIRE_TIME
  }


  /** The entry that a reader stores for what it found in the table. */
  function EntryFor(value: Option<Row>, now: Time): Entry {
    Entry(value, now + TimeToLive(value))
  }

  /** It is there for five minutes if it is a record, for ten if it is a placeholder, and then no longer. */
  lemma LivesItsLifetime(entries: map<string, Entry>, id: Id, value: Option<Row>, now: Time, later: Time)
    ensures Live(entries[Key(id) := EntryFor(value, now)], later, id) ==
              match value
              case Some(row) => if later < now + 300_000_000_000 then Hit(row) else Absent
              case None => if later < now + 600_000_000_000 then Placeholder else Absent
  {
  }

  function EntryOf(entries: map<string, Entry>, id: Id): Option<Entry> {
    if Key(id) in entries then Some(entries[Key(id)]) else None
  }

  lemma PutAt(entries: map<string, Entry>, id: Id, entry: Entry, other: Id)
    ensures EntryOf(entries[Key(id) := entry], other) == if other == id then Some(entry) else EntryOf(entries, other)
  {
    if Key(other) == Key(id) {
      KeyInjective(other, id);
    }
  }

  lemma RemoveAt(entries: map<string, Entry>, id: Id, other: Id)
    ensures EntryOf(entries - {Key(id)}, other) == if other == id then None else EntryOf(entries, other)
  {
    if Key(other) == Key(id) {
      KeyInjective(other, id);
    }
  }

  lemma MergeAt(entries: map<string, Entry>, newer: map<string, Entry>, id: Id)
    ensures EntryOf(entries + newer, id) == if EntryOf(newer, id).Some? then EntryOf(newer, id)
            else EntryOf(entries, id)
  {
  }

  ghost predicate HasId(rows: seq<Row>, id: Id) {
    exists i :: 0 <= i < |rows| && rows[i].id == id
  }

  ghost predicate DistinctIds(rows: seq<Row>) {
    forall i, j | 0 <= i < j < |rows| :: rows[i].id != rows[j].id
  }

  lemma HasIdGrows(rows: seq<Row>, i: nat, id: Id)
    requires i < |rows|
    ensures HasId(rows[..i + 1], id) <==> HasId(rows[..i], id) || rows[i].id == id
  {
    if HasId(rows[..i], id) {
      var j :| 0 <= j < i && rows[..i][j].id == id;
      assert rows[..i + 1][j].id == id;
    }
    if rows[i].id == id {
      assert rows[..i + 1][i].id == id;
    }
  }
}
