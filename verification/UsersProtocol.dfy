/**
 What the operations of the users DAO do, as relations between states, and what that means over
 sequential runs: the cached branch against the branch without a cache.
 */
module UsersProtocol {
  import opened UsersModel
  import opened Wrappers

  datatype Answer = Found(row: Row) | NotFound | Failed

  /** Which of the calls that an operation makes fail. */
  datatype Faults = Faults(
    database: bool,
    multiGet: bool,
    unread: set<Id>,          // cache reads of these ids
    writes: bool,             // Set and MultiSet
    placeholders: set<Id>,    // SetPlaceholder for these ids
    deletes: set<Id>)         // Del for these ids

  const NO_FAULTS := Faults(false, false, {}, false, {}, {})

  function ToAnswer(value: Option<Row>): Answer {
    if value.Some? then Found(value.value) else NotFound
  }

  function ReplyFor(w: World, id: Id): Reply {
    Live(w.entries, w.now, id)
  }

  /** What a reader of the table, past the cache, is told. */
  function Uncached(w: World, id: Id): Answer {
    ToAnswer(Lookup(w.rows, id))
  }

  /** What a reader is told that looks in the cache first. */
  function Told(w: World, id: Id): Option<Row> {
    match ReplyFor(w, id)
    case Hit(row) => Some(row)
    case Placeholder => None
    case Absent => Lookup(w.rows, id)
  }

  ghost predicate Stays(w: World, w': World, id: Id) {
    EntryOf(w'.entries, id) == EntryOf(w.entries, id)
  }

  /** The cache now holds, for a full lifetime, what the table has for this id. */
  ghost predicate Refilled(w: World, w': World, id: Id) {
    EntryOf(w'.entries, id) == Some(EntryFor(Lookup(w.rows, id), w.now))
  }

  ghost predicate OnlyCacheMoved(w: World, w': World) {
    w'.rows == w.rows && w'.now == w.now
  }

  // ---------------------------------------------------------------- reads

  /** Whether storing what was found succeeds: `Set` ignores a record with id 0. */
  predicate StoresOne(w: World, f: Faults, id: Id) {
    if id in w.rows then id != 0 && !f.writes else id !in f.placeholders
  }

  ghost predicate GetStep(w: World, id: Id, f: Faults, w': World, answer: Answer) {
    && OnlyCacheMoved(w, w')
    && (forall other: Id | other != id :: Stays(w, w', other))
    && var asks := id !in f.unread && ReplyFor(w, id).Absent?;
       && answer == (if id in f.unread || (asks && f.database) then Failed else ToAnswer(Told(w, id)))
       && if asks && !f.database && StoresOne(w, f, id) then Refilled(w, w', id) else Stays(w, w', id)
  }

  /** A batch asks the table for an id when the cache has nothing for it, or its placeholder cannot be read. */
  predicate Asks(w: World, f: Faults, id: Id) {
    ReplyFor(w, id).Absent? || (ReplyFor(w, id).Placeholder? && id in f.unread)
  }

  function ToldInBatch(w: World, f: Faults, id: Id): Option<Row> {
    if Asks(w, f, id) then Lookup(w.rows, id) else Told(w, id)
  }

  predicate StoresInBatch(w: World, f: Faults, id: Id) {
    if id in w.rows then !f.writes else id !in f.placeholders
  }

  ghost predicate BatchAnswer(w: World, ids: seq<Id>, f: Faults, items: map<Id, Row>) {
    && (forall id :: id in items <==> id in ids && ToldInBatch(w, f, id).Some?)
    && (forall id | id in items :: items[id] == ToldInBatch(w, f, id).value)
  }

  ghost predicate BatchStep(w: World, ids: seq<Id>, f: Faults, w': World, answer: Option<map<Id, Row>>, queries: nat) {
    var asks := exists id :: id in ids && Asks(w, f, id);
    && OnlyCacheMoved(w, w')
    && queries == (if !f.multiGet && asks then 1 else 0)
    && (answer.None? <==> f.multiGet || (asks && f.database))
    && (answer.Some? ==> BatchAnswer(w, ids, f, answer.value))
    && forall id: Id ::
         if answer.Some? && id in ids && Asks(w, f, id) && StoresInBatch(w, f, id) then Refilled(w, w', id)
         else Stays(w, w', id)
  }

  // ---------------------------------------------------------------- writes

  /** An update writes the non-zero columns of the given row over those of the stored one. */
  function Patch(row: Row, table: Row): Row {
    row.(columns := row.columns + map c | c in UPDATABLE && c in table.columns && !IsZero(table.columns[c])
                                  :: table.columns[c])
  }

  /** Every column but those that the table itself keeps. */
  const COLUMNS: set<string> := {
    "id", "created_at", "updated_at",
    "email", "encrypted_password", "reset_password_token", "reset_password_sent_at", "remember_created_at",
    "sign_in_count", "current_sign_in_at", "last_sign_in_at", "current_sign_in_ip", "last_sign_in_ip",
    "confirmation_token", "confirmed_at", "confirmation_sent_at", "unconfirmed_email", "failed_attempts",
    "unlock_token", "locked_at", "admin", "username", "remember_token"}

  lemma EveryOtherColumnIsUpdatable(c: string)
    ensures c in UPDATABLE <==> c in COLUMNS && c != "id" && c != "created_at" && c != "updated_at"
  {
  }

  /** The column gets this value: it is not empty text, zero, or Go's zero time. */
  lemma NonZeroIsWritten(row: Row, table: Row, c: string)
    requires c in UPDATABLE && c in table.columns
    ensures var v := table.columns[c];
            var written := (v.Str? && v.s != "") || (v.Number? && v.n != 0) || (v.Instant? && v.t != 0);
            && (written ==> c in Patch(row, table).columns && Patch(row, table).columns[c] == v)
            && (!written ==> (c in Patch(row, table).columns <==> c in row.columns))
            && (!written && c in row.columns ==> Patch(row, table).columns[c] == row.columns[c])
  {
  }

  /** Nothing else is touched. */
  lemma OthersAreKept(row: Row, table: Row, c: string)
    requires c !in UPDATABLE || c !in table.columns
    ensures Patch(row, table).id == row.id
    ensures c in Patch(row, table).columns <==> c in row.columns
    ensures c in row.columns ==> Patch(row, table).columns[c] == row.columns[c]
  {
  }

  /** So an update decides every column it names a value for, no other, and a zero value never gets through. */
  lemma PatchDecides(row: Row, table: Row, c: string)
    requires c in UPDATABLE && c in table.columns && c in row.columns
    ensures c in Patch(row, table).columns
    ensures Patch(row, table).columns[c] == table.columns[c] <==>
              (row.columns[c] == table.columns[c] || !IsZero(table.columns[c]))
    ensures IsZero(table.columns[c]) ==> Patch(row, table).columns[c] == row.columns[c]
    ensures Patch(Patch(row, table), table) == Patch(row, table)
  {
    assert Patch(Patch(row, table), table).columns == Patch(row, table).columns;
  }

  function Updated(rows: map<Id, Row>, table: Row): map<Id, Row> {
    if table.id in rows then rows[table.id := Patch(rows[table.id], table)] else rows
  }

  /** The cache entries of some ids are gone, the others are as they were. */
  ghost predicate Invalidated(w: World, w': World, ids: set<Id>) {
    && w'.now == w.now
    && forall id: Id :: if id in ids then EntryOf(w'.entries, id) == None else Stays(w, w', id)
  }

  ghost predicate CreateStep(w: World, row: Row, w': World) {
    row.id !in w.rows && w' == w.(rows := w.rows[row.id := row])
  }

  ghost predicate UpdateStep(w: World, table: Row, applied: bool, w': World) {
    && Invalidated(w, w', {table.id})
    && w'.rows == if applied then Updated(w.rows, table) else w.rows
  }

  ghost predicate DeleteStep(w: World, ids: set<Id>, w': World) {
    Invalidated(w, w', ids) && w'.rows == w.rows - ids
  }

  // ---------------------------------------------------------------- runs

  datatype Op =
    | Create(row: Row)
    | Update(table: Row, applied: bool)
    | Delete(ids: set<Id>)
    | Get(id: Id, faults: Faults, answer: Answer)
    | GetMany(list: seq<Id>, faults: Faults, items: Option<map<Id, Row>>, queries: nat)
    | Tick(elapsed: nat)
    | Forget(gone: set<Id>)     // the cache evicts

  ghost predicate Next(w: World, op: Op, w': World) {
    match op
    case Create(row) => CreateStep(w, row, w')
    case Update(table, applied) => UpdateStep(w, table, applied, w')
    case Delete(ids) => DeleteStep(w, ids, w')
    case Get(id, f, answer) => GetStep(w, id, f, w', answer)
    case GetMany(ids, f, answer, queries) => BatchStep(w, ids, f, w', answer, queries)
    case Tick(elapsed) => w' == w.(now := w.now + elapsed)
    case Forget(gone) => w'.rows == w.rows && Invalidated(w, w', gone)
  }

  ghost predicate Run(ws: seq<World>, ops: seq<Op>) {
    && |ws| == |ops| + 1
    && ws[0].entries == map[]
    && forall i | 0 <= i < |ops| :: Next(ws[i], ops[i], ws[i + 1])
  }

  /** Every record that the cache would hand out is the current row. */
  ghost predicate Coherent(w: World) {
    forall id: Id :: ReplyFor(w, id).Hit? ==> Lookup(w.rows, id) == Some(ReplyFor(w, id).row)
  }

  /** An id of the table that a placeholder hides. */
  ghost predicate Shadowed(w: World, id: Id) {
    ReplyFor(w, id).Placeholder? && id in w.rows
  }

  lemma SameEntrySameReply(w: World, w': World, id: Id)
    requires EntryOf(w'.entries, id) == EntryOf(w.entries, id)
    requires w.now <= w'.now
    ensures ReplyFor(w', id) == ReplyFor(w, id) || ReplyFor(w', id).Absent?
    ensures w.now == w'.now ==> ReplyFor(w', id) == ReplyFor(w, id)
  {
  }

  lemma RefilledReply(w: World, w': World, id: Id)
    requires Refilled(w, w', id) && OnlyCacheMoved(w, w')
    ensures ReplyFor(w', id) == if id in w.rows then Hit(w.rows[id]) else Placeholder
  {
  }

  lemma NextKeepsCoherent(w: World, op: Op, w': World)
    requires Coherent(w) && Next(w, op, w')
    ensures Coherent(w')
  {
    forall id: Id | ReplyFor(w', id).Hit?
      ensures Lookup(w'.rows, id) == Some(ReplyFor(w', id).row)
    {
      if Stays(w, w', id) {
        SameEntrySameReply(w, w', id);
      } else if op.Get? || op.GetMany? {
        RefilledReply(w, w', id);
      }
    }
  }

  lemma {:induction false} RunsAreCoherent(ws: seq<World>, ops: seq<Op>, n: nat)
    requires Run(ws, ops) && n <= |ops|
    ensures Coherent(ws[n])
  {
    if n > 0 {
      RunsAreCoherent(ws, ops, n - 1);
      NextKeepsCoherent(ws[n - 1], ops[n - 1], ws[n]);
    }
  }

  predicate Rewrites(op: Op, id: Id) {
    (op.Update? && op.table.id == id) || (op.Delete? && id in op.ids)
  }

  /**
   A placeholder hides a row only if step `j` created the row while that same placeholder was live,
   and it does so only until the placeholder expires or the id is next updated or deleted.
   */
  ghost predicate CreatedUnderPlaceholder(ws: seq<World>, ops: seq<Op>, j: nat, n: nat, id: Id)
    requires |ws| == |ops| + 1 && n <= |ops|
  {
    && j < n && ops[j].Create? && ops[j].row.id == id
    && ReplyFor(ws[j], id).Placeholder?
    && (forall i | j <= i <= n :: Stays(ws[i], ws[n], id))
    && (forall i | j <= i < n :: !Rewrites(ops[i], id))
  }

  lemma ShadowStep(w: World, op: Op, w': World, id: Id)
    requires Next(w, op, w') && Shadowed(w', id)
    ensures Stays(w, w', id) && !Rewrites(op, id) && ReplyFor(w, id).Placeholder?
    ensures Shadowed(w, id) || (op.Create? && op.row.id == id)
  {
    if !Stays(w, w', id) && (op.Get? || op.GetMany?) {
      RefilledReply(w, w', id);
    }
  }

  lemma {:induction false} ShadowOrigin(ws: seq<World>, ops: seq<Op>, n: nat, id: Id) returns (j: nat)
    requires Run(ws, ops) && n <= |ops| && Shadowed(ws[n], id)
    ensures CreatedUnderPlaceholder(ws, ops, j, n, id)
  {
    ShadowStep(ws[n - 1], ops[n - 1], ws[n], id);
    if Shadowed(ws[n - 1], id) {
      j := ShadowOrigin(ws, ops, n - 1, id);
    } else {
      j := n - 1;
    }
  }

  /**
   Refinement, for one id. A read that does not fail answers what the branch without a cache would,
   except that it may say "not found" of a row created under a placeholder that is still live.
   */
  lemma GetRefinesUncached(ws: seq<World>, ops: seq<Op>, n: nat, id: Id, f: Faults, answer: Answer)
    requires Run(ws, ops) && n < |ops| && ops[n] == Get(id, f, answer) && answer != Failed
    ensures answer == Uncached(ws[n], id)
         || (answer == NotFound && exists j :: CreatedUnderPlaceholder(ws, ops, j, n, id))
    ensures answer == Uncached(ws[n], id) <==> !Shadowed(ws[n], id)
  {
    RunsAreCoherent(ws, ops, n);
    assert Next(ws[n], ops[n], ws[n + 1]);
    if Shadowed(ws[n], id) {
      var j := ShadowOrigin(ws, ops, n, id);
    }
  }

  /**
   What a read answers, on the rows and the faults alone. It fails exactly if the cache cannot be read, or if
   the table cannot and the cache has nothing for the id. Otherwise an id without a row is not found, and one
   with a row is answered with it unless a live placeholder hides the row.
   */
  lemma GetAnswersFromTheRows(ws: seq<World>, ops: seq<Op>, n: nat, id: Id, f: Faults, answer: Answer)
    requires Run(ws, ops) && n < |ops| && ops[n] == Get(id, f, answer)
    ensures answer == Failed <==> id in f.unread || (f.database && ReplyFor(ws[n], id).Absent?)
    ensures answer != Failed && id !in ws[n].rows ==> answer == NotFound
    ensures answer != Failed && id in ws[n].rows ==>
              answer == if ReplyFor(ws[n], id).Placeholder? then NotFound else Found(ws[n].rows[id])
  {
    RunsAreCoherent(ws, ops, n);
    assert Next(ws[n], ops[n], ws[n + 1]);
  }

  /** And past the cache, which is the branch without one. */
  lemma UncachedAnswersFromTheRows(w: World, id: Id)
    ensures Uncached(w, id) == if id in w.rows then Found(w.rows[id]) else NotFound
  {
  }

  /** Right after a read whose write succeeded, the same is answered even if the table cannot be read. */
  lemma RepeatedGetNeedsNoQuery(w: World, id: Id, w1: World, first: Answer, w2: World, f: Faults, second: Answer)
    requires GetStep(w, id, NO_FAULTS, w1, first) && id != 0
    requires GetStep(w1, id, f, w2, second) && id !in f.unread
    ensures second == first && first != Failed && !ReplyFor(w1, id).Absent?
  {
    if ReplyFor(w, id).Absent? {
      RefilledReply(w, w1, id);
    } else {
      SameEntrySameReply(w, w1, id);
    }
  }

  /** A batch answers with an error exactly if its first cache read fails, or if it has to ask the table and cannot. */
  lemma GetManyFailsExactly(ws: seq<World>, ops: seq<Op>, n: nat, ids: seq<Id>, f: Faults, answer: Option<map<Id, Row>>,
                            queries: nat)
    requires Run(ws, ops) && n < |ops| && ops[n] == GetMany(ids, f, answer, queries)
    ensures answer.None? <==>
              f.multiGet
              || (f.database && exists id :: id in ids && !ReplyFor(ws[n], id).Hit?
                                             && !(ReplyFor(ws[n], id).Placeholder? && id !in f.unread))
    ensures queries <= 1 && (f.multiGet ==> queries == 0)
  {
    assert Next(ws[n], ops[n], ws[n + 1]);
    forall id
      ensures Asks(ws[n], f, id) <==>
                !ReplyFor(ws[n], id).Hit? && !(ReplyFor(ws[n], id).Placeholder? && id !in f.unread)
    {
    }
  }

  /** The map that the branch without a cache returns. */
  ghost function UncachedMap(w: World, ids: seq<Id>): map<Id, Row> {
    map id | id in ids && id in w.rows :: w.rows[id]
  }

  ghost predicate Hidden(w: World, f: Faults, id: Id) {
    Shadowed(w, id) && id !in f.unread
  }

  lemma ToldInBatchIsCurrent(w: World, f: Faults, id: Id)
    requires Coherent(w)
    ensures ToldInBatch(w, f, id) == if Hidden(w, f, id) then None else Lookup(w.rows, id)
  {
  }

  lemma BatchAnswerIsCurrent(w: World, ids: seq<Id>, f: Faults, items: map<Id, Row>)
    requires Coherent(w) && BatchAnswer(w, ids, f, items)
    ensures items == map id | id in UncachedMap(w, ids) && !Hidden(w, f, id) :: w.rows[id]
  {
    forall id: Id { ToldInBatchIsCurrent(w, f, id); }
  }

  lemma HiddenOrigin(ws: seq<World>, ops: seq<Op>, n: nat, f: Faults)
    requires Run(ws, ops) && n <= |ops|
    ensures forall id | Hidden(ws[n], f, id) :: exists j :: CreatedUnderPlaceholder(ws, ops, j, n, id)
  {
    forall id | Hidden(ws[n], f, id)
      ensures exists j :: CreatedUnderPlaceholder(ws, ops, j, n, id)
    {
      var j := ShadowOrigin(ws, ops, n, id);
    }
  }

  /**
   Refinement, for a list of ids, repeated or not: a batch that does not fail returns the map of the
   branch without a cache, less the ids that a readable placeholder hides.
   */
  lemma GetManyRefinesUncached(ws: seq<World>, ops: seq<Op>, n: nat, ids: seq<Id>, f: Faults, items: map<Id, Row>,
                               queries: nat)
    requires Run(ws, ops) && n < |ops| && ops[n] == GetMany(ids, f, Some(items), queries)
    ensures items == map id | id in UncachedMap(ws[n], ids) && !Hidden(ws[n], f, id) :: ws[n].rows[id]
    ensures forall id | Hidden(ws[n], f, id) :: exists j :: CreatedUnderPlaceholder(ws, ops, j, n, id)
  {
    RunsAreCoherent(ws, ops, n);
    assert Next(ws[n], ops[n], ws[n + 1]);
    BatchAnswerIsCurrent(ws[n], ids, f, items);
    HiddenOrigin(ws, ops, n, f);
  }

  /** Right after a batch whose writes succeeded, the same batch is answered without a query, and alike. */
  lemma RepeatedBatchNeedsNoQuery(w: World, ids: seq<Id>, w1: World, first: map<Id, Row>, q1: nat,
                                  w2: World, second: Option<map<Id, Row>>, q2: nat)
    requires BatchStep(w, ids, NO_FAULTS, w1, Some(first), q1)
    requires BatchStep(w1, ids, NO_FAULTS, w2, second, q2)
    ensures q2 == 0 && second == Some(first)
    ensures forall id: Id :: Stays(w1, w2, id)
  {
    forall id: Id | id in ids
      ensures !Asks(w1, NO_FAULTS, id) && Told(w1, id) == ToldInBatch(w, NO_FAULTS, id)
    {
      if Asks(w, NO_FAULTS, id) {
        RefilledReply(w, w1, id);
      } else {
        SameEntrySameReply(w, w1, id);
      }
    }
    assert second.value == first;
  }
}
