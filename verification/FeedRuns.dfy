/**
 Replicas that follow the feed while the server keeps changing: writes, soft deletes and the table queries of the page
 reads of several devices interleave in any order.
 */
module FeedRuns {
  import opened Wrappers
  import opened ChangesFeed
  import opened FeedPaging

  type EntityKey = (Entity, int)

  datatype Device = Device(replica: map<EntityKey, int>, cursor: Option<Cursor>)

  /** A page read under way: the tables queried so far, each as its query saw it. */
  datatype Pending = Pending(limit: nat, view: Database)

  datatype State = State(db: Database, devices: map<int, Device>, pending: map<int, Pending>)

  /** The eight queries of a page run alone or several at once; writes may fall between them. */
  datatype Step =
    | Save(entity: Entity, row: Row)
    | Begin(device: int, limit: nat)
    | Query(device: int, entities: set<Entity>)
    | Finish(device: int)

  // ----- the server -----

  /** Inserts the row, or rewrites the row with the same id; a soft delete is a rewrite with `deletedAt` set. */
  function SaveRow(rows: seq<Row>, row: Row): seq<Row> {
    if rows == [] then [row]
    else if rows[0].id == row.id then [row] + rows[1..]
    else [rows[0]] + SaveRow(rows[1..], row)
  }

  function SaveIn(db: Database, e: Entity, row: Row): Database {
    db[e := SaveRow(Table(db, e), row)]
  }

  function FindRow(rows: seq<Row>, id: int): Option<Row> {
    if rows == [] then None else if rows[0].id == id then Some(rows[0]) else FindRow(rows[1..], id)
  }

  /** What a replica should hold for one entity: its data while the row exists, belongs to the user and is live. */
  function LiveData(db: Database, userId: int, e: Entity, id: int): Option<int> {
    match FindRow(Table(db, e), id)
    case None => None
    case Some(row) => if row.userId == userId then DataOf(row) else None
  }

  function DataOf(row: Row): Option<int> {
    if row.deletedAt.Some? then None else Some(row.data)
  }

  ghost predicate IdsUnique(rows: seq<Row>) {
    forall i, j :: 0 <= i < j < |rows| ==> rows[i].id != rows[j].id
  }

  ghost predicate Stored(db: Database, c: Candidate) {
    c.row in Table(db, c.entity)
  }

  /** Ids are primary keys, and no two rows share timestamp and id across the tables. */
  ghost predicate DbOk(db: Database) {
    && (forall e :: IdsUnique(Table(db, e)))
    && (forall c, d :: Stored(db, c) && Stored(db, d) && Key(c) == Key(d) ==> c == d)
  }

  // ----- a device -----

  function Apply(replica: map<EntityKey, int>, entry: Entry): map<EntityKey, int> {
    match entry
    case Upsert(e, id, data) => replica[(e, id) := data]
    case Tombstone(e, id, _) => replica - {(e, id)}
  }

  function ApplyAll(replica: map<EntityKey, int>, entries: seq<Entry>): map<EntityKey, int> {
    if entries == [] then replica
    else Apply(ApplyAll(replica, entries[..|entries| - 1]), entries[|entries| - 1])
  }

  function Lookup(replica: map<EntityKey, int>, e: Entity, id: int): Option<int> {
    if (e, id) in replica then Some(replica[(e, id)]) else None
  }

  /** One call of the changes endpoint, applied to the replica. */
  function ReadPage(db: Database, userId: int, device: Device, limit: nat): Device {
    var page := Take(limit, Feed(db, userId, device.cursor));
    Device(ApplyAll(device.replica, ToEntries(page)), Some(LastCursor(page, device.cursor).GetOr(EPOCH_CURSOR)))
  }

  ghost predicate Seen(device: Device, c: Candidate) {
    device.cursor.Some? && !IsAfter(device.cursor, c)
  }

  /** The replica is right about every row up to its cursor. */
  ghost predicate RightUpTo(db: Database, userId: int, device: Device) {
    forall c :: Stored(db, c) && c.row.userId == userId && Seen(device, c) ==>
      Lookup(device.replica, c.entity, c.row.id) == DataOf(c.row)
  }

  ghost predicate HoldsOwned(db: Database, userId: int, device: Device) {
    forall e, id :: (e, id) in device.replica ==> Owned(db, userId, e, id)
  }

  /** The replica is right about every row up to its cursor, and holds nothing the user does not have. */
  ghost predicate DeviceOk(db: Database, userId: int, device: Device) {
    RightUpTo(db, userId, device) && HoldsOwned(db, userId, device)
  }

  ghost predicate Owned(db: Database, userId: int, e: Entity, id: int) {
    exists row :: Stored(db, Candidate(e, row)) && row.id == id && row.userId == userId
  }

  ghost predicate Converged(db: Database, userId: int, device: Device) {
    forall e, id :: Lookup(device.replica, e, id) == LiveData(db, userId, e, id)
  }

  /** Rows with the same key are versions of one row. */
  ghost predicate KeysApart(view: Database, db: Database) {
    forall c, d :: Stored(view, c) && Stored(db, d) && Key(c) == Key(d) ==> c.entity == d.entity && c.row.id == d.row.id
  }

  ghost predicate RowsOwned(view: Database, db: Database, userId: int) {
    forall c :: Stored(view, c) && c.row.userId == userId ==> Owned(db, userId, c.entity, c.row.id)
  }

  ghost predicate PendingOk(db: Database, userId: int, device: Device, p: Pending) {
    p.limit > 0 && DbOk(p.view) && RightUpTo(p.view, userId, device) && RowsOwned(p.view, db, userId) && KeysApart(p.view, db)
  }

  ghost predicate Inv(state: State, userId: int) {
    && DbOk(state.db)
    && (forall d :: d in state.devices ==> DeviceOk(state.db, userId, state.devices[d]))
    && (forall d :: d in state.pending ==>
          d in state.devices && PendingOk(state.db, userId, state.devices[d], state.pending[d]))
  }

  /** No other row has the key of the new one. */
  ghost predicate KeyFree(db: Database, e: Entity, row: Row) {
    forall c :: Stored(db, c) && Key(c) == Key(Candidate(e, row)) ==> c.entity == e && c.row.id == row.id
  }

  /** A row never changes hands. */
  ghost predicate KeepsOwner(db: Database, e: Entity, row: Row) {
    forall r :: Stored(db, Candidate(e, r)) && r.id == row.id ==> r.userId == row.userId
  }

  /** A row of the user that was written after its table was queried. */
  ghost predicate Missed(db: Database, view: Database, userId: int, c: Candidate) {
    Stored(db, c) && c.row.userId == userId && !Stored(view, c)
  }

  /** Every row the queries missed lies after the last key of the page. */
  ghost predicate Timely(db: Database, view: Database, userId: int, after: Device) {
    forall c :: Missed(db, view, userId, c) ==> IsAfter(after.cursor, c)
  }

  predicate AllQueried(p: Pending) {
    forall e :: e in REPLICATED_MODELS ==> e in p.view
  }

  /** The device once the queries of its read have been merged into a page. */
  function Answered(state: State, userId: int, d: int): Device
    requires d in state.devices && d in state.pending
  {
    ReadPage(state.pending[d].view, userId, state.devices[d], state.pending[d].limit)
  }

  /** A write is stamped after every cursor already handed out; what the queries of a page missed lies after that page. */
  ghost predicate Admissible(state: State, userId: int, step: Step) {
    match step
    case Save(e, row) =>
      && KeyFree(state.db, e, row)
      && KeepsOwner(state.db, e, row)
      && (forall d :: d in state.devices ==> IsAfter(state.devices[d].cursor, Candidate(e, row)))
      && (forall d :: d in state.pending ==> KeyFree(state.pending[d].view, e, row))
    case Begin(d, limit) => d in state.devices && limit > 0
    case Query(d, entities) => d in state.pending && entities !! state.pending[d].view.Keys
    case Finish(d) =>
      && d in state.devices && d in state.pending && AllQueried(state.pending[d])
      && Timely(state.db, state.pending[d].view, userId, Answered(state, userId, d))
  }

  function Queried(view: Database, db: Database, entities: set<Entity>): Database {
    view + map e | e in entities :: Table(db, e)
  }

  ghost function Next(state: State, userId: int, step: Step): State
    requires Admissible(state, userId, step)
  {
    match step
    case Save(e, row) => state.(db := SaveIn(state.db, e, row))
    case Begin(d, limit) => state.(pending := state.pending[d := Pending(limit, map[])])
    case Query(d, entities) =>
      var p := state.pending[d];
      state.(pending := state.pending[d := p.(view := Queried(p.view, state.db, entities))])
    case Finish(d) =>
      state.(devices := state.devices[d := Answered(state, userId, d)], pending := state.pending - {d})
  }

  ghost predicate AdmissibleRun(state: State, userId: int, steps: seq<Step>)
    decreases |steps|
  {
    steps == [] || (Admissible(state, userId, steps[0]) && AdmissibleRun(Next(state, userId, steps[0]), userId, steps[1..]))
  }

  ghost function Run(state: State, userId: int, steps: seq<Step>): State
    requires AdmissibleRun(state, userId, steps)
    decreases |steps|
  {
    if steps == [] then state else Run(Next(state, userId, steps[0]), userId, steps[1..])
  }

  // ----- rows of the table and rows of the feed -----

  lemma EveryEntityReplicated(e: Entity)
    ensures e in REPLICATED_MODELS
  {
    var m := match e case Account => 0 case Transaction => 1 case Category => 2 case Tag => 3
                     case Budget => 4 case Goal => 5 case Debt => 6 case Recurrence => 7;
    assert REPLICATED_MODELS[m] == e;
  }

  lemma InFeed(db: Database, userId: int, c: Candidate)
    ensures c in All(db, userId) <==> Stored(db, c) && c.row.userId == userId
  {
    AllIsSortedUnion(db, userId);
    EveryEntityReplicated(c.entity);
    RowsAreMatching(db, REPLICATED_MODELS, userId, None, c.entity, c.row);
    assert c in multiset(All(db, userId)) <==> c in All(db, userId);
  }

  ghost predicate NoRepeats(s: seq<Candidate>) {
    forall i, j :: 0 <= i < j < |s| ==> s[i] != s[j]
  }

  lemma {:induction false} NoRepeatsCounts(s: seq<Candidate>)
    ensures NoRepeats(s) <==> forall c :: c in multiset(s) ==> multiset(s)[c] == 1
  {
    if s != [] {
      var front, last := s[..|s| - 1], s[|s| - 1];
      NoRepeatsCounts(front);
      assert s == front + [last];
      if NoRepeats(s) {
        assert last !in front;
      } else if NoRepeats(front) {
        var i :| 0 <= i < |s| - 1 && s[i] == last;
        assert front[i] == last;
        assert multiset(front)[last] >= 1;
        assert multiset(s)[last] >= 2;
      } else {
        var c :| c in multiset(front) && multiset(front)[c] != 1;
        assert multiset(s)[c] >= 2;
      }
    }
  }

  lemma NoRepeatsConcat(a: seq<Candidate>, b: seq<Candidate>)
    requires NoRepeats(a) && NoRepeats(b) && (forall c :: c in b ==> c !in a)
    ensures NoRepeats(a + b)
  {
    forall i, j | 0 <= i < j < |a + b|
      ensures (a + b)[i] != (a + b)[j]
    {
      if i < |a| <= j {
        assert b[j - |a|] in b;
      }
    }
  }

  lemma {:induction false} MatchingNoRepeats(rows: seq<Row>, e: Entity, userId: int)
    requires IdsUnique(rows)
    ensures NoRepeats(Matching(rows, e, userId, None))
  {
    if rows != [] {
      MatchingNoRepeats(rows[1..], e, userId);
      MatchingMembers(rows[1..], e, userId, None, e, rows[0]);
    }
  }

  lemma {:induction false} MatchingInNoRepeats(db: Database, models: seq<Entity>, userId: int)
    requires forall e :: IdsUnique(Table(db, e))
    requires forall i, j :: 0 <= i < j < |models| ==> models[i] != models[j]
    ensures NoRepeats(MatchingIn(db, models, userId, None))
  {
    if models != [] {
      var e, front := models[|models| - 1], models[..|models| - 1];
      MatchingInNoRepeats(db, front, userId);
      MatchingNoRepeats(Table(db, e), e, userId);
      var before, last := MatchingIn(db, front, userId, None), Matching(Table(db, e), e, userId, None);
      forall c | c in last
        ensures c !in before
      {
        MatchingMembers(Table(db, e), e, userId, None, c.entity, c.row);
        NotInOtherTables(db, front, userId, None, c.entity, c.row);
      }
      NoRepeatsConcat(before, last);
    }
  }

  /** With primary keys and distinct keys across tables, the feed has no two equal keys. */
  lemma FeedKeysUnique(db: Database, userId: int)
    requires DbOk(db)
    ensures StrictlySorted(All(db, userId))
  {
    MatchingInNoRepeats(db, REPLICATED_MODELS, userId);
    AllIsSortedUnion(db, userId);
    var s := All(db, userId);
    NoRepeatsCounts(MatchingIn(db, REPLICATED_MODELS, userId, None));
    NoRepeatsCounts(s);
    forall i, j | 0 <= i < j < |s|
      ensures Key(s[i]) != Key(s[j])
    {
      InFeed(db, userId, s[i]);
      InFeed(db, userId, s[j]);
    }
    AllSorted(db, userId);
  }

  // ----- saving a row -----

  lemma {:induction false} SaveRowMembers(rows: seq<Row>, row: Row, r: Row)
    requires IdsUnique(rows)
    ensures r in SaveRow(rows, row) <==> r == row || (r in rows && r.id != row.id)
  {
    if rows != [] {
      SaveRowMembers(rows[1..], row, r);
    }
  }

  lemma {:induction false} SaveRowUnique(rows: seq<Row>, row: Row)
    requires IdsUnique(rows)
    ensures IdsUnique(SaveRow(rows, row))
  {
    if rows != [] && rows[0].id != row.id {
      SaveRowUnique(rows[1..], row);
      var rest := SaveRow(rows[1..], row);
      forall j | 0 <= j < |rest|
        ensures rest[j].id != rows[0].id
      {
        SaveRowMembers(rows[1..], row, rest[j]);
      }
    }
  }

  lemma {:induction false} FindRowIsMember(rows: seq<Row>, id: int)
    requires IdsUnique(rows)
    ensures FindRow(rows, id).Some? ==> FindRow(rows, id).value in rows && FindRow(rows, id).value.id == id
    ensures forall r :: r in rows && r.id == id ==> FindRow(rows, id) == Some(r)
  {
    if rows != [] {
      FindRowIsMember(rows[1..], id);
    }
  }

  lemma SaveInMembers(db: Database, e: Entity, row: Row, c: Candidate)
    requires DbOk(db)
    ensures Stored(SaveIn(db, e, row), c)
       <==> c == Candidate(e, row) || (Stored(db, c) && !(c.entity == e && c.row.id == row.id))
  {
    SaveRowMembers(Table(db, e), row, c.row);
  }

  lemma SaveKeepsDbOk(db: Database, e: Entity, row: Row)
    requires DbOk(db) && KeyFree(db, e, row)
    ensures DbOk(SaveIn(db, e, row))
  {
    SaveRowUnique(Table(db, e), row);
    var after := SaveIn(db, e, row);
    forall f
      ensures IdsUnique(Table(after, f))
    {
      assert Table(after, f) == if f == e then SaveRow(Table(db, e), row) else Table(db, f);
    }
    forall c, d | Stored(after, c) && Stored(after, d) && Key(c) == Key(d)
      ensures c == d
    {
      SaveInMembers(db, e, row, c);
      SaveInMembers(db, e, row, d);
    }
  }

  lemma OwnedStays(db: Database, userId: int, e: Entity, row: Row, f: Entity, id: int)
    requires DbOk(db) && KeepsOwner(db, e, row) && Owned(db, userId, f, id)
    ensures Owned(SaveIn(db, e, row), userId, f, id)
  {
    var after := SaveIn(db, e, row);
    var r :| Stored(db, Candidate(f, r)) && r.id == id && r.userId == userId;
    SaveInMembers(db, e, row, Candidate(f, r));
    SaveInMembers(db, e, row, Candidate(e, row));
    if f == e && id == row.id {
      assert Stored(after, Candidate(e, row));
    } else {
      assert Stored(after, Candidate(f, r));
    }
  }

  /** A write stamped after the cursor of a device does not disturb what the device already knows. */
  lemma SaveKeepsDeviceOk(db: Database, userId: int, e: Entity, row: Row, device: Device)
    requires DbOk(db) && DeviceOk(db, userId, device)
    requires IsAfter(device.cursor, Candidate(e, row))
    requires KeepsOwner(db, e, row)
    ensures DeviceOk(SaveIn(db, e, row), userId, device)
  {
    var after := SaveIn(db, e, row);
    forall c | Stored(after, c) && c.row.userId == userId && Seen(device, c)
      ensures Lookup(device.replica, c.entity, c.row.id) == DataOf(c.row)
    {
      SaveInMembers(db, e, row, c);
    }
    forall f, id | (f, id) in device.replica
      ensures Owned(after, userId, f, id)
    {
      OwnedStays(db, userId, e, row, f, id);
    }
  }

  lemma SaveKeepsPendingOk(db: Database, userId: int, e: Entity, row: Row, device: Device, p: Pending)
    requires DbOk(db) && PendingOk(db, userId, device, p)
    requires KeepsOwner(db, e, row) && KeyFree(p.view, e, row)
    ensures PendingOk(SaveIn(db, e, row), userId, device, p)
  {
    var after := SaveIn(db, e, row);
    forall c | Stored(p.view, c) && c.row.userId == userId
      ensures Owned(after, userId, c.entity, c.row.id)
    {
      OwnedStays(db, userId, e, row, c.entity, c.row.id);
    }
    forall c, d | Stored(p.view, c) && Stored(after, d) && Key(c) == Key(d)
      ensures c.entity == d.entity && c.row.id == d.row.id
    {
      SaveInMembers(db, e, row, d);
    }
  }

  // ----- querying some of the tables -----

  lemma QueriedRows(view: Database, db: Database, entities: set<Entity>, c: Candidate)
    ensures Stored(Queried(view, db, entities), c) <==> if c.entity in entities then Stored(db, c) else Stored(view, c)
  {
  }

  lemma QueriedTables(view: Database, db: Database, entities: set<Entity>, e: Entity)
    ensures Table(Queried(view, db, entities), e) == if e in entities then Table(db, e) else Table(view, e)
  {
  }

  lemma QueriedDbOk(view: Database, db: Database, entities: set<Entity>)
    requires DbOk(view) && DbOk(db) && KeysApart(view, db) && entities !! view.Keys
    ensures DbOk(Queried(view, db, entities))
  {
    var after := Queried(view, db, entities);
    forall e
      ensures IdsUnique(Table(after, e))
    {
      QueriedTables(view, db, entities, e);
    }
    forall c, d | Stored(after, c) && Stored(after, d) && Key(c) == Key(d)
      ensures c == d
    {
      QueriedRows(view, db, entities, c);
      QueriedRows(view, db, entities, d);
    }
  }

  lemma QueryKeepsPendingOk(db: Database, userId: int, device: Device, p: Pending, entities: set<Entity>)
    requires DbOk(db) && DeviceOk(db, userId, device) && PendingOk(db, userId, device, p) && entities !! p.view.Keys
    ensures PendingOk(db, userId, device, p.(view := Queried(p.view, db, entities)))
  {
    var after := Queried(p.view, db, entities);
    QueriedDbOk(p.view, db, entities);
    forall c | Stored(after, c)
      ensures Stored(p.view, c) || Stored(db, c)
    {
      QueriedRows(p.view, db, entities, c);
    }
  }

  // ----- applying a page -----

  predicate About(c: Candidate, e: Entity, id: int) {
    c.entity == e && c.row.id == id
  }

  lemma ApplyLast(replica: map<EntityKey, int>, page: seq<Candidate>, last: Candidate)
    ensures ApplyAll(replica, ToEntries(page + [last])) == Apply(ApplyAll(replica, ToEntries(page)), ToEntry(last))
  {
    assert ToEntries(page + [last])[..|page|] == ToEntries(page);
  }

  lemma ApplyOne(replica: map<EntityKey, int>, c: Candidate, e: Entity, id: int)
    ensures Lookup(Apply(replica, ToEntry(c)), e, id) == if About(c, e, id) then DataOf(c.row) else Lookup(replica, e, id)
  {
  }

  /** An entity the page does not mention keeps its value. */
  lemma {:induction false} ApplyUnmentioned(replica: map<EntityKey, int>, page: seq<Candidate>, e: Entity, id: int)
    requires forall c :: c in page ==> !About(c, e, id)
    ensures Lookup(ApplyAll(replica, ToEntries(page)), e, id) == Lookup(replica, e, id)
  {
    if page != [] {
      var front, last := page[..|page| - 1], page[|page| - 1];
      assert page == front + [last];
      ApplyUnmentioned(replica, front, e, id);
      ApplyLast(replica, front, last);
      ApplyOne(ApplyAll(replica, ToEntries(front)), last, e, id);
    }
  }

  /** An entity the page mentions once takes the value of that row. */
  lemma {:induction false} ApplyMentioned(replica: map<EntityKey, int>, page: seq<Candidate>, c: Candidate)
    requires c in page
    requires forall d :: d in page && About(d, c.entity, c.row.id) ==> d == c
    ensures Lookup(ApplyAll(replica, ToEntries(page)), c.entity, c.row.id) == DataOf(c.row)
  {
    var front, last := page[..|page| - 1], page[|page| - 1];
    assert page == front + [last];
    ApplyLast(replica, front, last);
    ApplyOne(ApplyAll(replica, ToEntries(front)), last, c.entity, c.row.id);
    if last != c {
      assert c in front && last in page;
      ApplyMentioned(replica, front, c);
    }
  }

  /** The page of a device: rows `start..start + |page|` of the feed. */
  lemma PageRows(db: Database, userId: int, device: Device, limit: nat)
    requires limit > 0
    ensures var s, k := All(db, userId), Rank(All(db, userId), device.cursor);
      var page := Take(limit, Feed(db, userId, device.cursor));
      k + |page| <= |s| && page == s[k..k + |page|] && (page == [] ==> k == |s|)
  {
    FeedFromRank(db, userId, device.cursor);
  }

  ghost predicate UpToDate(db: Database, userId: int, device: Device) {
    forall c :: Stored(db, c) && c.row.userId == userId ==> Seen(device, c)
  }

  /** A device that has seen every row of the user holds exactly the live ones. */
  lemma UpToDateConverges(db: Database, userId: int, device: Device)
    requires DbOk(db) && DeviceOk(db, userId, device) && UpToDate(db, userId, device)
    ensures Converged(db, userId, device)
  {
    forall e, id
      ensures Lookup(device.replica, e, id) == LiveData(db, userId, e, id)
    {
      FindRowIsMember(Table(db, e), id);
      var found := FindRow(Table(db, e), id);
      if found.Some? {
        assert Stored(db, Candidate(e, found.value));
        if found.value.userId == userId {
          assert Seen(device, Candidate(e, found.value));
        }
      }
      if (e, id) in device.replica {
        assert Owned(db, userId, e, id);
        var row :| Stored(db, Candidate(e, row)) && row.id == id && row.userId == userId;
        assert found == Some(row);
      }
    }
  }

  /** Rows of one entity in the feed: ids are primary keys, so there is one at most. */
  lemma OneRowPerEntity(db: Database, c: Candidate, d: Candidate)
    requires DbOk(db) && Stored(db, c) && Stored(db, d) && About(d, c.entity, c.row.id)
    ensures c == d
  {
    FindRowIsMember(Table(db, c.entity), c.row.id);
  }

  /** What the device has seen after one more page: what it had seen, and the page. */
  lemma SeenAfterPage(db: Database, userId: int, device: Device, limit: nat, c: Candidate)
    requires DbOk(db) && limit > 0 && Stored(db, c) && c.row.userId == userId
    ensures Seen(ReadPage(db, userId, device, limit), c)
       <==> Seen(device, c) || c in Take(limit, Feed(db, userId, device.cursor))
    ensures Seen(device, c) ==> c !in Take(limit, Feed(db, userId, device.cursor))
  {
    var s, k := All(db, userId), Rank(All(db, userId), device.cursor);
    var page := Take(limit, Feed(db, userId, device.cursor));
    FeedKeysUnique(db, userId);
    PageRows(db, userId, device, limit);
    InFeed(db, userId, c);
    var j :| 0 <= j < |s| && s[j] == c;
    SeenByPosition(s, device.cursor, k, page, j);
  }

  /** The same, by position in the feed. */
  lemma SeenByPosition(s: seq<Candidate>, cursor: Option<Cursor>, k: nat, page: seq<Candidate>, j: nat)
    requires StrictlySorted(s) && k == Rank(s, cursor) && j < |s|
    requires k + |page| <= |s| && page == s[k..k + |page|] && (page == [] ==> k == |s|)
    ensures var next := Some(LastCursor(page, cursor).GetOr(EPOCH_CURSOR));
      !IsAfter(next, s[j]) <==> (cursor.Some? && !IsAfter(cursor, s[j])) || s[j] in page
    ensures cursor.Some? && !IsAfter(cursor, s[j]) ==> s[j] !in page
  {
    assert j < k <==> !IsAfter(cursor, s[j]) by {
      if k <= j {
        assert IsAfter(cursor, s[k]);
      }
    }
    assert s[j] in page <==> k <= j < k + |page| by {
      if k <= j < k + |page| {
        assert page[j - k] == s[j];
      }
    }
    if page != [] {
      var last := k + |page| - 1;
      assert page[|page| - 1] == s[last];
      assert j <= last <==> !IsAfter(Some(Key(s[last])), s[j]);
    }
  }

  /** What a page does to one row of the database it was read from. */
  lemma RowAfterPage(db: Database, userId: int, device: Device, limit: nat, c: Candidate)
    requires DbOk(db) && limit > 0 && Stored(db, c) && c.row.userId == userId
    ensures Lookup(ReadPage(db, userId, device, limit).replica, c.entity, c.row.id)
         == if c in Take(limit, Feed(db, userId, device.cursor)) then DataOf(c.row)
            else Lookup(device.replica, c.entity, c.row.id)
  {
    var page := Take(limit, Feed(db, userId, device.cursor));
    PageIsStored(db, userId, device, limit);
    forall d | d in page && About(d, c.entity, c.row.id)
      ensures d == c
    {
      OneRowPerEntity(db, c, d);
    }
    if c in page {
      ApplyMentioned(device.replica, page, c);
    } else {
      ApplyUnmentioned(device.replica, page, c.entity, c.row.id);
    }
  }

  /** Reading a page keeps the device right about everything up to its cursor. */
  lemma ReadKeepsRight(db: Database, userId: int, device: Device, limit: nat)
    requires DbOk(db) && RightUpTo(db, userId, device) && limit > 0
    ensures RightUpTo(db, userId, ReadPage(db, userId, device, limit))
  {
    var after := ReadPage(db, userId, device, limit);
    forall c | Stored(db, c) && c.row.userId == userId && Seen(after, c)
      ensures Lookup(after.replica, c.entity, c.row.id) == DataOf(c.row)
    {
      SeenAfterPage(db, userId, device, limit, c);
      RowAfterPage(db, userId, device, limit, c);
    }
  }

  lemma ReadKeepsOwned(view: Database, db: Database, userId: int, device: Device, limit: nat)
    requires RowsOwned(view, db, userId) && HoldsOwned(db, userId, device) && limit > 0
    ensures HoldsOwned(db, userId, ReadPage(view, userId, device, limit))
  {
    var page := Take(limit, Feed(view, userId, device.cursor));
    var after := ReadPage(view, userId, device, limit);
    PageIsStored(view, userId, device, limit);
    forall e, id | (e, id) in after.replica
      ensures Owned(db, userId, e, id)
    {
      if exists c :: c in page && About(c, e, id) {
        var c :| c in page && About(c, e, id);
        assert Stored(view, c);
      } else {
        ApplyUnmentioned(device.replica, page, e, id);
        assert Lookup(device.replica, e, id).Some?;
      }
    }
  }

  lemma RowsOwnThemselves(db: Database, userId: int)
    ensures RowsOwned(db, db, userId)
  {
    forall c | Stored(db, c) && c.row.userId == userId
      ensures Owned(db, userId, c.entity, c.row.id)
    {
      assert Stored(db, Candidate(c.entity, c.row));
    }
  }

  lemma ReadKeepsDeviceOk(db: Database, userId: int, device: Device, limit: nat)
    requires DbOk(db) && DeviceOk(db, userId, device) && limit > 0
    ensures DeviceOk(db, userId, ReadPage(db, userId, device, limit))
  {
    ReadKeepsRight(db, userId, device, limit);
    RowsOwnThemselves(db, userId);
    ReadKeepsOwned(db, db, userId, device, limit);
  }

  lemma PageIsStored(db: Database, userId: int, device: Device, limit: nat)
    requires limit > 0
    ensures forall c :: c in Take(limit, Feed(db, userId, device.cursor)) ==> Stored(db, c) && c.row.userId == userId
  {
    PageRows(db, userId, device, limit);
    forall c | c in Take(limit, Feed(db, userId, device.cursor))
      ensures Stored(db, c) && c.row.userId == userId
    {
      InFeed(db, userId, c);
    }
  }

  // ----- main results -----

  /** A page whose queries saw different moments leaves the device right about the database of now if and only if the rows
      the queries missed, at or below the last key of the page, are held by the device anyway. */
  lemma PageAcrossTables(db: Database, userId: int, device: Device, p: Pending)
    requires DbOk(db) && DeviceOk(db, userId, device) && PendingOk(db, userId, device, p)
    ensures var after := ReadPage(p.view, userId, device, p.limit);
      && HoldsOwned(db, userId, after)
      && (DeviceOk(db, userId, after)
          <==> forall c :: Missed(db, p.view, userId, c) && Seen(after, c) ==>
                 Lookup(after.replica, c.entity, c.row.id) == DataOf(c.row))
      && (Timely(db, p.view, userId, after) ==> DeviceOk(db, userId, after))
  {
    var after := ReadPage(p.view, userId, device, p.limit);
    ReadKeepsRight(p.view, userId, device, p.limit);
    ReadKeepsOwned(p.view, db, userId, device, p.limit);
    forall c | Stored(db, c) && c.row.userId == userId && Seen(after, c) && !Missed(db, p.view, userId, c)
      ensures Lookup(after.replica, c.entity, c.row.id) == DataOf(c.row)
    {
    }
  }

  lemma SaveKeeps(state: State, userId: int, e: Entity, row: Row)
    requires Inv(state, userId) && Admissible(state, userId, Save(e, row))
    ensures Inv(Next(state, userId, Save(e, row)), userId)
  {
    SaveKeepsDbOk(state.db, e, row);
    forall d | d in state.devices
      ensures DeviceOk(SaveIn(state.db, e, row), userId, state.devices[d])
    {
      SaveKeepsDeviceOk(state.db, userId, e, row, state.devices[d]);
    }
    forall d | d in state.pending
      ensures PendingOk(SaveIn(state.db, e, row), userId, state.devices[d], state.pending[d])
    {
      SaveKeepsPendingOk(state.db, userId, e, row, state.devices[d], state.pending[d]);
    }
  }

  lemma StepKeeps(state: State, userId: int, step: Step)
    requires Inv(state, userId) && Admissible(state, userId, step)
    ensures Inv(Next(state, userId, step), userId)
  {
    match step
    case Save(e, row) => SaveKeeps(state, userId, e, row);
    case Begin(d, limit) =>
    case Query(d, entities) => QueryKeepsPendingOk(state.db, userId, state.devices[d], state.pending[d], entities);
    case Finish(d) => PageAcrossTables(state.db, userId, state.devices[d], state.pending[d]);
  }

  /** Over any interleaving of timely writes and table queries, every device stays right up to its cursor. */
  lemma {:induction false} RunKeeps(state: State, userId: int, steps: seq<Step>)
    requires Inv(state, userId) && AdmissibleRun(state, userId, steps)
    ensures Inv(Run(state, userId, steps), userId)
    decreases |steps|
  {
    if steps != [] {
      StepKeeps(state, userId, steps[0]);
      RunKeeps(Next(state, userId, steps[0]), userId, steps[1..]);
    }
  }

  /** A read that announces nothing more leaves the device up to date. */
  lemma LastReadIsUpToDate(db: Database, userId: int, device: Device, limit: nat)
    requires DbOk(db) && limit > 0 && !HasMore(db, userId, device.cursor, limit)
    ensures UpToDate(db, userId, ReadPage(db, userId, device, limit))
  {
    forall c | Stored(db, c) && c.row.userId == userId
      ensures Seen(ReadPage(db, userId, device, limit), c)
    {
      SeenAfterPage(db, userId, device, limit, c);
      LastPage(db, userId, device, limit, c);
    }
  }

  lemma LastPage(db: Database, userId: int, device: Device, limit: nat, c: Candidate)
    requires limit > 0 && !HasMore(db, userId, device.cursor, limit)
    requires Stored(db, c) && c.row.userId == userId
    ensures Seen(device, c) || c in Take(limit, Feed(db, userId, device.cursor))
  {
    FeedFromRank(db, userId, device.cursor);
    InFeed(db, userId, c);
    var s, k := All(db, userId), Rank(All(db, userId), device.cursor);
    var j :| 0 <= j < |s| && s[j] == c;
    if j >= k {
      assert s[k..][j - k] == c;
    }
  }

  // ----- catching up, and what a late write does -----

  /** Reading until nothing more is announced. */
  ghost function Sync(db: Database, userId: int, device: Device, limit: nat): Device
    requires limit > 0
    decreases |All(db, userId)| - Rank(All(db, userId), device.cursor)
  {
    if !HasMore(db, userId, device.cursor, limit) then ReadPage(db, userId, device, limit)
    else
      ReadMovesOn(db, userId, device, limit);
      Sync(db, userId, ReadPage(db, userId, device, limit), limit)
  }

  lemma ReadMovesOn(db: Database, userId: int, device: Device, limit: nat)
    requires limit > 0 && HasMore(db, userId, device.cursor, limit)
    ensures Rank(All(db, userId), device.cursor) < Rank(All(db, userId), ReadPage(db, userId, device, limit).cursor)
    ensures Rank(All(db, userId), device.cursor) < |All(db, userId)|
  {
    FeedReaderReadsAll(db, userId, limit);
    ReaderMovesOn(FeedReader(db, userId, limit), All(db, userId), device.cursor, limit);
  }

  /** Without writes, reading on always ends with the replica equal to the live rows. */
  lemma {:induction false} SyncConverges(db: Database, userId: int, device: Device, limit: nat)
    requires DbOk(db) && DeviceOk(db, userId, device) && limit > 0
    ensures DeviceOk(db, userId, Sync(db, userId, device, limit))
    ensures UpToDate(db, userId, Sync(db, userId, device, limit))
    ensures Converged(db, userId, Sync(db, userId, device, limit))
    decreases |All(db, userId)| - Rank(All(db, userId), device.cursor)
  {
    ReadKeepsDeviceOk(db, userId, device, limit);
    if HasMore(db, userId, device.cursor, limit) {
      ReadMovesOn(db, userId, device, limit);
      SyncConverges(db, userId, ReadPage(db, userId, device, limit), limit);
    } else {
      LastReadIsUpToDate(db, userId, device, limit);
      UpToDateConverges(db, userId, ReadPage(db, userId, device, limit));
    }
  }

  /** Convergence: after any such run, a device that reads on without further writes ends with exactly the live rows; and it
      has them at once when its read answers `hasMore = false` and its queries missed no row. */
  lemma RunConverges(state: State, userId: int, steps: seq<Step>, d: int, limit: nat)
    requires Inv(state, userId) && AdmissibleRun(state, userId, steps) && d in Run(state, userId, steps).devices && limit > 0
    ensures var reached := Run(state, userId, steps);
      && Converged(reached.db, userId, Sync(reached.db, userId, reached.devices[d], limit))
      && (d in reached.pending && !HasMore(reached.pending[d].view, userId, reached.devices[d].cursor, reached.pending[d].limit)
          && (forall c :: !Missed(reached.db, reached.pending[d].view, userId, c)) ==>
            Converged(reached.db, userId, Answered(reached, userId, d)))
  {
    RunKeeps(state, userId, steps);
    var reached := Run(state, userId, steps);
    SyncConverges(reached.db, userId, reached.devices[d], limit);
    if d in reached.pending {
      UndisturbedReadConverges(reached.db, userId, reached.devices[d], reached.pending[d]);
    }
  }

  lemma UndisturbedReadConverges(db: Database, userId: int, device: Device, p: Pending)
    requires DbOk(db) && DeviceOk(db, userId, device) && PendingOk(db, userId, device, p)
    ensures !HasMore(p.view, userId, device.cursor, p.limit) && (forall c :: !Missed(db, p.view, userId, c)) ==>
      Converged(db, userId, ReadPage(p.view, userId, device, p.limit))
  {
    if !HasMore(p.view, userId, device.cursor, p.limit) && forall c :: !Missed(db, p.view, userId, c) {
      var after := ReadPage(p.view, userId, device, p.limit);
      PageAcrossTables(db, userId, device, p);
      LastReadIsUpToDate(p.view, userId, device, p.limit);
      forall c | Stored(db, c) && c.row.userId == userId
        ensures Seen(after, c)
      {
        assert !Missed(db, p.view, userId, c);
      }
      UpToDateConverges(db, userId, after);
    }
  }

  /** Reading on delivers a row exactly when it lies after the cursor, and leaves it alone otherwise. */
  lemma {:induction false} RowAfterSync(db: Database, userId: int, device: Device, limit: nat, c: Candidate)
    requires DbOk(db) && limit > 0 && Stored(db, c) && c.row.userId == userId
    ensures Lookup(Sync(db, userId, device, limit).replica, c.entity, c.row.id)
         == if Seen(device, c) then Lookup(device.replica, c.entity, c.row.id) else DataOf(c.row)
    decreases |All(db, userId)| - Rank(All(db, userId), device.cursor)
  {
    var next := ReadPage(db, userId, device, limit);
    SeenAfterPage(db, userId, device, limit, c);
    RowAfterPage(db, userId, device, limit, c);
    if HasMore(db, userId, device.cursor, limit) {
      ReadMovesOn(db, userId, device, limit);
      RowAfterSync(db, userId, next, limit, c);
    } else {
      LastPage(db, userId, device, limit, c);
    }
  }

  /** A row the queries of a page missed, with data the device does not hold: reading on delivers it if and only if it lies
      after the last key of that page. */
  lemma MissedRowDelivered(db: Database, view: Database, userId: int, device: Device, limit: nat, c: Candidate)
    requires DbOk(db) && limit > 0 && Missed(db, view, userId, c)
    requires DataOf(c.row) != Lookup(ReadPage(view, userId, device, limit).replica, c.entity, c.row.id)
    ensures Lookup(Sync(db, userId, ReadPage(view, userId, device, limit), limit).replica, c.entity, c.row.id) == DataOf(c.row)
       <==> IsAfter(ReadPage(view, userId, device, limit).cursor, c)
  {
    RowAfterSync(db, userId, ReadPage(view, userId, device, limit), limit, c);
  }

  /** The server saves one row with data the device does not have. Reading on delivers that row exactly when its timestamp
      and id lie after the cursor of the device: a write that becomes visible with an earlier timestamp is never delivered. */
  lemma DeliveredIffAfterCursor(db: Database, userId: int, device: Device, e: Entity, row: Row, limit: nat)
    requires DbOk(db) && KeyFree(db, e, row) && row.userId == userId && limit > 0
    requires DataOf(row) != Lookup(device.replica, e, row.id)
    ensures Lookup(Sync(SaveIn(db, e, row), userId, device, limit).replica, e, row.id) == DataOf(row)
       <==> !Seen(device, Candidate(e, row))
  {
    SaveKeepsDbOk(db, e, row);
    SaveInMembers(db, e, row, Candidate(e, row));
    RowAfterSync(SaveIn(db, e, row), userId, device, limit, Candidate(e, row));
  }

  // ----- from the start -----

  /** A device that has read nothing yet. */
  ghost predicate NewDevice(device: Device) {
    device.replica == map[] && device.cursor == None
  }

  /** A database with devices that are about to read for the first time. */
  ghost predicate Starts(state: State) {
    DbOk(state.db) && state.pending == map[] && forall d :: d in state.devices ==> NewDevice(state.devices[d])
  }

  lemma StartIsSound(state: State, userId: int)
    requires Starts(state)
    ensures Inv(state, userId)
  {
  }

  /** From any database and devices that have read nothing: after every run of writes and table queries, a device that reads
      on ends with exactly the live rows. */
  lemma EveryDeviceConverges(state: State, userId: int, steps: seq<Step>, d: int, limit: nat)
    requires Starts(state) && AdmissibleRun(state, userId, steps) && d in Run(state, userId, steps).devices && limit > 0
    ensures var reached := Run(state, userId, steps);
      Converged(reached.db, userId, Sync(reached.db, userId, reached.devices[d], limit))
  {
    StartIsSound(state, userId);
    RunConverges(state, userId, steps, d, limit);
  }

  // ----- two writes between two queries -----

  const OTHER_TABLES: set<Entity> := {Transaction, Category, Tag, Budget, Goal, Debt, Recurrence}

  /** Every table but the accounts is queried, a transaction and later an account are saved, the accounts are queried. */
  function WritesBetweenQueries(d: int, limit: nat, tx: Row, acc: Row): seq<Step> {
    [Begin(d, limit), Query(d, OTHER_TABLES), Save(Transaction, tx), Save(Account, acc), Query(d, {Account})]
  }

  function Fresh(d: int): State {
    State(map[], map[d := Device(map[], None)], map[])
  }

  lemma {:induction false} RunStep(state: State, userId: int, step: Step, rest: seq<Step>)
    requires Admissible(state, userId, step) && AdmissibleRun(Next(state, userId, step), userId, rest)
    ensures AdmissibleRun(state, userId, [step] + rest)
    ensures Run(state, userId, [step] + rest) == Run(Next(state, userId, step), userId, rest)
  {
    assert ([step] + rest)[1..] == rest;
  }

  lemma OneRowFeed(view: Database, userId: int, c: Candidate)
    requires DbOk(view) && c.row.userId == userId && forall d :: Stored(view, d) <==> d == c
    ensures Feed(view, userId, None) == [c]
  {
    var s := All(view, userId);
    FeedKeysUnique(view, userId);
    InFeed(view, userId, c);
    forall i | 0 <= i < |s| ensures s[i] == c {
      InFeed(view, userId, s[i]);
    }
    assert |s| >= 2 ==> Before(Key(s[0]), Key(s[1]));
  }

  /** The page ends with the account, and no page ever brings the transaction. */
  lemma MissedTransaction(db: Database, view: Database, userId: int, limit: nat, tx: Row, acc: Row)
    requires DbOk(db) && DbOk(view) && limit > 0
    requires tx.userId == acc.userId == userId && tx.updatedAt < acc.updatedAt && tx.deletedAt == None
    requires forall c :: Stored(view, c) <==> c == Candidate(Account, acc)
    requires Stored(db, Candidate(Transaction, tx))
    ensures var after := ReadPage(view, userId, Device(map[], None), limit);
      Lookup(Sync(db, userId, after, limit).replica, Transaction, tx.id) != DataOf(tx)
  {
    var device := Device(map[], None);
    OneRowFeed(view, userId, Candidate(Account, acc));
    var page := [Candidate(Account, acc)];
    assert Take(limit, Feed(view, userId, None)) == page;
    ApplyUnmentioned(map[], page, Transaction, tx.id);
    MissedRowDelivered(db, view, userId, device, limit, Candidate(Transaction, tx));
  }

  function EmptyView(): Database {
    Queried(map[], map[], OTHER_TABLES)
  }

  lemma EmptyViewIsEmpty(c: Candidate)
    ensures !Stored(EmptyView(), c)
  {
    QueriedRows(map[], map[], OTHER_TABLES, c);
  }

  function TwoRows(tx: Row, acc: Row): Database {
    SaveIn(SaveIn(map[], Transaction, tx), Account, acc)
  }

  /** What the two writes leave in the database and in the view. */
  lemma TwoRowsStored(tx: Row, acc: Row, c: Candidate)
    ensures Stored(SaveIn(map[], Transaction, tx), c) <==> c == Candidate(Transaction, tx)
    ensures Stored(TwoRows(tx, acc), c) <==> c == Candidate(Transaction, tx) || c == Candidate(Account, acc)
    ensures Stored(Queried(EmptyView(), TwoRows(tx, acc), {Account}), c) <==> c == Candidate(Account, acc)
  {
    EmptyViewIsEmpty(c);
    QueriedRows(EmptyView(), TwoRows(tx, acc), {Account}, c);
  }

  function Reading(db: Database, d: int, limit: nat, view: Database): State {
    State(db, map[d := Device(map[], None)], map[d := Pending(limit, view)])
  }

  lemma BeforeTheWrites(userId: int, d: int, limit: nat)
    requires limit > 0
    ensures Admissible(Fresh(d), userId, Begin(d, limit))
    ensures Next(Fresh(d), userId, Begin(d, limit)) == Reading(map[], d, limit, map[])
    ensures Admissible(Reading(map[], d, limit, map[]), userId, Query(d, OTHER_TABLES))
    ensures Next(Reading(map[], d, limit, map[]), userId, Query(d, OTHER_TABLES)) == Reading(map[], d, limit, EmptyView())
  {
  }

  lemma TheWrites(userId: int, d: int, limit: nat, tx: Row, acc: Row)
    requires tx.updatedAt < acc.updatedAt
    ensures var empty, one, two := map[], SaveIn(map[], Transaction, tx), TwoRows(tx, acc);
      && Admissible(Reading(empty, d, limit, EmptyView()), userId, Save(Transaction, tx))
      && Next(Reading(empty, d, limit, EmptyView()), userId, Save(Transaction, tx)) == Reading(one, d, limit, EmptyView())
      && Admissible(Reading(one, d, limit, EmptyView()), userId, Save(Account, acc))
      && Next(Reading(one, d, limit, EmptyView()), userId, Save(Account, acc)) == Reading(two, d, limit, EmptyView())
  {
    forall c
      ensures !Stored(EmptyView(), c)
      ensures Stored(SaveIn(map[], Transaction, tx), c) <==> c == Candidate(Transaction, tx)
    {
      TwoRowsStored(tx, acc, c);
      EmptyViewIsEmpty(c);
    }
  }

  lemma TheLastQuery(userId: int, d: int, limit: nat, db: Database)
    ensures Admissible(Reading(db, d, limit, EmptyView()), userId, Query(d, {Account}))
    ensures Next(Reading(db, d, limit, EmptyView()), userId, Query(d, {Account}))
         == Reading(db, d, limit, Queried(EmptyView(), db, {Account}))
    ensures AllQueried(Pending(limit, Queried(EmptyView(), db, {Account})))
  {
    forall e | e in REPLICATED_MODELS
      ensures e in Queried(EmptyView(), db, {Account})
    {
      assert e == Account || e in OTHER_TABLES;
    }
  }

  lemma WritesBetweenQueriesRun(userId: int, d: int, limit: nat, tx: Row, acc: Row)
    requires limit > 0 && tx.updatedAt < acc.updatedAt
    ensures AdmissibleRun(Fresh(d), userId, WritesBetweenQueries(d, limit, tx, acc))
    ensures Run(Fresh(d), userId, WritesBetweenQueries(d, limit, tx, acc))
         == Reading(TwoRows(tx, acc), d, limit, Queried(EmptyView(), TwoRows(tx, acc), {Account}))
  {
    var one, two := SaveIn(map[], Transaction, tx), TwoRows(tx, acc);
    BeforeTheWrites(userId, d, limit);
    TheWrites(userId, d, limit, tx, acc);
    TheLastQuery(userId, d, limit, two);
    var last := [Query(d, {Account})];
    RunStep(Reading(two, d, limit, EmptyView()), userId, Query(d, {Account}), []);
    assert [Query(d, {Account})] + [] == last;
    RunStep(Reading(one, d, limit, EmptyView()), userId, Save(Account, acc), last);
    RunStep(Reading(map[], d, limit, EmptyView()), userId, Save(Transaction, tx), [Save(Account, acc)] + last);
    var writes := [Save(Transaction, tx)] + ([Save(Account, acc)] + last);
    RunStep(Reading(map[], d, limit, map[]), userId, Query(d, OTHER_TABLES), writes);
    RunStep(Fresh(d), userId, Begin(d, limit), [Query(d, OTHER_TABLES)] + writes);
    assert WritesBetweenQueries(d, limit, tx, acc) == [Begin(d, limit)] + ([Query(d, OTHER_TABLES)] + writes);
  }

  /** A run whose page may not be finished: the transaction saved between its queries lies below its last key, and the device
      that takes the page never gets it. */
  lemma WriteBetweenQueriesIsLost(userId: int, d: int, limit: nat, tx: Row, acc: Row)
    requires limit > 0 && tx.userId == acc.userId == userId && tx.updatedAt < acc.updatedAt && tx.deletedAt == None
    ensures AdmissibleRun(Fresh(d), userId, WritesBetweenQueries(d, limit, tx, acc))
    ensures var reached := Run(Fresh(d), userId, WritesBetweenQueries(d, limit, tx, acc));
      && d in reached.devices && d in reached.pending && AllQueried(reached.pending[d])
      && Missed(reached.db, reached.pending[d].view, userId, Candidate(Transaction, tx))
      && Lookup(Sync(reached.db, userId, Answered(reached, userId, d), limit).replica, Transaction, tx.id) != DataOf(tx)
  {
    WritesBetweenQueriesRun(userId, d, limit, tx, acc);
    TheLastQuery(userId, d, limit, TwoRows(tx, acc));
    var db, view := TwoRows(tx, acc), Queried(EmptyView(), TwoRows(tx, acc), {Account});
    forall c
      ensures Stored(db, c) <==> c == Candidate(Transaction, tx) || c == Candidate(Account, acc)
      ensures Stored(view, c) <==> c == Candidate(Account, acc)
    {
      TwoRowsStored(tx, acc, c);
    }
    SmallTables(db, view, tx, acc);
    MissedTransaction(db, view, userId, limit, tx, acc);
  }

  lemma SmallTables(db: Database, view: Database, tx: Row, acc: Row)
    requires db == TwoRows(tx, acc) && view == Queried(EmptyView(), db, {Account}) && tx.updatedAt < acc.updatedAt
    requires forall c :: Stored(db, c) <==> c == Candidate(Transaction, tx) || c == Candidate(Account, acc)
    requires forall c :: Stored(view, c) <==> c == Candidate(Account, acc)
    ensures DbOk(db) && DbOk(view)
  {
    forall e
      ensures |Table(db, e)| <= 1 && |Table(view, e)| <= 1
    {
      QueriedTables(EmptyView(), db, {Account}, e);
      QueriedTables(map[], map[], OTHER_TABLES, e);
    }
  }
}
