/** One page of the change feed: eight tables queried, merged and cut into a single ordered page. */
module ChangesFeed {
  import opened Wrappers

  datatype Entity = Account | Transaction | Category | Tag | Budget | Goal | Debt | Recurrence

  const REPLICATED_MODELS: seq<Entity> := [Account, Transaction, Category, Tag, Budget, Goal, Debt, Recurrence]

  datatype Row = Row(id: int, userId: int, updatedAt: int, deletedAt: Option<int>, data: int)

  datatype Cursor = Cursor(updatedAt: int, id: int)

  datatype Candidate = Candidate(entity: Entity, row: Row)

  datatype Entry =
    | Upsert(entity: Entity, id: int, data: int)
    | Tombstone(entity: Entity, id: int, deletedAt: int)

  datatype Page = Page(changes: seq<Entry>, nextCursor: Option<Cursor>, hasMore: bool)

  type Database = map<Entity, seq<Row>>

  function Table(db: Database, e: Entity): seq<Row> {
    if e in db then db[e] else []
  }

  // ----- the order of the feed -----

  function Key(c: Candidate): Cursor {
    Cursor(c.row.updatedAt, c.row.id)
  }

  predicate Before(a: Cursor, b: Cursor) {
    a.updatedAt < b.updatedAt || (a.updatedAt == b.updatedAt && a.id < b.id)
  }

  predicate IsAfter(after: Option<Cursor>, c: Candidate) {
    after.Some? ==> Before(after.value, Key(c))
  }

  ghost predicate Sorted(s: seq<Candidate>) {
    forall i, j :: 0 <= i < j < |s| ==> !Before(Key(s[j]), Key(s[i]))
  }

  ghost predicate StrictlySorted(s: seq<Candidate>) {
    forall i, j :: 0 <= i < j < |s| ==> Before(Key(s[i]), Key(s[j]))
  }

  /** The stable sort of the library: an element goes before the elements with an equal key that came later. */
  function Insert(c: Candidate, s: seq<Candidate>): seq<Candidate> {
    if s == [] || !Before(Key(s[0]), Key(c)) then [c] + s else [s[0]] + Insert(c, s[1..])
  }

  function Sort(s: seq<Candidate>): seq<Candidate> {
    if s == [] then [] else Insert(s[0], Sort(s[1..]))
  }

  function Take(n: nat, s: seq<Candidate>): seq<Candidate> {
    if |s| <= n then s else s[..n]
  }

  // ----- the query on one table, and the whole feed -----

  /** The rows of the user after the cursor, in storage order. */
  function Matching(rows: seq<Row>, e: Entity, userId: int, after: Option<Cursor>): seq<Candidate> {
    if rows == [] then []
    else
      var rest := Matching(rows[1..], e, userId, after);
      if rows[0].userId == userId && IsAfter(after, Candidate(e, rows[0])) then [Candidate(e, rows[0])] + rest else rest
  }

  function FindMany(db: Database, e: Entity, userId: int, after: Option<Cursor>, limit: nat): seq<Candidate> {
    Take(limit, Sort(Matching(Table(db, e), e, userId, after)))
  }

  function MatchingIn(db: Database, models: seq<Entity>, userId: int, after: Option<Cursor>): seq<Candidate> {
    if models == [] then []
    else MatchingIn(db, models[..|models| - 1], userId, after)
         + Matching(Table(db, models[|models| - 1]), models[|models| - 1], userId, after)
  }

  /** Everything after the cursor, over all tables, in feed order. */
  function Feed(db: Database, userId: int, after: Option<Cursor>): seq<Candidate> {
    Sort(MatchingIn(db, REPLICATED_MODELS, userId, after))
  }

  function ToEntry(c: Candidate): Entry {
    if c.row.deletedAt.Some? then Tombstone(c.entity, c.row.id, c.row.deletedAt.value)
    else Upsert(c.entity, c.row.id, c.row.data)
  }

  function ToEntries(s: seq<Candidate>): (r: seq<Entry>)
    ensures |r| == |s| && forall i :: 0 <= i < |s| ==> r[i] == ToEntry(s[i])
  {
    seq(|s|, i requires 0 <= i < |s| => ToEntry(s[i]))
  }

  function LastCursor(page: seq<Candidate>, after: Option<Cursor>): Option<Cursor> {
    if page == [] then after else Some(Key(page[|page| - 1]))
  }

  /** Some table alone fills a page. */
  ghost predicate SomeTableFull(db: Database, models: seq<Entity>, userId: int, after: Option<Cursor>, limit: nat) {
    exists e :: e in models && |Matching(Table(db, e), e, userId, after)| >= limit
  }

  ghost predicate HasMore(db: Database, userId: int, after: Option<Cursor>, limit: nat) {
    SomeTableFull(db, REPLICATED_MODELS, userId, after, limit) || |Feed(db, userId, after)| > limit
  }

  // ----- sorting, merging, cutting -----

  /** Merging two sorted lists, the left one first on equal keys. */
  ghost function Merge(s: seq<Candidate>, t: seq<Candidate>): seq<Candidate>
    decreases |s| + |t|
  {
    if s == [] then t
    else if t == [] then s
    else if Before(Key(t[0]), Key(s[0])) then [t[0]] + Merge(s, t[1..])
    else [s[0]] + Merge(s[1..], t)
  }

  lemma {:induction false} InsertKeepsRows(c: Candidate, s: seq<Candidate>)
    ensures multiset(Insert(c, s)) == multiset{c} + multiset(s) && |Insert(c, s)| == |s| + 1
  {
    if s != [] && Before(Key(s[0]), Key(c)) {
      InsertKeepsRows(c, s[1..]);
      assert s == [s[0]] + s[1..];
    }
  }

  lemma {:induction false} InsertSorted(c: Candidate, s: seq<Candidate>)
    requires Sorted(s)
    ensures Sorted(Insert(c, s))
  {
    if s != [] && Before(Key(s[0]), Key(c)) {
      InsertSorted(c, s[1..]);
      InsertKeepsRows(c, s[1..]);
      var rest := Insert(c, s[1..]);
      forall j | 0 <= j < |rest|
        ensures !Before(Key(rest[j]), Key(s[0]))
      {
        assert rest[j] in multiset(rest);
        if rest[j] != c {
          assert rest[j] in s[1..];
        }
      }
    }
  }

  /** Sorting orders the rows and neither loses nor duplicates any. */
  lemma {:induction false} SortSorts(s: seq<Candidate>)
    ensures Sorted(Sort(s)) && multiset(Sort(s)) == multiset(s) && |Sort(s)| == |s|
  {
    if s != [] {
      SortSorts(s[1..]);
      InsertSorted(s[0], Sort(s[1..]));
      InsertKeepsRows(s[0], Sort(s[1..]));
      assert s == [s[0]] + s[1..];
    }
  }

  lemma {:induction false} SortOfSorted(s: seq<Candidate>)
    requires Sorted(s)
    ensures Sort(s) == s
  {
    if s != [] {
      SortOfSorted(s[1..]);
      assert s == [s[0]] + s[1..];
    }
  }

  lemma {:induction false} InsertIntoMerge(c: Candidate, s: seq<Candidate>, t: seq<Candidate>)
    requires Sorted(s) && Sorted(t)
    ensures Insert(c, Merge(s, t)) == Merge(Insert(c, s), t)
    decreases |s| + |t|
  {
    if s == [] || t == [] {
      InsertIntoMergeEdge(c, s, t);
    } else if Before(Key(t[0]), Key(s[0])) {
      InsertIntoMerge(c, s, t[1..]);
    } else {
      InsertIntoMerge(c, s[1..], t);
    }
  }

  lemma {:induction false} InsertIntoMergeEdge(c: Candidate, s: seq<Candidate>, t: seq<Candidate>)
    requires s == [] || t == []
    ensures Insert(c, Merge(s, t)) == Merge(Insert(c, s), t)
    decreases |t|
  {
    if t != [] {
      InsertIntoMergeEdge(c, s, t[1..]);
      assert [c][1..] == [];
    }
  }

  lemma {:induction false} SortOfConcat(a: seq<Candidate>, b: seq<Candidate>)
    ensures Sort(a + b) == Merge(Sort(a), Sort(b))
  {
    if a == [] {
      assert a + b == b;
    } else {
      assert (a + b)[1..] == a[1..] + b;
      SortOfConcat(a[1..], b);
      SortSorts(a[1..]);
      SortSorts(b);
      InsertIntoMerge(a[0], Sort(a[1..]), Sort(b));
    }
  }

  lemma TakeTail(q: nat, t: seq<Candidate>)
    requires q > 0 && t != []
    ensures Take(q, t) != [] && Take(q, t)[0] == t[0] && Take(q, t)[1..] == Take(q - 1, t[1..])
  {
  }

  /** The first `n` of a merge only need the first `n` of each side. */
  lemma {:induction false} TakeOfMerge(n: nat, p: nat, q: nat, s: seq<Candidate>, t: seq<Candidate>)
    requires n <= p && n <= q
    ensures Take(n, Merge(Take(p, s), Take(q, t))) == Take(n, Merge(s, t))
    decreases n
  {
    if n > 0 && s != [] && t != [] {
      TakeTail(p, s);
      TakeTail(q, t);
      if Before(Key(t[0]), Key(s[0])) {
        TakeOfMerge(n - 1, p, q - 1, s, t[1..]);
        TakeStep(n, t[0], Merge(Take(p, s), Take(q - 1, t[1..])));
        TakeStep(n, t[0], Merge(s, t[1..]));
      } else {
        TakeOfMerge(n - 1, p - 1, q, s[1..], t);
        TakeStep(n, s[0], Merge(Take(p - 1, s[1..]), Take(q, t)));
        TakeStep(n, s[0], Merge(s[1..], t));
      }
    } else if n > 0 {
      TakeTwice(n, p, s);
      TakeTwice(n, q, t);
    }
  }

  lemma TakeTwice(n: nat, p: nat, s: seq<Candidate>)
    requires n <= p
    ensures Take(n, Take(p, s)) == Take(n, s)
  {
  }

  lemma TakeStep(n: nat, c: Candidate, s: seq<Candidate>)
    requires n > 0
    ensures Take(n, [c] + s) == [c] + Take(n - 1, s)
  {
  }

  lemma SortedPrefix(n: nat, s: seq<Candidate>)
    requires Sorted(s)
    ensures Sorted(Take(n, s))
  {
  }

  /** Adding one more truncated table to the candidates changes the first page as adding the whole table would. */
  lemma OneMoreTable(limit: nat, candidates: seq<Candidate>, all: seq<Candidate>, table: seq<Candidate>)
    requires Take(limit, Sort(candidates)) == Take(limit, Sort(all))
    ensures Take(limit, Sort(candidates + Take(limit, Sort(table)))) == Take(limit, Sort(all + table))
  {
    SortSorts(table);
    SortedPrefix(limit, Sort(table));
    SortOfSorted(Take(limit, Sort(table)));
    SortOfConcat(candidates, Take(limit, Sort(table)));
    SortOfConcat(all, table);
    TakeOfMerge(limit, limit, limit, Sort(candidates), Take(limit, Sort(table)));
    TakeOfMerge(limit, limit, limit, Sort(all), Sort(table));
  }

  lemma MatchingInMore(db: Database, models: seq<Entity>, e: Entity, userId: int, after: Option<Cursor>)
    ensures MatchingIn(db, models + [e], userId, after)
         == MatchingIn(db, models, userId, after) + Matching(Table(db, e), e, userId, after)
  {
    assert (models + [e])[..|models|] == models;
  }

  lemma SomeTableFullMore(db: Database, models: seq<Entity>, e: Entity, userId: int, after: Option<Cursor>, limit: nat)
    ensures SomeTableFull(db, models + [e], userId, after, limit)
       <==> SomeTableFull(db, models, userId, after, limit) || |Matching(Table(db, e), e, userId, after)| >= limit
  {
    assert e in models + [e];
    assert forall f :: f in models ==> f in models + [e];
  }

  // ----- the page -----

  /** What the candidates taken from some tables say about all their rows. */
  ghost predicate Collected(db: Database, models: seq<Entity>, userId: int, after: Option<Cursor>, limit: nat,
      candidates: seq<Candidate>, anyModelFull: bool)
  {
    var all := MatchingIn(db, models, userId, after);
    && Take(limit, Sort(candidates)) == Take(limit, Sort(all))
    && (anyModelFull <==> SomeTableFull(db, models, userId, after, limit))
    && |candidates| <= |all| && (!anyModelFull ==> |candidates| == |all|)
  }

  lemma OneMoreCollected(db: Database, models: seq<Entity>, m: nat, userId: int, after: Option<Cursor>, limit: nat,
      candidates: seq<Candidate>, anyModelFull: bool, rows: seq<Candidate>)
    requires m < |models| && Collected(db, models[..m], userId, after, limit, candidates, anyModelFull)
    requires rows == FindMany(db, models[m], userId, after, limit)
    ensures Collected(db, models[..m + 1], userId, after, limit, candidates + rows, anyModelFull || |rows| == limit)
  {
    var e := models[m];
    var table := Matching(Table(db, e), e, userId, after);
    assert models[..m + 1] == models[..m] + [e];
    MatchingInMore(db, models[..m], e, userId, after);
    SomeTableFullMore(db, models[..m], e, userId, after, limit);
    SortSorts(table);
    OneMoreTable(limit, candidates, MatchingIn(db, models[..m], userId, after), table);
  }

  lemma NothingCollected(db: Database, models: seq<Entity>, userId: int, after: Option<Cursor>, limit: nat)
    ensures Collected(db, models[..0], userId, after, limit, [], false)
  {
    assert models[..0] == [];
  }

  lemma AllCollected(db: Database, models: seq<Entity>, userId: int, after: Option<Cursor>, limit: nat,
      candidates: seq<Candidate>, anyModelFull: bool)
    requires Collected(db, models[..|models|], userId, after, limit, candidates, anyModelFull)
    ensures Collected(db, models, userId, after, limit, candidates, anyModelFull)
  {
    assert models[..|models|] == models;
  }

  /** The first `limit` rows of every table, one table after the other. `db` holds each table as its query saw it; the
      queries of one page share no transaction, so these need not be tables of one moment. */
  method CollectCandidates(db: Database, models: seq<Entity>, userId: int, after: Option<Cursor>, limit: nat)
    returns (candidates: seq<Candidate>, anyModelFull: bool)
    ensures Collected(db, models, userId, after, limit, candidates, anyModelFull)
  {
    candidates, anyModelFull := [], false;
    NothingCollected(db, models, userId, after, limit);
    for m := 0 to |models|
      invariant Collected(db, models[..m], userId, after, limit, candidates, anyModelFull)
    {
      var rows := FindMany(db, models[m], userId, after, limit);
      OneMoreCollected(db, models, m, userId, after, limit, candidates, anyModelFull, rows);
      candidates := candidates + rows;
      anyModelFull := anyModelFull || |rows| == limit;
    }
    AllCollected(db, models, userId, after, limit, candidates, anyModelFull);
  }

  /** The page is exactly the first `limit` rows after the cursor of the sorted union of all tables, and `hasMore`
      is only ever false when the page holds everything that was left. */
  method LoadChangesPage(db: Database, userId: int, after: Option<Cursor>, limit: nat) returns (page: Page)
    ensures page.changes == ToEntries(Take(limit, Feed(db, userId, after)))
    ensures page.nextCursor == LastCursor(Take(limit, Feed(db, userId, after)), after)
    ensures page.hasMore <==> HasMore(db, userId, after, limit)
    ensures !page.hasMore ==> |page.changes| == |Feed(db, userId, after)|
  {
    var candidates, anyModelFull := CollectCandidates(db, REPLICATED_MODELS, userId, after, limit);
    SortSorts(candidates);
    SortSorts(MatchingIn(db, REPLICATED_MODELS, userId, after));
    candidates := Sort(candidates);
    var rows := Take(limit, candidates);
    var hasMore := anyModelFull || |candidates| > limit;
    page := Page(ToEntries(rows), LastCursor(rows, after), hasMore);
  }

  const EPOCH_CURSOR := Cursor(0, 0)

  /** The `changes` endpoint always hands out a cursor: the start of time when the feed is still empty. */
  method Changes(db: Database, userId: int, since: Option<Cursor>, limit: nat)
    returns (changes: seq<Entry>, cursor: Cursor, hasMore: bool)
    ensures changes == ToEntries(Take(limit, Feed(db, userId, since)))
    ensures cursor == LastCursor(Take(limit, Feed(db, userId, since)), since).GetOr(EPOCH_CURSOR)
    ensures hasMore <==> HasMore(db, userId, since, limit)
  {
    var page := LoadChangesPage(db, userId, since, limit);
    changes, cursor, hasMore := page.changes, page.nextCursor.GetOr(EPOCH_CURSOR), page.hasMore;
  }

  // ----- the feed after a cursor is a suffix of the whole feed -----

  ghost function Keep(s: seq<Candidate>, after: Option<Cursor>): seq<Candidate> {
    if s == [] then [] else if IsAfter(after, s[0]) then [s[0]] + Keep(s[1..], after) else Keep(s[1..], after)
  }

  lemma {:induction false} KeepConcat(a: seq<Candidate>, b: seq<Candidate>, after: Option<Cursor>)
    ensures Keep(a + b, after) == Keep(a, after) + Keep(b, after)
  {
    if a == [] {
      assert a + b == b;
    } else {
      assert (a + b)[1..] == a[1..] + b;
      KeepConcat(a[1..], b, after);
    }
  }

  lemma {:induction false} KeepOfMatching(rows: seq<Row>, e: Entity, userId: int, after: Option<Cursor>)
    ensures Matching(rows, e, userId, after) == Keep(Matching(rows, e, userId, None), after)
  {
    if rows != [] {
      KeepOfMatching(rows[1..], e, userId, after);
    }
  }

  lemma {:induction false} KeepOfMatchingIn(db: Database, models: seq<Entity>, userId: int, after: Option<Cursor>)
    ensures MatchingIn(db, models, userId, after) == Keep(MatchingIn(db, models, userId, None), after)
  {
    if models != [] {
      var e := models[|models| - 1];
      KeepOfMatchingIn(db, models[..|models| - 1], userId, after);
      KeepOfMatching(Table(db, e), e, userId, after);
      KeepConcat(MatchingIn(db, models[..|models| - 1], userId, None), Matching(Table(db, e), e, userId, None), after);
    }
  }

  lemma {:induction false} KeepOfInsert(c: Candidate, s: seq<Candidate>, after: Option<Cursor>)
    requires Sorted(s)
    ensures Keep(Insert(c, s), after) == if IsAfter(after, c) then Insert(c, Keep(s, after)) else Keep(s, after)
  {
    if s == [] || !Before(Key(s[0]), Key(c)) {
      assert ([c] + s)[1..] == s;
      if IsAfter(after, c) && s != [] {
        KeepIsSuffix(s, after, 0);
        assert Keep(s, after) == s;
      }
    } else {
      assert ([s[0]] + Insert(c, s[1..]))[1..] == Insert(c, s[1..]);
      KeepOfInsert(c, s[1..], after);
    }
  }

  lemma {:induction false} KeepOfSort(s: seq<Candidate>, after: Option<Cursor>)
    ensures Keep(Sort(s), after) == Sort(Keep(s, after))
  {
    if s != [] {
      KeepOfSort(s[1..], after);
      SortSorts(s[1..]);
      KeepOfInsert(s[0], Sort(s[1..]), after);
    }
  }

  /** In a sorted list, what lies after a cursor starts at the first row after it. */
  lemma {:induction false} KeepIsSuffix(s: seq<Candidate>, after: Option<Cursor>, k: nat)
    requires Sorted(s) && k <= |s|
    requires forall i :: 0 <= i < k ==> !IsAfter(after, s[i])
    requires k < |s| ==> IsAfter(after, s[k])
    ensures Keep(s, after) == s[k..]
    decreases |s|
  {
    if s != [] {
      if k > 0 {
        KeepIsSuffix(s[1..], after, k - 1);
        assert s[1..][k - 1..] == s[k..];
      } else if |s| > 1 {
        KeepIsSuffix(s[1..], after, 0);
        assert s[1..][0..] == s[1..];
      }
    }
  }

  /** Reading after the cursor `after` is reading the whole feed from the first row after it. */
  lemma FeedIsSuffix(db: Database, userId: int, after: Option<Cursor>, k: nat)
    requires k <= |Feed(db, userId, None)|
    requires forall i :: 0 <= i < k ==> !IsAfter(after, Feed(db, userId, None)[i])
    requires k < |Feed(db, userId, None)| ==> IsAfter(after, Feed(db, userId, None)[k])
    ensures Feed(db, userId, after) == Feed(db, userId, None)[k..]
  {
    var all := MatchingIn(db, REPLICATED_MODELS, userId, None);
    KeepOfMatchingIn(db, REPLICATED_MODELS, userId, after);
    KeepOfSort(all, after);
    SortSorts(all);
    KeepIsSuffix(Sort(all), after, k);
  }
}
