/** Following the cursors of the feed over a database that does not change. */
module FeedPaging {
  import opened Wrappers
  import opened ChangesFeed

  /** The position in the whole feed where the rows after the cursor begin. */
  ghost function Rank(s: seq<Candidate>, after: Option<Cursor>): (k: nat)
    ensures k <= |s|
    ensures forall i :: 0 <= i < k ==> !IsAfter(after, s[i])
    ensures k < |s| ==> IsAfter(after, s[k])
  {
    RankFrom(s, after, 0)
  }

  ghost function RankFrom(s: seq<Candidate>, after: Option<Cursor>, start: nat): (k: nat)
    requires start <= |s|
    ensures start <= k <= |s|
    ensures forall i :: start <= i < k ==> !IsAfter(after, s[i])
    ensures k < |s| ==> IsAfter(after, s[k])
    decreases |s| - start
  {
    if start == |s| || IsAfter(after, s[start]) then start else RankFrom(s, after, start + 1)
  }

  ghost function All(db: Database, userId: int): seq<Candidate> {
    Feed(db, userId, None)
  }

  ghost predicate UniqueKeys(db: Database, userId: int) {
    forall i, j :: 0 <= i < j < |All(db, userId)| ==> Key(All(db, userId)[i]) != Key(All(db, userId)[j])
  }

  lemma AllSorted(db: Database, userId: int)
    ensures Sorted(All(db, userId))
    ensures UniqueKeys(db, userId) <==> StrictlySorted(All(db, userId))
  {
    SortSorts(MatchingIn(db, REPLICATED_MODELS, userId, None));
  }

  lemma FeedFromRank(db: Database, userId: int, after: Option<Cursor>)
    ensures Feed(db, userId, after) == All(db, userId)[Rank(All(db, userId), after)..]
  {
    FeedIsSuffix(db, userId, after, Rank(All(db, userId), after));
  }

  lemma {:induction false} FullTableFitsInFeed(db: Database, models: seq<Entity>, userId: int, after: Option<Cursor>,
          e: Entity)
    requires e in models
    ensures |Matching(Table(db, e), e, userId, after)| <= |MatchingIn(db, models, userId, after)|
  {
    if models[|models| - 1] != e {
      FullTableFitsInFeed(db, models[..|models| - 1], userId, after, e);
    }
  }

  /** `hasMore` is never true on a page shorter than the limit. */
  lemma MoreMeansFullPage(db: Database, userId: int, after: Option<Cursor>, limit: nat)
    requires HasMore(db, userId, after, limit)
    ensures |Feed(db, userId, after)| >= limit
  {
    SortSorts(MatchingIn(db, REPLICATED_MODELS, userId, after));
    if SomeTableFull(db, REPLICATED_MODELS, userId, after, limit) {
      var e :| e in REPLICATED_MODELS && |Matching(Table(db, e), e, userId, after)| >= limit;
      FullTableFitsInFeed(db, REPLICATED_MODELS, userId, after, e);
    }
  }

  /** The cursor of a page that ends at position `k` of the feed skips everything up to `k`, and in a feed without
      equal keys nothing beyond it. */
  lemma NextRank(s: seq<Candidate>, k: nat)
    requires Sorted(s) && k < |s|
    ensures Rank(s, Some(Key(s[k]))) > k
    ensures StrictlySorted(s) ==> Rank(s, Some(Key(s[k]))) == k + 1
  {
    var r := Rank(s, Some(Key(s[k])));
    assert forall i :: 0 <= i <= k ==> !IsAfter(Some(Key(s[k])), s[i]);
    assert StrictlySorted(s) && k + 1 < |s| ==> IsAfter(Some(Key(s[k])), s[k + 1]);
  }

  // ----- reading page after page -----

  /** What a paged endpoint answers: the rows after a cursor, and whether it announces more than `limit` of them. */
  datatype Reader = Reader(feed: Option<Cursor> -> seq<Candidate>, more: Option<Cursor> -> bool)

  ghost predicate Announces(reader: Reader, s: seq<Candidate>, limit: nat, after: Option<Cursor>) {
    && reader.feed(after) == s[Rank(s, after)..]
    && if reader.more(after) then |reader.feed(after)| >= limit else |reader.feed(after)| <= limit
  }

  /** The reader pages through the sorted list `s`. */
  ghost predicate ReadsList(reader: Reader, s: seq<Candidate>, limit: nat) {
    limit > 0 && Sorted(s) && (forall after :: Announces(reader, s, limit, after))
  }

  ghost function FeedReader(db: Database, userId: int, limit: nat): Reader {
    Reader(after => Feed(db, userId, after), after => HasMore(db, userId, after, limit))
  }

  lemma FeedReaderReadsAll(db: Database, userId: int, limit: nat)
    requires limit > 0
    ensures ReadsList(FeedReader(db, userId, limit), All(db, userId), limit)
  {
    AllSorted(db, userId);
    forall after
      ensures Announces(FeedReader(db, userId, limit), All(db, userId), limit, after)
    {
      FeedFromRank(db, userId, after);
      if HasMore(db, userId, after, limit) {
        MoreMeansFullPage(db, userId, after, limit);
      }
    }
  }

  /** The next `limit` rows after the cursor. */
  lemma PageOf(reader: Reader, s: seq<Candidate>, after: Option<Cursor>, limit: nat)
    requires ReadsList(reader, s, limit) && reader.more(after)
    ensures Rank(s, after) + limit <= |s|
    ensures Take(limit, reader.feed(after)) == s[Rank(s, after)..Rank(s, after) + limit]
    ensures LastCursor(Take(limit, reader.feed(after)), after) == Some(Key(s[Rank(s, after) + limit - 1]))
  {
    assert Announces(reader, s, limit, after);
  }

  /** The cursor of a page that announces more lies further in the list. */
  lemma ReaderMovesOn(reader: Reader, s: seq<Candidate>, after: Option<Cursor>, limit: nat)
    requires ReadsList(reader, s, limit) && reader.more(after)
    ensures Rank(s, after) < |s| && Take(limit, reader.feed(after)) != []
    ensures Rank(s, after) < Rank(s, LastCursor(Take(limit, reader.feed(after)), after))
  {
    PageOf(reader, s, after, limit);
    NextRank(s, Rank(s, after) + limit - 1);
  }

  lemma LastPageOf(reader: Reader, s: seq<Candidate>, after: Option<Cursor>, limit: nat)
    requires ReadsList(reader, s, limit) && !reader.more(after)
    ensures Take(limit, reader.feed(after)) == s[Rank(s, after)..] && |s| - Rank(s, after) <= limit
  {
    assert Announces(reader, s, limit, after);
  }

  /** What a client receives by asking for pages from `after` on until no more are announced. */
  ghost function Follow(reader: Reader, s: seq<Candidate>, after: Option<Cursor>, limit: nat): seq<Candidate>
    requires ReadsList(reader, s, limit)
    decreases |s| - Rank(s, after)
  {
    var page := Take(limit, reader.feed(after));
    if !reader.more(after) then page
    else
      PageOf(reader, s, after, limit);
      NextRank(s, Rank(s, after) + limit - 1);
      page + Follow(reader, s, LastCursor(page, after), limit)
  }

  ghost function Drain(db: Database, userId: int, after: Option<Cursor>, limit: nat): seq<Candidate>
    requires limit > 0
  {
    FeedReaderReadsAll(db, userId, limit);
    Follow(FeedReader(db, userId, limit), All(db, userId), after, limit)
  }

  /** The cursor of a row leads to the row right after it. */
  ghost predicate CursorsSkipNothing(s: seq<Candidate>) {
    forall k {:trigger Rank(s, Some(Key(s[k])))} :: 0 <= k < |s| ==> Rank(s, Some(Key(s[k]))) == k + 1
  }

  lemma CutAt(s: seq<Candidate>, lo: nat, hi: nat)
    requires lo <= hi <= |s|
    ensures s[lo..] == s[lo..hi] + s[hi..]
  {
  }

  lemma {:induction false} FollowIsSuffix(reader: Reader, s: seq<Candidate>, after: Option<Cursor>, limit: nat)
    requires ReadsList(reader, s, limit) && CursorsSkipNothing(s)
    ensures Follow(reader, s, after, limit) == s[Rank(s, after)..]
    decreases |s| - Rank(s, after)
  {
    var k := Rank(s, after);
    if reader.more(after) {
      PageOf(reader, s, after, limit);
      FollowIsSuffix(reader, s, Some(Key(s[k + limit - 1])), limit);
      assert Rank(s, Some(Key(s[k + limit - 1]))) == k + limit;
      CutAt(s, k, k + limit);
    } else {
      LastPageOf(reader, s, after, limit);
    }
  }

  ghost predicate IncreasesAfter(after: Option<Cursor>, s: seq<Candidate>) {
    StrictlySorted(s) && (forall c :: c in s ==> IsAfter(after, c))
  }

  lemma OneRowThenTheRest(s: seq<Candidate>, after: Option<Cursor>, rest: seq<Candidate>)
    requires Sorted(s) && Rank(s, after) < |s|
    requires IncreasesAfter(Some(Key(s[Rank(s, after)])), rest)
    ensures IncreasesAfter(after, s[Rank(s, after)..Rank(s, after) + 1] + rest)
  {
    var first := s[Rank(s, after)];
    assert s[Rank(s, after)..Rank(s, after) + 1] == [first];
    forall j | 0 <= j < |rest|
      ensures Before(Key(first), Key(rest[j]))
    {
      assert IsAfter(Some(Key(first)), rest[j]);
    }
  }

  lemma AtMostOneRow(s: seq<Candidate>, after: Option<Cursor>)
    requires |s| - Rank(s, after) <= 1
    ensures IncreasesAfter(after, s[Rank(s, after)..])
  {
  }

  /** With pages of one row, a row is only ever followed by rows with a larger key. */
  lemma {:induction false} FollowByOneIncreases(reader: Reader, s: seq<Candidate>, after: Option<Cursor>)
    requires ReadsList(reader, s, 1)
    ensures IncreasesAfter(after, Follow(reader, s, after, 1))
    decreases |s| - Rank(s, after)
  {
    if reader.more(after) {
      PageOf(reader, s, after, 1);
      NextRank(s, Rank(s, after));
      var next := Some(Key(s[Rank(s, after)]));
      FollowByOneIncreases(reader, s, next);
      OneRowThenTheRest(s, after, Follow(reader, s, next, 1));
    } else {
      LastPageOf(reader, s, after, 1);
      AtMostOneRow(s, after);
    }
  }

  lemma UniqueKeysDrain(db: Database, userId: int, limit: nat)
    requires limit > 0 && UniqueKeys(db, userId)
    ensures Drain(db, userId, None, limit) == All(db, userId)
  {
    AllSorted(db, userId);
    FeedReaderReadsAll(db, userId, limit);
    forall k | 0 <= k < |All(db, userId)|
      ensures Rank(All(db, userId), Some(Key(All(db, userId)[k]))) == k + 1
    {
      NextRank(All(db, userId), k);
    }
    FollowIsSuffix(FeedReader(db, userId, limit), All(db, userId), None, limit);
  }

  lemma DrainByOneNeedsUniqueKeys(db: Database, userId: int)
    requires Drain(db, userId, None, 1) == All(db, userId)
    ensures UniqueKeys(db, userId)
  {
    AllSorted(db, userId);
    FeedReaderReadsAll(db, userId, 1);
    FollowByOneIncreases(FeedReader(db, userId, 1), All(db, userId), None);
  }

  ghost predicate Complete(db: Database, userId: int, limit: nat) {
    limit > 0 ==> Drain(db, userId, None, limit) == All(db, userId)
  }

  /** Following the cursors delivers every row exactly once and in order, whatever the page size, exactly when no
      two rows of the user share both timestamp and id. */
  lemma DrainIsComplete(db: Database, userId: int)
    ensures UniqueKeys(db, userId) <==> forall limit: nat :: Complete(db, userId, limit)
  {
    if UniqueKeys(db, userId) {
      forall limit: nat
        ensures Complete(db, userId, limit)
      {
        if limit > 0 {
          UniqueKeysDrain(db, userId, limit);
        }
      }
    } else if Complete(db, userId, 1) {
      DrainByOneNeedsUniqueKeys(db, userId);
    }
  }

  /** The feed holds exactly the rows of the user in the eight tables, each once, in feed order. */
  lemma AllIsSortedUnion(db: Database, userId: int)
    ensures Sorted(All(db, userId))
    ensures multiset(All(db, userId)) == multiset(MatchingIn(db, REPLICATED_MODELS, userId, None))
  {
    SortSorts(MatchingIn(db, REPLICATED_MODELS, userId, None));
  }

  /** Two tables holding one row each with the same timestamp and id: a page size of one loses the second row. */
  lemma TieAcrossTablesIsLost()
    ensures var row := Row(7, 1, 100, None, 0);
      var db: Database := map[Account := [row], Transaction := [row]];
      Drain(db, 1, None, 1) != All(db, 1)
  {
    var row := Row(7, 1, 100, None, 0);
    var db: Database := map[Account := [row], Transaction := [row]];
    if Drain(db, 1, None, 1) == All(db, 1) {
      DrainByOneNeedsUniqueKeys(db, 1);
      AllIsSortedUnion(db, 1);
      TwoTablesTwoRows(db, row);
      EqualKeysOnce(All(db, 1), Candidate(Account, row), Candidate(Transaction, row));
    }
  }

  lemma EqualKeysOnce(s: seq<Candidate>, c: Candidate, d: Candidate)
    requires forall i, j :: 0 <= i < j < |s| ==> Key(s[i]) != Key(s[j])
    requires c in multiset(s) && d in multiset(s) && Key(c) == Key(d)
    ensures c == d
  {
  }

  lemma TwoTablesTwoRows(db: Database, row: Row)
    requires db == map[Account := [row], Transaction := [row]] && row.userId == 1
    ensures Candidate(Account, row) in MatchingIn(db, REPLICATED_MODELS, 1, None)
    ensures Candidate(Transaction, row) in MatchingIn(db, REPLICATED_MODELS, 1, None)
  {
    RowsAreMatching(db, REPLICATED_MODELS, 1, None, Account, row);
    RowsAreMatching(db, REPLICATED_MODELS, 1, None, Transaction, row);
  }

  lemma {:induction false} RowsAreMatching(db: Database, models: seq<Entity>, userId: int, after: Option<Cursor>,
          e: Entity, row: Row)
    requires e in models
    ensures Candidate(e, row) in MatchingIn(db, models, userId, after)
       <==> row in Table(db, e) && row.userId == userId && IsAfter(after, Candidate(e, row))
  {
    var last := models[|models| - 1];
    var front := models[..|models| - 1];
    MatchingMembers(Table(db, last), last, userId, after, e, row);
    if e in front {
      RowsAreMatching(db, front, userId, after, e, row);
    } else {
      NotInOtherTables(db, front, userId, after, e, row);
    }
  }

  lemma {:induction false} NotInOtherTables(db: Database, models: seq<Entity>, userId: int, after: Option<Cursor>,
          e: Entity, row: Row)
    requires e !in models
    ensures Candidate(e, row) !in MatchingIn(db, models, userId, after)
  {
    if models != [] {
      var last := models[|models| - 1];
      MatchingMembers(Table(db, last), last, userId, after, e, row);
      NotInOtherTables(db, models[..|models| - 1], userId, after, e, row);
    }
  }

  lemma {:induction false} MatchingMembers(rows: seq<Row>, table: Entity, userId: int, after: Option<Cursor>,
          e: Entity, row: Row)
    ensures Candidate(e, row) in Matching(rows, table, userId, after)
       <==> e == table && row in rows && row.userId == userId && IsAfter(after, Candidate(e, row))
  {
    if rows != [] {
      MatchingMembers(rows[1..], table, userId, after, e, row);
    }
  }
}
