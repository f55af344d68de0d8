/** Classification of uploaded rows into rows to import, duplicates and errors. */
module ImportDedupe {
  import opened Wrappers
  import opened Integers
  import opened Similarity

  type Id = nat
  type Fingerprint = string
  type Row = seq<string>

  datatype Candidate = Candidate(occurredAt: int, description: string, amountMinor: int, isExpense: bool)

  datatype MappingError = MappingError(column: string, raw: string, message: string)

  /** What the columns of a row say, with the sign of the amount. */
  datatype Fields = Fields(occurredAt: int, description: string, signedMinor: int)

  /** How the rows of one file are read: the mapping of its columns, the label normalization and the fingerprint. */
  datatype Reader = Reader(
    isBlank: Row -> bool, readFields: Row -> Result<Fields, MappingError>, amountColumn: string,
    normalize: string -> string, fingerprint: (Candidate, string) -> Fingerprint)
  {
    /** A row without an amount is an error; the sign of the amount becomes the type of the candidate. */
    function MapRow(row: Row): Result<Candidate, MappingError> {
      match readFields(row)
      case Failure(error) => Failure(error)
      case Success(fields) =>
        if fields.signedMinor == 0 then Failure(MappingError(amountColumn, "0", "AMOUNT_ZERO"))
        else Success(Candidate(fields.occurredAt, fields.description, Abs(fields.signedMinor), fields.signedMinor < 0))
    }

    function LabelOf(candidate: Candidate): string {
      normalize(candidate.description)
    }

    function FingerprintOf(candidate: Candidate): Fingerprint {
      fingerprint(candidate, LabelOf(candidate))
    }
  }

  datatype Existing = Existing(
    id: Id, accountId: Id, amountMinor: int, occurredAt: int, normalizedLabel: string, fingerprint: Fingerprint)

  datatype PreviewRow = PreviewRow(rowIndex: int, candidate: Candidate, fingerprint: Fingerprint, normalizedLabel: string)

  datatype Match = InBatch | Exact(id: Id) | Probable(id: Id)

  datatype DuplicateRow = DuplicateRow(row: PreviewRow, matched: Match)

  datatype ErrorRow = ErrorRow(rowIndex: int, error: MappingError)

  datatype Lists = Lists(
    toImport: seq<PreviewRow>, duplicates: seq<DuplicateRow>, errors: seq<ErrorRow>, seen: set<Fingerprint>)

  // ----- duplicates of stored transactions -----

  const THREE_DAYS_MS := 3 * 24 * 60 * 60 * 1000
  const SIMILARITY_THRESHOLD := 0.85

  predicate IsProbable(tx: Existing, accountId: Id, candidate: Candidate, normalized: string) {
    tx.accountId == accountId && tx.amountMinor == candidate.amountMinor
    && Abs(tx.occurredAt - candidate.occurredAt) <= THREE_DAYS_MS
    && JaroWinklerScore(tx.normalizedLabel, normalized) >= SIMILARITY_THRESHOLD
  }

  /** The first stored transaction that probably is the candidate. */
  function ProbableDuplicate(existing: seq<Existing>, accountId: Id, candidate: Candidate,
          normalized: string): (r: Option<Existing>)
    ensures r.Some? ==> r.value in existing && IsProbable(r.value, accountId, candidate, normalized)
    ensures r == None ==> forall tx :: tx in existing ==> !IsProbable(tx, accountId, candidate, normalized)
  {
    if existing == [] then None
    else if IsProbable(existing[0], accountId, candidate, normalized) then Some(existing[0])
    else ProbableDuplicate(existing[1..], accountId, candidate, normalized)
  }

  method FindProbableDuplicate(existing: seq<Existing>, accountId: Id, candidate: Candidate, normalized: string)
    returns (found: Option<Existing>)
    ensures found == ProbableDuplicate(existing, accountId, candidate, normalized)
  {
    for i := 0 to |existing|
      invariant ProbableDuplicate(existing, accountId, candidate, normalized)
             == ProbableDuplicate(existing[i..], accountId, candidate, normalized)
    {
      assert existing[i..][0] == existing[i] && existing[i..][1..] == existing[i + 1..];
      var tx := existing[i];
      if tx.accountId != accountId {
        continue;
      }
      if tx.amountMinor != candidate.amountMinor {
        continue;
      }
      var dayDelta := Abs(tx.occurredAt - candidate.occurredAt);
      if dayDelta > THREE_DAYS_MS {
        continue;
      }
      var score := JaroWinkler(tx.normalizedLabel, normalized);
      if score >= SIMILARITY_THRESHOLD {
        return Some(tx);
      }
    }
    return None;
  }

  /** Stored fingerprints; the last transaction listed wins. */
  function ByFingerprint(existing: seq<Existing>): (m: map<Fingerprint, Id>)
    ensures forall tx :: tx in existing ==> tx.fingerprint in m
    ensures forall f :: f in m ==> exists tx :: tx in existing && tx.fingerprint == f && tx.id == m[f]
  {
    if existing == [] then map[]
    else
      var last := existing[|existing| - 1];
      assert forall tx :: tx in existing ==> tx == last || tx in existing[..|existing| - 1];
      assert last in existing;
      ByFingerprint(existing[..|existing| - 1])[last.fingerprint := last.id]
  }

  // ----- one row after the other -----

  function RowIndex(headerRowIndex: int, index: int): int {
    headerRowIndex + 1 + index
  }

  function PreviewOf(reader: Reader, candidate: Candidate, rowIndex: int): PreviewRow {
    PreviewRow(rowIndex, candidate, reader.FingerprintOf(candidate), reader.LabelOf(candidate))
  }

  /** The transaction a row duplicates: a stored one with its fingerprint, an earlier row of the file, or a probable one. */
  function MatchFor(existing: seq<Existing>, accountId: Id, seen: set<Fingerprint>,
          preview: PreviewRow): Option<Match> {
    var stored := ByFingerprint(existing);
    if preview.fingerprint in stored then Some(Exact(stored[preview.fingerprint]))
    else if preview.fingerprint in seen then Some(InBatch)
    else
      match ProbableDuplicate(existing, accountId, preview.candidate, preview.normalizedLabel)
      case Some(tx) => Some(Probable(tx.id))
      case None => None
  }

  function SeenAfter(existing: seq<Existing>, seen: set<Fingerprint>, f: Fingerprint): set<Fingerprint> {
    if f in ByFingerprint(existing) then seen else seen + {f}
  }

  function Place(lists: Lists, preview: PreviewRow, found: Option<Match>): Lists {
    match found
    case Some(m) => lists.(duplicates := lists.duplicates + [DuplicateRow(preview, m)])
    case None => lists.(toImport := lists.toImport + [preview])
  }

  function Sort(reader: Reader, existing: seq<Existing>, accountId: Id, lists: Lists, row: Row, rowIndex: int): Lists {
    if reader.isBlank(row) then lists
    else
      match reader.MapRow(row)
      case Failure(error) => lists.(errors := lists.errors + [ErrorRow(rowIndex, error)])
      case Success(candidate) =>
        var preview := PreviewOf(reader, candidate, rowIndex);
        Place(lists.(seen := SeenAfter(existing, lists.seen, preview.fingerprint)), preview,
          MatchFor(existing, accountId, lists.seen, preview))
  }

  /** The lists after the first `n` rows. */
  function Classify(reader: Reader, existing: seq<Existing>, accountId: Id, rows: seq<Row>, header: int, n: nat): Lists
    requires n <= |rows|
  {
    if n == 0 then Lists([], [], [], {})
    else
      Sort(reader, existing, accountId, Classify(reader, existing, accountId, rows, header, n - 1), rows[n - 1],
        RowIndex(header, n - 1))
  }

  /** The three levels in turn: an exact match ends the search, everything else is seen from now on. */
  method FindMatch(existing: seq<Existing>, existingFingerprints: map<Fingerprint, Id>, accountId: Id,
      seenInBatch: set<Fingerprint>, previewRow: PreviewRow)
    returns (found: Option<Match>, seen: set<Fingerprint>)
    requires existingFingerprints == ByFingerprint(existing)
    ensures found == MatchFor(existing, accountId, seenInBatch, previewRow)
    ensures seen == SeenAfter(existing, seenInBatch, previewRow.fingerprint)
  {
    var fingerprint := previewRow.fingerprint;
    if fingerprint in existingFingerprints {
      return Some(Exact(existingFingerprints[fingerprint])), seenInBatch;
    }
    if fingerprint in seenInBatch {
      assert seenInBatch + {fingerprint} == seenInBatch;
      return Some(InBatch), seenInBatch;
    }
    seen := seenInBatch + {fingerprint};
    var probable := FindProbableDuplicate(existing, accountId, previewRow.candidate, previewRow.normalizedLabel);
    found := if probable.Some? then Some(Probable(probable.value.id)) else None;
  }

  method ClassifyRows(reader: Reader, existing: seq<Existing>, accountId: Id, rows: seq<Row>, header: int)
    returns (toImport: seq<PreviewRow>, duplicates: seq<DuplicateRow>, errors: seq<ErrorRow>)
    ensures var lists := Classify(reader, existing, accountId, rows, header, |rows|);
      toImport == lists.toImport && duplicates == lists.duplicates && errors == lists.errors
  {
    var existingFingerprints := ByFingerprint(existing);
    var seenInBatch: set<Fingerprint> := {};
    toImport, duplicates, errors := [], [], [];
    for index := 0 to |rows|
      invariant Lists(toImport, duplicates, errors, seenInBatch) == Classify(reader, existing, accountId, rows, header, index)
    {
      var row, rowIndex := rows[index], RowIndex(header, index);
      if reader.isBlank(row) {
        continue;
      }
      var mapped := reader.MapRow(row);
      if mapped.Failure? {
        errors := errors + [ErrorRow(rowIndex, mapped.error)];
        continue;
      }
      var previewRow := PreviewOf(reader, mapped.value, rowIndex);
      var found, seen := FindMatch(existing, existingFingerprints, accountId, seenInBatch, previewRow);
      seenInBatch := seen;
      if found.Some? {
        duplicates := duplicates + [DuplicateRow(previewRow, found.value)];
        continue;
      }
      toImport := toImport + [previewRow];
    }
  }

  // ----- where a row lands -----

  predicate Maps(reader: Reader, row: Row) {
    !reader.isBlank(row) && reader.MapRow(row).Success?
  }

  function FingerprintOfRow(reader: Reader, row: Row): Fingerprint
    requires Maps(reader, row)
  {
    reader.FingerprintOf(reader.MapRow(row).value)
  }

  predicate Stored(existing: seq<Existing>, f: Fingerprint) {
    exists tx :: tx in existing && tx.fingerprint == f
  }

  lemma StoredIsKnown(existing: seq<Existing>, f: Fingerprint)
    ensures f in ByFingerprint(existing) <==> Stored(existing, f)
  {
  }

  /** The fingerprint occurs in an earlier row that could be read. */
  predicate Earlier(reader: Reader, rows: seq<Row>, n: nat, f: Fingerprint)
    requires n <= |rows|
  {
    exists k: nat :: k < n && Maps(reader, rows[k]) && FingerprintOfRow(reader, rows[k]) == f
  }

  lemma SeenStep(reader: Reader, existing: seq<Existing>, accountId: Id, lists: Lists, row: Row, rowIndex: int)
    ensures Sort(reader, existing, accountId, lists, row, rowIndex).seen
         == lists.seen + if Maps(reader, row) && !Stored(existing, FingerprintOfRow(reader, row))
                         then {FingerprintOfRow(reader, row)} else {}
  {
    if Maps(reader, row) {
      StoredIsKnown(existing, FingerprintOfRow(reader, row));
    }
  }

  /** What has been seen are the fingerprints of earlier rows that are not stored. */
  lemma {:induction false} SeenIsEarlier(reader: Reader, existing: seq<Existing>, accountId: Id, rows: seq<Row>,
          header: int, n: nat, f: Fingerprint)
    requires n <= |rows|
    ensures f in Classify(reader, existing, accountId, rows, header, n).seen
       <==> !Stored(existing, f) && Earlier(reader, rows, n, f)
  {
    if n > 0 {
      SeenIsEarlier(reader, existing, accountId, rows, header, n - 1, f);
      SeenStep(reader, existing, accountId, Classify(reader, existing, accountId, rows, header, n - 1), rows[n - 1],
        RowIndex(header, n - 1));
      EarlierStep(reader, rows, n - 1, f);
    }
  }

  lemma EarlierStep(reader: Reader, rows: seq<Row>, n: nat, f: Fingerprint)
    requires n < |rows|
    ensures Earlier(reader, rows, n + 1, f)
       <==> Earlier(reader, rows, n, f) || (Maps(reader, rows[n]) && FingerprintOfRow(reader, rows[n]) == f)
  {
    if Earlier(reader, rows, n, f) {
      var k: nat :| k < n && Maps(reader, rows[k]) && FingerprintOfRow(reader, rows[k]) == f;
      assert k < n + 1;
    }
  }

  /** The rule, independent of the order of the loop: a row is imported if it can be read, its fingerprint is neither
      stored nor that of an earlier row, and no stored transaction is probably the same. */
  predicate ToImport(reader: Reader, existing: seq<Existing>, accountId: Id, rows: seq<Row>, n: nat)
    requires n < |rows|
  {
    Maps(reader, rows[n])
    && !Stored(existing, FingerprintOfRow(reader, rows[n]))
    && !Earlier(reader, rows, n, FingerprintOfRow(reader, rows[n]))
    && forall tx :: tx in existing ==>
         !IsProbable(tx, accountId, reader.MapRow(rows[n]).value, reader.LabelOf(reader.MapRow(rows[n]).value))
  }

  /** What one row adds to the lists: itself, to exactly one of them, unless it is blank. */
  ghost predicate Adds(reader: Reader, existing: seq<Existing>, accountId: Id, rows: seq<Row>, header: int, n: nat,
      before: Lists, after: Lists)
    requires n < |rows|
  {
    if reader.isBlank(rows[n]) then after == before
    else if !Maps(reader, rows[n]) then
      after == before.(errors := before.errors + [ErrorRow(RowIndex(header, n), reader.MapRow(rows[n]).error)])
    else
      var preview := PreviewOf(reader, reader.MapRow(rows[n]).value, RowIndex(header, n));
      if ToImport(reader, existing, accountId, rows, n) then
        after.toImport == before.toImport + [preview] && after.duplicates == before.duplicates && after.errors == before.errors
      else
        after.toImport == before.toImport && after.errors == before.errors
        && exists found :: after.duplicates == before.duplicates + [DuplicateRow(preview, found)]
  }

  lemma RowLands(reader: Reader, existing: seq<Existing>, accountId: Id, rows: seq<Row>, header: int, n: nat)
    requires n < |rows|
    ensures Adds(reader, existing, accountId, rows, header, n,
              Classify(reader, existing, accountId, rows, header, n), Classify(reader, existing, accountId, rows, header, n + 1))
  {
    if Maps(reader, rows[n]) {
      var f := FingerprintOfRow(reader, rows[n]);
      StoredIsKnown(existing, f);
      SeenIsEarlier(reader, existing, accountId, rows, header, n, f);
      LandsByRule(reader, existing, accountId, rows, header, n, Classify(reader, existing, accountId, rows, header, n));
    }
  }

  lemma LandsByRule(reader: Reader, existing: seq<Existing>, accountId: Id, rows: seq<Row>, header: int, n: nat,
          before: Lists)
    requires n < |rows| && Maps(reader, rows[n])
    requires var f := FingerprintOfRow(reader, rows[n]);
      (f in ByFingerprint(existing) <==> Stored(existing, f))
      && (f in before.seen <==> !Stored(existing, f) && Earlier(reader, rows, n, f))
    ensures Adds(reader, existing, accountId, rows, header, n, before,
              Sort(reader, existing, accountId, before, rows[n], RowIndex(header, n)))
  {
    var after := Sort(reader, existing, accountId, before, rows[n], RowIndex(header, n));
    if !ToImport(reader, existing, accountId, rows, n) {
      var found := after.duplicates[|after.duplicates| - 1].matched;
      assert after.duplicates == before.duplicates
        + [DuplicateRow(PreviewOf(reader, reader.MapRow(rows[n]).value, RowIndex(header, n)), found)];
    }
  }

  // ----- every row exactly once -----

  function ImportIndices(rows: seq<PreviewRow>): seq<int> {
    seq(|rows|, i requires 0 <= i < |rows| => rows[i].rowIndex)
  }

  function DuplicateIndices(rows: seq<DuplicateRow>): seq<int> {
    seq(|rows|, i requires 0 <= i < |rows| => rows[i].row.rowIndex)
  }

  function ErrorIndices(rows: seq<ErrorRow>): seq<int> {
    seq(|rows|, i requires 0 <= i < |rows| => rows[i].rowIndex)
  }

  function Indices(lists: Lists): multiset<int> {
    multiset(ImportIndices(lists.toImport)) + multiset(DuplicateIndices(lists.duplicates))
    + multiset(ErrorIndices(lists.errors))
  }

  lemma OneMoreImport(rows: seq<PreviewRow>, p: PreviewRow)
    ensures multiset(ImportIndices(rows + [p])) == multiset(ImportIndices(rows)) + multiset{p.rowIndex}
  {
    assert ImportIndices(rows + [p]) == ImportIndices(rows) + [p.rowIndex];
  }

  lemma OneMoreDuplicate(rows: seq<DuplicateRow>, d: DuplicateRow)
    ensures multiset(DuplicateIndices(rows + [d])) == multiset(DuplicateIndices(rows)) + multiset{d.row.rowIndex}
  {
    assert DuplicateIndices(rows + [d]) == DuplicateIndices(rows) + [d.row.rowIndex];
  }

  lemma OneMoreError(rows: seq<ErrorRow>, e: ErrorRow)
    ensures multiset(ErrorIndices(rows + [e])) == multiset(ErrorIndices(rows)) + multiset{e.rowIndex}
  {
    assert ErrorIndices(rows + [e]) == ErrorIndices(rows) + [e.rowIndex];
  }

  function NonBlank(reader: Reader, rows: seq<Row>, header: int, n: nat): multiset<int>
    requires n <= |rows|
  {
    if n == 0 then multiset{}
    else NonBlank(reader, rows, header, n - 1)
         + if reader.isBlank(rows[n - 1]) then multiset{} else multiset{RowIndex(header, n - 1)}
  }

  lemma AddedIndex(reader: Reader, existing: seq<Existing>, accountId: Id, rows: seq<Row>, header: int, n: nat,
      before: Lists, after: Lists)
    requires n < |rows| && Adds(reader, existing, accountId, rows, header, n, before, after)
    ensures Indices(after)
         == Indices(before) + if reader.isBlank(rows[n]) then multiset{} else multiset{RowIndex(header, n)}
  {
    if !reader.isBlank(rows[n]) {
      if !Maps(reader, rows[n]) {
        OneMoreError(before.errors, ErrorRow(RowIndex(header, n), reader.MapRow(rows[n]).error));
      } else {
        var preview := PreviewOf(reader, reader.MapRow(rows[n]).value, RowIndex(header, n));
        if ToImport(reader, existing, accountId, rows, n) {
          OneMoreImport(before.toImport, preview);
        } else {
          var found :| after.duplicates == before.duplicates + [DuplicateRow(preview, found)];
          OneMoreDuplicate(before.duplicates, DuplicateRow(preview, found));
        }
      }
    }
  }

  lemma {:induction false} NonBlankOnce(reader: Reader, rows: seq<Row>, header: int, n: nat)
    requires n <= |rows|
    ensures forall r :: NonBlank(reader, rows, header, n)[r] <= 1
    ensures forall r :: r in NonBlank(reader, rows, header, n)
                        <==> exists k: nat :: k < n && r == RowIndex(header, k) && !reader.isBlank(rows[k])
  {
    if n > 0 {
      NonBlankOnce(reader, rows, header, n - 1);
    }
  }

  lemma {:induction false} IndicesAreNonBlank(reader: Reader, existing: seq<Existing>, accountId: Id, rows: seq<Row>,
          header: int, n: nat)
    requires n <= |rows|
    ensures Indices(Classify(reader, existing, accountId, rows, header, n)) == NonBlank(reader, rows, header, n)
  {
    if n > 0 {
      IndicesAreNonBlank(reader, existing, accountId, rows, header, n - 1);
      RowLands(reader, existing, accountId, rows, header, n - 1);
      AddedIndex(reader, existing, accountId, rows, header, n - 1,
        Classify(reader, existing, accountId, rows, header, n - 1), Classify(reader, existing, accountId, rows, header, n));
    }
  }

  /** Every row that is not blank lands in exactly one of the three lists, once; blank rows in none. */
  lemma EveryRowOnce(reader: Reader, existing: seq<Existing>, accountId: Id, rows: seq<Row>, header: int, n: nat,
          r: int)
    requires n <= |rows|
    ensures Indices(Classify(reader, existing, accountId, rows, header, n))[r]
         == if exists k: nat :: k < n && r == RowIndex(header, k) && !reader.isBlank(rows[k]) then 1 else 0
  {
    IndicesAreNonBlank(reader, existing, accountId, rows, header, n);
    NonBlankOnce(reader, rows, header, n);
  }

  /** Row `k` of the file is to be imported, as `p`. */
  predicate ImportedAs(reader: Reader, existing: seq<Existing>, accountId: Id, rows: seq<Row>, header: int, k: nat,
          p: PreviewRow)
    requires k < |rows|
  {
    ToImport(reader, existing, accountId, rows, k) && p == PreviewOf(reader, reader.MapRow(rows[k]).value, RowIndex(header, k))
  }

  /** One more row adds itself to the imports if the rule says so, and nothing else. */
  lemma OneMoreByRule(reader: Reader, existing: seq<Existing>, accountId: Id, rows: seq<Row>, header: int, n: nat,
          p: PreviewRow)
    requires n < |rows|
    ensures p in Classify(reader, existing, accountId, rows, header, n + 1).toImport
       <==> p in Classify(reader, existing, accountId, rows, header, n).toImport
            || ImportedAs(reader, existing, accountId, rows, header, n, p)
  {
    RowLands(reader, existing, accountId, rows, header, n);
  }

  /** A preview row is to be imported exactly when the rule says so of some row of the file. */
  lemma {:induction false} ImportedByRule(reader: Reader, existing: seq<Existing>, accountId: Id, rows: seq<Row>,
          header: int, n: nat, p: PreviewRow)
    requires n <= |rows|
    ensures p in Classify(reader, existing, accountId, rows, header, n).toImport
       <==> exists k: nat :: k < n && ImportedAs(reader, existing, accountId, rows, header, k, p)
  {
    if n > 0 {
      ImportedByRule(reader, existing, accountId, rows, header, n - 1, p);
      OneMoreByRule(reader, existing, accountId, rows, header, n - 1, p);
    }
  }

  lemma ImportsDiffer(reader: Reader, existing: seq<Existing>, accountId: Id, rows: seq<Row>, k: nat, l: nat)
    requires k < l < |rows| && ToImport(reader, existing, accountId, rows, k) && ToImport(reader, existing, accountId, rows, l)
    ensures FingerprintOfRow(reader, rows[k]) != FingerprintOfRow(reader, rows[l])
  {
    var f := FingerprintOfRow(reader, rows[k]);
    assert Earlier(reader, rows, l, f);
  }

  /** Fingerprints to import are absent from the account and pairwise distinct. */
  lemma ImportsAreNew(reader: Reader, existing: seq<Existing>, accountId: Id, rows: seq<Row>, header: int,
      p: PreviewRow, q: PreviewRow)
    requires var toImport := Classify(reader, existing, accountId, rows, header, |rows|).toImport; p in toImport && q in toImport
    ensures !Stored(existing, p.fingerprint)
    ensures p.fingerprint == q.fingerprint ==> p == q
  {
    ImportedByRule(reader, existing, accountId, rows, header, |rows|, p);
    ImportedByRule(reader, existing, accountId, rows, header, |rows|, q);
    var k: nat :| k < |rows| && ImportedAs(reader, existing, accountId, rows, header, k, p);
    var l: nat :| l < |rows| && ImportedAs(reader, existing, accountId, rows, header, l, q);
    assert p.fingerprint == FingerprintOfRow(reader, rows[k]) && q.fingerprint == FingerprintOfRow(reader, rows[l]);
    if k < l {
      ImportsDiffer(reader, existing, accountId, rows, k, l);
    } else if l < k {
      ImportsDiffer(reader, existing, accountId, rows, l, k);
    }
  }

  /** No row without an amount gets as far as the account: every amount to import is positive. */
  lemma ImportsArePositive(reader: Reader, existing: seq<Existing>, accountId: Id, rows: seq<Row>, header: int,
          p: PreviewRow)
    requires p in Classify(reader, existing, accountId, rows, header, |rows|).toImport
    ensures p.candidate.amountMinor > 0
  {
    ImportedByRule(reader, existing, accountId, rows, header, |rows|, p);
  }

  // ----- uploading the same file again -----

  /** With everything stored before still there and the imported fingerprints stored too, no row is imported again. */
  lemma NothingLeftToImport(reader: Reader, before: seq<Existing>, after: seq<Existing>, accountId: Id, rows: seq<Row>,
      header: int, n: nat)
    requires n < |rows|
    requires forall tx :: tx in before ==> tx in after
    requires forall p :: p in Classify(reader, before, accountId, rows, header, |rows|).toImport ==> Stored(after, p.fingerprint)
    ensures !ToImport(reader, after, accountId, rows, n)
  {
    if Maps(reader, rows[n]) {
      StaysStored(before, after, FingerprintOfRow(reader, rows[n]));
      if ToImport(reader, before, accountId, rows, n) {
        var p := PreviewOf(reader, reader.MapRow(rows[n]).value, RowIndex(header, n));
        ImportedByRule(reader, before, accountId, rows, header, |rows|, p);
        assert ImportedAs(reader, before, accountId, rows, header, n, p);
        assert Stored(after, p.fingerprint);
      }
    }
  }

  lemma StaysStored(before: seq<Existing>, after: seq<Existing>, f: Fingerprint)
    requires forall tx :: tx in before ==> tx in after
    ensures Stored(before, f) ==> Stored(after, f)
  {
  }

  lemma ReuploadImportsNothing(reader: Reader, before: seq<Existing>, after: seq<Existing>, accountId: Id,
          rows: seq<Row>, header: int)
    requires forall tx :: tx in before ==> tx in after
    requires forall p :: p in Classify(reader, before, accountId, rows, header, |rows|).toImport ==> Stored(after, p.fingerprint)
    ensures Classify(reader, after, accountId, rows, header, |rows|).toImport == []
  {
    var again := Classify(reader, after, accountId, rows, header, |rows|).toImport;
    if again != [] {
      var p := again[0];
      assert p in again;
      ImportedByRule(reader, after, accountId, rows, header, |rows|, p);
      var k: nat :| k < |rows| && ImportedAs(reader, after, accountId, rows, header, k, p);
      NothingLeftToImport(reader, before, after, accountId, rows, header, k);
    }
  }
}
