// CMDB imports (backend/app/application/services/cmdb.py): which rows of a file are valid, which
// version of a dataset is current, and where a worksheet's cells go.
module CmdbImport {
  import opened Wrappers

  // ---- the two passes of import_version -------------------------------------------------------

  // A normalised row: its source_record_key ("" if it has none), its checksum, and the errors
  // normalisation found.
  datatype Row = Row(key: string, checksum: string, errors: seq<string>)

  const DUPLICATE_KEY := "duplicate source_record_key"
  const DUPLICATE_ROW := "duplicate normalized row"

  datatype Record = Record(row: Row, errors: seq<string>) {
    predicate Valid() { errors == [] }
  }

  function Occurrences<T(==)>(s: seq<T>, x: T): nat {
    if s == [] then 0 else Occurrences(s[..|s| - 1], x) + if s[|s| - 1] == x then 1 else 0
  }

  function Keys(rows: seq<Row>): seq<string> {
    seq(|rows|, i requires 0 <= i < |rows| => rows[i].key)
  }

  function Checksums(rows: seq<Row>): seq<string> {
    seq(|rows|, i requires 0 <= i < |rows| => rows[i].checksum)
  }

  predicate SharesKey(rows: seq<Row>, i: nat)
    requires i < |rows|
  {
    rows[i].key != "" && exists j | 0 <= j < |rows| :: j != i && rows[j].key == rows[i].key
  }

  predicate SharesChecksum(rows: seq<Row>, i: nat)
    requires i < |rows|
  {
    exists j | 0 <= j < |rows| :: j != i && rows[j].checksum == rows[i].checksum
  }

  // What the import makes of the i-th row.
  function RecordOf(rows: seq<Row>, i: nat): Record
    requires i < |rows|
  {
    Record(rows[i], rows[i].errors + (if SharesKey(rows, i) then [DUPLICATE_KEY] else [])
                    + (if SharesChecksum(rows, i) then [DUPLICATE_ROW] else []))
  }

  // How many of the first rows are valid, are invalid, share their checksum.
  datatype Tally = Tally(valid: nat, invalid: nat, duplicates: nat)

  function TallyOf(rows: seq<Row>, count: nat): Tally
    requires count <= |rows|
  {
    if count == 0 then Tally(0, 0, 0)
    else
      var before, i := TallyOf(rows, count - 1), count - 1;
      Tally(before.valid + (if RecordOf(rows, i).Valid() then 1 else 0),
            before.invalid + (if RecordOf(rows, i).Valid() then 0 else 1),
            before.duplicates + (if SharesChecksum(rows, i) then 1 else 0))
  }

  lemma {:induction false} OccursWhenPositive<T>(s: seq<T>, x: T)
    ensures Occurrences(s, x) > 0 <==> x in s
  {
    if s != [] {
      OccursWhenPositive(s[..|s| - 1], x);
      assert s == s[..|s| - 1] + [s[|s| - 1]];
    }
  }

  lemma {:induction false} MoreThanOnceIsShared<T>(s: seq<T>, i: nat)
    requires i < |s|
    ensures Occurrences(s, s[i]) > 1 <==> exists j | 0 <= j < |s| :: j != i && s[j] == s[i]
  {
    var before, last := s[..|s| - 1], |s| - 1;
    OccursWhenPositive(before, s[i]);
    assert forall j | 0 <= j < last :: s[j] == before[j];
    if i < last {
      MoreThanOnceIsShared(before, i);
    }
  }

  // A key or checksum counted more than once is one that another row shares.
  lemma CountsMeanSharing(rows: seq<Row>, i: nat)
    requires i < |rows|
    ensures Occurrences(Keys(rows), rows[i].key) > 1 && rows[i].key != "" <==> SharesKey(rows, i)
    ensures Occurrences(Checksums(rows), rows[i].checksum) > 1 <==> SharesChecksum(rows, i)
  {
    var keys, checksums := Keys(rows), Checksums(rows);
    MoreThanOnceIsShared(keys, i);
    MoreThanOnceIsShared(checksums, i);
    assert forall j | 0 <= j < |rows| :: keys[j] == rows[j].key && checksums[j] == rows[j].checksum;
  }

  function Get(counts: map<string, nat>, key: string): nat { if key in counts then counts[key] else 0 }

  // The first pass.
  method CountRows(rows: seq<Row>) returns (keyCounts: map<string, nat>, checksumCounts: map<string, nat>)
    ensures forall key | key != "" :: Get(keyCounts, key) == Occurrences(Keys(rows), key)
    ensures forall checksum :: Get(checksumCounts, checksum) == Occurrences(Checksums(rows), checksum)
  {
    ghost var keys, checksums := Keys(rows), Checksums(rows);
    keyCounts, checksumCounts := map[], map[];
    for k := 0 to |rows|
      invariant forall key | key != "" :: Get(keyCounts, key) == Occurrences(keys[..k], key)
      invariant forall checksum :: Get(checksumCounts, checksum) == Occurrences(checksums[..k], checksum)
    {
      if rows[k].key != "" {
        keyCounts := keyCounts[rows[k].key := Get(keyCounts, rows[k].key) + 1];
      }
      checksumCounts := checksumCounts[rows[k].checksum := Get(checksumCounts, rows[k].checksum) + 1];
      forall x
        ensures x != "" ==> Get(keyCounts, x) == Occurrences(keys[..k + 1], x)
        ensures Get(checksumCounts, x) == Occurrences(checksums[..k + 1], x)
      {
        OneMoreOccurs(keys, k, x);
        OneMoreOccurs(checksums, k, x);
      }
    }
    assert keys[..|rows|] == keys && checksums[..|rows|] == checksums;
  }

  lemma OneMoreOccurs(s: seq<string>, k: nat, x: string)
    requires k < |s|
    ensures Occurrences(s[..k + 1], x) == Occurrences(s[..k], x) + if s[k] == x then 1 else 0
  {
    assert s[..k + 1][..k] == s[..k];
  }

  // One row of the second pass.
  method ClassifyRow(rows: seq<Row>, i: nat, keyCounts: map<string, nat>, checksumCounts: map<string, nat>)
    returns (record: Record, duplicate: bool)
    requires i < |rows|
    requires rows[i].key != "" ==> Get(keyCounts, rows[i].key) == Occurrences(Keys(rows), rows[i].key)
    requires Get(checksumCounts, rows[i].checksum) == Occurrences(Checksums(rows), rows[i].checksum)
    ensures record == RecordOf(rows, i) && duplicate == SharesChecksum(rows, i)
  {
    CountsMeanSharing(rows, i);
    var errors := rows[i].errors;
    if rows[i].key != "" && Get(keyCounts, rows[i].key) > 1 {
      errors := errors + [DUPLICATE_KEY];
    }
    duplicate := Get(checksumCounts, rows[i].checksum) > 1;
    if duplicate {
      errors := errors + [DUPLICATE_ROW];
    }
    record := Record(rows[i], errors);
  }

  // The second pass.
  method ClassifyRows(rows: seq<Row>) returns (records: seq<Record>, valid: nat, invalid: nat, duplicates: nat)
    ensures |records| == |rows| && forall i | 0 <= i < |rows| :: records[i] == RecordOf(rows, i)
    ensures Tally(valid, invalid, duplicates) == TallyOf(rows, |rows|)
  {
    var keyCounts, checksumCounts := CountRows(rows);
    records, valid, invalid, duplicates := [], 0, 0, 0;
    for k := 0 to |rows|
      invariant |records| == k && forall i | 0 <= i < k :: records[i] == RecordOf(rows, i)
      invariant Tally(valid, invalid, duplicates) == TallyOf(rows, k)
    {
      var record, duplicate := ClassifyRow(rows, k, keyCounts, checksumCounts);
      valid := valid + if record.Valid() then 1 else 0;
      invalid := invalid + if record.Valid() then 0 else 1;
      duplicates := duplicates + if duplicate then 1 else 0;
      records := records + [record];
    }
  }

  // A row is valid exactly when normalisation found nothing and it shares neither key nor checksum.
  lemma ValidIff(rows: seq<Row>, i: nat)
    requires i < |rows|
    ensures RecordOf(rows, i).Valid() <==>
            && rows[i].errors == []
            && forall j | 0 <= j < |rows| && j != i ::
                 rows[j].checksum != rows[i].checksum && (rows[i].key != "" ==> rows[j].key != rows[i].key)
  {
  }

  // What the import adds to a row's errors says which of the two it shares, the key first.
  lemma ErrorsNameDuplicates(rows: seq<Row>, i: nat)
    requires i < |rows|
    ensures var errors, before := RecordOf(rows, i).errors, rows[i].errors;
            var key := rows[i].key != "" && exists j | 0 <= j < |rows| :: j != i && rows[j].key == rows[i].key;
            var row := exists j | 0 <= j < |rows| :: j != i && rows[j].checksum == rows[i].checksum;
            && before <= errors
            && errors[|before|..] == if key && row then ["duplicate source_record_key", "duplicate normalized row"]
                                     else if key then ["duplicate source_record_key"]
                                     else if row then ["duplicate normalized row"] else []
  {
  }

  // Hence no two valid rows agree on a key they have, or on their checksum.
  lemma ValidRowsAreDistinct(rows: seq<Row>, i: nat, j: nat)
    requires i < |rows| && j < |rows| && i != j && RecordOf(rows, i).Valid()
    ensures rows[i].checksum != rows[j].checksum
    ensures rows[i].key != "" ==> rows[i].key != rows[j].key
  {
    ValidIff(rows, i);
  }

  // valid + invalid is the number of rows, and every row counted as a duplicate is invalid.
  lemma {:induction false} TallyAddsUp(rows: seq<Row>, count: nat)
    requires count <= |rows|
    ensures var t := TallyOf(rows, count); t.valid + t.invalid == count && t.duplicates <= t.invalid
  {
    if count > 0 {
      TallyAddsUp(rows, count - 1);
      ValidIff(rows, count - 1);
    }
  }

  function ValidRows(rows: seq<Row>, count: nat): set<nat>
    requires count <= |rows|
  {
    set i: nat | i < count && RecordOf(rows, i).Valid()
  }

  function SharedRows(rows: seq<Row>, count: nat): set<nat>
    requires count <= |rows|
  {
    set i: nat | i < count && SharesChecksum(rows, i)
  }

  lemma OneMoreRow(rows: seq<Row>, i: nat)
    requires i < |rows|
    ensures ValidRows(rows, i + 1) == ValidRows(rows, i) + if RecordOf(rows, i).Valid() then {i} else {}
  {
  }

  lemma OneMoreShared(rows: seq<Row>, i: nat)
    requires i < |rows|
    ensures SharedRows(rows, i + 1) == SharedRows(rows, i) + if SharesChecksum(rows, i) then {i} else {}
  {
  }

  // The tallies count the valid rows, and those whose checksum another row has.
  lemma {:induction false} TallyCounts(rows: seq<Row>, count: nat)
    requires count <= |rows|
    ensures TallyOf(rows, count).valid == |ValidRows(rows, count)|
    ensures TallyOf(rows, count).duplicates == |SharedRows(rows, count)|
  {
    if count > 0 {
      TallyCounts(rows, count - 1);
      OneMoreRow(rows, count - 1);
      OneMoreShared(rows, count - 1);
    }
  }

  // ---- dataset versions -----------------------------------------------------------------------

  type DatasetId = nat
  type VersionId = nat

  datatype Status = Uploaded | Imported | Superseded

  datatype Version = Version(dataset: DatasetId, number: nat, status: Status)

  // The records table holds one row per (version, source row number).
  datatype Registry = Registry(
    current: map<DatasetId, Option<VersionId>>, versions: map<VersionId, Version>, records: set<(VersionId, nat)>)

  function Numbers(r: Registry, dataset: DatasetId): set<nat> {
    set v | v in r.versions && r.versions[v].dataset == dataset :: r.versions[v].number
  }

  // max(version_number), or 0
  function Highest(numbers: set<nat>): (highest: nat)
    ensures forall n | n in numbers :: n <= highest
    ensures highest == 0 || highest in numbers
  {
    if numbers == {} then 0
    else
      HasMaximum(numbers);
      var n :| n in numbers && forall m | m in numbers :: m <= n;
      n
  }

  lemma {:induction false} HasMaximum(numbers: set<nat>)
    requires numbers != {}
    ensures exists n :: n in numbers && forall m | m in numbers :: m <= n
  {
    var x :| x in numbers;
    if numbers != {x} {
      var rest := numbers - {x};
      HasMaximum(rest);
      var n :| n in rest && forall m | m in rest :: m <= n;
      var highest := if n < x then x else n;
      forall m | m in numbers ensures m <= highest {
        assert m == x || m in rest;
      }
      assert highest in numbers;
    }
  }

  // The imported version of a dataset is its current one, and there is no other; the versions of a
  // dataset are numbered from 1 on without a gap.
  ghost predicate Inv(r: Registry) {
    OneImported(r) && Numbered(r)
  }

  ghost predicate OneImported(r: Registry) {
    && (forall v | v in r.versions :: r.versions[v].dataset in r.current)
    && (forall v | v in r.versions :: r.versions[v].status.Imported? <==> r.current[r.versions[v].dataset] == Some(v))
    && forall d | d in r.current && r.current[d].Some? ::
         r.current[d].value in r.versions && r.versions[r.current[d].value].dataset == d
  }

  ghost predicate Numbered(r: Registry) {
    && (forall v, w | v in r.versions && w in r.versions && r.versions[v].dataset == r.versions[w].dataset
                      && r.versions[v].number == r.versions[w].number :: v == w)
    && forall d | d in r.current :: Consecutive(Numbers(r, d))
  }

  predicate Consecutive(numbers: set<nat>) {
    forall n | n in numbers :: n >= 1 && (n > 1 ==> n - 1 in numbers)
  }

  datatype Action =
    | NewDataset(dataset: DatasetId)
    | Upload(version: VersionId, dataset: DatasetId)
    | Import(version: VersionId, rows: set<nat>)

  // A refused call (an id in use, a missing dataset or version, a version already imported, a row
  // number the version already has) rolls back.
  function Act(r: Registry, a: Action): Registry {
    match a
    case NewDataset(dataset) => if dataset in r.current then r else r.(current := r.current[dataset := None])
    case Upload(version, dataset) =>
      if version in r.versions || dataset !in r.current then r
      else r.(versions := r.versions[version := Version(dataset, Highest(Numbers(r, dataset)) + 1, Uploaded)])
    case Import(version, rows) =>
      if version !in r.versions || r.versions[version].status.Imported? || r.versions[version].dataset !in r.current
         || exists n | n in rows :: (version, n) in r.records
      then r
      else
        var dataset := r.versions[version].dataset;
        var previous := r.current[dataset];
        var imported := r.versions[version := r.versions[version].(status := Imported)];
        Registry(
          r.current[dataset := Some(version)],
          if previous.Some? && previous.value in imported
          then imported[previous.value := imported[previous.value].(status := Superseded)] else imported,
          r.records + set n | n in rows :: (version, n))
  }

  lemma ActKeepsInv(r: Registry, a: Action)
    requires Inv(r)
    ensures Inv(Act(r, a))
  {
    ActKeepsImported(r, a);
    ActKeepsUnique(r, a);
    forall d | d in Act(r, a).current ensures Consecutive(Numbers(Act(r, a), d)) {
      ActKeepsNumbers(r, a, d);
    }
  }

  lemma ActKeepsImported(r: Registry, a: Action)
    requires OneImported(r)
    ensures OneImported(Act(r, a))
  {
  }

  lemma ActKeepsUnique(r: Registry, a: Action)
    requires Inv(r)
    ensures var after := Act(r, a);
            forall v, w | v in after.versions && w in after.versions
                          && after.versions[v].dataset == after.versions[w].dataset
                          && after.versions[v].number == after.versions[w].number :: v == w
  {
    var after := Act(r, a);
    if a.Upload? && a.version !in r.versions && a.dataset in r.current {
      forall v | v in r.versions && r.versions[v].dataset == a.dataset
        ensures r.versions[v].number < after.versions[a.version].number
      {
        assert r.versions[v].number in Numbers(r, a.dataset);
      }
    }
  }

  lemma ActKeepsNumbers(r: Registry, a: Action, dataset: DatasetId)
    requires Inv(r) && dataset in Act(r, a).current
    ensures Consecutive(Numbers(Act(r, a), dataset))
  {
    var after := Act(r, a);
    if a.Upload? && a.version !in r.versions && a.dataset in r.current {
      var next := Highest(Numbers(r, a.dataset)) + 1;
      UploadAddsNumber(r.versions, after.versions, a.version, a.dataset, next, dataset);
      assert Numbers(after, dataset) == Numbers(r, dataset) + if dataset == a.dataset then {next} else {};
    } else {
      SameNumbers(r, a, dataset);
    }
  }

  lemma UploadAddsNumber(before: map<VersionId, Version>, after: map<VersionId, Version>, version: VersionId,
                         into: DatasetId, next: nat, dataset: DatasetId)
    requires version !in before && after == before[version := Version(into, next, Uploaded)]
    ensures (set v | v in after && after[v].dataset == dataset :: after[v].number)
            == (set v | v in before && before[v].dataset == dataset :: before[v].number)
               + if dataset == into then {next} else {}
  {
    var was, now := set v | v in before && before[v].dataset == dataset :: before[v].number,
                      set v | v in after && after[v].dataset == dataset :: after[v].number;
    forall v | v in before && before[v].dataset == dataset ensures before[v].number in now {
      assert v in after && after[v] == before[v];
    }
    if dataset == into {
      assert version in after && after[version].number == next;
    }
  }

  lemma SameNumbers(r: Registry, a: Action, dataset: DatasetId)
    requires Inv(r) && dataset in Act(r, a).current
    requires !(a.Upload? && a.version !in r.versions && a.dataset in r.current)
    ensures Numbers(Act(r, a), dataset) == if dataset in r.current then Numbers(r, dataset) else {}
  {
    var after := Act(r, a);
    assert after.versions.Keys == r.versions.Keys;
    assert forall v | v in r.versions ::
      after.versions[v].dataset == r.versions[v].dataset && after.versions[v].number == r.versions[v].number;
    forall v | v in r.versions && r.versions[v].dataset == dataset
      ensures r.versions[v].number in Numbers(after, dataset)
    {
      assert after.versions[v].number == r.versions[v].number;
    }
  }

  // An import that is not refused makes the version the current one and supersedes the one before;
  // no other version changes.
  lemma ImportSupersedes(r: Registry, version: VersionId, rows: set<nat>)
    requires Inv(r) && version in r.versions && !r.versions[version].status.Imported?
    requires forall n | n in rows :: (version, n) !in r.records
    ensures var after, dataset := Act(r, Import(version, rows)), r.versions[version].dataset;
            && after.versions.Keys == r.versions.Keys && after.current == r.current[dataset := Some(version)]
            && (forall v | v in r.versions ::
                  after.versions[v].status == if v == version then Imported
                                              else if r.current[dataset] == Some(v) then Superseded
                                              else r.versions[v].status)
            && (forall v | v in r.versions :: after.versions[v].dataset == r.versions[v].dataset
                                              && after.versions[v].number == r.versions[v].number)
            && (forall v, n :: (v, n) in after.records <==> (v, n) in r.records || (v == version && n in rows))
  {
  }

  // An upload that is not refused adds the next number.
  lemma UploadTakesNext(r: Registry, version: VersionId, dataset: DatasetId)
    requires Inv(r) && version !in r.versions && dataset in r.current
    ensures var after := Act(r, Upload(version, dataset));
            && version in after.versions && after.versions[version].status.Uploaded?
            && after.versions[version].number == |Numbers(r, dataset)| + 1
  {
    ConsecutiveSize(Numbers(r, dataset), Highest(Numbers(r, dataset)));
  }

  lemma {:induction false} ConsecutiveSize(numbers: set<nat>, highest: nat)
    requires Consecutive(numbers) && forall n | n in numbers :: n <= highest
    requires highest == 0 || highest in numbers
    ensures |numbers| == highest
  {
    if highest == 0 {
      assert numbers == {};
    } else {
      var rest := numbers - {highest};
      assert forall n | n in rest :: n <= highest - 1;
      ConsecutiveSize(rest, highest - 1);
    }
  }

  function Run(r: Registry, actions: seq<Action>): Registry
    decreases |actions|
  {
    if actions == [] then r else Run(Act(r, actions[0]), actions[1..])
  }

  // Over any sequence of uploads and imports, the only imported version of a dataset is its current
  // one, and version numbers of a dataset are never reused.
  lemma {:induction false} RunKeepsInv(r: Registry, actions: seq<Action>)
    requires Inv(r)
    ensures Inv(Run(r, actions))
    decreases |actions|
  {
    if actions != [] {
      ActKeepsInv(r, actions[0]);
      RunKeepsInv(Act(r, actions[0]), actions[1..]);
    }
  }

  // The registry as the service updates it; false where a call is refused and rolled back.
  class CMDBService {
    var current: map<DatasetId, Option<VersionId>>
    var versions: map<VersionId, Version>
    var records: set<(VersionId, nat)>

    constructor ()
      ensures State() == Registry(map[], map[], {})
    {
      current, versions, records := map[], map[], {};
    }

    ghost function State(): Registry
      reads this
    {
      Registry(current, versions, records)
    }

    method CreateDataset(dataset: DatasetId) returns (accepted: bool)
      modifies this
      ensures accepted <==> dataset !in old(current)
      ensures State() == Act(old(State()), NewDataset(dataset))
    {
      accepted := dataset !in current;
      if accepted {
        current := current[dataset := None];
      }
    }

    method UploadVersion(version: VersionId, dataset: DatasetId) returns (accepted: bool)
      modifies this
      ensures accepted <==> version !in old(versions) && dataset in old(current)
      ensures State() == Act(old(State()), Upload(version, dataset))
    {
      accepted := version !in versions && dataset in current;
      if accepted {
        var numbers := set v | v in versions && versions[v].dataset == dataset :: versions[v].number;
        versions := versions[version := Version(dataset, Highest(numbers) + 1, Uploaded)];
      }
    }

    // The end of import_version: `rows` are the source row numbers of the records it adds.
    method ImportVersion(version: VersionId, rows: set<nat>) returns (accepted: bool)
      modifies this
      ensures accepted <==> version in old(versions) && !old(versions)[version].status.Imported?
                            && old(versions)[version].dataset in old(current)
                            && forall n | n in rows :: (version, n) !in old(records)
      ensures State() == Act(old(State()), Import(version, rows))
    {
      if version !in versions || versions[version].status.Imported? || versions[version].dataset !in current
         || exists n | n in rows :: (version, n) in records {
        return false;
      }
      var dataset := versions[version].dataset;
      records := records + set n | n in rows :: (version, n);
      versions := versions[version := versions[version].(status := Imported)];
      var previous := current[dataset];
      current := current[dataset := Some(version)];
      if previous.Some? && previous.value in versions {
        versions := versions[previous.value := versions[previous.value].(status := Superseded)];
      }
      accepted := true;
    }
  }

  // ---- worksheet cells ------------------------------------------------------------------------

  predicate IsLetter(c: char) { 'A' <= c <= 'Z' }
  predicate IsDigit(c: char) { '0' <= c <= '9' }
  predicate Letters(s: string) { forall i | 0 <= i < |s| :: IsLetter(s[i]) }

  // The loop of _column_index: value * 26 + ord(c) - 64, letter by letter.
  function Value(letters: string): nat
    requires Letters(letters)
  {
    if letters == "" then 0
    else Value(letters[..|letters| - 1]) * 26 + (letters[|letters| - 1] as int - 64)
  }

  // The name of a column, letters as digits 1 to 26.
  function Name(value: nat): (name: string)
    ensures Letters(name) && (name == "" <==> value == 0)
  {
    if value == 0 then "" else Name((value - 1) / 26) + [(65 + (value - 1) % 26) as char]
  }

  lemma {:induction false} ValueOfName(value: nat)
    ensures Value(Name(value)) == value
  {
    if value > 0 {
      ValueOfName((value - 1) / 26);
      var name := Name(value);
      assert name[..|name| - 1] == Name((value - 1) / 26);
    }
  }

  lemma {:induction false} NameOfValue(letters: string)
    requires Letters(letters)
    ensures Name(Value(letters)) == letters
  {
    if letters != "" {
      var before, last := letters[..|letters| - 1], letters[|letters| - 1];
      NameOfValue(before);
      var digit := last as int - 64;
      assert (Value(letters) - 1) / 26 == Value(before) && (Value(letters) - 1) % 26 == digit - 1;
      assert letters == before + [last];
    }
  }

  function LeadingLetters(s: string): (letters: string)
    ensures Letters(letters) && letters <= s
    ensures |letters| < |s| ==> !IsLetter(s[|letters|])
  {
    if s != "" && IsLetter(s[0]) then [s[0]] + LeadingLetters(s[1..]) else ""
  }

  // _column_index: 0 unless the reference starts with letters and a digit.
  function ColumnIndex(reference: string): nat {
    var letters := LeadingLetters(reference);
    if letters != "" && |letters| < |reference| && IsDigit(reference[|letters|])
    then (ValueIsPositive(letters); Value(letters) - 1) else 0
  }

  lemma ValueIsPositive(letters: string)
    requires Letters(letters) && letters != ""
    ensures Value(letters) > 0
  {
  }

  method ColumnIndexLoop(reference: string) returns (index: nat)
    ensures index == ColumnIndex(reference)
  {
    var letters := LeadingLetters(reference);
    if letters == "" || |letters| == |reference| || !IsDigit(reference[|letters|]) {
      return 0;
    }
    var value := 0;
    for k := 0 to |letters|
      invariant value == Value(letters[..k])
    {
      assert letters[..k + 1][..k] == letters[..k];
      value := value * 26 + (letters[k] as int - 64);
    }
    assert letters[..|letters|] == letters;
    ValueIsPositive(letters);
    index := value - 1;
  }

  lemma {:induction false} LeadingLettersStop(letters: string, rest: string)
    requires Letters(letters) && rest != "" && !IsLetter(rest[0])
    ensures LeadingLetters(letters + rest) == letters
  {
    if letters != "" {
      assert (letters + rest)[1..] == letters[1..] + rest;
      LeadingLettersStop(letters[1..], rest);
      assert [letters[0]] + letters[1..] == letters;
    } else {
      assert letters + rest == rest;
    }
  }

  // A reference is read through its letters alone, whatever its row.
  lemma ColumnOfLetters(letters: string, row: string)
    requires Letters(letters) && letters != "" && row != "" && IsDigit(row[0])
    ensures Value(letters) > 0 && ColumnIndex(letters + row) == Value(letters) - 1
  {
    LeadingLettersStop(letters, row);
    ValueIsPositive(letters);
    assert (letters + row)[|letters|] == row[0];
  }

  // Every column has exactly one name: the n-th column's reference, whatever its row, is read
  // back as n, and two references of the same column carry the same letters.
  lemma ColumnsAreNamedOnce(n: nat, letters: string, row: string)
    requires Letters(letters) && letters != "" && row != "" && IsDigit(row[0])
    ensures ColumnIndex(Name(n + 1) + row) == n
    ensures ColumnIndex(letters + row) == n ==> letters == Name(n + 1)
  {
    ColumnOfLetters(Name(n + 1), row);
    ValueOfName(n + 1);
    ColumnOfLetters(letters, row);
    NameOfValue(letters);
  }

  lemma ColumnExamples()
    ensures ColumnIndex("A1") == 0 && ColumnIndex("Z9") == 25 && ColumnIndex("AA1") == 26
    ensures ColumnIndex("") == 0 && ColumnIndex("7") == 0 && ColumnIndex("AB") == 0
  {
    assert "A1"[1..] == "1" && "Z9"[1..] == "9" && "AA1"[1..] == "A1" && "AB"[1..] == "B" && "B"[1..] == "";
    assert LeadingLetters("1") == LeadingLetters("9") == LeadingLetters("7") == "";
    assert LeadingLetters("A1") == "A" && LeadingLetters("Z9") == "Z" && LeadingLetters("AA1") == "AA";
    assert LeadingLetters("B") == "B" && LeadingLetters("AB") == "AB";
    assert "A"[..0] == "" && "Z"[..0] == "" && "AA"[..1] == "A";
    assert Value("A") == 1 && Value("Z") == 26 && Value("AA") == 27;
  }

  // A cell: its column and its text.
  datatype Cell = Cell(column: nat, text: string)

  function Width(cells: seq<Cell>): nat {
    if cells == [] then 0
    else
      var before, column := Width(cells[..|cells| - 1]), cells[|cells| - 1].column;
      if before <= column then column + 1 else before
  }

  // The text of the last cell of a column; "" if it has none.
  function LastText(cells: seq<Cell>, column: nat): string {
    if cells == [] then ""
    else if cells[|cells| - 1].column == column then cells[|cells| - 1].text
    else LastText(cells[..|cells| - 1], column)
  }

  lemma {:induction false} NothingBeyondWidth(cells: seq<Cell>, column: nat)
    requires column >= Width(cells)
    ensures LastText(cells, column) == ""
  {
    if cells != [] {
      NothingBeyondWidth(cells[..|cells| - 1], column);
    }
  }

  // SafeWorkbook.rows, one row: cells may come in any order, with gaps or twice.
  method PlaceCells(cells: seq<Cell>) returns (values: seq<string>)
    ensures |values| == Width(cells) && forall c | 0 <= c < |values| :: values[c] == LastText(cells, c)
  {
    values := [];
    for k := 0 to |cells|
      invariant |values| == Width(cells[..k])
      invariant forall c | 0 <= c < |values| :: values[c] == LastText(cells[..k], c)
    {
      assert cells[..k + 1][..k] == cells[..k];
      var column := cells[k].column;
      ghost var before := |values|;
      while |values| <= column
        invariant before <= |values| <= (if before <= column then column + 1 else before)
        invariant forall c | 0 <= c < |values| :: values[c] == LastText(cells[..k], c)
      {
        NothingBeyondWidth(cells[..k], |values|);
        values := values + [""];
      }
      values := values[column := cells[k].text];
    }
    assert cells[..|cells|] == cells;
  }
}
