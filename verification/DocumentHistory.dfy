// What single calls do to a document, and what its version number tells over a run.
module DocumentHistory {
  import opened Wrappers
  import opened Chunking
  import opened DocumentState
  import opened DocumentInvariants

  // ---- uploads and deletions ------------------------------------------------------------------

  // After an accepted upload the document is live and hashed from the file.  Unless it was so before
  // and with the same hash, it is a new version, queued, with nothing known to be indexed.
  lemma UploadedDocument(s: State, path: Path, file: File, now: int, rules: Rules)
    requires rules.Valid() && Inv(s) && path.composed && rules.inspects(path, file.bytes)
    ensures var after := Step(s, Event(now, Upload(path, file, true)), rules);
            && path in after.files && after.files[path] == file && path in after.rows
            && after.rows[path].contentHash == Sha(file.bytes) && after.rows[path].Live()
            && !after.rows[path].deletionRequested && after.points == s.points
            && (forall p | p != path :: Row(after.rows, p) == Row(s.rows, p) && FileAt(after.files, p) == FileAt(s.files, p))
            && if path in s.rows && s.rows[path].contentHash == Sha(file.bytes) && s.rows[path].Live() then
                 && after.rows[path].version == s.rows[path].version && after.rows[path].knowledge == s.rows[path].knowledge
                 && after.rows[path].indexedHash == s.rows[path].indexedHash
                 && after.rows[path].chunkCount == s.rows[path].chunkCount
               else
                 && after.rows[path].version == (if path in s.rows then s.rows[path].version + 1 else 1)
                 && after.rows[path].knowledge.Pending? && after.rows[path].indexedHash.None?
                 && after.rows[path].chunkCount == 0 && after.rows[path].error.NoError?
  {
    if path in s.rows {
      assert RowOk(path, s.rows[path], s.points);
    }
  }

  // After an accepted deletion the file is gone and the document waits for its points to be deleted,
  // as a new version; a second deletion is refused.
  lemma DeletedDocument(s: State, path: Path, now: int, again: int, rules: Rules)
    requires rules.Valid() && path.composed && path in s.rows && !s.rows[path].deletionRequested && path in s.files
    ensures var after := Step(s, Event(now, Delete(path, true)), rules);
            && path !in after.files && path in after.rows && after.rows[path].deletedAt == Some(now)
            && after.rows[path].deletionRequested && after.rows[path].knowledge.DeletePending?
            && after.rows[path].version == s.rows[path].version + 1
            && after.rows[path].contentHash == s.rows[path].contentHash && after.points == s.points
            && (forall p | p != path :: Row(after.rows, p) == Row(s.rows, p) && FileAt(after.files, p) == FileAt(s.files, p))
            && Step(after, Event(again, Delete(path, true)), rules) == after.(clock := Max(after.clock, again))
  {
  }

  // ---- versions -------------------------------------------------------------------------------

  // The row is kept, its version does not fall, and where the version is the same, so are the hash
  // and the deletion mark.
  ghost predicate NotOlder(before: Option<Document>, after: Option<Document>) {
    before.Some? ==>
      && after.Some? && before.value.version <= after.value.version
      && (before.value.version == after.value.version ==>
            && after.value.contentHash == before.value.contentHash
            && after.value.deletionRequested == before.value.deletionRequested)
  }

  ghost predicate Advances(before: Table, after: Table) {
    forall p :: NotOlder(Row(before, p), Row(after, p))
  }

  lemma AdvancesTwice(before: Table, between: Table, after: Table)
    requires Advances(before, between) && Advances(between, after)
    ensures Advances(before, after)
  {
    forall p ensures NotOlder(Row(before, p), Row(after, p)) {
      assert NotOlder(Row(before, p), Row(between, p)) && NotOlder(Row(between, p), Row(after, p));
    }
  }

  lemma OneRowAdvances(rows: Table, path: Path, d: Document)
    requires NotOlder(Row(rows, path), Some(d))
    ensures Advances(rows, rows[path := d])
  {
  }

  lemma {:induction false} ScanAdvances(rows: Table, pass: Pass, walk: seq<Path>, rules: Rules)
    requires forall p | p in walk :: p in pass.files
    ensures Advances(rows, Scan(rows, pass, walk, rules))
  {
    if walk != [] {
      var before := Scan(rows, pass, walk[..|walk| - 1], rules);
      ScanAdvances(rows, pass, walk[..|walk| - 1], rules);
      ScanOneAdvances(before, pass, walk[|walk| - 1], rules);
      AdvancesTwice(rows, before, Scan(rows, pass, walk, rules));
    }
  }

  lemma ScanOneAdvances(rows: Table, pass: Pass, path: Path, rules: Rules)
    requires path in pass.files
    ensures Advances(rows, ScanOne(rows, pass, path, rules))
  {
  }

  lemma ReconcileAdvances(rows: Table, pass: Pass, rules: Rules)
    requires pass.Valid()
    ensures Advances(rows, Reconciled(rows, pass, rules))
  {
    var scanned := Scan(rows, pass, pass.walk, rules);
    ScanAdvances(rows, pass, pass.walk, rules);
    AdvancesTwice(rows, scanned, Reconciled(rows, pass, rules));
  }

  lemma {:induction false} ProcessAdvances(s: State, round: Round, k: nat, rules: Rules)
    requires rules.Valid() && k <= |round.batch| == |round.faults| && forall p | p in round.batch :: p in s.rows
    ensures Advances(s.rows, Process(s, round, k, rules).rows)
    decreases |round.batch| - k
  {
    if k < |round.batch| {
      var next := TakeTurn(s, round, k, rules);
      OneRowAdvances(s.rows, round.batch[k], TurnOf(s, round, k, rules).row);
      if !TurnOf(s, round, k, rules).ending.Stop? {
        ProcessAdvances(next, round, k + 1, rules);
        AdvancesTwice(s.rows, next.rows, Process(s, round, k, rules).rows);
      }
    }
  }

  lemma StepAdvances(s: State, e: Event, rules: Rules)
    requires rules.Valid() && Possible(s, e)
    ensures Advances(s.rows, Step(s, e, rules).rows)
  {
    match e.action
    case Copy(path, file) =>
    case Remove(path) =>
    case Upload(path, file, allowed) =>
    case Delete(path, allowed) =>
    case Retry(path) =>
    case Reconcile(pass) => ReconcileAdvances(s.rows, pass, rules);
    case Work(limit, round) => ProcessAdvances(s, round, 0, rules);
  }

  // Over every run, two moments at which a document has the same version are two moments at which it
  // has the same hash and is or is not deleted alike.
  lemma {:induction false} VersionTellsContents(s: State, events: seq<Event>, rules: Rules)
    requires rules.Valid() && Runs(s, events, rules)
    ensures Advances(s.rows, Run(s, events, rules).rows)
    decreases |events|
  {
    if events != [] {
      var next := Step(s, events[0], rules);
      StepAdvances(s, events[0], rules);
      VersionTellsContents(next, events[1..], rules);
      AdvancesTwice(s.rows, next.rows, Run(s, events, rules).rows);
    }
  }
}
