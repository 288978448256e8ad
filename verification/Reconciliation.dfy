// What one and several scans of the managed directory achieve.
module Reconciliation {
  import opened Wrappers
  import opened DocumentState
  import opened DocumentInvariants

  // The row under the walked path once its own turn in the scan is over.  An accepted file whose
  // path is not composed writes another row, the composed one, and leaves its own alone.
  function Settled(row: Option<Document>, path: Path, file: File, churning: bool, now: int, stamp: int, rules: Rules): Document {
    match Sight(row, path, file, churning, now, stamp, rules)
    case Skip => row.GetOr(FreshRow(file, now))
    case Delay(d) => d
    case Reject(d) => d
    case Accept => if path.composed then UpsertRow(row, file, stamp) else row.GetOr(FreshRow(file, now))
  }

  function SettledOf(rows: Table, pass: Pass, path: Path, rules: Rules): Document
    requires path in pass.files
  {
    Settled(Row(rows, path), path, pass.files[path], path in pass.churning, pass.now, pass.At(path), rules)
  }

  // Every accepted file writes its own row.
  ghost predicate OwnRowsOnly(rows: Table, pass: Pass, rules: Rules) {
    forall p | p in pass.files && SightOf(rows, pass, p, rules).Accept? :: p.composed
  }

  function Tally(rows: Table, pass: Pass, walk: seq<Path>, verdict: Verdict, rules: Rules): nat
    requires forall p | p in walk :: p in pass.files
  {
    if walk == [] then 0
    else Tally(rows, pass, walk[..|walk| - 1], verdict, rules)
         + if JudgeOf(rows, pass, walk[|walk| - 1], rules) == verdict then 1 else 0
  }

  // ---- the scan, row by row -------------------------------------------------------------------

  lemma {:induction false} UncomposedRowsAreTheirOwn(rows: Table, pass: Pass, walk: seq<Path>, path: Path, rules: Rules)
    requires Distinct(walk) && (forall p | p in walk :: p in pass.files) && !path.composed
    ensures Row(Scan(rows, pass, walk, rules), path)
            == if path in walk then Some(SettledOf(rows, pass, path, rules)) else Row(rows, path)
  {
    if walk != [] {
      var before, last := walk[..|walk| - 1], walk[|walk| - 1];
      assert walk == before + [last];
      UncomposedRowsAreTheirOwn(rows, pass, before, path, rules);
    }
  }

  lemma ScanOneOwnRow(rows: Table, scanned: Table, pass: Pass, last: Path, path: Path, rules: Rules)
    requires last in pass.files && OwnRowsOnly(rows, pass, rules) && Row(scanned, last) == Row(rows, last)
    ensures Row(ScanOne(scanned, pass, last, rules), path)
            == if path == last then Some(SettledOf(rows, pass, last, rules)) else Row(scanned, path)
  {
  }

  lemma {:induction false} ScanIsRowByRow(rows: Table, pass: Pass, walk: seq<Path>, path: Path, rules: Rules)
    requires Distinct(walk) && (forall p | p in walk :: p in pass.files) && OwnRowsOnly(rows, pass, rules)
    ensures Row(Scan(rows, pass, walk, rules), path)
            == if path in walk then Some(SettledOf(rows, pass, path, rules)) else Row(rows, path)
  {
    if walk != [] {
      var before, last := walk[..|walk| - 1], walk[|walk| - 1];
      assert walk == before + [last];
      ScanIsRowByRow(rows, pass, before, path, rules);
      ScanIsRowByRow(rows, pass, before, last, rules);
      ScanOneOwnRow(rows, Scan(rows, pass, before, rules), pass, last, path, rules);
    }
  }

  lemma {:induction false} CountsAreTallies(rows: Table, pass: Pass, walk: seq<Path>, rules: Rules)
    requires Distinct(walk) && (forall p | p in walk :: p in pass.files) && OwnRowsOnly(rows, pass, rules)
    ensures ScanCounts(rows, pass, walk, rules)
            == Counts(Tally(rows, pass, walk, Discovered, rules), Tally(rows, pass, walk, Changed, rules),
                      Tally(rows, pass, walk, Unchanged, rules), 0, Tally(rows, pass, walk, Delayed, rules))
  {
    if walk != [] {
      var before, last := walk[..|walk| - 1], walk[|walk| - 1];
      CountsAreTallies(rows, pass, before, rules);
      ScanIsRowByRow(rows, pass, before, last, rules);
    }
  }

  lemma {:induction false} TalliesPartition(rows: Table, pass: Pass, walk: seq<Path>, rules: Rules)
    requires forall p | p in walk :: p in pass.files
    ensures Tally(rows, pass, walk, Discovered, rules) + Tally(rows, pass, walk, Changed, rules)
            + Tally(rows, pass, walk, Unchanged, rules) + Tally(rows, pass, walk, Delayed, rules)
            + Tally(rows, pass, walk, Skipped, rules) + Tally(rows, pass, walk, Rejected, rules) == |walk|
  {
    if walk != [] {
      TalliesPartition(rows, pass, walk[..|walk| - 1], rules);
    }
  }

  // Every walked file falls in exactly one class, judged on the table as it was before the scan,
  // whatever the order of the walk; `removed` counts the live rows that lost their file.
  lemma ReconcileCountsAreExact(rows: Table, pass: Pass, rules: Rules)
    requires pass.Valid() && OwnRowsOnly(rows, pass, rules)
    ensures var counts, walk := ReconcileCounts(rows, pass, rules), pass.walk;
            && counts.discovered == Tally(rows, pass, walk, Discovered, rules)
            && counts.changed == Tally(rows, pass, walk, Changed, rules)
            && counts.same == Tally(rows, pass, walk, Unchanged, rules)
            && counts.delayed == Tally(rows, pass, walk, Delayed, rules)
            && counts.discovered + counts.changed + counts.same + counts.delayed
               + Tally(rows, pass, walk, Skipped, rules) + Tally(rows, pass, walk, Rejected, rules) == |walk|
            && counts.removed == |Orphans(rows, pass)|
  {
    CountsAreTallies(rows, pass, pass.walk, rules);
    TalliesPartition(rows, pass, pass.walk, rules);
    var scanned := Scan(rows, pass, pass.walk, rules);
    forall p ensures p in Orphans(scanned, pass) <==> p in Orphans(rows, pass) {
      ScanIsRowByRow(rows, pass, pass.walk, p, rules);
    }
    assert Orphans(scanned, pass) == Orphans(rows, pass);
  }

  // ---- which documents are live afterwards ----------------------------------------------------

  ghost predicate MarksAgree(rows: Table) {
    forall p | p in rows :: rows[p].deletionRequested <==> rows[p].deletedAt.Some?
  }

  // An uncomposed spelling of the path was accepted: _upsert_stable writes the composed row, and
  // lifts the deletion mark from it.
  ghost predicate Revived(rows: Table, pass: Pass, walk: seq<Path>, path: Path, rules: Rules) {
    exists p :: p in walk && p in pass.files && !p.composed && Canon(p) == path
                && SightOf(rows, pass, p, rules).Accept?
  }

  ghost predicate MarksAfter(row: Option<Document>, rows: Table, path: Path, walked: bool, revived: bool) {
    && (row.None? <==> path !in rows && !walked && !revived)
    && (row.Some? ==>
          && (row.value.deletionRequested <==> path in rows && rows[path].deletionRequested && !revived)
          && (row.value.deletionRequested <==> row.value.deletedAt.Some?))
  }

  lemma {:induction false} ScanMarks(rows: Table, pass: Pass, walk: seq<Path>, path: Path, rules: Rules)
    requires Distinct(walk) && (forall p | p in walk :: p in pass.files) && MarksAgree(rows)
    ensures MarksAfter(Row(Scan(rows, pass, walk, rules), path), rows, path, path in walk,
                       Revived(rows, pass, walk, path, rules))
  {
    if walk != [] {
      var before, last := walk[..|walk| - 1], walk[|walk| - 1];
      ScanMarks(rows, pass, before, path, rules);
      if !last.composed {
        UncomposedRowsAreTheirOwn(rows, pass, before, last, rules);
      }
      RevivedSplits(rows, pass, walk, path, rules);
      ScanOneMarks(rows, Scan(rows, pass, before, rules), pass, last, path, path in before,
                   Revived(rows, pass, before, path, rules), rules);
      assert walk == before + [last];
    }
  }

  lemma RevivedSplits(rows: Table, pass: Pass, walk: seq<Path>, path: Path, rules: Rules)
    requires walk != [] && forall p | p in walk :: p in pass.files
    ensures var before, last := walk[..|walk| - 1], walk[|walk| - 1];
            Revived(rows, pass, walk, path, rules) <==>
            Revived(rows, pass, before, path, rules)
            || (!last.composed && Canon(last) == path && SightOf(rows, pass, last, rules).Accept?)
  {
    var before, last := walk[..|walk| - 1], walk[|walk| - 1];
    assert walk == before + [last];
    if !last.composed && Canon(last) == path && SightOf(rows, pass, last, rules).Accept? {
      assert last in walk;
    }
  }

  lemma ScanOneMarks(rows: Table, scanned: Table, pass: Pass, last: Path, path: Path, walked: bool, revived: bool,
                     rules: Rules)
    requires last in pass.files && MarksAfter(Row(scanned, path), rows, path, walked, revived)
    requires !last.composed ==> Row(scanned, last) == Row(rows, last)
    ensures MarksAfter(Row(ScanOne(scanned, pass, last, rules), path), rows, path, walked || path == last,
                       revived || (!last.composed && Canon(last) == path && SightOf(rows, pass, last, rules).Accept?))
  {
  }

  // One completed reconcile makes the live documents exactly the walked files, except those whose
  // row already carried a deletion mark that no uncomposed sibling lifts.
  lemma ReconcileLivePaths(rows: Table, pass: Pass, path: Path, rules: Rules)
    requires pass.Valid() && MarksAgree(rows)
    ensures var after := Reconciled(rows, pass, rules);
            path in after && after[path].Live() <==>
              && path in pass.files
              && (path in rows && rows[path].deletionRequested ==> Revived(rows, pass, pass.walk, path, rules))
  {
    ScanMarks(rows, pass, pass.walk, path, rules);
  }

  // So "walked minus already deleted" is exact if and only if no deleted, walked path has an
  // accepted uncomposed sibling.
  lemma LivePathsAreTheWalkIff(rows: Table, pass: Pass, rules: Rules)
    requires pass.Valid() && MarksAgree(rows)
    ensures var after := Reconciled(rows, pass, rules);
            (forall p :: (p in after && after[p].Live()) <==> (p in pass.files && !(p in rows && rows[p].deletionRequested)))
            <==> forall p :: p in pass.files && p in rows && rows[p].deletionRequested ==>
                               !Revived(rows, pass, pass.walk, p, rules)
  {
    forall p {
      ReconcileLivePaths(rows, pass, p, rules);
    }
  }

  // It happens: a document is deleted, its file is copied back beside a copy under the uncomposed
  // spelling of its name, and a scan after the window revives the document.
  lemma DeletedDocumentComesBack(name: string, now: int, rules: Rules)
    requires rules.inspects(Path(name, false), "a") && now >= rules.stability
    ensures var composed, other, file := Path(name, true), Path(name, false), File("a", 0);
            var rows := map[composed := DeleteRow(FreshRow(file, 0), 0), other := FreshRow(file, 0)];
            var pass := Pass(map[composed := file, other := file], [composed, other], {}, now, now, map[]);
            && pass.Valid() && rows[composed].deletionRequested && !rows[composed].Live()
            && var after := Reconciled(rows, pass, rules);
            composed in after && after[composed].Live()
  {
    var composed, other, file := Path(name, true), Path(name, false), File("a", 0);
    var rows := map[composed := DeleteRow(FreshRow(file, 0), 0), other := FreshRow(file, 0)];
    var pass := Pass(map[composed := file, other := file], [composed, other], {}, now, now, map[]);
    assert pass.walk[..1] == [composed] && [composed][..0] == [];
    assert other in pass.walk && SightOf(rows, pass, other, rules).Accept?;
    ReconcileLivePaths(rows, pass, composed, rules);
  }

  // ---- stability ------------------------------------------------------------------------------

  ghost predicate AllStamped(rows: Table, clock: int) {
    forall p | p in rows :: Stamped(rows[p], clock)
  }

  // No file under an uncomposed path can be accepted.
  ghost predicate Plain(rows: Table, files: map<Path, File>, rules: Rules) {
    forall p | p in files && !p.composed && rules.inspects(p, files[p].bytes) ::
      p in rows && rows[p].deletionRequested
  }

  // The directory does not change between or during the passes.
  ghost predicate Quiet(first: Pass, second: Pass) {
    && first.Valid() && second.Valid() && first.files == second.files
    && first.churning == {} && second.churning == {}
  }

  // reconcile_with_stability: a second pass after the stability window, unless nothing was delayed.
  ghost function StableReconcile(rows: Table, first: Pass, second: Pass, rules: Rules): Table
    requires first.Valid() && second.Valid()
  {
    var once := Reconciled(rows, first, rules);
    if ReconcileCounts(rows, first, rules).delayed == 0 then once else Reconciled(once, second, rules)
  }

  // The `delayed` it reports.
  ghost function StableDelayed(rows: Table, first: Pass, second: Pass, rules: Rules): nat
    requires first.Valid() && second.Valid()
  {
    var counts := ReconcileCounts(rows, first, rules);
    if counts.delayed == 0 then 0 else ReconcileCounts(Reconciled(rows, first, rules), second, rules).delayed
  }

  // What a row is like once its file has been stable for a window: deleted, or in step with it.
  // An uncomposed row never receives a hash.
  ghost predicate InStep(d: Document, path: Path, file: File, stamp: int, rules: Rules) {
    d.deletionRequested ||
    (&& d.size == |file.bytes| && d.modified == file.mtime && Stamped(d, stamp)
     && (path.composed && rules.inspects(path, file.bytes) ==> d.contentHash == Sha(file.bytes)))
  }

  lemma OneScanRecordsStat(row: Option<Document>, path: Path, file: File, now: int, stamp: int, rules: Rules)
    requires now <= stamp && (row.Some? ==> Stamped(row.value, now))
    ensures var d := Settled(row, path, file, false, now, stamp, rules);
            && (d.deletionRequested || (d.size == |file.bytes| && d.modified == file.mtime && Stamped(d, stamp)))
            && (Judge(row, path, file, false, now, rules) != Delayed ==> InStep(d, path, file, stamp, rules))
            && (d.deletionRequested <==> row.Some? && row.value.deletionRequested)
  {
  }

  lemma SecondScanSettles(d: Document, path: Path, file: File, first: int, now: int, stamp: int, rules: Rules)
    requires rules.Valid() && now >= first + rules.stability && now <= stamp
    requires d.deletionRequested || (d.size == |file.bytes| && d.modified == file.mtime && Stamped(d, first))
    ensures Judge(Some(d), path, file, false, now, rules) != Delayed
    ensures InStep(Settled(Some(d), path, file, false, now, stamp, rules), path, file, stamp, rules)
    ensures Settled(Some(d), path, file, false, now, stamp, rules).deletionRequested == d.deletionRequested
  {
  }

  // The columns that say what is indexed, and whether the document exists.
  ghost predicate SameDocument(a: Document, b: Document) {
    && a.contentHash == b.contentHash && a.knowledge == b.knowledge && a.indexedHash == b.indexedHash
    && a.chunkCount == b.chunkCount && a.deletionRequested == b.deletionRequested && a.version == b.version
  }

  lemma LaterScanChangesNothing(d: Document, path: Path, file: File, before: int, now: int, stamp: int, rules: Rules)
    requires InStep(d, path, file, before, rules) && before <= now
    requires path.composed || !rules.inspects(path, file.bytes) || d.deletionRequested
    ensures Judge(Some(d), path, file, false, now, rules) in {Delayed, Unchanged, Skipped, Rejected}
    ensures SameDocument(d, Settled(Some(d), path, file, false, now, stamp, rules))
  {
  }

  lemma PlainMeansOwnRows(rows: Table, pass: Pass, rules: Rules)
    requires Plain(rows, pass.files, rules)
    ensures OwnRowsOnly(rows, pass, rules)
  {
  }

  // One pass: what it leaves in every row, and that it leaves the table ready for the next one.
  lemma AfterOnePass(rows: Table, pass: Pass, rules: Rules)
    requires rules.Valid() && pass.Valid() && pass.churning == {} && AllStamped(rows, pass.now) && MarksAgree(rows)
    requires Plain(rows, pass.files, rules)
    ensures var after := Reconciled(rows, pass, rules);
            && AllStamped(after, pass.end) && MarksAgree(after) && Plain(after, pass.files, rules)
            && (forall p | p in pass.files :: p in after && after[p] == SettledOf(rows, pass, p, rules))
            && (forall p | p in after && p !in pass.files :: p in rows && !after[p].Live()
                  && after[p] == if rows[p].Live() then DeleteRow(rows[p], pass.At(p)) else rows[p])
  {
    PlainMeansOwnRows(rows, pass, rules);
    var after := Reconciled(rows, pass, rules);
    forall p
      ensures p in pass.files ==> p in after && after[p] == SettledOf(rows, pass, p, rules)
      ensures p in after && p !in pass.files ==>
                p in rows && !after[p].Live()
                && after[p] == if rows[p].Live() then DeleteRow(rows[p], pass.At(p)) else rows[p]
      ensures p in after ==> Stamped(after[p], pass.end) && (after[p].deletionRequested <==> after[p].deletedAt.Some?)
    {
      RowAfterPass(rows, pass, p, rules);
    }
  }

  // What one pass leaves of a row.
  lemma RowAfterPass(rows: Table, pass: Pass, path: Path, rules: Rules)
    requires rules.Valid() && pass.Valid() && pass.churning == {} && OwnRowsOnly(rows, pass, rules)
    requires AllStamped(rows, pass.now) && MarksAgree(rows)
    ensures var after := Reconciled(rows, pass, rules);
            if path in pass.files then path in after && after[path] == SettledOf(rows, pass, path, rules)
            else path in after ==>
              && path in rows && !after[path].Live()
              && after[path] == if rows[path].Live() then DeleteRow(rows[path], pass.At(path)) else rows[path]
    ensures var after := Reconciled(rows, pass, rules);
            path in after ==>
              Stamped(after[path], pass.end) && (after[path].deletionRequested <==> after[path].deletedAt.Some?)
  {
    ScanIsRowByRow(rows, pass, pass.walk, path, rules);
    if path in pass.files {
      OneScanRecordsStat(Row(rows, path), path, pass.files[path], pass.now, pass.At(path), rules);
    }
  }

  lemma {:induction false} NoTallyNoVerdict(rows: Table, pass: Pass, walk: seq<Path>, verdict: Verdict, rules: Rules)
    requires forall p | p in walk :: p in pass.files
    ensures Tally(rows, pass, walk, verdict, rules) == 0 <==>
            forall p | p in walk :: JudgeOf(rows, pass, p, rules) != verdict
  {
    if walk != [] {
      var before, last := walk[..|walk| - 1], walk[|walk| - 1];
      assert walk == before + [last];
      NoTallyNoVerdict(rows, pass, before, verdict, rules);
    }
  }

  // With the directory quiet for a window, nothing is left delayed, and every supported file that
  // is not marked deleted has a row whose hash is the hash of its bytes.
  lemma StableReconcileSettles(rows: Table, first: Pass, second: Pass, rules: Rules)
    requires rules.Valid() && Quiet(first, second) && second.now >= first.end + rules.stability
    requires AllStamped(rows, first.now) && MarksAgree(rows) && Plain(rows, first.files, rules)
    ensures StableDelayed(rows, first, second, rules) == 0
    ensures var after := StableReconcile(rows, first, second, rules);
            && MarksAgree(after) && Plain(after, first.files, rules) && AllStamped(after, second.end)
            && (forall p | p in first.files :: p in after && InStep(after[p], p, first.files[p], second.end, rules))
            && (forall p | p in after && p !in first.files :: p in rows && !after[p].Live())
            && (forall p | p in first.files :: after[p].deletionRequested <==> p in rows && rows[p].deletionRequested)
  {
    AfterOnePass(rows, first, rules);
    PlainMeansOwnRows(rows, first, rules);
    CountsAreTallies(rows, first, first.walk, rules);
    NoTallyNoVerdict(rows, first, first.walk, Delayed, rules);
    var once := Reconciled(rows, first, rules);
    forall p | p in first.files
      ensures ReconcileCounts(rows, first, rules).delayed == 0 ==> InStep(once[p], p, first.files[p], first.end, rules)
      ensures once[p].deletionRequested <==> p in rows && rows[p].deletionRequested
      ensures JudgeOf(once, second, p, rules) != Delayed
      ensures InStep(SettledOf(once, second, p, rules), p, first.files[p], second.end, rules)
      ensures SettledOf(once, second, p, rules).deletionRequested == once[p].deletionRequested
    {
      OneScanRecordsStat(Row(rows, p), p, first.files[p], first.now, first.At(p), rules);
      SecondScanSettles(once[p], p, first.files[p], first.end, second.now, second.At(p), rules);
    }
    AfterOnePass(once, second, rules);
    PlainMeansOwnRows(once, second, rules);
    CountsAreTallies(once, second, second.walk, rules);
    NoTallyNoVerdict(once, second, second.walk, Delayed, rules);
  }

  // And that is a fixpoint: a further pass discovers, changes and removes nothing, and leaves what
  // is known about every document as it was.
  lemma StableReconcileIsFixpoint(rows: Table, first: Pass, second: Pass, third: Pass, rules: Rules)
    requires rules.Valid() && Quiet(first, second) && second.now >= first.end + rules.stability
    requires Quiet(first, third) && third.now >= second.end
    requires AllStamped(rows, first.now) && MarksAgree(rows) && Plain(rows, first.files, rules)
    ensures var after := StableReconcile(rows, first, second, rules);
            var counts := ReconcileCounts(after, third, rules);
            && counts.discovered == 0 && counts.changed == 0 && counts.removed == 0
            && Reconciled(after, third, rules).Keys == after.Keys
            && forall p | p in after :: SameDocument(after[p], Reconciled(after, third, rules)[p])
  {
    StableReconcileSettles(rows, first, second, rules);
    QuietPassIsFixpoint(StableReconcile(rows, first, second, rules), third, second.end, rules);
  }

  lemma QuietPassIsFixpoint(rows: Table, pass: Pass, stamp: int, rules: Rules)
    requires rules.Valid() && pass.Valid() && pass.churning == {} && stamp <= pass.now
    requires AllStamped(rows, stamp) && MarksAgree(rows) && Plain(rows, pass.files, rules)
    requires forall p | p in pass.files :: p in rows && InStep(rows[p], p, pass.files[p], stamp, rules)
    requires forall p | p in rows && p !in pass.files :: !rows[p].Live()
    ensures var counts := ReconcileCounts(rows, pass, rules);
            && counts.discovered == 0 && counts.changed == 0 && counts.removed == 0
            && Reconciled(rows, pass, rules).Keys == rows.Keys
            && forall p | p in rows :: SameDocument(rows[p], Reconciled(rows, pass, rules)[p])
  {
    forall p | p in pass.files
      ensures JudgeOf(rows, pass, p, rules) != Discovered && JudgeOf(rows, pass, p, rules) != Changed
      ensures SameDocument(rows[p], SettledOf(rows, pass, p, rules))
    {
      LaterScanChangesNothing(rows[p], p, pass.files[p], stamp, pass.now, pass.At(p), rules);
    }
    PlainMeansOwnRows(rows, pass, rules);
    assert Orphans(rows, pass) == {};
    QuietPassCounts(rows, pass, rules);
    QuietPassRows(rows, pass, rules);
  }

  lemma QuietPassCounts(rows: Table, pass: Pass, rules: Rules)
    requires pass.Valid() && OwnRowsOnly(rows, pass, rules) && Orphans(rows, pass) == {}
    requires forall p | p in pass.files ::
               JudgeOf(rows, pass, p, rules) != Discovered && JudgeOf(rows, pass, p, rules) != Changed
    ensures var counts := ReconcileCounts(rows, pass, rules);
            counts.discovered == 0 && counts.changed == 0 && counts.removed == 0
  {
    ReconcileCountsAreExact(rows, pass, rules);
    NoTallyNoVerdict(rows, pass, pass.walk, Discovered, rules);
    NoTallyNoVerdict(rows, pass, pass.walk, Changed, rules);
  }

  lemma QuietPassRows(rows: Table, pass: Pass, rules: Rules)
    requires rules.Valid() && pass.Valid() && pass.churning == {} && AllStamped(rows, pass.now) && MarksAgree(rows)
    requires Plain(rows, pass.files, rules)
    requires forall p | p in pass.files :: p in rows && SameDocument(rows[p], SettledOf(rows, pass, p, rules))
    requires forall p | p in rows && p !in pass.files :: !rows[p].Live()
    ensures Reconciled(rows, pass, rules).Keys == rows.Keys
    ensures forall p | p in rows :: SameDocument(rows[p], Reconciled(rows, pass, rules)[p])
  {
    AfterOnePass(rows, pass, rules);
    forall p ensures p in rows <==> p in Reconciled(rows, pass, rules) {
      PlainMeansOwnRows(rows, pass, rules);
      ScanIsRowByRow(rows, pass, pass.walk, p, rules);
    }
  }

  // ---- waiting for a window -------------------------------------------------------------------

  // The pass finds the file new, changed since its row was written, or changing under its hands.
  ghost predicate Restarts(rows: Table, pass: Pass, path: Path, rules: Rules)
    requires path in pass.files
  {
    var file := pass.files[path];
    path !in rows
    || (!rows[path].deletionRequested
        && (rows[path].size != |file.bytes| || rows[path].modified != file.mtime
            || (path in pass.churning && rules.inspects(path, file.bytes)
                && rows[path].stableSince.Some? && pass.now - rows[path].stableSince.value >= rules.stability)))
  }

  // The row is in step with the file, whose window began at `since` or later.
  ghost predicate Held(rows: Table, path: Path, file: File, since: int) {
    && path in rows && !rows[path].deletionRequested
    && rows[path].size == |file.bytes| && rows[path].modified == file.mtime
    && rows[path].stableSince.Some? && rows[path].stableSince.value >= since
  }

  // What is known about the contents of a document; of a new one, nothing.
  ghost predicate SameContents(before: Option<Document>, after: Document) {
    match before
    case None => after.contentHash.NoHash? && after.knowledge.Pending? && after.indexedHash.None? && after.chunkCount == 0
    case Some(d) =>
      && after.contentHash == d.contentHash && after.knowledge == d.knowledge && after.indexedHash == d.indexedHash
      && after.chunkCount == d.chunkCount && after.version == d.version
  }

  // Such a pass delays the file, begins its window, and leaves what is known of its contents.
  lemma RestartBeginsWindow(rows: Table, pass: Pass, path: Path, rules: Rules)
    requires pass.Valid() && OwnRowsOnly(rows, pass, rules) && path in pass.files && Restarts(rows, pass, path, rules)
    ensures JudgeOf(rows, pass, path, rules) == Delayed
    ensures var after := Reconciled(rows, pass, rules);
            && path in after && SameContents(Row(rows, path), after[path])
            && (MarksAgree(rows) ==> Held(after, path, pass.files[path], pass.now))
  {
    ScanIsRowByRow(rows, pass, pass.walk, path, rules);
  }

  // A pass within the window delays the file again, and leaves its row alone.
  lemma HeldIsDelayed(rows: Table, pass: Pass, path: Path, since: int, rules: Rules)
    requires pass.Valid() && OwnRowsOnly(rows, pass, rules) && path in pass.files && MarksAgree(rows)
    requires Held(rows, path, pass.files[path], since) && pass.now < since + rules.stability
    ensures JudgeOf(rows, pass, path, rules) == Delayed
    ensures Row(Reconciled(rows, pass, rules), path) == Row(rows, path)
  {
    ScanIsRowByRow(rows, pass, pass.walk, path, rules);
  }

  lemma PassKeepsMark(rows: Table, pass: Pass, path: Path, rules: Rules)
    requires pass.Valid() && OwnRowsOnly(rows, pass, rules) && MarksAgree(rows)
    ensures var row := Row(Reconciled(rows, pass, rules), path);
            row.Some? ==> (row.value.deletionRequested <==> row.value.deletedAt.Some?)
  {
    ScanIsRowByRow(rows, pass, pass.walk, path, rules);
  }

  lemma PassKeepsMarks(rows: Table, pass: Pass, rules: Rules)
    requires pass.Valid() && OwnRowsOnly(rows, pass, rules) && MarksAgree(rows)
    ensures MarksAgree(Reconciled(rows, pass, rules))
  {
    var after := Reconciled(rows, pass, rules);
    forall p | p in after ensures after[p].deletionRequested <==> after[p].deletedAt.Some? {
      PassKeepsMark(rows, pass, p, rules);
    }
  }

  // Passes that find the file as it was at the first of them, within a window of `since`.
  ghost predicate Within(rows: Table, passes: seq<Pass>, path: Path, file: File, since: int, rules: Rules)
    decreases |passes|
  {
    passes == [] ||
    (&& passes[0].Valid() && OwnRowsOnly(rows, passes[0], rules)
     && path in passes[0].files && passes[0].files[path] == file && passes[0].now < since + rules.stability
     && Within(Reconciled(rows, passes[0], rules), passes[1..], path, file, since, rules))
  }

  // Each of the passes judges the path as delayed.
  ghost predicate AllDelayed(rows: Table, passes: seq<Pass>, path: Path, rules: Rules)
    requires forall pass | pass in passes :: pass.Valid() && path in pass.files
    decreases |passes|
  {
    passes == [] ||
    (&& JudgeOf(rows, passes[0], path, rules) == Delayed
     && AllDelayed(Reconciled(rows, passes[0], rules), passes[1..], path, rules))
  }

  ghost function AfterPasses(rows: Table, passes: seq<Pass>, rules: Rules): Table
    requires forall pass | pass in passes :: pass.Valid()
    decreases |passes|
  {
    if passes == [] then rows else AfterPasses(Reconciled(rows, passes[0], rules), passes[1..], rules)
  }

  lemma {:induction false} WithinIsValid(rows: Table, passes: seq<Pass>, path: Path, file: File, since: int, rules: Rules)
    requires Within(rows, passes, path, file, since, rules)
    ensures forall pass | pass in passes :: pass.Valid() && path in pass.files
    decreases |passes|
  {
    if passes != [] {
      WithinIsValid(Reconciled(rows, passes[0], rules), passes[1..], path, file, since, rules);
      assert passes == [passes[0]] + passes[1..];
    }
  }

  lemma {:induction false} HeldThroughout(rows: Table, passes: seq<Pass>, path: Path, file: File, since: int, rules: Rules)
    requires MarksAgree(rows) && Held(rows, path, file, since) && Within(rows, passes, path, file, since, rules)
    ensures forall pass | pass in passes :: pass.Valid() && path in pass.files
    ensures AllDelayed(rows, passes, path, rules)
    ensures Row(AfterPasses(rows, passes, rules), path) == Row(rows, path)
    decreases |passes|
  {
    WithinIsValid(rows, passes, path, file, since, rules);
    if passes != [] {
      var next := Reconciled(rows, passes[0], rules);
      HeldIsDelayed(rows, passes[0], path, since, rules);
      PassKeepsMarks(rows, passes[0], rules);
      assert Row(next, path) == Row(rows, path);
      HeldThroughout(next, passes[1..], path, file, since, rules);
    }
  }

  // A file that a pass finds new, changed or changing is not looked into before a window has gone
  // by: every pass until then delays it, and its document's contents stay what they were.
  lemma ChangedFileWaits(rows: Table, first: Pass, later: seq<Pass>, path: Path, rules: Rules)
    requires MarksAgree(rows) && first.Valid() && OwnRowsOnly(rows, first, rules)
    requires path in first.files && Restarts(rows, first, path, rules)
    requires Within(Reconciled(rows, first, rules), later, path, first.files[path], first.now, rules)
    ensures forall pass | pass in later :: pass.Valid() && path in pass.files
    ensures JudgeOf(rows, first, path, rules) == Delayed
    ensures AllDelayed(Reconciled(rows, first, rules), later, path, rules)
    ensures var after := AfterPasses(Reconciled(rows, first, rules), later, rules);
            path in after && SameContents(Row(rows, path), after[path])
  {
    var once := Reconciled(rows, first, rules);
    RestartBeginsWindow(rows, first, path, rules);
    PassKeepsMarks(rows, first, rules);
    HeldThroughout(once, later, path, first.files[path], first.now, rules);
  }

  // What accepting a file does to its document: it has the hash of the file's bytes, and counts as
  // unchanged, changed or discovered by the hash it had; only a change of hash makes a new version,
  // and puts it back in the queue with nothing known to be indexed.
  lemma AcceptedDocument(rows: Table, pass: Pass, path: Path, rules: Rules)
    requires pass.Valid() && OwnRowsOnly(rows, pass, rules) && path in pass.files && path in rows
    requires JudgeOf(rows, pass, path, rules) in {Unchanged, Changed, Discovered}
    ensures var before, after := rows[path], Reconciled(rows, pass, rules);
            path in after && var hash := Sha(pass.files[path].bytes);
            && after[path].contentHash == hash && !after[path].deletionRequested
            && (JudgeOf(rows, pass, path, rules) == Unchanged <==> before.contentHash == hash)
            && (JudgeOf(rows, pass, path, rules) == Discovered <==> before.contentHash == NoHash)
            && if before.contentHash == hash then SameContents(Some(before), after[path])
               else after[path].version == before.version + 1 && after[path].knowledge.Pending?
                    && after[path].indexedHash.None? && after[path].chunkCount == 0
  {
    ScanIsRowByRow(rows, pass, pass.walk, path, rules);
  }

  // ---- uncomposed paths -----------------------------------------------------------------------

  // A supported file under an uncomposed path: its own row stays without a hash, so every pass
  // from the second on discovers it afresh.
  lemma UncomposedNeverSettles(row: Option<Document>, path: Path, file: File, first: Pass, second: Pass, third: Pass,
                               rules: Rules)
    requires rules.Valid() && second.now >= first.now + rules.stability && third.now >= second.now
    requires !path.composed && rules.inspects(path, file.bytes)
    requires row.Some? ==> Stamped(row.value, first.now) && !row.value.deletionRequested && row.value.contentHash.NoHash?
    ensures var once := Settled(row, path, file, false, first.now, first.At(path), rules);
            && Settled(Some(once), path, file, false, second.now, second.At(path), rules) == once
            && Judge(Some(once), path, file, false, third.now, rules) == Discovered
  {
  }

  lemma UncomposedAfterPass(rows: Table, pass: Pass, path: Path, rules: Rules)
    requires pass.Valid() && path in pass.files && !path.composed
    ensures Row(Reconciled(rows, pass, rules), path) == Some(SettledOf(rows, pass, path, rules))
  {
    UncomposedRowsAreTheirOwn(rows, pass, pass.walk, path, rules);
  }

  lemma {:induction false} UncomposedDiscoveryCounts(rows: Table, pass: Pass, walk: seq<Path>, path: Path, rules: Rules)
    requires Distinct(walk) && (forall p | p in walk :: p in pass.files) && path in walk && !path.composed
    requires JudgeOf(rows, pass, path, rules) == Discovered
    ensures ScanCounts(rows, pass, walk, rules).discovered >= 1
  {
    var before, last := walk[..|walk| - 1], walk[|walk| - 1];
    assert walk == before + [last];
    if path == last {
      UncomposedRowsAreTheirOwn(rows, pass, before, path, rules);
    } else {
      UncomposedDiscoveryCounts(rows, pass, before, path, rules);
    }
  }

  // So the fixpoint holds if and only if no supported, undeleted file lies under an uncomposed path.
  lemma FixpointIffPlain(rows: Table, first: Pass, second: Pass, third: Pass, rules: Rules)
    requires rules.Valid() && Quiet(first, second) && second.now >= first.end + rules.stability
    requires Quiet(first, third) && third.now >= second.end
    requires AllStamped(rows, first.now) && MarksAgree(rows)
    requires forall p | p in rows && !p.composed :: rows[p].contentHash.NoHash?
    ensures var counts := ReconcileCounts(StableReconcile(rows, first, second, rules), third, rules);
            Plain(rows, first.files, rules) <==>
            counts.discovered == 0 && counts.changed == 0 && counts.removed == 0
  {
    if Plain(rows, first.files, rules) {
      StableReconcileIsFixpoint(rows, first, second, third, rules);
    } else {
      var p :| p in first.files && !p.composed && rules.inspects(p, first.files[p].bytes)
               && !(p in rows && rows[p].deletionRequested);
      var once, after := Reconciled(rows, first, rules), StableReconcile(rows, first, second, rules);
      UncomposedNeverSettles(Row(rows, p), p, first.files[p], first, second, third, rules);
      UncomposedAfterPass(rows, first, p, rules);
      UncomposedAfterPass(once, second, p, rules);
      assert Row(after, p) == Row(once, p);
      UncomposedDiscoveryCounts(after, third, third.walk, p, rules);
    }
  }
}
