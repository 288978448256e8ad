// What every run of uploads, scans, deletions, retries and index rounds keeps, whatever the
// store answers: the documents table and the knowledge store agree.
module DocumentInvariants {
  import opened Wrappers
  import opened Chunking
  import opened DocumentState

  // What a row promises, about itself and about its points in the store.
  ghost predicate RowOk(path: Path, d: Document, points: Points) {
    && (d.deletionRequested <==> d.deletedAt.Some?)
    && (d.knowledge.Indexed? ==>
          && !d.deletionRequested && d.indexedHash == Some(d.contentHash)
          && Own(points, path).Keys == Ids(path, d.contentHash, d.chunkCount))
    && (d.knowledge.DeletePending? ==> d.deletionRequested)
    && (d.knowledge.Deleted? ==>
          d.deletionRequested && d.indexedHash.None? && d.chunkCount == 0 && Own(points, path) == map[])
    && (d.Queued() && !d.deletionRequested ==> d.indexedHash.None? && d.chunkCount == 0)
    && (!path.composed ==> d.contentHash.NoHash?)
  }

  ghost predicate Stamped(d: Document, clock: int) {
    d.stableSince.Some? && d.stableSince.value <= clock
  }

  ghost predicate TableOk(rows: Table, points: Points, clock: int) {
    forall p | p in rows :: RowOk(p, rows[p], points) && Stamped(rows[p], clock)
  }

  // Every point belongs to a row.
  ghost predicate NoStrayPoints(rows: Table, points: Points) {
    forall id | id in points :: id.document in rows
  }

  ghost predicate Inv(s: State) {
    TableOk(s.rows, s.points, s.clock) && NoStrayPoints(s.rows, s.points)
  }

  // ---- the store ------------------------------------------------------------------------------

  lemma OwnAfterWithout(points: Points, path: Path)
    ensures Own(Without(points, path), path) == map[]
    ensures forall p | p != path :: Own(Without(points, path), p) == Own(points, p)
  {
  }

  lemma OwnAfterReplace(points: Points, path: Path, hash: Hash, pieces: seq<Piece>)
    ensures var replaced := Without(points, path) + PointsFor(path, hash, pieces);
            && Own(replaced, path) == PointsFor(path, hash, pieces)
            && forall p | p != path :: Own(replaced, p) == Own(points, p)
  {
    var replaced := Without(points, path) + PointsFor(path, hash, pieces);
    assert forall id | id in PointsFor(path, hash, pieces) :: id.document == path;
    assert Own(replaced, path) == PointsFor(path, hash, pieces);
    forall p | p != path ensures Own(replaced, p) == Own(points, p) {
      assert Own(replaced, p).Keys == Own(points, p).Keys;
    }
  }

  // A document's turn writes nothing about any other document.
  ghost predicate TouchesOnly(before: Points, after: Points, path: Path) {
    forall p | p != path :: Own(after, p) == Own(before, p)
  }

  lemma PointsElsewhere(before: Points, after: Points, path: Path, id: PointId)
    requires TouchesOnly(before, after, path) && id in after && id.document != path
    ensures id in before
  {
    assert id in Own(after, id.document);
    assert Own(after, id.document) == Own(before, id.document);
  }

  // ---- one row --------------------------------------------------------------------------------

  lemma UpsertKeepsRow(path: Path, row: Option<Document>, file: File, points: Points, clock: int, now: int)
    requires path.composed
    requires row.Some? ==> RowOk(path, row.value, points) && Stamped(row.value, clock)
    ensures RowOk(path, UpsertRow(row, file, now), points)
    ensures Stamped(UpsertRow(row, file, now), Max(clock, now))
  {
  }

  lemma ScanKeepsRow(path: Path, row: Option<Document>, file: File, churning: bool, points: Points, clock: int, now: int,
                     stamp: int, rules: Rules)
    requires row.Some? ==> RowOk(path, row.value, points) && Stamped(row.value, clock)
    ensures match Sight(row, path, file, churning, now, stamp, rules)
            case Delay(d) => RowOk(path, d, points) && Stamped(d, Max(clock, now))
            case Reject(d) => RowOk(path, d, points) && Stamped(d, Max(clock, now))
            case _ => true
  {
  }

  // A store request made for the document, applied or not, is invisible to the others.
  lemma WorkTouchesOnly(points: Points, path: Path, hash: Hash, pieces: seq<Piece>)
    ensures TouchesOnly(points, Without(points, path), path)
    ensures TouchesOnly(points, Without(points, path) + PointsFor(path, hash, pieces), path)
  {
    OwnAfterWithout(points, path);
    OwnAfterReplace(points, path, hash, pieces);
  }

  lemma IndexedRowOk(d: Document, e: Document, path: Path, points: Points, pieces: seq<Piece>)
    requires RowOk(path, d, points) && d.Queued() && !d.deletionRequested
    requires e.knowledge.Indexed? && e.contentHash == d.contentHash && e.indexedHash == Some(d.contentHash)
    requires e.chunkCount == |pieces| && e.deletionRequested == d.deletionRequested && e.deletedAt == d.deletedAt
    ensures RowOk(path, e, Without(points, path) + PointsFor(path, d.contentHash, pieces))
  {
    OwnAfterReplace(points, path, d.contentHash, pieces);
    assert PointsFor(path, d.contentHash, pieces).Keys == Ids(path, d.contentHash, |pieces|);
  }

  lemma IndexKeepsRow(d: Document, path: Path, file: Option<File>, points: Points, registered: bool, fault: StoreFault,
                      clock: int, now: int, rules: Rules)
    requires rules.Valid() && RowOk(path, d, points) && Stamped(d, clock) && d.Queued() && !d.deletionRequested
    ensures var w := IndexWork(d, path, file, points, registered, fault, now, rules);
            && TouchesOnly(points, w.points, path) && Stamped(w.row, clock)
            && (w.ending.Done? ==> RowOk(path, w.row, w.points)) && (!w.ending.Done? ==> w.row == d)
  {
    var w := IndexWork(d, path, file, points, registered, fault, now, rules);
    WorkTouchesOnly(points, path, d.contentHash, []);
    if file.Some? && rules.extracts(path, file.value.bytes).Some? {
      var pieces := Pieces(rules.extracts(path, file.value.bytes).value, rules.limits);
      WorkTouchesOnly(points, path, d.contentHash, pieces);
      if w.ending.Done? {
        IndexedRowOk(d, w.row, path, points, pieces);
      }
    }
  }

  lemma DeleteKeepsRow(d: Document, path: Path, points: Points, registered: bool, fault: StoreFault, clock: int, now: int)
    requires RowOk(path, d, points) && Stamped(d, clock) && d.deletionRequested
    ensures var w := DeleteWork(d, path, points, registered, fault, now);
            && TouchesOnly(points, w.points, path) && Stamped(w.row, clock)
            && (w.ending.Done? ==> RowOk(path, w.row, w.points)) && (!w.ending.Done? ==> w.row == d)
  {
    OwnAfterWithout(points, path);
  }

  lemma TurnKeepsRow(d: Document, path: Path, file: Option<File>, points: Points, registered: bool, fault: StoreFault,
                     clock: int, now: int, rules: Rules)
    requires rules.Valid() && RowOk(path, d, points) && Stamped(d, clock) && d.Queued()
    ensures var w := Turn(d, path, file, points, registered, fault, now, rules);
            && RowOk(path, w.row, w.points) && Stamped(w.row, clock)
            && TouchesOnly(points, w.points, path)
  {
    if d.deletionRequested {
      DeleteKeepsRow(d, path, points, registered, fault, clock, now);
    } else {
      IndexKeepsRow(d, path, file, points, registered, fault, clock, now, rules);
    }
  }

  // ---- one call -------------------------------------------------------------------------------

  lemma SetRowKeepsTable(rows: Table, points: Points, clock: int, path: Path, d: Document, later: int)
    requires TableOk(rows, points, clock) && clock <= later
    requires RowOk(path, d, points) && Stamped(d, later)
    ensures TableOk(rows[path := d], points, later)
  {
  }

  lemma ScanOneKeepsTable(rows: Table, points: Points, clock: int, pass: Pass, path: Path, rules: Rules)
    requires TableOk(rows, points, clock) && path in pass.files && pass.now <= clock && pass.At(path) <= clock
    ensures TableOk(ScanOne(rows, pass, path, rules), points, clock)
    ensures rows.Keys <= ScanOne(rows, pass, path, rules).Keys
  {
    var file := pass.files[path];
    ScanKeepsRow(path, Row(rows, path), file, path in pass.churning, points, clock, pass.now, pass.At(path), rules);
    UpsertKeepsRow(Canon(path), Row(rows, Canon(path)), file, points, clock, pass.At(path));
    match SightOf(rows, pass, path, rules)
    case Skip =>
    case Delay(d) => SetRowKeepsTable(rows, points, clock, path, d, clock);
    case Reject(d) => SetRowKeepsTable(rows, points, clock, path, d, clock);
    case Accept =>
      SetRowKeepsTable(rows, points, clock, Canon(path), UpsertRow(Row(rows, Canon(path)), file, pass.At(path)), clock);
  }

  lemma {:induction false} ScanKeepsTable(rows: Table, points: Points, clock: int, pass: Pass, walk: seq<Path>, rules: Rules)
    requires TableOk(rows, points, clock) && pass.Valid() && pass.end <= clock && forall p | p in walk :: p in pass.files
    ensures TableOk(Scan(rows, pass, walk, rules), points, clock)
    ensures rows.Keys <= Scan(rows, pass, walk, rules).Keys
  {
    if walk != [] {
      var before := walk[..|walk| - 1];
      ScanKeepsTable(rows, points, clock, pass, before, rules);
      ScanOneKeepsTable(Scan(rows, pass, before, rules), points, clock, pass, walk[|walk| - 1], rules);
    }
  }

  lemma ReconcileKeepsTable(rows: Table, points: Points, clock: int, pass: Pass, rules: Rules)
    requires TableOk(rows, points, clock) && pass.end <= clock && pass.Valid()
    ensures TableOk(Reconciled(rows, pass, rules), points, clock)
    ensures rows.Keys <= Reconciled(rows, pass, rules).Keys
  {
    ScanKeepsTable(rows, points, clock, pass, pass.walk, rules);
  }

  lemma TakeTurnKeepsInv(s: State, round: Round, k: nat, rules: Rules)
    requires rules.Valid() && Inv(s) && k < |round.batch| == |round.faults|
    requires round.batch[k] in s.rows && s.rows[round.batch[k]].Queued()
    ensures Inv(TakeTurn(s, round, k, rules))
    ensures forall p | p in s.rows && p != round.batch[k] :: TakeTurn(s, round, k, rules).rows[p] == s.rows[p]
  {
    var path := round.batch[k];
    var d, next := s.rows[path], TakeTurn(s, round, k, rules);
    TurnKeepsRow(d, path, FileAt(s.files, path), s.points, round.registered, round.faults[k], s.clock, round.At(path), rules);
    forall p | p in next.rows
      ensures RowOk(p, next.rows[p], next.points) && Stamped(next.rows[p], s.clock)
    {
      if p != path {
        assert Own(next.points, p) == Own(s.points, p);
      }
    }
    forall id | id in next.points
      ensures id.document in next.rows
    {
      if id.document != path {
        PointsElsewhere(s.points, next.points, path, id);
      }
    }
  }

  lemma {:induction false} ProcessKeepsInv(s: State, round: Round, k: nat, rules: Rules)
    requires rules.Valid() && Inv(s) && k <= |round.batch| == |round.faults| && Distinct(round.batch)
    requires forall p | p in round.batch :: p in s.rows
    requires forall p | p in round.batch[k..] :: s.rows[p].Queued()
    ensures Inv(Process(s, round, k, rules))
    decreases |round.batch| - k
  {
    if k < |round.batch| {
      var next := TakeTurn(s, round, k, rules);
      TakeTurnKeepsInv(s, round, k, rules);
      if !TurnOf(s, round, k, rules).ending.Stop? {
        DistinctTail(round.batch, k);
        ProcessKeepsInv(next, round, k + 1, rules);
      }
    }
  }

  lemma {:induction false} DistinctTail<T>(s: seq<T>, k: nat)
    requires Distinct(s) && k < |s|
    ensures s[k] in s[k..] && s[k] !in s[k + 1..]
    ensures forall x | x in s[k + 1..] :: x in s[k..]
  {
    if k < |s| - 1 {
      DistinctTail(s[..|s| - 1], k);
      assert s[k + 1..] == s[..|s| - 1][k + 1..] + [s[|s| - 1]];
      assert s[k] in s[..|s| - 1];
    }
  }

  lemma StepKeepsInv(s: State, e: Event, rules: Rules)
    requires rules.Valid() && Inv(s) && Possible(s, e)
    ensures Inv(Step(s, e, rules))
  {
    var later := Max(s.clock, e.End());
    assert TableOk(s.rows, s.points, later);
    match e.action
    case Copy(path, file) =>
    case Remove(path) =>
    case Upload(path, file, allowed) =>
      if path.composed {
        UpsertKeepsRow(path, Row(s.rows, path), file, s.points, s.clock, e.now);
        SetRowKeepsTable(s.rows, s.points, s.clock, path, UpsertRow(Row(s.rows, path), file, e.now), later);
      }
    case Delete(path, allowed) =>
      if path in s.rows {
        SetRowKeepsTable(s.rows, s.points, s.clock, path, DeleteRow(s.rows[path], e.now), later);
      }
    case Retry(path) =>
      if path in s.rows && s.rows[path].knowledge.Failed? {
        SetRowKeepsTable(s.rows, s.points, s.clock, path, RetryRow(s.rows[path], e.now), later);
      }
    case Reconcile(pass) =>
      ReconcileKeepsTable(s.rows, s.points, later, pass, rules);
    case Work(limit, round) =>
      ProcessKeepsInv(s.(clock := later), round, 0, rules);
      ProcessIgnoresClock(s, later, round, 0, rules);
  }

  lemma {:induction false} ProcessIgnoresClock(s: State, clock: int, round: Round, k: nat, rules: Rules)
    requires rules.Valid() && k <= |round.batch| == |round.faults|
    requires forall p | p in round.batch :: p in s.rows
    ensures Process(s.(clock := clock), round, k, rules) == Process(s, round, k, rules).(clock := clock)
    decreases |round.batch| - k
  {
    if k < |round.batch| {
      ProcessIgnoresClock(TakeTurn(s, round, k, rules), clock, round, k + 1, rules);
    }
  }

  // Over every run, from the empty table on.
  lemma {:induction false} RunKeepsInv(s: State, events: seq<Event>, rules: Rules)
    requires rules.Valid() && Inv(s) && Runs(s, events, rules)
    ensures Inv(Run(s, events, rules))
    decreases |events|
  {
    if events != [] {
      StepKeepsInv(s, events[0], rules);
      RunKeepsInv(Step(s, events[0], rules), events[1..], rules);
    }
  }

  // The same read off the state that any run from the empty table reaches: what an indexed, a
  // deleted and a queued document promise, and that no point outlives its document.
  lemma EveryRunAgrees(events: seq<Event>, path: Path, rules: Rules)
    requires rules.Valid() && Runs(EMPTY, events, rules)
    ensures var s := Run(EMPTY, events, rules);
            if path !in s.rows then Own(s.points, path) == map[]
            else
              var d := s.rows[path];
              match d.knowledge
              case Indexed =>
                && !d.deletionRequested && d.indexedHash == Some(d.contentHash)
                && Own(s.points, path).Keys == Ids(path, d.contentHash, d.chunkCount)
              case Deleted => d.deletionRequested && d.indexedHash.None? && Own(s.points, path) == map[]
              case DeletePending => d.deletionRequested
              case _ => d.deletionRequested || (d.indexedHash.None? && d.chunkCount == 0)
  {
    RunKeepsInv(EMPTY, events, rules);
    var s := Run(EMPTY, events, rules);
    if path in s.rows {
      assert RowOk(path, s.rows[path], s.points);
    } else {
      assert forall id | id in s.points :: id.document in s.rows;
    }
  }
}
