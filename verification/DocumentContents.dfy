// What the points of an indexed document contain, and where scanning and indexing together lead.
module DocumentContents {
  import opened Wrappers
  import opened Chunking
  import opened DocumentState
  import opened DocumentInvariants
  import opened Reconciliation
  import opened IndexQueue

  // The points of the document are the chunks of the bytes its content hash stands for.
  ghost predicate Holds(path: Path, bytes: Bytes, points: Points, rules: Rules)
    requires rules.Valid()
  {
    && rules.extracts(path, bytes).Some?
    && Own(points, path) == PointsFor(path, Sha(bytes), Pieces(rules.extracts(path, bytes).value, rules.limits))
  }

  ghost predicate RowFaithful(path: Path, d: Document, points: Points, rules: Rules)
    requires rules.Valid()
  {
    d.knowledge.Indexed? && d.contentHash.Sha? ==> Holds(path, d.contentHash.bytes, points, rules)
  }

  ghost predicate Faithful(rows: Table, points: Points, rules: Rules)
    requires rules.Valid()
  {
    forall p | p in rows :: RowFaithful(p, rows[p], points, rules)
  }

  // If the worker can index the document now, its file still yields the chunks that the bytes it was
  // hashed from yield (if it was hashed): they are the same bytes, or at least read the same.
  ghost predicate SameText(s: State, path: Path, rules: Rules)
    requires rules.Valid()
  {
    path in s.rows && path in s.files && !s.rows[path].deletionRequested && s.rows[path].contentHash.Sha?
    && rules.extracts(path, s.files[path].bytes).Some? ==>
      var hashed := rules.extracts(path, s.rows[path].contentHash.bytes);
      hashed.Some? && Pieces(hashed.value, rules.limits) == Cut(s.files, path, rules)
  }

  // The k-th turn of the round, if it comes to it, ends well by indexing its document.
  ghost predicate IndexedAt(s: State, round: Round, k: nat, rules: Rules)
    requires rules.Valid() && k < |round.batch| == |round.faults| && round.batch[k] in s.rows
  {
    TurnOf(s, round, k, rules).ending.Done? && !s.rows[round.batch[k]].deletionRequested
  }

  // Every document that the round indexes, from its k-th turn on, reads as what was hashed.
  ghost predicate ReadsAsHashed(s: State, round: Round, k: nat, rules: Rules)
    requires rules.Valid() && |round.batch| == |round.faults| && forall p | p in round.batch :: p in s.rows
  {
    forall j | k <= j < |round.batch| && IndexedAt(s, round, j, rules) :: SameText(s, round.batch[j], rules)
  }

  ghost predicate IndexesWhatWasHashed(s: State, e: Event, rules: Rules)
    requires rules.Valid() && Possible(s, e)
  {
    e.action.Work? ==> ReadsAsHashed(s, e.action.round, 0, rules)
  }

  // ---- preservation ---------------------------------------------------------------------------

  lemma ScanOneKeepsFaithful(rows: Table, points: Points, pass: Pass, path: Path, rules: Rules)
    requires rules.Valid() && Faithful(rows, points, rules) && path in pass.files
    ensures Faithful(ScanOne(rows, pass, path, rules), points, rules)
  {
  }

  lemma {:induction false} ScanKeepsFaithful(rows: Table, points: Points, pass: Pass, walk: seq<Path>, rules: Rules)
    requires rules.Valid() && Faithful(rows, points, rules) && forall p | p in walk :: p in pass.files
    ensures Faithful(Scan(rows, pass, walk, rules), points, rules)
  {
    if walk != [] {
      var before := walk[..|walk| - 1];
      ScanKeepsFaithful(rows, points, pass, before, rules);
      ScanOneKeepsFaithful(Scan(rows, pass, before, rules), points, pass, walk[|walk| - 1], rules);
    }
  }

  lemma ReconcileKeepsFaithful(rows: Table, points: Points, pass: Pass, rules: Rules)
    requires rules.Valid() && Faithful(rows, points, rules) && pass.Valid()
    ensures Faithful(Reconciled(rows, pass, rules), points, rules)
  {
    ScanKeepsFaithful(rows, points, pass, pass.walk, rules);
    var scanned, after := Scan(rows, pass, pass.walk, rules), Reconciled(rows, pass, rules);
    forall p | p in after ensures RowFaithful(p, after[p], points, rules) {
      assert RowFaithful(p, scanned[p], points, rules);
    }
  }

  lemma PointsTellPieces(path: Path, hash: Hash, a: seq<Piece>, b: seq<Piece>)
    requires PointsFor(path, hash, a) == PointsFor(path, hash, b)
    ensures a == b
  {
    var left, right := PointsFor(path, hash, a), PointsFor(path, hash, b);
    assert PointId(path, hash, |a|) in left <==> |a| < |a|;
    assert PointId(path, hash, |a|) in right <==> |a| < |b|;
    assert PointId(path, hash, |b|) in left <==> |b| < |a|;
    assert PointId(path, hash, |b|) in right <==> |b| < |b|;
    forall i | 0 <= i < |a| ensures a[i] == b[i] {
      assert left[PointId(path, hash, i)] == a[i];
      assert right[PointId(path, hash, i)] == b[i];
    }
  }

  // After its turn a document is faithful unless it was indexed and reads otherwise.
  lemma TurnRowFaithfulIff(s: State, round: Round, k: nat, rules: Rules)
    requires rules.Valid() && Inv(s) && k < |round.batch| == |round.faults|
    requires round.batch[k] in s.rows && s.rows[round.batch[k]].Queued()
    ensures var path, next := round.batch[k], TakeTurn(s, round, k, rules);
            RowFaithful(path, next.rows[path], next.points, rules) <==>
            (IndexedAt(s, round, k, rules) ==> SameText(s, path, rules))
  {
    var path, next := round.batch[k], TakeTurn(s, round, k, rules);
    var d := s.rows[path];
    assert RowOk(path, d, s.points);
    if IndexedAt(s, round, k, rules) {
      OwnAfterReplace(s.points, path, d.contentHash, Cut(s.files, path, rules));
      IndexedPointsTell(s, next, path, rules);
    }
  }

  lemma IndexedPointsTell(s: State, next: State, path: Path, rules: Rules)
    requires rules.Valid() && path in s.rows && path in s.files && path in next.rows
    requires rules.extracts(path, s.files[path].bytes).Some? && !s.rows[path].deletionRequested
    requires next.rows[path].knowledge.Indexed? && next.rows[path].contentHash == s.rows[path].contentHash
    requires Own(next.points, path) == PointsFor(path, s.rows[path].contentHash, Cut(s.files, path, rules))
    ensures RowFaithful(path, next.rows[path], next.points, rules) <==> SameText(s, path, rules)
  {
    var d := s.rows[path];
    if d.contentHash.Sha? && RowFaithful(path, next.rows[path], next.points, rules) {
      PointsTellPieces(path, d.contentHash, Pieces(rules.extracts(path, d.contentHash.bytes).value, rules.limits),
                       Cut(s.files, path, rules));
    }
  }

  lemma TurnFaithfulIff(s: State, round: Round, k: nat, rules: Rules)
    requires rules.Valid() && Inv(s) && Faithful(s.rows, s.points, rules) && k < |round.batch| == |round.faults|
    requires round.batch[k] in s.rows && s.rows[round.batch[k]].Queued()
    ensures var next := TakeTurn(s, round, k, rules);
            Faithful(next.rows, next.points, rules) <==>
            RowFaithful(round.batch[k], next.rows[round.batch[k]], next.points, rules)
    ensures forall p | p != round.batch[k] :: LeftAlone(s, TakeTurn(s, round, k, rules), p)
  {
    var path, next := round.batch[k], TakeTurn(s, round, k, rules);
    TurnKeepsRow(s.rows[path], path, FileAt(s.files, path), s.points, round.registered, round.faults[k], s.clock,
                 round.At(path), rules);
    forall p | p in next.rows && p != path ensures RowFaithful(p, next.rows[p], next.points, rules) {
      assert RowFaithful(p, s.rows[p], s.points, rules);
      assert Own(next.points, p) == Own(s.points, p);
    }
  }

  lemma {:induction false} ProcessLeaves(s: State, round: Round, k: nat, path: Path, rules: Rules)
    requires rules.Valid() && Inv(s) && k <= |round.batch| == |round.faults| && Distinct(round.batch)
    requires forall p | p in round.batch :: p in s.rows
    requires (forall p | p in round.batch[k..] :: s.rows[p].Queued()) && path !in round.batch[k..]
    ensures LeftAlone(s, Process(s, round, k, rules), path)
    decreases |round.batch| - k
  {
    if k < |round.batch| {
      var first, next := round.batch[k], TakeTurn(s, round, k, rules);
      assert round.batch[k..] == [first] + round.batch[k + 1..];
      DistinctTail(round.batch, k);
      TurnKeepsRow(s.rows[first], first, FileAt(s.files, first), s.points, round.registered, round.faults[k], s.clock,
                   round.At(first), rules);
      TakeTurnKeepsInv(s, round, k, rules);
      if !TurnOf(s, round, k, rules).ending.Stop? {
        ProcessLeaves(next, round, k + 1, path, rules);
      }
    }
  }

  // Without a registration the first turn ends the round, and no later one would have indexed.
  lemma StopIndexesNothing(s: State, round: Round, k: nat, rules: Rules)
    requires rules.Valid() && Inv(s) && k < |round.batch| == |round.faults| && forall p | p in round.batch :: p in s.rows
    requires forall p | p in round.batch[k..] :: s.rows[p].Queued()
    requires TurnOf(s, round, k, rules).ending.Stop?
    ensures ReadsAsHashed(s, round, k, rules)
  {
    assert !round.registered;
    forall j | k <= j < |round.batch| ensures !IndexedAt(s, round, j, rules) {
      assert round.batch[j] in round.batch[k..];
      assert RowOk(round.batch[j], s.rows[round.batch[j]], s.points);
    }
  }

  lemma LaterTurnAlike(s: State, next: State, round: Round, j: nat, rules: Rules)
    requires rules.Valid() && j < |round.batch| == |round.faults| && round.batch[j] in s.rows && round.batch[j] in next.rows
    requires next.rows[round.batch[j]] == s.rows[round.batch[j]] && next.files == s.files
    ensures IndexedAt(next, round, j, rules) <==> IndexedAt(s, round, j, rules)
    ensures SameText(next, round.batch[j], rules) <==> SameText(s, round.batch[j], rules)
  {
  }

  lemma LaterTurnsAlike(s: State, next: State, round: Round, k: nat, rules: Rules)
    requires rules.Valid() && k < |round.batch| == |round.faults| && next.files == s.files
    requires forall p | p in round.batch :: p in s.rows && p in next.rows
    requires forall p | p in round.batch[k + 1..] :: next.rows[p] == s.rows[p]
    ensures ReadsAsHashed(next, round, k + 1, rules) <==> ReadsAsHashed(s, round, k + 1, rules)
  {
    forall j | k + 1 <= j < |round.batch|
      ensures IndexedAt(next, round, j, rules) <==> IndexedAt(s, round, j, rules)
      ensures SameText(next, round.batch[j], rules) <==> SameText(s, round.batch[j], rules)
    {
      assert round.batch[j] in round.batch[k + 1..];
      LaterTurnAlike(s, next, round, j, rules);
    }
  }

  lemma UnfaithfulStays(s: State, round: Round, k: nat, path: Path, rules: Rules)
    requires rules.Valid() && Inv(s) && k <= |round.batch| == |round.faults| && Distinct(round.batch)
    requires forall p | p in round.batch :: p in s.rows
    requires (forall p | p in round.batch[k..] :: s.rows[p].Queued()) && path !in round.batch[k..]
    requires path in s.rows && !RowFaithful(path, s.rows[path], s.points, rules)
    ensures !Faithful(Process(s, round, k, rules).rows, Process(s, round, k, rules).points, rules)
  {
    ProcessLeaves(s, round, k, path, rules);
    var after := Process(s, round, k, rules);
    assert path in after.rows && !RowFaithful(path, after.rows[path], after.points, rules);
  }

  lemma ReadsSplits(s: State, round: Round, k: nat, rules: Rules)
    requires rules.Valid() && k < |round.batch| == |round.faults| && forall p | p in round.batch :: p in s.rows
    ensures ReadsAsHashed(s, round, k, rules) <==>
            (IndexedAt(s, round, k, rules) ==> SameText(s, round.batch[k], rules)) && ReadsAsHashed(s, round, k + 1, rules)
  {
  }

  // One turn: what it makes of the store, and of the rest of the round.
  lemma TurnIff(s: State, next: State, round: Round, k: nat, rules: Rules)
    requires rules.Valid() && Inv(s) && Faithful(s.rows, s.points, rules)
    requires k < |round.batch| == |round.faults| && Distinct(round.batch)
    requires forall p | p in round.batch :: p in s.rows
    requires (forall p | p in round.batch[k..] :: s.rows[p].Queued()) && next == TakeTurn(s, round, k, rules)
    ensures Inv(next) && (forall p | p in round.batch :: p in next.rows)
    ensures round.batch[k] !in round.batch[k + 1..] && forall p | p in round.batch[k + 1..] :: next.rows[p].Queued()
    ensures RowFaithful(round.batch[k], next.rows[round.batch[k]], next.points, rules)
            <==> Faithful(next.rows, next.points, rules)
    ensures ReadsAsHashed(s, round, k, rules) <==>
            Faithful(next.rows, next.points, rules) && ReadsAsHashed(next, round, k + 1, rules)
  {
    assert round.batch[k..] == [round.batch[k]] + round.batch[k + 1..];
    DistinctTail(round.batch, k);
    TurnRowFaithfulIff(s, round, k, rules);
    TurnFaithfulIff(s, round, k, rules);
    TakeTurnKeepsInv(s, round, k, rules);
    LaterTurnsAlike(s, next, round, k, rules);
    ReadsSplits(s, round, k, rules);
  }

  lemma {:induction false} ProcessFaithfulIff(s: State, round: Round, k: nat, rules: Rules)
    requires rules.Valid() && Inv(s) && Faithful(s.rows, s.points, rules)
    requires k <= |round.batch| == |round.faults| && Distinct(round.batch)
    requires forall p | p in round.batch :: p in s.rows
    requires forall p | p in round.batch[k..] :: s.rows[p].Queued()
    ensures Faithful(Process(s, round, k, rules).rows, Process(s, round, k, rules).points, rules) <==>
            ReadsAsHashed(s, round, k, rules)
    decreases |round.batch| - k
  {
    if k < |round.batch| {
      var next := TakeTurn(s, round, k, rules);
      TurnIff(s, next, round, k, rules);
      if TurnOf(s, round, k, rules).ending.Stop? {
        StopIndexesNothing(s, round, k, rules);
      } else if Faithful(next.rows, next.points, rules) {
        ProcessFaithfulIff(next, round, k + 1, rules);
      } else {
        UnfaithfulStays(next, round, k + 1, round.batch[k], rules);
      }
    }
  }

  lemma StepKeepsFaithful(s: State, e: Event, rules: Rules)
    requires rules.Valid() && Inv(s) && Faithful(s.rows, s.points, rules) && Possible(s, e)
    requires IndexesWhatWasHashed(s, e, rules)
    ensures Faithful(Step(s, e, rules).rows, Step(s, e, rules).points, rules)
  {
    match e.action
    case Copy(path, file) =>
    case Remove(path) =>
    case Upload(path, file, allowed) =>
      UpsertKeepsFaithful(s.rows, s.points, path, file, e.now, rules);
    case Delete(path, allowed) =>
    case Retry(path) =>
    case Reconcile(pass) =>
      ReconcileKeepsFaithful(s.rows, s.points, pass, rules);
    case Work(limit, round) =>
      assert round.batch[0..] == round.batch;
      ProcessFaithfulIff(s, round, 0, rules);
  }

  lemma UpsertKeepsFaithful(rows: Table, points: Points, path: Path, file: File, now: int, rules: Rules)
    requires rules.Valid() && Faithful(rows, points, rules)
    ensures Faithful(rows[path := UpsertRow(Row(rows, path), file, now)], points, rules)
  {
  }

  ghost predicate CarefulRun(s: State, events: seq<Event>, rules: Rules)
    requires rules.Valid()
    decreases |events|
  {
    events == [] ||
    (&& Possible(s, events[0]) && IndexesWhatWasHashed(s, events[0], rules)
     && CarefulRun(Step(s, events[0], rules), events[1..], rules))
  }

  // Over every run in which no file comes to read otherwise between its hashing and its indexing, an indexed
  // document's points are exactly the chunks of the bytes it was hashed from.
  lemma {:induction false} RunKeepsFaithful(s: State, events: seq<Event>, rules: Rules)
    requires rules.Valid() && Inv(s) && Faithful(s.rows, s.points, rules) && CarefulRun(s, events, rules)
    ensures Runs(s, events, rules)
    ensures Faithful(Run(s, events, rules).rows, Run(s, events, rules).points, rules)
    decreases |events|
  {
    if events != [] {
      StepKeepsInv(s, events[0], rules);
      StepKeepsFaithful(s, events[0], rules);
      RunKeepsFaithful(Step(s, events[0], rules), events[1..], rules);
    }
  }

  // A document that was served is faithful exactly when its file read as the hashed bytes do.
  lemma ServedFaithfulIff(s: State, after: State, path: Path, now: int, rules: Rules)
    requires rules.Valid() && Served(s, after, path, now, rules) && Processable(s.rows, s.files, path, rules)
    ensures RowFaithful(path, after.rows[path], after.points, rules) <==> SameText(s, path, rules)
  {
    if !s.rows[path].deletionRequested {
      IndexedPointsTell(s, after, path, rules);
    }
  }

  // The condition is exact: a round keeps the store faithful, whatever the store answers and wherever
  // the round stops, if and only if every document that it indexes still reads as what was hashed.
  lemma RoundFaithfulIff(s: State, limit: nat, round: Round, rules: Rules)
    requires rules.Valid() && Inv(s) && Faithful(s.rows, s.points, rules)
    requires |round.batch| == |round.faults| && OldestFirst(s.rows, limit, round.batch)
    ensures var after := Process(s, round, 0, rules);
            Faithful(after.rows, after.points, rules) <==> ReadsAsHashed(s, round, 0, rules)
  {
    assert round.batch[0..] == round.batch;
    ProcessFaithfulIff(s, round, 0, rules);
  }

  // A file hashed as `was`, overwritten before the worker reads it, and then put back with its old
  // size and time: no later pass notices, and the document is faithful only if the bytes that were
  // indexed read as those of `was`.
  lemma OverwrittenWhileQueuedStaysWrong(s: State, path: Path, was: File, round: Round, pass: Pass, rules: Rules)
    requires rules.Valid() && Inv(s) && Smooth(round) && round.batch == [path] && path.composed
    requires path in s.rows && s.rows[path].knowledge.Pending? && !s.rows[path].deletionRequested
    requires s.rows[path].contentHash == Sha(was.bytes)
    requires path in s.files && rules.extracts(path, s.files[path].bytes).Some?
    requires pass.Valid() && pass.churning == {} && pass.files == s.files[path := was]
    requires OwnRowsOnly(Process(s, round, 0, rules).rows, pass, rules)
    ensures var indexed := Process(s, round, 0, rules);
            var later := Reconciled(indexed.rows, pass, rules);
            && path in later && later[path].knowledge.Indexed? && later[path].contentHash == Sha(was.bytes)
            && (RowFaithful(path, later[path], indexed.points, rules) <==> SameText(s, path, rules))
  {
    SmoothTurn(s, round, 0, rules);
    var indexed := TakeTurn(s, round, 0, rules);
    assert Process(indexed, round, 1, rules) == indexed;
    assert Process(s, round, 0, rules) == indexed;
    ServedFaithfulIff(s, indexed, path, round.At(path), rules);
    ScanIsRowByRow(indexed.rows, pass, pass.walk, path, rules);
    ScanKeepsIndexed(indexed.rows[path], path, was, pass.now, pass.At(path), rules);
  }

  lemma ScanKeepsIndexed(d: Document, path: Path, file: File, now: int, stamp: int, rules: Rules)
    requires d.knowledge.Indexed? && d.contentHash == Sha(file.bytes) && !d.deletionRequested
    ensures var later := Settled(Some(d), path, file, false, now, stamp, rules);
            later.knowledge.Indexed? && later.contentHash == d.contentHash
  {
  }

  lemma OneLetter(c: char, limits: Limits)
    requires limits.Sound() && !IsSpace(c)
    ensures Pieces([[c]], limits) == [Piece([c], 0)]
  {
    var text := [c];
    assert Strip(text, Span(0, 1)) == Span(0, 1);
    assert Content(text, Span(0, 1)) == text[0..1] == text;
    assert PiecesFrom(text, 0, 0, limits) == Emitted(text, Span(0, 1), 0) == [Piece(text, 0)];
    assert PiecesOf([text], 0, limits) == [];
  }

  lemma RunOfOneMore(s: State, e: Event, rest: seq<Event>, rules: Rules)
    requires rules.Valid() && Possible(s, e) && Runs(Step(s, e, rules), rest, rules)
    ensures Runs(s, [e] + rest, rules) && Run(s, [e] + rest, rules) == Run(Step(s, e, rules), rest, rules)
  {
    assert ([e] + rest)[1..] == rest;
  }

  // "a" uploaded, and "b" copied over it.
  ghost function CopiedOver(path: Path): State {
    State(map[path := UpsertRow(None, File("a", 0), 1)], map[path := File("b", 0)], map[], 2)
  }

  lemma UploadThenCopy(path: Path, rules: Rules)
    requires rules.Valid() && path.composed && rules.inspects(path, "a")
    ensures var uploaded := Step(EMPTY, Event(1, Upload(path, File("a", 0), true)), rules);
            Step(uploaded, Event(2, Copy(path, File("b", 0))), rules) == CopiedOver(path)
    ensures Inv(CopiedOver(path)) && OldestFirst(CopiedOver(path).rows, 1, [path])
  {
    var upload := Event(1, Upload(path, File("a", 0), true));
    var uploaded := Step(EMPTY, upload, rules);
    assert uploaded == State(map[path := UpsertRow(None, File("a", 0), 1)], map[path := File("a", 0)], map[], 1);
    StepKeepsInv(EMPTY, upload, rules);
    StepKeepsInv(uploaded, Event(2, Copy(path, File("b", 0))), rules);
    assert Queue(CopiedOver(path).rows) == {path};
    assert |{path}| == 1 && [path][..0] == [];
  }

  lemma ReadsOtherwise(path: Path, rules: Rules)
    requires rules.Valid()
    requires rules.extracts(path, "a") == Some(["a"]) && rules.extracts(path, "b") == Some(["b"])
    ensures Cut(CopiedOver(path).files, path, rules) == [Piece("b", 0)] && !SameText(CopiedOver(path), path, rules)
  {
    OneLetter('a', rules.limits);
    OneLetter('b', rules.limits);
    assert [Piece("a", 0)][0].content[0] != [Piece("b", 0)][0].content[0];
  }

  // The path's file is "a" again, its row is indexed under the hash of "a", and its point reads "b".
  ghost predicate ServesWrong(s: State, path: Path, rules: Rules)
    requires rules.Valid()
  {
    && path in s.files && path in s.rows && s.files[path] == File("a", 0)
    && s.rows[path].knowledge.Indexed? && s.rows[path].contentHash == Sha("a")
    && Own(s.points, path) == PointsFor(path, Sha("a"), [Piece("b", 0)])
    && !RowFaithful(path, s.rows[path], s.points, rules)
  }

  // The scan after the window, with "a" back in its place.
  ghost function Restored(path: Path, rules: Rules): Pass {
    Pass(map[path := File("a", 0)], [path], {}, 4 + rules.stability, 4 + rules.stability, map[])
  }

  // What that scan makes of the table of a state.
  ghost function Rescanned(s: State, path: Path, rules: Rules): State
    requires Restored(path, rules).Valid()
  {
    State(Reconciled(s.rows, Restored(path, rules), rules), map[path := File("a", 0)], s.points, 0)
  }

  lemma RestoredIsValid(path: Path, rules: Rules)
    ensures Restored(path, rules).Valid()
  {
    assert [path][..0] == [];
  }

  lemma IndexThenRestore(path: Path, round: Round, rules: Rules)
    requires rules.Valid() && path.composed && round == Round([path], [Healthy], true, 3, map[])
    requires rules.extracts(path, "a") == Some(["a"]) && rules.extracts(path, "b") == Some(["b"])
    requires Inv(CopiedOver(path)) && Restored(path, rules).Valid()
    ensures var indexed := Process(CopiedOver(path), round, 0, rules);
            indexed.files == CopiedOver(path).files && ServesWrong(Rescanned(indexed, path, rules), path, rules)
  {
    ReadsOtherwise(path, rules);
    assert [path][..0] == [] && [path][0..] == [path];
    assert Restored(path, rules).files == CopiedOver(path).files[path := File("a", 0)];
    OverwrittenWhileQueuedStaysWrong(CopiedOver(path), path, File("a", 0), round, Restored(path, rules), rules);
    SmoothRound(CopiedOver(path), round, 0, path, rules);
  }

  // "a" is copied back as it was, and a scan follows after the window.
  ghost function Afterwards(path: Path, rules: Rules): seq<Event> {
    [Event(4, Copy(path, File("a", 0)))] + ([Event(4 + rules.stability, Reconcile(Restored(path, rules)))] + [])
  }

  // The last two events, from any state in which the scan finds the document as described.
  lemma CopyBackThenScan(s: State, path: Path, rules: Rules)
    requires rules.Valid() && s.files == map[path := File("b", 0)] && Restored(path, rules).Valid()
    requires ServesWrong(Rescanned(s, path, rules), path, rules)
    ensures Runs(s, Afterwards(path, rules), rules) && ServesWrong(Run(s, Afterwards(path, rules), rules), path, rules)
  {
    var back, scan := Event(4, Copy(path, File("a", 0))), Event(4 + rules.stability, Reconcile(Restored(path, rules)));
    var restored := Step(s, back, rules);
    assert restored.files == map[path := File("a", 0)];
    RunOfOneMore(restored, scan, [], rules);
    RunOfOneMore(s, back, [scan] + [], rules);
  }

  lemma WorkIsProcess(s: State, round: Round, rules: Rules)
    requires rules.Valid() && round.Valid() && OldestFirst(s.rows, 1, round.batch)
    ensures Possible(s, Event(round.now, Work(1, round)))
    ensures Step(s, Event(round.now, Work(1, round)), rules)
            == Process(s, round, 0, rules).(clock := Max(s.clock, round.now))
  {
  }

  // The worker's round, as an event.
  lemma WorkThenRestore(path: Path, work: Event, rules: Rules)
    requires rules.Valid() && path.composed && work == Event(3, Work(1, Round([path], [Healthy], true, 3, map[])))
    requires rules.extracts(path, "a") == Some(["a"]) && rules.extracts(path, "b") == Some(["b"])
    requires Inv(CopiedOver(path)) && OldestFirst(CopiedOver(path).rows, 1, [path]) && Restored(path, rules).Valid()
    ensures Possible(CopiedOver(path), work)
    ensures var next := Step(CopiedOver(path), work, rules);
            next.files == map[path := File("b", 0)] && ServesWrong(Rescanned(next, path, rules), path, rules)
  {
    IndexThenRestore(path, work.action.round, rules);
    WorkIsProcess(CopiedOver(path), work.action.round, rules);
  }

  lemma WorkServesWrong(path: Path, work: Event, rules: Rules)
    requires rules.Valid() && path.composed && work == Event(3, Work(1, Round([path], [Healthy], true, 3, map[])))
    requires rules.extracts(path, "a") == Some(["a"]) && rules.extracts(path, "b") == Some(["b"])
    requires Inv(CopiedOver(path)) && OldestFirst(CopiedOver(path).rows, 1, [path])
    ensures Runs(CopiedOver(path), [work] + Afterwards(path, rules), rules)
    ensures ServesWrong(Run(CopiedOver(path), [work] + Afterwards(path, rules), rules), path, rules)
  {
    RestoredIsValid(path, rules);
    WorkThenRestore(path, work, rules);
    CopyBackThenScan(Step(CopiedOver(path), work, rules), path, rules);
    RunOfOneMore(CopiedOver(path), work, Afterwards(path, rules), rules);
  }

  // It happens, from the empty table on: "a" is uploaded, "b" is copied over it, the worker comes by,
  // "a" is copied back as it was, and a scan after the window finds nothing amiss.
  lemma RestoredFileIsServedWrong(path: Path, rules: Rules)
    requires rules.Valid() && path.composed && rules.inspects(path, "a")
    requires rules.extracts(path, "a") == Some(["a"]) && rules.extracts(path, "b") == Some(["b"])
    ensures var events := [Event(1, Upload(path, File("a", 0), true))]
                          + ([Event(2, Copy(path, File("b", 0)))]
                             + ([Event(3, Work(1, Round([path], [Healthy], true, 3, map[])))] + Afterwards(path, rules)));
            Runs(EMPTY, events, rules) && ServesWrong(Run(EMPTY, events, rules), path, rules)
  {
    var upload, over := Event(1, Upload(path, File("a", 0), true)), Event(2, Copy(path, File("b", 0)));
    var work, rest := Event(3, Work(1, Round([path], [Healthy], true, 3, map[]))), Afterwards(path, rules);
    UploadThenCopy(path, rules);
    WorkServesWrong(path, work, rules);
    RunOfOneMore(Step(EMPTY, upload, rules), over, [work] + rest, rules);
    RunOfOneMore(EMPTY, upload, [over] + ([work] + rest), rules);
  }

  // ---- convergence ----------------------------------------------------------------------------

  // A file at the path, if there is one, is composed, supported and parses.
  ghost predicate Indexable(files: map<Path, File>, path: Path, rules: Rules) {
    path in files ==>
      path.composed && rules.inspects(path, files[path].bytes) && rules.extracts(path, files[path].bytes).Some?
  }

  // The points the store should hold for a path: the chunks of its file, unless there is none or
  // its document was deleted through the connector.
  ghost predicate StoreMirrors(points: Points, files: map<Path, File>, rows: Table, path: Path, rules: Rules)
    requires rules.Valid()
  {
    if path in files && !(path in rows && rows[path].deletionRequested)
    then Holds(path, files[path].bytes, points, rules)
    else Own(points, path) == map[]
  }

  // Rounds keep a document faithful whose file reads as what was hashed, its hash and its deletion
  // mark, whatever becomes of the others.
  lemma {:induction false} RoundsKeepRow(s: State, limit: nat, rounds: seq<Round>, path: Path, rules: Rules)
    requires rules.Valid() && Inv(s) && SmoothRun(s, limit, rounds, rules)
    requires path in s.rows && RowFaithful(path, s.rows[path], s.points, rules) && SameText(s, path, rules)
    ensures var after := AfterRounds(s, limit, rounds, rules);
            && path in after.rows && RowFaithful(path, after.rows[path], after.points, rules)
            && SameSource(s.rows[path], after.rows[path])
    decreases |rounds|
  {
    if rounds != [] {
      var round, next := rounds[0], Process(s, rounds[0], 0, rules);
      assert round.batch[0..] == round.batch;
      SmoothRoundDrains(s, limit, round, rules);
      SmoothRound(s, round, 0, path, rules);
      if path in round.batch && Processable(s.rows, s.files, path, rules) {
        ServedFaithfulIff(s, next, path, round.At(path), rules);
      }
      RoundsKeepRow(next, limit, rounds[1..], path, rules);
    }
  }

  ghost predicate SameSource(a: Document, b: Document) {
    a.contentHash == b.contentHash && a.deletionRequested == b.deletionRequested
  }

  ghost function Scanned(s: State, first: Pass, second: Pass, rules: Rules): State
    requires first.Valid() && second.Valid()
  {
    s.(rows := StableReconcile(s.rows, first, second, rules), clock := second.end)
  }

  // What a stable scan of a quiet directory leaves to the worker.
  lemma ScannedState(s: State, first: Pass, second: Pass, rules: Rules)
    requires rules.Valid() && Inv(s) && Faithful(s.rows, s.points, rules)
    requires Plain(s.rows, s.files, rules)
    requires first.files == s.files && Quiet(first, second)
    requires s.clock <= first.now && second.now >= first.end + rules.stability
    ensures var scanned := Scanned(s, first, second, rules);
            && Inv(scanned) && Faithful(scanned.rows, scanned.points, rules)
            && forall p :: ScannedRow(s, scanned, p, rules)
  {
    ScanKeepsState(s, first, second, rules);
    StableReconcileSettles(s.rows, first, second, rules);
  }

  lemma ScanKeepsState(s: State, first: Pass, second: Pass, rules: Rules)
    requires rules.Valid() && Inv(s) && Faithful(s.rows, s.points, rules)
    requires first.Valid() && second.Valid() && s.clock <= first.now && first.end <= second.now
    ensures Inv(Scanned(s, first, second, rules))
    ensures Faithful(Scanned(s, first, second, rules).rows, s.points, rules)
  {
    var once := Reconciled(s.rows, first, rules);
    ReconcileKeepsTable(s.rows, s.points, second.end, first, rules);
    ReconcileKeepsTable(once, s.points, second.end, second, rules);
    ReconcileKeepsFaithful(s.rows, s.points, first, rules);
    ReconcileKeepsFaithful(once, s.points, second, rules);
  }

  // The row of one path after the scan: marked deleted exactly where it was or its file is gone, and
  // otherwise hashed from the file if that is one to index.
  ghost predicate ScannedRow(s: State, scanned: State, path: Path, rules: Rules) {
    if path in s.files then
      && path in scanned.rows
      && (scanned.rows[path].deletionRequested <==> path in s.rows && s.rows[path].deletionRequested)
      && (Indexable(s.files, path, rules) && !scanned.rows[path].deletionRequested ==>
            scanned.rows[path].contentHash == Sha(s.files[path].bytes))
    else path in scanned.rows ==> scanned.rows[path].deletionRequested
  }

  // Scanning and indexing together reach the directory: after one stable scan of a directory that
  // stays as it is, and enough smooth rounds that load more documents than are stuck, the store
  // holds for every path with an indexable file exactly the chunks of its current bytes, and nothing
  // for a path without a file or a document that was deleted; unsupported and unparseable files
  // elsewhere do not matter.
  lemma ScanThenIndexConverges(s: State, first: Pass, second: Pass, limit: nat, rounds: seq<Round>, rules: Rules)
    requires rules.Valid() && Inv(s) && Faithful(s.rows, s.points, rules)
    requires Plain(s.rows, s.files, rules)
    requires first.files == s.files && Quiet(first, second)
    requires s.clock <= first.now && second.now >= first.end + rules.stability
    requires var scanned := Scanned(s, first, second, rules);
             var stuck := |Stuck(scanned.rows, scanned.files, rules)|;
             && SmoothRun(scanned, limit, rounds, rules) && stuck <= limit
             && |rounds| * (limit - stuck) >= |Readable(scanned.rows, scanned.files, rules)|
    ensures var scanned := Scanned(s, first, second, rules);
            var after := AfterRounds(scanned, limit, rounds, rules);
            && Queue(after.rows) == Stuck(scanned.rows, scanned.files, rules)
            && forall p | Indexable(s.files, p, rules) :: StoreMirrors(after.points, s.files, s.rows, p, rules)
  {
    var scanned := Scanned(s, first, second, rules);
    ScannedState(s, first, second, rules);
    RoundsDrainTheQueue(scanned, limit, rounds, rules);
    var after := AfterRounds(scanned, limit, rounds, rules);
    forall p | Indexable(s.files, p, rules) ensures StoreMirrors(after.points, s.files, s.rows, p, rules) {
      assert ScannedRow(s, scanned, p, rules);
      if p in scanned.rows {
        assert RowFaithful(p, scanned.rows[p], scanned.points, rules) && SameText(scanned, p, rules);
        RoundsKeepRow(scanned, limit, rounds, p, rules);
      }
      QuietRowMirrors(s, scanned, after, p, rules);
    }
  }

  lemma QuietRowMirrors(s: State, scanned: State, after: State, path: Path, rules: Rules)
    requires rules.Valid() && Inv(after)
    requires path in after.rows ==> RowFaithful(path, after.rows[path], after.points, rules)
    requires Queue(after.rows) == Stuck(scanned.rows, scanned.files, rules)
    requires after.rows.Keys == scanned.rows.Keys && scanned.files == s.files
    requires path in scanned.rows ==> SameSource(scanned.rows[path], after.rows[path])
    requires Indexable(s.files, path, rules) && ScannedRow(s, scanned, path, rules)
    ensures StoreMirrors(after.points, s.files, s.rows, path, rules)
  {
    if path in after.rows {
      var d := after.rows[path];
      assert path !in Queue(after.rows);
      assert RowOk(path, d, after.points);
    } else {
      assert Own(after.points, path) == map[];
    }
  }
}
