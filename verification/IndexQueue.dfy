// What rounds of the index worker achieve: draining, starvation, and the store's totals.
module IndexQueue {
  import opened Chunking
  import opened DocumentState
  import opened DocumentInvariants

  // The worker can finish this document: it is to be deleted, or its file is there and parses.
  predicate Processable(rows: Table, files: map<Path, File>, path: Path, rules: Rules) {
    && path in rows
    && (rows[path].deletionRequested
        || (path in files && rules.extracts(path, files[path].bytes).Some?))
  }

  function Readable(rows: Table, files: map<Path, File>, rules: Rules): set<Path> {
    set p | p in Queue(rows) && Processable(rows, files, p, rules)
  }

  function Stuck(rows: Table, files: map<Path, File>, rules: Rules): set<Path> {
    set p | p in Queue(rows) && !Processable(rows, files, p, rules)
  }

  // The connector is registered and the store answers every request.
  ghost predicate Smooth(round: Round) {
    && round.registered && |round.batch| == |round.faults|
    && forall k | 0 <= k < |round.faults| :: round.faults[k].Healthy?
  }

  function FailedRow(d: Document, now: int): Document {
    d.Touched(d.(knowledge := Failed, error := Unavailable, local := IndexFailed), now)
  }

  // The chunks the worker cuts from the document's file.
  ghost function Cut(files: map<Path, File>, path: Path, rules: Rules): seq<Piece>
    requires rules.Valid() && path in files && rules.extracts(path, files[path].bytes).Some?
  {
    Pieces(rules.extracts(path, files[path].bytes).value, rules.limits)
  }

  // What a smooth round makes of one document of its batch.
  ghost predicate Served(s: State, after: State, path: Path, now: int, rules: Rules)
    requires rules.Valid()
  {
    && path in s.rows && path in after.rows
    && var d, e := s.rows[path], after.rows[path];
    && e.contentHash == d.contentHash && e.deletionRequested == d.deletionRequested
    && if d.deletionRequested then e.knowledge.Deleted? && Own(after.points, path) == map[]
       else if Processable(s.rows, s.files, path, rules) then
         && e.knowledge.Indexed?
         && Own(after.points, path) == PointsFor(path, d.contentHash, Cut(s.files, path, rules))
       else e == FailedRow(d, now) && Own(after.points, path) == Own(s.points, path)
  }

  ghost predicate LeftAlone(s: State, after: State, path: Path) {
    && Row(after.rows, path) == Row(s.rows, path)
    && Own(after.points, path) == Own(s.points, path)
  }

  lemma SmoothTurn(s: State, round: Round, k: nat, rules: Rules)
    requires rules.Valid() && Inv(s) && Smooth(round) && k < |round.batch|
    requires round.batch[k] in s.rows && s.rows[round.batch[k]].Queued()
    ensures var path, next := round.batch[k], TakeTurn(s, round, k, rules);
            && !TurnOf(s, round, k, rules).ending.Stop?
            && Served(s, next, path, round.At(path), rules)
            && forall p | p != path :: LeftAlone(s, next, p)
    ensures TurnOf(s, round, k, rules).ending.Done? <==> Processable(s.rows, s.files, round.batch[k], rules)
  {
    var path := round.batch[k];
    OwnAfterWithout(s.points, path);
    if path in s.files && rules.extracts(path, s.files[path].bytes).Some? {
      OwnAfterReplace(s.points, path, s.rows[path].contentHash, Cut(s.files, path, rules));
    }
  }

  // The first turn of a smooth round, and what it leaves to the others.
  lemma SmoothFirst(s: State, next: State, round: Round, k: nat, rules: Rules)
    requires rules.Valid() && Inv(s) && Smooth(round) && k < |round.batch| && Distinct(round.batch)
    requires forall p | p in round.batch :: p in s.rows
    requires (forall p | p in round.batch[k..] :: s.rows[p].Queued()) && next == TakeTurn(s, round, k, rules)
    ensures Inv(next) && next.files == s.files && forall p | p in round.batch :: p in next.rows
    ensures round.batch[k..] == [round.batch[k]] + round.batch[k + 1..] && round.batch[k] !in round.batch[k + 1..]
    ensures forall p | p in round.batch[k + 1..] :: next.rows[p] == s.rows[p] && next.rows[p].Queued()
    ensures !TurnOf(s, round, k, rules).ending.Stop? && Served(s, next, round.batch[k], round.At(round.batch[k]), rules)
    ensures forall p | p != round.batch[k] :: LeftAlone(s, next, p)
    ensures TurnOf(s, round, k, rules).ending.Done? <==> Processable(s.rows, s.files, round.batch[k], rules)
  {
    assert round.batch[k..] == [round.batch[k]] + round.batch[k + 1..];
    DistinctTail(round.batch, k);
    SmoothTurn(s, round, k, rules);
    TakeTurnKeepsInv(s, round, k, rules);
  }

  // A smooth round serves every document of its batch, each as if alone, and leaves the rest.
  lemma {:induction false} SmoothRound(s: State, round: Round, k: nat, path: Path, rules: Rules)
    requires rules.Valid() && Inv(s) && Smooth(round) && k <= |round.batch| && Distinct(round.batch)
    requires forall p | p in round.batch :: p in s.rows
    requires forall p | p in round.batch[k..] :: s.rows[p].Queued()
    ensures Process(s, round, k, rules).files == s.files
    ensures if path in round.batch[k..] then Served(s, Process(s, round, k, rules), path, round.At(path), rules)
            else LeftAlone(s, Process(s, round, k, rules), path)
    decreases |round.batch| - k
  {
    if k < |round.batch| {
      var next := TakeTurn(s, round, k, rules);
      SmoothFirst(s, next, round, k, rules);
      SmoothRound(next, round, k + 1, path, rules);
      Compose(s, next, Process(next, round, k + 1, rules), path, round.At(path), rules);
    }
  }

  lemma Compose(s: State, next: State, after: State, path: Path, now: int, rules: Rules)
    requires rules.Valid() && next.files == s.files
    ensures Served(s, next, path, now, rules) && LeftAlone(next, after, path) ==> Served(s, after, path, now, rules)
    ensures LeftAlone(s, next, path) && Served(next, after, path, now, rules) ==> Served(s, after, path, now, rules)
    ensures LeftAlone(s, next, path) && LeftAlone(next, after, path) ==> LeftAlone(s, after, path)
  {
  }

  // ---- rounds that are not smooth -------------------------------------------------------------

  // Without a registration a round leaves its first document pending, with the reason, and touches
  // nothing else: no other row, and no point.
  lemma UnregisteredRound(s: State, limit: nat, round: Round, rules: Rules)
    requires rules.Valid() && Inv(s) && |round.batch| == |round.faults| && OldestFirst(s.rows, limit, round.batch)
    requires !round.registered && round.batch != []
    ensures Processed(s, round, 0, rules) == 0
    ensures var after, first := Process(s, round, 0, rules), round.batch[0];
            && after.points == s.points && after.files == s.files && after.rows.Keys == s.rows.Keys
            && (forall p | p in s.rows && p != first :: after.rows[p] == s.rows[p])
            && after.rows[first].knowledge.Pending? && after.rows[first].error.RegistrationRequired?
            && after.rows[first].contentHash == s.rows[first].contentHash
            && after.rows[first].indexedHash == s.rows[first].indexedHash
            && after.rows[first].local == s.rows[first].local
            && after.rows[first].deletionRequested == s.rows[first].deletionRequested
  {
    var first := round.batch[0];
    assert first in round.batch;
    assert RowOk(first, s.rows[first], s.points);
    assert TurnOf(s, round, 0, rules).ending.Stop?;
  }

  // What a store failure leaves of the document's points: none once the old ones are deleted, or all
  // the new ones where the failing request was applied.
  ghost predicate Interrupted(before: Points, after: Points, d: Document, path: Path, pieces: seq<Piece>, fault: StoreFault) {
    match fault
    case Healthy => true
    case DeleteFails(applied) => Own(after, path) == if applied then map[] else Own(before, path)
    case UpsertFails(applied) => Own(after, path) == if applied then PointsFor(path, d.contentHash, pieces) else map[]
  }

  // A registered turn with a store failure: the document is marked as failed, or, where the failing
  // request is one it does not make, served all the same.
  lemma FaultyTurn(s: State, round: Round, k: nat, rules: Rules)
    requires rules.Valid() && Inv(s) && round.registered && k < |round.batch| == |round.faults|
    requires round.batch[k] in s.rows && s.rows[round.batch[k]].Queued() && !round.faults[k].Healthy?
    ensures var path, next, fault := round.batch[k], TakeTurn(s, round, k, rules), round.faults[k];
            var d, at := s.rows[path], round.At(path);
            && !TurnOf(s, round, k, rules).ending.Stop?
            && if d.deletionRequested then
                 if fault.UpsertFails? then next.rows[path].knowledge.Deleted? && Own(next.points, path) == map[]
                 else next.rows[path] == FailedRow(d, at) && Interrupted(s.points, next.points, d, path, [], fault)
               else if !Processable(s.rows, s.files, path, rules) then
                 next.rows[path] == FailedRow(d, at) && next.points == s.points
               else
                 var pieces := Cut(s.files, path, rules);
                 if fault.UpsertFails? && pieces == []
                 then next.rows[path].knowledge.Indexed? && Own(next.points, path) == map[]
                 else next.rows[path] == FailedRow(d, at) && Interrupted(s.points, next.points, d, path, pieces, fault)
  {
    var path := round.batch[k];
    var d := s.rows[path];
    assert RowOk(path, d, s.points);
    OwnAfterWithout(s.points, path);
    if path in s.files && rules.extracts(path, s.files[path].bytes).Some? {
      OwnAfterReplace(s.points, path, d.contentHash, Cut(s.files, path, rules));
    }
  }

  function Finishable(rows: Table, files: map<Path, File>, paths: seq<Path>, rules: Rules): set<Path> {
    set p | p in paths && Processable(rows, files, p, rules)
  }

  lemma FinishableSplits(rows: Table, files: map<Path, File>, head: Path, rest: seq<Path>, rules: Rules)
    ensures Finishable(rows, files, [head] + rest, rules)
            == Finishable(rows, files, rest, rules) + if Processable(rows, files, head, rules) then {head} else {}
  {
  }

  lemma FinishableAlike(rows: Table, next: Table, files: map<Path, File>, paths: seq<Path>, rules: Rules)
    requires forall p | p in paths :: p in rows && p in next && next[p] == rows[p]
    ensures Finishable(next, files, paths, rules) == Finishable(rows, files, paths, rules)
  {
  }

  // The number a smooth round reports is that of the documents it could process.
  lemma {:induction false} ProcessedAreProcessable(s: State, round: Round, k: nat, rules: Rules)
    requires rules.Valid() && Inv(s) && Smooth(round) && k <= |round.batch| && Distinct(round.batch)
    requires forall p | p in round.batch :: p in s.rows
    requires forall p | p in round.batch[k..] :: s.rows[p].Queued()
    ensures Processed(s, round, k, rules) == |Finishable(s.rows, s.files, round.batch[k..], rules)|
    decreases |round.batch| - k
  {
    if k < |round.batch| {
      var next := TakeTurn(s, round, k, rules);
      SmoothFirst(s, next, round, k, rules);
      ProcessedAreProcessable(next, round, k + 1, rules);
      FinishableSplits(s.rows, s.files, round.batch[k], round.batch[k + 1..], rules);
      FinishableAlike(s.rows, next.rows, s.files, round.batch[k + 1..], rules);
    } else {
      assert round.batch[k..] == [];
    }
  }

  // A smooth round of the oldest `limit` documents takes exactly the processable ones of them off
  // the queue; the others stay, marked as failed.
  lemma SmoothRoundDrains(s: State, limit: nat, round: Round, rules: Rules)
    requires rules.Valid() && Inv(s) && Smooth(round) && OldestFirst(s.rows, limit, round.batch)
    ensures var after := Process(s, round, 0, rules);
            && Inv(after) && after.files == s.files && after.rows.Keys == s.rows.Keys
            && Readable(after.rows, after.files, rules) == Readable(s.rows, s.files, rules) - Members(round.batch)
            && Stuck(after.rows, after.files, rules) == Stuck(s.rows, s.files, rules)
  {
    assert round.batch[0..] == round.batch;
    ProcessKeepsInv(s, round, 0, rules);
    SmoothRound(s, round, 0, Path("", true), rules);
    var after := Process(s, round, 0, rules);
    forall p ensures AsDrained(s, after, round.batch, p, rules) {
      SmoothRound(s, round, 0, p, rules);
      ServedLeavesQueue(s, after, p, round.At(p), rules);
    }
    DrainedSets(s, after, round.batch, rules);
  }

  // What a round means for one path's place in the queue.
  ghost predicate AsDrained(s: State, after: State, batch: seq<Path>, path: Path, rules: Rules) {
    && (path in after.rows <==> path in s.rows)
    && (path in s.rows ==>
          && (Processable(after.rows, after.files, path, rules) <==> Processable(s.rows, s.files, path, rules))
          && (after.rows[path].Queued() <==>
                s.rows[path].Queued() && !(path in batch && Processable(s.rows, s.files, path, rules))))
  }

  lemma DrainedSets(s: State, after: State, batch: seq<Path>, rules: Rules)
    requires forall p :: AsDrained(s, after, batch, p, rules)
    ensures after.rows.Keys == s.rows.Keys
    ensures Readable(after.rows, after.files, rules) == Readable(s.rows, s.files, rules) - Members(batch)
    ensures Stuck(after.rows, after.files, rules) == Stuck(s.rows, s.files, rules)
  {
    forall p
      ensures p in after.rows <==> p in s.rows
      ensures p in Readable(after.rows, after.files, rules) <==> p in Readable(s.rows, s.files, rules) - Members(batch)
      ensures p in Stuck(after.rows, after.files, rules) <==> p in Stuck(s.rows, s.files, rules)
    {
      assert AsDrained(s, after, batch, p, rules);
    }
  }

  lemma ServedLeavesQueue(s: State, after: State, path: Path, now: int, rules: Rules)
    requires rules.Valid() && after.files == s.files
    ensures Served(s, after, path, now, rules) ==>
              && (Processable(after.rows, after.files, path, rules) <==> Processable(s.rows, s.files, path, rules))
              && (after.rows[path].Queued() <==> !Processable(s.rows, s.files, path, rules))
  {
  }

  lemma {:induction false} DistinctSize<T>(s: seq<T>)
    requires Distinct(s)
    ensures |Members(s)| == |s|
  {
    if s != [] {
      var before := s[..|s| - 1];
      DistinctSize(before);
      assert s == before + [s[|s| - 1]];
      assert Members(s) == Members(before) + {s[|s| - 1]};
    }
  }

  lemma SubsetSize<T>(a: set<T>, b: set<T>)
    requires a <= b
    ensures |a| <= |b| && (|a| == |b| ==> a == b)
  {
    assert b == a + (b - a);
  }

  // How much one round takes off: everything when the batch holds the whole queue, and otherwise
  // at least `limit` less the number of stuck documents.
  lemma RoundRate(s: State, limit: nat, round: Round, rules: Rules)
    requires rules.Valid() && Inv(s) && Smooth(round) && OldestFirst(s.rows, limit, round.batch)
    ensures var ready, stuck := Readable(s.rows, s.files, rules), Stuck(s.rows, s.files, rules);
            var left := ready - Members(round.batch);
            left == {} || |left| + limit <= |ready| + |stuck|
  {
    assert Queue(s.rows) == Readable(s.rows, s.files, rules) + Stuck(s.rows, s.files, rules);
    DistinctSize(round.batch);
    BatchRate(Readable(s.rows, s.files, rules), Stuck(s.rows, s.files, rules), Members(round.batch), limit);
  }

  lemma BatchRate(ready: set<Path>, stuck: set<Path>, batch: set<Path>, limit: nat)
    requires ready !! stuck && batch <= ready + stuck && |batch| == Min(limit, |ready + stuck|)
    ensures ready - batch == {} || |ready - batch| + limit <= |ready| + |stuck|
  {
    if |ready + stuck| <= limit {
      SubsetSize(batch, ready + stuck);
    } else {
      assert batch == batch * ready + batch * stuck;
      SubsetSize(batch * stuck, stuck);
      assert ready == (ready - batch) + batch * ready;
    }
  }

  // A run of smooth rounds, each loading the oldest documents of the queue it meets.
  ghost predicate SmoothRun(s: State, limit: nat, rounds: seq<Round>, rules: Rules)
    requires rules.Valid()
    decreases |rounds|
  {
    rounds == [] ||
    (&& Smooth(rounds[0]) && OldestFirst(s.rows, limit, rounds[0].batch)
     && SmoothRun(Process(s, rounds[0], 0, rules), limit, rounds[1..], rules))
  }

  ghost function AfterRounds(s: State, limit: nat, rounds: seq<Round>, rules: Rules): State
    requires rules.Valid() && SmoothRun(s, limit, rounds, rules)
    decreases |rounds|
  {
    if rounds == [] then s else AfterRounds(Process(s, rounds[0], 0, rules), limit, rounds[1..], rules)
  }

  function Capacity(rounds: nat, rate: nat): nat {
    if rounds == 0 then 0 else rate + Capacity(rounds - 1, rate)
  }

  lemma {:induction false} CapacityIsProduct(rounds: nat, rate: nat)
    ensures Capacity(rounds, rate) == rounds * rate
  {
    if rounds > 0 {
      CapacityIsProduct(rounds - 1, rate);
      assert rounds * rate == (rounds - 1) * rate + rate;
    }
  }

  // As long as fewer documents are stuck than a round loads, enough rounds leave nothing that the
  // worker could do: with none stuck, ceil(queue / limit) rounds empty the queue.
  lemma RoundsDrainTheQueue(s: State, limit: nat, rounds: seq<Round>, rules: Rules)
    requires rules.Valid() && Inv(s) && SmoothRun(s, limit, rounds, rules)
    requires limit >= |Stuck(s.rows, s.files, rules)|
    requires |rounds| * (limit - |Stuck(s.rows, s.files, rules)|) >= |Readable(s.rows, s.files, rules)|
    ensures var after := AfterRounds(s, limit, rounds, rules);
            && Inv(after) && after.files == s.files && after.rows.Keys == s.rows.Keys
            && Queue(after.rows) == Stuck(s.rows, s.files, rules)
  {
    var rate := limit - |Stuck(s.rows, s.files, rules)|;
    EnoughCapacity(|rounds|, rate, |Readable(s.rows, s.files, rules)|);
    RoundsFrame(s, limit, rounds, rules);
    RoundsWithCapacity(s, limit, rounds, rate, rules);
  }

  lemma EnoughCapacity(rounds: nat, rate: nat, needed: nat)
    requires rounds * rate >= needed
    ensures Capacity(rounds, rate) >= needed
  {
    CapacityIsProduct(rounds, rate);
  }

  lemma {:induction false} RoundsWithCapacity(s: State, limit: nat, rounds: seq<Round>, rate: nat, rules: Rules)
    requires rules.Valid() && Inv(s) && SmoothRun(s, limit, rounds, rules)
    requires limit == |Stuck(s.rows, s.files, rules)| + rate
    requires Capacity(|rounds|, rate) >= |Readable(s.rows, s.files, rules)|
    ensures Queue(AfterRounds(s, limit, rounds, rules).rows) == Stuck(s.rows, s.files, rules)
    decreases |rounds|
  {
    if rounds == [] {
      NothingReadable(s, rules);
    } else {
      var next, more := Process(s, rounds[0], 0, rules), rounds[1..];
      assert |more| == |rounds| - 1;
      OneRoundProgress(s, limit, rounds[0], |more|, rate, rules);
      RoundsWithCapacity(next, limit, more, rate, rules);
    }
  }

  lemma {:induction false} RoundsFrame(s: State, limit: nat, rounds: seq<Round>, rules: Rules)
    requires rules.Valid() && Inv(s) && SmoothRun(s, limit, rounds, rules)
    ensures var after := AfterRounds(s, limit, rounds, rules);
            Inv(after) && after.files == s.files && after.rows.Keys == s.rows.Keys
    decreases |rounds|
  {
    if rounds != [] {
      SmoothRoundDrains(s, limit, rounds[0], rules);
      RoundsFrame(Process(s, rounds[0], 0, rules), limit, rounds[1..], rules);
    }
  }

  lemma NothingReadable(s: State, rules: Rules)
    requires |Readable(s.rows, s.files, rules)| == 0
    ensures Queue(s.rows) == Stuck(s.rows, s.files, rules)
  {
    assert Queue(s.rows) == Readable(s.rows, s.files, rules) + Stuck(s.rows, s.files, rules);
  }

  lemma OneRoundProgress(s: State, limit: nat, round: Round, more: nat, rate: nat, rules: Rules)
    requires rules.Valid() && Inv(s) && Smooth(round) && OldestFirst(s.rows, limit, round.batch)
    requires limit == |Stuck(s.rows, s.files, rules)| + rate
    requires rate + Capacity(more, rate) >= |Readable(s.rows, s.files, rules)|
    ensures var next := Process(s, round, 0, rules);
            && Inv(next) && next.files == s.files && next.rows.Keys == s.rows.Keys
            && Stuck(next.rows, next.files, rules) == Stuck(s.rows, s.files, rules)
            && Capacity(more, rate) >= |Readable(next.rows, next.files, rules)|
  {
    SmoothRoundDrains(s, limit, round, rules);
    RoundRate(s, limit, round, rules);
  }

  // ---- totals ---------------------------------------------------------------------------------

  function Chunks(d: Document): nat { if d.knowledge.Indexed? then d.chunkCount else 0 }

  // The indexed_chunk_count of stats(), over some of the rows.
  ghost function ChunkTotal(rows: Table, paths: set<Path>): nat
    requires paths <= rows.Keys
  {
    if paths == {} then 0
    else
      var p :| p in paths;
      Chunks(rows[p]) + ChunkTotal(rows, paths - {p})
  }

  function PointsUnder(points: Points, paths: set<Path>): set<PointId> {
    set id | id in points && id.document in paths
  }

  lemma {:induction false} IdsSize(path: Path, hash: Hash, count: nat)
    ensures |Ids(path, hash, count)| == count
  {
    if count > 0 {
      IdsSize(path, hash, count - 1);
      assert Ids(path, hash, count) == Ids(path, hash, count - 1) + {PointId(path, hash, count - 1)};
    }
  }

  // The points of each indexed document are counted once.
  lemma {:induction false} PointsUnderTotal(s: State, paths: set<Path>)
    requires Inv(s) && paths <= s.rows.Keys
    ensures ChunkTotal(s.rows, paths) <= |PointsUnder(s.points, paths)|
    ensures (forall p | p in paths :: !s.rows[p].Queued()) ==>
              ChunkTotal(s.rows, paths) == |PointsUnder(s.points, paths)|
  {
    if paths != {} {
      var p :| p in paths && ChunkTotal(s.rows, paths) == Chunks(s.rows[p]) + ChunkTotal(s.rows, paths - {p});
      PointsUnderTotal(s, paths - {p});
      OwnTotal(s, p);
      PointsUnderSplits(s.points, paths, p);
    }
  }

  lemma PointsUnderSplits(points: Points, paths: set<Path>, path: Path)
    requires path in paths
    ensures |PointsUnder(points, paths)| == |PointsUnder(points, paths - {path})| + |Own(points, path).Keys|
  {
    var rest := PointsUnder(points, paths - {path});
    assert PointsUnder(points, paths) == rest + Own(points, path).Keys;
    assert rest !! Own(points, path).Keys;
  }

  lemma OwnTotal(s: State, path: Path)
    requires Inv(s) && path in s.rows
    ensures Chunks(s.rows[path]) <= |Own(s.points, path).Keys|
    ensures !s.rows[path].Queued() ==> Chunks(s.rows[path]) == |Own(s.points, path).Keys|
  {
    var d := s.rows[path];
    assert RowOk(path, d, s.points);
    IdsSize(path, d.contentHash, d.chunkCount);
  }

  // The store never holds fewer points than stats() reports, and exactly as many once the queue is
  // empty.
  lemma StatsMatchStore(s: State)
    requires Inv(s)
    ensures ChunkTotal(s.rows, s.rows.Keys) <= |s.points|
    ensures Queue(s.rows) == {} ==> ChunkTotal(s.rows, s.rows.Keys) == |s.points|
  {
    PointsUnderTotal(s, s.rows.Keys);
    assert PointsUnder(s.points, s.rows.Keys) == s.points.Keys;
    if Queue(s.rows) == {} {
      forall p | p in s.rows ensures !s.rows[p].Queued() {
        assert p !in Queue(s.rows);
      }
    }
  }
}
