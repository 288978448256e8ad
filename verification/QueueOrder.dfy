// In which order the index worker reaches the documents of its queue, and what a scan does to it.
module QueueOrder {
  import opened Wrappers
  import opened Chunking
  import opened DocumentState
  import opened DocumentInvariants
  import opened IndexQueue
  import opened Reconciliation

  // The document is stuck, and its row already says so: another failing turn writes the values the
  // row has, so updated_at stays and the document keeps its place.
  ghost predicate GivenUp(s: State, path: Path, rules: Rules) {
    && path in Queue(s.rows) && !Processable(s.rows, s.files, path, rules)
    && s.rows[path] == FailedRow(s.rows[path], s.rows[path].updatedAt)
  }

  // The given-up documents last updated at `time` or before.
  ghost function Blockers(s: State, time: int, rules: Rules): set<Path> {
    set p | p in Queue(s.rows) && GivenUp(s, p, rules) && s.rows[p].updatedAt <= time
  }

  // The other documents of the queue that are not younger than `path`.
  ghost function Ahead(s: State, path: Path, rules: Rules): set<Path>
    requires path in s.rows
  {
    set p | p in Queue(s.rows) && p != path && !GivenUp(s, p, rules) && s.rows[p].updatedAt <= s.rows[path].updatedAt
  }

  ghost predicate Waiting(s: State, path: Path, rules: Rules) {
    path in Queue(s.rows) && Processable(s.rows, s.files, path, rules)
  }

  // The clock is past every update so far.
  ghost predicate Later(rows: Table, now: int) {
    forall p | p in rows :: rows[p].updatedAt < now
  }

  // The round starts after every update so far, and each of its turns commits after that.
  ghost predicate Timely(s: State, round: Round) {
    round.Valid() && Later(s.rows, round.now)
  }

  // A run of smooth rounds on a growing clock.
  ghost predicate GrowingRun(s: State, limit: nat, rounds: seq<Round>, rules: Rules)
    requires rules.Valid()
    decreases |rounds|
  {
    && SmoothRun(s, limit, rounds, rules)
    && (rounds == []
        || (Timely(s, rounds[0]) && GrowingRun(Process(s, rounds[0], 0, rules), limit, rounds[1..], rules)))
  }

  // ---- one round ------------------------------------------------------------------------------

  // A round leaves the row of a given-up document as it is, and that of one outside its batch.
  ghost predicate Placed(s: State, after: State, p: Path, batch: seq<Path>, rules: Rules) {
    && (p in after.rows <==> p in s.rows)
    && (p in s.rows && GivenUp(s, p, rules) ==> GivenUp(after, p, rules) && after.rows[p] == s.rows[p])
    && (p in s.rows && p !in batch ==> after.rows[p] == s.rows[p] && (GivenUp(after, p, rules) <==> GivenUp(s, p, rules)))
  }

  lemma PlaceKept(s: State, limit: nat, round: Round, p: Path, rules: Rules)
    requires rules.Valid() && Inv(s) && Smooth(round) && OldestFirst(s.rows, limit, round.batch)
    ensures Placed(s, Process(s, round, 0, rules), p, round.batch, rules)
  {
    assert round.batch[0..] == round.batch;
    SmoothRound(s, round, 0, p, rules);
  }

  // A document of the batch that is not given up leaves the queue or moves behind `time`.
  lemma PlaceLost(s: State, limit: nat, round: Round, p: Path, time: int, rules: Rules)
    requires rules.Valid() && Inv(s) && Smooth(round) && OldestFirst(s.rows, limit, round.batch)
    requires round.Valid() && p in round.batch && !GivenUp(s, p, rules) && time < round.now
    ensures var after := Process(s, round, 0, rules);
            p in after.rows && (p !in Queue(after.rows) || after.rows[p].updatedAt > time)
  {
    assert round.batch[0..] == round.batch;
    SmoothRound(s, round, 0, p, rules);
  }

  // While a waiting document is left out, the given-up ones before it stay, and those of the others
  // before it that the batch holds are gone.
  lemma RoundWithout(s: State, limit: nat, round: Round, path: Path, rules: Rules)
    requires rules.Valid() && Inv(s) && Smooth(round) && OldestFirst(s.rows, limit, round.batch)
    requires Timely(s, round) && Waiting(s, path, rules) && path !in round.batch
    ensures var after, time := Process(s, round, 0, rules), s.rows[path].updatedAt;
            && Inv(after) && after.files == s.files && path in after.rows && after.rows[path] == s.rows[path]
            && Waiting(after, path, rules)
            && Blockers(after, time, rules) == Blockers(s, time, rules)
            && Blockers(after, time - 1, rules) == Blockers(s, time - 1, rules)
            && Ahead(after, path, rules) <= Ahead(s, path, rules)
            && forall p | p in round.batch && p in Ahead(s, path, rules) :: |Ahead(after, path, rules)| < |Ahead(s, path, rules)|
  {
    var after, time := Process(s, round, 0, rules), s.rows[path].updatedAt;
    assert round.batch[0..] == round.batch;
    ProcessKeepsInv(s, round, 0, rules);
    SmoothRound(s, round, 0, path, rules);
    forall p
      ensures Placed(s, after, p, round.batch, rules)
      ensures p in round.batch && !GivenUp(s, p, rules) ==>
                p in after.rows && (p !in Queue(after.rows) || after.rows[p].updatedAt > time)
    {
      PlaceKept(s, limit, round, p, rules);
      if p in round.batch && !GivenUp(s, p, rules) {
        PlaceLost(s, limit, round, p, time, rules);
      }
    }
    SetsFollow(s, after, path, round.batch, time, rules);
    SetsFollow(s, after, path, round.batch, time - 1, rules);
    SubsetSize(Ahead(after, path, rules), Ahead(s, path, rules));
  }

  lemma SetsFollow(s: State, after: State, path: Path, batch: seq<Path>, time: int, rules: Rules)
    requires path in s.rows && path in after.rows && after.rows[path] == s.rows[path]
    requires time <= s.rows[path].updatedAt
    requires forall p :: Placed(s, after, p, batch, rules)
    requires forall p | p in batch && !GivenUp(s, p, rules) ::
               p in after.rows && (p !in Queue(after.rows) || after.rows[p].updatedAt > s.rows[path].updatedAt)
    ensures Blockers(after, time, rules) == Blockers(s, time, rules)
    ensures Ahead(after, path, rules) <= Ahead(s, path, rules)
  {
    forall p
      ensures p in Blockers(after, time, rules) <==> p in Blockers(s, time, rules)
      ensures p in Ahead(after, path, rules) ==> p in Ahead(s, path, rules)
    {
      assert Placed(s, after, p, batch, rules);
    }
  }

  // A batch that leaves the document out, holds nothing younger than `time` and is not filled by
  // given-up ones holds one that is ahead of it.
  lemma SomeoneElse(s: State, limit: nat, batch: seq<Path>, path: Path, time: int, rules: Rules) returns (p: Path)
    requires OldestFirst(s.rows, limit, batch) && path in Queue(s.rows) && path !in batch
    requires time <= s.rows[path].updatedAt && forall p | p in batch :: s.rows[p].updatedAt <= time
    requires |Blockers(s, time, rules)| < limit
    ensures p in batch && p in Ahead(s, path, rules)
  {
    DistinctSize(batch);
    SubsetSize(Members(batch) + {path}, Queue(s.rows));
    if Members(batch) <= Blockers(s, time, rules) {
      SubsetSize(Members(batch), Blockers(s, time, rules));
      assert false;
    }
    p :| p in Members(batch) && p !in Blockers(s, time, rules);
  }

  // One that holds the document finishes it.
  lemma RoundWith(s: State, limit: nat, round: Round, path: Path, rules: Rules)
    requires rules.Valid() && Inv(s) && Smooth(round) && OldestFirst(s.rows, limit, round.batch)
    requires Waiting(s, path, rules) && path in round.batch
    ensures Inv(Process(s, round, 0, rules))
    ensures path in Process(s, round, 0, rules).rows && path !in Queue(Process(s, round, 0, rules).rows)
  {
    assert round.batch[0..] == round.batch;
    ProcessKeepsInv(s, round, 0, rules);
    SmoothRound(s, round, 0, path, rules);
  }

  // ---- runs -----------------------------------------------------------------------------------

  lemma {:induction false} OnceOutStaysOut(s: State, limit: nat, rounds: seq<Round>, path: Path, rules: Rules)
    requires rules.Valid() && Inv(s) && SmoothRun(s, limit, rounds, rules) && path in s.rows && path !in Queue(s.rows)
    ensures var after := AfterRounds(s, limit, rounds, rules); path in after.rows && after.rows[path] == s.rows[path]
    decreases |rounds|
  {
    if rounds != [] {
      var round := rounds[0];
      assert round.batch[0..] == round.batch;
      ProcessKeepsInv(s, round, 0, rules);
      SmoothRound(s, round, 0, path, rules);
      OnceOutStaysOut(Process(s, round, 0, rules), limit, rounds[1..], path, rules);
    }
  }

  // Fewer given-up documents at or before its time than a round loads: the document is reached, at
  // the latest once as many rounds have passed as there are others ahead of it.
  lemma {:induction false} FewBlockersLetThrough(s: State, limit: nat, rounds: seq<Round>, path: Path, rules: Rules)
    requires rules.Valid() && Inv(s) && GrowingRun(s, limit, rounds, rules)
    requires Waiting(s, path, rules) && |Blockers(s, s.rows[path].updatedAt, rules)| < limit
    requires |rounds| > |Ahead(s, path, rules)|
    ensures path !in Queue(AfterRounds(s, limit, rounds, rules).rows)
    decreases |rounds|
  {
    var round, next := rounds[0], Process(s, rounds[0], 0, rules);
    if path in round.batch {
      RoundWith(s, limit, round, path, rules);
      OnceOutStaysOut(next, limit, rounds[1..], path, rules);
    } else {
      RoundWithout(s, limit, round, path, rules);
      var _ := SomeoneElse(s, limit, round.batch, path, s.rows[path].updatedAt, rules);
      FewBlockersLetThrough(next, limit, rounds[1..], path, rules);
    }
  }

  // The document waits with the given row, and strictly older given-up ones can fill a batch.
  ghost predicate Starved(s: State, limit: nat, path: Path, d: Document, rules: Rules) {
    Waiting(s, path, rules) && s.rows[path] == d && |Blockers(s, d.updatedAt - 1, rules)| >= limit
  }

  lemma StarvedRound(s: State, limit: nat, round: Round, path: Path, d: Document, rules: Rules)
    requires rules.Valid() && Inv(s) && Smooth(round) && OldestFirst(s.rows, limit, round.batch)
    requires Timely(s, round) && Starved(s, limit, path, d, rules)
    ensures Inv(Process(s, round, 0, rules)) && Starved(Process(s, round, 0, rules), limit, path, d, rules)
  {
    NotLoaded(s, limit, round.batch, path, rules);
    RoundWithout(s, limit, round, path, rules);
  }

  // At least as many strictly older ones: no number of rounds reaches it.
  lemma {:induction false} ManyBlockersStarve(s: State, limit: nat, rounds: seq<Round>, path: Path, d: Document, rules: Rules)
    requires rules.Valid() && Inv(s) && GrowingRun(s, limit, rounds, rules) && Starved(s, limit, path, d, rules)
    ensures Starved(AfterRounds(s, limit, rounds, rules), limit, path, d, rules)
    decreases |rounds|
  {
    if rounds != [] {
      StarvedRound(s, limit, rounds[0], path, d, rules);
      ManyBlockersStarve(Process(s, rounds[0], 0, rules), limit, rounds[1..], path, d, rules);
    }
  }

  lemma NotLoaded(s: State, limit: nat, batch: seq<Path>, path: Path, rules: Rules)
    requires OldestFirst(s.rows, limit, batch) && path in s.rows
    requires |Blockers(s, s.rows[path].updatedAt - 1, rules)| >= limit
    ensures path !in batch
  {
    var older := Blockers(s, s.rows[path].updatedAt - 1, rules);
    if path in batch {
      forall p | p in older ensures p in Members(batch) {
        assert s.rows[p].updatedAt < s.rows[path].updatedAt;
      }
      DistinctSize(batch);
      SubsetSize(older + {path}, Members(batch));
    }
  }

  // Head-of-line blocking, exactly: on a growing clock, a document the worker could finish is
  // reached if and only if fewer given-up documents are older than a round loads.  No given-up
  // document is as old as it to the instant; otherwise see below.
  lemma ReachedIff(s: State, limit: nat, rounds: seq<Round>, path: Path, rules: Rules)
    requires rules.Valid() && Inv(s) && GrowingRun(s, limit, rounds, rules)
    requires Waiting(s, path, rules) && |rounds| > |Ahead(s, path, rules)|
    requires forall p | p in Queue(s.rows) && GivenUp(s, p, rules) :: s.rows[p].updatedAt != s.rows[path].updatedAt
    ensures path !in Queue(AfterRounds(s, limit, rounds, rules).rows) <==>
            |Blockers(s, s.rows[path].updatedAt, rules)| < limit
  {
    var time := s.rows[path].updatedAt;
    assert Blockers(s, time, rules) == Blockers(s, time - 1, rules);
    if |Blockers(s, time, rules)| < limit {
      FewBlockersLetThrough(s, limit, rounds, path, rules);
    } else {
      ManyBlockersStarve(s, limit, rounds, path, s.rows[path], rules);
    }
  }

  // ---- ties -----------------------------------------------------------------------------------

  // The order of the query, with `path` before (favoured) or after the others of its age.
  function Place(rows: Table, p: Path, path: Path, favoured: bool): int
    requires p in rows
  {
    2 * rows[p].updatedAt + if p != path then 0 else if favoured then -1 else 1
  }

  lemma Last(rows: Table, from: set<Path>, path: Path, favoured: bool) returns (last: Path)
    requires from != {} && from <= rows.Keys
    ensures last in from && forall p | p in from :: Place(rows, p, path, favoured) <= Place(rows, last, path, favoured)
  {
    last :| last in from;
    var rest := from - {last};
    while rest != {}
      invariant rest <= from && last in from
      invariant forall p | p in from && p !in rest :: Place(rows, p, path, favoured) <= Place(rows, last, path, favoured)
    {
      var p :| p in rest;
      rest := rest - {p};
      if Place(rows, p, path, favoured) > Place(rows, last, path, favoured) {
        last := p;
      }
    }
  }

  lemma {:induction false} ListOf(from: set<Path>) returns (batch: seq<Path>)
    ensures Distinct(batch) && Members(batch) == from
    decreases from
  {
    if from == {} {
      batch := [];
    } else {
      var p :| p in from;
      var before := ListOf(from - {p});
      OneMoreMember(before, p);
      batch := before + [p];
    }
  }

  // None of the documents left out comes before one of the batch.
  ghost predicate InFront(rows: Table, batch: set<Path>, from: set<Path>, path: Path, favoured: bool)
    requires from <= rows.Keys
  {
    && batch <= from
    && forall p, r | p in batch && r in from && r !in batch ::
         Place(rows, p, path, favoured) <= Place(rows, r, path, favoured)
  }

  lemma LastGoes(rows: Table, batch: set<Path>, from: set<Path>, last: Path, path: Path, favoured: bool)
    requires from <= rows.Keys && last in from && InFront(rows, batch, from - {last}, path, favoured)
    requires forall p | p in from :: Place(rows, p, path, favoured) <= Place(rows, last, path, favoured)
    ensures InFront(rows, batch, from, path, favoured)
  {
  }

  // The first `count` of some documents.
  lemma {:induction false} FirstOf(rows: Table, from: set<Path>, count: nat, path: Path, favoured: bool)
    returns (batch: seq<Path>)
    requires from <= rows.Keys && count <= |from|
    ensures Distinct(batch) && |batch| == count && InFront(rows, Members(batch), from, path, favoured)
    decreases |from|
  {
    if count == |from| {
      batch := ListOf(from);
      DistinctSize(batch);
    } else {
      var last := Last(rows, from, path, favoured);
      batch := FirstOf(rows, from - {last}, count, path, favoured);
      LastGoes(rows, Members(batch), from, last, path, favoured);
    }
  }

  lemma OneMoreMember(before: seq<Path>, last: Path)
    ensures Members(before + [last]) == Members(before) + {last}
    ensures Distinct(before) && last !in Members(before) ==> Distinct(before + [last])
  {
    assert (before + [last])[..|before|] == before;
  }

  lemma SomeInstant(rows: Table) returns (now: int)
    ensures Later(rows, now)
  {
    if rows.Keys == {} {
      now := 0;
    } else {
      var first :| first in rows;
      var last := Last(rows, rows.Keys, first, false);
      now := rows[last].updatedAt + 2;
      forall p | p in rows ensures rows[p].updatedAt < now {
        assert Place(rows, p, first, false) <= Place(rows, last, first, false);
      }
    }
  }

  // A round whose batch puts the document before, or after, the others of its age.
  lemma SomeRound(s: State, limit: nat, path: Path, favoured: bool) returns (round: Round)
    requires path in s.rows
    ensures Smooth(round) && OldestFirst(s.rows, limit, round.batch) && Timely(s, round)
    ensures favoured && path in Queue(s.rows) && path !in round.batch ==>
              forall p | p in round.batch :: s.rows[p].updatedAt < s.rows[path].updatedAt
    ensures !favoured && path in round.batch ==>
              forall p | p in Queue(s.rows) && p !in round.batch :: s.rows[p].updatedAt > s.rows[path].updatedAt
  {
    var queue := Queue(s.rows);
    var batch := FirstOf(s.rows, queue, if limit < |queue| then limit else |queue|, path, favoured);
    var now := SomeInstant(s.rows);
    round := Round(batch, seq(|batch|, _ => Healthy), true, now, map[]);
    forall p, r | p in batch && r in queue && r !in batch
      ensures Place(s.rows, p, path, favoured) <= Place(s.rows, r, path, favoured)
    {
      assert p in Members(batch) && r !in Members(batch);
    }
    assert forall p | p in batch :: p in Members(batch);
  }

  // The rounds are a run, and it leaves the document queued or not, as told.
  ghost predicate RunLeaves(s: State, limit: nat, rounds: seq<Round>, path: Path, queued: bool, rules: Rules)
    requires rules.Valid()
  {
    && GrowingRun(s, limit, rounds, rules)
    && (path in Queue(AfterRounds(s, limit, rounds, rules).rows) <==> queued)
  }

  lemma RunPrepends(s: State, limit: nat, round: Round, rest: seq<Round>, path: Path, queued: bool, rules: Rules)
    requires rules.Valid() && Smooth(round) && OldestFirst(s.rows, limit, round.batch) && Timely(s, round)
    requires RunLeaves(Process(s, round, 0, rules), limit, rest, path, queued, rules)
    ensures RunLeaves(s, limit, [round] + rest, path, queued, rules)
  {
    assert ([round] + rest)[1..] == rest;
  }

  ghost predicate Reachable(s: State, limit: nat, path: Path, rules: Rules) {
    Waiting(s, path, rules) && |Blockers(s, s.rows[path].updatedAt - 1, rules)| < limit
  }

  // A round that favours the document reaches it, or leaves fewer ahead of it.
  lemma FavouredRound(s: State, limit: nat, path: Path, rules: Rules) returns (round: Round)
    requires rules.Valid() && Inv(s) && Reachable(s, limit, path, rules)
    ensures Smooth(round) && OldestFirst(s.rows, limit, round.batch) && Timely(s, round)
    ensures path in round.batch ==> RunLeaves(s, limit, [round] + [], path, false, rules)
    ensures path !in round.batch ==>
              var next := Process(s, round, 0, rules);
              Inv(next) && Reachable(next, limit, path, rules) && |Ahead(next, path, rules)| < |Ahead(s, path, rules)|
  {
    round := SomeRound(s, limit, path, true);
    if path in round.batch {
      ReachedAtOnce(s, limit, round, path, rules);
    } else {
      FavouredProgress(s, limit, round, path, rules);
    }
  }

  // When the given-up documents strictly older than it do not fill a batch, the query can choose
  // so that the document is reached.
  lemma {:induction false} TiesCanLetThrough(s: State, limit: nat, path: Path, rules: Rules) returns (rounds: seq<Round>)
    requires rules.Valid() && Inv(s) && Reachable(s, limit, path, rules)
    ensures RunLeaves(s, limit, rounds, path, false, rules)
    decreases |Ahead(s, path, rules)|
  {
    var round := FavouredRound(s, limit, path, rules);
    if path in round.batch {
      rounds := [round] + [];
    } else {
      var rest := TiesCanLetThrough(Process(s, round, 0, rules), limit, path, rules);
      RunPrepends(s, limit, round, rest, path, false, rules);
      rounds := [round] + rest;
    }
  }

  lemma ReachedAtOnce(s: State, limit: nat, round: Round, path: Path, rules: Rules)
    requires rules.Valid() && Inv(s) && Smooth(round) && OldestFirst(s.rows, limit, round.batch)
    requires Timely(s, round) && Waiting(s, path, rules) && path in round.batch
    ensures RunLeaves(s, limit, [round] + [], path, false, rules)
  {
    RoundWith(s, limit, round, path, rules);
    RunPrepends(s, limit, round, [], path, false, rules);
  }

  lemma FavouredProgress(s: State, limit: nat, round: Round, path: Path, rules: Rules)
    requires rules.Valid() && Inv(s) && Smooth(round) && OldestFirst(s.rows, limit, round.batch)
    requires Timely(s, round) && Waiting(s, path, rules) && path !in round.batch
    requires forall p | p in round.batch :: s.rows[p].updatedAt < s.rows[path].updatedAt
    requires |Blockers(s, s.rows[path].updatedAt - 1, rules)| < limit
    ensures var next := Process(s, round, 0, rules);
            && Inv(next) && Waiting(next, path, rules) && |Ahead(next, path, rules)| < |Ahead(s, path, rules)|
            && |Blockers(next, next.rows[path].updatedAt - 1, rules)| < limit
  {
    var p := SomeoneElse(s, limit, round.batch, path, s.rows[path].updatedAt - 1, rules);
    assert p in round.batch && p in Ahead(s, path, rules);
    RoundWithout(s, limit, round, path, rules);
  }

  // When the given-up documents at least as old fill a batch, the query can choose so that the
  // document is not reached, for any number of rounds.
  lemma {:induction false} TiesCanStarve(s: State, limit: nat, count: nat, path: Path, rules: Rules)
    returns (rounds: seq<Round>)
    requires rules.Valid() && Inv(s) && Waiting(s, path, rules)
    requires |Blockers(s, s.rows[path].updatedAt, rules)| >= limit
    ensures |rounds| == count && RunLeaves(s, limit, rounds, path, true, rules)
    decreases count
  {
    if count == 0 {
      rounds := [];
    } else {
      var round := SomeRound(s, limit, path, false);
      LeftOutOfTie(s, limit, round.batch, path, rules);
      RoundWithout(s, limit, round, path, rules);
      var rest := TiesCanStarve(Process(s, round, 0, rules), limit, count - 1, path, rules);
      RunPrepends(s, limit, round, rest, path, true, rules);
      rounds := [round] + rest;
    }
  }

  lemma LeftOutOfTie(s: State, limit: nat, batch: seq<Path>, path: Path, rules: Rules)
    requires OldestFirst(s.rows, limit, batch) && Waiting(s, path, rules)
    requires |Blockers(s, s.rows[path].updatedAt, rules)| >= limit
    requires path in batch ==> forall p | p in Queue(s.rows) && p !in batch :: s.rows[p].updatedAt > s.rows[path].updatedAt
    ensures path !in batch
  {
    var blockers := Blockers(s, s.rows[path].updatedAt, rules);
    if path in batch {
      forall p | p in blockers ensures p in Members(batch) {
        assert p in batch;
      }
      DistinctSize(batch);
      SubsetSize(blockers + {path}, Members(batch));
    }
  }

  // ---- scans ----------------------------------------------------------------------------------

  // The file has not been stable for a window yet, and looks as it did.
  predicate StillSettling(d: Document, file: File, now: int, rules: Rules) {
    && d.size == |file.bytes| && d.modified == file.mtime
    && now - d.stableSince.GetOr(now) < rules.stability
  }

  // The commits of the pass come after its reading of the clock, in the order of the walk.
  ghost predicate Ordered(pass: Pass) {
    && (forall i | 0 <= i < |pass.walk| :: pass.now < pass.At(pass.walk[i]))
    && forall i, j | 0 <= i < j < |pass.walk| :: pass.At(pass.walk[i]) < pass.At(pass.walk[j])
  }

  ghost predicate WalkedBefore(walk: seq<Path>, p: Path, q: Path) {
    exists i, j :: 0 <= i < j < |walk| && walk[i] == p && walk[j] == q
  }

  lemma OrderedMeans(pass: Pass, p: Path, q: Path)
    requires Ordered(pass) && p in pass.walk && q in pass.walk
    ensures pass.now < pass.At(p)
    ensures WalkedBefore(pass.walk, p, q) <==> pass.At(p) < pass.At(q)
    ensures p != q ==> pass.At(p) != pass.At(q)
  {
    var i :| 0 <= i < |pass.walk| && pass.walk[i] == p;
    var j :| 0 <= j < |pass.walk| && pass.walk[j] == q;
  }

  // The state after a scan.
  ghost function Rescan(s: State, pass: Pass, rules: Rules): State
    requires pass.Valid()
  {
    s.(rows := Reconciled(s.rows, pass, rules), clock := Max(s.clock, pass.end))
  }

  lemma RescanKeepsInv(s: State, pass: Pass, rules: Rules)
    requires rules.Valid() && Inv(s) && pass.Valid() && pass.files == s.files
    ensures Inv(Rescan(s, pass, rules)) && MarksAgree(s.rows)
  {
    StepKeepsInv(s, Event(pass.now, Reconcile(pass)), rules);
    forall p | p in s.rows ensures s.rows[p].deletionRequested <==> s.rows[p].deletedAt.Some? {
      assert RowOk(p, s.rows[p], s.points);
    }
  }

  // What a scan does to that order: a given-up document with a file keeps its place exactly while
  // the file is still settling, and otherwise moves behind everything updated before the scan, to
  // the instant at which the scan commits its row.
  lemma ScanMovesIff(s: State, pass: Pass, path: Path, rules: Rules)
    requires pass.Valid() && pass.files == s.files && OwnRowsOnly(s.rows, pass, rules) && Later(s.rows, pass.now)
    requires MarksAgree(s.rows) && GivenUp(s, path, rules) && path in s.files
    ensures var after := Reconciled(s.rows, pass, rules);
            && path in after && after[path].Queued() && after[path].Live()
            && after[path].updatedAt == if StillSettling(s.rows[path], s.files[path], pass.now, rules)
                                        then s.rows[path].updatedAt else pass.At(path)
  {
    ScanIsRowByRow(s.rows, pass, pass.walk, path, rules);
  }

  // The document is given up, and the scan finds its file as it was.
  ghost predicate GivenUpAgain(s: State, pass: Pass, path: Path, rules: Rules) {
    GivenUp(s, path, rules) && path in pass.files && JudgeOf(s.rows, pass, path, rules) == Unchanged
  }

  // No given-up document's file is settling.
  ghost predicate NothingSettles(s: State, pass: Pass, rules: Rules) {
    forall p | p in s.files && GivenUp(s, p, rules) :: !StillSettling(s.rows[p], s.files[p], pass.now, rules)
  }

  // The row says that the worker has failed on it.
  predicate Marked(d: Document) {
    d.knowledge.Failed? && d.error.Unavailable? && d.local.IndexFailed?
  }

  lemma MarkedMeansGivenUp(s: State, path: Path, rules: Rules)
    ensures GivenUp(s, path, rules) <==>
            path in s.rows && Marked(s.rows[path]) && !Processable(s.rows, s.files, path, rules)
  {
  }

  lemma MarkAfterScan(row: Option<Document>, path: Path, file: File, churning: bool, now: int, stamp: int, rules: Rules)
    requires row.Some? && Marked(row.value) ==> row.value.deletionRequested || !StillSettling(row.value, file, now, rules)
    requires Sight(row, path, file, churning, now, stamp, rules).Accept? ==> path.composed
    ensures var d := Settled(row, path, file, churning, now, stamp, rules);
            && (Marked(d) && !d.deletionRequested <==>
                  row.Some? && Marked(row.value) && !row.value.deletionRequested
                  && Judge(row, path, file, churning, now, rules) == Unchanged)
            && (Marked(d) && !d.deletionRequested ==> d.updatedAt == stamp)
  {
  }

  lemma GivenUpAfterScan(s: State, pass: Pass, path: Path, rules: Rules)
    requires pass.Valid() && pass.files == s.files && OwnRowsOnly(s.rows, pass, rules) && MarksAgree(s.rows)
    requires NothingSettles(s, pass, rules)
    ensures GivenUp(Rescan(s, pass, rules), path, rules) <==> GivenUpAgain(s, pass, path, rules)
    ensures GivenUpAgain(s, pass, path, rules) ==> Rescan(s, pass, rules).rows[path].updatedAt == pass.At(path)
  {
    MarkedMeansGivenUp(s, path, rules);
    MarkedMeansGivenUp(Rescan(s, pass, rules), path, rules);
    if path in s.files && rules.extracts(path, s.files[path].bytes).None? {
      FoundAgain(s, pass, path, rules);
    } else if path !in s.files {
      ScanIsRowByRow(s.rows, pass, pass.walk, path, rules);
    }
  }

  lemma FoundAgain(s: State, pass: Pass, path: Path, rules: Rules)
    requires pass.Valid() && pass.files == s.files && OwnRowsOnly(s.rows, pass, rules) && NothingSettles(s, pass, rules)
    requires path in s.files && rules.extracts(path, s.files[path].bytes).None?
    ensures var after := Rescan(s, pass, rules);
            && path in after.rows
            && (Marked(after.rows[path]) && !after.rows[path].deletionRequested <==> GivenUpAgain(s, pass, path, rules))
            && (GivenUpAgain(s, pass, path, rules) ==> after.rows[path].updatedAt == pass.At(path))
  {
    ScanIsRowByRow(s.rows, pass, pass.walk, path, rules);
    MarkedMeansGivenUp(s, path, rules);
    MarkAfterScan(Row(s.rows, path), path, s.files[path], path in pass.churning, pass.now, pass.At(path), rules);
  }

  // The scan stamps the row of the path anew.
  ghost predicate Restamped(s: State, pass: Pass, path: Path, rules: Rules)
    requires path in pass.files
  {
    SettledOf(s.rows, pass, path, rules).updatedAt == pass.At(path)
  }

  // The given-up documents that stand before the path after the scan: those walked before it, if
  // its row is stamped anew.
  ghost function InTheWay(s: State, pass: Pass, path: Path, rules: Rules): set<Path>
    requires path in pass.files
  {
    set p | p in Queue(s.rows) && GivenUpAgain(s, pass, p, rules) && Restamped(s, pass, path, rules)
            && WalkedBefore(pass.walk, p, path)
  }

  lemma PlaceAfterScan(s: State, pass: Pass, path: Path, rules: Rules)
    requires pass.Valid() && pass.files == s.files && path in s.files && OwnRowsOnly(s.rows, pass, rules)
    requires Ordered(pass) && Later(s.rows, pass.now)
    ensures var after := Rescan(s, pass, rules);
            path in after.rows
            && if Restamped(s, pass, path, rules) then after.rows[path].updatedAt == pass.At(path)
               else after.rows[path].updatedAt <= pass.now
  {
    ScanIsRowByRow(s.rows, pass, pass.walk, path, rules);
  }

  lemma BlockersAfterScan(s: State, pass: Pass, path: Path, rules: Rules)
    requires pass.Valid() && pass.files == s.files && path in s.files && OwnRowsOnly(s.rows, pass, rules)
    requires Ordered(pass) && Later(s.rows, pass.now) && MarksAgree(s.rows) && NothingSettles(s, pass, rules)
    requires Waiting(Rescan(s, pass, rules), path, rules)
    ensures var after := Rescan(s, pass, rules);
            && Blockers(after, after.rows[path].updatedAt, rules) == InTheWay(s, pass, path, rules)
            && forall p | p in Queue(after.rows) && GivenUp(after, p, rules) ::
                 after.rows[p].updatedAt != after.rows[path].updatedAt
  {
    var after := Rescan(s, pass, rules);
    PlaceAfterScan(s, pass, path, rules);
    forall p
      ensures p in Blockers(after, after.rows[path].updatedAt, rules) <==> p in InTheWay(s, pass, path, rules)
      ensures p in Queue(after.rows) && GivenUp(after, p, rules) ==> after.rows[p].updatedAt != after.rows[path].updatedAt
    {
      GivenUpAfterScan(s, pass, p, rules);
      if GivenUpAgain(s, pass, p, rules) {
        OrderedMeans(pass, p, path);
      }
    }
  }

  // Blocking across a scan, exactly: in the rounds that follow a scan that finds nothing settling, a
  // waiting document with a file is reached if and only if fewer given-up documents than a round
  // loads are walked before it.
  lemma ReachedAfterScanIff(s: State, pass: Pass, limit: nat, rounds: seq<Round>, path: Path, rules: Rules)
    requires rules.Valid() && Inv(s) && pass.Valid() && pass.files == s.files && path in s.files
    requires OwnRowsOnly(s.rows, pass, rules) && Ordered(pass) && Later(s.rows, pass.now) && NothingSettles(s, pass, rules)
    requires Waiting(Rescan(s, pass, rules), path, rules) && GrowingRun(Rescan(s, pass, rules), limit, rounds, rules)
    requires |rounds| > |Ahead(Rescan(s, pass, rules), path, rules)|
    ensures path !in Queue(AfterRounds(Rescan(s, pass, rules), limit, rounds, rules).rows) <==>
            |InTheWay(s, pass, path, rules)| < limit
  {
    RescanKeepsInv(s, pass, rules);
    BlockersAfterScan(s, pass, path, rules);
    ReachedIff(Rescan(s, pass, rules), limit, rounds, path, rules);
  }

  // Retrying a given-up document by hand puts it behind everything updated before, no longer given up;
  // nothing else changes, and nothing about its contents.
  lemma RetryMovesBehind(s: State, path: Path, now: int, rules: Rules)
    requires rules.Valid() && GivenUp(s, path, rules)
    ensures var after := Step(s, Event(now, Retry(path)), rules);
            && path in Queue(after.rows) && !GivenUp(after, path, rules) && after.rows[path].updatedAt == now
            && after.rows[path].knowledge.Pending? && after.rows[path].error.NoError?
            && SameDocument(s.rows[path], after.rows[path].(knowledge := s.rows[path].knowledge))
            && after.rows.Keys == s.rows.Keys && after.points == s.points && after.files == s.files
            && forall p | p in s.rows && p != path :: after.rows[p] == s.rows[p]
  {
  }

  // ---- scan after scan ------------------------------------------------------------------------

  // A pass from `since` on accepts the file and finds it unchanged.
  ghost predicate Steady(d: Document, path: Path, file: File, since: int, rules: Rules) {
    && path.composed && !d.deletionRequested && rules.inspects(path, file.bytes)
    && d.size == |file.bytes| && d.modified == file.mtime && d.contentHash == Sha(file.bytes)
    && d.stableSince.Some? && since - d.stableSince.value >= rules.stability
  }

  // Given-up documents that can fill a batch are walked before the waiting one, and nothing about
  // any of them changes.
  ghost predicate Starving(s: State, walk: seq<Path>, limit: nat, path: Path, blockers: set<Path>, since: int, rules: Rules) {
    && Waiting(s, path, rules) && path in s.files && Steady(s.rows[path], path, s.files[path], since, rules)
    && |blockers| >= limit
    && forall p | p in blockers ::
         && GivenUp(s, p, rules) && p in s.files && Steady(s.rows[p], p, s.files[p], since, rules)
         && WalkedBefore(walk, p, path)
  }

  // One scan, and the rounds until the next.
  datatype Cycle = Cycle(pass: Pass, rounds: seq<Round>)

  // A pass that finds the directory quiet and walks it in the given order.
  ghost predicate Walks(s: State, pass: Pass, walk: seq<Path>, since: int, rules: Rules) {
    && pass.Valid() && pass.files == s.files && pass.walk == walk && pass.churning == {} && since <= pass.now
    && Ordered(pass) && OwnRowsOnly(s.rows, pass, rules) && Later(s.rows, pass.now)
  }

  ghost predicate Cycles(s: State, walk: seq<Path>, limit: nat, cycles: seq<Cycle>, since: int, rules: Rules)
    requires rules.Valid()
    decreases |cycles|
  {
    cycles == [] ||
    (&& Walks(s, cycles[0].pass, walk, since, rules)
     && GrowingRun(Rescan(s, cycles[0].pass, rules), limit, cycles[0].rounds, rules)
     && Cycles(AfterCycle(s, limit, cycles[0], rules), walk, limit, cycles[1..], since, rules))
  }

  ghost function AfterCycle(s: State, limit: nat, cycle: Cycle, rules: Rules): State
    requires rules.Valid() && cycle.pass.Valid() && GrowingRun(Rescan(s, cycle.pass, rules), limit, cycle.rounds, rules)
  {
    AfterRounds(Rescan(s, cycle.pass, rules), limit, cycle.rounds, rules)
  }

  ghost function AfterCycles(s: State, walk: seq<Path>, limit: nat, cycles: seq<Cycle>, since: int, rules: Rules): State
    requires rules.Valid() && Cycles(s, walk, limit, cycles, since, rules)
    decreases |cycles|
  {
    if cycles == [] then s
    else AfterCycles(AfterCycle(s, limit, cycles[0], rules), walk, limit, cycles[1..], since, rules)
  }

  lemma SteadyRow(s: State, pass: Pass, walk: seq<Path>, path: Path, since: int, rules: Rules)
    requires Walks(s, pass, walk, since, rules) && path in s.files && path in s.rows
    requires Steady(s.rows[path], path, s.files[path], since, rules)
    ensures var after := Rescan(s, pass, rules);
            path in after.rows && after.rows[path] == s.rows[path].(updatedAt := pass.At(path))
  {
    ScanIsRowByRow(s.rows, pass, pass.walk, path, rules);
  }

  lemma ScanKeepsStarving(s: State, pass: Pass, walk: seq<Path>, limit: nat, path: Path, blockers: set<Path>, since: int,
                          rules: Rules)
    requires Walks(s, pass, walk, since, rules) && Starving(s, walk, limit, path, blockers, since, rules)
    ensures var after := Rescan(s, pass, rules);
            && Starving(after, walk, limit, path, blockers, since, rules)
            && |Blockers(after, after.rows[path].updatedAt - 1, rules)| >= limit
  {
    var after := Rescan(s, pass, rules);
    SteadyRow(s, pass, walk, path, since, rules);
    forall p | p in blockers
      ensures GivenUp(after, p, rules) && Steady(after.rows[p], p, after.files[p], since, rules)
      ensures p in Blockers(after, after.rows[path].updatedAt - 1, rules)
    {
      SteadyRow(s, pass, walk, p, since, rules);
      OrderedMeans(pass, p, path);
    }
    SubsetSize(blockers, Blockers(after, after.rows[path].updatedAt - 1, rules));
  }

  lemma {:induction false} RunKeepsGivenUp(s: State, limit: nat, rounds: seq<Round>, path: Path, rules: Rules)
    requires rules.Valid() && Inv(s) && GrowingRun(s, limit, rounds, rules) && GivenUp(s, path, rules)
    ensures var after := AfterRounds(s, limit, rounds, rules);
            GivenUp(after, path, rules) && after.rows[path] == s.rows[path]
    decreases |rounds|
  {
    if rounds != [] {
      PlaceKept(s, limit, rounds[0], path, rules);
      SmoothRoundDrains(s, limit, rounds[0], rules);
      RunKeepsGivenUp(Process(s, rounds[0], 0, rules), limit, rounds[1..], path, rules);
    }
  }

  lemma RunKeepsStarving(s: State, walk: seq<Path>, limit: nat, rounds: seq<Round>, path: Path, blockers: set<Path>,
                         since: int, rules: Rules)
    requires rules.Valid() && Inv(s) && GrowingRun(s, limit, rounds, rules)
    requires Starving(s, walk, limit, path, blockers, since, rules)
    requires |Blockers(s, s.rows[path].updatedAt - 1, rules)| >= limit
    ensures var after := AfterRounds(s, limit, rounds, rules);
            Inv(after) && after.files == s.files && Starving(after, walk, limit, path, blockers, since, rules)
  {
    RoundsFrame(s, limit, rounds, rules);
    ManyBlockersStarve(s, limit, rounds, path, s.rows[path], rules);
    forall p | p in blockers
      ensures var after := AfterRounds(s, limit, rounds, rules); GivenUp(after, p, rules) && after.rows[p] == s.rows[p]
    {
      RunKeepsGivenUp(s, limit, rounds, p, rules);
    }
  }

  lemma CycleKeepsStarving(s: State, walk: seq<Path>, limit: nat, cycle: Cycle, path: Path, blockers: set<Path>,
                           since: int, rules: Rules)
    requires rules.Valid() && Inv(s) && Walks(s, cycle.pass, walk, since, rules)
    requires GrowingRun(Rescan(s, cycle.pass, rules), limit, cycle.rounds, rules)
    requires Starving(s, walk, limit, path, blockers, since, rules)
    ensures var after := AfterCycle(s, limit, cycle, rules);
            Inv(after) && Starving(after, walk, limit, path, blockers, since, rules)
  {
    RescanKeepsInv(s, cycle.pass, rules);
    ScanKeepsStarving(s, cycle.pass, walk, limit, path, blockers, since, rules);
    RunKeepsStarving(Rescan(s, cycle.pass, rules), walk, limit, cycle.rounds, path, blockers, since, rules);
  }

  // As long as the directory stays as it is and is walked in the same order, no number of scans and
  // rounds reaches the document.
  lemma {:induction false} ScansDoNotHelp(s: State, walk: seq<Path>, limit: nat, cycles: seq<Cycle>, path: Path,
                                          blockers: set<Path>, since: int, rules: Rules)
    requires rules.Valid() && Inv(s) && Cycles(s, walk, limit, cycles, since, rules)
    requires Starving(s, walk, limit, path, blockers, since, rules)
    ensures Starving(AfterCycles(s, walk, limit, cycles, since, rules), walk, limit, path, blockers, since, rules)
    decreases |cycles|
  {
    if cycles != [] {
      CycleKeepsStarving(s, walk, limit, cycles[0], path, blockers, since, rules);
      ScansDoNotHelp(AfterCycle(s, limit, cycles[0], rules), walk, limit, cycles[1..], path, blockers, since, rules);
    }
  }

  // The table once the worker has failed on the bad files and not come to the good one.
  ghost function Failing(files: map<Path, File>, good: Path): State {
    State(map p | p in files :: FailingRow(files[p], p == good), files, map[], 0)
  }

  function FailingRow(file: File, good: bool): Document {
    var hashed := UpsertRow(None, file, 0);
    if good then hashed.(updatedAt := 2) else FailedRow(hashed, 1)
  }

  // It happens: corrupt files of supported types, as many as a round loads, walked before a good one.
  lemma CorruptFilesStarve(files: map<Path, File>, good: Path, walk: seq<Path>, rules: Rules)
    requires good in files && forall p | p in files :: p.composed && rules.inspects(p, files[p].bytes)
    requires forall p | p in files :: rules.extracts(p, files[p].bytes).Some? <==> p == good
    requires forall p | p in files && p != good :: WalkedBefore(walk, p, good)
    ensures Inv(Failing(files, good))
    ensures var bad := files.Keys - {good};
            Starving(Failing(files, good), walk, |bad|, good, bad, rules.stability, rules)
  {
    var s := Failing(files, good);
    forall p | p in files
      ensures RowOk(p, s.rows[p], s.points) && Steady(s.rows[p], p, files[p], rules.stability, rules)
      ensures p != good ==> GivenUp(s, p, rules)
    {
      MarkedMeansGivenUp(s, p, rules);
    }
  }
}
