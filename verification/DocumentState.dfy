// Managed documents (backend/app/application/services/documents.py) and the local knowledge
// index (backend/app/application/services/knowledge.py): the tables both services share, and
// what one service call does to them, as functions on values.
module DocumentState {
  import opened Wrappers
  import opened Chunking

  type Bytes = string

  // The content_hash column: "" before the first stable scan, then the digest of the bytes.
  // The digest is modelled as injective.
  datatype Hash = NoHash | Sha(bytes: Bytes)

  // A path below the managed directory: its canonical spelling, and whether this is that
  // spelling.  _safe_relative_path composes every path it accepts (Unicode form NFC).
  datatype Path = Path(name: string, composed: bool)

  function Canon(path: Path): Path { path.(composed := true) }

  datatype File = File(bytes: Bytes, mtime: int)

  datatype KnowledgeStatus = Pending | Indexed | Failed | DeletePending | Deleted

  datatype LocalStatus = WaitingForStability | Ready | Unsupported | LocallyIndexed | IndexFailed | LocallyDeleted

  datatype KnowledgeError = NoError | RegistrationRequired | Unavailable

  // A row of the documents table.  (source_id, relative_path) is unique and rows are never
  // removed, so the path stands for the row's id.
  datatype Document = Document(
    contentHash: Hash, size: nat, modified: int, stableSince: Option<int>, local: LocalStatus,
    knowledge: KnowledgeStatus, indexedHash: Option<Hash>, chunkCount: nat, error: KnowledgeError,
    version: nat, deletionRequested: bool, deletedAt: Option<int>, updatedAt: int)
  {
    predicate Live() { deletedAt.None? }

    // updated_at has an onupdate hook: it moves only when some column really changes.
    function Touched(changed: Document, now: int): Document {
      if changed == this then this else changed.(updatedAt := now)
    }

    predicate Queued() { knowledge.Pending? || knowledge.Failed? || knowledge.DeletePending? }
  }

  type Table = map<Path, Document>

  function Row(rows: Table, path: Path): Option<Document> {
    if path in rows then Some(rows[path]) else None
  }

  // uuid5(document.id, f"{content_hash}:{index}"), modelled as injective.
  datatype PointId = PointId(document: Path, hash: Hash, index: nat)

  type Points = map<PointId, Piece>

  // The code the model does not look into: which bytes _inspect_file accepts under a path, which
  // sanitised sections _parse extracts (None where it raises); and two settings.
  datatype Rules = Rules(
    inspects: (Path, Bytes) -> bool, extracts: (Path, Bytes) -> Option<seq<string>>,
    limits: Limits, stability: int)
  {
    ghost predicate Valid() { limits.Sound() && stability >= 1 }
  }

  datatype State = State(rows: Table, files: map<Path, File>, points: Points, clock: int)

  // ---- one row --------------------------------------------------------------------------------

  // The row reconcile creates for a file it has not seen.
  function FreshRow(file: File, now: int): Document {
    Document(NoHash, |file.bytes|, file.mtime, Some(now), WaitingForStability, Pending, None, 0, NoError, 1,
             false, None, now)
  }

  // _upsert_stable on the row of the path it composes.
  function UpsertRow(row: Option<Document>, file: File, now: int): Document {
    var hash := Sha(file.bytes);
    match row
    case None => FreshRow(file, now).(contentHash := hash, local := Ready)
    case Some(d) =>
      if d.contentHash == hash && !d.deletionRequested
      then d.(size := |file.bytes|, modified := file.mtime, updatedAt := now)
      else d.(version := d.version + 1, size := |file.bytes|, modified := file.mtime, contentHash := hash,
              stableSince := Some(now), local := Ready, knowledge := Pending, indexedHash := None, chunkCount := 0,
              error := NoError, deletionRequested := false, deletedAt := None, updatedAt := now)
  }

  // _request_delete.
  function DeleteRow(d: Document, now: int): Document {
    if d.deletionRequested then d
    else d.(version := d.version + 1, deletionRequested := true, deletedAt := Some(now), local := LocallyDeleted,
            knowledge := DeletePending, updatedAt := now)
  }

  // What reconcile makes of one walked file.
  datatype Sighting = Skip | Delay(row: Document) | Reject(row: Document) | Accept

  // `now` is the reading of the clock the pass starts with, `stamp` the one its write of the row is
  // stamped with; `churning` says that the two stats around the hashing differ.
  function Sight(row: Option<Document>, path: Path, file: File, churning: bool, now: int, stamp: int, rules: Rules): Sighting {
    match row
    case None => Delay(FreshRow(file, now))
    case Some(d) =>
      if d.deletionRequested then Skip
      else if d.size != |file.bytes| || d.modified != file.mtime then
        Delay(d.(size := |file.bytes|, modified := file.mtime, stableSince := Some(now), local := WaitingForStability,
                 updatedAt := stamp))
      else if now - d.stableSince.GetOr(now) < rules.stability then Delay(d)
      else if !rules.inspects(path, file.bytes) then Reject(d.Touched(d.(local := Unsupported), stamp))
      else if churning then
        Delay(d.Touched(d.(stableSince := Some(now), local := WaitingForStability), stamp))
      else Accept
  }

  datatype Verdict = Skipped | Delayed | Rejected | Discovered | Changed | Unchanged

  function Judge(row: Option<Document>, path: Path, file: File, churning: bool, now: int, rules: Rules): Verdict {
    match Sight(row, path, file, churning, now, now, rules)
    case Skip => Skipped
    case Delay(_) => Delayed
    case Reject(_) => Rejected
    case Accept =>
      var previous := if row.Some? then row.value.contentHash else NoHash;
      if previous == Sha(file.bytes) then Unchanged else if previous == NoHash then Discovered else Changed
  }

  // ---- reconcile ------------------------------------------------------------------------------

  datatype Counts = Counts(discovered: nat, changed: nat, same: nat, removed: nat, delayed: nat) {
    function Bump(verdict: Verdict): Counts {
      match verdict
      case Delayed => this.(delayed := delayed + 1)
      case Discovered => this.(discovered := discovered + 1)
      case Changed => this.(changed := changed + 1)
      case Unchanged => this.(same := same + 1)
      case Skipped => this
      case Rejected => this
    }
  }

  const NOTHING := Counts(0, 0, 0, 0, 0)

  // One pass over the directory: the walk lists every file once, in some order.  The pass reads the
  // clock once, at `now`, but commits row by row until `end`, and each commit stamps its row.
  datatype Pass = Pass(files: map<Path, File>, walk: seq<Path>, churning: set<Path>, now: int, end: int,
                       stamps: map<Path, int>)
  {
    function At(path: Path): int { if path in stamps then stamps[path] else now }

    ghost predicate Valid() {
      && now <= end
      && (forall p | p in stamps :: now <= stamps[p] <= end)
      && (forall p :: p in walk <==> p in files)
      && Distinct(walk)
    }
  }

  predicate Distinct<T(==)>(s: seq<T>) {
    s == [] || (s[|s| - 1] !in s[..|s| - 1] && Distinct(s[..|s| - 1]))
  }

  function SightOf(rows: Table, pass: Pass, path: Path, rules: Rules): Sighting
    requires path in pass.files
  {
    Sight(Row(rows, path), path, pass.files[path], path in pass.churning, pass.now, pass.At(path), rules)
  }

  function JudgeOf(rows: Table, pass: Pass, path: Path, rules: Rules): Verdict
    requires path in pass.files
  {
    Judge(Row(rows, path), path, pass.files[path], path in pass.churning, pass.now, rules)
  }

  // The loop body of reconcile.
  function ScanOne(rows: Table, pass: Pass, path: Path, rules: Rules): Table
    requires path in pass.files
  {
    match SightOf(rows, pass, path, rules)
    case Skip => rows
    case Delay(row) => rows[path := row]
    case Reject(row) => rows[path := row]
    case Accept => rows[Canon(path) := UpsertRow(Row(rows, Canon(path)), pass.files[path], pass.At(path))]
  }

  // The loop of reconcile over the first files of the walk.
  function Scan(rows: Table, pass: Pass, walk: seq<Path>, rules: Rules): Table
    requires forall p | p in walk :: p in pass.files
  {
    if walk == [] then rows
    else ScanOne(Scan(rows, pass, walk[..|walk| - 1], rules), pass, walk[|walk| - 1], rules)
  }

  function ScanCounts(rows: Table, pass: Pass, walk: seq<Path>, rules: Rules): Counts
    requires forall p | p in walk :: p in pass.files
  {
    if walk == [] then NOTHING
    else
      var before := walk[..|walk| - 1];
      ScanCounts(rows, pass, before, rules).Bump(
        JudgeOf(Scan(rows, pass, before, rules), pass, walk[|walk| - 1], rules))
  }

  // The rows whose file is gone.
  function Orphans(rows: Table, pass: Pass): set<Path> {
    set p | p in rows && rows[p].Live() && p !in pass.walk
  }

  function Sweep(rows: Table, orphans: set<Path>, pass: Pass): Table {
    map p | p in rows :: if p in orphans then DeleteRow(rows[p], pass.At(p)) else rows[p]
  }

  function Reconciled(rows: Table, pass: Pass, rules: Rules): Table
    requires pass.Valid()
  {
    var scanned := Scan(rows, pass, pass.walk, rules);
    Sweep(scanned, Orphans(scanned, pass), pass)
  }

  function ReconcileCounts(rows: Table, pass: Pass, rules: Rules): Counts
    requires pass.Valid()
  {
    var scanned := Scan(rows, pass, pass.walk, rules);
    ScanCounts(rows, pass, pass.walk, rules).(removed := |Orphans(scanned, pass)|)
  }

  // ---- the index ------------------------------------------------------------------------------

  function Own(points: Points, path: Path): Points {
    map id | id in points && id.document == path :: points[id]
  }

  // store.delete_document: removes by the document filter.
  function Without(points: Points, path: Path): Points {
    map id | id in points && id.document != path :: points[id]
  }

  function Ids(path: Path, hash: Hash, count: nat): set<PointId> {
    set i: nat | i < count :: PointId(path, hash, i)
  }

  // store.upsert_chunks of one document's chunks.
  function PointsFor(path: Path, hash: Hash, pieces: seq<Piece>): Points {
    map id | id in Ids(path, hash, |pieces|) :: pieces[id.index]
  }

  // How the store answers one document's requests.  A failing request may have been applied.
  datatype StoreFault = Healthy | DeleteFails(applied: bool) | UpsertFails(applied: bool)

  // How one document's turn in process_pending ends; Stop leaves the loop.
  datatype Ending = Done | Stop | Broken

  datatype Worked = Worked(row: Document, points: Points, ending: Ending)

  // LocalKnowledgeService.index_document.
  function IndexWork(d: Document, path: Path, file: Option<File>, points: Points, registered: bool, fault: StoreFault,
                     now: int, rules: Rules): Worked
    requires rules.Valid()
  {
    if !registered then Worked(d, points, Stop)
    else if file.None? || rules.extracts(path, file.value.bytes).None? then Worked(d, points, Broken)
    else if fault.DeleteFails? then Worked(d, if fault.applied then Without(points, path) else points, Broken)
    else
      var pieces := Pieces(rules.extracts(path, file.value.bytes).value, rules.limits);
      var replaced := Without(points, path) + PointsFor(path, d.contentHash, pieces);
      if fault.UpsertFails? && pieces != []
      then Worked(d, if fault.applied then replaced else Without(points, path), Broken)
      else Worked(d.Touched(d.(knowledge := Indexed, indexedHash := Some(d.contentHash), chunkCount := |pieces|,
                               error := NoError, local := LocallyIndexed), now), replaced, Done)
  }

  // LocalKnowledgeService.delete_document.
  function DeleteWork(d: Document, path: Path, points: Points, registered: bool, fault: StoreFault, now: int): Worked {
    if !registered then Worked(d, points, Stop)
    else if fault.DeleteFails? then Worked(d, if fault.applied then Without(points, path) else points, Broken)
    else Worked(d.Touched(d.(knowledge := Deleted, chunkCount := 0, indexedHash := None, error := NoError), now),
                Without(points, path), Done)
  }

  // One document's turn, with what the exception handlers write.
  function Turn(d: Document, path: Path, file: Option<File>, points: Points, registered: bool, fault: StoreFault,
                now: int, rules: Rules): Worked
    requires rules.Valid()
  {
    var worked :=
      if d.deletionRequested || d.knowledge.DeletePending? then DeleteWork(d, path, points, registered, fault, now)
      else if d.indexedHash != Some(d.contentHash) then
        IndexWork(d, path, file, points, registered, fault, now, rules)
      else Worked(d, points, Done);
    match worked.ending
    case Done => worked
    case Stop => worked.(row := d.Touched(d.(knowledge := Pending, error := RegistrationRequired), now))
    case Broken => worked.(row := d.Touched(d.(knowledge := Failed, error := Unavailable, local := IndexFailed), now))
  }

  function FileAt(files: map<Path, File>, path: Path): Option<File> {
    if path in files then Some(files[path]) else None
  }

  // A round of the worker, from `now` on: the documents it loaded, how the store answers each, and
  // when each turn commits.
  datatype Round = Round(batch: seq<Path>, faults: seq<StoreFault>, registered: bool, now: int, stamps: map<Path, int>) {
    function At(path: Path): int { if path in stamps then stamps[path] else now }

    ghost predicate Valid() {
      && |batch| == |faults|
      && forall p | p in stamps :: now <= stamps[p]
    }
  }

  function TurnOf(s: State, round: Round, k: nat, rules: Rules): Worked
    requires rules.Valid() && k < |round.batch| == |round.faults| && round.batch[k] in s.rows
  {
    var path := round.batch[k];
    Turn(s.rows[path], path, FileAt(s.files, path), s.points, round.registered, round.faults[k], round.At(path), rules)
  }

  function TakeTurn(s: State, round: Round, k: nat, rules: Rules): State
    requires rules.Valid() && k < |round.batch| == |round.faults| && round.batch[k] in s.rows
  {
    var worked := TurnOf(s, round, k, rules);
    s.(rows := s.rows[round.batch[k] := worked.row], points := worked.points)
  }

  // process_pending from the k-th document of its batch on.
  function Process(s: State, round: Round, k: nat, rules: Rules): State
    requires rules.Valid() && k <= |round.batch| == |round.faults|
    requires forall p | p in round.batch :: p in s.rows
    decreases |round.batch| - k
  {
    if k == |round.batch| then s
    else
      var next := TakeTurn(s, round, k, rules);
      if TurnOf(s, round, k, rules).ending.Stop? then next else Process(next, round, k + 1, rules)
  }

  // The number process_pending returns.
  function Processed(s: State, round: Round, k: nat, rules: Rules): nat
    requires rules.Valid() && k <= |round.batch| == |round.faults|
    requires forall p | p in round.batch :: p in s.rows
    decreases |round.batch| - k
  {
    if k == |round.batch| then 0
    else
      var next, ending := TakeTurn(s, round, k, rules), TurnOf(s, round, k, rules).ending;
      if ending.Stop? then 0
      else (if ending.Done? then 1 else 0) + Processed(next, round, k + 1, rules)
  }

  function Queue(rows: Table): set<Path> {
    set p | p in rows && rows[p].Queued()
  }

  function Members<T(==)>(s: seq<T>): set<T> {
    set x | x in s
  }

  // What the worker's query may return: the least recently updated documents of the queue, at
  // most `limit` of them.
  ghost predicate OldestFirst(rows: Table, limit: nat, batch: seq<Path>) {
    && Distinct(batch)
    && (forall p | p in batch :: p in rows && rows[p].Queued())
    && |batch| == Min(limit, |Queue(rows)|)
    && forall p, q | p in batch && q in rows && rows[q].Queued() && q !in batch :: rows[p].updatedAt <= rows[q].updatedAt
  }

  // ---- runs -----------------------------------------------------------------------------------

  // One service call, or a change somebody makes in the managed directory.  `allowed` stands for
  // the checks that are not part of this model: upload validation and delete eligibility.
  datatype Action =
    | Copy(path: Path, file: File)
    | Remove(path: Path)
    | Upload(path: Path, file: File, allowed: bool)
    | Delete(path: Path, allowed: bool)
    | Retry(path: Path)
    | Reconcile(pass: Pass)
    | Work(limit: nat, round: Round)

  datatype Event = Event(now: int, action: Action) {
    function End(): int { if action.Reconcile? then action.pass.end else now }
  }

  ghost predicate Possible(s: State, e: Event) {
    match e.action
    case Reconcile(pass) => pass.now == e.now && pass.files == s.files && pass.Valid()
    case Work(limit, round) =>
      round.now == e.now && round.Valid() && OldestFirst(s.rows, limit, round.batch)
    case _ => true
  }

  ghost function Step(s: State, e: Event, rules: Rules): State
    requires rules.Valid() && Possible(s, e)
  {
    var after := match e.action
      case Copy(path, file) => s.(files := s.files[path := file])
      case Remove(path) => s.(files := s.files - {path})
      case Upload(path, file, allowed) =>
        // _safe_filename refuses a name that is not composed
        if allowed && path.composed && rules.inspects(path, file.bytes)
        then s.(files := s.files[path := file], rows := s.rows[path := UpsertRow(Row(s.rows, path), file, e.now)])
        else s
      case Delete(path, allowed) =>
        if allowed && path in s.rows && !s.rows[path].deletionRequested && Canon(path) in s.files
        then s.(files := s.files - {path}, rows := s.rows[path := DeleteRow(s.rows[path], e.now)])
        else s
      case Retry(path) =>
        if path in s.rows && s.rows[path].knowledge.Failed?
        then s.(rows := s.rows[path := RetryRow(s.rows[path], e.now)])
        else s
      case Reconcile(pass) => s.(rows := Reconciled(s.rows, pass, rules))
      case Work(limit, round) => Process(s, round, 0, rules);
    after.(clock := Max(s.clock, e.End()))
  }

  function RetryRow(d: Document, now: int): Document {
    d.(knowledge := Pending, error := NoError, local := Ready, updatedAt := now)
  }

  // A run: every event is possible in the state it meets.
  ghost predicate Runs(s: State, events: seq<Event>, rules: Rules)
    requires rules.Valid()
    decreases |events|
  {
    events == [] || (Possible(s, events[0]) && Runs(Step(s, events[0], rules), events[1..], rules))
  }

  ghost function Run(s: State, events: seq<Event>, rules: Rules): State
    requires rules.Valid() && Runs(s, events, rules)
    decreases |events|
  {
    if events == [] then s else Run(Step(s, events[0], rules), events[1..], rules)
  }

  const EMPTY := State(map[], map[], map[], 0)
}
