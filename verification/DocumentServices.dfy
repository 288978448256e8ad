// The two services as they run: ManagedDocumentService of backend/app/application/services/documents.py and
// LocalKnowledgeService of backend/app/application/services/knowledge.py, over one session.
// Each call is atomic; what it does is tied to the functions of DocumentState.
module DocumentServices {
  import opened Wrappers
  import opened Chunking
  import opened DocumentState

  // The documents table, the managed directory and the knowledge store.
  class Session {
    var documents: Table
    var files: map<Path, File>
    var points: Points

    constructor ()
      ensures documents == map[] && files == map[] && points == map[]
    {
      documents, files, points := map[], map[], map[];
    }

    ghost function State(): State
      reads this
    {
      DocumentState.State(documents, files, points, 0)
    }
  }

  lemma SweepOneMore(rows: Table, done: set<Path>, path: Path, pass: Pass)
    requires path in rows && path !in done
    ensures path in Sweep(rows, done, pass)
    ensures Sweep(rows, done + {path}, pass)
            == Sweep(rows, done, pass)[path := DeleteRow(Sweep(rows, done, pass)[path], pass.At(path))]
  {
  }

  class ManagedDocumentService {
    const session: Session
    const rules: Rules

    constructor (session: Session, rules: Rules)
      ensures this.session == session && this.rules == rules
    {
      this.session, this.rules := session, rules;
    }

    // _upsert_stable
    method UpsertStable(path: Path, file: File, now: int)
      modifies session`documents
      ensures session.documents
              == old(session.documents)[Canon(path) := UpsertRow(Row(old(session.documents), Canon(path)), file, now)]
    {
      var relative, hash := Canon(path), Sha(file.bytes);
      if relative !in session.documents {
        var created := Document(hash, |file.bytes|, file.mtime, Some(now), Ready, Pending, None, 0, NoError, 1, false,
                                None, now);
        session.documents := session.documents[relative := created];
        return;
      }
      var document := session.documents[relative];
      var changed := document.contentHash != hash || document.deletionRequested;
      document := document.(size := |file.bytes|, modified := file.mtime, updatedAt := now);
      if changed {
        document := document.(version := document.version + 1, contentHash := hash, stableSince := Some(now));
        document := document.(local := Ready, knowledge := Pending, indexedHash := None, chunkCount := 0);
        document := document.(error := NoError, deletionRequested := false, deletedAt := None);
      }
      session.documents := session.documents[relative := document];
    }

    // _request_delete
    method RequestDelete(path: Path, removeFile: bool, now: int)
      requires path in session.documents
      modifies session`documents, session`files
      ensures var d := old(session.documents)[path];
              && session.documents == old(session.documents)[path := DeleteRow(d, now)]
              && session.files == if removeFile && !d.deletionRequested then old(session.files) - {path}
                                  else old(session.files)
    {
      var document := session.documents[path];
      if document.deletionRequested {
        assert session.documents[path := document] == session.documents;
        return;
      }
      if removeFile {
        session.files := session.files - {path};
      }
      document := document.(version := document.version + 1, deletionRequested := true, deletedAt := Some(now));
      document := document.(local := LocallyDeleted, knowledge := DeletePending, updatedAt := now);
      session.documents := session.documents[path := document];
    }

    // upload; a refused upload leaves everything as it was
    method Upload(path: Path, file: File, allowed: bool, now: int) returns (accepted: bool)
      modifies session
      ensures accepted <==> allowed && path.composed && rules.inspects(path, file.bytes)
      ensures session.points == old(session.points)
      ensures session.files == if accepted then old(session.files)[path := file] else old(session.files)
      ensures session.documents
              == if accepted
                 then old(session.documents)[path := UpsertRow(Row(old(session.documents), path), file, now)]
                 else old(session.documents)
    {
      accepted := allowed && path.composed && rules.inspects(path, file.bytes);
      if accepted {
        session.files := session.files[path := file];
        UpsertStable(path, file, now);
      }
    }

    // delete; a rejected deletion leaves everything as it was
    method Delete(path: Path, allowed: bool, now: int) returns (accepted: bool)
      modifies session
      ensures accepted <==> allowed && path in old(session.documents)
                            && !old(session.documents)[path].deletionRequested && Canon(path) in old(session.files)
      ensures session.points == old(session.points)
      ensures session.files == if accepted then old(session.files) - {path} else old(session.files)
      ensures session.documents
              == if accepted then old(session.documents)[path := DeleteRow(old(session.documents)[path], now)]
                 else old(session.documents)
    {
      accepted := allowed && path in session.documents && !session.documents[path].deletionRequested
                  && Canon(path) in session.files;
      if accepted {
        RequestDelete(path, true, now);
      }
    }

    // retry; refused unless the document's indexing has failed
    method Retry(path: Path, now: int) returns (accepted: bool)
      modifies session`documents
      ensures accepted <==> path in old(session.documents) && old(session.documents)[path].knowledge.Failed?
      ensures session.documents
              == if accepted then old(session.documents)[path := RetryRow(old(session.documents)[path], now)]
                 else old(session.documents)
    {
      accepted := path in session.documents && session.documents[path].knowledge.Failed?;
      if accepted {
        var document := session.documents[path];
        document := document.(knowledge := Pending, error := NoError);
        document := document.(local := Ready, updatedAt := now);
        session.documents := session.documents[path := document];
      }
    }

    // The body of reconcile's loop.
    method ScanFile(path: Path, file: File, churning: bool, now: int, stamp: int) returns (verdict: Verdict)
      requires path in session.files && session.files[path] == file
      modifies session`documents
      ensures var pass := Pass(session.files, [], if churning then {path} else {}, now, stamp, map[path := stamp]);
              && session.documents == ScanOne(old(session.documents), pass, path, rules)
              && verdict == JudgeOf(old(session.documents), pass, path, rules)
    {
      if path !in session.documents {
        session.documents := session.documents[path := FreshRow(file, now)];
        return Delayed;
      }
      var document := session.documents[path];
      if document.deletionRequested {
        return Skipped;
      }
      if document.size != |file.bytes| || document.modified != file.mtime {
        document := document.(size := |file.bytes|, modified := file.mtime, stableSince := Some(now));
        document := document.(local := WaitingForStability, updatedAt := stamp);
        session.documents := session.documents[path := document];
        return Delayed;
      }
      if now - document.stableSince.GetOr(now) < rules.stability {
        assert session.documents[path := document] == session.documents;
        return Delayed;
      }
      if !rules.inspects(path, file.bytes) {
        session.documents := session.documents[path := document.Touched(document.(local := Unsupported), stamp)];
        return Rejected;
      }
      if churning {
        var waiting := document.(stableSince := Some(now), local := WaitingForStability);
        session.documents := session.documents[path := document.Touched(waiting, stamp)];
        return Delayed;
      }
      var before := document.contentHash;
      UpsertStable(path, file, stamp);
      return if before == Sha(file.bytes) then Unchanged else if before == NoHash then Discovered else Changed;
    }

    // The first loop of reconcile.
    method ScanFiles(pass: Pass) returns (counts: Counts)
      requires pass.Valid() && pass.files == session.files
      modifies session`documents
      ensures session.documents == Scan(old(session.documents), pass, pass.walk, rules)
      ensures counts == ScanCounts(old(session.documents), pass, pass.walk, rules)
    {
      ghost var rows := session.documents;
      var walk := pass.walk;
      counts := NOTHING;
      for i := 0 to |walk|
        invariant session.documents == Scan(rows, pass, walk[..i], rules)
        invariant counts == ScanCounts(rows, pass, walk[..i], rules)
      {
        assert walk[..i + 1][..i] == walk[..i];
        var verdict := ScanFile(walk[i], session.files[walk[i]], walk[i] in pass.churning, pass.now, pass.At(walk[i]));
        counts := counts.Bump(verdict);
      }
      assert walk[..|walk|] == walk;
    }

    // The second loop of reconcile: every live row whose path was not walked.
    method RemoveMissing(pass: Pass) returns (removed: nat)
      modifies session`documents, session`files
      ensures session.documents == Sweep(old(session.documents), Orphans(old(session.documents), pass), pass)
      ensures removed == |Orphans(old(session.documents), pass)|
      ensures session.files == old(session.files)
    {
      ghost var rows, files := session.documents, session.files;
      var gone := set p | p in session.documents && session.documents[p].Live() && p !in pass.walk;
      ghost var orphans, done: set<Path> := gone, {};
      removed := 0;
      while gone != {}
        invariant orphans == done + gone && done !! gone && orphans <= rows.Keys
        invariant session.documents == Sweep(rows, done, pass) && session.files == files
        invariant removed == |done|
        decreases gone
      {
        var path :| path in gone;
        SweepOneMore(rows, done, path, pass);
        RequestDelete(path, false, pass.At(path));
        gone, done := gone - {path}, done + {path};
        removed := removed + 1;
      }
    }

    // reconcile: the walk and the clock readings come from outside.
    method Reconcile(pass: Pass) returns (counts: Counts)
      requires pass.Valid() && pass.files == session.files
      modifies session`documents, session`files
      ensures session.files == old(session.files)
      ensures session.documents == Reconciled(old(session.documents), pass, rules)
      ensures counts == ReconcileCounts(old(session.documents), pass, rules)
    {
      counts := ScanFiles(pass);
      var removed := RemoveMissing(pass);
      counts := counts.(removed := removed);
    }

    // reconcile_with_stability: `second` describes the pass after the sleep, if there is one.
    method ReconcileWithStability(first: Pass, second: Pass) returns (counts: Counts)
      requires first.Valid() && second.Valid() && first.files == second.files == session.files
      modifies session`documents, session`files
      ensures session.files == old(session.files)
      ensures var once := ReconcileCounts(old(session.documents), first, rules);
              var again := ReconcileCounts(Reconciled(old(session.documents), first, rules), second, rules);
              && session.documents == (if once.delayed == 0 then Reconciled(old(session.documents), first, rules)
                                       else Reconciled(Reconciled(old(session.documents), first, rules), second, rules))
              && counts == if once.delayed == 0 then once
                           else Counts(once.discovered + again.discovered, once.changed + again.changed, again.same,
                                       once.removed + again.removed, again.delayed)
    {
      counts := Reconcile(first);
      if counts.delayed > 0 {
        var again := Reconcile(second);
        counts := Counts(counts.discovered + again.discovered, counts.changed + again.changed, again.same,
                         counts.removed + again.removed, again.delayed);
      }
    }
  }

  class LocalKnowledgeService {
    const session: Session
    const rules: Rules

    constructor (session: Session, rules: Rules)
      ensures this.session == session && this.rules == rules
    {
      this.session, this.rules := session, rules;
    }

    method IndexDocument(path: Path, registered: bool, fault: StoreFault, now: int) returns (ending: Ending)
      requires rules.Valid() && path in session.documents
      modifies session`documents, session`points
      ensures var w := IndexWork(old(session.documents)[path], path, FileAt(session.files, path), old(session.points),
                                 registered, fault, now, rules);
              && session.documents == old(session.documents)[path := w.row]
              && session.points == w.points && ending == w.ending
    {
      var document := session.documents[path];
      assert session.documents[path := document] == session.documents;
      if !registered {
        return Stop;
      }
      if path !in session.files {
        return Broken;
      }
      var sections := rules.extracts(path, session.files[path].bytes);
      if sections.None? {
        return Broken;
      }
      var chunks := Chunks(sections.value, rules.limits);
      if fault.DeleteFails? {
        if fault.applied {
          session.points := Without(session.points, path);
        }
        return Broken;
      }
      session.points := Without(session.points, path);
      if fault.UpsertFails? && chunks != [] {
        if fault.applied {
          session.points := session.points + PointsFor(path, document.contentHash, chunks);
        }
        return Broken;
      }
      session.points := session.points + PointsFor(path, document.contentHash, chunks);
      var indexed := document.(knowledge := Indexed, indexedHash := Some(document.contentHash));
      indexed := indexed.(chunkCount := |chunks|, error := NoError, local := LocallyIndexed);
      session.documents := session.documents[path := document.Touched(indexed, now)];
      return Done;
    }

    method DeleteDocument(path: Path, registered: bool, fault: StoreFault, now: int) returns (ending: Ending)
      requires path in session.documents
      modifies session`documents, session`points
      ensures var w := DeleteWork(old(session.documents)[path], path, old(session.points), registered, fault, now);
              && session.documents == old(session.documents)[path := w.row]
              && session.points == w.points && ending == w.ending
    {
      var document := session.documents[path];
      assert session.documents[path := document] == session.documents;
      if !registered {
        return Stop;
      }
      if fault.DeleteFails? {
        if fault.applied {
          session.points := Without(session.points, path);
        }
        return Broken;
      }
      session.points := Without(session.points, path);
      var deleted := document.(knowledge := Deleted, chunkCount := 0, indexedHash := None, error := NoError);
      session.documents := session.documents[path := document.Touched(deleted, now)];
      return Done;
    }

    // One document of process_pending, with the exception handlers.
    method ProcessOne(path: Path, registered: bool, fault: StoreFault, now: int) returns (ending: Ending)
      requires rules.Valid() && path in session.documents
      modifies session`documents, session`points
      ensures var w := Turn(old(session.documents)[path], path, FileAt(session.files, path), old(session.points),
                            registered, fault, now, rules);
              && session.documents == old(session.documents)[path := w.row]
              && session.points == w.points && ending == w.ending
    {
      var document := session.documents[path];
      if document.deletionRequested || document.knowledge.DeletePending? {
        ending := DeleteDocument(path, registered, fault, now);
      } else if document.indexedHash != Some(document.contentHash) {
        ending := IndexDocument(path, registered, fault, now);
      } else {
        assert session.documents[path := document] == session.documents;
        ending := Done;
      }
      if ending.Stop? {
        var waiting := document.(knowledge := Pending, error := RegistrationRequired);
        session.documents := session.documents[path := document.Touched(waiting, now)];
      } else if ending.Broken? {
        var failed := document.(knowledge := Failed, error := Unavailable, local := IndexFailed);
        session.documents := session.documents[path := document.Touched(failed, now)];
      }
    }

    // process_pending: the batch is what its query returned.
    method ProcessPending(round: Round) returns (processed: nat)
      requires rules.Valid() && |round.batch| == |round.faults|
      requires forall p | p in round.batch :: p in session.documents
      modifies session`documents, session`points
      ensures session.State() == Process(old(session.State()), round, 0, rules)
      ensures processed == Processed(old(session.State()), round, 0, rules)
    {
      ghost var start := session.State();
      processed := 0;
      var k := 0;
      while k < |round.batch|
        invariant 0 <= k <= |round.batch|
        invariant session.documents.Keys == start.rows.Keys && session.files == start.files
        invariant Process(start, round, 0, rules) == Process(session.State(), round, k, rules)
        invariant Processed(start, round, 0, rules) == processed + Processed(session.State(), round, k, rules)
      {
        ghost var before := session.State();
        var ending := ProcessOne(round.batch[k], round.registered, round.faults[k], round.At(round.batch[k]));
        assert session.State() == TakeTurn(before, round, k, rules);
        if ending.Stop? {
          break;
        }
        if ending.Done? {
          processed := processed + 1;
        }
        k := k + 1;
      }
    }
  }
}
