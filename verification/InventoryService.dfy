// InventoryService of backend/app/application/services/inventory.py as it runs.
module InventoryServices {
  import opened Wrappers
  import opened InventoryModel

  // ---- rank by rank ---------------------------------------------------------------------------

  lemma RankIsOneToOne()
    ensures forall k | 0 <= k < KINDS :: Rank(PRIORITY[k]) == k
  {
  }

  function JoinedBelow(table: Table, listed: seq<Identity>, rank: nat): set<AssetId>
    requires rank <= KINDS
  {
    if rank == 0 then {} else JoinedBelow(table, listed, rank - 1) + HitsAt(table, listed, rank - 1)
  }

  lemma UpToOneMore(table: Table, listed: seq<Identity>, rank: nat)
    requires 0 < rank < KINDS
    ensures HitsUpTo(table, listed, rank) == HitsUpTo(table, listed, rank - 1) + HitsAt(table, listed, rank)
  {
    RankIsOneToOne();
    assert forall key | key in table :: Rank(key.kind) == rank <==> key.kind == PRIORITY[rank];
  }

  lemma {:induction false} JoinedIsUpTo(table: Table, listed: seq<Identity>, rank: nat)
    requires rank < KINDS
    ensures JoinedBelow(table, listed, rank + 1) == HitsUpTo(table, listed, rank)
  {
    if rank > 0 {
      JoinedIsUpTo(table, listed, rank - 1);
      UpToOneMore(table, listed, rank);
    } else {
      RankIsOneToOne();
      assert forall key | key in table :: Rank(key.kind) <= 0 <==> key.kind == PRIORITY[0];
      assert JoinedBelow(table, listed, 1) == HitsAt(table, listed, 0);
    }
  }

  lemma {:induction false} JoinedOfNothing(table: Table, listed: seq<Identity>, rank: nat)
    requires rank <= KINDS && forall r: nat | r < rank :: HitsAt(table, listed, r) == {}
    ensures JoinedBelow(table, listed, rank) == {}
  {
    if rank > 0 {
      JoinedOfNothing(table, listed, rank - 1);
    }
  }

  lemma FirstHitIsEvidence(table: Table, listed: seq<Identity>)
    ensures var first := FirstHit(table, listed, 0);
            if first == KINDS then Evidence(table, listed) == {} else HitsAt(table, listed, first) <= Evidence(table, listed)
  {
    var first := FirstHit(table, listed, 0);
    if first == KINDS {
      JoinedOfNothing(table, listed, KINDS);
      JoinedIsUpTo(table, listed, KINDS - 1);
    } else {
      RankIsOneToOne();
    }
  }

  function MatchesBelow(table: Table, listed: seq<Identity>, rank: nat): set<AssetId>
    requires rank <= KINDS
  {
    if rank == 0 then {}
    else MatchesBelow(table, listed, rank - 1) + Linked(table, PRIORITY[rank - 1], OwnValues(PRIORITY[rank - 1], listed))
  }

  function MatchesUnder(table: Table, listed: seq<Identity>, rank: nat): set<AssetId> {
    set key | key in table && Rank(key.kind) < rank && key.value in OwnValues(key.kind, listed)
              && table[key].asset.Some? :: table[key].asset.value
  }

  lemma {:induction false} MatchesBelowRank(table: Table, listed: seq<Identity>, rank: nat)
    requires rank <= KINDS
    ensures MatchesBelow(table, listed, rank) == MatchesUnder(table, listed, rank)
  {
    if rank > 0 {
      RankIsOneToOne();
      MatchesBelowRank(table, listed, rank - 1);
      assert forall key | key in table :: Rank(key.kind) == rank - 1 <==> key.kind == PRIORITY[rank - 1];
      assert MatchesUnder(table, listed, rank)
          == MatchesUnder(table, listed, rank - 1) + Linked(table, PRIORITY[rank - 1], OwnValues(PRIORITY[rank - 1], listed));
    }
  }

  lemma AllMatches(table: Table, listed: seq<Identity>)
    ensures MatchesBelow(table, listed, KINDS) == Matches(table, listed)
  {
    MatchesBelowRank(table, listed, KINDS);
    assert MatchesUnder(table, listed, KINDS) == Matches(table, listed);
  }

  lemma AtMostOne<T>(s: set<T>, x: T)
    requires |s| <= 1 && x in s
    ensures s == {x}
  {
    assert |s - {x}| == 0;
  }

  lemma RelinkOneMore(table: Table, observation: ObservationId, asset: Option<AssetId>, source: Source,
                      listed: seq<Identity>, last: Identity)
    ensures var key := Key(observation, last.kind, last.value);
            var before := Relink(table, observation, asset, source, listed);
            && KeysOf(observation, listed + [last]) == KeysOf(observation, listed) + {key}
            && Relink(table, observation, asset, source, listed + [last])
               == if key in KeysOf(observation, listed) then before
                  else before[key := Entry(asset, if key in before then before[key].source else source)]
  {
    var key := Key(observation, last.kind, last.value);
    var keys, more := KeysOf(observation, listed), KeysOf(observation, listed + [last]);
    assert more == keys + {key};
    if key in keys {
      assert more == keys;
      SameKeysRelinkAlike(table, observation, asset, source, listed, listed + [last]);
    }
  }

  lemma SameKeysRelinkAlike(table: Table, observation: ObservationId, asset: Option<AssetId>, source: Source,
                            listed: seq<Identity>, other: seq<Identity>)
    requires KeysOf(observation, listed) == KeysOf(observation, other)
    ensures Relink(table, observation, asset, source, listed) == Relink(table, observation, asset, source, other)
  {
  }

  lemma SeveralCandidates(candidates: set<AssetId>, joined: set<AssetId>)
    requires candidates <= joined && candidates != {} && (|joined| > 1 || |candidates| != 1)
    ensures |joined| > 1
  {
    assert |joined| == |candidates| + |joined - candidates| by {
      assert joined == candidates + (joined - candidates);
    }
  }

  // The first `count` strong fields merged.
  function MergedFirst(asset: Asset, record: Record, count: nat): map<Kind, string>
    requires count <= |STRONG|
  {
    if count == 0 then asset.strong
    else
      var before, kind := MergedFirst(asset, record, count - 1), STRONG[count - 1];
      if kind in record.fields && kind !in before then before[kind := record.fields[kind]] else before
  }

  lemma {:induction false} MergedField(asset: Asset, record: Record, count: nat, kind: Kind)
    requires count <= |STRONG|
    ensures var merged := MergedFirst(asset, record, count);
            && (kind in merged <==> kind in asset.strong || (kind in STRONG[..count] && kind in record.fields))
            && (kind in asset.strong ==> merged[kind] == asset.strong[kind])
            && (kind !in asset.strong && kind in merged ==> merged[kind] == record.fields[kind])
  {
    if count > 0 {
      MergedField(asset, record, count - 1, kind);
      assert STRONG[..count] == STRONG[..count - 1] + [STRONG[count - 1]];
    }
  }

  lemma MergedIsMerged(asset: Asset, record: Record)
    ensures MergedFirst(asset, record, |STRONG|) == Merged(asset, record).strong
  {
    assert STRONG[..|STRONG|] == STRONG;
    forall kind
      ensures kind in MergedFirst(asset, record, |STRONG|) <==> kind in Merged(asset, record).strong
      ensures kind in Merged(asset, record).strong ==>
                MergedFirst(asset, record, |STRONG|)[kind] == Merged(asset, record).strong[kind]
    {
      MergedField(asset, record, |STRONG|, kind);
    }
  }

  // A field merged from the record itself cannot clash with it.
  lemma MergedClashes(asset: Asset, record: Record, count: nat, kind: Kind, normal: Normaliser)
    requires count <= |STRONG|
    ensures Clashes(Asset(MergedFirst(asset, record, count)), record, kind, normal) == Clashes(asset, record, kind, normal)
  {
    MergedField(asset, record, count, kind);
  }

  class InventoryService {
    var identities: Table
    var observations: map<ObservationId, Observation>
    var assets: map<AssetId, Asset>
    var log: seq<Correlation>
    var conflicts: seq<Conflict>
    const normal: Normaliser

    constructor (normal: Normaliser)
      ensures State() == EMPTY && this.normal == normal
    {
      identities, observations, assets, log, conflicts := map[], map[], map[], [], [];
      this.normal := normal;
    }

    ghost function State(): Inventory
      reads this
    {
      Inventory(identities, observations, assets, log, conflicts)
    }

    // The rows of one look-up, added to the candidates under the kind that found them.
    method AddCandidates(candidates: map<AssetId, set<Kind>>, hits: set<AssetId>, kind: Kind)
      returns (more: map<AssetId, set<Kind>>)
      requires forall a | a in candidates :: candidates[a] == {kind}
      ensures more.Keys == candidates.Keys + hits
      ensures forall a | a in more :: more[a] == {kind}
    {
      more := candidates;
      var rows := hits;
      while rows != {}
        invariant more.Keys + rows == candidates.Keys + hits
        invariant forall a | a in more :: more[a] == {kind}
        decreases rows
      {
        var asset :| asset in rows;
        more := more[asset := (if asset in more then more[asset] else {}) + {kind}];
        rows := rows - {asset};
      }
    }

    // The first loop of correlate_prometheus: the candidates at the first priority that has any.
    method FirstCandidates(listed: seq<Identity>) returns (candidates: map<AssetId, set<Kind>>, priority: nat)
      ensures priority == FirstHit(identities, listed, 0)
      ensures priority == KINDS ==> candidates == map[]
      ensures priority < KINDS ==> candidates.Keys == HitsAt(identities, listed, priority)
      ensures priority < KINDS ==> forall a | a in candidates :: candidates[a] == {PRIORITY[priority]}
    {
      candidates, priority := map[], 0;
      while priority < KINDS
        invariant priority <= KINDS && candidates == map[]
        invariant FirstHit(identities, listed, 0) == FirstHit(identities, listed, priority)
      {
        var kind := PRIORITY[priority];
        var values := LookupValues(kind, listed);
        var todo := values;
        while todo != {}
          invariant todo <= values
          invariant candidates.Keys == Declared(identities, kind, values - todo)
          invariant forall a | a in candidates :: candidates[a] == {kind}
          decreases todo
        {
          var value :| value in todo;
          assert Declared(identities, kind, values - (todo - {value}))
              == Declared(identities, kind, values - todo) + Declared(identities, kind, {value});
          candidates := AddCandidates(candidates, Declared(identities, kind, {value}), kind);
          todo := todo - {value};
        }
        assert values - todo == values;
        if candidates != map[] {
          assert candidates.Keys != {};
          return;
        }
        assert HitsAt(identities, listed, priority) == candidates.Keys == {};
        priority := priority + 1;
      }
    }

    // The second pass: every exact hit, by kind.
    method AllExact(listed: seq<Identity>) returns (exact: map<Kind, set<AssetId>>)
      ensures forall r: nat | r < KINDS :: GetExact(exact, PRIORITY[r]) == HitsAt(identities, listed, r)
    {
      exact := map[];
      RankIsOneToOne();
      for k := 0 to KINDS
        invariant forall r: nat | r < KINDS ::
                    GetExact(exact, PRIORITY[r]) == if r < k then HitsAt(identities, listed, r) else {}
      {
        var values := LookupValues(PRIORITY[k], listed);
        if values != {} {
          exact := exact[PRIORITY[k] := Declared(identities, PRIORITY[k], values)];
        } else {
          assert HitsAt(identities, listed, k) == {};
        }
      }
    }

    // The exact hits no weaker than the conflict ceiling, joined.
    method JoinExact(listed: seq<Identity>, ceiling: nat) returns (joined: set<AssetId>)
      requires ceiling < KINDS
      ensures joined == HitsUpTo(identities, listed, ceiling)
    {
      var exact := AllExact(listed);
      joined := {};
      for r := 0 to ceiling + 1
        invariant joined == JoinedBelow(identities, listed, r)
      {
        joined := joined + GetExact(exact, PRIORITY[r]);
      }
      JoinedIsUpTo(identities, listed, ceiling);
    }

    // all_exact.get(kind, set())
    function GetExact(exact: map<Kind, set<AssetId>>, kind: Kind): set<AssetId> {
      if kind in exact then exact[kind] else {}
    }

    // The automatic part of correlate_prometheus.
    method Automatic(listed: seq<Identity>) returns (decision: Decision)
      ensures Follows(decision, identities, listed)
    {
      var candidates, priority := FirstCandidates(listed);
      var ceiling := if priority == KINDS then KINDS - 1 else if priority < FQDN_RANK then FQDN_RANK else priority;
      var joined := JoinExact(listed, ceiling);
      assert joined == Evidence(identities, listed);
      FirstHitIsEvidence(identities, listed);
      var conflicting := |joined| > 1;
      if candidates == map[] {
        assert priority == KINDS;
        return Nothing;
      }
      var asset :| asset in candidates;
      if conflicting || |candidates| != 1 {
        SeveralCandidates(candidates.Keys, joined);
        assert |candidates| == |candidates.Keys|;
        return Conflicting;
      }
      AtMostOne(joined, asset);
      assert candidates[asset] == {PRIORITY[priority]};
      var kind :| kind in candidates[asset];
      return MatchedTo(asset, kind);
    }

    // The look-ups of _find_asset: each matching asset with the kinds it matches through.
    method FindMatches(listed: seq<Identity>) returns (matches: map<AssetId, set<Kind>>)
      ensures matches.Keys == Matches(identities, listed)
    {
      matches := map[];
      for k := 0 to KINDS
        invariant matches.Keys == MatchesBelow(identities, listed, k)
      {
        var values := OwnValues(PRIORITY[k], listed);
        var ids := if values == {} then {} else Linked(identities, PRIORITY[k], values);
        assert ids == Linked(identities, PRIORITY[k], values);
        matches := matches + map a | a in ids :: (if a in matches then matches[a] else {}) + {PRIORITY[k]};
      }
      AllMatches(identities, listed);
    }

    // _find_asset
    method FindAsset(listed: seq<Identity>) returns (finding: Finding)
      ensures Finds(finding, identities, listed)
    {
      var matches := FindMatches(listed);
      assert |matches| == |matches.Keys|;
      if |matches| != 1 {
        return NotFound(|matches| > 1);
      }
      var asset :| asset in matches;
      AtMostOne(matches.Keys, asset);
      for k := 0 to |listed|
        invariant forall j | 0 <= j < k :: !Contradicts(identities, asset, listed[j])
      {
        var values := KnownBy(identities, asset, listed[k].kind);
        if values != {} && listed[k].value !in values {
          assert Contradicts(identities, asset, listed[k]);
          return NotFound(true);
        }
      }
      return Found(asset);
    }

    // _replace_identities
    method ReplaceIdentities(observation: ObservationId, asset: Option<AssetId>, source: Source, listed: seq<Identity>)
      modifies this`identities
      ensures identities == Relink(old(identities), observation, asset, source, listed)
    {
      var pending: set<Key> := {};
      ghost var start := identities;
      for k := 0 to |listed|
        invariant pending == KeysOf(observation, listed[..k])
        invariant identities == Relink(start, observation, asset, source, listed[..k])
      {
        assert listed[..k + 1] == listed[..k] + [listed[k]];
        RelinkOneMore(start, observation, asset, source, listed[..k], listed[k]);
        var key := Key(observation, listed[k].kind, listed[k].value);
        if key !in pending {
          pending := pending + {key};
          identities := identities[key := if key in identities then identities[key].(asset := asset)
                                          else Entry(asset, source)];
        }
      }
      assert listed[..|listed|] == listed;
    }

    // The writes of ingest_cmdb_record that link the observation to its asset.
    method LinkRecord(observation: ObservationId, id: AssetId, source: Source, ambiguous: bool, listed: seq<Identity>)
      modifies this`observations, this`identities, this`log
      ensures observations == old(observations)[observation :=
                Observation(source, Some(id), if ambiguous then Ambiguous else Observed)]
      ensures identities == Relink(old(identities), observation, Some(id), source, listed)
      ensures log == old(log) + [Correlation(observation, Some(id), false, if ambiguous then Proposed else Matched)]
    {
      observations := observations[observation := Observation(source, Some(id), if ambiguous then Ambiguous else Observed)];
      ReplaceIdentities(observation, Some(id), source, listed);
      log := log + [Correlation(observation, Some(id), false, if ambiguous then Proposed else Matched)];
    }

    // ingest_cmdb_record; `spare` is the id a new asset would get.
    method IngestCmdbRecord(observation: ObservationId, record: Record, spare: AssetId) returns (finding: Finding)
      requires spare !in assets
      requires forall key | key in identities && identities[key].asset.Some? :: identities[key].asset.value in assets
      modifies this
      ensures Finds(finding, old(identities), IdentitiesOf(record, normal))
      ensures finding.Found? ==> finding.asset in old(assets)
      ensures State() == Ingest(old(State()), observation, record, finding, spare, normal)
    {
      var listed := IdentitiesOf(record, normal);
      finding := FindAsset(listed);
      var source := if observation in observations then observations[observation].source else Cmdb;
      var ambiguous := finding.NotFound? && finding.ambiguous;
      var id, asset;
      if finding.Found? {
        id, asset := finding.asset, assets[finding.asset];
      } else {
        id, asset := spare, Asset(map kind | kind in STRONG && kind in record.fields :: record.fields[kind]);
      }
      LinkRecord(observation, id, source, ambiguous, listed);
      MergeFields(id, asset, observation, record);
      if ambiguous {
        conflicts := conflicts + [Conflict(Some(id), observation, None)];
      }
    }

    // The strong fields of _merge_cmdb_fields.
    method MergeFields(id: AssetId, asset: Asset, observation: ObservationId, record: Record)
      modifies this`assets, this`conflicts
      ensures assets == old(assets)[id := Merged(asset, record)]
      ensures conflicts == old(conflicts) + ClashesOf(asset, id, observation, record, |STRONG|, normal)
    {
      var strong := asset.strong;
      ghost var before := conflicts;
      for k := 0 to |STRONG|
        invariant assets == old(assets) && strong == MergedFirst(asset, record, k)
        invariant conflicts == before + ClashesOf(asset, id, observation, record, k, normal)
      {
        var kind := STRONG[k];
        MergedClashes(asset, record, k, kind, normal);
        if Clashes(Asset(strong), record, kind, normal) {
          conflicts := conflicts + [Conflict(Some(id), observation, Some(kind))];
        } else if kind !in strong && kind in record.fields {
          strong := strong[kind := record.fields[kind]];
        }
      }
      MergedIsMerged(asset, record);
      assets := assets[id := Asset(strong)];
    }

    // correlate_prometheus
    method CorrelatePrometheus(observation: ObservationId, listed: seq<Identity>) returns (decision: Decision)
      modifies this
      ensures Follows(decision, old(identities), listed)
      ensures State() == Correlate(old(State()), observation, listed, decision)
    {
      decision := Automatic(listed);
      var manual := Newest(log, observation);
      if manual.Some? {
        var asset := Decided(manual.value);
        observations := observations[observation :=
          Observation(Prometheus, asset, if manual.value.status.Matched? then Observed else Unmatched)];
        ReplaceIdentities(observation, asset, Prometheus, listed);
        return;
      }
      var asset: Option<AssetId> := None;
      var status, verdict := Unmatched, Rejected;
      if decision.MatchedTo? {
        asset, status, verdict := Some(decision.asset), Observed, Matched;
      } else if decision.Conflicting? {
        status, verdict := Ambiguous, Proposed;
      }
      observations := observations[observation := Observation(Prometheus, asset, status)];
      ReplaceIdentities(observation, asset, Prometheus, listed);
      log := log + [Correlation(observation, asset, false, verdict)];
      if decision.Conflicting? {
        conflicts := conflicts + [Conflict(None, observation, None)];
      }
    }

    // manual_decision; refused for an unknown observation or asset.
    method ManualDecision(observation: ObservationId, asset: Option<AssetId>, verdict: Verdict) returns (accepted: bool)
      modifies this
      ensures accepted <==> observation in old(observations) && (asset.Some? ==> asset.value in old(assets))
      ensures State() == if accepted then Decide(old(State()), observation, asset, verdict) else old(State())
    {
      accepted := observation in observations && (asset.Some? ==> asset.value in assets);
      if accepted {
        var chosen := if verdict.Matched? then asset else None;
        var status := if verdict.Matched? then Observed else Unmatched;
        observations := observations[observation := observations[observation].(asset := chosen, status := status)];
        identities := map key | key in identities ::
          if key.observation == observation then identities[key].(asset := chosen) else identities[key];
        log := log + [Correlation(observation, asset, true, verdict)];
      }
    }
  }
}
