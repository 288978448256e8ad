// Properties of identity resolution: what the automatic correlation depends on, what ingestion
// never widens, and what human decisions outlast.
module InventoryTheorems {
  import opened Wrappers
  import opened InventoryModel

  // ---- automatic correlation ------------------------------------------------------------------

  // The specification leaves no choice.
  lemma DecisionIsDetermined(a: Decision, b: Decision, table: Table, identities: seq<Identity>)
    requires Follows(a, table, identities) && Follows(b, table, identities)
    ensures a == b
  {
    if a.MatchedTo? && b.MatchedTo? {
      assert a.asset in {b.asset};
    }
  }

  // The two listings agree on every identity at least as strong as fqdn.
  ghost predicate SameStrong(identities: seq<Identity>, other: seq<Identity>) {
    forall i: Identity | Rank(i.kind) <= FQDN_RANK :: i in identities <==> i in other
  }

  // The two tables agree on every row at least as strong as fqdn.
  ghost predicate SameStrongRows(table: Table, other: Table) {
    forall key: Key | Rank(key.kind) <= FQDN_RANK ::
      && (key in table <==> key in other)
      && (key in table ==> table[key] == other[key])
  }

  lemma StrongHitsAgree(table: Table, other: Table, identities: seq<Identity>, others: seq<Identity>, rank: nat)
    requires SameStrong(identities, others) && SameStrongRows(table, other) && rank <= FQDN_RANK
    ensures HitsAt(table, identities, rank) == HitsAt(other, others, rank)
    ensures HitsUpTo(table, identities, rank) == HitsUpTo(other, others, rank)
  {
    forall kind | Rank(kind) <= FQDN_RANK
      ensures LookupValues(kind, identities) == LookupValues(kind, others)
    {
    }
  }

  lemma {:induction false} StrongFirstHitAgrees(table: Table, other: Table, identities: seq<Identity>,
                                                others: seq<Identity>, from: nat)
    requires SameStrong(identities, others) && SameStrongRows(table, other)
    requires from <= KINDS && FirstHit(table, identities, from) <= FQDN_RANK
    ensures FirstHit(other, others, from) == FirstHit(table, identities, from)
    decreases KINDS - from
  {
    StrongHitsAgree(table, other, identities, others, from);
    if HitsAt(table, identities, from) == {} {
      StrongFirstHitAgrees(table, other, identities, others, from + 1);
    }
  }

  // Non-interference: once the first hit is at least as strong as fqdn, no alias, hostname or
  // address, in the observation or in the table, can change the decision, although the alias
  // look-up would use the values of every kind.
  lemma WeakerEvidenceDoesNotInterfere(table: Table, other: Table, identities: seq<Identity>, others: seq<Identity>,
                                       decision: Decision)
    requires SameStrong(identities, others) && SameStrongRows(table, other)
    requires FirstHit(table, identities, 0) <= FQDN_RANK
    requires Follows(decision, table, identities)
    ensures Follows(decision, other, others)
  {
    StrongFirstHitAgrees(table, other, identities, others, 0);
    StrongHitsAgree(table, other, identities, others, FQDN_RANK);
  }

  // ---- the decision, row by row ---------------------------------------------------------------

  // The kinds at fqdn or stronger.
  predicate Strong(kind: Kind) {
    kind in {CloudInstanceId, SerialNumber, AssetTag, CmdbId, Fqdn}
  }

  // A linked CMDB row that the observation reports: under its own kind, or, as an alias, under any.
  predicate Hit(table: Table, identities: seq<Identity>, key: Key) {
    && key in table && table[key].source.Cmdb? && table[key].asset.Some?
    && exists i | i in identities :: i.value == key.value && (key.kind.Alias? || i.kind == key.kind)
  }

  ghost predicate KindHit(table: Table, identities: seq<Identity>, kind: Kind) {
    exists key :: Hit(table, identities, key) && key.kind == kind
  }

  ghost predicate StrongHit(table: Table, identities: seq<Identity>) {
    exists key :: Hit(table, identities, key) && Strong(key.kind)
  }

  // The hits that decide: all the strong ones; without one, those of the strongest kind there is, in
  // the order alias, hostname, address.
  ghost predicate Deciding(table: Table, identities: seq<Identity>, key: Key) {
    && Hit(table, identities, key)
    && (Strong(key.kind)
        || (!StrongHit(table, identities)
            && match key.kind
               case Alias => true
               case Hostname => !KindHit(table, identities, Alias)
               case IpAddress => !KindHit(table, identities, Alias) && !KindHit(table, identities, Hostname)
               case _ => false))
  }

  lemma HitMeans(table: Table, identities: seq<Identity>, key: Key)
    ensures Hit(table, identities, key) <==>
            && key in table && key.value in LookupValues(key.kind, identities)
            && table[key].asset.Some? && table[key].source.Cmdb?
  {
  }

  lemma RankMeans(kind: Kind)
    ensures Rank(kind) <= FQDN_RANK <==> Strong(kind)
    ensures kind.Alias? <==> Rank(kind) == 5
    ensures kind.Hostname? <==> Rank(kind) == 6
    ensures kind.IpAddress? <==> Rank(kind) == 7
    ensures PRIORITY[Rank(kind)] == kind
  {
  }

  // The first rank with a hit is below a given one exactly when a hit row is.
  lemma HitAtRank(table: Table, identities: seq<Identity>, rank: nat)
    requires rank < KINDS
    ensures HitsAt(table, identities, rank) != {} <==> KindHit(table, identities, PRIORITY[rank])
  {
    if KindHit(table, identities, PRIORITY[rank]) {
      var key :| Hit(table, identities, key) && key.kind == PRIORITY[rank];
      HitMeans(table, identities, key);
      assert table[key].asset.value in HitsAt(table, identities, rank);
    }
    if HitsAt(table, identities, rank) != {} {
      var a :| a in HitsAt(table, identities, rank);
      var key :| key in table && key.kind == PRIORITY[rank] && key.value in LookupValues(PRIORITY[rank], identities)
                 && table[key].asset.Some? && table[key].source.Cmdb? && table[key].asset.value == a;
      HitMeans(table, identities, key);
    }
  }

  // A hit row counts as evidence exactly when it decides.
  lemma EvidenceRows(table: Table, identities: seq<Identity>, key: Key)
    ensures Deciding(table, identities, key) <==>
            Hit(table, identities, key) && Rank(key.kind) <= Ceiling(FirstHit(table, identities, 0))
  {
    var first := FirstHit(table, identities, 0);
    if Hit(table, identities, key) {
      HitIsNotBefore(table, identities, key);
      RankMeans(key.kind);
      HitAtRank(table, identities, first);
      var strongest :| Hit(table, identities, strongest) && strongest.kind == PRIORITY[first];
      RankMeans(strongest.kind);
      forall other | Hit(table, identities, other) ensures first <= Rank(other.kind) {
        HitIsNotBefore(table, identities, other);
      }
      forall other: Kind { RankMeans(other); }
      assert Rank(PRIORITY[first]) == first;
    }
  }

  lemma HitIsNotBefore(table: Table, identities: seq<Identity>, key: Key)
    requires Hit(table, identities, key)
    ensures FirstHit(table, identities, 0) <= Rank(key.kind) < KINDS
  {
    HitMeans(table, identities, key);
    assert table[key].asset.value in HitsAt(table, identities, Rank(key.kind));
  }

  lemma EvidenceIs(table: Table, identities: seq<Identity>, asset: AssetId)
    ensures asset in Evidence(table, identities) <==>
            exists key :: Deciding(table, identities, key) && table[key].asset == Some(asset)
  {
    if asset in Evidence(table, identities) {
      var key :| key in table && Rank(key.kind) <= Ceiling(FirstHit(table, identities, 0))
                 && key.value in LookupValues(key.kind, identities) && table[key].asset.Some?
                 && table[key].source.Cmdb? && table[key].asset.value == asset;
      HitMeans(table, identities, key);
      EvidenceRows(table, identities, key);
    }
    if key :| Deciding(table, identities, key) && table[key].asset == Some(asset) {
      EvidenceRows(table, identities, key);
      HitMeans(table, identities, key);
    }
  }

  // The decision, exactly: matched to an asset if and only if some hit decides and all that do name
  // it; conflicting if and only if two of them name different assets; nothing if and only if no row
  // is hit.
  lemma DecisionIff(decision: Decision, table: Table, identities: seq<Identity>)
    requires Follows(decision, table, identities)
    ensures forall a :: (decision.MatchedTo? && decision.asset == a) <==>
              && (exists key :: Deciding(table, identities, key))
              && forall key | Deciding(table, identities, key) :: table[key].asset == Some(a)
    ensures decision.Conflicting? <==>
            exists k, l :: Deciding(table, identities, k) && Deciding(table, identities, l) && table[k].asset != table[l].asset
    ensures decision.Nothing? <==> forall key :: !Hit(table, identities, key)
  {
    forall a ensures a in Evidence(table, identities) <==>
                     exists key :: Deciding(table, identities, key) && table[key].asset == Some(a)
    {
      EvidenceIs(table, identities, a);
    }
    SomeDecides(table, identities);
    DecisionBySize(decision, table, identities);
  }

  lemma SomeDecides(table: Table, identities: seq<Identity>)
    ensures (exists key :: Deciding(table, identities, key)) <==> exists key :: Hit(table, identities, key)
  {
    if key :| Hit(table, identities, key) && !Deciding(table, identities, key) {
      if StrongHit(table, identities) {
        var other :| Hit(table, identities, other) && Strong(other.kind);
        assert Deciding(table, identities, other);
      } else if KindHit(table, identities, Alias) {
        var other :| Hit(table, identities, other) && other.kind == Alias;
        assert Deciding(table, identities, other);
      } else if KindHit(table, identities, Hostname) {
        var other :| Hit(table, identities, other) && other.kind == Hostname;
        assert Deciding(table, identities, other);
      }
    }
  }

  // The same on the set of assets named.
  lemma DecisionBySize(decision: Decision, table: Table, identities: seq<Identity>)
    requires Follows(decision, table, identities)
    ensures var evidence := Evidence(table, identities);
            && (forall a :: (decision.MatchedTo? && decision.asset == a) <==> evidence == {a})
            && (decision.Conflicting? <==> exists a, b :: a in evidence && b in evidence && a != b)
            && (decision.Nothing? <==> evidence == {})
  {
    var evidence := Evidence(table, identities);
    match decision
    case MatchedTo(asset, through) =>
      assert asset in evidence;
    case Conflicting =>
      var a :| a in evidence;
      assert |evidence - {a}| == |evidence| - 1;
      var b :| b in evidence - {a};
    case Nothing =>
  }

  // Two strong rows that name different assets always conflict.
  lemma StrongRowsConflict(decision: Decision, table: Table, identities: seq<Identity>, k: Key, l: Key)
    requires Follows(decision, table, identities)
    requires Hit(table, identities, k) && Hit(table, identities, l) && Strong(k.kind) && Strong(l.kind)
    requires table[k].asset != table[l].asset
    ensures decision.Conflicting?
  {
    DecisionIff(decision, table, identities);
    assert Deciding(table, identities, k) && Deciding(table, identities, l);
  }

  // ---- ingestion ------------------------------------------------------------------------------

  ghost predicate NoDangling(s: Inventory) {
    forall key | key in s.identities && s.identities[key].asset.Some? :: s.identities[key].asset.value in s.assets
  }

  lemma RelinkedRow(table: Table, observation: ObservationId, asset: AssetId, source: Source,
                    identities: seq<Identity>, key: Key)
    requires key in Relink(table, observation, Some(asset), source, identities)
    ensures var row := Relink(table, observation, Some(asset), source, identities)[key];
            (row.asset == Some(asset) && key.value in OwnValues(key.kind, identities)) || (key in table && row == table[key])
  {
    if key in KeysOf(observation, identities) {
      var i :| i in identities && key == Key(observation, i.kind, i.value);
      assert key.value in OwnValues(key.kind, identities);
    }
  }

  lemma IngestLeavesNothingDangling(s: Inventory, observation: ObservationId, record: Record, finding: Finding,
                                    spare: AssetId, normal: Normaliser)
    requires NoDangling(s) && (finding.Found? ==> finding.asset in s.assets)
    ensures NoDangling(Ingest(s, observation, record, finding, spare, normal))
  {
    var after := Ingest(s, observation, record, finding, spare, normal);
    var id := if finding.Found? then finding.asset else spare;
    var source := if observation in s.observations then s.observations[observation].source else Cmdb;
    forall key | key in after.identities
      ensures after.identities[key].asset.Some? ==> after.identities[key].asset.value in after.assets
    {
      RelinkedRow(s.identities, observation, id, source, IdentitiesOf(record, normal), key);
    }
  }

  // One ingestion never adds a value of a kind to an asset that already has one: it either knew
  // the value, or a new asset takes it.
  lemma IngestNeverWidens(s: Inventory, observation: ObservationId, record: Record, finding: Finding, spare: AssetId,
                          normal: Normaliser, asset: AssetId, kind: Kind)
    requires NoDangling(s) && spare !in s.assets
    requires finding.Found? ==> finding.asset in s.assets
    requires Finds(finding, s.identities, IdentitiesOf(record, normal))
    ensures var before := KnownBy(s.identities, asset, kind);
            var after := KnownBy(Ingest(s, observation, record, finding, spare, normal).identities, asset, kind);
            && (before != {} ==> after <= before)
            && after <= before + OwnValues(kind, IdentitiesOf(record, normal))
  {
    var identities, after := IdentitiesOf(record, normal), Ingest(s, observation, record, finding, spare, normal);
    forall value | value in KnownBy(after.identities, asset, kind)
      ensures value in KnownBy(s.identities, asset, kind) || value in OwnValues(kind, identities)
      ensures KnownBy(s.identities, asset, kind) != {} ==> value in KnownBy(s.identities, asset, kind)
    {
      NewValueIsAllowed(s, observation, record, finding, spare, normal, asset, kind, value);
    }
  }

  lemma NewValueIsAllowed(s: Inventory, observation: ObservationId, record: Record, finding: Finding, spare: AssetId,
                          normal: Normaliser, asset: AssetId, kind: Kind, value: string)
    requires NoDangling(s) && spare !in s.assets
    requires finding.Found? ==> finding.asset in s.assets
    requires Finds(finding, s.identities, IdentitiesOf(record, normal))
    requires value in KnownBy(Ingest(s, observation, record, finding, spare, normal).identities, asset, kind)
    ensures value in KnownBy(s.identities, asset, kind)
            || (KnownBy(s.identities, asset, kind) == {} && value in OwnValues(kind, IdentitiesOf(record, normal)))
  {
    var identities, after := IdentitiesOf(record, normal), Ingest(s, observation, record, finding, spare, normal);
    var id := if finding.Found? then finding.asset else spare;
    var source := if observation in s.observations then s.observations[observation].source else Cmdb;
    var key :| key in after.identities && key.kind == kind && key.value == value
               && after.identities[key].asset == Some(asset);
    RelinkedRow(s.identities, observation, id, source, identities, key);
    if !(key in s.identities && s.identities[key].asset == Some(asset)) {
      var i :| i in identities && i.kind == kind && i.value == value;
      if finding.Found? {
        assert !Contradicts(s.identities, asset, i);
      } else {
        NothingLinksToSpare(s, spare, kind);
      }
    }
  }

  lemma NothingLinksToSpare(s: Inventory, spare: AssetId, kind: Kind)
    requires NoDangling(s) && spare !in s.assets
    ensures KnownBy(s.identities, spare, kind) == {}
  {
  }

  // The kinds a record has at most one value of.
  predicate SingleValued(kind: Kind) { !kind.Alias? && !kind.IpAddress? }

  lemma {:induction false} FieldValue(record: Record, count: nat, normal: Normaliser, i: Identity)
    requires count <= |FIELDS| && i in FieldIdentities(record, count, normal)
    ensures i.kind in record.fields && normal(i.kind, record.fields[i.kind]) == Some(i.value) && !i.kind.Alias?
  {
    if i in FieldIdentities(record, count - 1, normal) {
      FieldValue(record, count - 1, normal, i);
    }
  }

  lemma RecordValue(record: Record, normal: Normaliser, i: Identity)
    requires i in IdentitiesOf(record, normal) && SingleValued(i.kind)
    ensures i.kind in record.fields && normal(i.kind, record.fields[i.kind]) == Some(i.value)
  {
    assert i in FieldIdentities(record, |FIELDS|, normal);
    FieldValue(record, |FIELDS|, normal, i);
  }

  ghost predicate OneValueEach(s: Inventory) {
    forall asset, kind, v, w | SingleValued(kind)
                               && v in KnownBy(s.identities, asset, kind) && w in KnownBy(s.identities, asset, kind) ::
      v == w
  }

  // An import of records, one after the other; each event carries the id a new asset would get.
  datatype Arrival = Arrival(observation: ObservationId, record: Record, finding: Finding, spare: AssetId)

  ghost predicate Arrives(s: Inventory, e: Arrival, normal: Normaliser) {
    && e.spare !in s.assets
    && (e.finding.Found? ==> e.finding.asset in s.assets)
    && Finds(e.finding, s.identities, IdentitiesOf(e.record, normal))
  }

  ghost function Import(s: Inventory, arrivals: seq<Arrival>, normal: Normaliser): Inventory
    requires Importable(s, arrivals, normal)
    decreases |arrivals|
  {
    if arrivals == [] then s else Import(Received(s, arrivals[0], normal), arrivals[1..], normal)
  }

  ghost predicate Importable(s: Inventory, arrivals: seq<Arrival>, normal: Normaliser)
    decreases |arrivals|
  {
    arrivals == [] ||
    (Arrives(s, arrivals[0], normal) && Importable(Received(s, arrivals[0], normal), arrivals[1..], normal))
  }

  ghost function Received(s: Inventory, e: Arrival, normal: Normaliser): Inventory
    requires e.finding.Found? ==> e.finding.asset in s.assets
  {
    Ingest(s, e.observation, e.record, e.finding, e.spare, normal)
  }

  lemma ArrivalKeepsOneValue(s: Inventory, e: Arrival, normal: Normaliser)
    requires NoDangling(s) && OneValueEach(s) && Arrives(s, e, normal)
    ensures NoDangling(Received(s, e, normal)) && OneValueEach(Received(s, e, normal))
  {
    var after := Received(s, e, normal);
    IngestLeavesNothingDangling(s, e.observation, e.record, e.finding, e.spare, normal);
    forall asset, kind, v, w | SingleValued(kind)
        && v in KnownBy(after.identities, asset, kind) && w in KnownBy(after.identities, asset, kind)
      ensures v == w
    {
      IngestNeverWidens(s, e.observation, e.record, e.finding, e.spare, normal, asset, kind);
      if KnownBy(s.identities, asset, kind) == {} {
        var identities := IdentitiesOf(e.record, normal);
        var i :| i in identities && i.kind == kind && i.value == v;
        var j :| j in identities && j.kind == kind && j.value == w;
        RecordValue(e.record, normal, i);
        RecordValue(e.record, normal, j);
      }
    }
  }

  // ---- what one ingestion does ----------------------------------------------------------------

  // The identities of a record: its single-valued fields that have a normal form, its addresses and
  // its aliases.
  lemma IdentitiesAre(record: Record, normal: Normaliser, i: Identity)
    ensures i in IdentitiesOf(record, normal) <==>
            || (!i.kind.Alias? && i.kind in record.fields && i.original == record.fields[i.kind]
                && normal(i.kind, i.original) == Some(i.value))
            || (i.kind.IpAddress? && i.original == i.value && i.value in record.addresses)
            || exists a | a in record.aliases :: i == a.(kind := Alias)
  {
    FieldIdentitiesAre(record, |FIELDS|, normal, i);
    assert FIELDS[0] == CloudInstanceId && FIELDS[1] == SerialNumber && FIELDS[2] == AssetTag && FIELDS[3] == CmdbId
           && FIELDS[4] == Fqdn && FIELDS[5] == Hostname && FIELDS[6] == IpAddress;
    assert !i.kind.Alias? ==> i.kind in FIELDS;
    var addresses := seq(|record.addresses|, j requires 0 <= j < |record.addresses| =>
                           Identity(IpAddress, record.addresses[j], record.addresses[j]));
    var aliases := seq(|record.aliases|, j requires 0 <= j < |record.aliases| => record.aliases[j].(kind := Alias));
    assert IdentitiesOf(record, normal) == FieldIdentities(record, |FIELDS|, normal) + addresses + aliases;
    if i.kind.IpAddress? && i.original == i.value && i.value in record.addresses {
      var j :| 0 <= j < |record.addresses| && record.addresses[j] == i.value;
      assert addresses[j] == i;
    }
    if a :| a in record.aliases && i == a.(kind := Alias) {
      var j :| 0 <= j < |record.aliases| && record.aliases[j] == a;
      assert aliases[j] == i;
    }
  }

  lemma {:induction false} FieldIdentitiesAre(record: Record, count: nat, normal: Normaliser, i: Identity)
    requires count <= |FIELDS|
    ensures i in FieldIdentities(record, count, normal) <==>
            i.kind in FIELDS[..count] && i.kind in record.fields && i.original == record.fields[i.kind]
            && normal(i.kind, i.original) == Some(i.value)
  {
    if count > 0 {
      FieldIdentitiesAre(record, count - 1, normal, i);
      assert FIELDS[..count] == FIELDS[..count - 1] + [FIELDS[count - 1]];
    }
  }

  // A linked row, from whatever source, that carries one of the identities.
  predicate Match(table: Table, identities: seq<Identity>, key: Key) {
    key in table && table[key].asset.Some? && exists i | i in identities :: i.kind == key.kind && i.value == key.value
  }

  // All matching rows, of which there are some, name the asset, and wherever it is known by values of
  // a kind the record has, the record's is one of them.
  ghost predicate Joins(table: Table, identities: seq<Identity>, asset: AssetId) {
    && (exists key :: Match(table, identities, key))
    && (forall key | Match(table, identities, key) :: table[key].asset == Some(asset))
    && forall i | i in identities && HasKind(table, asset, i.kind) ::
         exists key :: key in table && key.kind == i.kind && key.value == i.value && table[key].asset == Some(asset)
  }

  ghost predicate HasKind(table: Table, asset: AssetId, kind: Kind) {
    exists key :: key in table && key.kind == kind && table[key].asset == Some(asset)
  }

  lemma MatchesAre(table: Table, identities: seq<Identity>, asset: AssetId)
    ensures asset in Matches(table, identities) <==>
            exists key :: Match(table, identities, key) && table[key].asset == Some(asset)
  {
    if key :| Match(table, identities, key) && table[key].asset == Some(asset) {
      assert key.value in OwnValues(key.kind, identities);
    }
  }

  lemma ContradictsIs(table: Table, asset: AssetId, i: Identity)
    ensures Contradicts(table, asset, i) <==>
            HasKind(table, asset, i.kind)
            && !exists key :: key in table && key.kind == i.kind && key.value == i.value && table[key].asset == Some(asset)
  {
    if HasKind(table, asset, i.kind) {
      var key :| key in table && key.kind == i.kind && table[key].asset == Some(asset);
      assert key.value in KnownBy(table, asset, i.kind);
    }
  }

  // A record joins an asset exactly as said; otherwise it gets a new one, which is ambiguous if
  // anything matched.
  lemma FindingIff(finding: Finding, table: Table, identities: seq<Identity>)
    requires Finds(finding, table, identities)
    ensures forall asset: AssetId :: (finding.Found? && finding.asset == asset) <==> Joins(table, identities, asset)
    ensures finding == NotFound(false) <==> !exists key :: Match(table, identities, key)
  {
    var matches := Matches(table, identities);
    forall asset: AssetId ensures asset in matches <==>
                         exists key :: Match(table, identities, key) && table[key].asset == Some(asset)
    {
      MatchesAre(table, identities, asset);
    }
    forall asset: AssetId ensures (finding.Found? && finding.asset == asset) <==> Joins(table, identities, asset) {
      JoinsMeans(table, identities, asset);
      assert |{asset}| == 1;
      if finding.Found? {
        assert finding.asset in {finding.asset};
      }
    }
  }

  lemma JoinsMeans(table: Table, identities: seq<Identity>, asset: AssetId)
    ensures Joins(table, identities, asset) <==>
            Matches(table, identities) == {asset} && forall i | i in identities :: !Contradicts(table, asset, i)
  {
    forall a ensures a in Matches(table, identities) <==>
                     exists key :: Match(table, identities, key) && table[key].asset == Some(a)
    {
      MatchesAre(table, identities, a);
    }
    forall i { ContradictsIs(table, asset, i); }
  }

  // What ingestion writes: the observation and its log entry name the asset and tell whether the
  // record was ambiguous; no other asset changes.
  lemma IngestOutcome(s: Inventory, e: Arrival, normal: Normaliser)
    requires Arrives(s, e, normal)
    ensures var after := Received(s, e, normal);
            var id := if e.finding.Found? then e.finding.asset else e.spare;
            var ambiguous := e.finding == NotFound(true);
            && e.observation in after.observations && after.observations[e.observation].asset == Some(id)
            && after.observations[e.observation].status == (if ambiguous then Ambiguous else Observed)
            && after.log == s.log + [Correlation(e.observation, Some(id), false, if ambiguous then Proposed else Matched)]
            && (forall a | a in s.assets && a != id :: a in after.assets && after.assets[a] == s.assets[a])
  {
  }

  // The strong fields are kept where set, and filled from the record where not.
  lemma IngestFields(s: Inventory, e: Arrival, normal: Normaliser, kind: Kind)
    requires Arrives(s, e, normal)
    ensures var after := Received(s, e, normal);
            var id := if e.finding.Found? then e.finding.asset else e.spare;
            id in after.assets && StrongFieldAfter(s, e, after.assets[id], kind)
  {
  }

  ghost predicate StrongFieldAfter(s: Inventory, e: Arrival, after: Asset, kind: Kind)
    requires e.finding.Found? ==> e.finding.asset in s.assets
  {
    var before := if e.finding.Found? then s.assets[e.finding.asset].strong else map[];
    if kind in before then kind in after.strong && after.strong[kind] == before[kind]
    else if kind in {CloudInstanceId, SerialNumber, AssetTag, Fqdn, Hostname, IpAddress} && kind in e.record.fields
    then kind in after.strong && after.strong[kind] == e.record.fields[kind]
    else kind !in after.strong
  }

  // The conflicts of one ingestion, exactly.
  lemma IngestConflicts(s: Inventory, e: Arrival, normal: Normaliser, c: Conflict)
    requires Arrives(s, e, normal) && c !in s.conflicts
    ensures var id := if e.finding.Found? then e.finding.asset else e.spare;
            c in Received(s, e, normal).conflicts <==>
            && c.asset == Some(id) && c.observation == e.observation
            && match c.field
               case None => e.finding == NotFound(true)
               case Some(kind) =>
                 && e.finding.Found? && kind in {CloudInstanceId, SerialNumber, AssetTag, Fqdn, Hostname, IpAddress}
                 && kind in s.assets[e.finding.asset].strong && kind in e.record.fields
                 && var was, now := normal(kind, s.assets[e.finding.asset].strong[kind]), normal(kind, e.record.fields[kind]);
                 was.Some? && now.Some? && was != now
  {
    var asset := if e.finding.Found? then s.assets[e.finding.asset]
                 else Asset(map kind | kind in STRONG && kind in e.record.fields :: e.record.fields[kind]);
    var id := if e.finding.Found? then e.finding.asset else e.spare;
    ClashesAreExact(asset, id, e.observation, e.record, |STRONG|, normal, c);
    assert STRONG[..|STRONG|] == STRONG;
    assert STRONG[0] == CloudInstanceId && STRONG[1] == SerialNumber && STRONG[2] == AssetTag && STRONG[3] == Fqdn
           && STRONG[4] == Hostname && STRONG[5] == IpAddress;
  }

  lemma {:induction false} ClashesAreExact(asset: Asset, id: AssetId, observation: ObservationId, record: Record,
                                           count: nat, normal: Normaliser, c: Conflict)
    requires count <= |STRONG|
    ensures c in ClashesOf(asset, id, observation, record, count, normal) <==>
            && c.asset == Some(id) && c.observation == observation && c.field.Some?
            && c.field.value in STRONG[..count] && Clashes(asset, record, c.field.value, normal)
  {
    if count > 0 {
      ClashesAreExact(asset, id, observation, record, count - 1, normal, c);
      assert STRONG[..count] == STRONG[..count - 1] + [STRONG[count - 1]];
    }
  }

  // ---- strong fields --------------------------------------------------------------------------

  // Each single-valued strong field of an asset is one of the values the asset is known by.
  ghost predicate FieldsAreKnown(s: Inventory, normal: Normaliser) {
    forall asset, kind | asset in s.assets && kind in s.assets[asset].strong && SingleValued(kind)
                         && normal(kind, s.assets[asset].strong[kind]).Some? ::
      normal(kind, s.assets[asset].strong[kind]).value in KnownBy(s.identities, asset, kind)
  }

  // The records are distinct: an observation's rows are written once.
  ghost predicate Untouched(s: Inventory, observation: ObservationId) {
    forall key | key in s.identities :: key.observation != observation
  }

  lemma {:induction false} FieldIsListed(record: Record, count: nat, normal: Normaliser, k: nat)
    requires k < count <= |FIELDS| && FIELDS[k] in record.fields && normal(FIELDS[k], record.fields[FIELDS[k]]).Some?
    ensures Identity(FIELDS[k], record.fields[FIELDS[k]], normal(FIELDS[k], record.fields[FIELDS[k]]).value)
            in FieldIdentities(record, count, normal)
  {
    if k < count - 1 {
      FieldIsListed(record, count - 1, normal, k);
    }
  }

  lemma StrongIsListed(record: Record, normal: Normaliser, kind: Kind)
    requires kind in STRONG && kind in record.fields && normal(kind, record.fields[kind]).Some?
    ensures Identity(kind, record.fields[kind], normal(kind, record.fields[kind]).value) in IdentitiesOf(record, normal)
  {
    assert FIELDS[0] == CloudInstanceId && FIELDS[1] == SerialNumber && FIELDS[2] == AssetTag && FIELDS[4] == Fqdn
           && FIELDS[5] == Hostname && FIELDS[6] == IpAddress;
    var k :| 0 <= k < |FIELDS| && FIELDS[k] == kind;
    FieldIsListed(record, |FIELDS|, normal, k);
  }

  lemma KnownAfterRelink(table: Table, observation: ObservationId, asset: AssetId, source: Source,
                         identities: seq<Identity>, i: Identity)
    requires i in identities
    ensures i.value in KnownBy(Relink(table, observation, Some(asset), source, identities), asset, i.kind)
  {
    var key := Key(observation, i.kind, i.value);
    assert key in KeysOf(observation, identities);
  }

  lemma KnownSurvivesRelink(table: Table, observation: ObservationId, other: AssetId, source: Source,
                            identities: seq<Identity>, asset: AssetId, kind: Kind, value: string)
    requires forall key | key in table :: key.observation != observation
    requires value in KnownBy(table, asset, kind)
    ensures value in KnownBy(Relink(table, observation, Some(other), source, identities), asset, kind)
  {
    var key :| key in table && key.kind == kind && key.value == value && table[key].asset == Some(asset);
    assert key !in KeysOf(observation, identities);
  }

  lemma ArrivalKeepsFieldsKnown(s: Inventory, e: Arrival, normal: Normaliser)
    requires FieldsAreKnown(s, normal) && Arrives(s, e, normal) && Untouched(s, e.observation)
    ensures FieldsAreKnown(Received(s, e, normal), normal)
  {
    var after, identities := Received(s, e, normal), IdentitiesOf(e.record, normal);
    var id := if e.finding.Found? then e.finding.asset else e.spare;
    var source := if e.observation in s.observations then s.observations[e.observation].source else Cmdb;
    forall asset, kind | asset in after.assets && kind in after.assets[asset].strong && SingleValued(kind)
                         && normal(kind, after.assets[asset].strong[kind]).Some?
      ensures normal(kind, after.assets[asset].strong[kind]).value in KnownBy(after.identities, asset, kind)
    {
      var field := after.assets[asset].strong[kind];
      if asset in s.assets && kind in s.assets[asset].strong {
        KnownSurvivesRelink(s.identities, e.observation, id, source, identities, asset, kind, normal(kind, field).value);
      } else {
        StrongIsListed(e.record, normal, kind);
        KnownAfterRelink(s.identities, e.observation, id, source, identities,
                         Identity(kind, field, normal(kind, field).value));
      }
    }
  }

  // _find_asset only answers with an asset whose single-valued strong fields agree with the record.
  lemma FoundAgrees(s: Inventory, e: Arrival, normal: Normaliser, kind: Kind)
    requires OneValueEach(s) && FieldsAreKnown(s, normal) && Arrives(s, e, normal) && e.finding.Found?
    requires kind in STRONG && SingleValued(kind)
    requires kind in s.assets[e.finding.asset].strong && normal(kind, s.assets[e.finding.asset].strong[kind]).Some?
    requires kind in e.record.fields && normal(kind, e.record.fields[kind]).Some?
    ensures normal(kind, s.assets[e.finding.asset].strong[kind]) == normal(kind, e.record.fields[kind])
  {
    var asset := e.finding.asset;
    StrongIsListed(e.record, normal, kind);
    var i := Identity(kind, e.record.fields[kind], normal(kind, e.record.fields[kind]).value);
    assert normal(kind, s.assets[asset].strong[kind]).value in KnownBy(s.identities, asset, kind);
    assert !Contradicts(s.identities, asset, i);
  }

  // So what automation may still clash on are addresses.
  lemma ArrivalClashesOnlyOnAddresses(s: Inventory, e: Arrival, normal: Normaliser, kind: Kind)
    requires OneValueEach(s) && FieldsAreKnown(s, normal) && Arrives(s, e, normal)
    requires e.finding.Found? && kind in STRONG && Clashes(s.assets[e.finding.asset], e.record, kind, normal)
    ensures kind.IpAddress?
  {
    if SingleValued(kind) {
      FoundAgrees(s, e, normal, kind);
    }
  }

  ghost predicate Distinctly(s: Inventory, arrivals: seq<Arrival>, normal: Normaliser)
    requires Importable(s, arrivals, normal)
    decreases |arrivals|
  {
    arrivals == [] ||
    (Untouched(s, arrivals[0].observation) && Distinctly(Received(s, arrivals[0], normal), arrivals[1..], normal))
  }

  ghost predicate Tidy(s: Inventory, normal: Normaliser) {
    && NoDangling(s) && OneValueEach(s) && FieldsAreKnown(s, normal)
    && forall c | c in s.conflicts :: c.field.Some? ==> c.field.value.IpAddress?
  }

  lemma {:induction false} ClashesAreListed(asset: Asset, id: AssetId, observation: ObservationId, record: Record,
                                            count: nat, normal: Normaliser, c: Conflict)
    requires count <= |STRONG| && c in ClashesOf(asset, id, observation, record, count, normal)
    ensures c.field.Some? && c.field.value in STRONG && Clashes(asset, record, c.field.value, normal)
  {
    if c in ClashesOf(asset, id, observation, record, count - 1, normal) {
      ClashesAreListed(asset, id, observation, record, count - 1, normal, c);
    }
  }

  lemma ArrivalKeepsTidy(s: Inventory, e: Arrival, normal: Normaliser)
    requires Tidy(s, normal) && Arrives(s, e, normal) && Untouched(s, e.observation)
    ensures Tidy(Received(s, e, normal), normal)
  {
    ArrivalKeepsOneValue(s, e, normal);
    ArrivalKeepsFieldsKnown(s, e, normal);
    var after := Received(s, e, normal);
    var id := if e.finding.Found? then e.finding.asset else e.spare;
    var asset := if e.finding.Found? then s.assets[e.finding.asset]
                 else Asset(map kind | kind in STRONG && kind in e.record.fields :: e.record.fields[kind]);
    forall c | c in after.conflicts && c !in s.conflicts && c.field.Some?
      ensures c.field.value.IpAddress?
    {
      ClashesAreListed(asset, id, e.observation, e.record, |STRONG|, normal, c);
      if e.finding.Found? {
        ArrivalClashesOnlyOnAddresses(s, e, normal, c.field.value);
      }
    }
  }

  // Over every import of distinct records: no asset ever has two values of a single-valued kind,
  // and the only field conflicts recorded are about addresses.
  lemma {:induction false} ImportStaysTidy(s: Inventory, arrivals: seq<Arrival>, normal: Normaliser)
    requires Tidy(s, normal) && Importable(s, arrivals, normal) && Distinctly(s, arrivals, normal)
    ensures Tidy(Import(s, arrivals, normal), normal)
    decreases |arrivals|
  {
    if arrivals != [] {
      ArrivalKeepsTidy(s, arrivals[0], normal);
      ImportStaysTidy(Received(s, arrivals[0], normal), arrivals[1..], normal);
    }
  }

  lemma ArrivalFreezesValues(s: Inventory, e: Arrival, normal: Normaliser, asset: AssetId, kind: Kind)
    requires NoDangling(s) && Arrives(s, e, normal) && Untouched(s, e.observation)
    requires KnownBy(s.identities, asset, kind) != {}
    ensures KnownBy(Received(s, e, normal).identities, asset, kind) == KnownBy(s.identities, asset, kind)
  {
    var id := if e.finding.Found? then e.finding.asset else e.spare;
    var source := if e.observation in s.observations then s.observations[e.observation].source else Cmdb;
    IngestNeverWidens(s, e.observation, e.record, e.finding, e.spare, normal, asset, kind);
    forall value | value in KnownBy(s.identities, asset, kind)
      ensures value in KnownBy(Received(s, e, normal).identities, asset, kind)
    {
      KnownSurvivesRelink(s.identities, e.observation, id, source, IdentitiesOf(e.record, normal), asset, kind, value);
    }
  }

  // For every kind, addresses and aliases included: once an asset is known by some values, no later
  // import of distinct records adds one or takes one away.
  lemma {:induction false} ImportFreezesValues(s: Inventory, arrivals: seq<Arrival>, normal: Normaliser, asset: AssetId,
                                               kind: Kind)
    requires NoDangling(s) && Importable(s, arrivals, normal) && Distinctly(s, arrivals, normal)
    requires KnownBy(s.identities, asset, kind) != {}
    ensures KnownBy(Import(s, arrivals, normal).identities, asset, kind) == KnownBy(s.identities, asset, kind)
    decreases |arrivals|
  {
    if arrivals != [] {
      var e := arrivals[0];
      ArrivalFreezesValues(s, e, normal, asset, kind);
      IngestLeavesNothingDangling(s, e.observation, e.record, e.finding, e.spare, normal);
      ImportFreezesValues(Received(s, e, normal), arrivals[1..], normal, asset, kind);
    }
  }

  // A scan can: its identities are linked to the asset it matches.  A match keeps every single-valued
  // kind single exactly when each of its values of such a kind is the only one, in the scan and among
  // those the asset is known by.
  lemma ScanKeepsOneValueIff(s: Inventory, observation: ObservationId, identities: seq<Identity>, decision: Decision)
    requires OneValueEach(s) && Newest(s.log, observation).None? && decision.MatchedTo?
    ensures OneValueEach(Correlate(s, observation, identities, decision)) <==>
            forall i, v | i in identities && SingleValued(i.kind)
                          && (v in KnownBy(s.identities, decision.asset, i.kind) || v in OwnValues(i.kind, identities)) ::
              v == i.value
  {
    var after := Correlate(s, observation, identities, decision);
    forall asset, kind
      ensures KnownBy(after.identities, asset, kind)
              <= KnownBy(s.identities, asset, kind) + if asset == decision.asset then OwnValues(kind, identities) else {}
      ensures asset == decision.asset ==>
                KnownBy(s.identities, asset, kind) + OwnValues(kind, identities) <= KnownBy(after.identities, asset, kind)
    {
      KnownAfterScan(s.identities, observation, decision.asset, identities, asset, kind);
    }
    if OneValueEach(after) {
      forall i, v | i in identities && SingleValued(i.kind)
          && (v in KnownBy(s.identities, decision.asset, i.kind) || v in OwnValues(i.kind, identities))
        ensures v == i.value
      {
        assert i.value in OwnValues(i.kind, identities);
      }
    } else {
      var asset, kind, v, w :| SingleValued(kind) && v != w
          && v in KnownBy(after.identities, asset, kind) && w in KnownBy(after.identities, asset, kind);
      if v in OwnValues(kind, identities) {
        var i :| i in identities && i.kind == kind && i.value == v;
        assert w != i.value;
      } else {
        var i :| i in identities && i.kind == kind && i.value == w;
        assert v != i.value;
      }
    }
  }

  // Two CMDB rows of one asset, and a target that reports its cloud id and another serial number.
  function TwoRows(asset: AssetId): Table {
    map[Key(0, CloudInstanceId, "i-1") := Entry(Some(asset), Cmdb), Key(0, SerialNumber, "A") := Entry(Some(asset), Cmdb)]
  }

  const TARGET := [Identity(CloudInstanceId, "i-1", "i-1"), Identity(SerialNumber, "B", "B")]

  lemma TargetMatches(asset: AssetId)
    ensures Follows(MatchedTo(asset, CloudInstanceId), TwoRows(asset), TARGET)
  {
    var cloud := Key(0, CloudInstanceId, "i-1");
    assert cloud in TwoRows(asset) && TARGET[0] in TARGET;
    assert "i-1" in LookupValues(CloudInstanceId, TARGET);
    assert asset in HitsAt(TwoRows(asset), TARGET, 0);
  }

  // It happens: the target is matched through the cloud id, and the asset gets a second serial number.
  lemma ScanBringsSecondSerial(asset: AssetId)
    ensures var s := Inventory(TwoRows(asset), map[], map[asset := Asset(map[])], [], []);
            && OneValueEach(s) && Follows(MatchedTo(asset, CloudInstanceId), s.identities, TARGET)
            && !OneValueEach(Correlate(s, 1, TARGET, MatchedTo(asset, CloudInstanceId)))
  {
    var s := Inventory(TwoRows(asset), map[], map[asset := Asset(map[])], [], []);
    TargetMatches(asset);
    TwoRowsKnow(asset);
    assert TARGET[1] in TARGET && SingleValued(TARGET[1].kind) && "A"[0] != "B"[0];
    ScanKeepsOneValueIff(s, 1, TARGET, MatchedTo(asset, CloudInstanceId));
  }

  lemma TwoRowsKnow(asset: AssetId)
    ensures "A" in KnownBy(TwoRows(asset), asset, SerialNumber)
    ensures forall other, kind, v, w | v in KnownBy(TwoRows(asset), other, kind) && w in KnownBy(TwoRows(asset), other, kind) ::
              v == w
  {
    assert Key(0, SerialNumber, "A") in TwoRows(asset);
  }

  // What the scan's identities do to the values an asset is known by: the matched asset gains them
  // all, and another can only lose some that the observation brought it before.
  lemma KnownAfterScan(table: Table, observation: ObservationId, matched: AssetId, identities: seq<Identity>,
                       asset: AssetId, kind: Kind)
    ensures var after := Relink(table, observation, Some(matched), Prometheus, identities);
            && KnownBy(after, asset, kind)
               <= KnownBy(table, asset, kind) + (if asset == matched then OwnValues(kind, identities) else {})
            && (asset == matched ==> KnownBy(table, asset, kind) + OwnValues(kind, identities) <= KnownBy(after, asset, kind))
  {
    var after := Relink(table, observation, Some(matched), Prometheus, identities);
    forall value | value in KnownBy(after, asset, kind)
      ensures value in KnownBy(table, asset, kind) || (asset == matched && value in OwnValues(kind, identities))
    {
      var key :| key in after && key.kind == kind && key.value == value && after[key].asset == Some(asset);
      RelinkedRow(table, observation, matched, Prometheus, identities, key);
    }
    if asset == matched {
      forall value | value in KnownBy(table, asset, kind) ensures value in KnownBy(after, asset, kind) {
        var key :| key in table && key.kind == kind && key.value == value && table[key].asset == Some(asset);
        assert key in after && after[key].asset == Some(matched);
      }
      forall i | i in identities && i.kind == kind ensures i.value in KnownBy(after, asset, kind) {
        KnownAfterRelink(table, observation, matched, Prometheus, identities, i);
      }
    }
  }

  // Strong fields are written once: an import never changes one that is set.
  lemma {:induction false} ImportKeepsStrongFields(s: Inventory, arrivals: seq<Arrival>, normal: Normaliser,
                                                   asset: AssetId, kind: Kind)
    requires Importable(s, arrivals, normal) && asset in s.assets && kind in s.assets[asset].strong
    ensures var after := Import(s, arrivals, normal);
            asset in after.assets && kind in after.assets[asset].strong
            && after.assets[asset].strong[kind] == s.assets[asset].strong[kind]
    decreases |arrivals|
  {
    if arrivals != [] {
      ImportKeepsStrongFields(Received(s, arrivals[0], normal), arrivals[1..], normal, asset, kind);
    }
  }

  // ---- human decisions ------------------------------------------------------------------------

  // The observation's asset, and that of each of its identities, is what its newest manual
  // decision says.
  ghost predicate Honoured(s: Inventory, observation: ObservationId) {
    var newest := Newest(s.log, observation);
    newest.Some? ==>
      && observation in s.observations && s.observations[observation].asset == Decided(newest.value)
      && forall key | key in s.identities && key.observation == observation ::
           s.identities[key].asset == Decided(newest.value)
  }

  datatype Action =
    | Ingested(arrival: Arrival)
    | Scanned(observation: ObservationId, identities: seq<Identity>, decision: Decision)
    | Reviewed(observation: ObservationId, asset: Option<AssetId>, verdict: Verdict)

  ghost predicate Possible(s: Inventory, a: Action, normal: Normaliser) {
    match a
    case Ingested(arrival) => Arrives(s, arrival, normal)
    case Scanned(observation, identities, decision) => Follows(decision, s.identities, identities)
    case Reviewed(observation, asset, verdict) =>
      observation in s.observations && (asset.Some? ==> asset.value in s.assets)
  }

  ghost function Act(s: Inventory, a: Action, normal: Normaliser): Inventory
    requires Possible(s, a, normal)
  {
    match a
    case Ingested(arrival) => Received(s, arrival, normal)
    case Scanned(observation, identities, decision) => Correlate(s, observation, identities, decision)
    case Reviewed(observation, asset, verdict) => Decide(s, observation, asset, verdict)
  }

  ghost predicate Reingests(a: Action, observation: ObservationId) {
    a.Ingested? && a.arrival.observation == observation
  }

  lemma NewestAfterAppend(log: seq<Correlation>, c: Correlation, observation: ObservationId)
    ensures Newest(log + [c], observation)
            == if c.observation == observation && c.manual then Some(c) else Newest(log, observation)
  {
    assert (log + [c])[..|log|] == log;
  }

  lemma RelinkElsewhere(table: Table, observation: ObservationId, asset: Option<AssetId>, source: Source,
                        identities: seq<Identity>, key: Key)
    requires key in Relink(table, observation, asset, source, identities)
    ensures key.observation != observation ==>
              key in table && Relink(table, observation, asset, source, identities)[key] == table[key]
    ensures Relink(table, observation, asset, source, identities)[key].asset == asset
            || (key in table && Relink(table, observation, asset, source, identities)[key] == table[key])
  {
  }

  lemma ActKeepsHonoured(s: Inventory, a: Action, observation: ObservationId, normal: Normaliser)
    requires Possible(s, a, normal) && Honoured(s, observation)
    requires Newest(s.log, observation).Some? ==> !Reingests(a, observation)
    ensures Honoured(Act(s, a, normal), observation)
    ensures Newest(Act(s, a, normal).log, observation)
            == if a.Reviewed? && a.observation == observation
               then Some(Correlation(observation, a.asset, true, a.verdict)) else Newest(s.log, observation)
  {
    var after := Act(s, a, normal);
    if |after.log| > |s.log| {
      NewestAfterAppend(s.log, after.log[|s.log|], observation);
    }
    match a
    case Ingested(e) =>
      var id := if e.finding.Found? then e.finding.asset else e.spare;
      var source := if e.observation in s.observations then s.observations[e.observation].source else Cmdb;
      forall key | key in after.identities && key.observation == observation && e.observation != observation
        ensures key in s.identities && after.identities[key] == s.identities[key]
      {
        RelinkElsewhere(s.identities, e.observation, Some(id), source, IdentitiesOf(e.record, normal), key);
      }
    case Scanned(scanned, identities, decision) =>
      var asset := match Newest(s.log, scanned)
        case Some(manual) => Decided(manual)
        case None => if decision.MatchedTo? then Some(decision.asset) else None;
      forall key | key in after.identities && key.observation == observation
        ensures scanned != observation ==> key in s.identities && after.identities[key] == s.identities[key]
        ensures after.identities[key].asset == asset || (key in s.identities && after.identities[key] == s.identities[key])
      {
        RelinkElsewhere(s.identities, scanned, asset, Prometheus, identities, key);
      }
    case Reviewed(_, _, _) =>
  }

  ghost predicate Runs(s: Inventory, actions: seq<Action>, observation: ObservationId, normal: Normaliser)
    decreases |actions|
  {
    actions == [] ||
    (&& Possible(s, actions[0], normal)
     && (Newest(s.log, observation).Some? ==> !Reingests(actions[0], observation))
     && Runs(Act(s, actions[0], normal), actions[1..], observation, normal))
  }

  ghost function Run(s: Inventory, actions: seq<Action>, observation: ObservationId, normal: Normaliser): Inventory
    requires Runs(s, actions, observation, normal)
    decreases |actions|
  {
    if actions == [] then s else Run(Act(s, actions[0], normal), actions[1..], observation, normal)
  }

  // Over every run of imports, scans and reviews, an observation stays where its newest manual
  // decision put it, and so does each of its identities.
  lemma {:induction false} DecisionsOutlastAutomation(s: Inventory, actions: seq<Action>, observation: ObservationId,
                                                      normal: Normaliser)
    requires Runs(s, actions, observation, normal) && Honoured(s, observation)
    ensures Honoured(Run(s, actions, observation, normal), observation)
    decreases |actions|
  {
    if actions != [] {
      ActKeepsHonoured(s, actions[0], observation, normal);
      DecisionsOutlastAutomation(Act(s, actions[0], normal), actions[1..], observation, normal);
    }
  }

  // The row of an identity that a call links.
  ghost predicate Links(after: Table, observation: ObservationId, identities: seq<Identity>, asset: Option<AssetId>) {
    forall i | i in identities ::
      Key(observation, i.kind, i.value) in after && after[Key(observation, i.kind, i.value)].asset == asset
  }

  ghost predicate OthersKept(before: Table, after: Table, observation: ObservationId) {
    forall key: Key | key.observation != observation :: (key in after <==> key in before) && (key in before ==> after[key] == before[key])
  }

  // What a scan writes without a human decision: only a match links, only a conflict is recorded.
  lemma ScanOutcome(s: Inventory, observation: ObservationId, identities: seq<Identity>, decision: Decision)
    requires Newest(s.log, observation).None?
    ensures var after := Correlate(s, observation, identities, decision);
            var asset := if decision.MatchedTo? then Some(decision.asset) else None;
            && observation in after.observations && after.observations[observation].asset == asset
            && (after.observations[observation].status.Observed? <==> decision.MatchedTo?)
            && (after.observations[observation].status.Ambiguous? <==> decision.Conflicting?)
            && |after.log| == |s.log| + 1 && after.log[..|s.log|] == s.log
            && !after.log[|s.log|].manual && after.log[|s.log|].asset == asset
            && (after.log[|s.log|].status.Matched? <==> decision.MatchedTo?)
            && (after.log[|s.log|].status.Proposed? <==> decision.Conflicting?)
            && |after.conflicts| == |s.conflicts| + (if decision.Conflicting? then 1 else 0)
            && after.assets == s.assets
            && Links(after.identities, observation, identities, asset) && OthersKept(s.identities, after.identities, observation)
  {
    forall i | i in identities
      ensures Key(observation, i.kind, i.value) in KeysOf(observation, identities)
    {
    }
  }

  // With one, the scan repeats it, and logs and records nothing.
  lemma DecidedScanOutcome(s: Inventory, observation: ObservationId, identities: seq<Identity>, decision: Decision)
    requires Newest(s.log, observation).Some?
    ensures var after, manual := Correlate(s, observation, identities, decision), Newest(s.log, observation).value;
            var asset := if manual.status.Matched? then manual.asset else None;
            && observation in after.observations && after.observations[observation].asset == asset
            && (after.observations[observation].status == if manual.status.Matched? then Observed else Unmatched)
            && after.log == s.log && after.conflicts == s.conflicts && after.assets == s.assets
            && Links(after.identities, observation, identities, asset) && OthersKept(s.identities, after.identities, observation)
  {
    forall i | i in identities
      ensures Key(observation, i.kind, i.value) in KeysOf(observation, identities)
    {
    }
  }

  // What a review writes: a match links the observation and all its rows, anything else unlinks them.
  lemma ReviewOutcome(s: Inventory, observation: ObservationId, asset: Option<AssetId>, verdict: Verdict)
    requires observation in s.observations
    ensures var after := Decide(s, observation, asset, verdict);
            var chosen := if verdict.Matched? then asset else None;
            && observation in after.observations && after.observations[observation].asset == chosen
            && (after.observations[observation].status == if verdict.Matched? then Observed else Unmatched)
            && Newest(after.log, observation) == Some(Correlation(observation, asset, true, verdict))
            && after.identities.Keys == s.identities.Keys
            && (forall key | key in s.identities && key.observation == observation :: after.identities[key].asset == chosen)
            && OthersKept(s.identities, after.identities, observation)
            && after.assets == s.assets && after.conflicts == s.conflicts
  {
    NewestAfterAppend(s.log, Correlation(observation, asset, true, verdict), observation);
  }

  // Scans add no evidence: an observation without CMDB rows changes no automatic decision about any.
  lemma ScansAddNoEvidence(s: Inventory, observation: ObservationId, identities: seq<Identity>, decision: Decision,
                           others: seq<Identity>, other: Decision)
    requires forall key | key in s.identities && key.observation == observation :: s.identities[key].source.Prometheus?
    ensures Follows(other, Correlate(s, observation, identities, decision).identities, others)
            <==> Follows(other, s.identities, others)
  {
    var table := Correlate(s, observation, identities, decision).identities;
    assert SameEvidence(s.identities, table);
    SameEvidenceDecides(s.identities, table, others, other);
    SameEvidenceDecides(table, s.identities, others, other);
  }

  // The two tables agree on the linked CMDB rows.
  ghost predicate SameEvidence(table: Table, other: Table) {
    forall key ::
      && (LinkedCmdb(table, key) <==> LinkedCmdb(other, key))
      && (LinkedCmdb(table, key) ==> table[key].asset == other[key].asset)
  }

  predicate LinkedCmdb(table: Table, key: Key) {
    key in table && table[key].source.Cmdb? && table[key].asset.Some?
  }

  lemma SameHits(table: Table, other: Table, identities: seq<Identity>, rank: nat)
    requires SameEvidence(table, other) && rank < KINDS
    ensures HitsAt(table, identities, rank) == HitsAt(other, identities, rank)
    ensures HitsUpTo(table, identities, rank) == HitsUpTo(other, identities, rank)
  {
    forall key ensures LinkedCmdb(table, key) <==> LinkedCmdb(other, key) {
    }
  }

  lemma {:induction false} SameFirstHit(table: Table, other: Table, identities: seq<Identity>, from: nat)
    requires SameEvidence(table, other) && from <= KINDS
    ensures FirstHit(table, identities, from) == FirstHit(other, identities, from)
    decreases KINDS - from
  {
    if from < KINDS {
      SameHits(table, other, identities, from);
      SameFirstHit(table, other, identities, from + 1);
    }
  }

  lemma SameEvidenceDecides(table: Table, other: Table, identities: seq<Identity>, decision: Decision)
    requires SameEvidence(table, other)
    ensures Follows(decision, table, identities) ==> Follows(decision, other, identities)
  {
    SameFirstHit(table, other, identities, 0);
    SameHits(table, other, identities, Ceiling(FirstHit(table, identities, 0)));
  }

  // Ingestion itself does not look at decisions: were the record of a decided observation ingested
  // again, the decision would stand if and only if its asset is the only one the record's identities
  // match, and contradicts none of them.
  lemma ReingestionKeepsDecisionIff(s: Inventory, e: Arrival, normal: Normaliser)
    requires Arrives(s, e, normal) && Honoured(s, e.observation) && Newest(s.log, e.observation).Some?
    requires var decided := Decided(Newest(s.log, e.observation).value); decided.Some? ==> decided.value in s.assets
    ensures var decided, identities := Decided(Newest(s.log, e.observation).value), IdentitiesOf(e.record, normal);
            Honoured(Received(s, e, normal), e.observation) <==>
            && decided.Some? && Matches(s.identities, identities) == {decided.value}
            && forall i | i in identities :: !Contradicts(s.identities, decided.value, i)
  {
    var after, decided := Received(s, e, normal), Decided(Newest(s.log, e.observation).value);
    var identities := IdentitiesOf(e.record, normal);
    var id := if e.finding.Found? then e.finding.asset else e.spare;
    var source := if e.observation in s.observations then s.observations[e.observation].source else Cmdb;
    NewestAfterAppend(s.log, after.log[|s.log|], e.observation);
    forall key | key in after.identities
      ensures after.identities[key].asset == Some(id) || (key in s.identities && after.identities[key] == s.identities[key])
    {
      RelinkElsewhere(s.identities, e.observation, Some(id), source, identities, key);
    }
    if e.finding.Found? {
      assert e.finding.asset in Matches(s.identities, identities);
    } else if decided.Some? && Matches(s.identities, identities) == {decided.value} {
      AlsoAmbiguous(s.identities, identities, decided.value, e.finding);
    }
  }

  // A single match that is not found is contradicted.
  lemma AlsoAmbiguous(table: Table, identities: seq<Identity>, asset: AssetId, finding: Finding)
    requires Finds(finding, table, identities) && finding.NotFound? && Matches(table, identities) == {asset}
    ensures exists i :: i in identities && Contradicts(table, asset, i)
  {
    assert |{asset}| == 1;
    var other :| Matches(table, identities) == {other} && exists i :: i in identities && Contradicts(table, other, i);
    assert other in {asset};
  }

  // Replacing identities twice is replacing them once.
  lemma RelinkIsIdempotent(table: Table, observation: ObservationId, asset: Option<AssetId>, source: Source,
                           identities: seq<Identity>)
    ensures var once := Relink(table, observation, asset, source, identities);
            Relink(once, observation, asset, source, identities) == once
  {
  }
}
