// The canonical inventory of backend/app/application/services/inventory.py: identities, observations,
// assets and correlation decisions, and what one service call does to them.
module InventoryModel {
  import opened Wrappers

  // identity_type, in the order of IDENTITY_PRIORITY.
  datatype Kind = CloudInstanceId | SerialNumber | AssetTag | CmdbId | Fqdn | Alias | Hostname | IpAddress

  const PRIORITY: seq<Kind> := [CloudInstanceId, SerialNumber, AssetTag, CmdbId, Fqdn, Alias, Hostname, IpAddress]
  const FQDN_RANK := 4
  const KINDS := 8

  function Rank(kind: Kind): (rank: nat)
    ensures rank < KINDS && PRIORITY[rank] == kind
  {
    match kind
    case CloudInstanceId => 0
    case SerialNumber => 1
    case AssetTag => 2
    case CmdbId => 3
    case Fqdn => 4
    case Alias => 5
    case Hostname => 6
    case IpAddress => 7
  }

  type AssetId = nat
  type ObservationId = nat

  // (identity_type, original_value, normalized_value)
  datatype Identity = Identity(kind: Kind, original: string, value: string)

  // The inventory_identities table; its unique constraint is the key.
  datatype Key = Key(observation: ObservationId, kind: Kind, value: string)

  datatype Source = Cmdb | Prometheus

  datatype Entry = Entry(asset: Option<AssetId>, source: Source)

  type Table = map<Key, Entry>

  datatype ObservationStatus = Observed | Ambiguous | Unmatched

  datatype Observation = Observation(source: Source, asset: Option<AssetId>, status: ObservationStatus)

  datatype Verdict = Matched | Proposed | Rejected

  // A row of inventory_correlations, in the order of created_at.
  datatype Correlation = Correlation(observation: ObservationId, asset: Option<AssetId>, manual: bool, status: Verdict)

  // A row of inventory_conflicts; None is the field name "identity".
  datatype Conflict = Conflict(asset: Option<AssetId>, observation: ObservationId, field: Option<Kind>)

  // The strong fields of an asset, under the kind of identity each of them carries.
  datatype Asset = Asset(strong: map<Kind, string>)

  datatype Inventory = Inventory(
    identities: Table, observations: map<ObservationId, Observation>, assets: map<AssetId, Asset>,
    log: seq<Correlation>, conflicts: seq<Conflict>)

  const EMPTY := Inventory(map[], map[], map[], [], [])

  // ---- queries --------------------------------------------------------------------------------

  // Assets linked to an identity of the kind with one of the values, whatever source it came from.
  function Linked(table: Table, kind: Kind, values: set<string>): set<AssetId> {
    set key | key in table && key.kind == kind && key.value in values && table[key].asset.Some? ::
      table[key].asset.value
  }

  // The same, counting only identities that came from a CMDB.
  function Declared(table: Table, kind: Kind, values: set<string>): set<AssetId> {
    set key | key in table && key.kind == kind && key.value in values && table[key].asset.Some?
              && table[key].source.Cmdb? :: table[key].asset.value
  }

  // The values of one kind an asset is known by.
  function KnownBy(table: Table, asset: AssetId, kind: Kind): set<string> {
    set key | key in table && key.kind == kind && table[key].asset == Some(asset) :: key.value
  }

  function OwnValues(kind: Kind, identities: seq<Identity>): set<string> {
    set i | i in identities && i.kind == kind :: i.value
  }

  // The values the automatic correlation looks up under a kind: aliases match any identity.
  function LookupValues(kind: Kind, identities: seq<Identity>): set<string> {
    if kind.Alias? then set i | i in identities :: i.value else OwnValues(kind, identities)
  }

  function HitsAt(table: Table, identities: seq<Identity>, rank: nat): set<AssetId>
    requires rank < KINDS
  {
    Declared(table, PRIORITY[rank], LookupValues(PRIORITY[rank], identities))
  }

  // ---- automatic correlation, as a set specification ------------------------------------------

  // The first rank at or after `from` with a hit, or KINDS.
  function FirstHit(table: Table, identities: seq<Identity>, from: nat): (rank: nat)
    requires from <= KINDS
    ensures from <= rank <= KINDS
    ensures rank < KINDS ==> HitsAt(table, identities, rank) != {}
    ensures forall r: nat | from <= r < rank :: HitsAt(table, identities, r) == {}
    decreases KINDS - from
  {
    if from == KINDS || HitsAt(table, identities, from) != {} then from else FirstHit(table, identities, from + 1)
  }

  // Weaker identities than this rank are not looked at: never above fqdn.
  function Ceiling(first: nat): nat {
    if first == KINDS then KINDS - 1 else if first < FQDN_RANK then FQDN_RANK else first
  }

  // Every asset hit at a rank up to the given one.
  function HitsUpTo(table: Table, identities: seq<Identity>, rank: nat): set<AssetId> {
    set key | key in table && Rank(key.kind) <= rank && key.value in LookupValues(key.kind, identities)
              && table[key].asset.Some? && table[key].source.Cmdb? :: table[key].asset.value
  }

  function Evidence(table: Table, identities: seq<Identity>): set<AssetId> {
    HitsUpTo(table, identities, Ceiling(FirstHit(table, identities, 0)))
  }

  datatype Decision = MatchedTo(asset: AssetId, through: Kind) | Conflicting | Nothing

  // Matched exactly when the evidence is one asset.
  ghost predicate Follows(decision: Decision, table: Table, identities: seq<Identity>) {
    var evidence, first := Evidence(table, identities), FirstHit(table, identities, 0);
    match decision
    case MatchedTo(asset, through) => evidence == {asset} && first < KINDS && through == PRIORITY[first]
    case Conflicting => |evidence| > 1
    case Nothing => evidence == {}
  }

  // ---- CMDB ingestion -------------------------------------------------------------------------

  // One imported row: its single-valued fields (cleaned), its addresses (normalised by
  // split_addresses) and its aliases with their normalised values.
  datatype Record = Record(fields: map<Kind, string>, addresses: seq<string>, aliases: seq<Identity>)

  // The normalisers of the single-valued fields; None where a value has no normal form.
  type Normaliser = (Kind, string) -> Option<string>

  // The single-valued fields in the order identities_from_fields reads them.
  const FIELDS: seq<Kind> := [CloudInstanceId, SerialNumber, AssetTag, CmdbId, Fqdn, Hostname, IpAddress]

  function FieldIdentities(record: Record, count: nat, normal: Normaliser): seq<Identity>
    requires count <= |FIELDS|
  {
    if count == 0 then []
    else
      var kind := FIELDS[count - 1];
      FieldIdentities(record, count - 1, normal)
      + if kind in record.fields && normal(kind, record.fields[kind]).Some?
        then [Identity(kind, record.fields[kind], normal(kind, record.fields[kind]).value)] else []
  }

  // identities_from_fields; repeated entries carry nothing further.
  function IdentitiesOf(record: Record, normal: Normaliser): seq<Identity> {
    FieldIdentities(record, |FIELDS|, normal)
    + seq(|record.addresses|, i requires 0 <= i < |record.addresses| =>
            Identity(IpAddress, record.addresses[i], record.addresses[i]))
    + seq(|record.aliases|, i requires 0 <= i < |record.aliases| => record.aliases[i].(kind := Alias))
  }

  // Every asset some identity of the record is linked to.
  function Matches(table: Table, identities: seq<Identity>): set<AssetId> {
    set key | key in table && key.value in OwnValues(key.kind, identities) && table[key].asset.Some? ::
      table[key].asset.value
  }

  // The asset is already known by values of the identity's kind, but not by this one.
  predicate Contradicts(table: Table, asset: AssetId, identity: Identity) {
    KnownBy(table, asset, identity.kind) != {} && identity.value !in KnownBy(table, asset, identity.kind)
  }

  datatype Finding = Found(asset: AssetId) | NotFound(ambiguous: bool)

  // _find_asset
  ghost predicate Finds(finding: Finding, table: Table, identities: seq<Identity>) {
    match finding
    case Found(asset) =>
      Matches(table, identities) == {asset} && forall i | i in identities :: !Contradicts(table, asset, i)
    case NotFound(ambiguous) =>
      if ambiguous then
        |Matches(table, identities)| > 1
        || exists asset :: Matches(table, identities) == {asset}
                           && exists i :: i in identities && Contradicts(table, asset, i)
      else Matches(table, identities) == {}
  }

  function KeysOf(observation: ObservationId, identities: seq<Identity>): set<Key> {
    set i | i in identities :: Key(observation, i.kind, i.value)
  }

  // _replace_identities: every listed identity ends up linked to the asset; nothing is removed.
  function Relink(table: Table, observation: ObservationId, asset: Option<AssetId>, source: Source,
                  identities: seq<Identity>): Table
  {
    table + map key | key in KeysOf(observation, identities) ::
      Entry(asset, if key in table then table[key].source else source)
  }

  // The strong fields of _merge_cmdb_fields: cmdb_id is not one of them.
  const STRONG: seq<Kind> := [CloudInstanceId, SerialNumber, AssetTag, Fqdn, Hostname, IpAddress]

  // The record contradicts a strong field the asset already has.
  predicate Clashes(asset: Asset, record: Record, kind: Kind, normal: Normaliser) {
    && kind in asset.strong && kind in record.fields
    && normal(kind, asset.strong[kind]).Some? && normal(kind, record.fields[kind]).Some?
    && normal(kind, asset.strong[kind]) != normal(kind, record.fields[kind])
  }

  // A strong field is written once.
  function Merged(asset: Asset, record: Record): Asset {
    Asset(asset.strong + map kind | kind in STRONG && kind in record.fields && kind !in asset.strong ::
                           record.fields[kind])
  }

  function ClashesOf(asset: Asset, id: AssetId, observation: ObservationId, record: Record, count: nat,
                     normal: Normaliser): seq<Conflict>
    requires count <= |STRONG|
  {
    if count == 0 then []
    else
      ClashesOf(asset, id, observation, record, count - 1, normal)
      + if Clashes(asset, record, STRONG[count - 1], normal)
        then [Conflict(Some(id), observation, Some(STRONG[count - 1]))] else []
  }

  // ingest_cmdb_record, given what _find_asset answered and the id a new asset gets.
  function Ingest(s: Inventory, observation: ObservationId, record: Record, finding: Finding, spare: AssetId,
                  normal: Normaliser): Inventory
    requires finding.Found? ==> finding.asset in s.assets
  {
    var identities := IdentitiesOf(record, normal);
    var id := if finding.Found? then finding.asset else spare;
    var ambiguous := finding.NotFound? && finding.ambiguous;
    var asset := if finding.Found? then s.assets[finding.asset]
                 else Asset(map kind | kind in STRONG && kind in record.fields :: record.fields[kind]);
    var source := if observation in s.observations then s.observations[observation].source else Cmdb;
    Inventory(
      Relink(s.identities, observation, Some(id), source, identities),
      s.observations[observation := Observation(source, Some(id), if ambiguous then Ambiguous else Observed)],
      s.assets[id := Merged(asset, record)],
      s.log + [Correlation(observation, Some(id), false, if ambiguous then Proposed else Matched)],
      s.conflicts + ClashesOf(asset, id, observation, record, |STRONG|, normal)
      + if ambiguous then [Conflict(Some(id), observation, None)] else [])
  }

  // ---- decisions ------------------------------------------------------------------------------

  // The newest manual decision about an observation.
  function Newest(log: seq<Correlation>, observation: ObservationId): Option<Correlation> {
    if log == [] then None
    else
      var last := log[|log| - 1];
      if last.observation == observation && last.manual then Some(last) else Newest(log[..|log| - 1], observation)
  }

  // What a manual decision says the observation's asset is.
  function Decided(decision: Correlation): Option<AssetId> {
    if decision.status.Matched? then decision.asset else None
  }

  // correlate_prometheus, given what the automatic correlation decides; a manual decision comes first.
  function Correlate(s: Inventory, observation: ObservationId, identities: seq<Identity>, decision: Decision): Inventory {
    match Newest(s.log, observation)
    case Some(manual) =>
      var asset := Decided(manual);
      s.(observations := s.observations[observation :=
             Observation(Prometheus, asset, if manual.status.Matched? then Observed else Unmatched)],
         identities := Relink(s.identities, observation, asset, Prometheus, identities))
    case None =>
      var asset := if decision.MatchedTo? then Some(decision.asset) else None;
      var (status, verdict) := match decision
        case MatchedTo(_, _) => (Observed, Matched)
        case Conflicting => (Ambiguous, Proposed)
        case Nothing => (Unmatched, Rejected);
      Inventory(
        Relink(s.identities, observation, asset, Prometheus, identities),
        s.observations[observation := Observation(Prometheus, asset, status)],
        s.assets,
        s.log + [Correlation(observation, asset, false, verdict)],
        s.conflicts + if decision == Conflicting then [Conflict(None, observation, None)] else [])
  }

  // manual_decision
  function Decide(s: Inventory, observation: ObservationId, asset: Option<AssetId>, verdict: Verdict): Inventory
    requires observation in s.observations
  {
    var decision := Correlation(observation, asset, true, verdict);
    s.(observations := s.observations[observation := s.observations[observation].(
           asset := Decided(decision), status := if verdict.Matched? then Observed else Unmatched)],
       identities := map key | key in s.identities ::
           if key.observation == observation then s.identities[key].(asset := Decided(decision)) else s.identities[key],
       log := s.log + [decision])
  }
}
