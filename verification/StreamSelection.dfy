// Stream-source selection (backend/app/application/services/integrations.py): which integration feeds
// which stream of one connector, and which integrations are enabled because of it.
module StreamSelection {
  import opened Wrappers

  datatype Stream = Monitoring | Logs | Ticketing | Cmdb | Knowledge

  datatype IntegrationType =
    Prometheus | Loki | Zammad | ServiceNow | GenericCmdb | Documents | SolarWinds | VMware

  datatype Capabilities = Capabilities(incidents: bool, cmdb: bool)

  type IntegrationId = nat

  datatype Integration = Integration(kind: IntegrationType, capabilities: Capabilities, enabled: bool)

  // (stream, source_key) is unique for a connector, so it stands for an activation row's id.
  datatype Slot = Slot(stream: Stream, key: string)

  datatype Activation = Activation(integration: IntegrationId, enabled: bool, active: bool)

  type Integrations = map<IntegrationId, Integration>
  type Rows = map<Slot, Activation>

  datatype State = State(integrations: Integrations, rows: Rows)

  // STREAM_SOURCES
  function AllSlots(kind: IntegrationType): seq<Slot> {
    match kind
    case Prometheus => [Slot(Monitoring, "prometheus")]
    case Loki => [Slot(Logs, "loki")]
    case Zammad => [Slot(Ticketing, "zammad")]
    case ServiceNow => [Slot(Ticketing, "servicenow"), Slot(Cmdb, "servicenow_cmdb")]
    case GenericCmdb => [Slot(Cmdb, "local_cmdb")]
    case Documents => [Slot(Knowledge, "documents")]
    case SolarWinds => []
    case VMware => []
  }

  predicate Available(kind: IntegrationType) { !kind.SolarWinds? && !kind.VMware? }

  // _stream_sources_for
  function SlotsFor(kind: IntegrationType, capabilities: Capabilities): seq<Slot> {
    if !kind.ServiceNow? then AllSlots(kind)
    else (if capabilities.incidents then [AllSlots(kind)[0]] else [])
         + (if capabilities.cmdb then [AllSlots(kind)[1]] else [])
  }

  // ---- what the tables keep -------------------------------------------------------------------

  // The unique index on (connector, stream) where active, and the check enabled = active.
  ghost predicate Legal(rows: Rows) {
    && (forall s | s in rows :: rows[s].enabled == rows[s].active)
    && forall s, t | s in rows && t in rows && rows[s].active && rows[t].active && s.stream == t.stream :: s == t
  }

  // Every row belongs to an integration whose type serves its slot.
  ghost predicate Owned(integrations: Integrations, rows: Rows) {
    forall s | s in rows :: rows[s].integration in integrations && s in AllSlots(integrations[rows[s].integration].kind)
  }

  ghost predicate Inv(s: State) { Legal(s.rows) && Owned(s.integrations, s.rows) }

  predicate Owns(rows: Rows, id: IntegrationId) {
    exists s | s in rows :: rows[s].integration == id && rows[s].active
  }

  predicate HasActive(rows: Rows, stream: Stream) {
    exists s | s in rows :: s.stream == stream && rows[s].active
  }

  // An integration is enabled exactly when it owns an active row.
  ghost predicate Derived(s: State) {
    forall id | id in s.integrations :: s.integrations[id].enabled == Owns(s.rows, id)
  }

  // ---- bootstrap_stream_activations -----------------------------------------------------------

  function AddSlot(rows: Rows, id: IntegrationId, wanted: bool, slot: Slot): Rows {
    if slot in rows then rows
    else
      var selected := wanted && !HasActive(rows, slot.stream);
      rows[slot := Activation(id, selected, selected)]
  }

  function AddSlots(rows: Rows, id: IntegrationId, wanted: bool, slots: seq<Slot>): Rows {
    if slots == [] then rows
    else AddSlot(AddSlots(rows, id, wanted, slots[..|slots| - 1]), id, wanted, slots[|slots| - 1])
  }

  function SlotsOf(integration: Integration): seq<Slot> { SlotsFor(integration.kind, integration.capabilities) }

  function AddAll(integrations: Integrations, rows: Rows, order: seq<IntegrationId>): Rows
    requires forall id | id in order :: id in integrations
  {
    if order == [] then rows
    else
      var id := order[|order| - 1];
      AddSlots(AddAll(integrations, rows, order[..|order| - 1]), id, integrations[id].enabled, SlotsOf(integrations[id]))
  }

  function Settle(integrations: Integrations, rows: Rows): Integrations {
    map id | id in integrations :: integrations[id].(enabled := Owns(rows, id))
  }

  // The query lists every integration, in some order.
  ghost predicate Lists(order: seq<IntegrationId>, integrations: Integrations) {
    forall id :: id in order <==> id in integrations
  }

  function Bootstrap(s: State, order: seq<IntegrationId>): State
    requires forall id | id in order :: id in s.integrations
  {
    var rows := AddAll(s.integrations, s.rows, order);
    State(Settle(s.integrations, rows), rows)
  }

  // ---- select, create, disable ----------------------------------------------------------------

  function SelectRows(rows: Rows, slot: Slot): Rows {
    map t | t in rows ::
      if t.stream == slot.stream then rows[t].(enabled := t == slot, active := t == slot) else rows[t]
  }

  function Release(rows: Rows, id: IntegrationId): Rows {
    map t | t in rows :: if rows[t].integration == id then rows[t].(enabled := false, active := false) else rows[t]
  }

  // The active rows of a stream, and the integrations they belong to.
  function ActiveIn(rows: Rows, stream: Stream): set<Slot> {
    set t | t in rows && t.stream == stream && rows[t].active
  }

  function OwnersIn(rows: Rows, stream: Stream): set<IntegrationId> {
    set t | t in rows && t.stream == stream && rows[t].active :: rows[t].integration
  }

  // The row of an integration in a stream.
  predicate Serves(rows: Rows, id: IntegrationId, stream: Stream, slot: Slot) {
    slot in rows && slot.stream == stream && rows[slot].integration == id
  }

  // The checks of select_source, after its bootstrap.
  ghost predicate Selectable(s: State, id: IntegrationId, stream: Stream, slot: Slot, confirmed: bool) {
    && id in s.integrations
    && Serves(s.rows, id, stream, slot)
    && (confirmed || ActiveIn(s.rows, stream) <= {slot})
    && Available(s.integrations[id].kind)
  }

  // The order-free result of a successful selection.
  function Selected(s: State, slot: Slot): State {
    var rows := SelectRows(s.rows, slot);
    State(Settle(s.integrations, rows), rows)
  }

  // A new integration may be created when none of its slots is taken: otherwise the unique
  // constraint refuses it.
  ghost predicate Creatable(s: State, id: IntegrationId, integration: Integration) {
    id !in s.integrations && forall slot | slot in SlotsOf(integration) :: slot !in s.rows
  }

  function Created(s: State, id: IntegrationId, integration: Integration): State {
    var rows := AddSlots(s.rows, id, integration.enabled && Available(integration.kind), SlotsOf(integration));
    State(s.integrations[id := integration.(enabled := Owns(rows, id))], rows)
  }

  function Disabled(s: State, id: IntegrationId): State
    requires id in s.integrations
  {
    State(s.integrations[id := s.integrations[id].(enabled := false)], Release(s.rows, id))
  }

  // ---- lemmas: slots --------------------------------------------------------------------------

  lemma SlotsAreOwn(kind: IntegrationType, capabilities: Capabilities, slot: Slot)
    requires slot in SlotsFor(kind, capabilities)
    ensures slot in AllSlots(kind)
  {
  }

  // Which slots an integration of each type offers; a ServiceNow one by its capabilities.
  lemma SlotsIff(kind: IntegrationType, capabilities: Capabilities, slot: Slot)
    ensures slot in SlotsFor(kind, capabilities) <==>
            || (kind.Prometheus? && slot == Slot(Monitoring, "prometheus"))
            || (kind.Loki? && slot == Slot(Logs, "loki"))
            || (kind.Zammad? && slot == Slot(Ticketing, "zammad"))
            || (kind.ServiceNow? && capabilities.incidents && slot == Slot(Ticketing, "servicenow"))
            || (kind.ServiceNow? && capabilities.cmdb && slot == Slot(Cmdb, "servicenow_cmdb"))
            || (kind.GenericCmdb? && slot == Slot(Cmdb, "local_cmdb"))
            || (kind.Documents? && slot == Slot(Knowledge, "documents"))
  {
  }

  // ---- lemmas: bootstrap ----------------------------------------------------------------------

  // `after` is a legal table that keeps every row of `rows` as it is and adds exactly the given slots.
  ghost predicate Grows(integrations: Integrations, rows: Rows, after: Rows, added: iset<Slot>) {
    && Legal(after) && Owned(integrations, after)
    && (forall s | s in rows :: s in after && after[s] == rows[s])
    && (forall s :: s in after <==> s in rows || s in added)
  }

  lemma GrowsTwice(integrations: Integrations, rows: Rows, between: Rows, after: Rows, a: iset<Slot>, b: iset<Slot>)
    requires Grows(integrations, rows, between, a) && Grows(integrations, between, after, b)
    ensures Grows(integrations, rows, after, a + b)
  {
  }

  lemma AddSlotGrows(integrations: Integrations, rows: Rows, id: IntegrationId, wanted: bool, slot: Slot)
    requires Legal(rows) && Owned(integrations, rows)
    requires id in integrations && slot in AllSlots(integrations[id].kind)
    ensures Grows(integrations, rows, AddSlot(rows, id, wanted, slot), iset{slot})
  {
    AddSlotKeepsLegal(rows, id, wanted, slot);
  }

  lemma AddSlotKeepsLegal(rows: Rows, id: IntegrationId, wanted: bool, slot: Slot)
    requires Legal(rows)
    ensures Legal(AddSlot(rows, id, wanted, slot))
  {
  }

  ghost function SlotSet(slots: seq<Slot>): iset<Slot> { iset s | s in slots }

  lemma SlotSetSplits(slots: seq<Slot>)
    requires slots != []
    ensures SlotSet(slots) == SlotSet(slots[..|slots| - 1]) + iset{slots[|slots| - 1]}
    ensures forall s | s in slots[..|slots| - 1] :: s in slots
  {
    assert slots == slots[..|slots| - 1] + [slots[|slots| - 1]];
  }

  lemma {:induction false} AddSlotsGrows(integrations: Integrations, rows: Rows, id: IntegrationId, wanted: bool,
                                         slots: seq<Slot>)
    requires Legal(rows) && Owned(integrations, rows) && id in integrations
    requires forall slot | slot in slots :: slot in AllSlots(integrations[id].kind)
    ensures Grows(integrations, rows, AddSlots(rows, id, wanted, slots), SlotSet(slots))
  {
    if slots != [] {
      var earlier, slot := slots[..|slots| - 1], slots[|slots| - 1];
      var between := AddSlots(rows, id, wanted, earlier);
      SlotSetSplits(slots);
      AddSlotsGrows(integrations, rows, id, wanted, earlier);
      AddSlotGrows(integrations, between, id, wanted, slot);
      GrowsTwice(integrations, rows, between, AddSlots(rows, id, wanted, slots), SlotSet(earlier), iset{slot});
    }
  }

  // The slots some listed integration should have.
  ghost predicate Due(integrations: Integrations, order: seq<IntegrationId>, slot: Slot)
    requires forall id | id in order :: id in integrations
  {
    exists id :: id in order && slot in SlotsOf(integrations[id])
  }

  ghost function AllDue(integrations: Integrations, order: seq<IntegrationId>): iset<Slot>
    requires forall id | id in order :: id in integrations
  {
    iset s | Due(integrations, order, s)
  }

  lemma DueSplits(integrations: Integrations, earlier: seq<IntegrationId>, id: IntegrationId)
    requires (forall i | i in earlier :: i in integrations) && id in integrations
    ensures AllDue(integrations, earlier + [id])
            == AllDue(integrations, earlier) + SlotSet(SlotsOf(integrations[id]))
  {
    forall s ensures Due(integrations, earlier + [id], s) <==> Due(integrations, earlier, s) || s in SlotsOf(integrations[id]) {
      if s in SlotsOf(integrations[id]) {
        assert id in earlier + [id];
      }
      if Due(integrations, earlier, s) {
        var i :| i in earlier && s in SlotsOf(integrations[i]);
        assert i in earlier + [id];
      }
    }
  }

  lemma {:induction false} AddAllGrows(integrations: Integrations, rows: Rows, order: seq<IntegrationId>)
    requires Legal(rows) && Owned(integrations, rows) && forall id | id in order :: id in integrations
    ensures Grows(integrations, rows, AddAll(integrations, rows, order), AllDue(integrations, order))
  {
    if order != [] {
      var earlier, id := order[..|order| - 1], order[|order| - 1];
      var integration, between := integrations[id], AddAll(integrations, rows, earlier);
      AddAllGrows(integrations, rows, earlier);
      forall slot | slot in SlotsOf(integration) ensures slot in AllSlots(integration.kind) {
        SlotsAreOwn(integration.kind, integration.capabilities, slot);
      }
      AddSlotsGrows(integrations, between, id, integration.enabled, SlotsOf(integration));
      GrowsTwice(integrations, rows, between, AddAll(integrations, rows, order), AllDue(integrations, earlier),
                 SlotSet(SlotsOf(integration)));
      assert order == earlier + [id];
      DueSplits(integrations, earlier, id);
    }
  }

  // Bootstrap keeps the invariant, leaves every existing row as it was, adds a row for every slot
  // that is due, and brings every integration in line with its rows.
  lemma BootstrapSettles(s: State, order: seq<IntegrationId>)
    requires Inv(s) && Lists(order, s.integrations)
    ensures var after := Bootstrap(s, order);
            && Inv(after) && Derived(after) && after.integrations.Keys == s.integrations.Keys
            && (forall slot | slot in s.rows :: slot in after.rows && after.rows[slot] == s.rows[slot])
            && (forall slot :: slot in after.rows <==> slot in s.rows || Due(s.integrations, order, slot))
  {
    AddAllGrows(s.integrations, s.rows, order);
  }

  lemma {:induction false} AddSlotsFull(rows: Rows, id: IntegrationId, wanted: bool, slots: seq<Slot>)
    requires forall slot | slot in slots :: slot in rows
    ensures AddSlots(rows, id, wanted, slots) == rows
  {
    if slots != [] {
      AddSlotsFull(rows, id, wanted, slots[..|slots| - 1]);
    }
  }

  lemma {:induction false} AddAllFull(integrations: Integrations, rows: Rows, order: seq<IntegrationId>)
    requires forall id | id in order :: id in integrations
    requires forall id | id in order :: forall slot | slot in SlotsOf(integrations[id]) :: slot in rows
    ensures AddAll(integrations, rows, order) == rows
  {
    if order != [] {
      var id := order[|order| - 1];
      AddAllFull(integrations, rows, order[..|order| - 1]);
      AddSlotsFull(rows, id, integrations[id].enabled, SlotsOf(integrations[id]));
    }
  }

  // A second bootstrap, in whatever order, changes nothing.
  lemma BootstrapIsIdempotent(s: State, order: seq<IntegrationId>, again: seq<IntegrationId>)
    requires Inv(s) && Lists(order, s.integrations) && Lists(again, s.integrations)
    ensures forall id | id in again :: id in Bootstrap(s, order).integrations
    ensures Bootstrap(Bootstrap(s, order), again) == Bootstrap(s, order)
  {
    BootstrapSettles(s, order);
    var after := Bootstrap(s, order);
    forall id, slot | id in again && slot in SlotsOf(after.integrations[id])
      ensures slot in after.rows
    {
      assert id in order && slot in SlotsOf(s.integrations[id]);
      assert Due(s.integrations, order, slot);
    }
    AddAllFull(after.integrations, after.rows, again);
    assert Settle(after.integrations, after.rows) == after.integrations;
  }

  // ---- which streams a bootstrap fills --------------------------------------------------------

  // The first of the list that offers the slot.
  function FirstOffer(integrations: Integrations, order: seq<IntegrationId>, slot: Slot): (first: Option<IntegrationId>)
    requires forall id | id in order :: id in integrations
    ensures first.Some? ==> first.value in order && slot in SlotsOf(integrations[first.value])
    ensures first.None? <==> !Due(integrations, order, slot)
  {
    if order == [] then None
    else
      var earlier, id := order[..|order| - 1], order[|order| - 1];
      assert order == earlier + [id];
      var first := FirstOffer(integrations, earlier, slot);
      if first.Some? then first
      else if slot in SlotsOf(integrations[id]) then Some(id)
      else None
  }

  // The slot has no row, and the first integration to offer it is enabled.
  predicate WonSlot(integrations: Integrations, rows: Rows, order: seq<IntegrationId>, slot: Slot)
    requires forall id | id in order :: id in integrations
  {
    var first := FirstOffer(integrations, order, slot);
    slot !in rows && first.Some? && integrations[first.value].enabled
  }

  ghost predicate Won(integrations: Integrations, rows: Rows, order: seq<IntegrationId>, stream: Stream)
    requires forall id | id in order :: id in integrations
  {
    exists slot: Slot :: slot.stream == stream && WonSlot(integrations, rows, order, slot)
  }

  lemma {:induction false} AddSlotsFills(rows: Rows, id: IntegrationId, wanted: bool, slots: seq<Slot>, stream: Stream)
    requires forall i, j | 0 <= i < j < |slots| :: slots[i] != slots[j]
    ensures HasActive(AddSlots(rows, id, wanted, slots), stream) <==>
            HasActive(rows, stream) || (wanted && exists slot :: slot in slots && slot.stream == stream && slot !in rows)
    ensures forall s :: s in AddSlots(rows, id, wanted, slots) <==> s in rows || s in slots
    ensures forall s | s in rows :: AddSlots(rows, id, wanted, slots)[s] == rows[s]
  {
    if slots != [] {
      var earlier, slot := slots[..|slots| - 1], slots[|slots| - 1];
      AddSlotsFills(rows, id, wanted, earlier, stream);
      assert slots == earlier + [slot];
      var before, after := AddSlots(rows, id, wanted, earlier), AddSlots(rows, id, wanted, slots);
      assert slot in before <==> slot in rows;
      ActiveAfterAdd(before, id, wanted, slot, stream);
    }
  }

  lemma ActiveAfterAdd(rows: Rows, id: IntegrationId, wanted: bool, slot: Slot, stream: Stream)
    ensures HasActive(AddSlot(rows, id, wanted, slot), stream) <==>
            HasActive(rows, stream) || (wanted && slot.stream == stream && slot !in rows)
  {
    var after := AddSlot(rows, id, wanted, slot);
    if HasActive(rows, stream) {
      var s :| s in rows && s.stream == stream && rows[s].active;
      assert s in after && after[s].active;
    }
    if wanted && slot.stream == stream && slot !in rows {
      if !HasActive(rows, slot.stream) {
        assert slot in after && after[slot].active;
      }
    }
  }

  lemma SlotsDiffer(kind: IntegrationType, capabilities: Capabilities)
    ensures var slots := SlotsFor(kind, capabilities); forall i, j | 0 <= i < j < |slots| :: slots[i] != slots[j]
  {
  }

  lemma FirstOfferSplits(integrations: Integrations, earlier: seq<IntegrationId>, id: IntegrationId, slot: Slot)
    requires (forall i | i in earlier :: i in integrations) && id in integrations
    ensures FirstOffer(integrations, earlier + [id], slot)
            == if Due(integrations, earlier, slot) then FirstOffer(integrations, earlier, slot)
               else if slot in SlotsOf(integrations[id]) then Some(id) else None
  {
    assert (earlier + [id])[..|earlier|] == earlier;
  }

  lemma WonSplits(integrations: Integrations, rows: Rows, before: Rows, earlier: seq<IntegrationId>, id: IntegrationId,
                  stream: Stream)
    requires (forall i | i in earlier :: i in integrations) && id in integrations
    requires forall s :: s in before <==> s in rows || Due(integrations, earlier, s)
    ensures Won(integrations, rows, earlier + [id], stream) <==>
            Won(integrations, rows, earlier, stream)
            || (integrations[id].enabled
                && exists slot :: slot in SlotsOf(integrations[id]) && slot.stream == stream && slot !in before)
  {
    forall slot
      ensures WonSlot(integrations, rows, earlier + [id], slot) <==>
              WonSlot(integrations, rows, earlier, slot)
              || (integrations[id].enabled && slot in SlotsOf(integrations[id]) && slot !in before)
    {
      WonSlotSplits(integrations, rows, before, earlier, id, slot);
    }
  }

  lemma WonSlotSplits(integrations: Integrations, rows: Rows, before: Rows, earlier: seq<IntegrationId>,
                      id: IntegrationId, slot: Slot)
    requires (forall i | i in earlier :: i in integrations) && id in integrations
    requires slot in before <==> slot in rows || Due(integrations, earlier, slot)
    ensures WonSlot(integrations, rows, earlier + [id], slot) <==>
            WonSlot(integrations, rows, earlier, slot)
            || (integrations[id].enabled && slot in SlotsOf(integrations[id]) && slot !in before)
  {
    FirstOfferSplits(integrations, earlier, id, slot);
  }

  // One integration more.
  lemma OneMoreFills(integrations: Integrations, rows: Rows, before: Rows, earlier: seq<IntegrationId>, id: IntegrationId,
                     stream: Stream)
    requires (forall i | i in earlier :: i in integrations) && id in integrations
    requires forall s :: s in before <==> s in rows || Due(integrations, earlier, s)
    requires HasActive(before, stream) <==> HasActive(rows, stream) || Won(integrations, rows, earlier, stream)
    ensures var after := AddSlots(before, id, integrations[id].enabled, SlotsOf(integrations[id]));
            && (HasActive(after, stream) <==> HasActive(rows, stream) || Won(integrations, rows, earlier + [id], stream))
            && forall s :: s in after <==> s in rows || Due(integrations, earlier + [id], s)
  {
    SlotsDiffer(integrations[id].kind, integrations[id].capabilities);
    AddSlotsFills(before, id, integrations[id].enabled, SlotsOf(integrations[id]), stream);
    DueSplits(integrations, earlier, id);
    assert forall s :: Due(integrations, earlier + [id], s) <==> s in AllDue(integrations, earlier + [id]);
    WonSplits(integrations, rows, before, earlier, id, stream);
  }

  lemma {:induction false} AddAllFills(integrations: Integrations, rows: Rows, order: seq<IntegrationId>, stream: Stream)
    requires forall id | id in order :: id in integrations
    ensures HasActive(AddAll(integrations, rows, order), stream) <==>
            HasActive(rows, stream) || Won(integrations, rows, order, stream)
    ensures forall s :: s in AddAll(integrations, rows, order) <==> s in rows || Due(integrations, order, s)
  {
    if order != [] {
      var earlier, id := order[..|order| - 1], order[|order| - 1];
      AddAllFills(integrations, rows, earlier, stream);
      OneMoreFills(integrations, rows, AddAll(integrations, rows, earlier), earlier, id, stream);
      assert order == earlier + [id];
    }
  }

  // A stream has an active source after a bootstrap exactly when it had one before, or the first
  // integration of the list to offer some new slot of it is enabled.
  lemma BootstrapFillsExactly(s: State, order: seq<IntegrationId>, stream: Stream)
    requires Lists(order, s.integrations)
    ensures HasActive(Bootstrap(s, order).rows, stream) <==>
            HasActive(s.rows, stream) || Won(s.integrations, s.rows, order, stream)
  {
    AddAllFills(s.integrations, s.rows, order, stream);
  }

  // ---- whether the order matters --------------------------------------------------------------

  ghost predicate Offered(integrations: Integrations, slot: Slot, enabled: bool) {
    exists id :: id in integrations && slot in SlotsOf(integrations[id]) && integrations[id].enabled == enabled
  }

  // Some new slot of the stream is offered by an enabled integration.
  ghost predicate Winnable(s: State, stream: Stream) {
    exists slot: Slot :: slot.stream == stream && slot !in s.rows && Offered(s.integrations, slot, true)
  }

  // Some new slot of the stream is offered by enabled integrations only.
  ghost predicate Uncontested(s: State, stream: Stream) {
    exists slot: Slot :: slot.stream == stream && slot !in s.rows && Offered(s.integrations, slot, true)
                   && !Offered(s.integrations, slot, false)
  }

  lemma ListOf(ids: set<IntegrationId>) returns (order: seq<IntegrationId>)
    ensures forall id :: id in order <==> id in ids
  {
    order := [];
    var left := ids;
    while left != {}
      invariant left <= ids && forall id :: id in order <==> id in ids - left
    {
      var id :| id in left;
      order, left := order + [id], left - {id};
    }
  }

  lemma {:induction false} FirstOfFront(integrations: Integrations, front: seq<IntegrationId>, back: seq<IntegrationId>,
                                        slot: Slot)
    requires forall id | id in front + back :: id in integrations
    requires Due(integrations, front, slot)
    ensures (forall id | id in front :: id in integrations)
            && FirstOffer(integrations, front + back, slot) == FirstOffer(integrations, front, slot)
  {
    assert forall id | id in front :: id in front + back;
    if back == [] {
      assert front + back == front;
    } else {
      var before, last := back[..|back| - 1], back[|back| - 1];
      assert front + back == (front + before) + [last];
      FirstOfFront(integrations, front, before, slot);
      FirstOfferSplits(integrations, front + before, last, slot);
    }
  }

  // An order in which the first to offer a slot is enabled as told, wherever such a one offers it.
  lemma OrderFavouring(integrations: Integrations, enabled: bool) returns (order: seq<IntegrationId>)
    ensures Lists(order, integrations)
    ensures forall slot | Offered(integrations, slot, enabled) ::
              FirstOffer(integrations, order, slot).Some?
              && integrations[FirstOffer(integrations, order, slot).value].enabled == enabled
  {
    var front := ListOf(set id | id in integrations && integrations[id].enabled == enabled);
    var back := ListOf(set id | id in integrations && integrations[id].enabled != enabled);
    order := front + back;
    forall slot | Offered(integrations, slot, enabled)
      ensures FirstOffer(integrations, order, slot).Some?
      ensures integrations[FirstOffer(integrations, order, slot).value].enabled == enabled
    {
      var id :| id in integrations && slot in SlotsOf(integrations[id]) && integrations[id].enabled == enabled;
      assert id in front;
      FirstOfFront(integrations, front, back, slot);
    }
  }

  // Some order of the query serves the stream exactly when it is served already or winnable, and
  // every order does exactly when it is served already or uncontested.
  lemma OrdersServeIff(s: State, stream: Stream)
    ensures (exists order :: Lists(order, s.integrations) && HasActive(Bootstrap(s, order).rows, stream)) <==>
            HasActive(s.rows, stream) || Winnable(s, stream)
    ensures (forall order :: Lists(order, s.integrations) ==> HasActive(Bootstrap(s, order).rows, stream)) <==>
            HasActive(s.rows, stream) || Uncontested(s, stream)
  {
    var best := OrderFavouring(s.integrations, true);
    var worst := OrderFavouring(s.integrations, false);
    WonIffWinnable(s, best, stream);
    WonOnlyUncontested(s, worst, stream);
    BootstrapFillsExactly(s, best, stream);
    BootstrapFillsExactly(s, worst, stream);
    forall order | Lists(order, s.integrations)
      ensures HasActive(Bootstrap(s, order).rows, stream) ==> HasActive(s.rows, stream) || Winnable(s, stream)
      ensures HasActive(s.rows, stream) || Uncontested(s, stream) ==> HasActive(Bootstrap(s, order).rows, stream)
    {
      BootstrapFillsExactly(s, order, stream);
      WonBetween(s, order, stream);
    }
  }

  lemma WonBetween(s: State, order: seq<IntegrationId>, stream: Stream)
    requires Lists(order, s.integrations)
    ensures Uncontested(s, stream) ==> Won(s.integrations, s.rows, order, stream)
    ensures Won(s.integrations, s.rows, order, stream) ==> Winnable(s, stream)
  {
    if Uncontested(s, stream) {
      var slot: Slot :| slot.stream == stream && slot !in s.rows && Offered(s.integrations, slot, true)
                  && !Offered(s.integrations, slot, false);
      assert Due(s.integrations, order, slot);
      assert WonSlot(s.integrations, s.rows, order, slot);
    }
    if Won(s.integrations, s.rows, order, stream) {
      var slot: Slot :| slot.stream == stream && WonSlot(s.integrations, s.rows, order, slot);
      assert Offered(s.integrations, slot, true);
    }
  }

  lemma WonIffWinnable(s: State, best: seq<IntegrationId>, stream: Stream)
    requires Lists(best, s.integrations)
    requires forall slot | Offered(s.integrations, slot, true) ::
               FirstOffer(s.integrations, best, slot).Some?
               && s.integrations[FirstOffer(s.integrations, best, slot).value].enabled
    ensures Winnable(s, stream) ==> Won(s.integrations, s.rows, best, stream)
  {
    if Winnable(s, stream) {
      var slot: Slot :| slot.stream == stream && slot !in s.rows && Offered(s.integrations, slot, true);
      assert WonSlot(s.integrations, s.rows, best, slot);
    }
  }

  lemma WonOnlyUncontested(s: State, worst: seq<IntegrationId>, stream: Stream)
    requires Lists(worst, s.integrations)
    requires forall slot | Offered(s.integrations, slot, false) ::
               FirstOffer(s.integrations, worst, slot).Some?
               && !s.integrations[FirstOffer(s.integrations, worst, slot).value].enabled
    ensures Won(s.integrations, s.rows, worst, stream) ==> Uncontested(s, stream)
  {
    if Won(s.integrations, s.rows, worst, stream) {
      var slot: Slot :| slot.stream == stream && WonSlot(s.integrations, s.rows, worst, slot);
      assert Offered(s.integrations, slot, true);
    }
  }

  // Sharing a slot makes the outcome depend on the order of the query: if the disabled one of two
  // alike integrations comes first, it takes the row, the stream stays empty and the enabled one is
  // switched off; the other way round the enabled one is selected.
  lemma RivalsDependOnOrder(a: IntegrationId, b: IntegrationId, integration: Integration)
    requires a != b && integration.kind.Prometheus?
    ensures var s := State(map[a := integration.(enabled := false), b := integration.(enabled := true)], map[]);
            && (forall id | id in [a, b] :: id in s.integrations) && (forall id | id in [b, a] :: id in s.integrations)
            && !HasActive(Bootstrap(s, [a, b]).rows, Monitoring) && !Bootstrap(s, [a, b]).integrations[b].enabled
            && HasActive(Bootstrap(s, [b, a]).rows, Monitoring) && Bootstrap(s, [b, a]).integrations[b].enabled
  {
    var s := State(map[a := integration.(enabled := false), b := integration.(enabled := true)], map[]);
    var slot := Slot(Monitoring, "prometheus");
    assert SlotsOf(s.integrations[a]) == SlotsOf(s.integrations[b]) == [slot];
    OneSlot(map[], a, false, slot);
    OneSlot(map[], b, true, slot);
    TwoOrdered(s.integrations, map[], a, b);
    TwoOrdered(s.integrations, map[], b, a);
    OneSlot(AddSlot(map[], a, false, slot), b, true, slot);
    OneSlot(AddSlot(map[], b, true, slot), a, false, slot);
    assert Bootstrap(s, [b, a]).rows[slot] == Activation(b, true, true);
    assert Bootstrap(s, [a, b]).rows == map[slot := Activation(a, false, false)];
  }

  lemma OneSlot(rows: Rows, id: IntegrationId, wanted: bool, slot: Slot)
    ensures AddSlots(rows, id, wanted, [slot]) == AddSlot(rows, id, wanted, slot)
  {
    assert [slot][..0] == [];
    assert AddSlots(rows, id, wanted, []) == rows;
  }

  lemma TwoOrdered(integrations: Integrations, rows: Rows, a: IntegrationId, b: IntegrationId)
    requires a in integrations && b in integrations
    ensures AddAll(integrations, rows, [a, b])
            == AddSlots(AddSlots(rows, a, integrations[a].enabled, SlotsOf(integrations[a])),
                        b, integrations[b].enabled, SlotsOf(integrations[b]))
  {
    assert [a, b][..1] == [a] && [a][..0] == [];
    assert AddAll(integrations, rows, []) == rows;
    assert AddAll(integrations, rows, [a]) == AddSlots(rows, a, integrations[a].enabled, SlotsOf(integrations[a]));
  }

  // ---- lemmas: select, create, disable --------------------------------------------------------

  lemma SelectKeeps(s: State, id: IntegrationId, stream: Stream, slot: Slot, confirmed: bool)
    requires Inv(s) && Selectable(s, id, stream, slot, confirmed)
    ensures var after := Selected(s, slot);
            && Inv(after) && Derived(after)
            && after.rows[slot].active && after.integrations[id].enabled
            && (forall t | t in s.rows && t.stream != stream :: t in after.rows && after.rows[t] == s.rows[t])
            && (forall t | t in s.rows :: after.rows[t].integration == s.rows[t].integration)
  {
    var after := Selected(s, slot);
    assert slot in after.rows && after.rows[slot].integration == id && after.rows[slot].active;
  }

  lemma AddSlotsOwner(rows: Rows, id: IntegrationId, wanted: bool, slots: seq<Slot>, other: IntegrationId)
    requires other != id
    ensures Owns(AddSlots(rows, id, wanted, slots), other) == Owns(rows, other)
  {
    if slots != [] {
      var earlier, slot := slots[..|slots| - 1], slots[|slots| - 1];
      AddSlotsOwner(rows, id, wanted, earlier, other);
      OwnerAfterAdd(AddSlots(rows, id, wanted, earlier), id, wanted, slot, other);
    }
  }

  lemma OwnerAfterAdd(rows: Rows, id: IntegrationId, wanted: bool, slot: Slot, other: IntegrationId)
    requires other != id
    ensures Owns(AddSlot(rows, id, wanted, slot), other) == Owns(rows, other)
  {
    var after := AddSlot(rows, id, wanted, slot);
    if Owns(rows, other) {
      var s :| s in rows && rows[s].integration == other && rows[s].active;
      assert s in after && after[s] == rows[s];
    }
  }

  lemma CreateKeeps(s: State, id: IntegrationId, integration: Integration)
    requires Inv(s) && Creatable(s, id, integration)
    ensures var after := Created(s, id, integration);
            && Inv(after) && (Derived(s) ==> Derived(after))
            && (forall slot | slot in s.rows :: slot in after.rows && after.rows[slot] == s.rows[slot])
  {
    var wanted := integration.enabled && Available(integration.kind);
    var with := s.integrations[id := integration];
    forall slot | slot in SlotsOf(integration) ensures slot in AllSlots(integration.kind) {
      SlotsAreOwn(integration.kind, integration.capabilities, slot);
    }
    AddSlotsGrows(with, s.rows, id, wanted, SlotsOf(integration));
    forall other | other in s.integrations
      ensures Owns(Created(s, id, integration).rows, other) == Owns(s.rows, other)
    {
      AddSlotsOwner(s.rows, id, wanted, SlotsOf(integration), other);
    }
  }

  lemma TwoSlots(rows: Rows, id: IntegrationId, wanted: bool, first: Slot, second: Slot)
    ensures AddSlots(rows, id, wanted, [first, second]) == AddSlot(AddSlot(rows, id, wanted, first), id, wanted, second)
  {
    assert [first, second][..1] == [first];
    OneSlot(rows, id, wanted, first);
  }

  // A row that is added is selected exactly when wanted and the stream has no source yet, also after
  // another one, of another stream.
  lemma AddedRow(rows: Rows, id: IntegrationId, wanted: bool, slot: Slot, other: Slot)
    requires slot !in rows && slot.stream != other.stream
    ensures var selected := wanted && !HasActive(rows, slot.stream);
            && AddSlot(rows, id, wanted, slot)[slot] == Activation(id, selected, selected)
            && AddSlot(AddSlot(rows, id, wanted, other), id, wanted, slot)[slot] == Activation(id, selected, selected)
            && AddSlot(AddSlot(rows, id, wanted, slot), id, wanted, other)[slot] == Activation(id, selected, selected)
  {
    ActiveAfterAdd(rows, id, wanted, other, slot.stream);
  }

  lemma SlotsOffered(integration: Integration, slot: Slot)
    requires slot in SlotsOf(integration)
    ensures Available(integration.kind)
    ensures SlotsOf(integration) == [slot]
            || (SlotsOf(integration) == [Slot(Ticketing, "servicenow"), Slot(Cmdb, "servicenow_cmdb")]
                && (slot == Slot(Ticketing, "servicenow") || slot == Slot(Cmdb, "servicenow_cmdb")))
  {
  }

  lemma AddedSlots(rows: Rows, id: IntegrationId, wanted: bool, integration: Integration, slot: Slot)
    requires slot in SlotsOf(integration) && forall t | t in SlotsOf(integration) :: t !in rows
    ensures var after, selected := AddSlots(rows, id, wanted, SlotsOf(integration)), wanted && !HasActive(rows, slot.stream);
            slot in after && after[slot] == Activation(id, selected, selected)
  {
    SlotsOffered(integration, slot);
    if SlotsOf(integration) == [slot] {
      OneSlot(rows, id, wanted, slot);
    } else {
      var first, second := Slot(Ticketing, "servicenow"), Slot(Cmdb, "servicenow_cmdb");
      TwoSlots(rows, id, wanted, first, second);
      AddedRow(rows, id, wanted, slot, if slot == first then second else first);
    }
  }

  // Each slot the new integration offers gets its row, selected exactly when the integration is to be
  // enabled and the stream has no source yet.
  lemma CreatedRows(s: State, id: IntegrationId, integration: Integration, slot: Slot)
    requires Creatable(s, id, integration) && slot in SlotsOf(integration)
    ensures var after, selected := Created(s, id, integration), integration.enabled && !HasActive(s.rows, slot.stream);
            slot in after.rows && after.rows[slot] == Activation(id, selected, selected)
  {
    SlotsOffered(integration, slot);
    AddedSlots(s.rows, id, integration.enabled, integration, slot);
  }

  lemma DisableKeeps(s: State, id: IntegrationId)
    requires Inv(s) && id in s.integrations
    ensures var after := Disabled(s, id);
            && Inv(after) && (Derived(s) ==> Derived(after)) && !Owns(after.rows, id)
            && (forall t | t in s.rows && s.rows[t].integration != id :: t in after.rows && after.rows[t] == s.rows[t])
  {
    var after := Disabled(s, id);
    forall other | other != id ensures Owns(after.rows, other) == Owns(s.rows, other) {
      if Owns(s.rows, other) {
        var t :| t in s.rows && s.rows[t].integration == other && s.rows[t].active;
        assert t in after.rows && after.rows[t] == s.rows[t];
      }
    }
  }

  // ---- runs -----------------------------------------------------------------------------------

  // Appear: an integration comes into being outside this service (a legacy configuration).
  // Reconfigure: its capabilities change.
  datatype Action =
    | Appear(id: IntegrationId, integration: Integration)
    | Reconfigure(id: IntegrationId, capabilities: Capabilities)
    | Refresh(order: seq<IntegrationId>)
    | Select(order: seq<IntegrationId>, id: IntegrationId, stream: Stream, slot: Slot, confirmed: bool)
    | Create(id: IntegrationId, integration: Integration)
    | Disable(id: IntegrationId)

  ghost predicate Possible(s: State, a: Action) {
    match a
    case Refresh(order) => Lists(order, s.integrations)
    case Select(order, _, _, _, _) => Lists(order, s.integrations)
    case _ => true
  }

  // A call that its checks refuse changes nothing, beyond the bootstrap select_source starts with.
  ghost function Act(s: State, a: Action): State
    requires Possible(s, a)
  {
    match a
    case Appear(id, integration) => if id in s.integrations then s else s.(integrations := s.integrations[id := integration])
    case Reconfigure(id, capabilities) =>
      if id in s.integrations
      then s.(integrations := s.integrations[id := s.integrations[id].(capabilities := capabilities)]) else s
    case Refresh(order) => Bootstrap(s, order)
    case Select(order, id, stream, slot, confirmed) =>
      var ready := Bootstrap(s, order);
      if Selectable(ready, id, stream, slot, confirmed) then Selected(ready, slot) else ready
    case Create(id, integration) => if Creatable(s, id, integration) then Created(s, id, integration) else s
    case Disable(id) =>
      if id in s.integrations && |SlotsOf(s.integrations[id])| == 1 then Disabled(s, id) else s
  }

  // Whether enablement is known to be derived after the actions.
  function Settled(actions: seq<Action>, start: bool): bool {
    if actions == [] then start
    else Settled(actions[1..], match actions[0]
      case Appear(_, _) => false
      case Refresh(_) => true
      case Select(_, _, _, _, _) => true
      case _ => start)
  }

  lemma ActKeeps(s: State, a: Action)
    requires Inv(s) && Possible(s, a)
    ensures Inv(Act(s, a))
    ensures a.Refresh? || a.Select? || (Derived(s) && !a.Appear?) ==> Derived(Act(s, a))
  {
    match a
    case Appear(id, integration) =>
    case Reconfigure(id, capabilities) =>
    case Refresh(order) => BootstrapSettles(s, order);
    case Select(order, id, stream, slot, confirmed) =>
      BootstrapSettles(s, order);
      var ready := Bootstrap(s, order);
      if Selectable(ready, id, stream, slot, confirmed) {
        SelectKeeps(ready, id, stream, slot, confirmed);
      }
    case Create(id, integration) =>
      if Creatable(s, id, integration) {
        CreateKeeps(s, id, integration);
      }
    case Disable(id) =>
      if id in s.integrations {
        DisableKeeps(s, id);
      }
  }

  ghost predicate Runs(s: State, actions: seq<Action>)
    decreases |actions|
  {
    actions == [] || (Possible(s, actions[0]) && Runs(Act(s, actions[0]), actions[1..]))
  }

  ghost function Run(s: State, actions: seq<Action>): State
    requires Runs(s, actions)
    decreases |actions|
  {
    if actions == [] then s else Run(Act(s, actions[0]), actions[1..])
  }

  // What the checks and writes of a selection do to the rows, once bootstrapped.
  ghost function Chosen(s: State, id: IntegrationId, stream: Stream, slot: Slot, confirmed: bool): State {
    if Selectable(s, id, stream, slot, confirmed) then Selected(s, slot) else s
  }

  lemma UnconfirmedKeeps(s: State, id: IntegrationId, stream: Stream, slot: Slot, t: Slot)
    requires Inv(s) && t in s.rows && s.rows[t].active
    ensures var after := Chosen(s, id, stream, slot, false); t in after.rows && after.rows[t].active
  {
    if t.stream == stream {
      assert t in ActiveIn(s.rows, stream);
    }
  }

  lemma ConfirmedMoves(s: State, id: IntegrationId, stream: Stream, slot: Slot)
    requires Inv(s)
    ensures var after := Chosen(s, id, stream, slot, true);
            if slot in s.rows && slot.stream == stream && s.rows[slot].integration == id
            then slot in after.rows && after.rows[slot].active
                 && forall t | t in after.rows && t.stream == stream && t != slot :: !after.rows[t].active
            else after == s
  {
    if slot in s.rows && slot.stream == stream && s.rows[slot].integration == id {
      assert slot in AllSlots(s.integrations[id].kind);
    }
  }

  // Without confirmation a selection displaces nothing.
  lemma UnconfirmedDisplacesNothing(s: State, order: seq<IntegrationId>, id: IntegrationId, stream: Stream, slot: Slot)
    requires Inv(s) && Lists(order, s.integrations)
    ensures var after := Act(s, Select(order, id, stream, slot, false));
            forall t | t in s.rows && s.rows[t].active :: t in after.rows && after.rows[t].active
  {
    BootstrapSettles(s, order);
    var ready := Bootstrap(s, order);
    assert Act(s, Select(order, id, stream, slot, false)) == Chosen(ready, id, stream, slot, false);
    forall t | t in s.rows && s.rows[t].active
      ensures var after := Chosen(ready, id, stream, slot, false); t in after.rows && after.rows[t].active
    {
      assert ready.rows[t] == s.rows[t];
      UnconfirmedKeeps(ready, id, stream, slot, t);
    }
  }

  // With it, the integration's row in the stream is selected, whichever was; without a row of its own
  // the integration selects nothing.
  lemma ConfirmedSelects(s: State, order: seq<IntegrationId>, id: IntegrationId, stream: Stream, slot: Slot)
    requires Inv(s) && Lists(order, s.integrations)
    ensures var ready, after := Bootstrap(s, order), Act(s, Select(order, id, stream, slot, true));
            if slot in ready.rows && slot.stream == stream && ready.rows[slot].integration == id
            then slot in after.rows && after.rows[slot].active
                 && forall t | t in after.rows && t.stream == stream && t != slot :: !after.rows[t].active
            else after == ready
  {
    BootstrapSettles(s, order);
    ConfirmedMoves(Bootstrap(s, order), id, stream, slot);
  }

  // Over every run: at most one active row per stream, enabled = active in every row, and, once a
  // bootstrap or a selection has followed the last integration that appeared from outside, every
  // integration is enabled exactly when it owns an active row.
  lemma {:induction false} RunKeepsSelection(s: State, actions: seq<Action>, derived: bool)
    requires Inv(s) && Runs(s, actions) && (derived ==> Derived(s))
    ensures Inv(Run(s, actions))
    ensures Settled(actions, derived) ==> Derived(Run(s, actions))
    decreases |actions|
  {
    if actions != [] {
      var a := actions[0];
      ActKeeps(s, a);
      RunKeepsSelection(Act(s, a), actions[1..], match a
        case Appear(_, _) => false
        case Refresh(_) => true
        case Select(_, _, _, _, _) => true
        case _ => derived);
    }
  }
}
