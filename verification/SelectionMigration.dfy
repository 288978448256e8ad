// The selection loop of backend/alembic/versions/20260814_0018_selected_sources.py: it turns the rows
// of release 2.0.0, where several sources of a stream could be enabled beside the active one, into
// one selected source per stream.
module SelectionMigration {
  import opened Wrappers
  import StreamSelection

  type RowId = nat
  type IntegrationId = nat

  datatype Group = Group(connector: string, stream: string)

  // The columns the migration reads.  Times stand for their text, which sorts the same way; ids
  // stand for theirs.
  datatype OldRow = OldRow(
    id: RowId, group: Group, integration: IntegrationId, enabled: bool, active: bool,
    activatedAt: Option<nat>, updatedAt: Option<nat>, createdAt: Option<nat>)
  {
    // activated_at, or else updated_at, or else created_at, or else "", which sorts first
    function Stamp(): nat {
      if activatedAt.Some? then activatedAt.value + 1
      else if updatedAt.Some? then updatedAt.value + 1
      else if createdAt.Some? then createdAt.value + 1
      else 0
    }
  }

  // The sort key of max(): the time, then the id.
  predicate Beats(a: OldRow, b: OldRow) {
    a.Stamp() > b.Stamp() || (a.Stamp() == b.Stamp() && a.id >= b.id)
  }

  // What revision 0017 guarantees: ids are unique, and so is the active row of a group.
  ghost predicate Legal0017(rows: seq<OldRow>) {
    && (forall i, j | 0 <= i < j < |rows| :: rows[i].id != rows[j].id)
    && forall a, b | a in rows && b in rows && a.active && b.active && a.group == b.group :: a == b
  }

  predicate GroupHasActive(rows: seq<OldRow>, group: Group) {
    exists r | r in rows :: r.group == group && r.active
  }

  // Active rows are eligible; without one in the group, enabled rows are.
  predicate Eligible(rows: seq<OldRow>, r: OldRow) {
    r in rows && (r.active || (r.enabled && !GroupHasActive(rows, r.group)))
  }

  // The row the migration keeps: the eligible one of its group that beats every other.
  ghost predicate Wins(rows: seq<OldRow>, r: OldRow) {
    Eligible(rows, r) && forall q | q in rows && q.group == r.group && Eligible(rows, q) :: Beats(r, q)
  }

  // Row `id`, or some row of integration `i`, wins in one of the groups.
  ghost predicate RowWins(rows: seq<OldRow>, groups: set<Group>, id: RowId) {
    exists r :: Wins(rows, r) && r.group in groups && r.id == id
  }

  ghost predicate IntegrationWins(rows: seq<OldRow>, groups: set<Group>, i: IntegrationId) {
    exists r :: Wins(rows, r) && r.group in groups && r.integration == i
  }

  // What it leaves: the selected row ids, and the enabled flag of each integration that has rows.
  datatype Outcome = Outcome(selected: set<RowId>, enabled: map<IntegrationId, bool>)

  ghost predicate Migrated(rows: seq<OldRow>, outcome: Outcome) {
    && (forall id :: id in outcome.selected <==> exists r :: Wins(rows, r) && r.id == id)
    && (forall i :: i in outcome.enabled <==> exists r :: r in rows && r.integration == i)
    && forall i | i in outcome.enabled :: outcome.enabled[i] <==> exists r :: Wins(rows, r) && r.integration == i
  }

  // ---- the loops ------------------------------------------------------------------------------

  // `grouped`: the rows of every group, in table order.
  method GroupRows(rows: seq<OldRow>) returns (grouped: map<Group, seq<OldRow>>)
    ensures forall g, r :: g in grouped && r in grouped[g] <==> r in rows && r.group == g
    ensures forall g | g in grouped :: grouped[g] != []
  {
    grouped := map[];
    for k := 0 to |rows|
      invariant forall g, r :: g in grouped && r in grouped[g] <==> r in rows[..k] && r.group == g
      invariant forall g | g in grouped :: grouped[g] != []
    {
      assert rows[..k + 1] == rows[..k] + [rows[k]];
      var g := rows[k].group;
      grouped := grouped[g := (if g in grouped then grouped[g] else []) + [rows[k]]];
    }
    assert rows[..|rows|] == rows;
  }

  // max(eligible, key=...)
  method Best(eligible: seq<OldRow>) returns (best: OldRow)
    requires eligible != []
    ensures best in eligible && forall q | q in eligible :: Beats(best, q)
  {
    best := eligible[0];
    for k := 1 to |eligible|
      invariant best in eligible && forall j | 0 <= j < k :: Beats(best, eligible[j])
    {
      if !Beats(best, eligible[k]) {
        best := eligible[k];
      }
    }
  }

  method Filter(candidates: seq<OldRow>, active: bool) returns (kept: seq<OldRow>)
    ensures forall r :: r in kept <==> r in candidates && if active then r.active else r.enabled
  {
    kept := [];
    for k := 0 to |candidates|
      invariant forall r :: r in kept <==> r in candidates[..k] && if active then r.active else r.enabled
    {
      assert candidates[..k + 1] == candidates[..k] + [candidates[k]];
      if if active then candidates[k].active else candidates[k].enabled {
        kept := kept + [candidates[k]];
      }
    }
    assert candidates[..|candidates|] == candidates;
  }

  // One group's turn.
  method SelectInGroup(ghost rows: seq<OldRow>, group: Group, candidates: seq<OldRow>) returns (winner: Option<OldRow>)
    requires forall r :: r in candidates <==> r in rows && r.group == group
    ensures winner.Some? ==> Wins(rows, winner.value) && winner.value.group == group
    ensures winner.None? ==> forall r | r in rows && r.group == group :: !Eligible(rows, r)
  {
    var eligible := Filter(candidates, true);
    if eligible == [] {
      eligible := Filter(candidates, false);
      assert !GroupHasActive(rows, group) by {
        if r :| r in rows && r.group == group && r.active {
          assert r in candidates;
        }
      }
    } else {
      assert eligible[0] in rows && eligible[0].group == group && eligible[0].active;
    }
    assert forall r :: r in eligible <==> r in rows && r.group == group && Eligible(rows, r);
    if eligible == [] {
      return None;
    }
    var best := Best(eligible);
    return Some(best);
  }

  method Upgrade(rows: seq<OldRow>) returns (outcome: Outcome)
    requires Legal0017(rows)
    ensures Migrated(rows, outcome)
  {
    var grouped := GroupRows(rows);
    var selected: set<RowId>, integrations: set<IntegrationId> := {}, {};
    var todo := grouped.Keys;
    while todo != {}
      invariant todo <= grouped.Keys
      invariant forall id :: id in selected <==> RowWins(rows, grouped.Keys - todo, id)
      invariant forall i :: i in integrations <==> IntegrationWins(rows, grouped.Keys - todo, i)
      decreases todo
    {
      var group :| group in todo;
      var winner := SelectInGroup(rows, group, grouped[group]);
      WinnersOfGroup(rows, group, winner);
      WinnersWithGroup(rows, grouped.Keys - todo, group, winner);
      if winner.Some? {
        selected := selected + {winner.value.id};
        integrations := integrations + {winner.value.integration};
      }
      assert grouped.Keys - (todo - {group}) == (grouped.Keys - todo) + {group};
      todo := todo - {group};
    }
    assert grouped.Keys - todo == grouped.Keys;
    outcome := Outcome(selected, map r | r in rows :: r.integration := r.integration in integrations);
    forall r | Wins(rows, r) ensures r.group in grouped.Keys {
      assert r in rows;
    }
  }

  lemma WinnersOfGroup(rows: seq<OldRow>, group: Group, winner: Option<OldRow>)
    requires Legal0017(rows)
    requires winner.Some? ==> Wins(rows, winner.value) && winner.value.group == group
    requires winner.None? ==> forall r | r in rows && r.group == group :: !Eligible(rows, r)
    ensures forall r | Wins(rows, r) && r.group == group :: winner == Some(r)
  {
    forall r | Wins(rows, r) && r.group == group ensures winner == Some(r) {
      if winner.Some? {
        OneWinner(rows, r, winner.value);
      }
    }
  }

  lemma WinnersWithGroup(rows: seq<OldRow>, groups: set<Group>, group: Group, winner: Option<OldRow>)
    requires winner.Some? ==> Wins(rows, winner.value) && winner.value.group == group
    requires forall r | Wins(rows, r) && r.group == group :: winner == Some(r)
    ensures forall id :: RowWins(rows, groups + {group}, id) <==>
                         RowWins(rows, groups, id) || (winner.Some? && winner.value.id == id)
    ensures forall i :: IntegrationWins(rows, groups + {group}, i) <==>
                        IntegrationWins(rows, groups, i) || (winner.Some? && winner.value.integration == i)
  {
  }

  // ---- what it establishes --------------------------------------------------------------------

  lemma RowById(rows: seq<OldRow>, a: OldRow, b: OldRow)
    requires Legal0017(rows) && a in rows && b in rows && a.id == b.id
    ensures a == b
  {
    var i :| 0 <= i < |rows| && rows[i] == a;
    var j :| 0 <= j < |rows| && rows[j] == b;
    assert i == j;
  }

  lemma OneWinner(rows: seq<OldRow>, a: OldRow, b: OldRow)
    requires Legal0017(rows) && Wins(rows, a) && Wins(rows, b) && a.group == b.group
    ensures a == b
  {
    assert Beats(a, b) && Beats(b, a);
    RowById(rows, a, b);
  }

  lemma {:induction false} SomeoneWins(rows: seq<OldRow>, r: OldRow) returns (winner: OldRow)
    requires Eligible(rows, r)
    ensures Wins(rows, winner) && winner.group == r.group
  {
    winner := BestBelow(rows, r, |rows|);
    forall q | q in rows && q.group == winner.group && Eligible(rows, q) ensures Beats(winner, q) {
      var j :| 0 <= j < |rows| && rows[j] == q;
    }
  }

  lemma {:induction false} BestBelow(rows: seq<OldRow>, r: OldRow, count: nat) returns (best: OldRow)
    requires Eligible(rows, r) && count <= |rows|
    ensures Eligible(rows, best) && best.group == r.group
    ensures forall j | 0 <= j < count && rows[j].group == r.group && Eligible(rows, rows[j]) :: Beats(best, rows[j])
  {
    if count == 0 {
      best := r;
    } else {
      best := BestBelow(rows, r, count - 1);
      var last := rows[count - 1];
      if last.group == r.group && Eligible(rows, last) && !Beats(best, last) {
        best := last;
      }
    }
  }

  // The migrated table meets the constraints of the new release: at most one selected row per
  // connector and stream, one wherever a row was active or enabled, an active row stays selected,
  // and an integration with rows is enabled exactly when it owns a selected one.
  lemma MigrationEstablishesSelection(rows: seq<OldRow>, outcome: Outcome)
    requires Legal0017(rows) && Migrated(rows, outcome)
    ensures forall a, b | a in rows && b in rows && a.id in outcome.selected && b.id in outcome.selected
                          && a.group == b.group :: a == b
    ensures forall a | a in rows && (a.active || a.enabled) ::
              exists b :: b in rows && b.group == a.group && b.id in outcome.selected
    ensures forall a | a in rows && a.active :: a.id in outcome.selected
    ensures forall a | a in rows && a.id in outcome.selected :: a.active || a.enabled
    ensures forall i | i in outcome.enabled ::
              outcome.enabled[i] <==> exists a :: a in rows && a.id in outcome.selected && a.integration == i
  {
    forall a | a in rows && a.id in outcome.selected ensures Wins(rows, a) {
      var r :| Wins(rows, r) && r.id == a.id;
      RowById(rows, a, r);
    }
    forall a, b | a in rows && b in rows && a.id in outcome.selected && b.id in outcome.selected && a.group == b.group
      ensures a == b
    {
      OneWinner(rows, a, b);
    }
    forall a | a in rows && (a.active || a.enabled)
      ensures exists b :: b in rows && b.group == a.group && b.id in outcome.selected
    {
      var r := a;
      if !Eligible(rows, a) {
        r :| r in rows && r.group == a.group && r.active;
      }
      var winner := SomeoneWins(rows, r);
      assert winner.id in outcome.selected;
    }
    forall a | a in rows && a.active ensures a.id in outcome.selected {
      var winner := SomeoneWins(rows, a);
      assert GroupHasActive(rows, a.group);
      assert winner == a;
    }
  }

  // The moment a row was last touched, for the choice among rows that were only enabled.
  function Moment(r: OldRow): Option<nat> {
    match r.activatedAt
    case Some(_) => r.activatedAt
    case None => if r.updatedAt.Some? then r.updatedAt else r.createdAt
  }

  // Where no row of the group was active, the one selected was enabled, no enabled one was touched
  // later, and among those touched at the same moment none has a greater id.
  lemma NewestIsSelected(rows: seq<OldRow>, outcome: Outcome, r: OldRow, q: OldRow)
    requires Legal0017(rows) && Migrated(rows, outcome) && r in rows && r.id in outcome.selected
    requires q in rows && q.group == r.group && q.enabled && forall p | p in rows && p.group == r.group :: !p.active
    ensures r.enabled
    ensures Moment(q).Some? ==> Moment(r).Some? && Moment(q).value <= Moment(r).value
    ensures Moment(q) == Moment(r) ==> q.id <= r.id
    ensures q.activatedAt.Some? && r.activatedAt.Some? ==> q.activatedAt.value <= r.activatedAt.value
  {
    var winner :| Wins(rows, winner) && winner.id == r.id;
    RowById(rows, r, winner);
    assert Eligible(rows, q);
  }

  // ---- what the service takes over ------------------------------------------------------------

  // Which slot of the new release each row of a connector fills: rows are unique by stream and
  // source, and share a stream exactly when they share a group.
  ghost predicate Fills(rows: seq<OldRow>, connector: string, slotOf: OldRow -> StreamSelection.Slot) {
    forall a, b | a in rows && b in rows && a.group.connector == connector && b.group.connector == connector ::
      && (slotOf(a) == slotOf(b) ==> a == b)
      && (slotOf(a).stream == slotOf(b).stream <==> a.group == b.group)
  }

  // The connector's rows after the migration, as the service reads them.
  ghost predicate Reads(table: StreamSelection.Rows, rows: seq<OldRow>, outcome: Outcome, connector: string,
                        slotOf: OldRow -> StreamSelection.Slot)
  {
    && (forall r | r in rows && r.group.connector == connector ::
          && slotOf(r) in table
          && table[slotOf(r)]
             == StreamSelection.Activation(r.integration, r.id in outcome.selected, r.id in outcome.selected))
    && forall slot | slot in table :: exists r :: r in rows && r.group.connector == connector && slotOf(r) == slot
  }

  // An integration belongs to one connector.
  ghost predicate OneConnectorEach(rows: seq<OldRow>) {
    forall a, b | a in rows && b in rows && a.integration == b.integration :: a.group.connector == b.group.connector
  }

  // An integration of the connector that has rows, with the flag the migration gave it.
  ghost predicate Takes(rows: seq<OldRow>, outcome: Outcome, connector: string, i: IntegrationId,
                        integration: StreamSelection.Integration)
  {
    && (exists r :: r in rows && r.integration == i && r.group.connector == connector)
    && i in outcome.enabled && integration.enabled == outcome.enabled[i]
  }

  // The table is what the migration of a legal older one left to the connector.
  ghost predicate HandedOver(table: StreamSelection.Rows, rows: seq<OldRow>, outcome: Outcome, connector: string,
                             slotOf: OldRow -> StreamSelection.Slot)
  {
    && Legal0017(rows) && OneConnectorEach(rows) && Migrated(rows, outcome)
    && Fills(rows, connector, slotOf) && Reads(table, rows, outcome, connector, slotOf)
  }

  // The service starts from a legal table, in which every integration with rows is enabled exactly
  // when it owns an active one.
  lemma MigrationHandsOver(rows: seq<OldRow>, outcome: Outcome, connector: string,
                           slotOf: OldRow -> StreamSelection.Slot, table: StreamSelection.Rows,
                           integrations: StreamSelection.Integrations)
    requires HandedOver(table, rows, outcome, connector, slotOf)
    requires forall i | i in integrations :: Takes(rows, outcome, connector, i, integrations[i])
    ensures StreamSelection.Legal(table)
    ensures StreamSelection.Derived(StreamSelection.State(integrations, table))
  {
    LegalTable(rows, outcome, connector, slotOf, table);
    forall i | i in integrations ensures integrations[i].enabled == StreamSelection.Owns(table, i) {
      EnabledMeansOwns(rows, outcome, connector, slotOf, table, i, integrations[i]);
    }
  }

  lemma ActiveMeansWins(rows: seq<OldRow>, outcome: Outcome, connector: string, slotOf: OldRow -> StreamSelection.Slot,
                        table: StreamSelection.Rows, slot: StreamSelection.Slot) returns (a: OldRow)
    requires HandedOver(table, rows, outcome, connector, slotOf) && slot in table && table[slot].active
    ensures a in rows && a.group.connector == connector && slotOf(a) == slot && Wins(rows, a)
    ensures table[slot].integration == a.integration
  {
    a :| a in rows && a.group.connector == connector && slotOf(a) == slot;
    var r :| Wins(rows, r) && r.id == a.id;
    RowById(rows, a, r);
  }

  lemma LegalTable(rows: seq<OldRow>, outcome: Outcome, connector: string, slotOf: OldRow -> StreamSelection.Slot,
                   table: StreamSelection.Rows)
    requires HandedOver(table, rows, outcome, connector, slotOf)
    ensures StreamSelection.Legal(table)
  {
    forall s, t | s in table && t in table && table[s].active && table[t].active && s.stream == t.stream
      ensures s == t
    {
      var a := ActiveMeansWins(rows, outcome, connector, slotOf, table, s);
      var b := ActiveMeansWins(rows, outcome, connector, slotOf, table, t);
      OneWinner(rows, a, b);
    }
    forall s | s in table ensures table[s].enabled == table[s].active {
      var a :| a in rows && a.group.connector == connector && slotOf(a) == s;
    }
  }

  lemma EnabledMeansOwns(rows: seq<OldRow>, outcome: Outcome, connector: string, slotOf: OldRow -> StreamSelection.Slot,
                         table: StreamSelection.Rows, i: IntegrationId, integration: StreamSelection.Integration)
    requires HandedOver(table, rows, outcome, connector, slotOf) && Takes(rows, outcome, connector, i, integration)
    ensures integration.enabled == StreamSelection.Owns(table, i)
  {
    if outcome.enabled[i] {
      var a :| Wins(rows, a) && a.integration == i;
      assert a.id in outcome.selected && a in rows;
      assert table[slotOf(a)].active;
    }
    if StreamSelection.Owns(table, i) {
      var slot :| slot in table && table[slot].integration == i && table[slot].active;
      var a := ActiveMeansWins(rows, outcome, connector, slotOf, table, slot);
    }
  }

  // The order in which the table lists its rows does not matter.
  lemma MigrationIgnoresRowOrder(rows: seq<OldRow>, other: seq<OldRow>, a: Outcome, b: Outcome)
    requires forall r :: r in rows <==> r in other
    requires Migrated(rows, a) && Migrated(other, b)
    ensures a == b
  {
    forall r ensures Wins(rows, r) <==> Wins(other, r) {
      SameRowsSameWinner(rows, other, r);
      SameRowsSameWinner(other, rows, r);
    }
    SameSelections(rows, other, a, b);
    SameFlags(rows, other, a, b);
  }

  lemma SameSelections(rows: seq<OldRow>, other: seq<OldRow>, a: Outcome, b: Outcome)
    requires (forall r :: Wins(rows, r) <==> Wins(other, r)) && Migrated(rows, a) && Migrated(other, b)
    ensures a.selected == b.selected
  {
    forall id ensures id in a.selected <==> id in b.selected {
      SameSelected(rows, other, a, b, id);
    }
  }

  lemma SameFlags(rows: seq<OldRow>, other: seq<OldRow>, a: Outcome, b: Outcome)
    requires (forall r :: r in rows <==> r in other) && (forall r :: Wins(rows, r) <==> Wins(other, r))
    requires Migrated(rows, a) && Migrated(other, b)
    ensures a.enabled == b.enabled
  {
    forall i
      ensures i in a.enabled <==> i in b.enabled
      ensures i in a.enabled ==> a.enabled[i] == b.enabled[i]
    {
      SameIntegration(rows, other, a, b, i);
    }
  }

  lemma SameSelected(rows: seq<OldRow>, other: seq<OldRow>, a: Outcome, b: Outcome, id: RowId)
    requires forall r :: Wins(rows, r) <==> Wins(other, r)
    requires Migrated(rows, a) && Migrated(other, b)
    ensures id in a.selected <==> id in b.selected
  {
    if r :| Wins(rows, r) && r.id == id {
      assert Wins(other, r);
    }
    if r :| Wins(other, r) && r.id == id {
      assert Wins(rows, r);
    }
  }

  lemma SameIntegration(rows: seq<OldRow>, other: seq<OldRow>, a: Outcome, b: Outcome, i: IntegrationId)
    requires (forall r :: r in rows <==> r in other) && (forall r :: Wins(rows, r) <==> Wins(other, r))
    requires Migrated(rows, a) && Migrated(other, b)
    ensures i in a.enabled <==> i in b.enabled
    ensures i in a.enabled ==> a.enabled[i] == b.enabled[i]
  {
    if r :| r in rows && r.integration == i {
      assert r in other;
    }
    if r :| Wins(rows, r) && r.integration == i {
      assert Wins(other, r);
    }
    if r :| r in other && r.integration == i {
      assert r in rows;
    }
  }

  lemma SameRowsSameWinner(rows: seq<OldRow>, other: seq<OldRow>, r: OldRow)
    requires forall q :: q in rows <==> q in other
    ensures Wins(rows, r) ==> Wins(other, r)
  {
    forall g ensures GroupHasActive(rows, g) <==> GroupHasActive(other, g) {
    }
  }
}
