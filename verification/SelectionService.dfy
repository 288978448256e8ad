// IntegrationService of backend/app/application/services/integrations.py as it runs.  Every write of an
// activation row goes through Insert or Update, whose preconditions are the table's constraints:
// that each call verifies means no write in between ever breaks them.
module SelectionServices {
  import opened StreamSelection

  class IntegrationService {
    var integrations: Integrations
    var rows: Rows

    constructor ()
      ensures State() == StreamSelection.State(map[], map[])
    {
      integrations, rows := map[], map[];
    }

    ghost function State(): State
      reads this
    {
      StreamSelection.State(integrations, rows)
    }

    // A new activation row, flushed.
    method Insert(slot: Slot, row: Activation)
      requires slot !in rows && Legal(rows[slot := row])
      modifies this`rows
      ensures Legal(rows) && rows == old(rows)[slot := row]
    {
      rows := rows[slot := row];
    }

    // One bulk or single-row update, flushed.
    method Update(changed: Rows)
      requires changed.Keys == rows.Keys && Legal(changed)
      modifies this`rows
      ensures Legal(rows) && rows == changed
    {
      rows := changed;
    }

    // _set_connection_enabled, as far as the integration itself goes.
    method SetConnectionEnabled(id: IntegrationId, enabled: bool)
      requires id in integrations
      modifies this`integrations
      ensures integrations == old(integrations)[id := old(integrations)[id].(enabled := enabled)]
    {
      integrations := integrations[id := integrations[id].(enabled := enabled)];
    }

    // The rows bootstrap and create add for one integration.
    method InsertMissing(id: IntegrationId, wanted: bool, slots: seq<Slot>)
      requires Legal(rows)
      modifies this`rows
      ensures Legal(rows) && rows == AddSlots(old(rows), id, wanted, slots)
    {
      ghost var start := rows;
      for k := 0 to |slots|
        invariant Legal(rows) && rows == AddSlots(start, id, wanted, slots[..k])
      {
        assert slots[..k + 1][..k] == slots[..k];
        AddSlotKeepsLegal(rows, id, wanted, slots[k]);
        if slots[k] !in rows {
          var selected := wanted && !HasActive(rows, slots[k].stream);
          Insert(slots[k], Activation(id, selected, selected));
        }
      }
      assert slots[..|slots|] == slots;
    }

    // bootstrap_stream_activations: `order` is the order the query lists the integrations in.
    method BootstrapActivations(order: seq<IntegrationId>)
      requires Legal(rows) && Lists(order, integrations)
      modifies this
      ensures Legal(rows) && State() == Bootstrap(old(State()), order)
    {
      ghost var start := State();
      for k := 0 to |order|
        invariant Legal(rows) && integrations == start.integrations
        invariant rows == AddAll(start.integrations, start.rows, order[..k])
      {
        assert order[..k + 1][..k] == order[..k];
        var integration := integrations[order[k]];
        InsertMissing(order[k], integration.enabled, SlotsOf(integration));
      }
      assert order[..|order|] == order;
      SettleAll(order);
    }

    // The second loop of bootstrap: every integration in line with its rows.
    method SettleAll(order: seq<IntegrationId>)
      requires Lists(order, integrations)
      modifies this`integrations
      ensures integrations == Settle(old(integrations), rows)
    {
      ghost var start := integrations;
      for k := 0 to |order|
        invariant integrations.Keys == start.Keys
        invariant forall id | id in integrations ::
          integrations[id] == if id in order[..k] then start[id].(enabled := Owns(rows, id)) else start[id]
      {
        assert order[..k + 1] == order[..k] + [order[k]];
        var selected := Owns(rows, order[k]);
        if integrations[order[k]].enabled != selected {
          SetConnectionEnabled(order[k], selected);
        }
      }
      assert order[..|order|] == order;
    }

    // select_source; false where the source raises.
    method SelectSource(order: seq<IntegrationId>, id: IntegrationId, stream: Stream, confirmed: bool)
      returns (accepted: bool)
      requires Inv(State()) && Lists(order, integrations)
      modifies this
      ensures var ready := Bootstrap(old(State()), order);
              && Inv(State()) && Derived(State())
              && (accepted ==> exists slot :: Selectable(ready, id, stream, slot, confirmed)
                                              && State() == Selected(ready, slot))
              && (!accepted ==> State() == ready && forall slot :: !Selectable(ready, id, stream, slot, confirmed))
    {
      BootstrapSettles(State(), order);
      BootstrapActivations(order);
      ghost var ready := State();
      if id !in integrations || !exists slot | slot in rows :: Serves(rows, id, stream, slot) {
        return false;
      }
      var requested :| requested in rows && Serves(rows, id, stream, requested);
      RequestedIsUnique(ready, id, stream, requested);
      var current := ActiveIn(rows, stream);
      if !confirmed && !(current <= {requested}) {
        return false;
      }
      if !Available(integrations[id].kind) {
        return false;
      }
      ApplySelection(id, requested);
      SelectKeeps(ready, id, stream, requested, confirmed);
      accepted := true;
    }

    // The writes of select_source: the stream's active row is deselected first, then the requested
    // one is selected, then the two integrations concerned follow.
    method ApplySelection(id: IntegrationId, requested: Slot)
      requires Inv(State()) && Derived(State()) && requested in rows && rows[requested].integration == id
      modifies this
      ensures State() == Selected(old(State()), requested)
    {
      ghost var ready := State();
      var current, previous := ActiveIn(rows, requested.stream), OwnersIn(rows, requested.stream);
      if !(current <= {requested}) {
        DeselectIsLegal(rows, requested.stream);
        Update(Deselected(rows, requested.stream));
      }
      SelectIsLegal(ready.rows, rows, requested);
      Update(rows[requested := rows[requested].(enabled := true, active := true)]);
      FollowSelection(ready, requested, previous);
      OnlyTheseOwnersChange(ready, requested, integrations);
    }

    // The integrations concerned: the chosen one is enabled, the displaced one disabled unless it
    // still owns an active row elsewhere.
    method FollowSelection(ghost ready: State, requested: Slot, previous: set<IntegrationId>)
      requires Inv(ready) && requested in ready.rows && integrations == ready.integrations
      requires rows == SelectRows(ready.rows, requested) && previous == OwnersIn(ready.rows, requested.stream)
      modifies this`integrations
      ensures Followed(ready, requested, integrations)
    {
      PreviousIsOne(ready, requested.stream);
      var id := rows[requested].integration;
      SetConnectionEnabled(id, true);
      if previousId :| previousId in previous && previousId != id {
        if !Owns(rows, previousId) {
          SetConnectionEnabled(previousId, false);
        }
      }
    }

    // create; false where the unique constraint refuses a row.
    method Create(id: IntegrationId, integration: Integration) returns (accepted: bool)
      requires Inv(State()) && id !in integrations
      modifies this
      ensures accepted <==> Creatable(old(State()), id, integration)
      ensures State() == if accepted then Created(old(State()), id, integration) else old(State())
    {
      var slots := SlotsOf(integration);
      if exists slot | slot in slots :: slot in rows {
        return false;
      }
      InsertMissing(id, integration.enabled && Available(integration.kind), slots);
      integrations := integrations[id := integration.(enabled := Owns(rows, id))];
      accepted := true;
    }

    // set_enabled; false where the source raises.
    method SetEnabled(order: seq<IntegrationId>, id: IntegrationId, enabled: bool) returns (accepted: bool)
      requires Inv(State()) && Lists(order, integrations)
      modifies this
      ensures Inv(State())
      ensures var known := id in old(integrations) && |SlotsOf(old(integrations)[id])| == 1;
              && (!known ==> !accepted && State() == old(State()))
              && (known && !enabled ==> accepted && State() == Disabled(old(State()), id))
              && (known && enabled ==>
                    var ready, stream := Bootstrap(old(State()), order), SlotsOf(old(integrations)[id])[0].stream;
                    && (accepted ==> exists slot :: Selectable(ready, id, stream, slot, false)
                                                    && State() == Selected(ready, slot))
                    && (!accepted ==> State() == ready))
    {
      if id !in integrations || |SlotsOf(integrations[id])| != 1 {
        return false;
      }
      if enabled {
        accepted := SelectSource(order, id, SlotsOf(integrations[id])[0].stream, false);
        return;
      }
      DisableKeeps(State(), id);
      Update(Release(rows, id));
      SetConnectionEnabled(id, false);
      accepted := true;
    }
  }

  function Deselected(rows: Rows, stream: Stream): Rows {
    map t | t in rows :: if t.stream == stream && rows[t].active then rows[t].(enabled := false, active := false) else rows[t]
  }

  lemma DeselectIsLegal(rows: Rows, stream: Stream)
    requires Legal(rows)
    ensures Legal(Deselected(rows, stream)) && Deselected(rows, stream).Keys == rows.Keys
  {
  }

  lemma SelectIsLegal(before: Rows, rows: Rows, slot: Slot)
    requires Legal(before) && slot in before
    requires rows == Deselected(before, slot.stream)
             || (rows == before && ActiveIn(rows, slot.stream) <= {slot})
    ensures slot in rows && rows[slot := rows[slot].(enabled := true, active := true)] == SelectRows(before, slot)
    ensures Legal(SelectRows(before, slot))
  {
    forall t | t in before && t.stream == slot.stream && before[t].active
      ensures rows == before ==> t == slot
    {
      assert t in ActiveIn(before, slot.stream);
    }
  }

  lemma PreviousIsOne(s: State, stream: Stream)
    requires Inv(s)
    ensures OwnersIn(s.rows, stream) <= s.integrations.Keys
    ensures forall a, b | a in OwnersIn(s.rows, stream) && b in OwnersIn(s.rows, stream) :: a == b
  {
  }

  lemma RequestedIsUnique(s: State, id: IntegrationId, stream: Stream, slot: Slot)
    requires Inv(s) && id in s.integrations && Serves(s.rows, id, stream, slot)
    ensures forall other | Serves(s.rows, id, stream, other) :: other == slot
  {
  }

  // What the writes make of each integration.
  ghost predicate Followed(ready: State, slot: Slot, after: Integrations) {
    var rows, id := SelectRows(ready.rows, slot), if slot in ready.rows then ready.rows[slot].integration else 0;
    && after.Keys == ready.integrations.Keys
    && forall other | other in after ::
         after[other] == if other == id then ready.integrations[other].(enabled := true)
                         else if other in OwnersIn(ready.rows, slot.stream) && !Owns(rows, other)
                         then ready.integrations[other].(enabled := false) else ready.integrations[other]
  }

  // A selection changes the ownership of the chosen integration and of the one it displaces only.
  lemma OnlyTheseOwnersChange(ready: State, slot: Slot, after: Integrations)
    requires Inv(ready) && Derived(ready) && slot in ready.rows && Followed(ready, slot, after)
    ensures after == Settle(ready.integrations, SelectRows(ready.rows, slot))
  {
    var rows, id := SelectRows(ready.rows, slot), ready.rows[slot].integration;
    assert rows[slot].active && rows[slot].integration == id;
    forall other | other in after && other != id
      ensures other !in OwnersIn(ready.rows, slot.stream) ==> Owns(rows, other) == Owns(ready.rows, other)
      ensures Owns(rows, other) ==> Owns(ready.rows, other)
    {
      OwnershipMoves(ready, slot, other);
    }
  }

  lemma OwnershipMoves(ready: State, slot: Slot, other: IntegrationId)
    requires Inv(ready) && slot in ready.rows && other != ready.rows[slot].integration
    ensures var rows := SelectRows(ready.rows, slot);
            && (Owns(rows, other) ==> Owns(ready.rows, other))
            && (Owns(ready.rows, other) && !Owns(rows, other) ==>
                  exists t | t in ready.rows ::
                    t.stream == slot.stream && ready.rows[t].active && ready.rows[t].integration == other)
  {
    var rows := SelectRows(ready.rows, slot);
    if Owns(ready.rows, other) {
      var t :| t in ready.rows && ready.rows[t].integration == other && ready.rows[t].active;
      if t.stream != slot.stream {
        assert t in rows && rows[t] == ready.rows[t];
      }
    }
  }
}
