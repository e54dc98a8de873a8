/** The admin submissions list (components/admin/submissions-list.tsx): the
    status filter and the local state change made by `updateStatus`. */
module Submissions {
  import opened Wrappers
  import opened Model
  import Seqs

  /** The filter selector: "all" or one status. */
  datatype StatusFilter = All | Only(status: Status)

  function HasStatus(status: Status): Observation -> bool {
    (o: Observation) => o.status == status
  }

  /** `filteredObservations`. */
  function FilteredObservations(observations: seq<Observation>, filter: StatusFilter): (r: seq<Observation>)
    ensures filter.All? ==> r == observations
    ensures filter.Only? ==> forall o :: o in r <==> o in observations && o.status == filter.status
    ensures filter.Only? ==>
              forall o :: multiset(r)[o] == if o.status == filter.status then multiset(observations)[o] else 0
    ensures Seqs.IsSubsequence(r, observations)
  {
    match filter
    case All =>
      Seqs.FilterAll(observations, (o: Observation) => true);
      Seqs.FilterCharacterization(observations, (o: Observation) => true);
      observations
    case Only(status) =>
      Seqs.FilterCharacterization(observations, HasStatus(status));
      Seqs.Filter(observations, HasStatus(status))
  }

  /** The component state `updateStatus` reads and writes. */
  datatype AdminState = AdminState(
    observations: seq<Observation>,
    selected: Option<Observation>,
    updating: map<string, bool>)

  /** `prev.map((obs) => (obs.id === id ? { ...obs, status } : obs))`. */
  function SetStatus(observations: seq<Observation>, id: string, status: Status): (r: seq<Observation>)
    ensures |r| == |observations|
    ensures forall i :: 0 <= i < |r| ==>
              r[i].(status := observations[i].status) == observations[i]
              && (observations[i].id == id ==> r[i].status == status)
              && (observations[i].id != id ==> r[i] == observations[i])
  {
    seq(|observations|, i requires 0 <= i < |observations| =>
      if observations[i].id == id then observations[i].(status := status) else observations[i])
  }

  /** The first `setUpdatingStatus`, before the call. */
  function BeginUpdate(state: AdminState, id: string): (r: AdminState)
    ensures r.updating.Keys == state.updating.Keys + {id} && r.updating[id]
    ensures forall k :: k in state.updating && k != id ==> r.updating[k] == state.updating[k]
    ensures r.observations == state.observations && r.selected == state.selected
  {
    state.(updating := state.updating[id := true])
  }

  /** What happens once `await updateObservationStatus` settles. The list and
      the flags are updated from their current values (`prev => …`), but the
      dialog test reads `captured`, the selection the handler closed over when
      it started; other handlers may have run in between. */
  function CompleteUpdate(state: AdminState, id: string, status: Status, callSucceeded: bool,
                          captured: Option<Observation>): (r: AdminState)
    ensures r.updating.Keys == state.updating.Keys + {id} && !r.updating[id]
    ensures forall k :: k in state.updating && k != id ==> r.updating[k] == state.updating[k]
    ensures callSucceeded ==> r.observations == SetStatus(state.observations, id, status)
    ensures !callSucceeded ==> r.observations == state.observations && r.selected == state.selected
    ensures r.selected.None? <==>
              state.selected.None? || (callSucceeded && captured.Some? && captured.value.id == id)
    ensures r.selected.Some? ==> r.selected == state.selected
  {
    var observations := if callSucceeded then SetStatus(state.observations, id, status) else state.observations;
    var selected := if callSucceeded && captured.Some? && captured.value.id == id then None else state.selected;
    AdminState(observations, selected, state.updating[id := false])
  }

  /** The handler's closure is stale: if the dialog for the updated
      observation was open when the update started, a successful update closes
      whatever dialog is open when the call returns, even one opened for
      another observation in the meantime. */
  lemma StaleSelectionClosesLaterDialog(state: AdminState, id: string, status: Status, other: Observation)
    requires state.selected.Some? && state.selected.value.id == id && other.id != id
    ensures var during := BeginUpdate(state, id).(selected := Some(other));
            CompleteUpdate(during, id, status, true, state.selected).selected.None?
  {
  }

  /** Two overlapping updates of the same observation share one flag: the
      first to finish lowers it while the second call is still pending. */
  lemma OverlappingUpdatesShareFlag(state: AdminState, id: string, status: Status, ok: bool)
    ensures var twice := BeginUpdate(BeginUpdate(state, id), id);
            !CompleteUpdate(twice, id, status, ok, state.selected).updating[id]
  {
  }

  /** `updateStatus(id, status)` when no other handler runs during the call:
      `BeginUpdate`, then `CompleteUpdate` with the selection at the start.
      The database call is a parameter: whether it returned or threw. The
      delayed reload is not modelled. */
  function UpdateStatus(state: AdminState, id: string, status: Status, callSucceeded: bool): (r: AdminState)
    ensures r.updating.Keys == state.updating.Keys + {id} && !r.updating[id]
    ensures forall k :: k in state.updating && k != id ==> r.updating[k] == state.updating[k]
    ensures |r.observations| == |state.observations|
    ensures callSucceeded ==>
              forall i :: 0 <= i < |r.observations| ==>
                r.observations[i].(status := state.observations[i].status) == state.observations[i]
                && (state.observations[i].id == id ==> r.observations[i].status == status)
                && (state.observations[i].id != id ==> r.observations[i] == state.observations[i])
    ensures !callSucceeded ==> r.observations == state.observations && r.selected == state.selected
    ensures r.selected.None? <==> state.selected.None? || (callSucceeded && state.selected.value.id == id)
    ensures r.selected.Some? ==> r.selected == state.selected
  {
    CompleteUpdate(BeginUpdate(state, id), id, status, callSucceeded, state.selected)
  }

  /** After a successful update to `status`, every observation with that id is
      listed under the filter for `status`, and none is listed under another. */
  lemma {:induction false} UpdatedObservationMovesFilter(state: AdminState, id: string, status: Status, other: Status)
    requires other != status
    ensures var shown := UpdateStatus(state, id, status, true).observations;
            (forall o :: o in state.observations && o.id == id ==> o.(status := status) in FilteredObservations(shown, Only(status)))
            && (forall o :: o in FilteredObservations(shown, Only(other)) ==> o.id != id)
  {
    var shown := UpdateStatus(state, id, status, true).observations;
    forall o | o in state.observations && o.id == id
      ensures o.(status := status) in shown
    {
      var i :| 0 <= i < |state.observations| && state.observations[i] == o;
      assert shown[i] == o.(status := status);
    }
  }

  /** Applying the same successful update twice changes nothing more. */
  lemma UpdateIsIdempotent(state: AdminState, id: string, status: Status)
    ensures var once := UpdateStatus(state, id, status, true);
            UpdateStatus(once, id, status, true) == once
  {
    var once := UpdateStatus(state, id, status, true);
    var twice := UpdateStatus(once, id, status, true);
    assert twice.observations == once.observations;
  }
}
