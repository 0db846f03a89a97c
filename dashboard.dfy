/** The incident state held by `IncidentDashboard` (src/components/Dashboard.tsx)
    and the handlers that reconcile it with the server's answers. Every server
    call is replaced by its settled outcome, passed in as a parameter; each
    handler runs to completion, and the effect that recomputes the filtered
    view runs at its end, as React runs it after the render that commits the
    change. */
module Dashboard {
  import opened Types
  import opened Seqs
  import opened Projection

  /** `prev.filter((incident) => incident._id !== id)` (Dashboard.tsx:112). */
  function WithoutId(incidents: seq<Incident>, id: string): seq<Incident>
  {
    Filter(incidents, IdIsNot(id))
  }

  /** Removing an id drops every record with that id, keeps every other record
      (each occurrence of it) and keeps their order. */
  lemma WithoutIdSpec(incidents: seq<Incident>, id: string)
    ensures forall i :: 0 <= i < |WithoutId(incidents, id)| ==> WithoutId(incidents, id)[i].id != id
    ensures forall x: Incident :: x.id != id ==> multiset(WithoutId(incidents, id))[x] == multiset(incidents)[x]
    ensures Subsequence(WithoutId(incidents, id), incidents)
  {
    FilterMultiset(incidents, IdIsNot(id));
    FilterSubsequence(incidents, IdIsNot(id));
  }

  /** Removing an id that no record carries changes nothing. */
  lemma WithoutAbsentId(incidents: seq<Incident>, id: string)
    requires forall i :: 0 <= i < |incidents| ==> incidents[i].id != id
    ensures WithoutId(incidents, id) == incidents
  {
    FilterKeepsAll(incidents, IdIsNot(id));
  }

  /** A created record whose server-assigned id is new appears exactly once,
      at the end, after the records that were there before. */
  lemma AppendedOnce(incidents: seq<Incident>, x: Incident)
    requires forall i :: 0 <= i < |incidents| ==> incidents[i].id != x.id
    ensures multiset(incidents + [x])[x] == 1
    ensures (incidents + [x])[..|incidents|] == incidents && (incidents + [x])[|incidents|] == x
  {
    assert x !in incidents;
    assert multiset(incidents + [x]) == multiset(incidents) + multiset{x};
  }

  /** `activeIncident === id ? null : id` (Dashboard.tsx:129). */
  function Toggled(active: Option<string>, id: string): (r: Option<string>)
    ensures r == None <==> active == Some(id)
  {
    if active == Some(id) then None else Some(id)
  }

  /** Toggling the same id twice gives back the prior state exactly when that
      state was collapsed or had this id expanded; with another id expanded it
      ends collapsed. */
  lemma ToggleTwice(active: Option<string>, id: string)
    ensures Toggled(Toggled(active, id), id) == active <==> active == None || active == Some(id)
    ensures active != None && active != Some(id) ==> Toggled(Toggled(active, id), id) == None
  {
  }

  /** Toggling an id that is not expanded expands it, and only it. */
  lemma ToggleOther(active: Option<string>, id: string)
    requires active != Some(id)
    ensures Toggled(active, id) == Some(id)
  {
  }

  /** `sortOrder === "newest" ? "oldest" : "newest"` (Dashboard.tsx:188). */
  function Flipped(o: SortOrder): (r: SortOrder)
    ensures r != o
  {
    if o == Newest then Oldest else Newest
  }

  /** The sort toggle is an involution. */
  lemma FlipTwice(o: SortOrder)
    ensures Flipped(Flipped(o)) == o
  {
  }

  const FetchFallback := "Failed to fetch incidents"

  class IncidentDashboard {
    var incidents: seq<Incident>
    var filteredIncidents: seq<Incident>
    var severityFilter: SeverityFilter
    var sortOrder: SortOrder
    var activeIncident: Option<string>
    var loading: bool
    var error: Option<string>
    var deletingId: Option<string>

    /** Between handlers the view is the projection of the canonical list and
        no deletion is in flight. */
    ghost predicate Valid()
      reads this
    {
      && filteredIncidents == Project(incidents, severityFilter, sortOrder)
      && deletingId == None
    }

    /** The initial state (Dashboard.tsx:30-40). */
    constructor ()
      ensures Valid()
      ensures incidents == [] && filteredIncidents == []
      ensures severityFilter == All && sortOrder == Newest
      ensures activeIncident == None && loading && error == None && deletingId == None
    {
      incidents := [];
      filteredIncidents := [];
      severityFilter := All;
      sortOrder := Newest;
      activeIncident := None;
      loading := true;
      error := None;
      deletingId := None;
    }

    /** The effect (Dashboard.tsx:46-67). It reads the canonical list but never
        writes it: the sort runs on a copy. */
    method RefreshProjection()
      modifies this`filteredIncidents
      ensures filteredIncidents == Project(incidents, severityFilter, sortOrder)
    {
      if |incidents| == 0 {
        filteredIncidents := [];
      } else {
        var filtered := incidents;
        if severityFilter != All {
          filtered := Filter(filtered, HasSeverity(severityFilter.level));
        }
        filteredIncidents := Sort(sortOrder, filtered);
      }
    }

    /** `fetchIncidents` (Dashboard.tsx:69-86), run on mount and by the retry button. */
    method FetchIncidents(response: Outcome<seq<Incident>>)
      requires Valid()
      modifies this
      ensures Valid()
      ensures !loading
      ensures response.Resolved? ==> incidents == response.value && error == None
      ensures response.Rejected? ==>
                incidents == old(incidents)
                && error == Some(ErrorMessage(response.reason, FetchFallback))
      ensures severityFilter == old(severityFilter) && sortOrder == old(sortOrder)
      ensures activeIncident == old(activeIncident)
    {
      loading := true;
      error := None;
      match response {
        case Resolved(data) =>
          incidents := data;
        case Rejected(reason) =>
          error := Some(ErrorMessage(reason, FetchFallback));
      }
      loading := false;
      RefreshProjection();
    }

    /** `handleAddIncident` (Dashboard.tsx:88-105): the record the server returns
        is appended; a failure leaves the list alone. */
    method HandleAddIncident(response: Outcome<Incident>)
      requires Valid()
      modifies this
      ensures Valid()
      ensures response.Resolved? ==> incidents == old(incidents) + [response.value]
      ensures response.Rejected? ==> incidents == old(incidents)
      ensures severityFilter == old(severityFilter) && sortOrder == old(sortOrder)
      ensures activeIncident == old(activeIncident)
      ensures loading == old(loading) && error == old(error)
    {
      if response.Resolved? {
        incidents := incidents + [response.value];
      }
      RefreshProjection();
    }

    /** `handleDeleteIncident` (Dashboard.tsx:107-126). */
    method HandleDeleteIncident(id: string, response: Outcome<()>)
      requires Valid()
      modifies this
      ensures Valid()
      ensures response.Resolved? ==> incidents == WithoutId(old(incidents), id)
      ensures response.Rejected? ==> incidents == old(incidents)
      ensures activeIncident ==
                if response.Resolved? && old(activeIncident) == Some(id) then None
                else old(activeIncident)
      ensures deletingId == None
      ensures severityFilter == old(severityFilter) && sortOrder == old(sortOrder)
      ensures loading == old(loading) && error == old(error)
    {
      deletingId := Some(id);
      if response.Resolved? {
        incidents := WithoutId(incidents, id);
        if activeIncident == Some(id) {
          activeIncident := None;
        }
      }
      deletingId := None;
      RefreshProjection();
    }

    /** `toggleIncidentDetails` (Dashboard.tsx:128-130). */
    method ToggleIncidentDetails(id: string)
      requires Valid()
      modifies this`activeIncident
      ensures Valid()
      ensures activeIncident == Toggled(old(activeIncident), id)
    {
      activeIncident := Toggled(activeIncident, id);
    }

    /** The sort button (Dashboard.tsx:187-188). */
    method ToggleSortOrder()
      requires Valid()
      modifies this
      ensures Valid()
      ensures sortOrder == Flipped(old(sortOrder))
      ensures incidents == old(incidents) && severityFilter == old(severityFilter)
      ensures activeIncident == old(activeIncident)
      ensures loading == old(loading) && error == old(error)
    {
      sortOrder := Flipped(sortOrder);
      RefreshProjection();
    }

    /** A severity button (Dashboard.tsx:166-168). */
    method SetSeverityFilter(f: SeverityFilter)
      requires Valid()
      modifies this
      ensures Valid()
      ensures severityFilter == f
      ensures incidents == old(incidents) && sortOrder == old(sortOrder)
      ensures activeIncident == old(activeIncident)
      ensures loading == old(loading) && error == old(error)
    {
      severityFilter := f;
      RefreshProjection();
    }
  }
}
