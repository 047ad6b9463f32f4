/** The "Mis Viajes" list: the producer's trips narrowed by a free-text search and a status
    button, with a "Mostrando X de Y viajes" footer. */
module MisViajes {
  import opened Common
  import opened Trips
  import StatusLabels

  /** The search test for one trip and an already lowercased term: the term occurs in the
      lowercased trip number, origin city or destination city; a missing field never matches. */
  predicate MatchesSearch(t: Trip, term: string) {
    OptionIncludes(t.numeroViaje, term) ||
    OptionIncludes(OrigenCiudad(t), term) ||
    OptionIncludes(DestinoCiudad(t), term)
  }

  /** Whether a trip belongs in the list for the current search text and status button; an
      empty search or an empty status is no constraint. */
  predicate Selected(t: Trip, searchTerm: string, statusFilter: string) {
    (searchTerm == "" || MatchesSearch(t, ToLower(searchTerm))) &&
    (statusFilter == "" || t.estado == statusFilter)
  }

  /** `filterTrips`: the search filter, then the status filter, each only when its input is
      non-empty. The result keeps the list's order and holds each trip exactly as often as
      the list does when the trip is selected, and not at all otherwise. */
  function FilterTrips(trips: seq<Trip>, searchTerm: string, statusFilter: string): (r: seq<Trip>)
    ensures IsSubsequence(r, trips)
    ensures forall t :: multiset(r)[t] == (if Selected(t, searchTerm, statusFilter) then multiset(trips)[t] else 0)
    ensures searchTerm == "" && statusFilter == "" ==> r == trips
  {
    var term := ToLower(searchTerm);
    var bySearch := (t: Trip) => MatchesSearch(t, term);
    var byStatus := (t: Trip) => t.estado == statusFilter;
    var afterSearch := if searchTerm != "" then Keep(trips, bySearch) else trips;
    var afterStatus := if statusFilter != "" then Keep(afterSearch, byStatus) else afterSearch;
    KeepMultiset(trips, bySearch);
    KeepMultiset(afterSearch, byStatus);
    SubsequenceReflexive(trips);
    SubsequenceReflexive(afterSearch);
    SubsequenceTransitive(afterStatus, afterSearch, trips);
    afterStatus
  }

  /** Soundness and completeness in terms of membership: a trip is listed iff it is in the
      full list and selected. In particular, with a status set every listed trip has that
      status, and a trip passing both filters is never dropped. */
  lemma FilterMembership(trips: seq<Trip>, searchTerm: string, statusFilter: string, t: Trip)
    ensures t in FilterTrips(trips, searchTerm, statusFilter) <==> t in trips && Selected(t, searchTerm, statusFilter)
    ensures statusFilter != "" && t in FilterTrips(trips, searchTerm, statusFilter) ==> t.estado == statusFilter
  {
    var r := FilterTrips(trips, searchTerm, statusFilter);
    assert t in r <==> multiset(r)[t] > 0;
    assert t in trips <==> multiset(trips)[t] > 0;
  }

  /** The search in plain terms: with a non-empty search, a trip passes iff the lowercased term
      occurs at some position of one of its three lowercased fields that is present. */
  lemma SearchIsSubstring(t: Trip, searchTerm: string)
    requires searchTerm != ""
    ensures var term := ToLower(searchTerm);
            MatchesSearch(t, term) <==>
              (exists f :: f in [t.numeroViaje, OrigenCiudad(t), DestinoCiudad(t)] && f.Some? &&
                 exists i :: OccursAt(ToLower(f.value), term, i))
  {
    var term := ToLower(searchTerm);
    var fs := [t.numeroViaje, OrigenCiudad(t), DestinoCiudad(t)];
    if MatchesSearch(t, term) {
      if OptionIncludes(t.numeroViaje, term) {
        assert fs[0] in fs;
      } else if OptionIncludes(OrigenCiudad(t), term) {
        assert fs[1] in fs;
      } else {
        assert fs[2] in fs;
      }
    }
  }

  /** The footer "Mostrando X de Y viajes": shown only for a non-empty result, with X the
      number of listed trips and Y the number loaded, so X never exceeds Y. */
  function Footer(trips: seq<Trip>, searchTerm: string, statusFilter: string): (f: Option<(nat, nat)>)
    ensures f.Some? <==> |FilterTrips(trips, searchTerm, statusFilter)| > 0
    ensures f.Some? ==> f.value.0 == |FilterTrips(trips, searchTerm, statusFilter)|
    ensures f.Some? ==> f.value.0 <= f.value.1 == |trips|
  {
    var shown := FilterTrips(trips, searchTerm, statusFilter);
    assert multiset(shown) <= multiset(trips);
    if |shown| > 0 then Some((|shown|, |trips|)) else None
  }

  /** The badge `getStatusBadge` draws in a list row: the shared status table and sub-status
      labels. */
  function RowBadge(t: Trip): (b: (StatusLabels.Badge, Option<string>))
    ensures t.estado !in StatusLabels.KnownStatuses ==> b.0 == StatusLabels.Badge(StatusLabels.FallbackColor, t.estado)
    ensures b.1.None? <==> t.subEstado.None? || t.subEstado.value !in StatusLabels.KnownSubStatuses
  {
    (StatusLabels.StatusBadge(t.estado), StatusLabels.SubStatusLabel(t.subEstado))
  }

  /** The list page's data: `trips` as loaded (empty until then, and kept empty when the load
      fails) and the spinner flag. */
  function LoadTrips(page: Loadable<seq<Trip>>, r: Fetch<seq<Trip>>): (page': Loadable<seq<Trip>>)
    ensures !page'.loading
    ensures r.FetchFailed? ==> page'.value == page.value
    ensures r.Fetched? ==> page'.value == r.value
  {
    Settle(page, r)
  }
}
