/** The dashboard: four counters over the producer's trips and the five most recent ones. */
module Dashboard {
  import opened Common
  import opened Trips

  const PendingStatuses: set<string> := {"solicitado", "cotizando", "confirmado"}

  predicate IsEnCurso(t: Trip) { t.estado == "en_curso" }
  predicate IsPendiente(t: Trip) { t.estado in PendingStatuses }
  predicate IsFinalizado(t: Trip) { t.estado == "finalizado" }

  datatype Stats = Stats(total: nat, enCurso: nat, pendientes: nat, finalizados: nat)

  /** The counters as `loadData` computes them: the list's length and the lengths of three
      filtered copies. */
  function ComputeStats(trips: seq<Trip>): (s: Stats)
    ensures s.total == |trips|
    ensures s.enCurso + s.pendientes + s.finalizados <= s.total
  {
    var s := Stats(|trips|, |Keep(trips, IsEnCurso)|, |Keep(trips, IsPendiente)|, |Keep(trips, IsFinalizado)|);
    StatsPartition(trips);
    s
  }

  /** The three buckets are disjoint, so together with the trips in none of them they make up
      the whole list. */
  lemma {:induction false} StatsPartition(trips: seq<Trip>)
    ensures |Keep(trips, IsEnCurso)| + |Keep(trips, IsPendiente)| + |Keep(trips, IsFinalizado)|
            + |Keep(trips, Unbucketed)| == |trips|
    decreases |trips|
  {
    if |trips| > 0 {
      StatsPartition(trips[1..]);
      KeepLengthCons(trips, IsEnCurso);
      KeepLengthCons(trips, IsPendiente);
      KeepLengthCons(trips, IsFinalizado);
      KeepLengthCons(trips, Unbucketed);
      var t := trips[0];
      assert (if IsEnCurso(t) then 1 else 0) + (if IsPendiente(t) then 1 else 0)
           + (if IsFinalizado(t) then 1 else 0) + (if Unbucketed(t) then 1 else 0) == 1;
    }
  }

  /** A trip whose status is counted by none of the three buckets, such as `en_asignacion` or
      any unknown status. */
  predicate Unbucketed(t: Trip) {
    !IsEnCurso(t) && !IsPendiente(t) && !IsFinalizado(t)
  }

  /** Appending one trip raises `total` by one and exactly the bucket of its status; an
      `en_asignacion` trip (or any status outside the three buckets) raises no bucket. */
  lemma StatsAppend(trips: seq<Trip>, t: Trip)
    ensures var before, after := ComputeStats(trips), ComputeStats(trips + [t]);
            && after.total == before.total + 1
            && after.enCurso == before.enCurso + (if t.estado == "en_curso" then 1 else 0)
            && after.pendientes == before.pendientes + (if t.estado in PendingStatuses then 1 else 0)
            && after.finalizados == before.finalizados + (if t.estado == "finalizado" then 1 else 0)
  {
    KeepAppend(trips, [t], IsEnCurso);
    KeepAppend(trips, [t], IsPendiente);
    KeepAppend(trips, [t], IsFinalizado);
  }

  /** `trips.slice(0, 5)`: the first five trips, or all of them when there are fewer, in the
      order the server returned them. */
  function RecentTrips(trips: seq<Trip>): (r: seq<Trip>)
    ensures |r| == Min(5, |trips|)
    ensures r <= trips
  {
    if |trips| <= 5 then trips else trips[..5]
  }

  /** The status pill colour of a recent trip: indigo in progress, green finished, yellow for
      every other status. */
  function BadgeColor(estado: string): (color: string)
    ensures color == "bg-indigo-100 text-indigo-800" <==> estado == "en_curso"
    ensures color == "bg-green-100 text-green-800" <==> estado == "finalizado"
    ensures estado != "en_curso" && estado != "finalizado" ==> color == "bg-yellow-100 text-yellow-800"
  {
    if estado == "en_curso" then "bg-indigo-100 text-indigo-800"
    else if estado == "finalizado" then "bg-green-100 text-green-800"
    else "bg-yellow-100 text-yellow-800"
  }

  datatype DashboardData = DashboardData(stats: Stats, recent: seq<Trip>)

  const Initial := Loadable(DashboardData(Stats(0, 0, 0, 0), []), true)

  /** `loadData`: a successful load replaces both the counters and the recent list; a failed
      one leaves them as they were; the spinner stops either way. */
  function LoadData(page: Loadable<DashboardData>, r: Fetch<seq<Trip>>): (page': Loadable<DashboardData>)
    ensures !page'.loading
    ensures r.FetchFailed? ==> page'.value == page.value
    ensures r.Fetched? ==> page'.value == DashboardData(ComputeStats(r.value), RecentTrips(r.value))
    ensures r.Fetched? ==> page'.value.stats.total == |r.value| && page'.value.recent <= r.value
  {
    match r
    case Fetched(trips) => Settle(page, Fetched(DashboardData(ComputeStats(trips), RecentTrips(trips))))
    case FetchFailed => Settle(page, FetchFailed)
  }
}
