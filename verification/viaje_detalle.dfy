/** The trip detail page: it loads the trip once on mount and again after every live update and
    every successful price proposal, and shows the trip with panels and buttons whose presence
    depends on the trip's fields. Requests are appended to a log; their responses arrive as
    separate events, in whatever order the network delivers them. */
module ViajeDetalle {
  import opened Common
  import opened Trips
  import StatusLabels
  import TripMap
  import CheckInTimeline
  import WebSocket

  /** A back-end call the page makes: `getById(id)` or `proposePrice(id, price)`. */
  datatype Request = GetTrip(id: string) | ProposePrice(id: string, price: int)

  /** The page's state: the route's trip id, the socket hook, the loaded trip with the spinner
      flag, whether the component is still mounted, the proposals whose call has not settled
      yet, and the requests sent so far. */
  datatype Session<D> = Session(
    id: string,
    hook: WebSocket.Hook<D>,
    page: Loadable<Option<Trip>>,
    mounted: bool,
    pendingProposals: nat,
    requests: seq<Request>)

  datatype Event<D> =
    | Socket(e: WebSocket.ServerEvent<D>)      // something arrives on the trip socket
    | FetchResolved(r: Fetch<Option<Trip>>)    // one `getById` settles
    | ProposeSubmitted(price: int)             // the modal calls `onPropose(price)`
    | ProposeSettled(ok: bool)                 // the oldest pending `proposePrice` settles
    | Leave                                    // the component unmounts

  /** The page as first mounted: the spinner on, no trip, one `getById` sent. */
  function Initial<D>(id: string): Session<D> {
    Session(id, WebSocket.Initial(id), Loadable(None, true), true, 0, [GetTrip(id)])
  }

  /** The events after which the page calls `loadTrip`: a delivered live update, and a
      proposal whose call went through. */
  predicate Reloads<D>(s: Session<D>, e: Event<D>) {
    || (e.Socket? && WebSocket.Delivers(s.hook, e.e))
    || (e.ProposeSettled? && e.ok && s.pendingProposals > 0)
  }

  /** Whether the trip is on screen, so that its propose modal can be used. */
  predicate ShowsTrip<D>(s: Session<D>) {
    s.mounted && !s.page.loading && s.page.value.Some?
  }

  function Step<D>(s: Session<D>, e: Event<D>): (s': Session<D>)
    ensures s.requests <= s'.requests && s'.id == s.id
    ensures forall r :: r in s'.requests[|s.requests|..] ==> r.id == s.id
    ensures s'.page.loading ==> s.page.loading
  {
    match e
    case Socket(se) =>
      s.(hook := WebSocket.Step(s.hook, WebSocket.Server(se)),
         requests := s.requests + (if WebSocket.Delivers(s.hook, se) then [GetTrip(s.id)] else []))
    case FetchResolved(r) =>
      if s.mounted then s.(page := Settle(s.page, r)) else s
    case ProposeSubmitted(price) =>
      if ShowsTrip(s)
      then s.(pendingProposals := s.pendingProposals + 1, requests := s.requests + [ProposePrice(s.id, price)])
      else s
    case ProposeSettled(ok) =>
      if s.pendingProposals == 0 then s
      else s.(pendingProposals := s.pendingProposals - 1,
              requests := s.requests + (if ok then [GetTrip(s.id)] else []))
    case Leave =>
      s.(mounted := false, hook := WebSocket.Step(s.hook, WebSocket.Unmount))
  }

  function Run<D>(s: Session<D>, events: seq<Event<D>>): Session<D>
    decreases |events|
  {
    if |events| == 0 then s else Step(Run(s, events[..|events| - 1]), events[|events| - 1])
  }

  // ---------------------------------------------------------------------------------------
  // Reloading

  /** The number of `getById` calls in a request log. */
  function CountGets(requests: seq<Request>): nat
    decreases |requests|
  {
    if |requests| == 0 then 0
    else CountGets(requests[..|requests| - 1]) + (if requests[|requests| - 1].GetTrip? then 1 else 0)
  }

  lemma {:induction false} CountGetsAppend(a: seq<Request>, b: seq<Request>)
    ensures CountGets(a + b) == CountGets(a) + CountGets(b)
    decreases |b|
  {
    if |b| == 0 {
      assert a + b == a;
    } else {
      var b' := b[..|b| - 1];
      assert (a + b)[..|a + b| - 1] == a + b';
      CountGetsAppend(a, b');
    }
  }

  /** How many events of a run made the page reload. */
  ghost function ReloadCount<D>(s: Session<D>, events: seq<Event<D>>): nat
    decreases |events|
  {
    if |events| == 0 then 0
    else
      var init := events[..|events| - 1];
      ReloadCount(s, init) + (if Reloads(Run(s, init), events[|events| - 1]) then 1 else 0)
  }

  /** One event: a delivered live update sends exactly one `getById` for the page's trip and
      nothing else; a settled proposal sends one iff it succeeded; every other event sends a
      `getById` never. */
  lemma StepRequests<D>(s: Session<D>, e: Event<D>)
    ensures CountGets(Step(s, e).requests) == CountGets(s.requests) + (if Reloads(s, e) then 1 else 0)
    ensures e.Socket? && WebSocket.Delivers(s.hook, e.e) ==> Step(s, e).requests == s.requests + [GetTrip(s.id)]
    ensures e.Socket? && !WebSocket.Delivers(s.hook, e.e) ==> Step(s, e).requests == s.requests
  {
    var extra := Step(s, e).requests[|s.requests|..];
    assert Step(s, e).requests == s.requests + extra;
    CountGetsAppend(s.requests, extra);
    if Reloads(s, e) {
      assert extra == [GetTrip(s.id)];
      assert CountGets(extra) == CountGets([]) + 1;
    } else if e.ProposeSubmitted? && ShowsTrip(s) {
      assert extra == [ProposePrice(s.id, e.price)];
      assert CountGets(extra) == CountGets([]) + 0;
    } else {
      assert extra == [];
    }
  }

  /** Over a whole visit the page calls `getById` once on mount and once more for every
      delivered update and every successful proposal. */
  lemma {:induction false} GetTripCount<D>(id: string, events: seq<Event<D>>)
    ensures CountGets(Run(Initial<D>(id), events).requests) == 1 + ReloadCount(Initial<D>(id), events)
    decreases |events|
  {
    if |events| == 0 {
      assert CountGets([GetTrip(id)]) == CountGets([]) + 1;
    } else {
      var init := events[..|events| - 1];
      GetTripCount(id, init);
      StepRequests(Run(Initial<D>(id), init), events[|events| - 1]);
    }
  }

  /** Every request the page sends is about the trip of its route. */
  lemma {:induction false} RequestsAreForTheRouteTrip<D>(id: string, events: seq<Event<D>>)
    ensures Run(Initial<D>(id), events).id == id
    ensures forall r :: r in Run(Initial<D>(id), events).requests ==> r.id == id
    decreases |events|
  {
    if |events| > 0 {
      var init := events[..|events| - 1];
      RequestsAreForTheRouteTrip(id, init);
      var s := Run(Initial<D>(id), init);
      var s' := Step(s, events[|events| - 1]);
      forall r | r in s'.requests ensures r.id == id {
        var k :| 0 <= k < |s'.requests| && s'.requests[k] == r;
        if k < |s.requests| {
          assert s.requests[k] == r;
        } else {
          assert s'.requests[|s.requests|..][k - |s.requests|] == r;
        }
      }
    }
  }

  // ---------------------------------------------------------------------------------------
  // The loaded trip

  /** A settled `getById` while mounted stops the spinner; a success shows what it returned
      and a failure keeps the trip shown before. After unmounting nothing reaches the page. */
  lemma FetchSettles<D>(s: Session<D>, r: Fetch<Option<Trip>>)
    ensures s.mounted ==> !Step(s, FetchResolved(r)).page.loading
    ensures s.mounted && r.Fetched? ==> Step(s, FetchResolved(r)).page.value == r.value
    ensures r.FetchFailed? || !s.mounted ==> Step(s, FetchResolved(r)).page.value == s.page.value
  {
  }

  /** The page shows the trip of the last successful `getById` to settle while mounted; since
      responses are applied in the order they settle, that need not be the latest request. */
  lemma {:induction false} LastFetchWins<D>(s: Session<D>, events: seq<Event<D>>, i: nat)
    requires i < |events| && events[i].FetchResolved? && events[i].r.Fetched?
    requires Run(s, events[..i]).mounted
    requires forall j :: i < j < |events| ==> !(events[j].FetchResolved? && events[j].r.Fetched?)
    ensures Run(s, events).page.value == events[i].r.value
    decreases |events|
  {
    if |events| - 1 == i {
      assert events[..i] == events[..|events| - 1];
    } else {
      var init := events[..|events| - 1];
      assert init[..i] == events[..i];
      LastFetchWins(s, init, i);
    }
  }

  /** Of two responses that settle one after the other, the second is shown, whatever request
      each answers: the page has no guard against stale responses, so when the second to settle
      answers the earlier `getById` it overwrites the newer data. */
  lemma LaterSettlementWins<D>(s: Session<D>, first: Trip, second: Trip)
    requires s.mounted
    ensures Run(s, [FetchResolved(Fetched(Some(first))), FetchResolved(Fetched(Some(second)))]).page.value
            == Some(second)
  {
    var es: seq<Event<D>> := [FetchResolved(Fetched(Some(first))), FetchResolved(Fetched(Some(second)))];
    assert es[..1][..0] == [];
    assert Run(s, es[..1]) == Step(s, es[0]);
  }

  /** Once unmounted, the page state and the hook no longer change, but a proposal that settles
      afterwards still sends its `getById`. */
  lemma {:induction false} LeaveFreezesThePage<D>(s: Session<D>, events: seq<Event<D>>)
    requires !s.mounted && s.hook == WebSocket.Step(s.hook, WebSocket.Unmount)
    requires WebSocket.Inv(s.hook) && s.hook.live.None?
    ensures Run(s, events).page == s.page && Run(s, events).hook == s.hook && !Run(s, events).mounted
    decreases |events|
  {
    if |events| > 0 {
      LeaveFreezesThePage(s, events[..|events| - 1]);
    }
  }

  lemma LeaveThenProposalReloads<D>(s: Session<D>)
    requires !s.mounted && s.pendingProposals > 0
    ensures Step(s, ProposeSettled(true)).requests == s.requests + [GetTrip(s.id)]
    ensures Step(s, ProposeSettled(true)).page == s.page
  {
  }

  // ---------------------------------------------------------------------------------------
  // What the page shows

  /** `trip.precios?.precioPropuesto` and `trip.precios?.precioConfirmado` */
  function ProposedPrice(t: Trip): Option<int> {
    if t.precios.Some? then t.precios.value.precioPropuesto else None
  }

  function ConfirmedPrice(t: Trip): Option<int> {
    if t.precios.Some? then t.precios.value.precioConfirmado else None
  }

  function BasePrice(t: Trip): Option<int> {
    if t.precios.Some? then t.precios.value.precioBase else None
  }

  /** What one `{price && (<row/>)}` slot of the price card puts on screen: the labelled row
      for a truthy price, or, for a price of 0, the number 0 that the `&&` evaluates to, which
      React renders as the bare text "0". A missing price renders nothing. */
  datatype PriceRow = BaseRow(amount: int) | ProposedRow(amount: int) | ConfirmedRow(amount: int) | BareZero

  /** The position of a labelled row's slot on the card. */
  function PriceRank(r: PriceRow): nat {
    match r
    case BaseRow(_) => 0
    case ProposedRow(_) => 1
    case ConfirmedRow(_) => 2
    case BareZero => 3
  }

  /** One slot: `row` is the labelled row its price would get. */
  function PriceSlot(price: Option<int>, row: PriceRow): (cells: seq<PriceRow>)
    requires !row.BareZero?
    ensures |cells| <= 1
    ensures forall c :: c in cells ==> c == row || c.BareZero?
    ensures |cells| == 1 <==> price.Some?
    ensures BareZero in cells <==> price == Some(0)
    ensures row in cells <==> NumberTruthy(price)
    ensures price.Some? ==> cells[0] == (if price.value == 0 then BareZero else row)
  {
    match price
    case None => []
    case Some(v) => if v == 0 then [BareZero] else [row]
  }

  /** The price card's three slots, in order: base, proposal, confirmed; `PriceCardLayout`
      gives the position of each cell. */
  function PriceRows(t: Trip): (rows: seq<PriceRow>)
    ensures |rows| <= 3
    ensures (exists r :: r in rows && r.BaseRow?) <==> NumberTruthy(BasePrice(t))
    ensures (exists r :: r in rows && r.ProposedRow?) <==> NumberTruthy(ProposedPrice(t))
    ensures (exists r :: r in rows && r.ConfirmedRow?) <==> NumberTruthy(ConfirmedPrice(t))
    ensures forall r :: r in rows && !r.BareZero? ==> r.amount != 0
    ensures BareZero in rows <==> Some(0) in [BasePrice(t), ProposedPrice(t), ConfirmedPrice(t)]
    ensures forall r :: r in rows && r.BaseRow? ==> BasePrice(t) == Some(r.amount)
    ensures forall r :: r in rows && r.ProposedRow? ==> ProposedPrice(t) == Some(r.amount)
    ensures forall r :: r in rows && r.ConfirmedRow? ==> ConfirmedPrice(t) == Some(r.amount)
    ensures |rows| == (if BasePrice(t).Some? then 1 else 0) + (if ProposedPrice(t).Some? then 1 else 0)
                      + (if ConfirmedPrice(t).Some? then 1 else 0)
  {
    var base := PriceSlot(BasePrice(t), BaseRow(if BasePrice(t).Some? then BasePrice(t).value else 0));
    var proposed := PriceSlot(ProposedPrice(t), ProposedRow(if ProposedPrice(t).Some? then ProposedPrice(t).value else 0));
    var confirmed := PriceSlot(ConfirmedPrice(t), ConfirmedRow(if ConfirmedPrice(t).Some? then ConfirmedPrice(t).value else 0));
    base + proposed + confirmed
  }

  /** The cell a present price puts in its slot: a bare "0" for 0, else its labelled row. */
  function Cell(price: int, row: PriceRow): PriceRow {
    if price == 0 then BareZero else row
  }

  /** The card cell by cell: the base slot first, then the proposal, then the confirmed one,
      each present price taking one cell at the number of present prices before it. Labelled
      rows therefore keep the order base, proposal, confirmed. */
  lemma PriceCardLayout(t: Trip)
    ensures var rows, b, p, c := PriceRows(t), BasePrice(t), ProposedPrice(t), ConfirmedPrice(t);
            && (b.Some? ==> rows[0] == Cell(b.value, BaseRow(b.value)))
            && (p.Some? ==> rows[if b.Some? then 1 else 0] == Cell(p.value, ProposedRow(p.value)))
            && (c.Some? ==> rows[|rows| - 1] == Cell(c.value, ConfirmedRow(c.value)))
    ensures var rows := PriceRows(t);
            forall i, j :: 0 <= i < j < |rows| && !rows[i].BareZero? && !rows[j].BareZero? ==>
              PriceRank(rows[i]) < PriceRank(rows[j])
  {
    var b, p, c := BasePrice(t), ProposedPrice(t), ConfirmedPrice(t);
    var base := PriceSlot(b, BaseRow(if b.Some? then b.value else 0));
    var proposed := PriceSlot(p, ProposedRow(if p.Some? then p.value else 0));
    var confirmed := PriceSlot(c, ConfirmedRow(if c.Some? then c.value else 0));
    var rows := PriceRows(t);
    assert rows == base + proposed + confirmed;
    assert |base| == (if b.Some? then 1 else 0);
    assert |proposed| == (if p.Some? then 1 else 0);
    assert |confirmed| == (if c.Some? then 1 else 0);
    forall i | 0 <= i < |rows| && !rows[i].BareZero?
      ensures PriceRank(rows[i]) == (if i < |base| then 0 else if i < |base| + |proposed| then 1 else 2)
    {
      if i < |base| {
        assert rows[i] == base[i];
      } else if i < |base| + |proposed| {
        assert rows[i] == proposed[i - |base|];
      } else {
        assert rows[i] == confirmed[i - |base| - |proposed|];
      }
    }
  }

  /** The 0, 0, 3 card: two bare zeros in the base and proposal slots, then the confirmed row. */
  lemma TwoZerosThenConfirmed(t: Trip)
    requires BasePrice(t) == Some(0) && ProposedPrice(t) == Some(0) && ConfirmedPrice(t) == Some(3)
    ensures PriceRows(t) == [BareZero, BareZero, ConfirmedRow(3)]
  {
  }

  /** A price of 0 gets no labelled row, but the card shows a bare "0" in its slot. */
  lemma ZeroPriceShowsBareZero(t: Trip)
    requires BasePrice(t) == Some(0)
    ensures PriceRows(t)[0] == BareZero
    ensures forall r :: r in PriceRows(t) ==> !r.BaseRow?
  {
  }

  const ProposeText := "Proponer Precio"
  const ModifyText := "Modificar Propuesta"

  /** The propose button and its text: offered while no price is confirmed and the trip is
      still being requested or quoted. */
  function ProposeButton(t: Trip): (b: Option<string>)
    ensures b.Some? <==> !NumberTruthy(ConfirmedPrice(t)) && t.estado in {"solicitado", "cotizando"}
    ensures b.Some? ==> (b.value == ModifyText <==> NumberTruthy(ProposedPrice(t)))
    ensures b.Some? ==> b.value in {ProposeText, ModifyText}
  {
    if !NumberTruthy(ConfirmedPrice(t)) && t.estado in ["solicitado", "cotizando"]
    then Some(if NumberTruthy(ProposedPrice(t)) then ModifyText else ProposeText)
    else None
  }

  /** The button never sits next to a confirmed price, and it reads "Modificar Propuesta"
      exactly when the card already lists a proposal. */
  lemma ProposeButtonAgreesWithPriceCard(t: Trip)
    ensures ProposeButton(t).Some? ==> forall r :: r in PriceRows(t) ==> !r.ConfirmedRow?
    ensures ProposeButton(t).Some? ==>
              (ProposeButton(t).value == ModifyText <==> exists r :: r in PriceRows(t) && r.ProposedRow?)
  {
  }

  /** The tracking panel's condition: in progress, tracking switched on, or a recorded route. */
  predicate ShowsTracking(t: Trip) {
    t.estado == "en_curso" || t.trackingActivo || (t.rutaCompleta.Some? && |t.rutaCompleta.value| > 0)
  }

  /** `trip.rutaCompleta || []` */
  function Route(t: Trip): (route: seq<RoutePoint>)
    ensures t.rutaCompleta.Some? ==> route == t.rutaCompleta.value
    ensures t.rutaCompleta.None? ==> route == []
  {
    if t.rutaCompleta.Some? then t.rutaCompleta.value else []
  }

  /** `trip.rutaCompleta?.[trip.rutaCompleta.length - 1]`: the newest route point, undefined
      for an absent or empty route. */
  function CurrentLocation(t: Trip): (c: Option<RoutePoint>)
    ensures c.Some? <==> |Route(t)| > 0
    ensures c.Some? ==> c.value == Route(t)[|Route(t)| - 1] && c.value in Route(t)
  {
    if |Route(t)| > 0 then Some(Route(t)[|Route(t)| - 1]) else None
  }

  /** The Historial card: the creation date, and the update date when it is set and differs. */
  datatype HistoryRow = Created(createdAt: Option<string>) | Updated(updatedAt: string)

  predicate ShowsUpdatedAt(t: Trip) {
    Truthy(t.updatedAt) && t.updatedAt != t.createdAt
  }

  function History(t: Trip): (rows: seq<HistoryRow>)
    ensures |rows| >= 1 && rows[0] == Created(t.createdAt)
    ensures |rows| == 2 <==> ShowsUpdatedAt(t)
  {
    [Created(t.createdAt)] + (if ShowsUpdatedAt(t) then [Updated(t.updatedAt.value)] else [])
  }

  /** The update row never repeats the creation date and is never blank. */
  lemma UpdatedRowIsNews(t: Trip)
    ensures |History(t)| <= 2
    ensures |History(t)| == 2 ==> History(t)[1].Updated? && History(t)[1].updatedAt != "" && Some(History(t)[1].updatedAt) != t.createdAt
    ensures t.updatedAt == t.createdAt ==> |History(t)| == 1
  {
  }

  /** The tracking panel: the "En vivo" indicator and the map. */
  datatype Tracking = Tracking(liveIndicator: bool, mapView: TripMap.MapView)

  datatype Details = Details(
    badge: StatusLabels.Badge,
    subLabel: Option<string>,
    tracking: Option<Tracking>,
    timeline: CheckInTimeline.Timeline,
    prices: seq<PriceRow>,
    proposeButton: Option<string>,
    history: seq<HistoryRow>)

  /** The page body for a loaded trip. */
  function DetailsOf(t: Trip, isConnected: bool): Details {
    Details(
      StatusLabels.StatusBadge(t.estado),
      StatusLabels.SubStatusLabel(t.subEstado),
      if ShowsTracking(t)
        then Some(Tracking(isConnected, TripMap.Render(t, CurrentLocation(t), Route(t))))
        else None,
      CheckInTimeline.Render(t.checkIns),
      PriceRows(t),
      ProposeButton(t),
      History(t))
  }

  datatype View = Spinner | NotFound | Shown(details: Details)

  /** The spinner while the first load is pending, "Viaje no encontrado" once it has settled
      without a trip, otherwise the trip. */
  function ViewOf<D>(s: Session<D>): (v: View)
    ensures v.Spinner? <==> s.page.loading
    ensures v.NotFound? <==> !s.page.loading && s.page.value.None?
    ensures v.Shown? ==> s.page.value.Some?
    ensures v.Shown? ==> v.details == DetailsOf(s.page.value.value, s.hook.isConnected)
  {
    if s.page.loading then Spinner
    else if s.page.value.None? then NotFound
    else Shown(DetailsOf(s.page.value.value, s.hook.isConnected))
  }

  /** The tracking panel shows exactly under its condition; the "En vivo" indicator only inside
      it and only while the socket is connected; and a trip with a recorded route always gets a
      drawn map whose current marker is the route's newest point, which is also where the
      traveled line ends. */
  lemma TrackingPanel(t: Trip, isConnected: bool)
    ensures var d := DetailsOf(t, isConnected);
            && (d.tracking.Some? <==> ShowsTracking(t))
            && (d.tracking.Some? ==> (d.tracking.value.liveIndicator <==> isConnected))
    ensures var d := DetailsOf(t, isConnected);
            var route := Route(t);
            |route| > 0 ==>
              && d.tracking.Some?
              && d.tracking.value.mapView.Shown?
              && d.tracking.value.mapView.currentMarker
                 == Some(Point(route[|route| - 1].latitud, route[|route| - 1].longitud))
              && (|route| > 1 ==> d.tracking.value.mapView.traveledLine.Some?
                                  && d.tracking.value.mapView.traveledLine.value[|route| - 1]
                                     == d.tracking.value.mapView.currentMarker.value)
  {
  }

  /** The header badge: a known status with its own label, any other status raw and in gray;
      the sub-status label only for the five known sub-states. */
  lemma HeaderLabels(t: Trip, isConnected: bool)
    ensures var d := DetailsOf(t, isConnected);
            && (t.estado !in StatusLabels.KnownStatuses ==>
                  d.badge == StatusLabels.Badge(StatusLabels.FallbackColor, t.estado))
            && (d.subLabel.Some? <==> t.subEstado.Some? && t.subEstado.value in StatusLabels.KnownSubStatuses)
  {
  }

  /** The first load decides between "not found" and the trip, and later failures never take a
      shown trip away. */
  lemma FailureKeepsTheTripShown<D>(s: Session<D>)
    requires ViewOf(s).Shown?
    ensures ViewOf(Step(s, FetchResolved(FetchFailed))).Shown?
    ensures ViewOf(Step(s, FetchResolved(FetchFailed))).details.badge == ViewOf(s).details.badge
  {
  }
}
