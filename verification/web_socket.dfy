/** The trip socket hook as an event-driven state machine. The transport is abstract: the server
    side is a stream of `connect`, `disconnect` and named-message events, and everything the
    hook sends or does to its socket is appended to a log. Timestamps of updates are the clock
    reading at delivery, a parameter of the message event. */
module WebSocket {
  import opened Common

  /** The `type` of an update: `location`, `check-in` or `status-change`. */
  datatype UpdateKind = LocationUpdate | CheckInUpdate | StatusChange

  /** The object `lastUpdate` holds: the category, the server's payload as received, the time. */
  datatype Update<D> = Update(kind: UpdateKind, data: D, timestamp: int)

  /** What the hook does to the socket: open it (`io(...)`), emit `join-trip` / `leave-trip`
      with a trip id, or close it (`disconnect()`). */
  datatype Outgoing = Open(tripId: string) | JoinTrip(tripId: string) | LeaveTrip(tripId: string) | Close(tripId: string)

  /** The hook's state. `live` is the trip id the current effect subscribed with, if its effect
      opened a socket that its cleanup has not yet closed. */
  datatype Hook<D> = Hook(
    tripId: string,
    mounted: bool,
    live: Option<string>,
    isConnected: bool,
    lastUpdate: Option<Update<D>>,
    log: seq<Outgoing>)

  /** What the server side can do to an open socket. */
  datatype ServerEvent<D> = Connect | Disconnect | Message(name: string, data: D, at: int)

  /** Everything that can happen to the hook: a server event, a re-render with a (possibly) new
      trip id, or the unmount of the component using it. */
  datatype Event<D> = Server(e: ServerEvent<D>) | ChangeTripId(tripId: string) | Unmount

  /** The message name the hook listens to for each update category. */
  function EventName(k: UpdateKind): string {
    match k
    case LocationUpdate => "location-update"
    case CheckInUpdate => "check-in"
    case StatusChange => "trip-status-change"
  }

  /** The `type` field the hook writes for each category. */
  function TypeName(k: UpdateKind): string {
    match k
    case LocationUpdate => "location"
    case CheckInUpdate => "check-in"
    case StatusChange => "status-change"
  }

  /** The category of a message name, if the hook has a listener for it. */
  function KindOf(name: string): (k: Option<UpdateKind>)
    ensures k.Some? ==> EventName(k.value) == name
    ensures k.None? <==> name !in {"location-update", "check-in", "trip-status-change"}
  {
    if name == "location-update" then Some(LocationUpdate)
    else if name == "check-in" then Some(CheckInUpdate)
    else if name == "trip-status-change" then Some(StatusChange)
    else None
  }

  /** The three listeners are the three categories, one each, and the `type` names tell the
      categories apart. */
  lemma NamesAndTypes(k: UpdateKind, k': UpdateKind)
    ensures KindOf(EventName(k)) == Some(k)
    ensures TypeName(k) == TypeName(k') <==> k == k'
  {
  }

  /** The effect body: nothing for a falsy (empty) trip id, otherwise open a socket for it. */
  function Effect<D>(s: Hook<D>): (s': Hook<D>)
    ensures s'.lastUpdate == s.lastUpdate && s'.isConnected == s.isConnected
    ensures s.tripId == "" ==> s' == s
  {
    if s.tripId == "" then s
    else s.(live := Some(s.tripId), log := s.log + [Open(s.tripId)])
  }

  /** The cleanup the effect returned, if it returned one: `leave-trip`, then `disconnect()`.
      Disconnecting a connected socket fires its own `disconnect` listener, so the connected
      flag ends false. `lastUpdate` is not reset. */
  function Cleanup<D>(s: Hook<D>): (s': Hook<D>)
    ensures s'.live.None?
    ensures s.live.Some? ==> !s'.isConnected
    ensures s.live.None? ==> s' == s
    ensures s'.lastUpdate == s.lastUpdate
  {
    match s.live
    case None => s
    case Some(id) => s.(live := None, isConnected := false, log := s.log + [LeaveTrip(id), Close(id)])
  }

  /** The hook as first mounted with `tripId`. */
  function Initial<D>(tripId: string): Hook<D> {
    Effect(Hook(tripId, true, None, false, None, []))
  }

  /** A server event reaches a listener that updates `lastUpdate` exactly when it is a message
      with one of the three names, on the socket the current effect opened. */
  predicate Delivers<D>(s: Hook<D>, e: ServerEvent<D>) {
    s.live.Some? && e.Message? && KindOf(e.name).Some?
  }

  function Step<D>(s: Hook<D>, e: Event<D>): (s': Hook<D>)
    ensures s.log <= s'.log
    ensures e.Server? && Delivers(s, e.e) ==>
              s'.lastUpdate == Some(Update(KindOf(e.e.name).value, e.e.data, e.e.at))
    ensures !(e.Server? && Delivers(s, e.e)) ==> s'.lastUpdate == s.lastUpdate
  {
    match e
    case Server(Connect) =>
      if s.live.Some? then s.(isConnected := true, log := s.log + [JoinTrip(s.live.value)]) else s
    case Server(Disconnect) =>
      if s.live.Some? then s.(isConnected := false) else s
    case Server(Message(name, data, at)) =>
      if Delivers(s, e.e) then s.(lastUpdate := Some(Update(KindOf(name).value, data, at))) else s
    case ChangeTripId(id) =>
      if !s.mounted || id == s.tripId then s else Effect(Cleanup(s).(tripId := id))
    case Unmount =>
      Cleanup(s).(mounted := false)
  }

  /** The hook after a sequence of events. */
  function Run<D>(s: Hook<D>, events: seq<Event<D>>): Hook<D>
    decreases |events|
  {
    if |events| == 0 then s else Step(Run(s, events[..|events| - 1]), events[|events| - 1])
  }

  lemma RunSnoc<D>(s: Hook<D>, events: seq<Event<D>>, e: Event<D>)
    ensures Run(s, events + [e]) == Step(Run(s, events), e)
  {
    assert (events + [e])[..|events|] == events;
  }

  // ---------------------------------------------------------------------------------------
  // The socket protocol the log follows

  /** Where the socket stands after a prefix of the log: none open, one open for a trip, or one
      that has just left its trip and must be closed next. */
  datatype Channel = Closed | Opened(id: string) | Leaving(id: string)

  /** One logged action; `None` once the log has broken the protocol. */
  function Advance(c: Option<Channel>, o: Outgoing): Option<Channel> {
    match (c, o)
    case (Some(Closed), Open(id)) => Some(Opened(id))
    case (Some(Opened(id)), JoinTrip(j)) => if j == id then c else None
    case (Some(Opened(id)), LeaveTrip(j)) => if j == id then Some(Leaving(id)) else None
    case (Some(Leaving(id)), Close(j)) => if j == id then Some(Closed) else None
    case _ => None
  }

  function ChannelAfter(log: seq<Outgoing>): Option<Channel>
    decreases |log|
  {
    if |log| == 0 then Some(Closed) else Advance(ChannelAfter(log[..|log| - 1]), log[|log| - 1])
  }

  lemma ChannelAfterSnoc(log: seq<Outgoing>, o: Outgoing)
    ensures ChannelAfter(log + [o]) == Advance(ChannelAfter(log), o)
  {
    assert (log + [o])[..|log|] == log;
  }

  /** The state the hook keeps consistent: a socket is live exactly while the hook is mounted
      with a truthy trip id, and for that id; only a live socket can be connected; and the log
      is a protocol run that has left exactly that socket open. */
  ghost predicate Inv<D>(s: Hook<D>) {
    && s.live == (if s.mounted && s.tripId != "" then Some(s.tripId) else None)
    && (s.isConnected ==> s.live.Some?)
    && ChannelAfter(s.log) == Some(if s.live.Some? then Opened(s.live.value) else Closed)
  }

  lemma InitialInv<D>(tripId: string)
    ensures Inv(Initial<D>(tripId))
    ensures Initial<D>(tripId).log == (if tripId == "" then [] else [Open(tripId)])
  {
    if tripId != "" {
      ChannelAfterSnoc([], Open(tripId));
    }
  }

  lemma CleanupInv<D>(s: Hook<D>)
    requires Inv(s)
    ensures ChannelAfter(Cleanup(s).log) == Some(Closed)
    ensures Cleanup(s).live.None? && !Cleanup(s).isConnected
  {
    if s.live.Some? {
      var id := s.live.value;
      ChannelAfterSnoc(s.log, LeaveTrip(id));
      assert s.log + [LeaveTrip(id), Close(id)] == (s.log + [LeaveTrip(id)]) + [Close(id)];
      ChannelAfterSnoc(s.log + [LeaveTrip(id)], Close(id));
    }
  }

  lemma EffectInv<D>(s: Hook<D>)
    requires s.mounted && s.live.None? && !s.isConnected && ChannelAfter(s.log) == Some(Closed)
    ensures Inv(Effect(s))
  {
    if s.tripId != "" {
      ChannelAfterSnoc(s.log, Open(s.tripId));
    }
  }

  /** Every event keeps the invariant. */
  lemma StepInv<D>(s: Hook<D>, e: Event<D>)
    requires Inv(s)
    ensures Inv(Step(s, e))
  {
    match e
    case Server(Connect) =>
      if s.live.Some? {
        ChannelAfterSnoc(s.log, JoinTrip(s.live.value));
      }
    case Server(Disconnect) =>
    case Server(Message(_, _, _)) =>
    case ChangeTripId(id) =>
      if s.mounted && id != s.tripId {
        CleanupInv(s);
        EffectInv(Cleanup(s).(tripId := id));
      }
    case Unmount =>
      CleanupInv(s);
  }

  /** Every reachable hook state satisfies the invariant. */
  lemma {:induction false} RunInv<D>(tripId: string, events: seq<Event<D>>)
    ensures Inv(Run(Initial<D>(tripId), events))
    decreases |events|
  {
    if |events| == 0 {
      InitialInv<D>(tripId);
    } else {
      RunInv(tripId, events[..|events| - 1]);
      StepInv(Run(Initial<D>(tripId), events[..|events| - 1]), events[|events| - 1]);
    }
  }

  // ---------------------------------------------------------------------------------------
  // Properties of the hook

  /** With a falsy trip id that never changes to a truthy one, the hook opens nothing, sends
      nothing, is never connected and never records an update. */
  lemma {:induction false} FalsyTripIdIsSilent<D>(events: seq<Event<D>>)
    requires forall i :: 0 <= i < |events| && events[i].ChangeTripId? ==> events[i].tripId == ""
    ensures var s := Run(Initial<D>(""), events);
            s.log == [] && !s.isConnected && s.lastUpdate.None? && s.live.None?
    decreases |events|
  {
    if |events| > 0 {
      FalsyTripIdIsSilent(events[..|events| - 1]);
    }
  }

  /** On the live socket: `connect` sets the flag and sends `join-trip` with the hook's trip id,
      every time, so a reconnect joins again; `disconnect` clears the flag and changes nothing
      else. */
  lemma ConnectionEvents<D>(s: Hook<D>)
    requires Inv(s) && s.mounted && s.tripId != ""
    ensures var s' := Step(s, Server(Connect));
            s'.isConnected && s'.log == s.log + [JoinTrip(s.tripId)] && s'.lastUpdate == s.lastUpdate
    ensures Step(s, Server(Disconnect)) == s.(isConnected := false)
    ensures var s' := Run(s, [Server(Connect), Server(Disconnect), Server(Connect)]);
            s'.isConnected && s'.log == s.log + [JoinTrip(s.tripId), JoinTrip(s.tripId)]
  {
    var c: Event<D> := Server(Connect);
    var d: Event<D> := Server(Disconnect);
    RunSnoc(s, [], c);
    assert [] + [c] == [c];
    RunSnoc(s, [c], d);
    assert [c] + [d] == [c, d];
    RunSnoc(s, [c, d], c);
    assert [c, d] + [c] == [c, d, c];
  }

  /** A change of trip id on a mounted hook runs the old cleanup before the new effect: the old
      trip is left and its socket closed before the new socket is opened; the connected flag
      ends false and the last update survives. */
  lemma ChangeRunsCleanupFirst<D>(s: Hook<D>, newId: string)
    requires Inv(s) && s.mounted && s.tripId != "" && newId != "" && newId != s.tripId
    ensures var s' := Step(s, ChangeTripId(newId));
            && s'.log == s.log + [LeaveTrip(s.tripId), Close(s.tripId), Open(newId)]
            && !s'.isConnected
            && s'.lastUpdate == s.lastUpdate
            && s'.live == Some(newId)
  {
  }

  /** Unmounting leaves and closes the live socket; afterwards no event has any effect. */
  lemma {:induction false} UnmountIsFinal<D>(s: Hook<D>, events: seq<Event<D>>)
    requires Inv(s)
    ensures var u := Step(s, Unmount);
            && (s.live.Some? ==> u.log == s.log + [LeaveTrip(s.live.value), Close(s.live.value)])
            && Run(u, events) == u
    decreases |events|
  {
    if |events| > 0 {
      UnmountIsFinal(s, events[..|events| - 1]);
    }
  }

  /** `lastUpdate` is the most recent delivered message: once message `i` is delivered, no later
      event except another message changes it. */
  lemma {:induction false} LastUpdateIsLatest<D>(s: Hook<D>, events: seq<Event<D>>, i: nat)
    requires i < |events| && events[i].Server? && Delivers(Run(s, events[..i]), events[i].e)
    requires forall j :: i < j < |events| ==> !(events[j].Server? && events[j].e.Message?)
    ensures Run(s, events).lastUpdate
            == Some(Update(KindOf(events[i].e.name).value, events[i].e.data, events[i].e.at))
    decreases |events|
  {
    if |events| - 1 == i {
      assert events[..i] == events[..|events| - 1];
    } else {
      var init := events[..|events| - 1];
      assert init[..i] == events[..i];
      LastUpdateIsLatest(s, init, i);
    }
  }

  /** The socket protocol on the log of any run: between two `join-trip`s for different trips
      the first trip is always left. */
  lemma LeaveBeforeRejoin<D>(tripId: string, events: seq<Event<D>>, i: nat, j: nat, a: string, b: string)
    requires var log := Run(Initial<D>(tripId), events).log;
             i < j < |log| && log[i] == JoinTrip(a) && log[j] == JoinTrip(b) && a != b
    ensures var log := Run(Initial<D>(tripId), events).log;
            exists k :: i < k < j && log[k] == LeaveTrip(a)
  {
    RunInv(tripId, events);
    var k := ProtocolLeaveBeforeRejoin(Run(Initial<D>(tripId), events).log, i, j, a, b);
  }

  /** The same on any log that follows the protocol. */
  lemma ProtocolLeaveBeforeRejoin(log: seq<Outgoing>, i: nat, j: nat, a: string, b: string) returns (k: nat)
    requires ChannelAfter(log).Some?
    requires i < j < |log| && log[i] == JoinTrip(a) && log[j] == JoinTrip(b) && a != b
    ensures i < k < j && log[k] == LeaveTrip(a)
  {
    JoinNeedsOpened(log, i);
    JoinNeedsOpened(log, j);
    k := OnlyLeaveEndsAJoin(log, i + 1, j, a);
  }

  /** A `join-trip` in a protocol log is sent on the channel open for that trip. */
  lemma JoinNeedsOpened(log: seq<Outgoing>, i: nat)
    requires ChannelAfter(log).Some? && i < |log| && log[i].JoinTrip?
    ensures ChannelAfter(log[..i]) == Some(Opened(log[i].tripId))
    ensures ChannelAfter(log[..i + 1]) == Some(Opened(log[i].tripId))
  {
    PrefixesFollowProtocol(log, i + 1);
    assert log[..i + 1][..i] == log[..i];
    assert log[..i + 1][i] == log[i];
  }

  /** A log that follows the protocol has every prefix following it. */
  lemma {:induction false} PrefixesFollowProtocol(log: seq<Outgoing>, n: nat)
    requires n <= |log| && ChannelAfter(log).Some?
    ensures ChannelAfter(log[..n]).Some?
    decreases |log| - n
  {
    if n < |log| {
      PrefixesFollowProtocol(log, n + 1);
      assert log[..n + 1][..n] == log[..n];
    } else {
      assert log[..n] == log;
    }
  }

  /** Once the log has an open channel for trip `a`, the first point where it no longer has
      one is a `leave-trip(a)`. */
  lemma {:induction false} OnlyLeaveEndsAJoin(log: seq<Outgoing>, n: nat, m: nat, a: string) returns (k: nat)
    requires n <= m <= |log|
    requires ChannelAfter(log[..n]) == Some(Opened(a))
    requires ChannelAfter(log[..m]).Some? && ChannelAfter(log[..m]) != Some(Opened(a))
    ensures n <= k < m && log[k] == LeaveTrip(a)
    decreases m
  {
    assert log[..m][..m - 1] == log[..m - 1];
    if ChannelAfter(log[..m - 1]) == Some(Opened(a)) {
      k := m - 1;
    } else {
      k := OnlyLeaveEndsAJoin(log, n, m - 1, a);
    }
  }
}
