# Trip tracking front end: a Dafny model

This project models the logic inside the React front end that grain producers use to request
truck trips and follow them (`frontend-productores`). The pages and components modelled are:

- the trip list, with its search and status filter (`MisViajes`);
- the dashboard counters and the recent-trips slice (`Dashboard`);
- the trip detail page (`ViajeDetalle`): reloads, the kept-on-failure trip, and the visibility
  rules for its panels and buttons;
- the check-in timeline (`CheckInTimeline`): the stable newest-first sort, the latest badge,
  the connector lines and the fallbacks for unknown states;
- the map panel (`TripMap`): markers, bounds, centre, the planned and traveled lines, and the
  no-coordinates fallback;
- the trip socket hook (`useWebSocket`), as an event-driven state machine with a log of what it
  sends;
- the three password pages' reducers and submit handlers (`ResetPassword`, `SetPassword`,
  `ForgotPassword`);
- the trip request form (`SolicitarViaje`): dotted field routing, the initial form and the
  submitted payload.

Everything is pure functions over immutable datatypes. Each page that loads data is a
`Loadable` value with a `loading` flag. A back-end call's outcome is a `Fetch` value,
`Fetched(v)` or `FetchFailed`, which the model takes as an input. The socket hook and the
detail page are state machines: `Step` applies one event, and `Run` applies a sequence of
events. Their proofs are invariants over every reachable state.

Modules, one per source file plus shared vocabulary:

| module | file | models |
|---|---|---|
| `Common` | common.dfy | optional values and JavaScript truthiness, `Fetch`/`Loadable`, order-preserving filter, ASCII `toLowerCase`/`includes` |
| `Trips` | trips.dfy | the trip record and its sub-records |
| `StatusLabels` | status_labels.dfy | the status badge and sub-status tables shared by the list and the detail page |
| `CheckInTimeline` | checkin_timeline.dfy | `src/components/CheckInTimeline.jsx` |
| `TripMap` | trip_map.dfy | `src/components/TripMap.jsx` |
| `MisViajes` | mis_viajes.dfy | `src/pages/MisViajes.jsx` |
| `Dashboard` | dashboard.dfy | `src/pages/Dashboard.jsx` |
| `WebSocket` | web_socket.dfy | `src/hooks/useWebSocket.js` |
| `ViajeDetalle` | viaje_detalle.dfy | `src/pages/ViajeDetalle.jsx` |
| `PasswordForm` | password_form.dfy | the reducer that `ResetPassword.jsx` and `SetPassword.jsx` both declare |
| `ResetPassword`, `SetPassword`, `ForgotPassword` | reset_password.dfy, set_password.dfy, forgot_password.dfy | the three password pages |
| `SolicitarViaje` | solicitar_viaje.dfy | `src/pages/SolicitarViaje.jsx` |

Representation choices:

- Coordinates are integers in ten-thousandths of a degree, so the default centre
  (-34.6037, -58.3816) is `Point(-346037, -583816)`.
- Timestamps are integer milliseconds.
- A missing (`null`/`undefined`) field is `None`.
- A string is truthy when it is present and non-empty. A number is truthy when it is present
  and not 0, so a price of 0 counts as no price, as in the source.
- `parseFloat` and `parseInt` are function parameters of the payload builder.

Behaviour of the code that the model keeps as it is:

- The detail page has no guard against a stale response. Every `getById` that settles while
  the page is mounted is applied, in settling order, so the last response to settle is shown
  even when it answers an earlier request than another one (`ViajeDetalle.LaterSettlementWins`).
- The trip list keeps `filteredTrips` as its own state, which an effect recomputes after every
  change of the trips, the search text or the status button. The render right after such a
  change still shows the previous result. `MisViajes.FilterTrips` and `MisViajes.Footer` model
  the value once the effect has run.
- The socket hook does not check payloads: every message with one of the three names
  overwrites `lastUpdate`, whatever its data.
- The map draws whatever coordinates it is given; it does not check that they are valid.
- The timeline sort is the stable sort with a non-increasing order. Equal timestamps keep
  their input order; no other key breaks the tie.
- The hook does not reset `lastUpdate` when the trip id changes or on cleanup
  (`WebSocket.ChangeRunsCleanupFirst`).
- The cleanup does not set `isConnected` itself. `socket.disconnect()` fires the socket's own
  `disconnect` listener, which clears the flag, and the model folds that into the cleanup.
- A price of 0 gets no labelled row in the price card, but `{price && (...)}` evaluates to the
  number 0 there, which React renders as a bare "0" (`ViajeDetalle.ZeroPriceShowsBareZero`).
- Password lengths are JavaScript `.length`, which counts UTF-16 code units: a character
  outside the Basic Multilingual Plane, such as an emoji, counts twice
  (`ResetPassword.AstralCharactersCountTwice`).

## Model

| member | source | states |
|---|---|---|
| Common.Settle | src/pages/ViajeDetalle.jsx:18-27 | the try/catch/finally load: the spinner always stops; a success stores the value; a failure keeps the previous value |
| Common.Keep | src/pages/MisViajes.jsx:37-45 | `Array.prototype.filter` returns an order-preserving subsequence no longer than its input |
| Common.KeepMultiset | src/pages/MisViajes.jsx:37-45 | filtering keeps every satisfying element exactly as often as it occurs and drops every other one |
| Common.KeepMembership | src/pages/MisViajes.jsx:37-45 | an element is in the filtered list iff it is in the list and satisfies the predicate |
| Common.KeepAppend | src/pages/Dashboard.jsx:26-28 | filtering distributes over concatenation |
| Common.SubsequenceTransitive | src/pages/MisViajes.jsx:33-46 | two filters in a row still give a subsequence of the original list |
| Common.ToLower | src/pages/MisViajes.jsx:36-40 | lowercasing keeps the length and lowercases each character independently (ASCII letters only) |
| Common.Includes | src/pages/MisViajes.jsx:38-40 | `includes` is true iff the needle occurs at some position of the haystack |
| Common.Utf16Length | src/pages/ResetPassword.jsx:33 | `.length` counts UTF-16 code units: between the number of characters and twice it, equal to it iff no character is outside the Basic Multilingual Plane, and twice it iff every character is; one character is one unit, or two if astral |
| Common.Utf16LengthAppend | src/pages/ResetPassword.jsx:33 | the code-unit length of a concatenation is the sum of the parts' lengths |
| Common.Utf16LengthCountsAstral | src/pages/ResetPassword.jsx:33 | the code-unit length is the number of characters plus the number of astral characters |
| StatusLabels.StatusBadge | src/pages/MisViajes.jsx:62-72 | a known status gets a non-empty label different from its raw name; any other status is shown raw in gray |
| StatusLabels.SubStatusLabel | src/pages/ViajeDetalle.jsx:46-55 | a label exists iff the sub-status is one of the five known ones, and it is non-empty |
| StatusLabels.SubStatusLabelInjective | src/pages/MisViajes.jsx:51-60 | distinct known sub-states get distinct labels |
| CheckInTimeline.StateIcon | src/components/CheckInTimeline.jsx:3-56 | a known state gets its icon; an unknown state gets the clock icon |
| CheckInTimeline.StateLabel | src/components/CheckInTimeline.jsx:11-58 | a known state gets its label; an unknown state is shown raw |
| CheckInTimeline.StateColor | src/components/CheckInTimeline.jsx:19-57 | a known state gets its colour; an unknown state gets the gray fallback |
| CheckInTimeline.SortNewestFirst | src/components/CheckInTimeline.jsx:46-48 | the sorted copy is a permutation of the input, of the same length |
| CheckInTimeline.SortIsNewestFirst | src/components/CheckInTimeline.jsx:46-48 | the sorted copy has non-increasing timestamps |
| CheckInTimeline.SortIsStable | src/components/CheckInTimeline.jsx:46-48 | check-ins with equal timestamps keep their input order |
| CheckInTimeline.StableNewestFirstUnique | src/components/CheckInTimeline.jsx:46-48 | at most one arrangement is both newest-first and stable, so the order is fully determined |
| CheckInTimeline.SortIsTheStableSort | src/components/CheckInTimeline.jsx:46-48 | any stable newest-first arrangement of the input is exactly the sorted copy |
| CheckInTimeline.SortKeepsSorted | src/components/CheckInTimeline.jsx:46-48 | sorting a list that is already newest-first returns it unchanged |
| CheckInTimeline.SortIdempotent | src/components/CheckInTimeline.jsx:46-48 | sorting the sorted output again changes nothing |
| CheckInTimeline.Render | src/components/CheckInTimeline.jsx:29-93 | placeholder iff the list is absent or empty; otherwise entry i holds the i-th check-in of the stable newest-first sort with its state's label, icon and colour, the latest badge only on the first, and a connector on all but the last |
| CheckInTimeline.RenderIsStable | src/components/CheckInTimeline.jsx:46-48 | the listed check-ins are newest first, and check-ins with equal timestamps appear in their input order |
| CheckInTimeline.ExactlyOneLatest | src/components/CheckInTimeline.jsx:89-93 | exactly one entry has the latest badge, and its check-in is no older than any other |
| CheckInTimeline.UnknownStateFallback | src/components/CheckInTimeline.jsx:56-58 | an entry whose state is unknown shows the raw state, the clock icon and gray |
| TripMap.Coordinates | src/components/TripMap.jsx:47-53 | a marker point exists iff the place and its coordinates exist, and it is those coordinates |
| TripMap.RoutePoints | src/components/TripMap.jsx:67 | the route's points, with the same length and order |
| TripMap.Derive | src/components/TripMap.jsx:46-71 | origin, destination and current are present iff their inputs are; the bounds are exactly the present points in the order origin, destination, current; the centre is the first present one of origin, destination, current, else the default |
| TripMap.FitBounds | src/components/TripMap.jsx:29-36 | the view is fitted iff the bounds are non-empty, and to exactly those bounds |
| TripMap.BoundsOrder | src/components/TripMap.jsx:60-64 | the bounds are the present points in the order origin, destination, current, and nothing else |
| TripMap.Render | src/components/TripMap.jsx:73-162 | no-coordinates iff no point is present; the planned line is [origin, destination] iff both exist; the traveled line is drawn iff the route has two or more points |
| TripMap.ThreePointExample | src/components/TripMap.jsx:60-162 | with all three points present, all are fitted in order, the centre is the origin, and a one-point route draws no line |
| MisViajes.FilterTrips | src/pages/MisViajes.jsx:32-48 | an order-preserving subsequence holding exactly the selected trips, each as often as in the list; the whole list when both filters are empty |
| MisViajes.FilterMembership | src/pages/MisViajes.jsx:35-46 | a trip is shown iff it is in the list and passes both active filters; with a status filter every shown trip has that status |
| MisViajes.SearchIsSubstring | src/pages/MisViajes.jsx:35-41 | the search matches iff the lowercased term occurs in the lowercased trip number, origin city or destination city, and a missing field never matches |
| MisViajes.Footer | src/pages/MisViajes.jsx:227-231 | the footer shows iff the filtered list is non-empty; X is the filtered list's length and Y the loaded list's, so X ≤ Y |
| MisViajes.RowBadge | src/pages/MisViajes.jsx:62-80 | an unknown status shows raw in gray; an unknown or missing sub-status has no label |
| MisViajes.LoadTrips | src/pages/MisViajes.jsx:21-30 | loading stops; a failure keeps the list; a success replaces it |
| Dashboard.ComputeStats | src/pages/Dashboard.jsx:24-29 | total is the number of trips, and the three bucket counts sum to at most the total |
| Dashboard.StatsPartition | src/pages/Dashboard.jsx:26-28 | the three buckets and the unbucketed statuses partition the list |
| Dashboard.StatsAppend | src/pages/Dashboard.jsx:25-28 | one more trip raises the total and exactly its own bucket; an `en_asignacion` trip raises no bucket |
| Dashboard.RecentTrips | src/pages/Dashboard.jsx:31 | the first min(5, n) trips, in input order |
| Dashboard.BadgeColor | src/pages/Dashboard.jsx:147-151 | indigo iff `en_curso`, green iff `finalizado`, yellow for everything else |
| Dashboard.LoadData | src/pages/Dashboard.jsx:20-37 | loading stops; a failure keeps the last stats; a success sets the counters to the loaded trips' stats and the recent list to their first five, so the total is the trip count and the list a prefix |
| WebSocket.KindOf | src/hooks/useWebSocket.js:36-63 | exactly the three listened-to names have a category, and each category's name maps back to it |
| WebSocket.NamesAndTypes | src/hooks/useWebSocket.js:36-63 | the three names map to the three update types one-to-one |
| WebSocket.Cleanup | src/hooks/useWebSocket.js:66-72 | the cleanup leaves no live socket and, if one was live, ends disconnected; without a live socket it changes nothing; `lastUpdate` is kept |
| WebSocket.Step | src/hooks/useWebSocket.js:10-73 | the log only grows; a delivered message sets `lastUpdate` to its category with the payload unchanged; nothing else touches `lastUpdate` |
| WebSocket.StepInv | src/hooks/useWebSocket.js:10-73 | every event keeps the invariant: a socket is live exactly while mounted with a truthy id, only a live socket is connected, and the log follows the open/join/leave/close protocol |
| WebSocket.RunInv | src/hooks/useWebSocket.js:10-73 | every reachable hook state satisfies that invariant |
| WebSocket.FalsyTripIdIsSilent | src/hooks/useWebSocket.js:11 | with a falsy trip id nothing is opened or sent, the hook is never connected and never records an update |
| WebSocket.ConnectionEvents | src/hooks/useWebSocket.js:22-33 | every connect sets the flag and sends `join-trip` with the trip id, again after a reconnect; a disconnect only clears the flag |
| WebSocket.ChangeRunsCleanupFirst | src/hooks/useWebSocket.js:10-73 | a trip id change sends `leave-trip` and closes the old socket before opening the new one; the flag ends false and `lastUpdate` survives |
| WebSocket.UnmountIsFinal | src/hooks/useWebSocket.js:66-73 | unmounting leaves and closes the live socket, and no later event changes anything |
| WebSocket.LastUpdateIsLatest | src/hooks/useWebSocket.js:36-63 | `lastUpdate` holds the most recent delivered message |
| WebSocket.LeaveBeforeRejoin | src/hooks/useWebSocket.js:22-73 | between two `join-trip`s for different trips the log always has a `leave-trip` for the first |
| WebSocket.ProtocolLeaveBeforeRejoin | src/hooks/useWebSocket.js:22-73 | the same for any log that follows the protocol |
| ViajeDetalle.Step | src/pages/ViajeDetalle.jsx:18-44 | requests are only appended, every request is for the route's trip, and the spinner never turns back on |
| ViajeDetalle.StepRequests | src/pages/ViajeDetalle.jsx:35-44 | a delivered update sends exactly one `getById`; a settled proposal sends one iff it succeeded; no other event sends one |
| ViajeDetalle.GetTripCount | src/pages/ViajeDetalle.jsx:29-44 | over a visit, `getById` is called once on mount plus once per reload-triggering event |
| ViajeDetalle.RequestsAreForTheRouteTrip | src/pages/ViajeDetalle.jsx:11-44 | every request is about the route's trip id |
| ViajeDetalle.FetchSettles | src/pages/ViajeDetalle.jsx:18-27 | a settled load stops the spinner; a success shows its trip; a failure keeps the previous trip |
| ViajeDetalle.LastFetchWins | src/pages/ViajeDetalle.jsx:18-27 | the page shows the last successful load to settle while mounted |
| ViajeDetalle.LaterSettlementWins | src/pages/ViajeDetalle.jsx:18-27 | of two responses settling in turn the second is shown, whichever request it answers |
| ViajeDetalle.LeaveFreezesThePage | src/pages/ViajeDetalle.jsx:16-27 | after unmounting, neither the page state nor the hook changes |
| ViajeDetalle.LeaveThenProposalReloads | src/pages/ViajeDetalle.jsx:41-44 | a proposal that succeeds after unmount still sends its `getById` but changes nothing shown |
| ViajeDetalle.PriceSlot | src/pages/ViajeDetalle.jsx:263-270 | one `{price && (row)}` slot shows the labelled row iff the price is truthy, a bare "0" iff the price is 0, and nothing iff it is missing |
| ViajeDetalle.PriceRows | src/pages/ViajeDetalle.jsx:263-286 | one cell per present price; a labelled row is shown iff its price is truthy and carries that price; a bare "0" appears iff some price is 0 |
| ViajeDetalle.PriceCardLayout | src/pages/ViajeDetalle.jsx:263-286 | cell by cell: base first, then proposal, then confirmed; each present price sits at the number of present prices before it, as its labelled row or as a bare "0" for 0; labelled rows keep the order base, proposal, confirmed |
| ViajeDetalle.TwoZerosThenConfirmed | src/pages/ViajeDetalle.jsx:263-286 | prices 0, 0 and 3 show "0", "0" and then the confirmed row |
| ViajeDetalle.ZeroPriceShowsBareZero | src/pages/ViajeDetalle.jsx:263-270 | a base price of 0 gets no "Precio Base" row, and its slot shows a bare "0" |
| ViajeDetalle.ProposeButton | src/pages/ViajeDetalle.jsx:289-296 | shown iff there is no truthy confirmed price and the status is `solicitado` or `cotizando`; it reads "Modificar Propuesta" iff a price is proposed |
| ViajeDetalle.ProposeButtonAgreesWithPriceCard | src/pages/ViajeDetalle.jsx:271-296 | the button never appears with a confirmed-price row, and it reads "Modificar Propuesta" exactly when the card lists a proposal |
| ViajeDetalle.Route | src/pages/ViajeDetalle.jsx:218 | the route passed to the map is the recorded route, or empty when absent |
| ViajeDetalle.CurrentLocation | src/pages/ViajeDetalle.jsx:217 | the current location is the route's last point, and absent for an absent or empty route |
| ViajeDetalle.History | src/pages/ViajeDetalle.jsx:304-323 | the creation row always shows; the update row shows iff `updatedAt` is truthy and differs from `createdAt` |
| ViajeDetalle.UpdatedRowIsNews | src/pages/ViajeDetalle.jsx:313 | the update row is never blank, never equal to the creation date, and absent when the two dates are equal |
| ViajeDetalle.ViewOf | src/pages/ViajeDetalle.jsx:84-104 | the spinner iff loading; "not found" iff loaded without a trip; otherwise the details of the loaded trip with the socket's connection flag |
| ViajeDetalle.TrackingPanel | src/pages/ViajeDetalle.jsx:204-221 | the panel shows iff `en_curso`, tracking is on, or the route is non-empty; "En vivo" iff connected; a trip with a route gets a drawn map whose current marker is the newest route point, where the traveled line ends |
| ViajeDetalle.HeaderLabels | src/pages/ViajeDetalle.jsx:57-80 | an unknown status shows raw in gray; the sub-label exists iff the sub-status is known |
| ViajeDetalle.FailureKeepsTheTripShown | src/pages/ViajeDetalle.jsx:18-104 | a failed reload never replaces a shown trip by "not found" |
| PasswordForm.TogglesAreLocalInvolutions | src/pages/ResetPassword.jsx:9-10 | each toggle flips only its own flag, and applying it twice is the identity |
| PasswordForm.SetFieldIsLocal | src/pages/SetPassword.jsx:11 | `SET_FIELD` sets the named field, which reads back as the payload, and changes nothing else |
| PasswordForm.RequestLifecycle | src/pages/ResetPassword.jsx:12-15 | `SUBMIT` starts loading and clears the error; `SUCCESS` stops loading and sets success; `ERROR` stops loading, stores the message and keeps success; unknown actions change nothing |
| PasswordForm.RunAppend | src/pages/ResetPassword.jsx:22 | dispatching two batches in a row is dispatching their concatenation |
| Common.ErrorText | src/pages/ResetPassword.jsx:47 | the shown error is the server's message if truthy, else the fallback, and is never empty |
| PasswordForm.RequestOutcome | src/pages/SetPassword.jsx:43-55 | after the request the form is not loading; success clears the error and sets success; failure leaves a non-empty error and success as it was |
| ResetPassword.Validate | src/pages/ResetPassword.jsx:28-36 | no error iff the two passwords are equal and at least six UTF-16 code units long; a mismatch is reported before the length |
| ResetPassword.SubmitGate | src/pages/ResetPassword.jsx:26-49 | `SUBMIT` is dispatched iff validation passes; afterwards the form is not loading, and success holds iff it held or the request succeeded |
| ResetPassword.MismatchReportedFirst | src/pages/ResetPassword.jsx:28-31 | "abc" against "abd" reports the mismatch |
| ResetPassword.LengthCheckInCharacters | src/pages/ResetPassword.jsx:33-36 | six characters always pass the length check, and a passing password has at least three characters |
| ResetPassword.AstralCharactersCountTwice | src/pages/ResetPassword.jsx:33-36 | three emoji are six code units and pass; two emoji are four and are too short |
| SetPassword.ValidationError | src/pages/SetPassword.jsx:27-37 | no error iff the password is at least six UTF-16 code units long and equals its confirmation; the length is reported before the mismatch |
| SetPassword.ValidatePassword | src/pages/SetPassword.jsx:27-37 | true iff the password has at least six UTF-16 code units and equals the confirmation |
| SetPassword.SubmitGate | src/pages/SetPassword.jsx:39-56 | `SUBMIT` iff validation passes; a failed validation leaves the form not loading with a non-empty error |
| SetPassword.OppositeCheckOrder | src/pages/SetPassword.jsx:28-35 | the two pages accept the same pairs and report different errors iff the pair is both short and mismatched |
| ForgotPassword.ReducerEffects | src/pages/ForgotPassword.jsx:7-15 | each action changes exactly the fields it names and every other field is unchanged: `SUCCESS` keeps the address and the error, `ERROR` keeps the address, success and the token; unknown actions change nothing |
| ForgotPassword.HandleSubmit | src/pages/ForgotPassword.jsx:21-30 | a submit dispatches `SUBMIT` then exactly one of `SUCCESS` or `ERROR` |
| ForgotPassword.SubmitOutcome | src/pages/ForgotPassword.jsx:21-46 | after a submit the page is not loading; a sent request shows success with the token, linked iff non-empty; a rejected one shows the server's message if truthy, else "Error al solicitar recuperación" |
| SolicitarViaje.UpToDot | src/pages/SolicitarViaje.jsx:33-39 | the segment is a dot-free prefix of the rest of the name, followed by a dot when shorter |
| SolicitarViaje.HandleChange | src/pages/SolicitarViaje.jsx:29-47 | the input's own slot reads back as the new value, every other slot is unchanged, and the form keeps all its fields |
| SolicitarViaje.RoutingByPrefix | src/pages/SolicitarViaje.jsx:32-46 | an `origen.` name changes only that origin key; a `destino.` name changes only that destination key; any other name changes only that top-level key |
| SolicitarViaje.AddressInputRoundTrip | src/pages/SolicitarViaje.jsx:32-43 | an `origen.`/`destino.` name with a dot-free key writes that key of that address, and reads back the typed value |
| SolicitarViaje.InitialIsWellFormed | src/pages/SolicitarViaje.jsx:10-27 | the initial form has every field, a port destination, grain cargo and empty addresses |
| SolicitarViaje.SubmitData | src/pages/SolicitarViaje.jsx:55-60 | every non-numeric field is sent as typed; weight and trucks are the parsed values; `camionesRecomendados` equals `camionesSolicitados` |

## Left out

- JSX layout, CSS classes other than the badge colours, the Leaflet map itself, tiles and
  icon setup: presentation only.
- HTML constraint validation. The browser checks `required`, `minLength`, `type="email"`,
  `type="number"`, `min` and `step` before it lets a form's `onSubmit` run, and the model
  does not. The attributes are:
  - `required minLength={6}` on both reset-password inputs;
  - `required` on both set-password inputs;
  - `type="email" required` on the forgotten-password address;
  - on the request form, `required` on the six address inputs, `tipoDestino` and
    `fechaProgramada`;
  - `type="number" required min="0" step="0.1"` on `peso`;
  - `type="number" required min="1"` on `camionesSolicitados`.

  `tipoCarga` and `notas` carry no constraint. `SolicitarViaje.SubmitData` accepts any text
  for every field.
- ResetPassword.HandleSubmit, SetPassword.HandleSubmit: these model the submit handler as
  called. On the reset page the browser's `minLength` check blocks a password under six code
  units before the handler runs. The handler's too-short branch is therefore unreachable from
  that form, and "abc" against "abd" (`ResetPassword.MismatchReportedFirst`) shows the browser's
  message instead. The order of the two checks (`SetPassword.OppositeCheckOrder`) can only be
  observed on the set-password page, whose inputs have no `minLength`.
- HTTP, `localStorage` and `setTimeout`. Every back-end call is an input `Fetch` or
  `ApiOutcome` value. `trip.service.js` and the `api` module are not part of this model.
- The socket.io transport: URL, transports, reconnect policy and packet batching. The hook sees
  an abstract sequence of `connect`, `disconnect` and named-message events on its live socket.
  Events for an old socket after its cleanup are not modelled, because that socket is closed.
- React scheduling: several updates in one render batch each count as a reload here, though
  React could run the effect once for them. StrictMode double effects are not modelled.
- A change of the route's trip id while the detail page is mounted is not modelled. The page's
  id is fixed for the visit; the hook models id changes on its own.
- Floating point: coordinates, prices and weights are integers, and `parseFloat`/`parseInt`
  are parameters, so NaN and partial parses are whatever those return.
- Dates: `new Date(...)` ordering, invalid dates (NaN) and locale formatting. Timestamps are
  integers and dates are shown as the raw strings.
- Common.ToLower: only ASCII letters are lowered; Unicode case mapping is not modelled.
- Object lookups in the label tables do not model JavaScript prototype keys such as
  `constructor`.
- SolicitarViaje.HandleChange: requires the name not to be exactly `origen` or `destino`. No
  input of the page has those names, and they would replace a nested address by a string.
- PasswordForm.SetFieldIsLocal: `SET_FIELD` is modelled for the two password fields only,
  which are the only fields the pages dispatch it with.
- The modal `ProposePrice.jsx` is not part of this model beyond the price it forwards, and
  `App.jsx` is a routing table with no logic.
- The trip's display-only fields (carrier, weights, cargo, scheduled date, notes) are not part
  of the trip record.
