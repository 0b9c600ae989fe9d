# gatewaysshd: a verified model of the mesh

gatewaysshd is a mesh of SSH gateways. Users connect to any node and expose services; other
users reach those services through whichever node they are on. The nodes share one database
and nothing else. This project models the parts of the gateway that have to be right for that
to work, and proves what they promise over every input, every run or every reachable state.

| files | what they model |
|---|---|
| `UserTable`, `UserStore` | the `user` and `node` tables, one SQL statement at a time |
| `Presence`, `Ownership`, `Retention`, `Convergence`, `Stamps`, `Liveness`, `Timing`, `Tightness`, `Takeover` | the presence protocol: logins, disconnects, heartbeats and crashes of any number of nodes, in any interleaving |
| `Hosts`, `Connections` | connections, their services and the lookup by host name |
| `ExpiringCache`, `Routes`, `RouteRaces`, `RouteDrops` | the bounded caches and routing to another node through one of them, with any number of lookups at once |
| `TunnelData`, `Mesh` | the tunnel payload and the way of a request through the mesh |
| `Peers`, `Shutdown`, `Barrier`, `Closure`, `Drain`, `Rounds` | outbound peers, the background threads and the shutdown barrier |
| `Logins` | login decisions from cached account flags |
| `Ids`, `Migrations`, `Migrator`, `MigrationFiles`, `MigrationOrder` | schema migration in both directions |
| `Socks` | the SOCKS5 handshake |

`dafny verify dfyconfig.toml` checks everything.

## How it is modelled

A database statement is atomic and carries the time stamp its caller read before sending it;
between a statement's issue, its effect and its return anything else may happen. Time is one
integer clock in seconds for all nodes, which the code itself asks for
(`gateway/gateway.go:391-393`). Concurrent protocols are transition systems: a step function
that says when a step can be taken and what it leaves behind, and theorems over all runs.
Objects with fields are classes whose methods are proved against functions of the old state.
Randomness, the clock, dial and ping results, statement failures and the text form of an IP
address are parameters.

Where a promise does not hold of the code as it stands, the model keeps the code and the
project states exactly when the promise holds:

- Online margin. With statements up to `d`, a release pass up to `r` and `h` from login write
  to registration, a connected user is always shown online if and only if `h + 3d + r` is less
  than 60 s. Two statement times are not enough: the stamp a connected user was last seen with
  can be replaced by that of a slower statement of another node (`Tightness.MarginIsExact`).
- Liveness. A running node that registers every `P` seconds, with registrations that land within
  `d`, always counts as live if and only if `P + d` is less than 90 s (`Liveness.LivenessIsExact`).
  The warning at `gateway/peer.go:180-187` asks for `P` up to 30 s and has no `d`.
- Ownership. A row can come to name a running node that does not hold the user and will never
  look again. The step that does it is characterised exactly, per user, by what can be seen
  before it (`Ownership.LostExactlyWhenUnsafe`): a handshake that fails after the login write, a
  failed clear, a heartbeat that took effect but reports an error, and the release of the empty
  user name, which the code skips, each if the row names the node and nothing else at the node
  backs the user; a background login write that lands when nothing backs the user and the row is
  not disabled; and the start of a node that the row already names.
- Forgotten routes. The comment at `gateway/gateway.go:326-328` says a stale route is not retried.
  A route that was just forgotten can be back in the cache before anybody reads the user's node
  again if and only if some lookup was between its read and its store
  (`RouteRaces.ForgettingIsExact`; `RouteRaces.ForgottenRouteReturns` is such a run).
- Kick. Revoking cached flags makes the user's next login read the database if and only if no
  login write of that user is in flight (`Logins.RevokeIsExact`). The comment at
  `auth/auth.go:59-61` promises it without the condition.
- One hop. Besides a local connection and a refusal there is a third end for a request that
  crossed a peer link: the receiving node's bridge to its database. `Mesh.EndsExactly` says
  exactly which requests end there.
- Migration order. The stack law needs the ids that differ to sort after the ids that are
  shared, and there is a schema for which it fails without that (`MigrationOrder.OrderIsExact`).

## Model

| member | source | states |
|---|---|---|
| `UserStore.Database.MarkUsersOnline` | db/users.go:68-99 | exactly the given users that exist are refreshed; one is moved to this node, and its row marked as modified, if and only if its recorded node is unset or not live at the cutoff, judged by the row before the statement; a node outside the mesh moves nobody; account flags never change |
| `UserStore.Database.ClearUserNodeID` | db/users.go:101-108 | the row stops naming this node and keeps its flags and its stamp; a row that names another node, and every other row, is left alone |
| `UserStore.Database.UpsertUserOnConnect` | db/users.go:150-188 | the stored row is returned, with the flags it had, or enabled and no administrator on a first login; an enabled user is on this node and seen now, a disabled one keeps its presence; no other row changes |
| `UserStore.Database.GetUserNodeID` | db/users.go:134-148 | the node a row names, empty for an unknown user and for NULL, and a non-empty answer is what the row names |
| `UserStore.Database.ListOnlineUsers` | db/users.go:52-57 | a user is listed if and only if its stamp is newer than the bound, each once |
| `UserTable.ListedAreOnline` | gateway/gateway.go:391-403 | the users that the listing selects at the threshold are exactly those that pass the freshness test, but for a stamp that was never set |
| `UserStore.Database.PutNode` | db/nodes.go:47-79 | afterwards the node counts as live at a cutoff if and only if it is online and its stamp is newer; the liveness of every other node is unchanged |
| `Ownership.LoginHolds` | auth/auth.go:175-206 | where the row is held, a step of a login keeps it held if and only if it is not a failed handshake that alone backed the row nor a background write for an enabled user whom nothing backs |
| `Ownership.ReleaseHolds` | gateway/gateway.go:460-476 | a step of a disconnect keeps the row held if and only if it is not a failed clear, or the skipped release of the empty user, that alone backed the row; that it also keeps a row it should keep is `Retention.HolderNeverLetsGo` |
| `Ownership.BeatHolds` | gateway/gateway.go:424-458 | a step of a heartbeat keeps the row held if and only if it does not give up a release pass that alone backed the row; whoever left while the statement was in flight is still released |
| `Ownership.LocalStepHolds` | gateway/gateway.go:424-476 | the four kinds of step together, for a node of the mesh or outside it, running or crashed |
| `Ownership.NamesOnlyItself` | db/users.go:81-108 | a step of one node never adds a row naming another node |
| `Ownership.StepKeepsInv` | db/users.go:157-188 | whoever is connected or about to be has a row, and mesh node ids stay unique |
| `Ownership.OwnershipTheorem` | gateway/gateway.go:424-476 | in every interleaving a row naming a running mesh node means that node holds the user, is between login and registration, owes a release or is in its release pass with the user, and no row names a node that shut down cleanly, unless an unsafe step lost the row at a moment since which it has never been held |
| `Ownership.LostExactlyWhenUnsafe` | gateway/connection.go:87-103 | over all gateways, a step loses a held row if and only if it is unsafe for the user, as seen before it is taken |
| `Ownership.HeldWhileSafe` | gateway/gateway.go:443-476 | from any moment at which the row is held, also after it was lost and regained, it is held as long as the steps are safe for the user |
| `Ownership.OwnershipIsExact` | gateway/gateway.go:443-476 | over a whole run the row is held throughout if and only if every step is safe for the user |
| `Ownership.BackgroundWriteCanLeak` | auth/auth.go:191-206 | a reachable state in which a late background write names a running node that no longer holds the user and owes nothing |
| `Retention.ConnectionsAreCounted` | gateway/gateway.go:190-217 | in every run a node has exactly as many connections of a user as were registered and not closed since it started |
| `Retention.HolderKeepsRow` | gateway/gateway.go:443-476 | a node that holds the user begins no clear of the user, in the release after a disconnect or in that of a heartbeat, and no step of it makes the row stop naming it |
| `Retention.HolderNeverLetsGo` | gateway/gateway.go:460-476 | over any run: while a mesh node holds the user, from a moment at which no release of the user there is past its check, no step of that node makes a row that names it stop naming it |
| `Retention.PeersAreNeverBeaten` | gateway/gateway.go:405-419 | in every run no heartbeat refreshes, adopts or releases the empty user that peer connections are indexed under |
| `Stamps.StampsWereSent` | db/users.go:68-99 | in every run a row's stamp is the one it began with, or the moment at which some node sent a heartbeat or a login write of that very user, or the stamp of a background write of that user |
| `Stamps.BeatsAreApart` | gateway/gateway.go:424-442 | in every run two heartbeats of a node are at least 30 s apart, also across a restart |
| `Convergence.StepKeepsNodeInv` | gateway/peer.go:67-96 | a node's registration is never newer than the last moment its process was alive; that it is there and online is `Liveness.RunningNodesAreOnline` |
| `Convergence.QuietKeepsSettled` | gateway/gateway.go:424-458 | a user whose work has drained stays drained until a login or disconnect of that user begins or a holder crashes, whatever other users and nodes do |
| `Convergence.QuietKeepsHolder` | db/users.go:73-99 | such steps never move the row off a node that holds the user except to another that does |
| `Convergence.LandingNamesHolder` | db/users.go:68-99 | one heartbeat of a holder leaves the row naming a holder, unless the row names a dead node that still counts as live |
| `Convergence.ConvergenceTheorem` | gateway/gateway.go:424-458 | once the logins, disconnects and owed releases of one user have drained, after one heartbeat of a mesh node holding the user the row names a node that holds the user, for good; everyone else may log in, disconnect, fail and crash meanwhile |
| `Convergence.TakeoverAfterCrash` | db/users.go:85-98 | a heartbeat stamped 90 s or more after a crash takes its users off the crashed node, whatever registration the crashed process had in flight |
| `Convergence.HeartbeatsDoNotFight` | db/users.go:71-108 | any sequence of heartbeats at whose cutoffs the recorded node is live, and of releases by other nodes, leaves node and modification time alone |
| `Liveness.RunningNodesAreOnline` | gateway/peer.go:67-90 | in every run a running mesh node has an online row, and one that shut down cleanly has none that is online |
| `Liveness.OnTimeIsLive` | gateway/peer.go:175-198 | a node whose registrations are at most `P` apart and land within `d`, with `P + d` below 90 s, counts as live at every instant it runs |
| `Liveness.LivenessIsExact` | gateway/peer.go:180-187 | for all `P` and `d`: every running node that registers in time is always live if and only if `P + d` is below 90 s |
| `Liveness.NoHeartbeatTakes` | db/users.go:71-99 | no heartbeat of any node moves a row off a running node that registers in time, nor marks it as modified |
| `Liveness.NobodyFights` | db/users.go:71-108 | from any moment at which a row names such a node, it keeps its node and modification time through every step of every node, but for a login write of that user or a release by that node |
| `Timing.StepKeepsTimeInv` | gateway/gateway.go:424-442 | every step keeps each connected user's stamp within the distance to the next heartbeat that will include the user |
| `Timing.ConnectedIsRecent` | gateway/gateway.go:424-442 | a connected user's stamp is never older than 30 s + login + 3 statements + release |
| `Timing.OnlineMargin` | gateway/gateway.go:20-29 | within the margin every connected user passes the freshness test and is in the SQL listing at every instant, even when a slower statement of another node overwrites a newer stamp |
| `Tightness.MarginIsExact` | gateway/gateway.go:391-403 | for all limits: every connected user is always shown online if and only if the margin is below 90 s |
| `Tightness.NotShownOnline` | gateway/gateway.go:424-442 | for all limits at or over the margin, a timed run ending with a connected user shown offline |
| `Takeover.NamesNotRevived` | db/users.go:85-98 | after a crash a row starts naming the dead node only through a statement that was in flight, within one statement time |
| `Takeover.StepKeepsTakeoverInv` | gateway/gateway.go:424-458 | until the survivor takes the user, its next heartbeat with the user is due in time |
| `Takeover.CrashTakeoverBound` | gateway/gateway.go:20-29 | no later than 90 s, or one statement if that is longer, one period and one statement after the crash the row no longer names the crashed node |
| `Takeover.NamedAfterTheCrash` | auth/auth.go:175-184 | a reachable state after a crash in which a login write that was in flight takes effect and names the dead node |
| `Hosts.JoinSplit` | gateway/gateway.go:223-226 | joining the labels of a host gives the host back, empty labels included |
| `Hosts.SplitConcat` | gateway/gateway.go:223-226 | splitting around any dot gives the labels of both sides |
| `Hosts.IndexIsCut` | gateway/gateway.go:224-226 | every index of the loop is a cut of the host at a dot, or the whole host |
| `Hosts.CutIsIndex` | gateway/gateway.go:224-226 | every cut of the host is tried at some index |
| `Hosts.UsersShrink` | gateway/gateway.go:224-226 | cuts are tried longest user first |
| `Connections.Connection.RegisterService` | gateway/connection.go:295-309 | refused if and only if it was registered already; registered afterwards; no other service changes |
| `Connections.Connection.DeregisterService` | gateway/connection.go:311-321 | gone afterwards; no other service changes |
| `Connections.Registry.AddConnection` | gateway/gateway.go:190-196 | newest first, and each user's index entry stays the list filtered by that user in list order |
| `Connections.Registry.DeleteConnection` | gateway/gateway.go:198-217 | the list without that connection, with the same agreement of index and list |
| `Connections.WithoutOfUser` | gateway/gateway.go:202-216 | deleting from the index entry and from the list agree |
| `Connections.WithoutMeaning` | gateway/gateway.go:198-217 | what a deletion leaves are all other connections, as often as they were there and in the order they had on both sides of any position |
| `Connections.IndexSearchesTheList` | gateway/gateway.go:228-233 | searching a user's index entry finds what searching the whole list finds |
| `Connections.SearchMeaning` | gateway/gateway.go:219-238 | the first hit of the two loops is the newest match with the longest user, and no hit means no match |
| `Connections.Registry.LookupConnectionService` | gateway/gateway.go:219-238 | a result is the newest connection at the longest user suffix whose cut it serves, found through the index; nil means that no cut of the host matches any connection |
| `Connections.Registry.ConnectedUserIds` | gateway/gateway.go:405-419 | every user with a connection once, peer connections excluded |
| `ExpiringCache.KeptIsBounded` | gateway/routecache.go:60-71 | making room leaves less than the bound, invents nothing, and drops unexpired entries only all together |
| `ExpiringCache.StoredIsFound` | gateway/routecache.go:38-76 | what was stored is found up to and including its expiry and not after; everything else that would have been found still is if and only if fewer entries are unexpired than the bound, and otherwise nothing else is |
| `ExpiringCache.Cache.Put` | gateway/routecache.go:56-76 | the new entry is in, the cache never exceeds its bound |
| `ExpiringCache.Cache.Sweep` | gateway/routecache.go:62-67 | dropping expired entries one by one leaves exactly the unexpired ones |
| `ExpiringCache.Cache.Invalidate` | gateway/routecache.go:49-54 | the key is not found at any time afterwards, and every other key is found as before |
| `ExpiringCache.Cache.GetOrDrop` | auth/auth.go:91-104 | the flag lookup also drops the entry it finds expired, and nothing else |
| `Routes.AnswersAreRecent` | gateway/gateway.go:253-263 | every candidate is told its current node or one the database held at most 15 s plus read-to-store time earlier |
| `Routes.Router.Probe` | gateway/gateway.go:249-281 | one candidate, whatever other lookups do to the cache between its accesses: a usable route that was read is remembered, a cached route without a peer is dropped, anything else leaves the cache alone, and the cache stays sound |
| `Routes.Router.LookupRemotePeer` | gateway/gateway.go:243-284 | the result is the best route on what the candidates are told: the peer of the longest user that has one, and none if no user has one or the mesh is off; each candidate is told from whatever the others have made of the cache by then |
| `Routes.DirectIsBest` | gateway/gateway.go:243-284 | the first candidate that leads to a peer is the one with the longest user, and no result means that none does |
| `Routes.BestRouteIsUnique` | gateway/gateway.go:248-276 | there is only one right result for given answers |
| `Routes.LongestUserWins` | gateway/gateway.go:247-276 | while neither users nor peers change, a lookup answers for the longest of all users that the host can be cut to and that are on a connected node |
| `Routes.Router.InvalidateRoutes` | gateway/gateway.go:326-337 | removes precisely the routes a lookup of the host can consult |
| `Routes.EveryCandidateMatters` | gateway/gateway.go:326-337 | no fewer would do: each of those routes alone can decide the lookup |
| `Routes.ForgottenMeansCurrent` | gateway/gateway.go:253-263 | where no candidate is cached when it is asked, the answers are those of the database |
| `RouteRaces.StepKeepsSane` | gateway/gateway.go:243-284 | every candidate a lookup has left behind led nowhere, in every interleaving of lookups and invalidations |
| `RouteRaces.LookupsRefineDirect` | gateway/gateway.go:243-284 | in every interleaving a finished lookup has found the best route on what its candidates were told, which is what the cache-free lookup finds, and each was told a node its row held at most 15 s plus read-to-store time before the lookup began |
| `RouteRaces.FailuresWereReads` | gateway/gateway.go:254-263 | a candidate without an answer had its own database read fail |
| `RouteRaces.CachedRoutesAreUsable` | gateway/gateway.go:264-273 | in every interleaving a cached route is non-empty, not this node, and one the row held a bounded time ago |
| `RouteRaces.CacheIsBounded` | gateway/routecache.go:56-76 | in every interleaving the route cache holds at most 4096 entries |
| `RouteRaces.ForgettingIsExact` | gateway/gateway.go:277-337 | after a route is forgotten, by an invalidation or by a lookup without a peer for it, it can be found in the cache before the user's node is read again if and only if some lookup was between its read and its store |
| `RouteRaces.ForgottenRouteReturns` | gateway/gateway.go:253-272 | a run in which a lookup after an invalidation is told the old node although the row names another |
| `RouteDrops.InvalidationForgetsAll` | gateway/gateway.go:329-337 | in every interleaving an invalidation that is over has forgotten every user that a lookup of the host can ask for |
| `RouteDrops.DeadRouteIsDropped` | gateway/gateway.go:277-280 | in every interleaving a lookup that was told a cached route to a node without a connection takes it out of the cache before it goes on |
| `TunnelData.UnmarshalMarshalled` | gateway/utils.go:54-75 | what was marshalled is decoded to the same host, port and origin |
| `TunnelData.UnmarshalledIsMarshalled` | gateway/utils.go:54-75 | only what marshalling produces is decoded |
| `TunnelData.RoundTrip` | gateway/utils.go:54-75 | the round trip holds if and only if both ports are at most 65535 and the strings fit their length prefix |
| `TunnelData.ForwardRequestDecodes` | gateway/utils.go:24-37 | a forward request is accepted if and only if it is the encoding of a host and a port up to 65535 |
| `TunnelData.FieldsInOrder` | gateway/utils.go:47-75 | on the wire the host comes first, then the port, then the origin; lengths and ports are four bytes in network order, as in section 5 of RFC 4251 and section 7.2 of RFC 4254 |
| `Mesh.OnlyPeersArePeers` | auth/auth.go:136-169 | a session counts as a peer's only if it logged in as the peer user with a node identity, whatever a user certificate carries |
| `Mesh.LoginGrants` | auth/auth.go:136-215 | for every login: refused if and only if it is a peer's without a key id; a peer is known by its key id and has no rights of its own; a user may forward ports if and only if the certificate says so |
| `Mesh.PeerRequestEnds` | gateway/connection.go:475-486 | a request from a peer is never forwarded again |
| `Mesh.FirstStep` | gateway/connection.go:449-526 | a request of a user is forwarded at most once, with the same payload, and never to a database bridge directly |
| `Mesh.OneHop` | gateway/connection.go:449-571 | against arbitrary tables on every node, every request crosses at most one peer link and has ended after two nodes; it is delivered if and only if it is well-formed and permitted and the first node, or the one it is sent to, knows the service, and then to the connection that node finds for the requested host and port, with the requested port and origin |
| `Mesh.FirstEndsExactly` | gateway/connection.go:449-486 | what a node makes of a user's request, each end with its exact condition; without the permission to forward ports it is refused, whatever it asks for |
| `Mesh.PeerEndsExactly` | gateway/connection.go:449-486 | what a node makes of a peer's request, each end with its exact condition; the permission does not matter |
| `Mesh.DeliveredExactly` | gateway/connection.go:461-526 | a request is delivered where it arrived, or one hop on, or refused for lack of permission, each if and only if its condition holds |
| `Mesh.EndsExactly` | gateway/connection.go:449-486 | the other ends, each with its exact condition; a request of a user or a proxy ends at a database bridge if and only if it asks for postgres:5432, may be forwarded, is not served locally, has a peer to go to, and that node has a bridge |
| `Mesh.UserCanBeBridged` | gateway/connection.go:455-486 | for every such request, tables on which it ends at the bridge |
| `Mesh.ProxyRequest` | gateway/gateway.go:286-324 | a proxy request is routed like a user's request with the same content |
| `Peers.PeerTable.AddPeer` | gateway/peer.go:234-243 | added if and only if the node has no peer yet; every peer is filed under its own node |
| `Peers.PeerTable.RemovePeer` | gateway/peer.go:245-252 | that peer is gone and every other peer stays, also one of the same node |
| `Peers.PeerTable.GetPeer` | gateway/peer.go:227-232 | the peer of exactly that node, or nil if there is none |
| `Peers.PeerTable.ListPeers` | gateway/peer.go:216-225 | every peer once |
| `Barrier.NextKeepsInv` | gateway/peer.go:99-213 | the token count, peer ownership, the table, watchers and closers are kept by every step |
| `Barrier.PeersAreLive` | gateway/peer.go:115-173 | in every reachable state a peer in the table bears its node's id and has a live thread that holds a token |
| `Barrier.NoTokenAtZero` | gateway/peer.go:152-158 | a token is only ever added while one is held |
| `Barrier.ShutdownBarrier` | gateway/gateway.go:134-154 | once any Close is past its wait no thread runs and the peer table is empty, for good; once its last write has succeeded the node is offline, for good |
| `Barrier.OnlyItsOwnRemoval` | gateway/peer.go:202-208 | each step keeps a node's peer or is the removal of that very peer |
| `Barrier.ReplacedOnlyAfterRemoval` | gateway/peer.go:234-252 | over any run a node's peer is replaced only after it was itself taken out, so a late removal never drops its replacement |
| `Barrier.OnlineUntilClosed` | gateway/peer.go:70-90 | in every reachable state a gateway with a node id is online in the database unless some Close has written that it is not; one without has no row |
| `Barrier.NeverItsOwnPeer` | gateway/peer.go:108-121 | in no reachable state has a gateway dialed itself or is its own peer |
| `Rounds.UpUntilClosed` | gateway/peer.go:191-194 | in every reachable state before a Close the heartbeat runs, the peer loop does if there is a node id, and no watcher has closed a peer |
| `Rounds.DialsOnlyUnknown` | gateway/peer.go:108-121 | over any run, whatever is dialed was found when it had no peer and was not the gateway itself |
| `Rounds.RegistersFirst` | gateway/peer.go:188-201 | over any run, every discovery but the first follows a registration in the same round |
| `Rounds.FirstIsFirst` | gateway/peer.go:188-190 | over any run, only the discovery before the first registration is not followed by pings |
| `Rounds.EveryPeerIsPinged` | gateway/peer.go:202-210 | over any run, a round pings every peer that was in the table when it listed them; one that does not answer is out of the table at once and closed by the end of the round |
| `Rounds.ClosesWhatItSaw` | gateway/gateway.go:144-146 | over any run, every peer that a Close found in the table is closed or still on its list |
| `Closure.NoneLingers` | gateway/peer.go:202-208 | in every reachable state an established peer connection is in the table, closed, or being evicted |
| `Closure.AllClosedAfterTheWait` | gateway/peer.go:142-172 | once any Close is past its wait, every peer connection that was ever dialed is closed |
| `Drain.CloseCanFinish` | gateway/peer.go:148-172 | from every reachable state after Close began, all threads can return without a connection being lost or a timer firing, also for peers added after Close looked |
| `Drain.RetireAdded` | gateway/peer.go:152-172 | a peer added late gets a watcher that closes it, so its thread returns |
| `Logins.DecisionsAreRecent` | auth/auth.go:91-134 | in every interleaving each decision uses flags the row held at most 60 s plus write-to-store time earlier |
| `Logins.DecisionsWereRight` | auth/auth.go:175-215 | each decision rejects if and only if the row was disabled, and grants administrator rights if and only if it had them, at one moment of that window |
| `Logins.CacheIsBounded` | auth/auth.go:106-127 | the flag cache never exceeds 4096 entries |
| `Logins.DisabledKeepsPresence` | db/users.go:172-184 | over any run, logins leave the presence of a disabled row alone |
| `Logins.BackgroundMeansAccepted` | auth/auth.go:186-206 | every background write belongs to a login that was accepted, so a rejection never writes |
| `Logins.WritesUnlessRejected` | auth/auth.go:175-206 | a login starts a write if and only if the cache does not reject it, in the background if and only if the cache accepts it |
| `Logins.RevokeIsExact` | auth/auth.go:129-134 | after a revocation the next login can be decided from the cache if and only if a login write was in flight |
| `Logins.Authenticator.Authenticate` | auth/auth.go:171-215 | cached flags decide without the database and start a write only if they accept; otherwise the written row decides; a disabled account is rejected, an administrator's accepted as such; a failed statement rejects and changes nothing |
| `Logins.Authenticator.RecordLogin` | auth/auth.go:191-206 | the background write stores the written row's flags, or changes nothing if it fails |
| `Ids.SortDescending` | db/migration.go:56-56 | the same ids, each one after all that come before it in the order of strings |
| `Ids.LessMeaning` | db/migrations/migrations.go:75-75 | the order of ids is that of strings: a proper prefix comes first, and otherwise the first character that differs decides |
| `Ids.DescendingIsUnique` | db/migration.go:56-56 | there is one descending order of a set of ids |
| `Migrations.PlanIsUnique` | db/migration.go:42-103 | a binary and the recorded ids determine the run's transactions |
| `Migrations.RestIsPlan` | db/migration.go:57-103 | what is left after a transaction is the plan of a new run |
| `Migrations.Restart` | db/migration.go:57-103 | stopping after any transaction and running again reaches the records and schema of an uninterrupted run; a finished run leaves exactly the binary's ids and a further run does nothing |
| `Migrations.StepKeepsStack` | db/migration.go:57-103 | every transaction pops the newest or pushes a newer migration, and reverts never fail |
| `Migrations.StackInvariant` | db/migration.go:42-103 | over any history of finished and interrupted runs of any binaries, the schema is the recorded migrations applied in ascending order |
| `Migrator.Store.Transact` | db/migration.go:63-100 | a transaction changes schema and records together or not at all, and it commits if and only if its script and its statements succeed |
| `Migrator.Store.UnknownIds` | db/migration.go:42-56 | exactly the recorded ids the binary does not know, newest first |
| `Migrator.Store.RevertAll` | db/migration.go:57-76 | reverts in order, each with a reverse script, up to the first failure or missing reverse script |
| `Migrator.Store.AdvanceAll` | db/migration.go:78-103 | applies what is missing in order up to the first failure |
| `Migrator.Store.Migrate` | db/migration.go:27-105 | the database is the old one after the first transactions of the only plan, all of them if and only if the run is done; none of them had a reason to stop, and the next one failed or has no reverse script; unreadable records change nothing |
| `MigrationFiles.TrimIsPiece` | db/migrations/migrations.go:47-57 | a trimmed script is a piece of the script with only white space before and after it |
| `MigrationFiles.Trim` | db/migrations/migrations.go:47-57 | no white space at either end; empty exactly for a blank script |
| `MigrationFiles.IdOf` | db/migrations/migrations.go:40-57 | a file belongs to a migration if and only if it is no directory and has the suffix of that half and not of the other, and its name is the id with the suffix |
| `MigrationFiles.Collect` | db/migrations/migrations.go:37-58 | both maps hold exactly the scripts in the directory |
| `MigrationFiles.LoadMigrations` | db/migrations/migrations.go:31-86 | succeeds if and only if every script has its other half, and then yields one migration per id with both scripts in ascending order |
| `MigrationFiles.ReverseOfReverse` | db/migrations/migrations.go:51-57 | an id that ends in ".reverse" can never be loaded |
| `MigrationOrder.OrderIsExact` | db/migration.go:48-103 | on a schema that remembers the order of its migrations, a run ends in ascending order if and only if everything that differs sorts after everything shared |
| `Socks.GreetingIsRead` | util/socks/socks.go:52-76 | a greeting is consumed exactly and accepted if and only if it offers no authentication |
| `Socks.OnlyGreetingsAreAccepted` | util/socks/socks.go:52-76 | nothing but such a greeting is accepted |
| `Socks.RequestIsRead` | util/socks/socks.go:81-131 | a request is consumed exactly; CONNECT yields the host and port, anything else is answered and refused |
| `Socks.RequestLayout` | util/socks/socks.go:81-131 | a request has the layout of section 4 of RFC 1928: version 5, address types 1, 3 and 4, the port in network order |
| `Socks.OnlyRequestsAreAccepted` | util/socks/socks.go:81-131 | nothing but a CONNECT request is accepted |
| `Socks.CutRequest` | util/socks/socks.go:81-131 | a request that breaks off anywhere fails as the end of the stream |
| `Socks.HandshakeIsExact` | gateway/socks.go:24-33 | the handshake yields a target and leaves some bytes if and only if the stream is a greeting, a CONNECT request for that target and those bytes |
| `Socks.Connection.ReadFull` | util/socks/socks.go:53-64 | the next bytes, or the end of the stream with the rest used up |
| `Socks.Connection.Authenticate` | util/socks/socks.go:52-76 | consumes, answers and decides as specified; a failed write fails the negotiation |
| `Socks.Connection.ParseRequest` | util/socks/socks.go:81-131 | consumes, answers and decides as specified |
| `Socks.ReplyIsReadable` | util/socks/socks.go:134-147 | a reply has the layout of section 6 of RFC 1928: a reader finds the version, the code and an all-zero IPv4 address and port, and nothing is left over |
| `Socks.Connection.Accept` | gateway/socks.go:24-33 | yields what the client asked for and leaves exactly the trailing bytes for the tunnel |

## Left out

- A heartbeat statement that timed out either has taken effect or never will; one that takes effect after the loop gave up on it is not modelled.
- Ownership.OwnershipTheorem: a clean shutdown is one step, taken when nothing is in progress at the node; the way there is modelled on its own in the shutdown part.
- Liveness.OnTimeIsLive: registrations succeed, as the margin is stated for; a node whose registrations fail counts as dead when its last one is 90 s old.
- Timing.OnlineMargin: timers are exact, heartbeat statements succeed and logins are decided by their own write, as in the limits the margin is stated for.
- Barrier.ShutdownBarrier: closing the user connections, which comes before the wait, is not part of the thread model; neither are other processes that register the same node id.
- Drain.CloseCanFinish: says that the threads can return, not that the scheduler lets them; a loop that keeps being woken by its timer may go on.
- Migrator.Store.Migrate: several nodes migrating at once are not modelled, the code takes no lock around the procedure; the time a migration was applied is not recorded.
- Termination of a connection's `close` called from one of its own sessions.
- SSH transport, certificate checking and channel copying: a certificate check is a parameter.
- Tunnel bookkeeping of a connection (`gateway/tunnel.go`), usage counters and status output.
- IP address, location, status and screenshot columns of a user.
- The HTTP API and proxy, the command line, the terminal shell, logging and the release scripts.
