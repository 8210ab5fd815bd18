# OPC UA client: a verified model

This project models the parts of the OPC UA client extension that decide what data is seen, and proves what they
promise. It follows the program's structure, one module per component.

| module | what it models |
|---|---|
| `Delivery` | the Publish callback and gap recovery by Republish (`client.py`) |
| `Sessions` | detaching, resuming, closing and creating sessions (`client.py`) |
| `Transports` | subscribing in chunks, polling what is refused, recreating, falling back to polling (`client.py`) |
| `Connection` | connecting and reconnecting over the two above, under any cut (`client.py`) |
| `Paging` | the simulator's Browse and BrowseNext with capped continuation points (`sim_server.py`) |
| `Browsing` | the client's half of paging (`discovery.py`) |
| `Filters`, `Walk` | glob filters and the pruned breadth-first walk (`discovery.py`) |
| `DataTypes`, `Describe` | type resolution, chunked reads and the batched description of Variables (`discovery.py`) |
| `StaleQueue`, `Staleness`, `Periods` | the staleness queue, its sweep and the sweep's timing (`client.py`) |
| `Scheduler` | the job loop and the spreading of chunks over an interval (`client.py`) |
| `Rows` | row assembly from samples (`client.py`) |
| `Schema` | declared schemas and rotation on a shared trace source (`client.py`) |
| `NodeIds` | node id strings (`node_map.py`, `discovery.py`, `client.py`) |
| `Services`, `Chunking` | the three service outcomes; splitting lists into requests |

Where the source updates fields or loops, the model is a class or a method with the same steps, proved against a
function or predicate of the state; properties over whole runs are lemmas about those. The server is an adversary:
every request may succeed, be refused with a status code, or die with the link (`Services.Outcome`), and a request
that fails may have been carried out. Where OPC 10000-4 (Part 4) fixes the rules, sections 5.6.3 and 6.7 (sessions),
5.8.2, 5.8.3 and 7.6 (continuation points), and 5.13.5 and 5.13.6 (Publish, Republish) are followed as the source does.

Read first: `Delivery.PublishMeans`, `Delivery.NoSilentLoss` and `Delivery.FullRecovery`; `Connection.AnyRun` and
`Connection.Client.EnsureConnected`; `Transports.RecreatedCovers`; `Browsing.BrowseBatch`; `Filters.MatchIff`,
`Walk.AlikeFilterExact` and `Walk.ShortestDecides`; `Describe.Describe` with `Describe.Means`;
`Staleness.WithinAQuarterIff` and `Staleness.PromiseIffTracked`; `Scheduler.EveryJobRuns` and `Scheduler.RunsAsOften`;
`Rows.RowIsNewest`, `Rows.LastIsNewest` and `Rows.OrderIndependent`; `Schema.LoggedIsDeclared`; `NodeIds.RoundTripIff`.

## Where the code and its comments part

The model follows the code. For each of these a member gives an input and another says exactly when it happens.

- The comment at client.py:98-100 promises a refresh within a quarter more than the staleness period. With sweeps on
  time and the server answering in order that holds exactly when one Read takes all the monitored items
  (`Staleness.WithinAQuarterIff`, and `Staleness.TwoOverAQuarter` for the least case that fails); twice the period then
  always holds (`Staleness.AlwaysWithinTwice`).
- The sweep looks up every item it takes in `_monitored` (client.py:2032). An item that the server published before
  refusing it stays queued and unmonitored (client.py:1756), so once it is due at the front the lookup fails, nothing
  is re-read and nothing moves, sweep after sweep, until the connection is set up anew
  (`Staleness.RefusedStopsSweeps`). Over any run the queue names monitored items only exactly when the server refuses
  no item it has published and accepts none unregistered (`Staleness.TrackedIffOrderly`). With the sweep set for all
  monitored items, the promise of twice the period is kept from a state exactly when the queue names monitored items
  only (`Staleness.PromiseIffTracked`); it is broken at that input (`Staleness.RefusedBreaksPromise`).
- discovery.py:400-405 says a node filtered out on one path is still taken on another. A node merely browsed on one
  path is marked visited at discovery.py:452 and never taken on another (`Walk.SharedIsMissed`). On any graph whose
  other nodes have the same worth browsing below them on all their paths, what decides is the shortest open paths:
  a Variable that the filter wants is lost exactly when none of them is traced (`Walk.ShortestDecides`,
  `Walk.LostIff`). The filter is exact for every Variable traced alike on its paths (`Walk.AlikeFilterExact`), so for
  all of them on trees (`Walk.TreeAlike`, `Walk.TreeFilterExact`).
- The NamespaceArray comparison at client.py:1306-1319 is forgotten by a connect cut while it reads the array, or
  after it: targets resolved under the old array are then kept (`Connection.CutReadKeepsStale`). A resumed session keeps
  stale targets only when a connect since the rebuild got past opening and the last that did remembered no array or
  the present one; a connect that is not cut and discovers the same nodes then does keep them
  (`Connection.Client.EnsureConnected`, by `Connection.Forgotten`).
- A number below `expected` resyncs without a stall (client.py:1867-1872), so a renumbered stream whose first
  messages are lost hides that loss (`Delivery.RenumberingHidesLoss`). The numbering in force is accounted for from 1
  exactly when no message of the run was below the number expected or the last that was bore number 1
  (`Delivery.WholeNumberingIff`).
- When a server gives a recreated subscription the id of the deleted one, the client no longer keeps it, since
  `_recreate` removes that id last (client.py:1954): its messages still arrive on this connection, but its gaps are
  not recovered, its silence is not watched, and a resumed session does not deliver it again
  (`Transports.ReusedIdLoses`). A recreation keeps what was covered exactly when the ids differ or the old
  subscription's targets are polled as well (`Transports.RecreatedCovers`, `Connection.Client.Recreate`). It says ready
  all the same; the next rebuild covers everything again.
- An emptied subscription whose deletion fails stays with its whole item list (client.py:1761-1766), its targets
  polled and kept in it (`Transports.LeftoverDoubles`). Every target is on exactly one side exactly when there is no
  such subscription (`Transports.OneSideIff`).
- A CreateSession whose reply is lost leaves a session that the client never knew of (`Sessions.LostReply`). It is one
  of the outcomes that lose a session, exactly those counted in `losses` (`Sessions.Sessions.Create`,
  `Sessions.Sessions.Discard`); `Sessions.AtMostOne` is the bound by them.
- A session given up because it may be what fails can be resumed after all: `_fresh` is cleared before the new client
  is made (client.py:1389-1391), so an attempt that comes to no client just after leaves the session to be kept by the
  next (`Connection.AbandonedIsResumed`). On a channel that opens, a session given up is resumed exactly when that has
  happened to it since (`slipped` in `Connection.Client.EnsureConnected`).
- A namespace with an empty URI prints as an id that does not parse, and one with a repeated URI resolves to its first
  index (`NodeIds.NotReadBack`). Reading back what was printed gives the same NodeId exactly otherwise, for identifiers
  of one line (`NodeIds.RoundTripIff`).

## Model

| member | source | states |
|---|---|---|
| `Delivery.Subscription.OnPublish` | zelos_extension_opcua/client.py:1860-1876 | One Publish response takes the subscription exactly to `Publish` of its state: number 0 ignored, a lower number resyncs, a gap recovered before the message is delivered, a cut link leaving `expected` on the number it died on and the message undelivered |
| `Delivery.Subscription.RepublishGap` | zelos_extension_opcua/client.py:1880-1930 | The gap loop does what `Recover` says: at most ten requests, only for held numbers, in order, stopping at the first answer that is not the number asked for; says whether the gap is closed, and stalls on any number neither returned nor left for later |
| `Delivery.Recover` | zelos_extension_opcua/client.py:1896-1930 | What comes back is increasing and inside the gap; a number is lost exactly when it is below where the link died and did not come back |
| `Delivery.RecoverMeans` | zelos_extension_opcua/client.py:1896-1930 | A number comes back exactly when it is missed and held, less than a round of held numbers is missed below it, and it and those are answered with their own numbers; the end is the number asked for on which the link goes, if it does |
| `Delivery.Asked` | zelos_extension_opcua/client.py:1896-1899 | In ascending order, each missed number that the server holds is asked for unless `MAX_REPUBLISH` such numbers are below it, and no other |
| `Delivery.AnyLost` | zelos_extension_opcua/client.py:1920-1922 | True exactly when some number of the range is not among those returned |
| `Delivery.PublishAccounts` | zelos_extension_opcua/client.py:1860-1930 | One response keeps the accounting invariant, gap or none, cut or not, renumbered or not |
| `Delivery.PublishMeans` | zelos_extension_opcua/client.py:1860-1930 | What one response does, number by number: which missed numbers reach the sampler and are queued for acknowledgement, when its own is delivered, the next number expected, and stalled exactly if it was or a number was skipped for good |
| `Delivery.ResyncMeans` | zelos_extension_opcua/client.py:1867-1872 | A response below the number expected starts the numbering over at its own; number 0 changes nothing |
| `Delivery.NoSilentLoss` | zelos_extension_opcua/client.py:1860-1930 | Over any run against any server: every number below `expected` was delivered or the subscription is stalled, and every queued acknowledgement names a delivered message |
| `Delivery.NewSubAccounted` | zelos_extension_opcua/client.py:752-760 | A new subscription satisfies the accounting invariant |
| `Delivery.WholeNumberingIff` | zelos_extension_opcua/client.py:1867-1876 | Over any run of a new subscription that does not stall: every number from 1 of the numbering in force was delivered exactly when no message was below the number expected, or the last that was bore number 1 |
| `Delivery.FirstIsResynced` | zelos_extension_opcua/client.py:1867-1872 | Where accounting starts is the number the last message below the one expected bore |
| `Delivery.RenumberingHidesLoss` | zelos_extension_opcua/client.py:1871-1872 | The input that shows it: a renumbered server whose message 1 is lost is resynced by message 2 with no stall |
| `Delivery.ExactlyOnceInOrder` | zelos_extension_opcua/client.py:1867-1876 | With numbers never below `expected`, what is delivered is strictly increasing over any run, direct and Republished alike |
| `Delivery.PublishInOrder` | zelos_extension_opcua/client.py:1860-1930 | The step of that: one response keeps what is delivered increasing and below `expected` |
| `Delivery.HeldGap` | zelos_extension_opcua/client.py:1896-1930 | A gap within one round whose numbers are all held is recovered from its start up to where the link goes, nothing lost |
| `Delivery.MoveRecovers` | zelos_extension_opcua/client.py:1865-1876 | Each step against a server keeping unacknowledged messages keeps delivered == 1 .. expected - 1, in order and once, and recovers everything sent when no link goes |
| `Delivery.FullRecovery` | zelos_extension_opcua/client.py:1865-1930 | So over any number of losses, cuts and resumes: delivered is exactly 1 .. expected - 1 and nothing stalls |
| `Delivery.NewSystemRecovering` | zelos_extension_opcua/client.py:752-760 | The fresh subscription and server are where that starts |
| `Delivery.StallsIffGapTooLong` | zelos_extension_opcua/client.py:84-90 | With every missed number held and answered, the subscription stalls exactly when the gap exceeds `MAX_REPUBLISH` |
| `Sessions.Sessions.Detach` | zelos_extension_opcua/client.py:1395-1419 | Ends a connection so that no session is lost track of: the session stays, is closed exactly if it is not to be kept and its channel carries the request, or is remembered as detached with `keep` |
| `Sessions.Sessions.Resume` | zelos_extension_opcua/client.py:1432-1464 | Activates the detached session: resumed exactly if it was to be kept, the activation is good and the server still holds it; kept for later exactly when it was to be kept and the channel failed; otherwise closed or given up, and a new session due |
| `Sessions.Sessions.Discard` | zelos_extension_opcua/client.py:1451-1463 | A session that is not resumed is closed, or given up and counted as a loss |
| `Sessions.Sessions.Create` | zelos_extension_opcua/client.py:1301-1303 | CreateSession and its activation: a reply lost with the link leaves a session nobody tracks, counted as a loss; a failed activation one that is tracked |
| `Sessions.AtMostOne` | zelos_extension_opcua/client.py:1385-1466 | The server holds at most one session, plus one per refused or failed activation, failed close or lost creation |
| `Sessions.LostReply` | zelos_extension_opcua/client.py:1301-1303 | The bound is met: a lost CreateSession reply, and the next session beside the one nobody tracks |
| `Connection.Client.EnsureConnected` | zelos_extension_opcua/client.py:1385-1393 | A connect that nothing cuts or refuses ends with the subscriptions kept or rebuilt, connected while the link holds. Kept exactly on the resumed session of a complete setup with the same NamespaceArray and the same nodes; rebuilt, every target is covered under the array in force. Stale targets are kept only under `Forgotten`, and on a connect that is not cut and discovers the same nodes exactly then; a session given up is resumed exactly if an attempt without a client left it in place. Sessions are lost only by the counted outcomes |
| `Connection.Client.HangUp` | zelos_extension_opcua/client.py:1389-1391 | The old connection ends with its session kept unless it was given up; one given up slips exactly when no client is made and its token is still held |
| `Connection.Client.Connect` | zelos_extension_opcua/client.py:1291-1351 | The same from the end of the old connection on: kept exactly if resumed, set up and the same; rebuilt with every resolved target covered; not connected only if something was cut or refused |
| `Connection.Client.Open` | zelos_extension_opcua/client.py:1300-1316 | A new channel resumes the detached session exactly if it is to be kept and held, else ends on a new one with `ready` cleared, or fails |
| `Connection.Client.Examine` | zelos_extension_opcua/client.py:1306-1324 | What a connect on a resumed session reads, remembers of the array and rebuilds for is what `Examined` says, wherever it is cut |
| `Connection.Client.Rebuild` | zelos_extension_opcua/client.py:1328-1336 | `ready` exactly when the whole setup went through, whatever await was cut, and it goes through when none was |
| `Connection.Client.Setup` | zelos_extension_opcua/client.py:1330-1335 | A completed setup covers every resolved target, every carrying subscription delivers to this client, and targets named by URI are resolved under the array in force |
| `Connection.Client.Recreate` | zelos_extension_opcua/client.py:1942-1967 | A recreation that ends ready keeps what was covered exactly when the new id differs from the deleted one or its targets are polled as well; refused, the next connect must not resume; cut, the client is disconnected and not ready |
| `Connection.Client.PollChunk` | zelos_extension_opcua/client.py:2009-2012 | Reading a polled chunk keeps what is polled or dropped as undecodable the same; only a lost link disconnects |
| `Connection.Client.PublishUndecodable` | zelos_extension_opcua/client.py:1796-1824 | After a Publish that did not decode, every target is polled and no subscription is left |
| `Connection.Client.LoseLink` | zelos_extension_opcua/client.py:2242-2247 | A lost link leaves everything but `connected` as it was |
| `Connection.Client.Abandon` | zelos_extension_opcua/client.py:2255-2261 | After failures in a row the session is given up, to be dropped by the next connect |
| `Connection.AnyRun` | zelos_extension_opcua/client.py:1291-1480 | Any run of connects, losses, recreations, polls, undecodable Publishes, expiries and renamed arrays keeps the client valid; ready, every target is covered exactly unless a recreation since the last rebuild was given the id it deleted; live sessions are at most one more than the losses |
| `Connection.ReadySides` | zelos_extension_opcua/client.py:1329-1336 | Ready, no target is both kept in a subscription and polled exactly when none is doubled; then, unclobbered, the live subscriptions hold exactly the targets not polled |
| `Connection.CutReadKeepsStale` | zelos_extension_opcua/client.py:1306-1319 | The run that shows the check forgotten: a connected client, a changed array, one connect cut while it reads it, and the next keeps the stale targets |
| `Connection.AbandonedIsResumed` | zelos_extension_opcua/client.py:1389-1391 | The run that shows a session given up resumed: the link dead, one attempt that comes to no client, and the next connect |
| `Transports.Transport.Subscribe` | zelos_extension_opcua/client.py:1662-1774 | One subscription for a list of targets: raised only if the link went; else each target is accepted on it or refused, every one asked for unless the server said it takes no more, and an emptied subscription is gone or left over with its items |
| `Transports.Transport.Populate` | zelos_extension_opcua/client.py:1700-1772 | The same of a created subscription filled chunk by chunk, and its deletion if every item was refused |
| `Transports.Transport.SubscribeItems` | zelos_extension_opcua/client.py:1713-1760 | Accepted and refused split the items across chunks of at most the server's limit; every chunk is asked for until the server says it takes no more |
| `Transports.Transport.SubscribeChunk` | zelos_extension_opcua/client.py:1714-1760 | One CreateMonitoredItems: monitored gains exactly what was accepted |
| `Transports.Transport.StartTransport` | zelos_extension_opcua/client.py:1604-1660 | Raised only if the link went. Else every target is covered and delivered, whatever was before and whatever ids the server gives; asked for are exactly the targets not to be polled anyway, unless the server said it takes no more; after a Publish that did not decode everything is polled |
| `Transports.Transport.StartGroups` | zelos_extension_opcua/client.py:1629-1643 | Interval by interval, the targets so far are covered |
| `Transports.Transport.StartGroup` | zelos_extension_opcua/client.py:1629-1643 | One interval adds all its targets to what is subscribed or polled |
| `Transports.Transport.Split` | zelos_extension_opcua/client.py:1630-1637 | Polled without asking: everything under transport poll, else the BaseDataType nodes; disjoint from the rest |
| `Transports.Transport.Schedule` | zelos_extension_opcua/client.py:1657-1660 | The polled chunks, none empty or over the read limit, hold exactly the polled targets; with a Publish that failed to decode meanwhile, every target |
| `Transports.Transport.PollEverything` | zelos_extension_opcua/client.py:1804-1824 | Nothing while subscribing or with nothing monitored; else no subscription, nothing monitored, every target polled |
| `Transports.Transport.Replace` | zelos_extension_opcua/client.py:1942-1967 | A recreated subscription, nothing refused, keeps what was covered exactly when the new id differs from the deleted one or its targets are polled as well |
| `Transports.Transport.PollChunk` | zelos_extension_opcua/client.py:2050-2070 | Undecodable targets leave their chunk and only they |
| `Transports.Transport.NewClient` | zelos_extension_opcua/client.py:1826-1831 | A new client delivers nothing yet; what is covered stays covered |
| `Transports.Transport.Rebind` | zelos_extension_opcua/client.py:1468-1479 | Every kept subscription delivers through the new client |
| `Transports.Transport.Resolve` | zelos_extension_opcua/client.py:1330-1332 | The targets are replaced; the old subscriptions, and they only, deliver nothing more and are deleted as far as the server carries it out |
| `Transports.Transport.DeleteSubscriptions` | zelos_extension_opcua/client.py:1969-1978 | Their messages are no longer delivered; others are untouched whatever the outcome |
| `Transports.Transport.CreateSubscription` | zelos_extension_opcua/client.py:1691-1697 | A created subscription has an id the server does not hold, possibly one it used before |
| `Transports.Transport.CreateMonitoredItems` | zelos_extension_opcua/client.py:1741-1750 | The server accepts any part of a chunk, or none with a status code |
| `Transports.SubscribedCovers` | zelos_extension_opcua/client.py:1662-1774 | Subscribing new targets puts each of them in a subscription or among the polled and leaves the others where they were, whatever id the server gives |
| `Transports.RecreatedCovers` | zelos_extension_opcua/client.py:1942-1967 | Deleting a subscription and subscribing its items again, nothing refused, keeps coverage exactly when the new id is another or its targets are polled as well |
| `Transports.ReusedIdLoses` | zelos_extension_opcua/client.py:1942-1967 | The input that shows it: the id just deleted given again, and the client keeps no subscription for its target, though messages still arrive |
| `Transports.OneSideIff` | zelos_extension_opcua/client.py:1761-1766 | No target is both kept in a subscription and polled exactly when no emptied subscription was left over |
| `Transports.LeftoverDoubles` | zelos_extension_opcua/client.py:1761-1766 | The input that shows one: every item refused and the deletion failed |
| `Transports.PolledCovers` | zelos_extension_opcua/client.py:1804-1824 | With no subscription and everything polled, everything is covered |
| `Transports.CallbacksAside` | zelos_extension_opcua/client.py:1468-1479 | Which handlers a client has does not change what is covered |
| `Paging.Server.Serve` | zelos_extension_opcua/demo/sim_server.py:302-315 | A page and what its continuation point holds make up the references; a point exactly when more are left, on a page of exactly the cap; refused only at the point cap, with nothing changed |
| `Paging.Server.Browse` | zelos_extension_opcua/demo/sim_server.py:262-283 | Every node's first page; the points held are exactly those handed out; none refused with room for all |
| `Paging.Server.BrowseNode` | zelos_extension_opcua/demo/sim_server.py:278-280 | One more page keeps that |
| `Paging.Server.BrowseNext` | zelos_extension_opcua/demo/sim_server.py:284-300 | Every point asked for is given up for its next page, which is never empty and never refused |
| `Paging.Server.NextPage` | zelos_extension_opcua/demo/sim_server.py:286-292 | One point's page |
| `Paging.HoldsMore` | zelos_extension_opcua/demo/sim_server.py:302-315 | Serving a page leaves every other point's pages untouched |
| `Browsing.BrowseBatch` | zelos_extension_opcua/discovery.py:331-393 | Against that server: every node's complete references in order, failed exactly the unknown nodes, no continuation point left held, for every reference cap and point cap |
| `Browsing.Follow` | zelos_extension_opcua/discovery.py:361-388 | BrowseNext until nothing is pending terminates, with nothing held |
| `Browsing.Round` | zelos_extension_opcua/discovery.py:375-388 | Each round adds at least one reference and keeps every node's references plus what is held complete |
| `Browsing.Sort` | zelos_extension_opcua/discovery.py:366-374 | First pages sorted into failed, refused a point, or pending, and the pending points are exactly those held |
| `Browsing.SortPage` | zelos_extension_opcua/discovery.py:366-374 | One page changes what is known of its own node only |
| `Browsing.Collect` | zelos_extension_opcua/discovery.py:380-388 | Pages handed to their nodes by position; the new points are exactly those of the pages |
| `Filters.MatchSplits` | zelos_extension_opcua/discovery.py:205-211 | A match of a concatenated pattern is a split of the path |
| `Filters.MatchIff` | zelos_extension_opcua/discovery.py:205-211 | What a match means: the path cut into what each segment takes, a glob one name it fits, `**` any number of names, none included |
| `Filters.NoneIncluded` | zelos_extension_opcua/discovery.py:205-211 | So `**/Temp` matches `Temp` and `Plant/**` matches `Plant` |
| `Filters.MatchBelow` | zelos_extension_opcua/discovery.py:205-218 | A pattern that matches a path below a branch keeps that branch worth browsing |
| `Filters.BelowIff` | zelos_extension_opcua/discovery.py:214-218 | Pruning is exact: worth browsing exactly when something at or below can match, every glob fitting some name |
| `Filters.SomeMatch` | zelos_extension_opcua/discovery.py:205-211 | Such a pattern matches some path |
| `Filters.IncludedBelow` | zelos_extension_opcua/discovery.py:254-258 | An included branch takes its whole subtree |
| `Filters.ExcludedIff` | zelos_extension_opcua/discovery.py:251-252 | Excluded exactly when an exclude matches the path whole, in those terms |
| `Filters.IncludedIff` | zelos_extension_opcua/discovery.py:254-258 | Included exactly without includes, or when one matches the path or a branch above it |
| `Filters.ReachableIff` | zelos_extension_opcua/discovery.py:260-262 | Worth browsing exactly without includes, or when one can match there or below, every glob fitting some name |
| `Filters.IncludedAbove` | zelos_extension_opcua/discovery.py:254-262 | Every branch above an included path is included or worth browsing |
| `Walk.BreadthFirst` | zelos_extension_opcua/discovery.py:396-459 | The chunked, paged, level-by-level walk finds exactly what the queue exploration finds, whatever the chunk size and the server's caps, and holds no continuation point after |
| `Walk.TakeLevel` | zelos_extension_opcua/discovery.py:418-458 | One level does as many exploration steps as it has nodes |
| `Walk.TakeRefs` | zelos_extension_opcua/discovery.py:426-457 | One node's references are taken in order: visited, found and next level together |
| `Walk.GrowAllTakes` | zelos_extension_opcua/discovery.py:426-457 | Of one node's references, those taken are in their order, and of several to one node the first worth browsing, under its own name and class |
| `Walk.TakenExplored` | zelos_extension_opcua/discovery.py:411-459 | Everything taken has a real path, once per node, and nothing worth browsing next to it was missed |
| `Walk.FoundIsReal` | zelos_extension_opcua/discovery.py:443-457 | On any graph a found Variable has a real path, included, with no excluded branch |
| `Walk.FoundOnce` | zelos_extension_opcua/discovery.py:438-452 | No node is found twice |
| `Walk.UnfilteredIsReachability` | zelos_extension_opcua/discovery.py:411-459 | Without a filter, found are exactly the reachable Variables, cycles and shared children included |
| `Walk.TreeTaken` | zelos_extension_opcua/discovery.py:443-457 | On a tree every branch above an included, unexcluded path is taken |
| `Walk.TreeFilterExact` | zelos_extension_opcua/discovery.py:205-262 | On a tree pruning loses nothing: found exactly the Variables whose path is included with no excluded prefix |
| `Walk.TreeFilterMeans` | zelos_extension_opcua/discovery.py:205-262 | The same of the traced names: found exactly when no exclude matches a branch of the path and an include matches it or a branch above it |
| `Walk.TracesMeans` | zelos_extension_opcua/discovery.py:443-447 | Traced: no exclude matches the names as traced, and an include does, or a branch above them |
| `Walk.BrowsesMeans` | zelos_extension_opcua/discovery.py:443-451 | Browsed into: not excluded, and traced or with something to trace at or below |
| `Walk.SharedIsMissed` | zelos_extension_opcua/discovery.py:400-405 | The input that shows the docstring's `still taken on another` does not hold: a Variable browsed on one path is never looked at on its traced one |
| `Walk.ShortestDecides` | zelos_extension_opcua/discovery.py:411-459 | On any graph whose other nodes are browsed alike on all their paths, a Variable is found exactly when its shortest open paths are traced |
| `Walk.LostIff` | zelos_extension_opcua/discovery.py:400-405 | So one that the filter wants is lost exactly when no shortest open path to it is traced |
| `Walk.AlikeFilterExact` | zelos_extension_opcua/discovery.py:400-405 | With every node browsed alike on its paths, cycles and shared children included, a Variable traced alike is found exactly when some path to it is included with no excluded branch |
| `Walk.TreeAlike` | zelos_extension_opcua/discovery.py:205-262 | On a tree every node is |
| `Walk.TakenLayered` | zelos_extension_opcua/discovery.py:411-459 | What is taken is in order of distance, each entry's references no further than one step past it |
| `DataTypes.IntegerSubtypes` | zelos_extension_opcua/discovery.py:481-502 | Level by level for all types at once gives what each type gives alone |
| `DataTypes.Level` | zelos_extension_opcua/discovery.py:489-497 | One level moves each unfinished type to its parent and drops those without |
| `DataTypes.Supertypes` | zelos_extension_opcua/discovery.py:301-320 | One parent per type, in order, for every chunk size |
| `DataTypes.ClimbIff` | zelos_extension_opcua/discovery.py:487-497 | Climbing in rounds ends on a type exactly when that is the first builtin or abstract one up the chain within the depth |
| `DataTypes.IntegersIff` | zelos_extension_opcua/discovery.py:481-502 | A type is an integer exactly when that first stop is one, for any hierarchy, sharing and cycles included |
| `Describe.ReadMany` | zelos_extension_opcua/discovery.py:166-189 | One result per item in order for every chunk size; BadDecodingError exactly for the items that do not decode alone |
| `Describe.Read` | zelos_extension_opcua/discovery.py:192-202 | One Read fails exactly when some item does not decode |
| `Describe.Describe` | zelos_extension_opcua/discovery.py:505-570 | Each Variable comes out as if described by itself, and that is, by `Tells` and `Means`, what the server holds of it: a row in order or one count of its reason; the variants are exactly the traced BaseDataType ones |
| `Describe.DescribedMeans` | zelos_extension_opcua/discovery.py:505-612 | One Variable, from the values the server holds alone: why it is left out, reason by reason, or its datatype by name, its own unit, description and range |
| `Describe.MeansOnce` | zelos_extension_opcua/discovery.py:505-612 | And it is nothing else: two outcomes that say so of one Variable are the same |
| `Describe.DeclaredMeans` | zelos_extension_opcua/discovery.py:573-582 | A DataType fixes the field's exactly if it is a concrete builtin, an abstract number, or a vendor type whose first standard supertype within the depth is an integer; each by its name |
| `Describe.ValueMeans` | zelos_extension_opcua/discovery.py:585-612 | A value looked at gives the type its kind gives, or the reason it gives none |
| `Describe.RowsInOrder` | zelos_extension_opcua/discovery.py:555-569 | The rows are exactly those of the traced Variables, in order |
| `Describe.ReasonsCounted` | zelos_extension_opcua/discovery.py:534-562 | Each reason is counted once per Variable it left out |
| `Describe.Properties` | zelos_extension_opcua/discovery.py:518-532 | Each property value ends up with its own Variable |
| `Describe.Suitable` | zelos_extension_opcua/discovery.py:535-545 | Kept are exactly the Variables whose AccessLevel has the CurrentRead bit, or none is given, and whose rank may be a scalar's; the others are counted |
| `Describe.TypeAll` | zelos_extension_opcua/discovery.py:548-569 | Taking values in turn gives each candidate its own |
| `Describe.TypeOne` | zelos_extension_opcua/discovery.py:556-569 | One candidate, typed as by itself |
| `Describe.SharedSubtypes` | zelos_extension_opcua/discovery.py:546-551 | Resolving all vendor types at once types each as alone |
| `Describe.PickAll` | zelos_extension_opcua/discovery.py:534-569 | Setting the unsuitable aside first changes no row, skip count or variant |
| `Describe.AttributesRead` | zelos_extension_opcua/discovery.py:515-536 | The index arithmetic: a Variable's slice of the results is its own five attributes |
| `Describe.EachCounted` | zelos_extension_opcua/discovery.py:534-569 | Every Variable is a row or a counted skip |
| `Staleness.Sweeper.Confirm` | zelos_extension_opcua/client.py:1751-1760 | An accepted item is stamped now, a refused one no longer monitored; the queue still names monitored items only, exactly unless the refused one was already queued |
| `Staleness.NotedMeans` | zelos_extension_opcua/client.py:1751-1843 | An item accepted, new or recreated, or heard from while monitored, counts as heard from then; no other item is touched |
| `Staleness.Sweeper.BeginSweep` | zelos_extension_opcua/client.py:2019-2031 | The front run is found without a scan, and the lookup fails exactly if an item of it is no longer monitored |
| `Staleness.Sweeper.EndSweep` | zelos_extension_opcua/client.py:2034-2038 | Those still queued count as heard from when the Read is done |
| `Staleness.StaysOrdered` | zelos_extension_opcua/client.py:1753-2038 | The queue stays in last-update order, each item once, under every interleaving of publishes, results, sweeps, failed ones included, recreates and emptying |
| `StaleQueue.FrontRunIsDueSet` | zelos_extension_opcua/client.py:2017-2028 | So the front run is the due set: only silent items, all of them while one Read takes them, else the longest silent |
| `StaleQueue.NotDueAgain` | zelos_extension_opcua/client.py:2019-2028 | An item heard from is not taken by a sweep before it was silent for the period again |
| `Staleness.ReadStamps` | zelos_extension_opcua/client.py:2034-2038 | A sweep stamps exactly the items it read that are still queued, and leaves them queued |
| `Staleness.NothingAfterEmptied` | zelos_extension_opcua/client.py:1817-1843 | With everything moved to polling nothing is queued, whatever is still published |
| `Staleness.SweepAdvances` | zelos_extension_opcua/client.py:2014-2039 | While the queue names monitored items only, a sweep begun with an item due reads it or moves a whole Read's worth of others from before it to behind it |
| `Staleness.ReadInTurn` | zelos_extension_opcua/client.py:2014-2039 | With the server answering in order, an item with fewer than k Reads' worth before it is read by the k-th sweep after it falls due |
| `Staleness.FewerBefore` | zelos_extension_opcua/client.py:1999-2001 | While the queue names monitored items only, fewer come before one of them than the number the sweep is set for |
| `Staleness.Period` | zelos_extension_opcua/client.py:1999-2002 | The sweep period fits four times, and as many times as there are Reads, into the staleness period |
| `Staleness.AlwaysWithinTwice` | zelos_extension_opcua/client.py:1999-2039 | With sweeps on time and no queued item refused, every silent item is re-read within twice the staleness period |
| `Staleness.WithinAQuarterIff` | zelos_extension_opcua/client.py:98-100 | Under the same guard the bound of the comment, a quarter more than the period, holds exactly when one Read takes all the items |
| `Staleness.TwoOverAQuarter` | zelos_extension_opcua/client.py:98-100 | The input that shows it: two items and one per Read, at a period of eight seconds |
| `Staleness.TrackedIffOrderly` | zelos_extension_opcua/client.py:1751-1760 | Over any run the queue names monitored items only exactly when the server refuses no item already queued and accepts none unregistered |
| `Staleness.NeverRead` | zelos_extension_opcua/client.py:2031-2033 | While an item no longer monitored is queued before it, an item is never re-read, however often it is heard from |
| `Staleness.RefusedStopsSweeps` | zelos_extension_opcua/client.py:2031-2033 | The input that shows it: two items published, the first then refused |
| `Staleness.RefusedBreaksPromise` | zelos_extension_opcua/client.py:1999-2039 | From the state it leaves, the sweep set for the one item left, twice the period is not kept |
| `Staleness.PromiseIffTracked` | zelos_extension_opcua/client.py:1999-2039 | From any state with something monitored, the sweep set for at least that many: every item is re-read within twice the period of being heard from exactly when the queue names monitored items only |
| `Scheduler.Loop.RunNext` | zelos_extension_opcua/client.py:2223-2230 | The earliest job, first listed among equals, is run and due again a period after it was due or now, whichever is later; no other moves |
| `Scheduler.Loop.Spread` | zelos_extension_opcua/client.py:1988-1997 | An interval's jobs hold its targets once and in order, a request's worth each, equally far apart within the interval |
| `Scheduler.NoBurst` | zelos_extension_opcua/client.py:2229-2230 | After a run and m more, the next comes m periods after it at the earliest |
| `Scheduler.DueGrows` | zelos_extension_opcua/client.py:2229-2230 | Each run puts a job off by a period at least |
| `Scheduler.PutsOff` | zelos_extension_opcua/client.py:2229-2230 | And by no more than a period from where it was due or run, whichever is later |
| `Scheduler.OnSchedule` | zelos_extension_opcua/client.py:2223-2230 | With a loop that keeps up, each run puts its job off by a period exactly |
| `Scheduler.RunsAsOften` | zelos_extension_opcua/client.py:2223-2230 | So up to any time by which none is due any more, a job ran exactly once when first due and once per period since |
| `Scheduler.NoStarvation` | zelos_extension_opcua/client.py:2223-2230 | Until a job due at d runs, another runs at most floor((d - due) / period) + 1 times |
| `Scheduler.EveryJobRuns` | zelos_extension_opcua/client.py:2223-2230 | So every job runs within as many requests as all those turns together |
| `Rows.Sampler.LogSamples` | zelos_extension_opcua/client.py:2114-2142 | A batch logs one row per declared event and stamp, each carrying by `Carries` every field known by its stamp at its newest value and no other; what is known after is the newest usable sample over what was kept |
| `Rows.Sampler.Collect` | zelos_extension_opcua/client.py:2124-2131 | Bad samples clear their field before any good one is applied; good ones are gathered by event and stamp |
| `Rows.RowAt` | zelos_extension_opcua/client.py:2136-2142 | One row: the sampled fields at its stamp, and each other field exactly if its last value is not from later, at that value; the last values advance unless already newer |
| `Rows.Sampler.Resolve` | zelos_extension_opcua/client.py:1281-1287 | Fields no longer mapped are forgotten, the others kept |
| `Rows.BestIsNewest` | zelos_extension_opcua/client.py:2132-2141 | The kept sample is the one of greatest stamp, the last in the batch among equals |
| `Rows.RowShows` | zelos_extension_opcua/client.py:2137-2141 | A row made stamp by stamp shows what the whole batch up to it makes known |
| `Rows.RowCarries` | zelos_extension_opcua/client.py:2136-2138 | A field is in a row exactly with the newest of its last value, unless Bad in the batch or from after the row, and the batch's usable samples up to the row's stamp |
| `Rows.RowIsNewest` | zelos_extension_opcua/client.py:2114-2142 | Over any run too: a row shows the newest usable sample by its stamp since the field was last Bad or unmapped; a value from after the stamp, logged before, keeps the field out unless it is sampled at the stamp |
| `Rows.NoEarlyValue` | zelos_extension_opcua/client.py:2120-2123 | No row carries a value stamped after it, and what was sampled at its stamp is in it |
| `Rows.LastIsNewest` | zelos_extension_opcua/client.py:2114-2142 | Over any run of batches, mappings and sessions, a field's last value is its greatest-stamped usable sample since it was last Bad or unmapped |
| `Rows.OrderIndependent` | zelos_extension_opcua/client.py:2114-2142 | The order of samples in a batch changes no row and no last value, no field having two values at one stamp |
| `Schema.Shared.Discover` | zelos_extension_opcua/client.py:1205-1249 | One discovery: the declarations, the live source and the client's map are what `Discovered` says, rotating exactly when a declared event has a node of a name not declared |
| `Schema.Shared.DeclareEvents` | zelos_extension_opcua/client.py:1136-1166 | New events declared, fields added to declared ones, nodes of a changed datatype left out |
| `Schema.Shared.DeclareEvent` | zelos_extension_opcua/client.py:1149-1165 | The same of one event |
| `Schema.Shared.Rotate` | zelos_extension_opcua/client.py:1168-1203 | The next segment declares every client's fields |
| `Schema.RedeclaredKeeps` | zelos_extension_opcua/client.py:1152-1165 | One event's declaration stays consistent, keeps every field and datatype, gains exactly the nodes of new names, and traces exactly the nodes with the declared datatypes |
| `Schema.DiscoveryKeeps` | zelos_extension_opcua/client.py:1205-1249 | So does the whole source at each discovery; every node left in the map has its declared datatype |
| `Schema.Evolves` | zelos_extension_opcua/client.py:1136-1249 | Over any run of discoveries by any clients, and of what is logged in between: datatypes never change, fields only grow, every declared field is on the live source |
| `Schema.LoggedIsDeclared` | zelos_extension_opcua/client.py:2132-2142 | Over such a run every field of every row logged is on the live source then: samples of fields unmapped meanwhile included, and the values kept from before |
| `Schema.LastIsDeclared` | zelos_extension_opcua/client.py:1281-1287 | Over such a run every value kept for the next row is of a declared field |
| `NodeIds.UnquoteQuote` | zelos_extension_opcua/node_map.py:123-128 | Escaping and unescaping any URI gives it back, escapes it holds included |
| `NodeIds.QuoteClean` | zelos_extension_opcua/node_map.py:71-73 | An escaped URI has no separator, and is empty only for the empty URI |
| `NodeIds.UnquoteMeans` | zelos_extension_opcua/node_map.py:103 | Escapes are undone in either case, and all else stays |
| `NodeIds.Written` | zelos_extension_opcua/discovery.py:120-134 | The form written: by index for namespace 0 or an index with no URI, else by the escaped URI |
| `NodeIds.WrittenIdentifiers` | zelos_extension_opcua/discovery.py:125-133 | And each kind of identifier after its letter |
| `NodeIds.ParseIff` | zelos_extension_opcua/node_map.py:73-103 | What is read: either form up to the first semicolon, an index in digits or a URI of at least one character, then an identifier |
| `NodeIds.IdentifierIff` | zelos_extension_opcua/node_map.py:102-120 | An identifier is the letter of its kind, an equals sign, and a line of text that kind reads |
| `NodeIds.LineIff` | zelos_extension_opcua/node_map.py:73 | A line is not empty and has no newline but one at its end, which is dropped |
| `NodeIds.NumberIff` | zelos_extension_opcua/node_map.py:103-109 | A number is a run of decimal digits |
| `NodeIds.NumberMeans` | zelos_extension_opcua/node_map.py:103-109 | Of which the last is worth one and each before it ten times the one after |
| `NodeIds.NumberOfDigits` | zelos_extension_opcua/node_map.py:107-109 | A printed number reads back |
| `NodeIds.IdentifierRoundTripIff` | zelos_extension_opcua/node_map.py:105-120 | An identifier reads back exactly when it is one line of text and not empty |
| `NodeIds.NsuParsed` | zelos_extension_opcua/node_map.py:97-128 | What a URI-qualified id parses to, for every URI and identifier |
| `NodeIds.NsuRoundTripIff` | zelos_extension_opcua/node_map.py:97-128 | Printed by URI it reads back exactly when the URI is not empty and the identifier one line |
| `NodeIds.Reordered` | zelos_extension_opcua/client.py:626-638 | Against a NamespaceArray in any order: the same URI and identifier at the URI's new index, or an error if it is gone |
| `NodeIds.RoundTripIff` | zelos_extension_opcua/discovery.py:120-134 | In one session it reads back as the same NodeId exactly when, for a server namespace, the URI is not empty and no earlier index has it, and the identifier is one line |
| `NodeIds.NotReadBack` | zelos_extension_opcua/discovery.py:120-134 | The inputs that show it: an id of an empty URI does not parse, one of a repeated URI leads to its first index |

## Left out

- A sweep whose Read fails: it refreshes nothing and its error ends or continues the connection as any other does; the
  sweeps timed in `Staleness` are answered or fail their lookup.
- What failed lookups come to beyond the sweep: five failures in a row give the session up, but any job that succeeds
  in between resets the count.
- A Publish that fails to decode while `_recreate` is subscribing: the fallback is deferred only during
  `_start_transport`, and the two are not interleaved here.
- Responses that reach a client after it was replaced, and which subscription `_watch` finds silent: a stall is an
  event of `Delivery`, recreating any subscription an event of `Connection`.
- A subscription the server drops by itself: the client learns of it by silence or a status change, which is a stall.
- Wrap-around of continuation point ids at four bytes, and of Publish sequence numbers other than as a renumbering.
- `walk`'s count of filtered nodes and its capture of the EngineeringUnits and EURange references: only logs and units
  depend on them; `Describe` starts from the captured references.
- Leading whitespace of a description other than blanks, tabs and line ends, which `lstrip` also removes.
- An AccessLevel that is not an integer, on which the description fails.
- The name sanitizer and fnmatch (functions `clean` and `fits`), value decoding and scaling, and what `sample_time_ns`
  picks: a sample here has its value and stamp.
- Trace names (`assign_names`): field names are taken as unique within an event, which rests on a hash.
- BadTooManyOperations: chunks are within the server's limits, as `operation_limits` reads them.
- Connection errors inside `read_many` and during discovery: they end the operation as any cut await does in
  `Connection`.
- `int()` spellings other than ASCII digits in an identifier, escapes of bytes past ASCII in a URI, and the GUID and
  base64 text forms, taken to be lossless (`NodeIds.Lossless`).
- Floating point rounding: intervals and times are reals.
- A staleness period that grows when a recreated subscription's interval is revised: it is fixed per connection here.
- The health job and event, the `raw` event, and restarting a client on the same source.
- Row cells carry the stamp they come from, so that it can be spoken of; the program's rows carry the value alone.
- The dictionaries nested by event (`_last`) or kept per client (`_schemas`, `_fields`, `_events`) are one dictionary
  with a composite key.
- Certificates, security negotiation, asyncio cancellation, signals, threads, the command line and logging.
