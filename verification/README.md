# Verification of the Swiss OTC cloud controller

This project models the parts of the cloud controller manager that change or read cloud state and
proves what they guarantee:

- **ELB reconciler.** `Cloud` is the remote ELB v3 store: load balancers, listeners, pools, members,
  health monitors and elastic IPs, and the status the server gives each write request. The server
  is synchronous; it answers 409 to the deletion of a pool a listener still references and of a load
  balancer with children, removes members and monitors with their pool, and filters lists by name
  and load balancer. `Client.ELBv3Client` holds that store together with three fault scripts: one for
  lists and lookups of load balancers, one for the lookups of pools, listeners and monitors that
  decide about a creation, and one for write requests. Each request may never arrive, be refused, be
  carried out without a reply, or come back undecodable. The class logs every POST and DELETE with the store
  before and after it. `Controller.LoadBalancerController` drives the client, with its proofs in
  `ServicePorts`, `Synchronisation` and `Teardown`, and `Runs` composes whole series of calls, each
  with its own failures. List replies and map iterations come in any order.
- **Request signer.** `Encoding`, `Query` and `Headers` are the canonical URI, query string and
  header lines of the AK/SK signature, up to the strings that are hashed.
- **Server lookup.** `Servers` is the index from IP to server and the scan it must agree with,
  `Instances` the cached lookup, `CacheRuns` its behaviour when lookups run concurrently, and
  `ProviderId` the printed and parsed provider ID.
- **Naming.** `Naming` is the load balancer name with its 64-bit hash and the derived pool and
  listener names.

## How the results fit together

`Cloud` proves what the server keeps for any request: references resolve, and one load balancer is
touched. A listener need not have a default pool. `Discipline.Inv` is the step invariant of one load
balancer: names follow ports, listener and pool names are unique, every listener has the pool of its
port to itself, a pool has at most one monitor. It says nothing about other load balancers, so a
project may hold any number that were made by hand or by other tools and follow no such rule. A
request keeps the invariant of a load balancer when it is about another one, or is sent under the
condition its lookup established. None of this depends on the nodes. The client and controller
methods establish those conditions whatever writes fail.

Four claims can hold of the present store and of the store after every logged request
(`Client.Claim`): the invariant for the load balancers of a name (`Healthy`), one member per
address in their pools (`Tidy`), one load balancer of a name (`Single`), and that the log leads
request by request from the first store to the present one (`Recorded`), so that no change escapes
the other three. Every method says which claims it keeps; `Runs.Respects` says what each asks of a
call. `Runs.Run` lifts this to any series of calls, for one name at a time: calls about other names
may meet any failure. It also returns the stores between the calls, from which what several calls
keep follows by induction: a load balancer stays unless a call deletes it (`Runs.TraceSurvives`), and
a listener stays up with its backends as long as every call wants them (`Runs.TraceKeepsUp`). On top
of it, one clean update settles the load balancer after any such run (`Runs.RunThenUpdate`), a
converged state makes further updates send nothing (`Runs.CleanUpdate`), and one clean deletion
removes everything without a conflict from any store at all (`Runs.CleanDelete`,
`Runs.RunThenDelete`).
Tidiness needs distinct node IPs, and `Counting` says what happens to a pool without them.
Success is not only meaningful on clean runs: the client swallows many failures, and `Runs.Perform`
says what a call that reports success has achieved all the same.

What a call sends and when it gives up is stated for every failure, not only for what becomes of the
store: the requests for members are given one by one (`Counting.AdditionsCount`), listed listeners,
pools and orphans are each asked to go, a creation that is not acknowledged or a deletion without a
reply is the last request of its kind (`FatalLast`, `Stops` in `Deletion`), and success is equivalent
to the replies the code insists on. The texts the code composes are pinned down by their characters
(`Text.LeqIsBytewise`, `Encoding.EncodedByte`, `Headers.LowerAt`, `Headers.TrimmedIs`,
`Naming.DerivedNames`).

A pool is *stranded* when no listener uses it. Orphans are found by listener, so an update never
looks for stranded pools; it takes in only those named for a port the service has. Calls in which
nothing fails strand no pool (`Runs.Run`). A failed call can, in two places. The step of a port
leaves the port's pool stranded exactly when there is a pool, old or newly created, but neither an
old listener nor one whose creation is carried out (`ServicePorts.PortLeaves`): the creation of the
pool may come back without a reply, the members may not be listed, or the request for the listener
may fail. The removal of an orphan leaves its pool stranded exactly when the deletion of the listener
is carried out and that of the pool is not (`Synchronisation.OrphanStranded`). As long as the service
does not have the port, the pool then stays through every clean update (`Synchronisation.SyncResidue`,
`Runs.LostListenerStrandsPool`) until the load balancer itself is deleted.

## What the code demands of its callers

- *Faithful lookups of pools, listeners and monitors.* A failed one falls through to creation, so
  they stay unique exactly as `Requests.PoolNamesStayUnique`, `Requests.ListenerNamesStayUnique` and
  `Requests.MonitorsStaySingle` say. The step invariant asks for nothing else: lists, lookups of
  load balancers, all write requests and deletions may fail in any way.
- *No error body for a member list.* It reads as an empty list and gives every node another member
  (`Counting.BlindUniqueIff`); a list without a reply does no harm.
- *No false 404 for a load balancer.* Any other failure of that lookup is harmless
  (`Requests.LoadBalancerNamesStayUnique`).
- *Distinct node IPs*, for the members of a pool only. The index of existing members is not updated
  when one is added, so two nodes with the same first internal IP each get a member, and each
  reconcile adds more (`Counting.UniqueIff`, `Counting.RepeatedRuns`).
- *A prompt refresh.* `cacheTime` is read from the clock after the listing has been indexed, so the
  listings served can be older than the time to live by as much as that takes
  (`CacheRuns.ReadsAreFreshAndWhole`, `CacheRuns.TtlHoldsIffPrompt`).
- *A load balancer of its own.* Listeners, pools and monitors that something else put on the load
  balancer of a service can break its invariant (`Discipline.Inv`); whatever is on any other load
  balancer does no harm.
- *Non-empty value lists.* `buildCanonicalHeaders` reads the first value of every signed header.
- Port numbers need not be distinct, but TCP 53 and UDP 53 share one name, so a load balancer
  serves a number in one protocol (`Discipline.OneListenerPerPortNumber`).

Where code and documentation disagree the model follows the code: the short hash is documented as
four hex characters (loadbalancer.go:338) but has one to four digits, or a sign and four digits
for the one input class whose hash is the minimum 64-bit integer.

## Model

| member | source | states |
|---|---|---|
| Cloud.ServerKeepsIntegrity | DEVELOPMENT.md:85-108 | whatever request arrives, references in the store resolve afterwards, a listener without a default pool included, and new identifiers are fresh |
| Cloud.RequestTouchesOneLoadBalancer | DEVELOPMENT.md:85-108 | a request changes listeners, pools, members and monitors of one load balancer only |
| Cloud.StatusTells | DEVELOPMENT.md:85-108 | 201 means that something was created, 204 that something went, 404 and 409 that nothing changed, the latter because something still depends on it |
| Discipline.GuardedRequestKeepsInv | pkg/opentelekomcloud/loadbalancer/loadbalancer.go:342-381 | a request keeps the step invariant of a load balancer, whatever the rest of the project looks like, when it is about another one or is sent under its lookup's condition: unique listener and pool names, each listener bound to the pool named for its port, at most one monitor per pool |
| Discipline.KeepsUniqueMembers | pkg/opentelekomcloud/loadbalancer/client.go:511-533 | a request that adds no second member for an address keeps one member per address in a pool |
| Discipline.ListenersOwnTheirPools | pkg/opentelekomcloud/loadbalancer/loadbalancer.go:351-352 | under the invariant of its load balancer a listener shares its default pool with no other listener in the project |
| Discipline.OneListenerPerPortNumber | pkg/opentelekomcloud/loadbalancer/loadbalancer.go:345-352 | under its invariant a load balancer never has two listeners for one port number, so TCP and UDP on one number cannot both be served |
| Client.ELBv3Client.Send | pkg/opentelekomcloud/loadbalancer/client.go:226-263 | one write request under any fault: the store, the reply, the log entry, and every claim that outlives the request: the completeness of the log always, the others when the request is about another load balancer or name, or guarded |
| Client.ELBv3Client.GetLoadBalancer | pkg/opentelekomcloud/loadbalancer/client.go:266-296 | a hit has the name asked for; "not found" means none exists or the lookup met a false 404; every other failure is an error |
| Client.ELBv3Client.CreateLoadBalancer | pkg/opentelekomcloud/loadbalancer/client.go:301-375 | exactly one creation request; success only when the reply arrives and decodes; names stay unique when none of that name existed |
| Requests.LoadBalancerNamesStayUnique | pkg/opentelekomcloud/loadbalancer/loadbalancer.go:85-126 | a load balancer name stays unique if and only if a false 404 does not meet a carried-out second creation |
| Client.ELBv3Client.EnsurePool | pkg/opentelekomcloud/loadbalancer/client.go:426-472 | reuses a found pool without a write, else sends one creation; which failures are errors, exactly; a returned pool has the name and load balancer asked for; the invariant survives any write fault |
| Requests.PoolNamesStayUnique | pkg/opentelekomcloud/loadbalancer/client.go:430-452 | pool names of a load balancer stay unique if and only if a failed lookup does not meet a carried-out creation of an existing name |
| Client.ELBv3Client.InternalAddress | pkg/opentelekomcloud/loadbalancer/client.go:500-506 | the address at the first index whose kind is InternalIP, or "" when no address is internal |
| Goal.WantedMeans | pkg/opentelekomcloud/loadbalancer/client.go:499-508 | an address is wanted exactly when it is not empty and some node lists it as internal with no internal address before it |
| Client.ELBv3Client.IndexMembers | pkg/opentelekomcloud/loadbalancer/client.go:493-496 | the index has exactly the listed addresses, each with a member that has it; of several members with one address it holds the last listed |
| Client.ELBv3Client.AddMissing | pkg/opentelekomcloud/loadbalancer/client.go:499-533 | whatever fails and whatever the nodes, only adds members, for wanted addresses with the node port, keeps the step invariant and never widens the gap; without faults adds for each address as many as it has nodes, less one for an indexed member; with distinct node IPs keeps one member per address, each change closing the gap by one; what is left of the index is the unwanted part; the requests are exactly the additions, node by node, whatever becomes of them |
| Client.ELBv3Client.RemoveStale | pkg/opentelekomcloud/loadbalancer/client.go:536-544 | in any order and under any write faults removes only indexed members, each change closing the gap by one; all of them when nothing fails; every indexed member is asked to go, once, whatever becomes of the requests |
| Client.ELBv3Client.EnsureMembers | pkg/opentelekomcloud/loadbalancer/client.go:475-547 | whatever fails and whatever the nodes: only a list request without a reply is an error, wanted members stay, new ones are wanted and get the node port, the gap never widens, the step invariant is kept. A clean run leaves exactly the balanced number of members for every address, all wanted addresses, and no other if and only if no unwanted address had two members; on a pool that matches already it sends nothing if and only if no two nodes share an IP. With distinct IPs gap plus changes is constant under any write faults and one member per address is kept. After an error body instead of the list every node gets one more member. Whatever becomes of the requests, exactly the additions are sent and then one deletion for each listed address that is not wanted |
| Goal.GapIsSymmetricDifference | pkg/opentelekomcloud/loadbalancer/client.go:475-547 | with one member per address the gap is the size of the symmetric difference of actual and wanted addresses |
| Goal.GapZero | pkg/opentelekomcloud/loadbalancer/client.go:475-547 | the gap is zero exactly when the pool's addresses are the wanted ones |
| Goal.AddingClosesGap | pkg/opentelekomcloud/loadbalancer/client.go:518-532 | one applied addition of a missing wanted address shrinks the gap by one |
| Goal.DeletingClosesGap | pkg/opentelekomcloud/loadbalancer/client.go:536-544 | one applied deletion of an unwanted member shrinks the gap by one |
| Members.FilledThenThinned | pkg/opentelekomcloud/loadbalancer/client.go:511-544 | additions followed by deletions of the leftover index keep every wanted member and, done in full, reach the wanted addresses |
| Members.StaleShrink | pkg/opentelekomcloud/loadbalancer/client.go:535-544 | deleting the stale part of the index leaves only wanted addresses if and only if no unwanted address had two members; stale members get fewer either way |
| Counting.CountBalanced | pkg/opentelekomcloud/loadbalancer/client.go:493-544 | whatever the nodes and the pool, a clean reconcile ends with one member per node for an address plus all but one of those it had |
| Counting.UniqueIff | pkg/opentelekomcloud/loadbalancer/client.go:511-533 | from one member per address a clean reconcile ends with one member per address if and only if no two nodes share an IP |
| Counting.RepeatedRuns | pkg/opentelekomcloud/loadbalancer/client.go:493-544 | along any series of clean reconciles of a pool the number of members for an address is known: unwanted duplicates disappear one per run, wanted duplicates stay for good, and nodes sharing an IP add members without end |
| Counting.BlindUniqueIff | pkg/opentelekomcloud/loadbalancer/client.go:491-533 | after an error body instead of the member list one member per address is left if and only if there was one per address, no two nodes share an IP and no node had a member yet |
| Counting.AdditionsCount | pkg/opentelekomcloud/loadbalancer/client.go:499-533 | of the additions asked for, each is for a wanted address and the given port, and an address gets as many as it has nodes, less one if it was listed |
| Client.ELBv3Client.EnsureListener | pkg/opentelekomcloud/loadbalancer/client.go:611-653 | reuses a found listener without a write, else sends one creation; the store afterwards for every fault; which failures are errors, exactly; success means the listener exists; keeps the invariant when the lookup is faithful and name and pool fit the port |
| Requests.ListenerNamesStayUnique | pkg/opentelekomcloud/loadbalancer/client.go:614-653 | listener names of a load balancer stay unique if and only if a failed lookup does not meet a carried-out creation of an existing name |
| Client.ELBv3Client.EnsureHealthMonitor | pkg/opentelekomcloud/loadbalancer/client.go:696-747 | reuses a found monitor without a write, else sends one creation; the store afterwards for every fault; which failures are errors, exactly; adds no second monitor when the lookup is faithful |
| Requests.MonitorsStaySingle | pkg/opentelekomcloud/loadbalancer/client.go:701-747 | a pool keeps at most one monitor if and only if a failed lookup does not meet a carried-out creation while it has one |
| Client.ELBv3Client.ListListeners | pkg/opentelekomcloud/loadbalancer/client.go:550-562 | the listeners of the load balancer, or none at all when the reply is an error body |
| Client.ELBv3Client.DeleteListener | pkg/opentelekomcloud/loadbalancer/client.go:574-581 | removes that listener or nothing, fails exactly when no reply arrives, and never meets 409 |
| Client.ELBv3Client.DeletePool | pkg/opentelekomcloud/loadbalancer/client.go:584-608 | loses only members and monitors of that pool or the pool with all of them; unreferenced and without faults, exactly the latter without a 409, and the pool has no members by then; whatever fails, every listed member is asked to go and then the pool |
| Client.ELBv3Client.DeleteListeners | pkg/opentelekomcloud/loadbalancer/client.go:751-777 | without faults removes exactly the load balancer's listeners; fails exactly when the list or one deletion goes without a reply; never meets 409; every listed listener is asked to go, and nothing is sent after a deletion without a reply |
| Client.ELBv3Client.DeletePools | pkg/opentelekomcloud/loadbalancer/client.go:780-835 | after the listeners, removes exactly the load balancer's pools with members and monitors and meets no 409; each pool is empty when its deletion is sent; fails exactly when the list or a pool deletion goes without a reply; every listed pool is asked to go, and nothing is sent after a pool deletion without a reply |
| Client.ELBv3Client.DeletePoolParts | pkg/opentelekomcloud/loadbalancer/client.go:796-833 | whatever fails, the monitor is asked to go, then every listed member, and last the pool; only the last request can fail the step |
| Client.ELBv3Client.DeleteLoadBalancer | pkg/opentelekomcloud/loadbalancer/client.go:379-417 | at most six requests, waits 2^k - 1 seconds over k retries and at most 31, succeeds if and only if one of six uncancelled attempts sees 204 or 404 after only conflicts, and then the load balancer is gone unless a 404 was false; the code after the loop is unreachable; every attempt but the last was answered 409, and success means 204 or 404 |
| Retry.ConflictsThatClearAreSurvived | pkg/opentelekomcloud/loadbalancer/client.go:401-411 | conflicts that clear within 31 seconds of waiting end in success |
| Client.ELBv3Client.FindEip | pkg/opentelekomcloud/loadbalancer/client.go:945-987 | an elastic IP bound to the port, when the lookup succeeds and there is one |
| Convergence.ServedPersists | pkg/opentelekomcloud/loadbalancer/loadbalancer.go:345-378 | reconciling one port leaves every other served port served |
| Convergence.OrphanPorts | pkg/opentelekomcloud/loadbalancer/loadbalancer.go:402-411 | a listener is an orphan by name exactly when the service does not have its port number |
| Convergence.PruneOneMore | pkg/opentelekomcloud/loadbalancer/loadbalancer.go:410-425 | once its listener is gone an orphan's pool is unreferenced, and dropping it extends the pruned state by one orphan |
| Convergence.ConvergedCount | pkg/opentelekomcloud/loadbalancer/loadbalancer.go:392-430 | in the converged state there are exactly as many listeners as service port numbers |
| Controller.LoadBalancerController.EnsurePort | pkg/opentelekomcloud/loadbalancer/loadbalancer.go:345-378 | whatever fails and for any nodes: only things for this port and members for the nodes' addresses are added, and members for the nodes' addresses stay; with faithful lookups of pools, listeners and monitors the invariant holds, success means a bound listener, and the port's pool is left stranded exactly when it had no listener and no creation of one was carried out, all other pools as before; without faults the port is served, that is listener, bound pool with all wanted addresses and monitor, and with no other addresses unless one nobody wants had two members; with distinct IPs nothing is sent when it is served already; success is equivalent to a reply to the member list and acknowledged creations of pool and listener |
| Controller.LoadBalancerController.EnsureBackends | pkg/opentelekomcloud/loadbalancer/loadbalancer.go:354-365 | whatever fails and for any nodes: no listener is created or changed, only the port's pool and members for nodes' addresses are added, members for nodes' addresses stay; with a faithful lookup the pool is there afterwards exactly when it was or its creation was carried out; without write faults it has the wanted addresses, and no other when no unwanted address had two members; a pool is returned exactly when the member list gets a reply and the creation of the pool, if one is sent, is acknowledged |
| ServicePorts.PortServed | pkg/opentelekomcloud/loadbalancer/loadbalancer.go:354-371 | a listener found by name is bound to the pool found by name |
| ServicePorts.PortStranded | pkg/opentelekomcloud/loadbalancer/loadbalancer.go:354-371 | under the invariant a port's pool is stranded exactly when the load balancer has no listener of the port's name |
| ServicePorts.PortLeaves | pkg/opentelekomcloud/loadbalancer/loadbalancer.go:345-378 | after the step of a port its pool is stranded exactly when the load balancer had no listener of the port's name and none was created, and every other pool is stranded as before |
| Controller.LoadBalancerController.EnsureFrontend | pkg/opentelekomcloud/loadbalancer/loadbalancer.go:365-377 | fails exactly when the listener neither exists nor gets created and acknowledged; leaves the port's pool stranded exactly when there was no listener and its creation is not carried out; a failed monitor is no failure; pools and members stay as they are whatever fails; after success the monitor was found or its creation, with the probe of the port, was the last request |
| Convergence.ProbeFitsProtocol | pkg/opentelekomcloud/loadbalancer/loadbalancer.go:439-457 | without an annotation a TCP port is probed by TCP and a UDP port by UDP_CONNECT, with one by the named probe; the intervals are those of the service |
| Controller.LoadBalancerController.EnsureListeners | pkg/opentelekomcloud/loadbalancer/loadbalancer.go:342-381 | whatever fails, for any nodes and any other load balancers: every addition carries a port's number, protocol, node port and probe, every new member has a node's address, members for nodes' addresses stay, other load balancers are untouched; without faults all ports are served and the stranded pools are exactly those there were, less the ports' own; idempotent when node IPs are distinct; success is equivalent to a reply to each port's member list and acknowledged creations of pools and listeners, and nothing is sent for any port after one that fails; without failing writes, error bodies instead of member lists still leave all ports served |
| Controller.LoadBalancerController.DesiredNames | pkg/opentelekomcloud/loadbalancer/loadbalancer.go:402-407 | the set is exactly the listener names of the service's port numbers |
| Controller.LoadBalancerController.RemoveOrphans | pkg/opentelekomcloud/loadbalancer/loadbalancer.go:409-426 | under any write faults spares every desired listener with its pool and members; without faults leaves exactly the pruned state; every listed orphan and its pool are asked to go, whatever fails |
| Controller.LoadBalancerController.RemoveOrphan | pkg/opentelekomcloud/loadbalancer/loadbalancer.go:411-426 | deletes the listener, then its pool; the pool is left without a listener exactly when the first deletion is carried out and the last is not |
| Controller.LoadBalancerController.SyncListeners | pkg/opentelekomcloud/loadbalancer/loadbalancer.go:392-430 | whatever fails, for any nodes and any other load balancers: desired listeners stay, with their members for nodes' addresses, what is added is for the service, and every orphan of the list is asked to go. Without failing writes all ports are served and the call succeeds whatever becomes of the list of listeners: with the list it converges, without it or with an error body nothing goes; the stranded pools are exactly those there were, less the ports' own. With distinct node IPs it sends nothing when converged |
| Synchronisation.SyncConverges | pkg/opentelekomcloud/loadbalancer/loadbalancer.go:392-430 | pruning orphans and then serving all ports leaves no other listener |
| Synchronisation.SyncResidue | pkg/opentelekomcloud/loadbalancer/loadbalancer.go:392-430 | pruning orphans and then serving all ports leaves stranded exactly the pools stranded before, less those named for the service's ports |
| Synchronisation.PruningStrands | pkg/opentelekomcloud/loadbalancer/loadbalancer.go:409-426 | removing orphans with their pools strands no pool and takes in none |
| Synchronisation.OrphanStranded | pkg/opentelekomcloud/loadbalancer/loadbalancer.go:411-426 | under the invariant an orphan's pool has no other listener, so it is stranded exactly when its listener goes and it stays |
| Synchronisation.SyncKeepsPorts | pkg/opentelekomcloud/loadbalancer/loadbalancer.go:409-430 | listeners for the service's port numbers are neither removed nor rebound, whatever fails |
| Controller.LoadBalancerController.FindOrCreate | pkg/opentelekomcloud/loadbalancer/loadbalancer.go:85-126 | creates only after "not found", and the store afterwards is exact for any fault of lookup and creation; no load balancer goes; unless a 404 is false the name stays unique; a new load balancer gets an elastic IP exactly when asked for; of a name that exists nothing is sent; it returns a load balancer exactly when the lookup succeeds or answers 404 and the creation, if one is sent, is acknowledged |
| Controller.LoadBalancerController.EnsureLoadBalancer | pkg/opentelekomcloud/loadbalancer/loadbalancer.go:80-131 | whatever fails, for any nodes and any other load balancers: load balancers and elastic IPs stay as they are but for the one load balancer created with its elastic IP when none is found, only what the ports need is added, members for nodes' addresses stay, load balancers under other names are untouched; success means every port has its bound listener whatever writes and lists failed; without faults all ports are served on the one load balancer of the service's name and no pool is newly stranded; with distinct node IPs nothing is sent when the ports are served already; success is equivalent to a lookup that succeeds or answers 404, a reply to each port's member list, and acknowledged creations, and nothing is sent after a creation that is not |
| Controller.LoadBalancerController.UpdateLoadBalancer | pkg/opentelekomcloud/loadbalancer/loadbalancer.go:161-178 | whatever fails, for any nodes and any other load balancers: load balancers and elastic IPs stay as they are, and the listeners the service has stay with their members for nodes' addresses; success means every port has its bound listener; without faults fails exactly when the load balancer is absent, and then sends nothing, else synchronises it; with distinct node IPs sends nothing when converged; without failing writes it serves all ports of a load balancer that is found whatever becomes of its list of listeners, and without that list nothing goes |
| Controller.LoadBalancerController.EnsureLoadBalancerDeleted | pkg/opentelekomcloud/loadbalancer/loadbalancer.go:182-253 | from any store, whatever fails: only the load balancer found and elastic IPs change, elastic IPs neither listed nor on the VIP port stay with their bindings, nothing is sent after a listener or pool deletion without a reply, and the load balancer's own deletion is sent exactly when both lists and all those deletions were answered. Success ends with exactly the releases of the release order; a failed call has requested at most one release, first, of an elastic IP on the VIP port found by a successful lookup, and all others stay. Without false 404s success means load balancer and children are gone; without faults it succeeds without a 409, each pool empty when its deletion is sent, and no listed elastic IP is left |
| Controller.LoadBalancerController.TakeDown | pkg/opentelekomcloud/loadbalancer/loadbalancer.go:195-217 | bound elastic IP, listeners, pools, load balancer in this order: a release is at most the first request, the load balancer's deletion is sent exactly when both lists and all deletions of listeners and pools were answered, and success means that its reply says nothing is left; without faults no 409 and nothing left on the VIP port; success without false 404s means the load balancer is gone |
| Controller.LoadBalancerController.DeleteChildren | pkg/opentelekomcloud/loadbalancer/loadbalancer.go:207-213 | succeeds exactly when both lists and all deletions of listeners and pools get a reply; nothing is sent after one without; every listed listener and pool is asked to go |
| Controller.LoadBalancerController.ReleaseBoundEip | pkg/opentelekomcloud/loadbalancer/loadbalancer.go:196-204 | requests one release, of an elastic IP bound to the VIP port, when there is a port, its lookup succeeds and finds one; otherwise nothing |
| Controller.LoadBalancerController.ReleaseOrphanedEips | pkg/opentelekomcloud/loadbalancer/loadbalancer.go:221-250 | sends exactly the releases of the release order, whatever fails |
| Teardown.ReleasesTheUnion | pkg/opentelekomcloud/loadbalancer/loadbalancer.go:224-250 | the release order holds exactly the non-empty identifiers of both lists |
| Teardown.ReleasesInOrder | pkg/opentelekomcloud/loadbalancer/loadbalancer.go:224-250 | lists without empty or common identifiers are released one after the other, each in its order |
| Teardown.ReleasesOnce | pkg/opentelekomcloud/loadbalancer/loadbalancer.go:235-243 | each identifier is released once when neither list repeats one |
| Runs.Perform | pkg/opentelekomcloud/loadbalancer/loadbalancer.go:80-253 | for any nodes, whatever fails: the log entries of a call lead from the old store to the new one; load balancers of other names are untouched; an ensure creates at most the missing load balancer with its elastic IP, an update creates and removes none, a deletion takes down one; the claims the call respects are kept, and the listeners and backends it wants stay up; a call that reports success has done its job although writes failed: every port has its bound listener, or no load balancer of the name is left; without faults it does its whole job and strands no pool; a failed deletion releases at most an elastic IP on the VIP port |
| Runs.Run | pkg/opentelekomcloud/loadbalancer/loadbalancer.go:80-253 | over any series of calls, for each name: with faithful lookups of pools, listeners and monitors the step invariant holds after every request whatever else fails and whatever the nodes; a load balancer stays unless a call deletes it, and a listener with its backends as long as every call wants them; the log is complete, and each call meets what it promises between the stores of the trace; members stay one per address when no two nodes share an IP and no list is an error body; names stay unique without false 404s; if no call fails no pool is stranded; an update without failing writes serves all ports whatever becomes of its list of listeners |
| Runs.TraceSurvives | pkg/opentelekomcloud/loadbalancer/loadbalancer.go:80-253 | a load balancer there between two calls of a run is there at the end when no later call deletes its name |
| Runs.TraceKeepsUp | pkg/opentelekomcloud/loadbalancer/loadbalancer.go:80-178 | a listener and its pool's members stay up through a run in which every call for the load balancer has the port and the members' addresses |
| Runs.RunThenUpdate | pkg/opentelekomcloud/loadbalancer/loadbalancer.go:161-178 | after any such run one clean update leaves the service settled: a load balancer that was there before the run, or that an ensure of the run reported as done, is there and converged, and the update succeeds, unless a call deleted it since; unwanted addresses are all gone when members started one per address and stayed so; no pool is stranded unless a call of the run failed |
| Runs.CleanUpdate | pkg/opentelekomcloud/loadbalancer/loadbalancer.go:161-178 | a clean update of any store under the invariant of the service's load balancer, with any nodes, succeeds exactly when the load balancer is there and synchronises it: the stranded pools are exactly the old ones less those of the service's ports; load balancers and elastic IPs stay as they are; of a settled load balancer, with distinct node IPs, it leaves store and log as they are |
| Runs.CleanDelete | pkg/opentelekomcloud/loadbalancer/loadbalancer.go:182-253 | a clean deletion from any store at all meets no conflict and removes the load balancer with all listeners, pools, stranded ones too, members and monitors, and nothing else but elastic IPs; under the invariant each pool is empty when its deletion is sent; a unique name is free afterwards; without the load balancer nothing is sent |
| Runs.RunThenDelete | pkg/opentelekomcloud/loadbalancer/loadbalancer.go:182-253 | after any run in which no ensure of the name meets a false 404, whatever else fails, one clean deletion frees the name, and of every load balancer that had it nothing is left: no listener, pool, stranded or not, member or monitor |
| Runs.LostListenerStrandsPool | pkg/opentelekomcloud/loadbalancer/loadbalancer.go:354-371 | after a listener request that never arrives, a service without that port and an update in which nothing fails leave the port's pool behind without a listener |
| Encoding.UriEncode | pkg/opentelekomcloud/loadbalancer/aksk_signer.go:123-139 | the loop computes the bytewise encoding |
| Encoding.EncodedByte | pkg/opentelekomcloud/loadbalancer/aksk_signer.go:122-139 | letters, digits and -_.~ stay, every other byte becomes a percent sign and two digits of 0-9A-F; the encoder that keeps slashes differs only in these |
| Encoding.EncodingIsWellFormed | pkg/opentelekomcloud/loadbalancer/aksk_signer.go:122-139 | only unreserved bytes and uppercase %HH are emitted |
| Encoding.DecodeEncoded | pkg/opentelekomcloud/loadbalancer/aksk_signer.go:122-139 | percent-decoding inverts the encoding |
| Encoding.EncodedInjective | pkg/opentelekomcloud/loadbalancer/aksk_signer.go:122-139 | equal encodings come from equal texts |
| Encoding.BuildCanonicalURI | pkg/opentelekomcloud/loadbalancer/aksk_signer.go:102-120 | split, encode and join equals encoding every byte but '/', after adding a missing trailing slash; the result ends in a slash and decodes to the path with one |
| Encoding.CanonicalURIsDistinguish | pkg/opentelekomcloud/loadbalancer/aksk_signer.go:102-120 | two paths share a canonical URI if and only if they are equal after adding a missing trailing slash; decoding gives that path |
| Query.BuildCanonicalQueryString | pkg/opentelekomcloud/loadbalancer/aksk_signer.go:142-165 | the string splits at & into one key=value pair for each value of each key, encoded, in ascending order of the bytes of the keys and, for one key, in the order of its values; it is the same for every iteration order of the map |
| Text.LeqIsBytewise | pkg/opentelekomcloud/loadbalancer/aksk_signer.go:152-152 | the order of sorting is that of bytes: a prefix first, else the smaller byte at the first difference |
| Query.QueryDecodes | pkg/opentelekomcloud/loadbalancer/aksk_signer.go:142-165 | decoding the string gives back every key with its values in order |
| Query.QueryStringsDistinguish | pkg/opentelekomcloud/loadbalancer/aksk_signer.go:142-165 | two maps share a string if and only if they agree on all keys that have values |
| Headers.BuildCanonicalHeaders | pkg/opentelekomcloud/loadbalancer/aksk_signer.go:168-197 | exactly the headers named host or content-type or starting with x-sdk- or x-project- in lower case are signed, and host always; names ascend by bytes; values are the trimmed first values, and that of host is the request's when no header has it; lines and list are those of the order in which the map happened to be iterated, and of every other order unless signed headers differing only in case disagree |
| Headers.LowerAt | pkg/opentelekomcloud/loadbalancer/aksk_signer.go:173-173 | each character is the lower-case letter of an upper-case one, or itself |
| Headers.TrimmedIs | pkg/opentelekomcloud/loadbalancer/aksk_signer.go:177-177 | what is left of a value is a part of it without white space at its ends, and what is cut off is white space |
| Headers.OrderFreeIffNoConflict | pkg/opentelekomcloud/loadbalancer/aksk_signer.go:172-188 | the result does not depend on that order if and only if signed headers whose names differ only in case agree on their value |
| Headers.SignedNamesSorted | pkg/opentelekomcloud/loadbalancer/aksk_signer.go:182-188 | for names distinct after lower-casing the signed names are strictly sorted and contain host, hence once |
| Headers.HeadersParse | pkg/opentelekomcloud/loadbalancer/aksk_signer.go:190-196 | the signed-header list splits into exactly the names of the header lines in order, and the lines give back every value |
| Servers.IndexServers | pkg/opentelekomcloud/instances/instances_v2.go:53-63 | the keys are exactly the addresses of kind "fixed" and version "4", each mapped to the last server in the list that has it, in any network order |
| Servers.FindServerByIP | pkg/opentelekomcloud/instances/ecs_client.go:141-159 | a hit is the first server that lists the address with kind "fixed", of either version; a miss means that none does |
| Servers.IndexAgreesWithScan | pkg/opentelekomcloud/instances/instances_v2.go:53-63 | for distinct servers index and scan agree on an address if and only if its first owner lists it as IPv4 and no later server does, or nobody owns it |
| Servers.AgreementMeansNoSharedAddress | pkg/opentelekomcloud/instances/ecs_client.go:147-156 | for IPv4-only listings they agree everywhere if and only if no address is on two servers |
| Instances.InstancesV2.RefreshCache | pkg/opentelekomcloud/instances/instances_v2.go:39-69 | a fresh cache or a failed listing changes nothing; otherwise the whole index of the listing is installed |
| Instances.InstancesV2.GetServerForNode | pkg/opentelekomcloud/instances/instances_v2.go:72-103 | the server of the provider ID when it exists, else the first internal IP the refreshed cache knows, which is the one at the first index that is of kind InternalIP and in the cache |
| CacheRuns.StepKeepsInv | pkg/opentelekomcloud/instances/instances_v2.go:39-103 | every step of every thread keeps: the lock excludes, the cache is the index of one completed listing that arrived by cacheTime, readers are fresh |
| CacheRuns.ReadsAreFreshAndWhole | pkg/opentelekomcloud/instances/instances_v2.go:87-100 | in every schedule each read answers from the complete index of one listing, fetched by the very refresh that set cacheTime, after that refresh's freshness check; it arrived less than ttl + d before the reader's freshness check, or later, when refreshes set cacheTime at most d after their listing arrives |
| CacheRuns.TtlHoldsIffPrompt | pkg/opentelekomcloud/instances/instances_v2.go:44-66 | all reads of all schedules use a listing that arrived less than the time to live before their freshness check, or later, if and only if no time passes between the arrival of a listing and the setting of cacheTime |
| CacheRuns.LateRun | pkg/opentelekomcloud/instances/instances_v2.go:51-66 | a run whose read uses a listing ttl + d - 1 old: the age bound cannot be improved |
| CacheRuns.CacheTimeNeverGoesBack | pkg/opentelekomcloud/instances/instances_v2.go:65-66 | cacheTime never goes backwards |
| CacheRuns.FailedRefreshChangesNothing | pkg/opentelekomcloud/instances/instances_v2.go:40-51 | from taking the lock to failing, a refresh leaves cache and cacheTime as they were, also against other threads |
| CacheRuns.RefreshIsPath | pkg/opentelekomcloud/instances/instances_v2.go:39-69 | what the sequential refresh does is one schedule of the concurrent steps |
| ProviderId.SplitProviderID | pkg/opentelekomcloud/instances/instances_v2.go:115-142 | the character loop is: strip the prefix, split on '/', drop empty parts; the prefixes are opentelekomcloud:/// and otc://, taken off only when something follows |
| ProviderId.RoundTrip | pkg/opentelekomcloud/instances/instances_v2.go:106-113 | extracting from a printed provider ID returns the ID if and only if it has no slash and is not empty behind a zone with other characters than slashes |
| Naming.GenerateShortHash | pkg/opentelekomcloud/loadbalancer/loadbalancer.go:329-339 | the loop's hash is the base-31 polynomial in wrapping signed 64-bit arithmetic; the printed residue covers the overflow of negating the minimum |
| Naming.GetLoadBalancerName | pkg/opentelekomcloud/loadbalancer/loadbalancer.go:61-77 | the bytes of k8s-cluster-namespace-service, or the first 55 of more than 64, a hyphen and the hash |
| Naming.Utf8Bits | pkg/opentelekomcloud/loadbalancer/loadbalancer.go:67-71 | a character is its own byte below 0x80 and is read back from its leading and continuation bytes above |
| Naming.DerivedNames | pkg/opentelekomcloud/loadbalancer/loadbalancer.go:351-352 | a pool or listener is named after its load balancer and, in decimal, its port |
| Naming.NameFits | pkg/opentelekomcloud/loadbalancer/loadbalancer.go:67-73 | every name has at most 64 bytes, and 57 to 61 when truncated, overflow of the hash included |
| Naming.LongNamesCollide | pkg/opentelekomcloud/loadbalancer/loadbalancer.go:68-73 | two over-long names collide if and only if the 55-byte prefixes and the signed residues agree |
| Naming.NamesRecoverable | pkg/opentelekomcloud/loadbalancer/loadbalancer.go:351-352 | pool and listener names determine load balancer name and port |

## Left out

- HTTP, JSON, authentication, timeouts and logging: replaced by requests on the store and fault scripts; cancellation is one outcome of the back-off wait.
- SHA-256, HMAC and the Authorization header: the model stops at the canonical strings.
- Asynchronous deletion on the server: a 409 while children are still being removed is a `Rejected(409)` fault; otherwise deletions take effect at once.
- Changes to the store by anyone but this controller, paging of list replies, and quota or validation errors beyond an arbitrary refused request.
- Security-group rules, ingress IP, subnet and availability-zone choice, and the parsing of annotations: single branches without state.
- Controller.LoadBalancerController.EnsureListeners: an existing listener or pool keeps its protocol and a kept member its port when the service changes them, because the code finds all three by name or address only; the contract therefore states protocol and port for additions only.
- Client.ELBv3Client.DeletePools: the monitor identifier the pool list reports is read when the pool's turn comes; no request in between touches it.
- Controller.LoadBalancerController.EnsureLoadBalancerDeleted: an elastic IP that is both bound to the VIP port and listed in the details is requested for release twice, as in the code.
- Uniqueness of load balancer names across services: cluster, namespace and name are joined with '-' and are ambiguous, so it does not hold.
- Naming.GetLoadBalancerName: texts are valid UTF-8; a cut in the middle of a character yields the bytes of the code, but what JSON makes of such a name is not modelled.
- Headers.BuildCanonicalHeaders: lower-casing and trimming cover ASCII only; header field names are ASCII tokens (section 5.1 of RFC 9110).
- Metadata and status of instances, the v1 instances interface, configuration and registration: no state or hard logic.
