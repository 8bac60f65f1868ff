// The load balancer controller: reconciling and deleting the load balancer of a service.
module Controller {
  import opened Wrappers
  import opened Cloud
  import opened Naming
  import opened Discipline
  import opened Goal
  import opened Requests
  import opened Members
  import opened Counting
  import opened Deletion
  import opened Retry
  import opened Client
  import opened Convergence
  import opened ServicePorts
  import opened Synchronisation
  import opened Teardown

  /** What failing lookups or shared node IPs can spoil: claims about this name. */
  ghost predicate Affected(claim: Claim, name: string)
  {
    !claim.Recorded? && claim.n == name
  }

  class LoadBalancerController {
    const client: ELBv3Client

    constructor (client: ELBv3Client)
      ensures this.client == client
    {
      this.client := client;
    }

    /** The pool of a service port and its members. */
    method EnsureBackends(lb: Id, lbName: string, port: ServicePort, ghost service: Service,
                          nodes: seq<Node>) returns (pool: Option<Id>)
      requires Integrity(client.cloud)
      modifies client
      ensures client.Kept(lb) && client.cloud.listeners == old(client.cloud.listeners)
      ensures !ListenerCreated(client.log, |old(client.log)|)
      // success, whatever fails
      ensures FatalLast(client.log, |old(client.log)|) && (pool.Some? ==> NoneFatal(client.log, |old(client.log)|))
      ensures client.lookupFaults == old(client.lookupFaults) || client.lookupFaults == Rest(old(client.lookupFaults))
      ensures lb in old(client.cloud.lbs) ==>
                && (pool.Some? <==> !Lost(Next(old(client.lookupFaults))) && NoneFatal(client.log, |old(client.log)|))
                && (NoneFatal(client.log, |old(client.log)|) ==> client.lookupFaults == Rest(old(client.lookupFaults)))
      ensures Grown(old(client.cloud), client.cloud, lb, lbName, {port.port})
      ensures AddedFor(old(client.cloud), client.cloud, lb, lbName, service, {port})
      ensures OnlyWantedAdded(old(client.cloud), client.cloud, WantedIPs(nodes))
      ensures WantedStay(old(client.cloud), client.cloud, WantedIPs(nodes))
      ensures pool.Some? ==> pool.value in PoolsNamed(client.cloud, lb, PoolName(lbName, port.port))
      ensures NoErrorBody(old(client.lookupFaults)) && DistinctIPs(nodes) ==> client.StaysTidy()
      ensures Regular(old(client.cloud), old(client.findFaults), lb, lbName) ==>
                && client.StaysHealthy()
                && (PoolsNamed(client.cloud, lb, PoolName(lbName, port.port)) != map[] <==>
                      PoolsNamed(old(client.cloud), lb, PoolName(lbName, port.port)) != map[] ||
                      CarriedOut(Next(old(client.faults))))
      ensures Regular(old(client.cloud), old(client.findFaults), lb, lbName) && old(client.Holds(Healthy(lbName))) ==>
                var wanted, reply := WantedIPs(nodes), Next(old(client.lookupFaults));
                && (old(client.faults) == [] && !Lost(reply) ==>
                      && pool.Some? && wanted <= Addresses(client.cloud, pool.value)
                      && (reply == NoFault && NoStaleTwins(old(client.cloud), lb, wanted) ==>
                            Addresses(client.cloud, pool.value) == wanted))
                && (reply == NoFault && DistinctIPs(nodes) && Served(old(client.cloud), lb, port.port, wanted, true) ==>
                      pool.Some? && client.NothingSent() && Ready(client.cloud, lb, lbName, port.port, pool.value))
    {
      hide ELBv3Client.Holds, Inv, Integrity, ViewOf, NoFalse404, NoErrorBody, ListenerCreated, Deliver, Grown,
           AddedFor, Served, Addresses, MembersOf, MonitorsOf, Gap, Changes, Reconciled, WantedIPs, DistinctIPs,
           PoolsNamed, StaleMembers, PoolIn, PoolName, Ready, OnlyWantedAdded, WantedStay, NoStaleTwins, TwinFree,
           PoolsNamed, StaleMembers, PoolIn, PoolName, Ready, OnlyWantedAdded, WantedStay, NoStaleTwins, TwinFree,
           AllBalanced, AllAdded, Asked, MembersOnly, NoneFatal, FatalLast, Fatal;
      ghost var regular := Regular(client.cloud, client.findFaults, lb, lbName) && client.Holds(Healthy(lbName));
      ghost var s0, l0, wanted := client.cloud, client.log, WantedIPs(nodes);
      if regular {
        client.HealthyHere(lbName, lb);
        ServedParts(s0, lb, port.port, wanted);
      }
      ghost var find, f := Next(client.findFaults), Next(client.faults);

      pool := client.EnsurePool(lb, PoolName(lbName, port.port), port.protocol);
      ghost var s1, l1 := client.cloud, client.log;
      PoolEnsured(s0, lb, lbName, service, port, find, f);
      SameMembersAddWanted(s0, s1, wanted);
      GrownKeepsTwinsAway(s0, s1, lb, lbName, {port.port}, wanted);
      ghost var e := EntryFor(s0, PostPool(lb, PoolName(lbName, port.port), port.protocol), f);
      assert !ListenerCreated(l1, |l0|) && FatalLast(l1, |l0|) &&
             (NoneFatal(l1, |l0|) <==> l1 == l0 || f == NoFault) by {
        NoListenerLogged(l0);
        ListenerLogged(l0, e);
        NothingFatal(l0);
        OneFatal(l0, e);
        PoolIsFatal(e);
      }
      if pool.None? {
        return;
      }
      PoolNamedFacts(s1, lb, PoolName(lbName, port.port), pool.value);
      TwinsOfPool(s1, lb, pool.value, wanted);

      var listed := client.EnsureMembers(pool.value, nodes, port.nodePort);
      SamePoolsNamed(s1, client.cloud);
      assert Grown(s0, client.cloud, lb, lbName, {port.port}) &&
             AddedFor(s0, client.cloud, lb, lbName, service, {port}) by {
        MembersGrow(s1, client.cloud, pool.value, lb, lbName, port.port);
        MembersAdded(s1, client.cloud, lb, lbName, service, port, pool.value, wanted);
        OnePortTwice(s0, s1, client.cloud, lb, lbName, service, port);
      }
      assert OnlyWantedAdded(s0, client.cloud, wanted) && WantedStay(s0, client.cloud, wanted) by {
        ReconciledAddsWanted(s1, client.cloud, pool.value, wanted, port.nodePort);
        WantedAddedTwice(s0, s1, client.cloud, wanted);
      }
      ListenerLoggedThen(l1, client.log, |l0|);
      MembersAreHarmless(client.log, |l1|);
      FatalThen(l1, client.log, |l0|);
      if !listed {
        return None;
      }
    }

    /** The listener of a service port, bound to the pool, and the pool's health monitor. */
    method EnsureFrontend(lb: Id, lbName: string, port: ServicePort, service: Service, pool: Id) returns (ok: bool)
      requires Integrity(client.cloud)
      requires pool in PoolsNamed(client.cloud, lb, PoolName(lbName, port.port))
      modifies client
      ensures client.Kept(lb) && client.StaysTidy() && client.lookupFaults == old(client.lookupFaults)
      ensures FatalLast(client.log, |old(client.log)|) && (ok <==> NoneFatal(client.log, |old(client.log)|))
      ensures ok && (MonitorsOf(old(client.cloud), pool) == map[] || Next(Rest(old(client.findFaults))) != NoFault) ==>
                client.log != [] &&
                client.log[|client.log| - 1].request == PostMonitor(pool, HealthFor(service, port.protocol))
      ensures client.cloud.pools == old(client.cloud.pools) && client.cloud.members == old(client.cloud.members)
      ensures Grown(old(client.cloud), client.cloud, lb, lbName, {port.port})
      ensures AddedFor(old(client.cloud), client.cloud, lb, lbName, service, {port})
      ensures Regular(old(client.cloud), old(client.findFaults), lb, lbName) ==>
                && client.StaysHealthy()
                && (ok <==>
                          ListenersNamed(old(client.cloud), lb, ListenerName(lbName, port.port)) != map[] ||
                          Honest(Next(old(client.faults))))
                && (ListenersNamed(client.cloud, lb, ListenerName(lbName, port.port)) == map[] <==>
                          ListenersNamed(old(client.cloud), lb, ListenerName(lbName, port.port)) == map[] &&
                          !ListenerCreated(client.log, |old(client.log)|))
      ensures Regular(old(client.cloud), old(client.findFaults), lb, lbName) && old(client.Holds(Healthy(lbName))) ==>
                && (ok ==> Bound(client.cloud, lb, lbName, port.port))
                && (Stranded(client.cloud, lb, pool) <==>
                          ListenersNamed(old(client.cloud), lb, ListenerName(lbName, port.port)) == map[] &&
                          !CarriedOut(Next(old(client.faults))))
                && (old(client.faults) == [] ==>
                      Served(client.cloud, lb, port.port, Addresses(old(client.cloud), pool), true))
                && (Ready(old(client.cloud), lb, lbName, port.port, pool) ==> ok && client.NothingSent())
    {
      hide ELBv3Client.Holds, Inv, Integrity, ViewOf, NoFalse404, NoErrorBody, ListenerCreated, Deliver, Grown,
           AddedFor, Served, Bound, Addresses, MembersOf, MonitorsOf, Changes, ListenersNamed, PoolsNamed,
           RightlyNamed, PoolIn, PoolName, ListenerName, Stranded, Changes, NoneFatal, FatalLast, Fatal, HealthFor;
      ghost var regular := Regular(client.cloud, client.findFaults, lb, lbName);
      ghost var healthy := regular && client.Holds(Healthy(lbName));
      ghost var s0, l0 := client.cloud, client.log;
      PoolNamedFacts(s0, lb, PoolName(lbName, port.port), pool);
      if regular {
        NamedTogether(s0, lb, lbName, port.port, pool);
      }

      ghost var w := PostListener(lb, ListenerName(lbName, port.port), port.protocol, port.port, pool);
      NoStep(s0, lb, lbName, service, port);
      ListenerGrows(s0, w, Next(client.faults), lb, lbName, port.port);
      ListenerAdded(s0, Next(client.faults), lb, lbName, service, port, pool);
      ghost var f := Next(client.faults);
      ok := client.EnsureListener(lb, pool, ListenerName(lbName, port.port), port.protocol, port.port);
      ghost var s1, l1 := client.cloud, client.log;
      ListenerStepLogged(l0, l1, EntryFor(s0, w, f));
      PoolNamedFacts(s1, lb, PoolName(lbName, port.port), pool);
      if healthy {
        client.HealthyHere(lbName, lb);
        PortStranded(s1, lb, lbName, port.port, pool);
      }
      if !ok {
        return;
      }

      ghost var w' := PostMonitor(pool, HealthFor(service, port.protocol));
      NoStep(s1, lb, lbName, service, port);
      MonitorGrows(s1, w', Next(client.faults), lb, lbName, port.port);
      MonitorAdded(s1, Next(client.faults), lb, lbName, service, port, pool);
      ghost var f' := Next(client.faults);
      var monitored := client.EnsureHealthMonitor(pool, HealthFor(service, port.protocol));
      MonitorStepLogged(l0, l1, client.log, EntryFor(s1, w', f'));
      OnePortTwice(s0, s1, client.cloud, lb, lbName, service, port);
      if healthy {
        SameMembers(s0, client.cloud, pool);
        client.HealthyHere(lbName, lb);
        PortBound(client.cloud, lb, lbName, port.port);
        if old(client.faults) == [] {
          PortServed(client.cloud, lb, lbName, port.port, pool, Addresses(s0, pool));
        }
      }
    }

    /** One service port: pool, members, listener, health monitor. */
    method EnsurePort(lb: Id, lbName: string, port: ServicePort, service: Service, nodes: seq<Node>) returns (ok: bool)
      requires Integrity(client.cloud)
      modifies client
      ensures client.Kept(lb)
      ensures Grown(old(client.cloud), client.cloud, lb, lbName, {port.port})
      ensures AddedFor(old(client.cloud), client.cloud, lb, lbName, service, {port})
      ensures OnlyWantedAdded(old(client.cloud), client.cloud, WantedIPs(nodes))
      ensures WantedStay(old(client.cloud), client.cloud, WantedIPs(nodes))
      // success, whatever fails
      ensures FatalLast(client.log, |old(client.log)|) && (ok ==> NoneFatal(client.log, |old(client.log)|))
      ensures client.lookupFaults == old(client.lookupFaults) || client.lookupFaults == Rest(old(client.lookupFaults))
      ensures lb in old(client.cloud.lbs) ==>
                && (ok <==> !Lost(Next(old(client.lookupFaults))) && NoneFatal(client.log, |old(client.log)|))
                && (NoneFatal(client.log, |old(client.log)|) ==> client.lookupFaults == Rest(old(client.lookupFaults)))
      ensures NoErrorBody(old(client.lookupFaults)) && DistinctIPs(nodes) ==> client.StaysTidy()
      ensures Regular(old(client.cloud), old(client.findFaults), lb, lbName) ==> client.StaysHealthy()
      ensures Regular(old(client.cloud), old(client.findFaults), lb, lbName) && old(client.Holds(Healthy(lbName))) ==>
                && (ok ==> Bound(client.cloud, lb, lbName, port.port))
                && PortResidue(old(client.cloud), client.cloud, lb, lbName, port.port, Next(old(client.faults)),
                      ListenerCreated(client.log, |old(client.log)|))
      ensures Regular(old(client.cloud), old(client.findFaults), lb, lbName) && old(client.Holds(Healthy(lbName))) ==>
                var wanted, reply := WantedIPs(nodes), Next(old(client.lookupFaults));
                && (old(client.faults) == [] && !Lost(reply) ==>
                      ok && Served(client.cloud, lb, port.port, wanted,
                              reply == NoFault && NoStaleTwins(old(client.cloud), lb, wanted)))
                && (reply == NoFault && DistinctIPs(nodes) && Served(old(client.cloud), lb, port.port, wanted, true) ==>
                      ok && client.NothingSent())
    {
      hide ELBv3Client.Holds, Inv, Integrity, ViewOf, NoFalse404, NoErrorBody, ListenerCreated, Grown, AddedFor,
           Served, Bound, Addresses, WantedIPs, DistinctIPs, PoolsNamed, ListenersNamed, PoolName, ListenerName,
           Ready, OnlyWantedAdded, WantedStay, NoStaleTwins, Stranded, PortResidue, NoneFatal, FatalLast, Lost,
           Changes;
      ghost var s0, l0, wanted := client.cloud, client.log, WantedIPs(nodes);
      ghost var healthy := Regular(s0, client.findFaults, lb, lbName) && client.Holds(Healthy(lbName));
      ghost var f, reply := Next(client.faults), Next(client.lookupFaults);
      var pool := EnsureBackends(lb, lbName, port, service, nodes);
      ghost var s1, l1 := client.cloud, client.log;
      SameListenersNamed(s0, s1);
      if pool.None? {
        if healthy {
          client.HealthyHere(lbName, lb);
          PortLeaves(s0, s1, lb, lbName, port.port, f, false);
        }
        return false;
      }
      ok := EnsureFrontend(lb, lbName, port, service, pool.value);
      OnePortTwice(s0, s1, client.cloud, lb, lbName, service, port);
      SameMembersAddWanted(s1, client.cloud, wanted);
      WantedAddedTwice(s0, s1, client.cloud, wanted);
      ListenerLoggedThen(l1, client.log, |l0|);
      FatalThen(l1, client.log, |l0|);
      if healthy {
        client.HealthyHere(lbName, lb);
        SamePoolsNamed(s1, client.cloud);
        PortLeaves(s0, client.cloud, lb, lbName, port.port, f, ListenerCreated(client.log, |l0|));
        if old(client.faults) == [] {
          ServedForLess(client.cloud, lb, port.port, Addresses(s1, pool.value), wanted,
                        reply == NoFault && NoStaleTwins(s0, lb, wanted));
        }
      }
    }

    /** The service port number i, after those before it have been ensured in the store s0. */
    method EnsureNextPort(lb: Id, lbName: string, service: Service, nodes: seq<Node>, i: nat, ghost s0: CloudState,
                          ghost exact: bool) returns (ok: bool)
      requires Integrity(client.cloud) && Integrity(s0) && i < |service.ports|
      requires GrownFor(s0, client.cloud, lb, lbName, service, nodes, i)
      modifies client
      ensures client.Kept(lb) && GrownFor(s0, client.cloud, lb, lbName, service, nodes, i + 1)
      ensures FatalLast(client.log, |old(client.log)|) && (ok ==> NoneFatal(client.log, |old(client.log)|))
      ensures lb in old(client.cloud.lbs) ==>
                && (ok <==> !Lost(Next(old(client.lookupFaults))) && NoneFatal(client.log, |old(client.log)|))
                && (ok ==> client.lookupFaults == Rest(old(client.lookupFaults)))
      ensures NoErrorBody(old(client.lookupFaults)) && DistinctIPs(nodes) ==> client.StaysTidy()
      ensures Regular(old(client.cloud), old(client.findFaults), lb, lbName) ==> client.StaysHealthy()
      ensures Regular(old(client.cloud), old(client.findFaults), lb, lbName) && old(client.Holds(Healthy(lbName))) ==>
                var ports, wanted, reply := service.ports, WantedIPs(nodes), Next(old(client.lookupFaults));
                && (ok && AllBound(old(client.cloud), lb, lbName, PortNumbers(ports[..i])) ==>
                      AllBound(client.cloud, lb, lbName, PortNumbers(ports[..i + 1])))
                && ((&& old(client.faults) == [] && !Lost(reply)
                     && (exact ==> reply == NoFault && NoStaleTwins(s0, lb, wanted))
                     && AllServed(old(client.cloud), lb, PortNumbers(ports[..i]), wanted, exact)) ==>
                      ok && AllServed(client.cloud, lb, PortNumbers(ports[..i + 1]), wanted, exact))
                && ((reply == NoFault && DistinctIPs(nodes) &&
                     AllServed(old(client.cloud), lb, PortNumbers(ports), wanted, true)) ==> ok && client.NothingSent())
    {
      hide ELBv3Client.Holds, Inv, Integrity, ViewOf, NoFalse404, NoErrorBody, Grown, AddedFor, Served, WantedIPs,
           DistinctIPs, PortNumbers, PortSet, AllServed, AllBound, Bound, OnlyWantedAdded, WantedStay, NoStaleTwins,
           PortResidue, ListenerCreated, Changes, NoneFatal, FatalLast, Lost, AddedForFirst, GrownFor;
      ghost var s1, ports, wanted := client.cloud, service.ports, WantedIPs(nodes);
      ghost var reply := Next(client.lookupFaults);
      ghost var healthy := Regular(s1, client.findFaults, lb, lbName) && client.Holds(Healthy(lbName));
      OnePortMore(s1, lb, ports, i, wanted);
      if healthy {
        client.HealthyHere(lbName, lb);
      }
      ok := EnsurePort(lb, lbName, service.ports[i], service, nodes);
      GrownForNext(s0, s1, client.cloud, lb, lbName, service, nodes, i);
      if healthy && ok && AllBound(s1, lb, lbName, PortNumbers(ports[..i])) {
        AllBoundMore(s1, client.cloud, lb, lbName, PortNumbers(ports[..i]), ports[i].port);
      }
      if healthy && old(client.faults) == [] && !Lost(reply) &&
         (exact ==> reply == NoFault && NoStaleTwins(s0, lb, wanted)) &&
         AllServed(s1, lb, PortNumbers(ports[..i]), wanted, exact) {
        TwinsAwayFor(s0, s1, lb, lbName, service, nodes, i);
        ServedLess(client.cloud, lb, ports[i].port, wanted, reply == NoFault && NoStaleTwins(s1, lb, wanted), exact);
        AllServedMore(s1, client.cloud, lb, PortNumbers(ports[..i]), ports[i].port, wanted, exact);
      }
    }

    method EnsureListeners(lb: Id, lbName: string, service: Service, nodes: seq<Node>) returns (ok: bool)
      requires Integrity(client.cloud)
      modifies client
      ensures client.Kept(lb)
      ensures Grown(old(client.cloud), client.cloud, lb, lbName, PortNumbers(service.ports))
      ensures AddedFor(old(client.cloud), client.cloud, lb, lbName, service, PortSet(service.ports))
      ensures OnlyWantedAdded(old(client.cloud), client.cloud, WantedIPs(nodes))
      ensures WantedStay(old(client.cloud), client.cloud, WantedIPs(nodes))
      // success, whatever fails: each port needs a reply to its member list and acknowledged creations
      ensures FatalLast(client.log, |old(client.log)|) && (ok ==> NoneFatal(client.log, |old(client.log)|))
      ensures lb in old(client.cloud.lbs) ==>
                && (ok <==> NoneFatal(client.log, |old(client.log)|) &&
                            Replied(old(client.lookupFaults), |service.ports|))
                && (forall k | 0 <= k < |service.ports| && Lost(FaultAt(old(client.lookupFaults), k)) ::
                      AddedForFirst(old(client.cloud), client.cloud, lb, lbName, service, k + 1))
      ensures NoErrorBody(old(client.lookupFaults)) && DistinctIPs(nodes) ==> client.StaysTidy()
      ensures Regular(old(client.cloud), old(client.findFaults), lb, lbName) ==> client.StaysHealthy()
      ensures Regular(old(client.cloud), old(client.findFaults), lb, lbName) && old(client.Holds(Healthy(lbName))) ==>
                (ok ==> AllBound(client.cloud, lb, lbName, PortNumbers(service.ports)))
      ensures Regular(old(client.cloud), old(client.findFaults), lb, lbName) && old(client.Holds(Healthy(lbName))) ==>
                var numbers, wanted := PortNumbers(service.ports), WantedIPs(nodes);
                && (old(client.faults) == [] && NoLost(old(client.lookupFaults)) ==>
                      && ok && AllServed(client.cloud, lb, numbers, wanted, old(client.lookupFaults) == [] &&
                                 NoStaleTwins(old(client.cloud), lb, wanted))
                      && LeftStranded(old(client.cloud), client.cloud, lb, lbName, numbers))
                && ((old(client.lookupFaults) == [] && DistinctIPs(nodes) &&
                     AllServed(old(client.cloud), lb, numbers, wanted, true)) ==> ok && client.NothingSent())
    {
      hide ELBv3Client.Holds, Inv, Integrity, ViewOf, NoFalse404, NoErrorBody, Grown, AddedFor, Served, WantedIPs,
           DistinctIPs, PortNumbers, PortSet, AllServed, AllBound, Bound, OnlyWantedAdded, WantedStay, NoStaleTwins,
           PortResidue, ListenerCreated, NoneFatal, FatalLast, Lost, NoLost, FaultAt, After, Replied, AddedForFirst,
           GrownFor, LeftStranded, NamedForPort, Changes;
      ghost var s0, ports, wanted := client.cloud, service.ports, WantedIPs(nodes);
      ghost var healthy := Regular(s0, client.findFaults, lb, lbName) && client.Holds(Healthy(lbName));
      ghost var l0, lf := client.log, client.lookupFaults;
      ghost var exact, clean := lf == [] && NoStaleTwins(s0, lb, wanted), NoLost(lf) && client.faults == [];
      AfterNext(lf, 0);
      RepliedOnce(lf, 0);
      NothingFatal(l0);
      GrownForNone(s0, lb, lbName, service, nodes);
      NoPortServed(s0, lb, ports, wanted, exact);
      for i := 0 to |service.ports|
        invariant client.Kept(lb)
        invariant NoneFatal(client.log, |l0|)
        invariant lb in s0.lbs ==> client.lookupFaults == After(lf, i)
        invariant lb in s0.lbs ==> Replied(lf, i)
        invariant NoErrorBody(old(client.lookupFaults)) && DistinctIPs(nodes) ==> client.StaysTidy()
        invariant Regular(s0, old(client.findFaults), lb, lbName) ==> client.StaysHealthy()
        invariant GrownFor(s0, client.cloud, lb, lbName, service, nodes, i)
        invariant healthy ==> AllBound(client.cloud, lb, lbName, PortNumbers(ports[..i]))
        invariant healthy && clean ==>
                  AllServed(client.cloud, lb, PortNumbers(ports[..i]), wanted, exact)
        invariant (healthy && old(client.lookupFaults) == [] && DistinctIPs(nodes) &&
                   AllServed(s0, lb, PortNumbers(ports), wanted, true)) ==> client.NothingSent()
      {
        ghost var l1 := client.log;
        AfterNext(lf, i);
        HeardAt(lf, i);
        RepliedOnce(lf, i);
        ok := EnsureNextPort(lb, lbName, service, nodes, i, s0, exact);
        FatalThen(l1, client.log, |l0|);
        if !ok {
          LostFrom(lf, i, |ports|);
          GrownForAll(s0, client.cloud, lb, lbName, service, nodes, i + 1);
          return false;
        }
      }
      assert ports[..|ports|] == ports;
      HarmlessThroughout(client.log, |l0|);
      LostFrom(lf, |ports|, |ports| + 1);
      GrownForAll(s0, client.cloud, lb, lbName, service, nodes, |ports|);
      if healthy && clean {
        client.HealthyHere(lbName, lb);
        ServedResidue(s0, client.cloud, lb, PortNumbers(ports), wanted, exact);
      }
      return true;
    }

    /** Delete the listed listeners nobody desires, each with its pool; failures are ignored. */
    method RemoveOrphans(lb: Id, items: seq<(Id, Listener)>, desired: set<string>)
      requires Integrity(client.cloud)
      requires items == [] || Lists(items, ListenersOf(client.cloud, lb))
      modifies client
      ensures client.Bounded(lb) && client.Steady()
      ensures client.findFaults == old(client.findFaults)
      ensures NoErrorBody(old(client.lookupFaults)) ==> NoErrorBody(client.lookupFaults)
      ensures NoLost(old(client.lookupFaults)) ==> NoLost(client.lookupFaults)
      // every listed orphan is asked to go, whatever fails
      ensures PartsOnly(client.log, |old(client.log)|)
      ensures items == [] ==> client.NothingSent() && client.lookupFaults == old(client.lookupFaults)
      ensures Lists(items, ListenersOf(old(client.cloud), lb)) ==>
                AskedToGo(old(client.cloud), client.log, |old(client.log)|, Orphans(old(client.cloud), lb, desired))
      ensures Inv(old(client.cloud), lb) ==>
                && Spared(old(client.cloud), client.cloud, Orphans(old(client.cloud), lb, desired))
                && (old(client.faults) == [] && Lists(items, ListenersOf(old(client.cloud), lb)) ==>
                      client.cloud == Pruned(old(client.cloud), Orphans(old(client.cloud), lb, desired)))
                && (Orphans(old(client.cloud), lb, desired) == {} ==> client.NothingSent())
    {
      hide ELBv3Client.Holds, Inv, Integrity, ViewOf, NoFalse404, NoErrorBody, Lists, ListenersOf, Spared, Orphans,
           Pruned, DropListeners, DropPool, Trimmed, Calm, Referenced, Stranded, Changes, Sent, PartsOnly,
           AskedToGo, NoLost, Stops;
      ghost var s0, regular := client.cloud, Inv(client.cloud, lb);
      ghost var orphans := Orphans(s0, lb, desired);
      ghost var gone: set<Id> := {};
      ghost var l0 := client.log;
      NothingSentYet(l0);
      NoneAsked(s0, l0);
      SparedBase(s0, orphans);
      for i := 0 to |items|
        invariant client.Bounded(lb) && client.Steady()
        invariant client.findFaults == old(client.findFaults)
        invariant NoErrorBody(old(client.lookupFaults)) ==> NoErrorBody(client.lookupFaults)
        invariant NoLost(old(client.lookupFaults)) ==> NoLost(client.lookupFaults)
        invariant PartsOnly(client.log, |l0|) && AskedToGo(s0, client.log, |l0|, gone)
        invariant items == [] ==> client.NothingSent() && client.lookupFaults == old(client.lookupFaults)
        invariant Sub(client.cloud.pools, s0.pools) && Sub(client.cloud.listeners, s0.listeners)
        invariant regular ==> Spared(s0, client.cloud, orphans)
        invariant gone <= orphans && forall k | i <= k < |items| :: items[k].0 !in gone
        invariant regular && old(client.faults) == [] ==> client.cloud == Pruned(s0, gone)
        invariant forall k | 0 <= k < i :: items[k].0 in orphans ==> items[k].0 in gone
        invariant orphans == {} ==> client.NothingSent()
      {
        var (id, listener) := items[i];
        ListedOrphan(s0, lb, items, i, desired);
        if listener.name !in desired {
          ghost var s1, l1 := client.cloud, client.log;
          OrphanParts(s0, s1, lb, id, desired);
          ghost var s2 := RemoveOrphan(lb, id, listener);
          OrphanRemoved(s0, s1, s2, client.cloud, id, lb, desired, gone);
          OneMoreAsked(s0, l1, client.log, |l0|, gone, id);
          gone := gone + {id};
        }
      }
      if Lists(items, ListenersOf(s0, lb)) {
        AllOrphans(s0, lb, items, desired, gone);
      }
    }

    /** One orphan: its listener first, then its pool, which is left without a listener exactly when
        the first deletion is carried out and the last is not. */
    method RemoveOrphan(lb: Id, id: Id, listener: Listener) returns (ghost middle: CloudState)
      requires Integrity(client.cloud)
      requires id in client.cloud.listeners ==> client.cloud.listeners[id].lb == lb
      requires listener.pool in client.cloud.pools ==> client.cloud.pools[listener.pool].lb == lb
      modifies client
      ensures client.Bounded(lb)
      ensures client.Steady()
      ensures client.findFaults == old(client.findFaults)
      ensures NoErrorBody(old(client.lookupFaults)) ==> NoErrorBody(client.lookupFaults)
      ensures NoLost(old(client.lookupFaults)) ==> NoLost(client.lookupFaults)
      ensures old(client.log) <= client.log && PartsOnly(client.log, |old(client.log)|)
      ensures Sent(client.log, |old(client.log)|, Write.DeleteListener(id))
      ensures listener.pool != NO_ID ==> Sent(client.log, |old(client.log)|, Write.DeletePool(listener.pool))
      ensures middle == old(client.cloud) || middle == DropListeners(old(client.cloud), {id})
      ensures client.cloud == middle || (listener.pool != NO_ID &&
                (Trimmed(middle, client.cloud, listener.pool) || client.cloud == DropPool(middle, listener.pool)))
      ensures old(client.faults) == [] ==>
                && middle == DropListeners(old(client.cloud), {id})
                && (listener.pool != NO_ID && !Referenced(middle, listener.pool) ==>
                          client.cloud == DropPool(middle, listener.pool))
      ensures Inv(old(client.cloud), lb) && id in old(client.cloud).listeners &&
              old(client.cloud).listeners[id] == listener ==>
                && client.log != [] && client.log[|client.log| - 1].request == Write.DeletePool(listener.pool)
                && (Stranded(client.cloud, lb, listener.pool) <==>
                      CarriedOut(Next(old(client.faults))) && !CarriedOut(client.log[|client.log| - 1].fault))
    {
      hide ELBv3Client.Holds, Inv, Integrity, ViewOf, NoFalse404, NoErrorBody, DropPool, Trimmed, Calm, Referenced,
           Stranded, Changes, Sent, PartsOnly, NoLost, Stops, Answered, FaultAt;
      ghost var s0, l0 := client.cloud, client.log;
      OneSent(l0, EntryFor(s0, Write.DeleteListener(id), Next(client.faults)));
      ListenerIsPart(l0, EntryFor(s0, Write.DeleteListener(id), Next(client.faults)));
      var _ := client.DeleteListener(id);
      middle := client.cloud;
      ghost var l1 := client.log;
      RestRead(client.lookupFaults);
      HeardAt(client.lookupFaults, 0);
      NothingSentYet(l1);
      if listener.pool != NO_ID {
        var _ := client.DeletePool(listener.pool);
        OnlyPartsStop(client.log, |l1|);
        LastSent(client.log, |l1|);
      }
      SentThen(l1, client.log, |l0|);
      if Inv(s0, lb) && id in s0.listeners && s0.listeners[id] == listener && listener.lb == lb {
        OrphanStranded(s0, middle, client.cloud, lb, id);
      }
    }

    method DesiredNames(lbName: string, ports: seq<ServicePort>) returns (names: set<string>)
      ensures NamesDesired(names, lbName, ports) && names == NamesOf(lbName, ports)
    {
      hide PortNumbers;
      names := {};
      NoPortNumbers(ports);
      for i := 0 to |ports|
        invariant NamesDesired(names, lbName, ports[..i])
      {
        OnePortMore(EmptyState(), NO_ID, ports, i, {});
        names := names + {ListenerName(lbName, ports[i].port)};
      }
      assert ports[..|ports|] == ports;
    }

    /** Remove the listeners the service no longer has, then ensure all it has.  Without a list of
        listeners, or with an error body instead of it, nothing is removed. */
    method SyncListeners(lb: Id, lbName: string, service: Service, nodes: seq<Node>) returns (ok: bool)
      requires Integrity(client.cloud)
      modifies client
      ensures client.Kept(lb)
      // success and requests, whatever fails
      ensures FatalLast(client.log, |old(client.log)|) && (ok ==> NoneFatal(client.log, |old(client.log)|))
      ensures lb in old(client.cloud.lbs) && NoLost(Rest(old(client.lookupFaults))) ==>
                (NoneFatal(client.log, |old(client.log)|) ==> ok)
      ensures if Next(old(client.lookupFaults)) == NoFault
              then AskedToGo(old(client.cloud), client.log, |old(client.log)|,
                     Orphans(old(client.cloud), lb, NamesOf(lbName, service.ports)))
              else Grown(old(client.cloud), client.cloud, lb, lbName, PortNumbers(service.ports))
      ensures NoErrorBody(old(client.lookupFaults)) && DistinctIPs(nodes) ==> client.StaysTidy()
      ensures Regular(old(client.cloud), old(client.findFaults), lb, lbName) ==> client.StaysHealthy()
      ensures Inv(old(client.cloud), lb) && IsNamed(old(client.cloud), lb, lbName) ==>
                && PortsKept(old(client.cloud), client.cloud, lb, PortNumbers(service.ports), WantedIPs(nodes))
                && Rebuilt(old(client.cloud), client.cloud, lb, lbName, service)
                && OnlyWantedAdded(old(client.cloud), client.cloud, WantedIPs(nodes))
      ensures Regular(old(client.cloud), old(client.findFaults), lb, lbName) && old(client.Holds(Healthy(lbName))) ==>
                var numbers, wanted := PortNumbers(service.ports), WantedIPs(nodes);
                && (ok ==> AllBound(client.cloud, lb, lbName, numbers))
                // without failing writes, whatever becomes of the list of listeners
                && (old(client.faults) == [] && NoLost(Rest(old(client.lookupFaults))) ==>
                      var exact := Rest(old(client.lookupFaults)) == [] && NoStaleTwins(old(client.cloud), lb, wanted);
                      && ok && LeftStranded(old(client.cloud), client.cloud, lb, lbName, numbers)
                      && AllServed(client.cloud, lb, numbers, wanted, exact)
                      && (Next(old(client.lookupFaults)) == NoFault ==>
                            Converged(client.cloud, lb, service.ports, wanted, exact)))
                && ((old(client.lookupFaults) == [] && DistinctIPs(nodes) &&
                     Converged(old(client.cloud), lb, service.ports, wanted, true)) ==> ok && client.NothingSent())
    {
      hide ELBv3Client.Holds, Inv, Integrity, ViewOf, NoFalse404, NoErrorBody, Grown, AllServed, AllBound,
           WantedIPs, DistinctIPs, PortNumbers, Lists, ListenersOf, Orphans, NamesOf, PortsKept, LeftStranded,
           AddedFor, PortSet, Rebuilt, OnlyWantedAdded, WantedStay, NoStaleTwins, Changes, NoneFatal, FatalLast,
           NoLost, Lost, AskedToGo, Sent, FaultAt, Replied;
      ghost var s0 := client.cloud;
      RestRead(client.lookupFaults);
      HeardThroughout(Rest(client.lookupFaults));
      var existing := client.ListListeners(lb);
      if existing.None? {
        ok := EnsureListeners(lb, lbName, service, nodes);
        if Inv(s0, lb) && IsNamed(s0, lb, lbName) {
          UnprunedKeepsPorts(s0, client.cloud, lb, service, WantedIPs(nodes));
        }
        return;
      }
      ok := SyncListed(lb, lbName, service, nodes, existing.value);
    }

    method SyncListed(lb: Id, lbName: string, service: Service, nodes: seq<Node>, items: seq<(Id, Listener)>)
      returns (ok: bool)
      requires Integrity(client.cloud) && (items == [] || Lists(items, ListenersOf(client.cloud, lb)))
      modifies client
      ensures client.Kept(lb)
      ensures FatalLast(client.log, |old(client.log)|) && (ok ==> NoneFatal(client.log, |old(client.log)|))
      ensures lb in old(client.cloud.lbs) && NoLost(old(client.lookupFaults)) ==>
                (NoneFatal(client.log, |old(client.log)|) ==> ok)
      ensures Lists(items, ListenersOf(old(client.cloud), lb)) ==>
                AskedToGo(old(client.cloud), client.log, |old(client.log)|,
                  Orphans(old(client.cloud), lb, NamesOf(lbName, service.ports)))
      ensures items == [] ==> Grown(old(client.cloud), client.cloud, lb, lbName, PortNumbers(service.ports))
      ensures NoErrorBody(old(client.lookupFaults)) && DistinctIPs(nodes) ==> client.StaysTidy()
      ensures Regular(old(client.cloud), old(client.findFaults), lb, lbName) ==> client.StaysHealthy()
      ensures Inv(old(client.cloud), lb) && IsNamed(old(client.cloud), lb, lbName) ==>
                && PortsKept(old(client.cloud), client.cloud, lb, PortNumbers(service.ports), WantedIPs(nodes))
                && Rebuilt(old(client.cloud), client.cloud, lb, lbName, service)
                && OnlyWantedAdded(old(client.cloud), client.cloud, WantedIPs(nodes))
      ensures Regular(old(client.cloud), old(client.findFaults), lb, lbName) && old(client.Holds(Healthy(lbName))) ==>
                var numbers, wanted := PortNumbers(service.ports), WantedIPs(nodes);
                && (ok ==> AllBound(client.cloud, lb, lbName, numbers))
                && (old(client.faults) == [] && NoLost(old(client.lookupFaults)) ==>
                      var exact := old(client.lookupFaults) == [] && NoStaleTwins(old(client.cloud), lb, wanted);
                      && ok && LeftStranded(old(client.cloud), client.cloud, lb, lbName, numbers)
                      && AllServed(client.cloud, lb, numbers, wanted, exact)
                      && (Lists(items, ListenersOf(old(client.cloud), lb)) ==>
                            Converged(client.cloud, lb, service.ports, wanted, exact)))
                && ((old(client.lookupFaults) == [] && DistinctIPs(nodes) &&
                     Converged(old(client.cloud), lb, service.ports, wanted, true)) ==> ok && client.NothingSent())
    {
      hide ELBv3Client.Holds, Inv, Integrity, ViewOf, NoFalse404, NoErrorBody, Grown, AllServed, AllBound,
           WantedIPs, DistinctIPs, PortNumbers, Lists, ListenersOf, Spared, Orphans, Pruned, NamesDesired,
           PortsKept, LeftStranded, AddedFor, PortSet, Rebuilt, OnlyWantedAdded, WantedStay, NoStaleTwins, Changes,
           NoneFatal, FatalLast, NoLost, Lost, NamesOf, AskedToGo, Sent, PartsOnly, FaultAt, Replied;
      ghost var managed := Inv(client.cloud, lb) && IsNamed(client.cloud, lb, lbName);
      ghost var healthy := Regular(client.cloud, client.findFaults, lb, lbName) && client.Holds(Healthy(lbName));
      ghost var s0, l0, numbers, wanted := client.cloud, client.log, PortNumbers(service.ports), WantedIPs(nodes);
      ghost var clean := client.faults == [] && NoLost(client.lookupFaults);
      ghost var exact := client.lookupFaults == [] && NoStaleTwins(s0, lb, wanted);
      if healthy {
        client.HealthyHere(lbName, lb);
      }
      var desired := DesiredNames(lbName, service.ports);
      RemoveOrphans(lb, items, desired);
      ghost var s1, l1, heard := client.cloud, client.log, client.lookupFaults == [];
      HeardThroughout(client.lookupFaults);
      assert NoneFatal(l1, |l0|) by { PartsAreHarmless(l1, |l0|); }
      if managed {
        NoOrphans(s0, lb, service.ports, desired, wanted);
        SpareKeepsTwinsAway(s0, s1, Orphans(s0, lb, desired), lb, wanted);
      }
      ok := EnsureListeners(lb, lbName, service, nodes);
      assert FatalLast(client.log, |l0|) && (NoneFatal(client.log, |l0|) <==> NoneFatal(client.log, |l1|)) by {
        FatalThen(l1, client.log, |l0|);
      }
      AskedBefore(s0, l1, client.log, |l0|, Orphans(s0, lb, desired));
      if managed {
        assert PortsKept(s0, client.cloud, lb, numbers, wanted) && Rebuilt(s0, client.cloud, lb, lbName, service) &&
               OnlyWantedAdded(s0, client.cloud, wanted) by {
          SyncKeepsPorts(s0, s1, client.cloud, lb, service.ports, desired, wanted);
          SyncRebuilds(s0, s1, client.cloud, lb, lbName, service, desired);
          WantedAddedTwice(s0, s1, client.cloud, wanted);
        }
        if healthy && clean && Lists(items, ListenersOf(s0, lb)) {
          AllServedLess(client.cloud, lb, numbers, wanted, heard && NoStaleTwins(s1, lb, wanted), exact);
          SyncConverges(s0, client.cloud, lb, service.ports, desired, wanted, exact);
          client.HealthyHere(lbName, lb);
          SyncResidue(s0, client.cloud, lb, numbers, desired, wanted, exact);
        }
      }
    }

    /*** Entry points ***/

    /** Find the load balancer, or create it when it is definitely absent. */
    method FindOrCreate(name: string, service: Service) returns (lb: Option<Id>)
      requires Integrity(client.cloud)
      modifies client
      ensures Tame(name)
      ensures client.lookupFaults == Rest(old(client.lookupFaults)) && client.findFaults == old(client.findFaults)
      ensures FatalLast(client.log, |old(client.log)|)
      ensures lb.Some? <==>
                Next(old(client.lookupFaults)) in {NoFault, Rejected(404)} && NoneFatal(client.log, |old(client.log)|)
      ensures client.StaysHealthy() && client.StaysTidy()
      ensures Next(old(client.lookupFaults)) != Rejected(404) ==> client.StaysSingle()
      ensures client.cloud == FoundOrCreated(old(client.cloud), name, service.withEip,
                Next(old(client.lookupFaults)), Next(old(client.faults)))
      ensures SameChildren(old(client.cloud), client.cloud) && Sub(old(client.cloud).lbs, client.cloud.lbs)
      ensures lb.Some? ==> IsNamed(client.cloud, lb.value, name)
      ensures old(client.lookupFaults) == [] && LoadBalancersNamed(old(client.cloud), name) != map[] ==>
                lb.Some? && client.NothingSent()
      ensures old(client.lookupFaults) == [] && old(client.faults) == [] ==>
                lb.Some? && BornWith(old(client.cloud), client.cloud, lb.value, name, service)
    {
      hide ELBv3Client.Holds, Inv, Integrity, ViewOf, NoFalse404, LoadBalancersNamed, Deliver, Changes, Fatal,
           NoneFatal, FatalLast;
      ghost var e := EntryFor(client.cloud, PostLoadBalancer(name, service.withEip), Next(client.faults));
      NothingFatal(client.log);
      OneFatal(client.log, e);
      LoadBalancerIsFatal(e);
      LoadBalancerPosted(client.cloud, name, service.withEip, Next(client.faults));
      var existing := client.GetLoadBalancer(name);
      match existing {
        case LookupFailed =>
          return None;
        case NotFound =>
          lb := client.CreateLoadBalancer(name, service.withEip);
        case Found(id, details) =>
          FoundIsNamed(client.cloud, name, id);
          return Some(id);
      }
    }

    method EnsureLoadBalancer(cluster: string, service: Service, nodes: seq<Node>) returns (ok: bool)
      requires Integrity(client.cloud)
      modifies client
      // whatever fails
      ensures var name := LoadBalancerName(cluster, service.namespace, service.name);
        && Tame(name)
        && Placed(old(client.cloud), client.cloud, name, service.withEip, Next(old(client.lookupFaults)),
              Next(old(client.faults)))
        && (exists b :: AddedFor(old(client.cloud), client.cloud, b, name, service, PortSet(service.ports)))
        && OnlyWantedAdded(old(client.cloud), client.cloud, WantedIPs(nodes))
        && WantedStay(old(client.cloud), client.cloud, WantedIPs(nodes))
      // success, whatever fails
      ensures FatalLast(client.log, |old(client.log)|)
      ensures ok <==>
                && Next(old(client.lookupFaults)) in {NoFault, Rejected(404)} &&
                      NoneFatal(client.log, |old(client.log)|)
                && Replied(Rest(old(client.lookupFaults)), |service.ports|)
      ensures Next(old(client.lookupFaults)) != Rejected(404) ==> client.StaysSingle()
      ensures NoErrorBody(old(client.lookupFaults)) && DistinctIPs(nodes) ==> client.StaysTidy()
      ensures old(client.findFaults) == [] ==> client.StaysHealthy()
      ensures old(client.findFaults) == [] &&
              old(client.Holds(Healthy(LoadBalancerName(cluster, service.namespace, service.name)))) ==>
                (ok ==> Fronted(client.cloud, LoadBalancerName(cluster, service.namespace, service.name), service))
      ensures old(client.lookupFaults) == [] && old(client.findFaults) == [] &&
              old(client.Holds(Healthy(LoadBalancerName(cluster, service.namespace, service.name)))) ==>
                var name, wanted := LoadBalancerName(cluster, service.namespace, service.name), WantedIPs(nodes);
                && (old(client.faults) == [] ==>
                      ok && exists b :: Deployed(old(client.cloud), client.cloud, b, cluster, service, nodes))
                && (DistinctIPs(nodes) && ServedUnder(old(client.cloud), name, service.ports, wanted) ==>
                      ok && client.NothingSent())
    {
      hide ELBv3Client.Holds, Inv, Integrity, ViewOf, NoFalse404, NoErrorBody, Grown, AddedFor, PortSet, AllServed,
           AllBound, Fronted, WantedIPs, DistinctIPs, PortNumbers, LoadBalancersNamed, FoundOrCreated, BornWith,
           Deployed, OnlyWantedAdded, WantedStay, NoStaleTwins, SameChildren, OthersUntouched, RecordsStay, Sub,
           Changes, NoneFatal, FatalLast, Lost, FaultAt, Replied;
      ghost var s0, l0, wanted := client.cloud, client.log, WantedIPs(nodes);
      RestRead(client.lookupFaults);
      var name := GetLoadBalancerName(cluster, service.namespace, service.name);
      var lb := FindOrCreate(name, service);
      ghost var s1, l1 := client.cloud, client.log;
      AddedNothing(s1, NO_ID, name, service, PortSet(service.ports));
      SameParts(s0, s1, s1, NO_ID, name, service);
      SameChildrenSameTwins(s0, s1, NO_ID, wanted);
      if lb.None? {
        return false;
      }
      SameChildrenSameTwins(s0, s1, lb.value, wanted);
      ok := EnsureListeners(lb.value, name, service, nodes);
      FatalThen(l1, client.log, |l0|);
      SameParts(s0, s1, client.cloud, lb.value, name, service);
      WantedAddedTwice(s0, s1, client.cloud, wanted);
      FrontedBy(client.cloud, lb.value, name, service);
      OthersStayUntouched(s0, s1, client.cloud, lb.value, name);
      assert old(client.lookupFaults) == [] ==>
               (AllServed(client.cloud, lb.value, PortNumbers(service.ports), wanted,
                  NoStaleTwins(s1, lb.value, wanted)) &&
                LeftStranded(s1, client.cloud, lb.value, name, PortNumbers(service.ports)) &&
                BornWith(s0, s1, lb.value, name, service) ==>
                  Deployed(s0, client.cloud, lb.value, cluster, service, nodes)) by {
        AllServedLess(client.cloud, lb.value, PortNumbers(service.ports), wanted,
                      NoStaleTwins(s1, lb.value, wanted), NoStaleTwins(s0, lb.value, wanted));
        DeployedWhen(s0, s1, client.cloud, lb.value, cluster, service, nodes);
      }
    }

    method UpdateLoadBalancer(cluster: string, service: Service, nodes: seq<Node>) returns (ok: bool)
      requires Integrity(client.cloud)
      modifies client
      // whatever fails
      ensures Tame(LoadBalancerName(cluster, service.namespace, service.name)) && client.StaysSingle()
      ensures client.cloud.lbs == old(client.cloud.lbs) && client.cloud.eips == old(client.cloud.eips)
      ensures old(client.Holds(Healthy(LoadBalancerName(cluster, service.namespace, service.name)))) ==>
                var name, wanted := LoadBalancerName(cluster, service.namespace, service.name), WantedIPs(nodes);
                && PortsKeptUnder(old(client.cloud), client.cloud, name, service, wanted)
                && OnlyWantedAdded(old(client.cloud), client.cloud, wanted)
      // success and requests, whatever fails
      ensures var found := Next(old(client.lookupFaults)) == NoFault &&
          LoadBalancersNamed(old(client.cloud), LoadBalancerName(cluster, service.namespace, service.name)) != map[];
        && (!found ==> !ok && client.NothingSent())
        && FatalLast(client.log, |old(client.log)|) && (ok ==> NoneFatal(client.log, |old(client.log)|))
        && (found && NoLost(Rest(Rest(old(client.lookupFaults)))) && NoneFatal(client.log, |old(client.log)|) ==> ok)
        && (found && Next(Rest(old(client.lookupFaults))) == NoFault ==>
              var name := LoadBalancerName(cluster, service.namespace, service.name);
              AskedUnder(old(client.cloud), client.log, |old(client.log)|, name, service.ports))
      ensures NoErrorBody(old(client.lookupFaults)) && DistinctIPs(nodes) ==> client.StaysTidy()
      ensures old(client.findFaults) == [] ==> client.StaysHealthy()
      ensures old(client.findFaults) == [] &&
              old(client.Holds(Healthy(LoadBalancerName(cluster, service.namespace, service.name)))) ==>
                (ok ==> Fronted(client.cloud, LoadBalancerName(cluster, service.namespace, service.name), service))
      // without failing writes, whatever becomes of the list of listeners
      ensures old(client.findFaults) == [] && old(client.faults) == [] &&
              NoLost(Rest(Rest(old(client.lookupFaults)))) && Next(old(client.lookupFaults)) == NoFault &&
              old(client.Holds(Healthy(LoadBalancerName(cluster, service.namespace, service.name)))) ==>
                var name := LoadBalancerName(cluster, service.namespace, service.name);
                && (ok <==> LoadBalancersNamed(old(client.cloud), name) != map[])
                && (ok ==> exists b ::
                      Refilled(old(client.cloud), client.cloud, b, name, service, nodes,
                        Next(Rest(old(client.lookupFaults))), Rest(Rest(old(client.lookupFaults)))))
      // without faults
      ensures old(client.lookupFaults) == [] && old(client.findFaults) == [] && old(client.faults) == [] &&
              old(client.Holds(Healthy(LoadBalancerName(cluster, service.namespace, service.name)))) ==>
                var name, wanted := LoadBalancerName(cluster, service.namespace, service.name), WantedIPs(nodes);
                && (ok <==> LoadBalancersNamed(old(client.cloud), name) != map[])
                && (!ok ==> client.NothingSent())
                && (ok ==> exists b :: Synchronised(old(client.cloud), client.cloud, b, name, service, nodes))
                && (DistinctIPs(nodes) && SettledIn(old(client.cloud), name, service.ports, wanted, true) ==>
                      client.NothingSent())
    {
      hide ELBv3Client.Holds, Inv, Integrity, ViewOf, NoFalse404, NoErrorBody, Converged, WantedIPs, DistinctIPs,
           PortNumbers, LoadBalancersNamed, LeftStranded, PortsKept, Rebuilt, PortsKeptUnder, AllBound, Fronted,
           OnlyWantedAdded, NoStaleTwins, OthersUntouched, RecordsStay, LoadBalancerName, Changes, NoneFatal,
           FatalLast, NoLost, Lost, AskedToGo, Orphans, NamesOf, Grown, AllServed, Refilled;
      ghost var s0, lf, wanted := client.cloud, client.lookupFaults, WantedIPs(nodes);
      RestRead(client.lookupFaults);
      var name := GetLoadBalancerName(cluster, service.namespace, service.name);
      assert PortsKeptUnder(s0, s0, name, service, wanted) by {
        OthersKeepPorts(s0, s0, NO_ID, name, service, wanted);
        PortsStay(s0, NO_ID, service, wanted);
      }
      NothingIsUntouched(s0, name);
      NothingFatal(client.log);
      HeardThroughout([]);
      WantedAddedTwice(s0, s0, s0, wanted);
      var existing := client.GetLoadBalancer(name);
      if !existing.Found? {
        return false;
      }
      FoundIsNamed(s0, name, existing.id);
      if old(client.Holds(Healthy(name))) {
        client.HealthyHere(name, existing.id);
      }
      ok := SyncListeners(existing.id, name, service, nodes);
      FrontedBy(client.cloud, existing.id, name, service);
      assert OthersUntouched(s0, client.cloud, name) && RecordsStay(s0, client.cloud) by {
        OthersStayUntouched(s0, s0, client.cloud, existing.id, name);
      }
      assert PortsKept(s0, client.cloud, existing.id, PortNumbers(service.ports), wanted) ==>
               PortsKeptUnder(s0, client.cloud, name, service, wanted) by {
        OthersKeepPorts(s0, client.cloud, existing.id, name, service, wanted);
      }
      RefilledWhen(s0, client.cloud, existing.id, name, service, nodes, Next(Rest(lf)), Rest(Rest(lf)));
      if old(client.lookupFaults) == [] && old(client.findFaults) == [] && old(client.Holds(Healthy(name))) &&
         old(client.faults) == [] {
        SynchronisedWhen(s0, client.cloud, existing.id, name, service, nodes);
      }
    }

    /** Release the bound elastic IP, delete listeners, pools and load balancer in this order, then
        release what the load balancer's details list.  `lb` is the load balancer found, if any. */
    method EnsureLoadBalancerDeleted(cluster: string, service: Service, patience: nat) returns (ok: bool, ghost lb: Id)
      requires Integrity(client.cloud)
      modifies client
      ensures Tame(LoadBalancerName(cluster, service.namespace, service.name))
      ensures client.Steady()
      // whatever fails
      ensures if lb == NO_ID then client.NothingSent()
              else IsNamed(old(client.cloud), lb, LoadBalancerName(cluster, service.namespace, service.name)) &&
                   EipsSettled(old(client.cloud), client.cloud, lb) && OnlyChanges(old(client.cloud), client.cloud, lb)
      ensures ok && lb != NO_ID ==>
                var details := old(client.cloud).lbs[lb];
                EndsWithReleases(client.log, |old(client.log)|, ReleaseOrder(details.eips, details.publicIps))
      // which requests are sent, whatever fails
      ensures lb != NO_ID <==>
                Next(old(client.lookupFaults)) == NoFault &&
                LoadBalancersNamed(old(client.cloud),
                    LoadBalancerName(cluster, service.namespace, service.name)) != map[]
      ensures lb == NO_ID ==> (ok <==> Next(old(client.lookupFaults)) in {NoFault, Rejected(404)})
      ensures lb != NO_ID ==>
                var port, lookups := old(client.cloud).lbs[lb].vipPort, Rest(old(client.lookupFaults));
                && Stops(client.log, |old(client.log)|)
                && (Sent(client.log, |old(client.log)|, Write.DeleteLoadBalancer(lb)) <==>
                      && !Lost(Next(AfterVip(port, lookups))) && !Lost(Next(Rest(AfterVip(port, lookups))))
                      && Answered(client.log, |old(client.log)|))
                && (!ok ==>
                      && !EndsConfirmed(client.log, |old(client.log)|, lb)
                      && VipReleaseFirst(client.log, |old(client.log)|, old(client.cloud), port, Next(lookups))
                      && GoneOnRequest(old(client.cloud), client.cloud, client.log, |old(client.log)|))
      // without false 404s
      ensures ok && NoFalse404(old(client.lookupFaults)) && NoFalse404(old(client.faults)) ==>
                var name := LoadBalancerName(cluster, service.namespace, service.name);
                && (lb == NO_ID <==> LoadBalancersNamed(old(client.cloud), name) == map[])
                && (lb != NO_ID ==> Erased(old(client.cloud), client.cloud, lb))
      // without faults
      ensures old(client.lookupFaults) == [] && old(client.faults) == [] ==>
                && ok && Calm(client.log, |old(client.log)|)
                && (OneMonitor(old(client.cloud), lb) ==> Emptied(client.log, |old(client.log)|))
                && (lb != NO_ID ==> TornDown(old(client.cloud), client.cloud, lb))
    {
      hide ELBv3Client.Holds, Inv, Integrity, ViewOf, NoFalse404, LoadBalancersNamed, Calm, DropLoadBalancer,
           OthersUntouched, OnlyChanges, RecordsStay, Released, ReleaseOrder, Requested, EndsWithReleases,
           EipsSettled, VipUnbound, Answered, Emptied, Erased, OneMonitor, Changes, Sent, Stops, PartsOnly,
           VipReleaseFirst, GoneOnRequest, EndsConfirmed, Lost;
      lb := NO_ID;
      ghost var s0 := client.cloud;
      NothingLogged(client.log);
      FalseNotFound(client.lookupFaults);
      var name := GetLoadBalancerName(cluster, service.namespace, service.name);
      NothingIsUntouched(s0, name);
      var existing := client.GetLoadBalancer(name);
      match existing {
        case LookupFailed =>
          return false, lb;
        case NotFound =>
          return true, lb;
        case Found(id, details) =>
          lb := id;
          FoundIsNamed(s0, name, id);
          LoadBalancerIdentified(s0, id);
          ok := TakeDown(id, name, details.vipPort, patience);
          OthersAreUntouched(s0, client.cloud, id, name);
          if !ok {
            return false, lb;
          }
          ghost var s1, l1, certain := client.cloud, client.log, client.faults == [];
          ReleaseOrphanedEips(details.eips, details.publicIps);
          EipsSettleReleased(s0, s1, client.cloud, id, certain);
          ChangesNoMore(s0, s1, client.cloud, id);
          OthersAreUntouched(s0, client.cloud, id, name);
          ReleasesAreLast(client.log, |old(client.log)|, |l1|, ReleaseOrder(details.eips, details.publicIps));
          LoggedThen(l1, client.log, |old(client.log)|);
          ConfirmedWasSent(l1, |old(client.log)|, id);
          ReleasesOnly(l1, client.log, |old(client.log)|, ReleaseOrder(details.eips, details.publicIps));
          NothingUnder(s0, client.cloud, id);
          return true, lb;
      }
    }

    /** The bound elastic IP, the listeners, the pools and the load balancer itself, in this order. */
    method TakeDown(lb: Id, ghost name: string, port: Id, patience: nat) returns (ok: bool)
      requires Integrity(client.cloud) && IsNamed(client.cloud, lb, name) && client.cloud.lbs[lb].vipPort == port
      modifies client
      ensures Goes() && client.Steady()
      ensures EipsSettled(old(client.cloud), client.cloud, lb) && OnlyChanges(old(client.cloud), client.cloud, lb)
      ensures client.cloud.lbs == old(client.cloud.lbs) || client.cloud.lbs == old(client.cloud.lbs) - {lb}
      ensures NoFalse404(old(client.faults)) && ok ==> lb !in client.cloud.lbs
      // which requests are sent, whatever fails
      ensures VipReleaseFirst(client.log, |old(client.log)|, old(client.cloud), port, Next(old(client.lookupFaults)))
      ensures GoneOnRequest(old(client.cloud), client.cloud, client.log, |old(client.log)|)
      ensures Stops(client.log, |old(client.log)|)
      ensures var lists := AfterVip(port, old(client.lookupFaults));
        Sent(client.log, |old(client.log)|, Write.DeleteLoadBalancer(lb)) <==>
          !Lost(Next(lists)) && !Lost(Next(Rest(lists))) && Answered(client.log, |old(client.log)|)
      ensures ok <==> EndsConfirmed(client.log, |old(client.log)|, lb)
      ensures old(client.lookupFaults) == [] && old(client.faults) == [] ==>
                && ok && Calm(client.log, |old(client.log)|)
                && (OneMonitor(old(client.cloud), lb) ==> Emptied(client.log, |old(client.log)|))
                && lb !in client.cloud.lbs && VipUnbound(old(client.cloud), client.cloud, lb)
    {
      hide ELBv3Client.Holds, Inv, Integrity, ViewOf, NoFalse404, Calm, DropLoadBalancer, OthersUntouched,
           OnlyChanges, OnlyTouches, RecordsStay, BoundEipReleased, EipsSettled, VipUnbound, Answered, Emptied,
           OneMonitor, Changes, VipReleaseFirst, GoneOnRequest, VipStep, EndsConfirmed, Lost, Sent, Stops;
      ghost var clean := client.lookupFaults == [] && client.faults == [];
      ghost var s0, l0, lookup := client.cloud, client.log, Next(client.lookupFaults);
      NoFaultsNoFalse404();
      ReleaseBoundEip(port);
      ghost var s1, l1 := client.cloud, client.log;
      EipsOnly(s0, s1, port, clean);
      ghost var s2;
      ok, s2 := DeleteWhole(lb, patience);
      assert EipsSettled(s0, client.cloud, lb) && OnlyChanges(s0, client.cloud, lb) &&
             (client.cloud.lbs == s0.lbs || client.cloud.lbs == s0.lbs - {lb}) by {
        SettledThroughout(s0, s1, s2, client.cloud, lb, clean);
      }
      assert VipReleaseFirst(client.log, |l0|, s0, port, lookup) && GoneOnRequest(s0, client.cloud, client.log, |l0|) &&
             Stops(client.log, |l0|) && (Answered(client.log, |l0|) <==> Answered(client.log, |l1|)) &&
             (Sent(client.log, |l0|, Write.DeleteLoadBalancer(lb)) <==>
                Sent(client.log, |l1|, Write.DeleteLoadBalancer(lb))) &&
             (EndsConfirmed(client.log, |l0|, lb) <==> EndsConfirmed(client.log, |l1|, lb)) by {
        WholeAfterVip(s0, s1, s2, client.cloud, l0, l1, client.log, port, lookup, lb);
      }
      if clean {
        SameMonitors(s0, s1, lb);
        LoggedThen(l1, client.log, |l0|);
        VipUnboundByDrop(s0, s1, s2, lb);
      }
    }

    /** The listeners, the pools and the load balancer itself; `middle` is the store before the last step. */
    method DeleteWhole(lb: Id, patience: nat) returns (ok: bool, ghost middle: CloudState)
      requires Integrity(client.cloud) && lb in client.cloud.lbs
      modifies client
      ensures Goes() && client.Steady()
      ensures OnlyTouches(old(client.cloud), middle, lb) && old(client.cloud).next <= middle.next
      ensures middle.lbs == old(client.cloud).lbs && middle.eips == old(client.cloud).eips
      ensures client.cloud == middle || client.cloud == DropLoadBalancer(middle, lb)
      ensures NoFalse404(old(client.faults)) && ok ==> lb !in client.cloud.lbs
      ensures forall i | |old(client.log)| <= i < |client.log| :: !client.log[i].request.ReleaseEip?
      ensures Stops(client.log, |old(client.log)|)
      ensures Sent(client.log, |old(client.log)|, Write.DeleteLoadBalancer(lb)) <==>
                !Lost(Next(old(client.lookupFaults))) && !Lost(Next(Rest(old(client.lookupFaults)))) &&
                Answered(client.log, |old(client.log)|)
      ensures ok <==> EndsConfirmed(client.log, |old(client.log)|, lb)
      ensures old(client.lookupFaults) == [] && old(client.faults) == [] ==>
                && ok && Calm(client.log, |old(client.log)|)
                && (OneMonitor(old(client.cloud), lb) ==> Emptied(client.log, |old(client.log)|))
                && lb !in client.cloud.lbs && client.cloud == DropLoadBalancer(middle, lb)
    {
      hide ELBv3Client.Holds, Inv, Integrity, ViewOf, NoFalse404, Calm, DropLoadBalancer, DropPools, DropListeners,
           ListenersOf, PoolsOf, HasChildren, SucceedsAt, Answered, Emptied, Pow, Conflicted, OneMonitor, Changes,
           Sent, Stops, PartsOnly, EndsConfirmed, Says, Lost;
      ghost var l0 := client.log;
      NoFaultsNoFalse404();
      ok := DeleteChildren(lb);
      middle := client.cloud;
      ghost var l1 := client.log;
      PartsAreNotWhole(l1, |l0|, lb);
      if !ok {
        return false, middle;
      }
      var deletion, waited := client.DeleteLoadBalancer(lb, patience);
      WholeAfterParts(l1, client.log, |l0|, lb);
      LoggedThen(l1, client.log, |l0|);
      return deletion.Deleted?, middle;
    }

    /** The listeners, then the pools with their members and monitors. */
    method DeleteChildren(lb: Id) returns (ok: bool)
      requires Integrity(client.cloud)
      modifies client
      ensures client.Bounded(lb)
      ensures client.Steady()
      ensures Stops(client.log, |old(client.log)|) && PartsOnly(client.log, |old(client.log)|)
      ensures ok <==> !Lost(Next(old(client.lookupFaults))) && !Lost(Next(Rest(old(client.lookupFaults)))) &&
                      Answered(client.log, |old(client.log)|)
      ensures Lost(Next(old(client.lookupFaults))) ==> client.NothingSent()
      ensures ok && Next(old(client.lookupFaults)) == NoFault ==>
                forall l | l in ListenersOf(old(client.cloud), lb) ::
                  Sent(client.log, |old(client.log)|, Write.DeleteListener(l))
      ensures ok && Next(Rest(old(client.lookupFaults))) == NoFault ==>
                forall p | p in PoolsOf(old(client.cloud), lb) ::
                  Sent(client.log, |old(client.log)|, Write.DeletePool(p))
      ensures old(client.lookupFaults) == [] && old(client.faults) == [] ==>
                && ok && Calm(client.log, |old(client.log)|)
                && (OneMonitor(old(client.cloud), lb) ==> Emptied(client.log, |old(client.log)|))
                && ListenersOf(client.cloud, lb) == map[] && PoolsOf(client.cloud, lb) == map[] &&
                          !HasChildren(client.cloud, lb)
    {
      hide ELBv3Client.Holds, Inv, Integrity, ViewOf, NoFalse404, Calm, Emptied, Answered, DropPools, DropListeners,
           ListenersOf, PoolsOf, HasChildren, Changes, Sent, Stops, PartsOnly;
      ghost var s0, l0 := client.cloud, client.log;
      ok := client.DeleteListeners(lb);
      ghost var s1, l1 := client.cloud, client.log;
      ListenersAreParts(l1, |l0|);
      if !ok {
        return;
      }
      SamePools(s0, s1, lb);
      SameMonitors(s0, s1, lb);
      ListenersGone(s0, lb);
      ok := client.DeletePools(lb);
      LoggedThen(l1, client.log, |l0|);
      SentThen(l1, client.log, |l0|);
      if old(client.lookupFaults) == [] && old(client.faults) == [] {
        PoolsGone(s1, lb);
      }
    }

    method ReleaseBoundEip(port: Id)
      requires Integrity(client.cloud)
      modifies client
      ensures EipsOnlyChanged()
      ensures client.lookupFaults == AfterVip(port, old(client.lookupFaults))
      ensures if port != NO_ID && Next(old(client.lookupFaults)) == NoFault && EipsOn(old(client.cloud), port) != map[]
              then exists e | e in EipsOn(old(client.cloud), port) :: client.SentOnce(ReleaseEip(e))
              else client.NothingSent()
      ensures VipStep(old(client.cloud), client.cloud, old(client.log), client.log, port,
                Next(old(client.lookupFaults)))
      ensures Calm(client.log, |old(client.log)|) && Emptied(client.log, |old(client.log)|)
      ensures BoundEipReleased(old(client.cloud), client.cloud, port, old(client.lookupFaults) == [] &&
                old(client.faults) == [])
    {
      hide ELBv3Client.Holds, Inv, Integrity, ViewOf, NoFalse404, Calm, Answered, Emptied, Changes, Sent, Stops,
           PartsOnly, VipStep;
      ghost var s0, l0, lookup, f := client.cloud, client.log, Next(client.lookupFaults), Next(client.faults);
      NothingLogged(l0);
      NothingReleased(s0, l0, port, lookup);
      if port != NO_ID {
        var bound := client.FindEip(port);
        if bound.Some? {
          OneLogged(l0, EntryFor(s0, ReleaseEip(bound.value), f));
          VipReleased(s0, l0, port, lookup, bound.value, f);
          var _ := client.ReleaseEip(bound.value);
        }
      }
    }

    /** One more release after those already requested since `from`. */
    method ReleaseNext(id: Id, ghost first: CloudState, ghost from: nat, ghost done: seq<Id>, ghost certain: bool)
      requires Integrity(client.cloud) && from <= |client.log|
      modifies client
      ensures EipsOnlyChanged()
      ensures Calm(old(client.log), from) ==> Calm(client.log, from)
      ensures Emptied(old(client.log), from) ==> Emptied(client.log, from)
      ensures Requested(old(client.log), from, done) ==> Requested(client.log, from, done + [id])
      ensures Released(first, old(client.cloud), done, certain) && (certain ==> old(client.faults) == []) ==>
                Released(first, client.cloud, done + [id], certain)
    {
      hide ELBv3Client.Holds, Inv, Integrity, ViewOf, NoFalse404, Calm, Answered, Emptied, Changes, Sent, Stops,
           PartsOnly;
      ghost var e := EntryFor(client.cloud, ReleaseEip(id), Next(client.faults));
      OneLogged(client.log, e);
      LoggedThen(client.log, client.log + [e], from);
      var _ := client.ReleaseEip(id);
    }

    /** Request the release of every listed elastic IP, without repeating one listed in both. */
    method ReleaseOrphanedEips(eips: seq<Id>, publicIps: seq<Id>)
      requires Integrity(client.cloud)
      modifies client
      ensures EipsOnlyChanged()
      ensures Calm(client.log, |old(client.log)|) && Emptied(client.log, |old(client.log)|)
      ensures Requested(client.log, |old(client.log)|, ReleaseOrder(eips, publicIps))
      ensures Released(old(client.cloud), client.cloud, ReleaseOrder(eips, publicIps), old(client.faults) == [])
    {
      hide ELBv3Client.Holds, Inv, Integrity, ViewOf, NoFalse404, Calm, Emptied, Requested, Released, Changes;
      ghost var s0, from, certain := client.cloud, |client.log|, client.faults == [];
      ReleaseNothing(s0, client.log, certain);
      for i := 0 to |eips|
        invariant EipsOnlyChanged() && Calm(client.log, from) && Emptied(client.log, from)
        invariant Requested(client.log, from, NonEmpty(eips[..i]))
        invariant Released(s0, client.cloud, NonEmpty(eips[..i]), certain)
      {
        assert eips[..i + 1][..i] == eips[..i];
        assert NonEmpty(eips[..i + 1]) == if eips[i] != NO_ID then NonEmpty(eips[..i]) +
            [eips[i]] else NonEmpty(eips[..i]);
        if eips[i] != NO_ID {
          ReleaseNext(eips[i], s0, from, NonEmpty(eips[..i]), certain);
        }
      }
      assert eips[..|eips|] == eips;
      ghost var first := NonEmpty(eips);
      assert first + NonEmptyNotIn(publicIps[..0], eips) == first;
      for i := 0 to |publicIps|
        invariant EipsOnlyChanged() && Calm(client.log, from) && Emptied(client.log, from)
        invariant Requested(client.log, from, first + NonEmptyNotIn(publicIps[..i], eips))
        invariant Released(s0, client.cloud, first + NonEmptyNotIn(publicIps[..i], eips), certain)
      {
        ghost var done := first + NonEmptyNotIn(publicIps[..i], eips);
        assert publicIps[..i + 1][..i] == publicIps[..i];
        assert first + NonEmptyNotIn(publicIps[..i + 1], eips) ==
               if publicIps[i] != NO_ID && publicIps[i] !in eips then done + [publicIps[i]] else done;
        if publicIps[i] != NO_ID {
          var alreadyReleased := IsListed(publicIps[i], eips);
          if !alreadyReleased {
            ReleaseNext(publicIps[i], s0, from, done, certain);
          }
        }
      }
      assert publicIps[..|publicIps|] == publicIps;
    }

    method IsListed(id: Id, eips: seq<Id>) returns (alreadyReleased: bool)
      ensures alreadyReleased <==> id in eips
    {
      alreadyReleased := false;
      for k := 0 to |eips|
        invariant !alreadyReleased && id !in eips[..k]
      {
        if eips[k] == id {
          alreadyReleased := true;
          break;
        }
      }
    }

    /** The log grows, and what cannot fail does not begin to. */
    twostate predicate Goes()
      reads this, client
    {
      && Integrity(client.cloud)
      && old(client.log) <= client.log
      && (old(client.faults) == [] ==> client.faults == [])
      && (old(client.lookupFaults) == [] ==> client.lookupFaults == [])
      && (NoFalse404(old(client.lookupFaults)) ==> NoFalse404(client.lookupFaults))
      && (NoFalse404(old(client.faults)) ==> NoFalse404(client.faults))
    }

    twostate predicate EipsOnlyChanged()
      reads this, client
    {
      && Goes() && client.Steady()
      && client.cloud == old(client.cloud).(eips := client.cloud.eips)
    }

    /** What every call for the load balancer of this name keeps, whatever fails. */
    twostate predicate Tame(name: string)
      reads this, client
    {
      && Integrity(client.cloud)
      && old(client.log) <= client.log
      && (old(client.faults) == [] ==> client.faults == [])
      && (old(client.lookupFaults) == [] ==> client.lookupFaults == [])
      && (NoFalse404(old(client.lookupFaults)) ==> NoFalse404(client.lookupFaults))
      && (forall c | !Affected(c, name) :: old(client.Holds(c)) ==> client.Holds(c))
      && RecordsStay(old(client.cloud), client.cloud)
      && OthersUntouched(old(client.cloud), client.cloud, name)
    }
  }
}
