// Synchronising a load balancer with its service: pruning orphans, serving all ports, and what
// a whole call for one load balancer leaves of the others.
module Synchronisation {
  import opened Cloud
  import opened Naming
  import opened Discipline
  import opened Goal
  import opened Requests
  import opened Members
  import opened Deletion
  import opened Convergence
  import opened ServicePorts

  /*** Orphans ***/

  lemma ListedOrphan(s: CloudState, lb: Id, items: seq<(Id, Listener)>, i: nat, desired: set<string>)
    requires Integrity(s) && Lists(items, ListenersOf(s, lb)) && i < |items|
    ensures ReferencesResolve(s)
    ensures items[i].0 in s.listeners && s.listeners[items[i].0] == items[i].1 && items[i].1.lb == lb
    ensures items[i].0 in Orphans(s, lb, desired) <==> items[i].1.name !in desired
    ensures forall k | i < k < |items| :: items[k].0 != items[i].0
    ensures Orphans(s, lb, desired) <= s.listeners.Keys
  {
  }

  lemma OrphanParts(s: CloudState, t: CloudState, lb: Id, l: Id, desired: set<string>)
    requires Integrity(s) && l in Orphans(s, lb, desired)
    requires Sub(t.pools, s.pools) && Sub(t.listeners, s.listeners)
    ensures l in s.listeners && s.listeners[l].lb == lb
    ensures s.listeners[l].pool in PoolsOfListeners(s, Orphans(s, lb, desired))
    ensures l in t.listeners ==> t.listeners[l].lb == lb
    ensures s.listeners[l].pool in t.pools ==> t.pools[s.listeners[l].pool].lb == lb
  {
  }

  lemma StateShrinks(first: CloudState, s: CloudState, t: CloudState, u: CloudState, l: Id, p: Id)
    requires Sub(s.pools, first.pools) && Sub(s.listeners, first.listeners)
    requires t == s || t == DropListeners(s, {l})
    requires u == t || Trimmed(t, u, p) || u == DropPool(t, p)
    ensures Sub(u.pools, first.pools) && Sub(u.listeners, first.listeners)
  {
  }

  lemma OrphanRemoved(first: CloudState, s: CloudState, t: CloudState, u: CloudState, l: Id, lb: Id,
                      desired: set<string>, gone: set<Id>)
    requires Integrity(first) && l in first.listeners && l in Orphans(first, lb, desired) && l !in gone
    requires Sub(s.pools, first.pools) && Sub(s.listeners, first.listeners)
    requires t == s || t == DropListeners(s, {l})
    requires var p := first.listeners[l].pool;
      u == t || (p != NO_ID && (Trimmed(t, u, p) || u == DropPool(t, p)))
    ensures Sub(u.pools, first.pools) && Sub(u.listeners, first.listeners)
    ensures Spared(first, s, Orphans(first, lb, desired)) ==> Spared(first, u, Orphans(first, lb, desired))
    ensures var p := first.listeners[l].pool;
      (&& Inv(first, lb) && gone <= first.listeners.Keys && s == Pruned(first, gone) && t == DropListeners(s, {l})
       && (p != NO_ID && !Referenced(t, p) ==> u == DropPool(t, p))) ==> u == Pruned(first, gone + {l})
  {
    hide Inv, Spared, Orphans, Pruned, Referenced, PoolsOfListeners, Integrity, Trimmed, DropPool, DropListeners,
         Sub;
    StateShrinks(first, s, t, u, l, first.listeners[l].pool);
    var p, orphans := first.listeners[l].pool, Orphans(first, lb, desired);
    OrphanParts(first, s, lb, l, desired);
    if Spared(first, s, orphans) {
      SparedAfterListener(first, s, orphans, l);
      if u != t {
        SparedAfterPool(first, t, u, orphans, p);
      }
    }
    if Inv(first, lb) && gone <= first.listeners.Keys && s == Pruned(first, gone) {
      PruneOneMore(first, lb, gone, l);
    }
  }

  /** An orphan's pool has no other listener, so it is left without one exactly when its listener goes
      and it does not. */
  lemma OrphanStranded(s: CloudState, t: CloudState, u: CloudState, lb: Id, l: Id)
    requires Inv(s, lb) && l in s.listeners && s.listeners[l].lb == lb
    requires t == s || t == DropListeners(s, {l})
    requires u == t || Trimmed(t, u, s.listeners[l].pool) || u == DropPool(t, s.listeners[l].pool)
    ensures var p := s.listeners[l].pool;
      && p != NO_ID
      && (Stranded(u, lb, p) <==> t != s && p in u.pools)
      && (t != s ==> !Referenced(t, p)) && (t == s ==> Referenced(t, p))
      && p in s.pools
  {
    hide NamesFollowPorts, UniqueListeners, UniquePools, OneMonitor, IdentifiersUsed;
    ManagedPool(s, lb, l);
    var p := s.listeners[l].pool;
    forall k | k in s.listeners && s.listeners[k].pool == p ensures k == l {
      ListenersOwnTheirPools(s, lb, l, k);
    }
    if t != s {
      assert l !in t.listeners;
    } else {
      assert l in u.listeners;
    }
  }

  /** The deletion of each of the listeners, and of its pool, was requested. */
  ghost predicate AskedToGo(s: CloudState, log: seq<Entry>, from: nat, ls: set<Id>)
  {
    forall l | l in ls && l in s.listeners ::
      && Sent(log, from, Write.DeleteListener(l))
      && (s.listeners[l].pool != NO_ID ==> Sent(log, from, Write.DeletePool(s.listeners[l].pool)))
  }

  lemma NoneAsked(s: CloudState, log: seq<Entry>)
    ensures AskedToGo(s, log, |log|, {})
  {
  }

  /** The listeners that a load balancer of this name has beyond the ports were asked to go. */
  ghost predicate AskedUnder(s: CloudState, log: seq<Entry>, from: nat, name: string, ports: seq<ServicePort>)
  {
    exists b :: IsNamed(s, b, name) && AskedToGo(s, log, from, Orphans(s, b, NamesOf(name, ports)))
  }

  lemma AskedBefore(s: CloudState, earlier: seq<Entry>, log: seq<Entry>, from: nat, ls: set<Id>)
    requires from <= |earlier| && earlier <= log
    ensures AskedToGo(s, earlier, from, ls) ==> AskedToGo(s, log, from, ls)
  {
    hide Sent;
    SentThen(earlier, log, from);
  }

  lemma OneMoreAsked(s: CloudState, earlier: seq<Entry>, log: seq<Entry>, from: nat, ls: set<Id>, l: Id)
    requires from <= |earlier| && earlier <= log && AskedToGo(s, earlier, from, ls)
    requires PartsOnly(earlier, from) && PartsOnly(log, |earlier|)
    requires l in s.listeners ==>
               && Sent(log, |earlier|, Write.DeleteListener(l))
               && (s.listeners[l].pool != NO_ID ==> Sent(log, |earlier|, Write.DeletePool(s.listeners[l].pool)))
    ensures AskedToGo(s, log, from, ls + {l}) && PartsOnly(log, from)
  {
    hide Sent, PartsOnly;
    SentThen(earlier, log, from);
  }

  lemma AllOrphans(s: CloudState, lb: Id, items: seq<(Id, Listener)>, desired: set<string>, gone: set<Id>)
    requires Lists(items, ListenersOf(s, lb))
    requires gone <= Orphans(s, lb, desired)
    requires forall k | 0 <= k < |items| :: items[k].0 in Orphans(s, lb, desired) ==> items[k].0 in gone
    ensures gone == Orphans(s, lb, desired)
  {
    var found := ListenersOf(s, lb);
    forall l | l in Orphans(s, lb, desired) ensures l in gone {
      assert l in found && (l, found[l]) in items;
    }
  }

  /*** Synchronisation ***/

  ghost function EmptyState(): CloudState
  {
    CloudState(map[], map[], map[], map[], map[], map[], 1)
  }

  lemma NoPortNumbers(ports: seq<ServicePort>)
    ensures PortNumbers(ports[..0]) == {}
  {
  }

  /** Listeners for the service's port numbers are neither removed nor rebound, and their pools keep
      the members for wanted addresses, whatever fails. */
  ghost predicate PortsKept(s: CloudState, t: CloudState, lb: Id, numbers: set<int>, wanted: set<string>)
  {
    forall l :: l in s.listeners && s.listeners[l].lb == lb && s.listeners[l].port in numbers ==>
      && l in t.listeners && t.listeners[l] == s.listeners[l]
      && (s.listeners[l].pool in s.pools ==> s.listeners[l].pool in t.pools)
      && WantedKept(s, t, s.listeners[l].pool, wanted)
  }

  ghost predicate WantedKept(s: CloudState, t: CloudState, pool: Id, wanted: set<string>)
  {
    forall m :: m in s.members && s.members[m].pool == pool && s.members[m].address in wanted ==>
      m in t.members && t.members[m] == s.members[m]
  }

  /** The pools of lb without a listener are exactly those that were without one before, less those
      the service's ports are named for. */
  ghost predicate LeftStranded(s: CloudState, t: CloudState, lb: Id, lbName: string, numbers: set<int>)
  {
    && (forall p :: Stranded(t, lb, p) <==> Stranded(s, lb, p) && !NamedForPort(s, p, lb, lbName, numbers))
    && (forall p :: Stranded(t, lb, p) ==> t.pools[p] == s.pools[p])
  }

  /** Nothing but the load balancer's listeners, pools, members and monitors changes. */
  ghost predicate OnlyTouches(s: CloudState, t: CloudState, lb: Id)
  {
    forall c :: c != lb ==> ViewOf(t, c) == ViewOf(s, c)
  }

  /** Every pool without a listener was already without one. */
  ghost predicate NothingStranded(s: CloudState, t: CloudState)
  {
    forall b, p :: Stranded(t, b, p) ==> Stranded(s, b, p)
  }

  lemma SameViewSameStranded(s: CloudState, t: CloudState, lb: Id, pool: Id)
    requires Integrity(s) && Integrity(t) && ViewOf(t, lb) == ViewOf(s, lb)
    ensures Stranded(t, lb, pool) ==> Stranded(s, lb, pool)
  {
    hide MembersIn, MonitorsIn, IdentifiersUsed;
    if Stranded(t, lb, pool) {
      assert pool in ViewOf(t, lb).pools;
      PoolIdentified(s, pool);
      forall l | l in s.listeners && s.listeners[l].lb == lb ensures s.listeners[l].pool != pool {
        assert l in ViewOf(s, lb).listeners && ViewOf(t, lb).listeners[l] == s.listeners[l];
      }
    }
  }

  lemma ResidueStrandsNothing(s: CloudState, t: CloudState, lb: Id, lbName: string, numbers: set<int>)
    requires Integrity(s) && Integrity(t)
    requires LeftStranded(s, t, lb, lbName, numbers) && OnlyTouches(s, t, lb)
    ensures NothingStranded(s, t)
  {
    hide Integrity, ViewOf, NamedForPort, Stranded;
    forall b, p | Stranded(t, b, p) ensures Stranded(s, b, p) {
      if b != lb {
        SameViewSameStranded(s, t, b, p);
      }
    }
  }

  lemma NoOrphans(s: CloudState, lb: Id, ports: seq<ServicePort>, desired: set<string>, wanted: set<string>)
    requires Inv(s, lb) && lb in s.lbs && NamesDesired(desired, s.lbs[lb].name, ports)
    ensures Converged(s, lb, ports, wanted, true) ==> Orphans(s, lb, desired) == {}
  {
    hide Inv, NamesDesired, PortNumbers, AllServed;
    if Converged(s, lb, ports, wanted, true) {
      forall l ensures l !in Orphans(s, lb, desired) {
        if l in s.listeners && s.listeners[l].lb == lb {
          OrphanPorts(s, lb, ports, desired, l);
        }
      }
    }
  }

  lemma SyncKeepsPorts(s: CloudState, t: CloudState, u: CloudState, lb: Id, ports: seq<ServicePort>,
                       desired: set<string>, wanted: set<string>)
    requires Inv(s, lb) && lb in s.lbs && NamesDesired(desired, s.lbs[lb].name, ports)
    requires Spared(s, t, Orphans(s, lb, desired))
    requires Grown(t, u, lb, s.lbs[lb].name, PortNumbers(ports)) && WantedStay(t, u, wanted)
    ensures PortsKept(s, u, lb, PortNumbers(ports), wanted)
  {
    hide NamesFollowPorts, UniqueListeners, UniquePools, OneMonitor, NamesDesired, PortNumbers, NamedForPort;
    var orphans := Orphans(s, lb, desired);
    forall l | l in s.listeners && s.listeners[l].lb == lb && s.listeners[l].port in PortNumbers(ports)
      ensures l in u.listeners && u.listeners[l] == s.listeners[l] && s.listeners[l].pool in u.pools
      ensures WantedKept(s, u, s.listeners[l].pool, wanted)
    {
      OrphanPorts(s, lb, ports, desired, l);
      ManagedPool(s, lb, l);
      if s.listeners[l].pool in PoolsOfListeners(s, orphans) {
        var k :| k in orphans && k in s.listeners && s.listeners[k].pool == s.listeners[l].pool;
        ListenersOwnTheirPools(s, lb, l, k);
      }
      SameMembersWantedKept(s, t, u, s.listeners[l].pool, wanted);
    }
  }

  lemma SameMembersWantedKept(s: CloudState, t: CloudState, u: CloudState, pool: Id, wanted: set<string>)
    requires MembersOf(t, pool) == MembersOf(s, pool) && WantedStay(t, u, wanted)
    ensures WantedKept(s, u, pool, wanted)
  {
    forall m | m in s.members && s.members[m].pool == pool ensures m in t.members && t.members[m] == s.members[m] {
      assert m in MembersOf(s, pool);
    }
  }

  /** Without a list of listeners nothing is pruned. */
  lemma UnprunedKeepsPorts(s: CloudState, t: CloudState, lb: Id, service: Service, wanted: set<string>)
    requires Inv(s, lb) && lb in s.lbs
    requires Grown(s, t, lb, s.lbs[lb].name, PortNumbers(service.ports)) && WantedStay(s, t, wanted)
    requires AddedFor(s, t, lb, s.lbs[lb].name, service, PortSet(service.ports))
    ensures PortsKept(s, t, lb, PortNumbers(service.ports), wanted) && Rebuilt(s, t, lb, s.lbs[lb].name, service)
  {
    hide Inv, Spared, Grown, AddedFor, Orphans, NamesOf, PortsKept, Rebuilt;
    var desired := NamesOf(s.lbs[lb].name, service.ports);
    SparedBase(s, Orphans(s, lb, desired));
    SyncKeepsPorts(s, s, t, lb, service.ports, desired, wanted);
    SyncRebuilds(s, s, t, lb, s.lbs[lb].name, service, desired);
  }

  lemma SyncRebuilds(s: CloudState, t: CloudState, u: CloudState, lb: Id, lbName: string, service: Service,
                     desired: set<string>)
    requires NamesDesired(desired, lbName, service.ports)
    requires Spared(s, t, Orphans(s, lb, desired)) && AddedFor(t, u, lb, lbName, service, PortSet(service.ports))
    ensures Rebuilt(s, u, lb, lbName, service)
  {
    hide Spared, Orphans, AddedFor, PortSet;
    assert RebuiltVia(s, t, u, lb, lbName, service);
  }

  lemma SyncConverges(s: CloudState, u: CloudState, lb: Id, ports: seq<ServicePort>, desired: set<string>,
                      wanted: set<string>, exact: bool)
    requires Inv(s, lb) && lb in s.lbs && NamesDesired(desired, s.lbs[lb].name, ports)
    requires Grown(Pruned(s, Orphans(s, lb, desired)), u, lb, s.lbs[lb].name, PortNumbers(ports))
    requires AllServed(u, lb, PortNumbers(ports), wanted, exact)
    ensures Converged(u, lb, ports, wanted, exact)
  {
    hide UniqueListeners, UniquePools, OneMonitor, NamesDesired, PortNumbers, MembersOf, AllServed;
    var orphans := Orphans(s, lb, desired);
    var t := Pruned(s, orphans);
    forall l | l in u.listeners && u.listeners[l].lb == lb ensures u.listeners[l].port in PortNumbers(ports) {
      if l in t.listeners {
        OrphanPorts(s, lb, ports, desired, l);
      }
    }
  }

  /** Pruning orphans strands nothing: whatever pool of a listener goes, its listener goes with it,
      and pools no orphan uses stay as they are. */
  lemma PruningStrands(s: CloudState, lb: Id, orphans: set<Id>, p: Id)
    requires Inv(s, lb) && orphans <= ListenersOf(s, lb).Keys
    ensures Stranded(Pruned(s, orphans), lb, p) <==> Stranded(s, lb, p)
    ensures Stranded(s, lb, p) ==> Pruned(s, orphans).pools[p] == s.pools[p]
  {
    hide UniqueListeners, UniquePools, OneMonitor, NamesFollowPorts, IdentifiersUsed;
    var t := Pruned(s, orphans);
    if PoolIn(t, p, lb) && Referenced(s, p) {
      var l :| l in s.listeners && s.listeners[l].pool == p;
      assert l !in orphans;
      assert l in t.listeners;
    }
    assert Stranded(s, lb, p) ==> p !in PoolsOfListeners(s, orphans);
  }

  /** When every port is served, growth strands nothing and the pools of the ports are in use. */
  lemma ServingStrands(s: CloudState, t: CloudState, lb: Id, numbers: set<int>, wanted: set<string>, exact: bool, p: Id)
    requires ReferencesResolve(s) && Inv(t, lb) && lb in t.lbs
    requires Grown(s, t, lb, t.lbs[lb].name, numbers) && AllServed(t, lb, numbers, wanted, exact)
    ensures Stranded(t, lb, p) <==> Stranded(s, lb, p) && !NamedForPort(s, p, lb, t.lbs[lb].name, numbers)
    ensures Stranded(t, lb, p) ==> t.pools[p] == s.pools[p]
  {
    hide UniqueListeners, OneMonitor, IdentifiersUsed, MembersOf, Addresses, MonitorsOf, PoolName, ListenerName;
    var name := t.lbs[lb].name;
    if NamedForPort(t, p, lb, name, numbers) {
      var n :| n in numbers && t.pools[p].name == PoolName(name, n);
      var l, q :| Serves(t, lb, n, wanted, exact, l, q);
      assert p == q && Referenced(t, p);
    } else if PoolIn(t, p, lb) {
      assert p in s.pools;
      PoolIdentified(t, p);
      forall l | l in t.listeners && l !in s.listeners ensures t.listeners[l].pool != p {
        assert t.listeners[l].pool == p ==> NamedForPort(t, p, lb, name, numbers);
      }
      assert Referenced(t, p) <==> Referenced(s, p);
    }
  }

  /** Pruning and then serving all ports leaves the stranded pools there were, less the ports' own. */
  lemma SyncResidue(s: CloudState, u: CloudState, lb: Id, numbers: set<int>, desired: set<string>, wanted: set<string>,
                    exact: bool)
    requires Inv(s, lb) && Inv(u, lb) && lb in u.lbs
    requires Grown(Pruned(s, Orphans(s, lb, desired)), u, lb, u.lbs[lb].name, numbers)
    requires AllServed(u, lb, numbers, wanted, exact)
    ensures LeftStranded(s, u, lb, u.lbs[lb].name, numbers)
  {
    hide Inv, Grown, AllServed, Orphans, Pruned, Referenced, NamedForPort;
    var t := Pruned(s, Orphans(s, lb, desired));
    OrphansListed(s, lb, desired);
    PrunedResolves(s, lb, Orphans(s, lb, desired));
    forall p
      ensures Stranded(u, lb, p) <==> Stranded(s, lb, p) && !NamedForPort(s, p, lb, u.lbs[lb].name, numbers)
      ensures Stranded(u, lb, p) ==> u.pools[p] == s.pools[p]
    {
      PruningStrands(s, lb, Orphans(s, lb, desired), p);
      ServingStrands(t, u, lb, numbers, wanted, exact, p);
      SamePoolSameName(s, t, lb, u.lbs[lb].name, numbers, p);
    }
  }

  lemma ServedResidue(s: CloudState, t: CloudState, lb: Id, numbers: set<int>, wanted: set<string>, exact: bool)
    requires Integrity(s) && Inv(t, lb) && lb in t.lbs
    requires Grown(s, t, lb, t.lbs[lb].name, numbers) && AllServed(t, lb, numbers, wanted, exact)
    ensures LeftStranded(s, t, lb, t.lbs[lb].name, numbers)
  {
    hide Inv, Grown, AllServed, Referenced, NamedForPort, IdentifiersUsed;
    forall p
      ensures Stranded(t, lb, p) <==> Stranded(s, lb, p) && !NamedForPort(s, p, lb, t.lbs[lb].name, numbers)
      ensures Stranded(t, lb, p) ==> t.pools[p] == s.pools[p]
    {
      ServingStrands(s, t, lb, numbers, wanted, exact, p);
    }
  }

  lemma SamePoolSameName(s: CloudState, t: CloudState, lb: Id, lbName: string, numbers: set<int>, p: Id)
    ensures PoolIn(s, p, lb) && PoolIn(t, p, lb) && s.pools[p] == t.pools[p] ==>
              (NamedForPort(s, p, lb, lbName, numbers) <==> NamedForPort(t, p, lb, lbName, numbers))
  {
    hide PoolName;
  }

  lemma OrphansListed(s: CloudState, lb: Id, desired: set<string>)
    ensures Orphans(s, lb, desired) <= ListenersOf(s, lb).Keys
  {
  }

  lemma PrunedResolves(s: CloudState, lb: Id, orphans: set<Id>)
    requires Inv(s, lb) && orphans <= ListenersOf(s, lb).Keys
    ensures ReferencesResolve(Pruned(s, orphans))
  {
    hide UniqueListeners, UniquePools, OneMonitor, IdentifiersUsed;
    var t := Pruned(s, orphans);
    forall l | l in t.listeners && t.listeners[l].pool != NO_ID
      ensures PoolIn(t, t.listeners[l].pool, t.listeners[l].lb)
    {
      if k :| k in orphans && s.listeners[k].pool == s.listeners[l].pool {
        ListenersOwnTheirPools(s, lb, k, l);
      }
    }
  }

  /*** Calls ***/

  /** Load balancers under other names, and all they own, are as before. */
  ghost predicate OthersUntouched(s: CloudState, t: CloudState, name: string)
  {
    forall c :: c in s.lbs && s.lbs[c].name != name ==>
      c in t.lbs && t.lbs[c] == s.lbs[c] && ViewOf(t, c) == ViewOf(s, c)
  }

  /** t serves all ports on a load balancer of the service's name, which is the one found in s or a
      new one with an elastic IP exactly when the service asks for it. */
  ghost predicate Deployed(s: CloudState, t: CloudState, lb: Id, cluster: string, service: Service, nodes: seq<Node>)
  {
    var name := LoadBalancerName(cluster, service.namespace, service.name);
    && IsNamed(t, lb, name)
    && BornWith(s, t, lb, name, service)
    && AllServed(t, lb, PortNumbers(service.ports), WantedIPs(nodes), NoStaleTwins(s, lb, WantedIPs(nodes)))
    && LeftStranded(s, t, lb, name, PortNumbers(service.ports)) && OnlyTouches(s, t, lb)
  }

  /** The load balancers and elastic IPs are those before the call, plus the load balancer it creates
      with its elastic IP when the lookup finds none. */
  ghost predicate Placed(s: CloudState, t: CloudState, name: string, withEip: bool, lookup: Fault, creation: Fault)
  {
    var u := FoundOrCreated(s, name, withEip, lookup, creation);
    t.lbs == u.lbs && t.eips == u.eips && Sub(s.lbs, t.lbs)
  }

  /** There is a load balancer of this name, and every one serves the ports. */
  ghost predicate ServedUnder(s: CloudState, name: string, ports: seq<ServicePort>, wanted: set<string>)
  {
    LoadBalancersNamed(s, name) != map[] && forall b :: IsNamed(s, b, name) ==>
      AllServed(s, b, PortNumbers(ports), wanted, true)
  }

  ghost predicate BornWith(s: CloudState, t: CloudState, lb: Id, name: string, service: Service)
  {
    if LoadBalancersNamed(s, name) != map[] then t.lbs == s.lbs
    else lb !in s.lbs && lb in t.lbs && t.lbs == s.lbs[lb := t.lbs[lb]] && (t.lbs[lb].eips != [] <==> service.withEip)
  }

  ghost predicate SameChildren(s: CloudState, t: CloudState)
  {
    t.listeners == s.listeners && t.pools == s.pools && t.members == s.members && t.monitors == s.monitors
  }

  lemma SameChildrenSameResidue(s: CloudState, t: CloudState, u: CloudState, lb: Id, lbName: string, numbers: set<int>)
    requires SameChildren(s, t)
    ensures LeftStranded(t, u, lb, lbName, numbers) ==> LeftStranded(s, u, lb, lbName, numbers)
  {
    hide PoolName;
    forall p ensures Stranded(s, lb, p) <==> Stranded(t, lb, p) {
      SamePoolSameName(s, t, lb, lbName, numbers, p);
    }
  }

  lemma DeployedWhen(s: CloudState, t: CloudState, u: CloudState, lb: Id, cluster: string, service: Service,
                     nodes: seq<Node>)
    requires IsNamed(t, lb, LoadBalancerName(cluster, service.namespace, service.name)) && u.lbs == t.lbs
    requires SameChildren(s, t) && OnlyTouches(t, u, lb)
    ensures var name, numbers := LoadBalancerName(cluster, service.namespace, service.name), PortNumbers(service.ports);
      BornWith(s, t, lb, name, service) && LeftStranded(t, u, lb, name, numbers) &&
      AllServed(u, lb, numbers, WantedIPs(nodes), NoStaleTwins(s, lb, WantedIPs(nodes))) ==>
        Deployed(s, u, lb, cluster, service, nodes)
  {
    hide AllServed, NoStaleTwins, PortNumbers, LeftStranded;
    SameChildrenSameResidue(s, t, u, lb, LoadBalancerName(cluster, service.namespace, service.name),
                            PortNumbers(service.ports));
    forall c ensures ViewOf(t, c) == ViewOf(s, c) {
      assert MembersIn(t, c) == MembersIn(s, c) && MonitorsIn(t, c) == MonitorsIn(s, c);
    }
  }

  lemma SpareKeepsTwinsAway(s: CloudState, t: CloudState, orphans: set<Id>, lb: Id, wanted: set<string>)
    requires Integrity(s) && Spared(s, t, orphans)
    ensures OnlyWantedAdded(s, t, wanted)
    ensures NoStaleTwins(s, lb, wanted) ==> NoStaleTwins(t, lb, wanted)
  {
    hide Integrity, NoStaleTwins;
    TwinsStayAway(s, t, lb, wanted);
  }

  lemma SameChildrenSameTwins(s: CloudState, t: CloudState, lb: Id, wanted: set<string>)
    requires SameChildren(s, t)
    ensures NoStaleTwins(s, lb, wanted) ==> NoStaleTwins(t, lb, wanted)
    ensures OnlyWantedAdded(s, t, wanted) && WantedStay(s, t, wanted)
  {
  }

  /** Creating a load balancer adds no listener, pool, member or monitor. */
  lemma SameParts(s: CloudState, t: CloudState, u: CloudState, lb: Id, name: string, service: Service)
    requires SameChildren(s, t)
    ensures AddedFor(t, u, lb, name, service, PortSet(service.ports)) ==>
              AddedFor(s, u, lb, name, service, PortSet(service.ports))
  {
    hide PortSet;
  }

  ghost predicate Synchronised(s: CloudState, t: CloudState, lb: Id, name: string, service: Service, nodes: seq<Node>)
  {
    && IsNamed(t, lb, name) && t.lbs == s.lbs
    && Converged(t, lb, service.ports, WantedIPs(nodes), NoStaleTwins(s, lb, WantedIPs(nodes)))
    && Rebuilt(s, t, lb, name, service)
    && LeftStranded(s, t, lb, name, PortNumbers(service.ports)) && OnlyTouches(s, t, lb)
  }

  /** What an update without failing writes achieves whatever becomes of its list of listeners: all
      ports are served; with the list no other listener is left, without it nothing goes. */
  ghost predicate Refilled(s: CloudState, t: CloudState, lb: Id, name: string, service: Service, nodes: seq<Node>,
                           list: Fault, later: seq<Fault>)
  {
    var numbers, wanted := PortNumbers(service.ports), WantedIPs(nodes);
    var exact := later == [] && NoStaleTwins(s, lb, wanted);
    && IsNamed(t, lb, name) && t.lbs == s.lbs && OnlyTouches(s, t, lb)
    && AllServed(t, lb, numbers, wanted, exact) && LeftStranded(s, t, lb, name, numbers)
    && (list == NoFault ==> Converged(t, lb, service.ports, wanted, exact))
    && (list != NoFault ==> Grown(s, t, lb, name, numbers))
  }

  lemma RefilledWhen(s: CloudState, t: CloudState, lb: Id, name: string, service: Service, nodes: seq<Node>,
                     list: Fault, later: seq<Fault>)
    requires IsNamed(t, lb, name) && t.lbs == s.lbs && forall c :: c != lb ==> ViewOf(t, c) == ViewOf(s, c)
    ensures var numbers, wanted := PortNumbers(service.ports), WantedIPs(nodes);
      var exact := later == [] && NoStaleTwins(s, lb, wanted);
      && AllServed(t, lb, numbers, wanted, exact) && LeftStranded(s, t, lb, name, numbers)
      && (list == NoFault ==> Converged(t, lb, service.ports, wanted, exact))
      && (list != NoFault ==> Grown(s, t, lb, name, numbers)) ==>
        Refilled(s, t, lb, name, service, nodes, list, later)
  {
    hide AllServed, LeftStranded, Converged, Grown, ViewOf, PortNumbers, WantedIPs, NoStaleTwins;
  }

  lemma SynchronisedWhen(s: CloudState, t: CloudState, lb: Id, name: string, service: Service, nodes: seq<Node>)
    requires IsNamed(t, lb, name) && t.lbs == s.lbs && forall c :: c != lb ==> ViewOf(t, c) == ViewOf(s, c)
    requires Converged(t, lb, service.ports, WantedIPs(nodes), NoStaleTwins(s, lb, WantedIPs(nodes)))
    requires Rebuilt(s, t, lb, name, service) && LeftStranded(s, t, lb, name, PortNumbers(service.ports))
    ensures Synchronised(s, t, lb, name, service, nodes)
  {
    hide LeftStranded, Converged, Rebuilt, ViewOf, PortNumbers, WantedIPs, NoStaleTwins;
  }

  /** Every load balancer of this name is in the state a clean reconcile ends in. */
  ghost predicate SettledIn(s: CloudState, name: string, ports: seq<ServicePort>, wanted: set<string>, exact: bool)
  {
    forall b :: IsNamed(s, b, name) ==> Converged(s, b, ports, wanted, exact)
  }

  /** A load balancer of this name has a listener for every port of the service, bound to the
      port's pool: what a reported success guarantees even when write requests failed. */
  ghost predicate Fronted(s: CloudState, name: string, service: Service)
  {
    exists b :: IsNamed(s, b, name) && AllBound(s, b, name, PortNumbers(service.ports))
  }

  lemma FrontedBy(s: CloudState, b: Id, name: string, service: Service)
    requires IsNamed(s, b, name)
    ensures AllBound(s, b, name, PortNumbers(service.ports)) ==> Fronted(s, name, service)
  {
  }

  /** Listeners of load balancers of this name stay, for the port numbers the service has. */
  ghost predicate PortsKeptUnder(s: CloudState, t: CloudState, name: string, service: Service, wanted: set<string>)
  {
    forall b :: IsNamed(s, b, name) ==> PortsKept(s, t, b, PortNumbers(service.ports), wanted)
  }

  lemma PortsStay(s: CloudState, lb: Id, service: Service, wanted: set<string>)
    requires Integrity(s)
    ensures PortsKept(s, s, lb, PortNumbers(service.ports), wanted)
  {
    hide PortNumbers;
  }

  lemma SameViewWantedKept(s: CloudState, t: CloudState, lb: Id, pool: Id, wanted: set<string>)
    requires ReferencesResolve(s) && ViewOf(t, lb) == ViewOf(s, lb)
    requires pool in s.pools ==> s.pools[pool].lb == lb
    ensures WantedKept(s, t, pool, wanted)
  {
    forall m | m in s.members && s.members[m].pool == pool ensures m in t.members && t.members[m] == s.members[m] {
      assert m in ViewOf(s, lb).members;
      assert m in ViewOf(t, lb).members;
    }
  }

  lemma OthersKeepPorts(s: CloudState, t: CloudState, lb: Id, name: string, service: Service, wanted: set<string>)
    requires Integrity(s)
    requires forall c :: c != lb ==> ViewOf(t, c) == ViewOf(s, c)
    ensures PortsKept(s, t, lb, PortNumbers(service.ports), wanted) ==> PortsKeptUnder(s, t, name, service, wanted)
  {
    hide PortNumbers, MembersIn, MonitorsIn, WantedKept;
    forall b | b != lb ensures PortsKept(s, t, b, PortNumbers(service.ports), wanted) {
      forall l | l in s.listeners && s.listeners[l].lb == b
        ensures l in t.listeners && t.listeners[l] == s.listeners[l]
        ensures s.listeners[l].pool in s.pools ==> s.listeners[l].pool in t.pools
        ensures WantedKept(s, t, s.listeners[l].pool, wanted)
      {
        SameViewWantedKept(s, t, b, s.listeners[l].pool, wanted);
        assert l in ViewOf(s, b).listeners && l in ViewOf(t, b).listeners;
        assert s.listeners[l].pool in s.pools ==> s.listeners[l].pool in ViewOf(s, b).pools;
        assert s.listeners[l].pool in ViewOf(s, b).pools ==> s.listeners[l].pool in ViewOf(t, b).pools;
      }
    }
  }

  /** The record of a load balancer never changes, and a new one has a new identifier. */
  ghost predicate RecordsStay(s: CloudState, t: CloudState)
  {
    && s.next <= t.next
    && forall b :: b in t.lbs ==> (b in s.lbs && t.lbs[b] == s.lbs[b]) || b >= s.next
  }

  lemma RecordsStayTwice(s: CloudState, t: CloudState, u: CloudState)
    requires RecordsStay(s, t) && RecordsStay(t, u)
    ensures RecordsStay(s, u)
  {
  }

  lemma SameRecordStays(s: CloudState, t: CloudState, lb: Id)
    requires Integrity(s) && RecordsStay(s, t) && lb in s.lbs && lb in t.lbs
    ensures t.lbs[lb] == s.lbs[lb]
  {
  }

  lemma FoundIsNamed(s: CloudState, name: string, b: Id)
    requires b in s.lbs && s.lbs[b].name == name
    ensures LoadBalancersNamed(s, name) != map[]
  {
    assert b in LoadBalancersNamed(s, name);
  }

  lemma LoadBalancerPosted(s: CloudState, name: string, withEip: bool, f: Fault)
    requires Integrity(s)
    ensures var t := Deliver(s, PostLoadBalancer(name, withEip), f);
      && (f == NoFault ==>
                IsNamed(t, s.next, name) && t.lbs == s.lbs[s.next := t.lbs[s.next]] &&
                    (t.lbs[s.next].eips != [] <==> withEip))
      && SameChildren(s, t)
      && OthersUntouched(s, t, name) && RecordsStay(s, t) && Sub(s.lbs, t.lbs)
      && s.next !in s.lbs
  {
    hide ViewOf, ReferencesResolve;
    forall c | c in s.lbs ensures ViewOf(Apply(s, PostLoadBalancer(name, withEip)), c) == ViewOf(s, c) {
      RequestTouchesOneLoadBalancer(s, PostLoadBalancer(name, withEip), c);
    }
  }
}
