// Where a reconcile of one load balancer leads: what one port's step may change, what pruning
// orphans leaves, and the state a clean reconcile ends in.
module Convergence {
  import opened Cloud
  import opened Naming
  import opened Discipline
  import opened Goal
  import opened Requests
  import opened Members
  import opened Deletion

  datatype ServicePort = ServicePort(protocol: Protocol, port: int, nodePort: int)

  datatype Service = Service(namespace: string, name: string, ports: seq<ServicePort>, withEip: bool,
                             health: HealthConfig)

  /** The default probe type follows the protocol unless an annotation ("" when absent) sets it. */
  function HealthFor(service: Service, protocol: Protocol): HealthConfig
  {
    if service.health.kind != "" then service.health
    else service.health.(kind := if protocol.UDP? then "UDP_CONNECT" else "TCP")
  }

  /** TCP ports are probed by TCP, UDP ports by UDP_CONNECT, unless the annotation names a probe; the
      intervals are always those of the service. */
  lemma ProbeFitsProtocol(service: Service)
    ensures service.health.kind == "" ==>
              HealthFor(service, TCP).kind == "TCP" && HealthFor(service, UDP).kind == "UDP_CONNECT"
    ensures forall protocol :: service.health.kind != "" ==> HealthFor(service, protocol).kind == service.health.kind
    ensures forall protocol :: HealthFor(service, protocol).(kind := "") == service.health.(kind := "")
  {
  }

  ghost function PortNumbers(ports: seq<ServicePort>): set<int>
  {
    set i | 0 <= i < |ports| :: ports[i].port
  }

  /*** Growth ***/

  ghost predicate Sub<V>(a: map<Id, V>, b: map<Id, V>)
  {
    forall k :: k in a ==> k in b && b[k] == a[k]
  }

  /** t is s plus listeners and pools of lb for the given port numbers, and monitors; only members
      of pools named for those ports differ. */
  ghost predicate Grown(s: CloudState, t: CloudState, lb: Id, lbName: string, numbers: set<int>)
  {
    && t.lbs == s.lbs
    && Sub(s.listeners, t.listeners) && Sub(s.pools, t.pools) && Sub(s.monitors, t.monitors)
    && (forall l :: l in t.listeners && l !in s.listeners ==> t.listeners[l].lb == lb && t.listeners[l].port in numbers)
    && (forall p :: p in t.pools && p !in s.pools ==> NamedForPort(t, p, lb, lbName, numbers))
    && (forall q :: q in s.pools && !NamedForPort(s, q, lb, lbName, numbers) ==> MembersOf(t, q) == MembersOf(s, q))
  }

  ghost predicate NamedForPort(s: CloudState, p: Id, lb: Id, lbName: string, numbers: set<int>)
  {
    p in s.pools && s.pools[p].lb == lb && exists n :: n in numbers && s.pools[p].name == PoolName(lbName, n)
  }

  lemma GrownBase(s: CloudState, lb: Id, lbName: string, numbers: set<int>)
    ensures Grown(s, s, lb, lbName, numbers)
  {
  }

  lemma GrownTwice(s: CloudState, t: CloudState, u: CloudState, lb: Id, lbName: string, a: set<int>, b: set<int>)
    requires Grown(s, t, lb, lbName, a) && Grown(t, u, lb, lbName, b)
    ensures Grown(s, u, lb, lbName, a + b)
  {
    hide MembersOf;
    var c := a + b;
    forall p | p in u.pools && p !in s.pools ensures NamedForPort(u, p, lb, lbName, c) {
      if p in t.pools {
        assert NamedForPort(t, p, lb, lbName, a) && u.pools[p] == t.pools[p];
      } else {
        assert NamedForPort(u, p, lb, lbName, b);
      }
    }
    forall q | q in s.pools && !NamedForPort(s, q, lb, lbName, c) ensures MembersOf(u, q) == MembersOf(s, q) {
      assert t.pools[q] == s.pools[q];
      assert !NamedForPort(s, q, lb, lbName, a) && !NamedForPort(t, q, lb, lbName, b);
    }
  }

  /** A port that is served stays served while another port is reconciled. */
  lemma ServedPersists(s: CloudState, t: CloudState, lb: Id, numbers: set<int>, port: int,
                       wanted: set<string>, exact: bool)
    requires Inv(s, lb) && lb in s.lbs
    requires Grown(s, t, lb, s.lbs[lb].name, numbers)
    requires Served(s, lb, port, wanted, exact) && port !in numbers
    ensures Served(t, lb, port, wanted, exact)
  {
    hide UniqueListeners, UniquePools, OneMonitor;
    var l, p :| Serves(s, lb, port, wanted, exact, l, p);
    var name := s.lbs[lb].name;
    if NamedForPort(s, p, lb, name, numbers) {
      var n :| n in numbers && s.pools[p].name == PoolName(name, n);
      NamesRecoverable(name, n, name, port);
      assert false;
    }
    assert MembersOf(t, p) == MembersOf(s, p);
    var h :| h in MonitorsOf(s, p);
    assert h in MonitorsOf(t, p);
    assert Serves(t, lb, port, wanted, exact, l, p);
  }

  /*** Additions ***/

  ghost predicate ListenerFor(s: CloudState, l: Id, lb: Id, lbName: string, port: ServicePort)
  {
    && l in s.listeners && s.listeners[l].lb == lb && s.listeners[l].name == ListenerName(lbName, port.port)
    && s.listeners[l].port == port.port && s.listeners[l].protocol == port.protocol
  }

  ghost predicate PoolFor(s: CloudState, p: Id, lb: Id, lbName: string, port: ServicePort)
  {
    p in s.pools && s.pools[p].lb == lb && s.pools[p].name == PoolName(lbName, port.port)
  }

  ghost predicate MemberFor(s: CloudState, m: Id, lb: Id, lbName: string, port: ServicePort)
  {
    m in s.members && PoolFor(s, s.members[m].pool, lb, lbName, port) && s.members[m].port == port.nodePort
  }

  ghost predicate MonitorFor(s: CloudState, h: Id, lb: Id, lbName: string, service: Service, port: ServicePort)
  {
    h in s.monitors && PoolFor(s, s.monitors[h].pool, lb, lbName, port) &&
        s.monitors[h].config == HealthFor(service, port.protocol)
  }

  ghost predicate NewListeners(s: CloudState, t: CloudState, lb: Id, lbName: string, ports: set<ServicePort>)
  {
    forall l :: l in t.listeners && l !in s.listeners ==> exists q :: q in ports && ListenerFor(t, l, lb, lbName, q)
  }

  ghost predicate NewPools(s: CloudState, t: CloudState, lb: Id, lbName: string, ports: set<ServicePort>)
  {
    forall p :: p in t.pools && p !in s.pools ==>
      exists q :: q in ports && PoolFor(t, p, lb, lbName, q) && t.pools[p].protocol == q.protocol
  }

  ghost predicate NewMembers(s: CloudState, t: CloudState, lb: Id, lbName: string, ports: set<ServicePort>)
  {
    forall m :: m in t.members && !(m in s.members && s.members[m] == t.members[m]) ==>
      exists q :: q in ports && MemberFor(t, m, lb, lbName, q)
  }

  ghost predicate NewMonitors(s: CloudState, t: CloudState, lb: Id, lbName: string, service: Service,
                              ports: set<ServicePort>)
  {
    forall h :: h in t.monitors && h !in s.monitors ==>
        exists q :: q in ports && MonitorFor(t, h, lb, lbName, service, q)
  }

  /** Whatever is new was created for one of the ports, with its number, protocol, node port and
      probe; listeners, pools and monitors that were there are as before. */
  ghost predicate AddedFor(s: CloudState, t: CloudState, lb: Id, lbName: string, service: Service,
                           ports: set<ServicePort>)
  {
    && Sub(s.listeners, t.listeners) && Sub(s.pools, t.pools) && Sub(s.monitors, t.monitors)
    && NewListeners(s, t, lb, lbName, ports) && NewPools(s, t, lb, lbName, ports)
    && NewMembers(s, t, lb, lbName, ports) && NewMonitors(s, t, lb, lbName, service, ports)
  }

  lemma AddedNothing(s: CloudState, lb: Id, lbName: string, service: Service, ports: set<ServicePort>)
    ensures AddedFor(s, s, lb, lbName, service, ports)
  {
  }

  lemma PoolsAddedTwice(s: CloudState, t: CloudState, u: CloudState, lb: Id, lbName: string,
                        a: set<ServicePort>, b: set<ServicePort>)
    requires NewPools(s, t, lb, lbName, a) && NewPools(t, u, lb, lbName, b) && Sub(t.pools, u.pools)
    ensures NewPools(s, u, lb, lbName, a + b)
  {
    hide PoolName;
    forall p | p in u.pools && p !in s.pools
      ensures exists q :: q in a + b && PoolFor(u, p, lb, lbName, q) && u.pools[p].protocol == q.protocol
    {
      if p in t.pools {
        var q :| q in a && PoolFor(t, p, lb, lbName, q) && t.pools[p].protocol == q.protocol;
        assert PoolFor(u, p, lb, lbName, q);
      }
    }
  }

  lemma ListenersAddedTwice(s: CloudState, t: CloudState, u: CloudState, lb: Id, lbName: string,
                            a: set<ServicePort>, b: set<ServicePort>)
    requires NewListeners(s, t, lb, lbName, a) && NewListeners(t, u, lb, lbName, b) && Sub(t.listeners, u.listeners)
    ensures NewListeners(s, u, lb, lbName, a + b)
  {
    hide ListenerName;
    forall l | l in u.listeners && l !in s.listeners
      ensures exists q :: q in a + b && ListenerFor(u, l, lb, lbName, q)
    {
      if l in t.listeners {
        var q :| q in a && ListenerFor(t, l, lb, lbName, q);
        assert ListenerFor(u, l, lb, lbName, q);
      }
    }
  }

  lemma MembersAddedTwice(s: CloudState, t: CloudState, u: CloudState, lb: Id, lbName: string,
                          a: set<ServicePort>, b: set<ServicePort>)
    requires NewMembers(s, t, lb, lbName, a) && NewMembers(t, u, lb, lbName, b) && Sub(t.pools, u.pools)
    ensures NewMembers(s, u, lb, lbName, a + b)
  {
    hide PoolName;
    forall m | m in u.members && !(m in s.members && s.members[m] == u.members[m])
      ensures exists q :: q in a + b && MemberFor(u, m, lb, lbName, q)
    {
      if m in t.members && t.members[m] == u.members[m] {
        var q :| q in a && MemberFor(t, m, lb, lbName, q);
        assert MemberFor(u, m, lb, lbName, q);
      }
    }
  }

  lemma MonitorsAddedTwice(s: CloudState, t: CloudState, u: CloudState, lb: Id, lbName: string, service: Service,
                           a: set<ServicePort>, b: set<ServicePort>)
    requires NewMonitors(s, t, lb, lbName, service, a) && NewMonitors(t, u, lb, lbName, service, b)
    requires Sub(t.pools, u.pools) && Sub(t.monitors, u.monitors)
    ensures NewMonitors(s, u, lb, lbName, service, a + b)
  {
    hide PoolName, HealthFor;
    forall h | h in u.monitors && h !in s.monitors
      ensures exists q :: q in a + b && MonitorFor(u, h, lb, lbName, service, q)
    {
      if h in t.monitors {
        var q :| q in a && MonitorFor(t, h, lb, lbName, service, q);
        assert MonitorFor(u, h, lb, lbName, service, q);
      }
    }
  }

  lemma AddedTwice(s: CloudState, t: CloudState, u: CloudState, lb: Id, lbName: string, service: Service,
                   a: set<ServicePort>, b: set<ServicePort>)
    requires AddedFor(s, t, lb, lbName, service, a) && AddedFor(t, u, lb, lbName, service, b)
    ensures AddedFor(s, u, lb, lbName, service, a + b)
  {
    hide NewListeners, NewPools, NewMembers, NewMonitors;
    ListenersAddedTwice(s, t, u, lb, lbName, a, b);
    PoolsAddedTwice(s, t, u, lb, lbName, a, b);
    MembersAddedTwice(s, t, u, lb, lbName, a, b);
    MonitorsAddedTwice(s, t, u, lb, lbName, service, a, b);
  }

  /*** Orphans ***/

  ghost function Orphans(s: CloudState, lb: Id, desired: set<string>): set<Id>
  {
    set l | l in s.listeners && s.listeners[l].lb == lb && s.listeners[l].name !in desired
  }

  ghost function PoolsOfListeners(s: CloudState, ls: set<Id>): set<Id>
  {
    set l | l in ls && l in s.listeners :: s.listeners[l].pool
  }

  /** s without the listeners and their pools. */
  ghost function Pruned(s: CloudState, ls: set<Id>): CloudState
  {
    DropPools(DropListeners(s, ls), PoolsOfListeners(s, ls))
  }

  /** From s to t some orphans went and then only what the service needs was added. */
  ghost predicate Rebuilt(s: CloudState, t: CloudState, lb: Id, lbName: string, service: Service)
  {
    exists middle :: RebuiltVia(s, middle, t, lb, lbName, service)
  }

  ghost predicate RebuiltVia(s: CloudState, middle: CloudState, t: CloudState, lb: Id, lbName: string, service: Service)
  {
    && Spared(s, middle, Orphans(s, lb, NamesOf(lbName, service.ports)))
    && AddedFor(middle, t, lb, lbName, service, PortSet(service.ports))
  }

  ghost function PortSet(ports: seq<ServicePort>): set<ServicePort>
  {
    set i | 0 <= i < |ports| :: ports[i]
  }

  ghost function NamesOf(lbName: string, ports: seq<ServicePort>): set<string>
  {
    set n | n in PortNumbers(ports) :: ListenerName(lbName, n)
  }

  ghost predicate NamesDesired(desired: set<string>, lbName: string, ports: seq<ServicePort>)
  {
    desired == NamesOf(lbName, ports)
  }

  /** An orphan is a listener for a port number the service does not have. */
  lemma OrphanPorts(s: CloudState, lb: Id, ports: seq<ServicePort>, desired: set<string>, l: Id)
    requires Inv(s, lb) && l in s.listeners && s.listeners[l].lb == lb
    requires NamesDesired(desired, s.lbs[lb].name, ports)
    ensures l in Orphans(s, lb, desired) <==> s.listeners[l].port !in PortNumbers(ports)
  {
    hide UniqueListeners, UniquePools, OneMonitor, PortNumbers;
    var name, port := s.lbs[lb].name, s.listeners[l].port;
    if s.listeners[l].name in desired {
      var n :| n in PortNumbers(ports) && ListenerName(name, n) == s.listeners[l].name;
      NamesRecoverable(name, n, name, port);
    }
  }

  /** Whatever fails while pruning, listeners that are not orphans keep their pools and members. */
  ghost predicate Spared(s: CloudState, t: CloudState, orphans: set<Id>)
  {
    && t.lbs == s.lbs && t.eips == s.eips
    && Sub(t.listeners, s.listeners) && Sub(t.pools, s.pools) && Sub(t.members, s.members)
    && (forall l :: l in s.listeners && l !in orphans ==> l in t.listeners)
    && (forall p :: p in s.pools && p !in PoolsOfListeners(s, orphans) ==>
          p in t.pools && MembersOf(t, p) == MembersOf(s, p))
  }

  lemma SparedBase(s: CloudState, orphans: set<Id>)
    ensures Spared(s, s, orphans)
    ensures Pruned(s, {}) == s
  {
    assert PoolsOfListeners(s, {}) == {};
    DropNoListeners(s);
    DropNoPools(s);
  }

  lemma SparedAfterListener(s: CloudState, t: CloudState, orphans: set<Id>, l: Id)
    requires Spared(s, t, orphans) && l in orphans
    ensures Spared(s, DropListeners(t, {l}), orphans)
  {
    var u := DropListeners(t, {l});
    assert forall p :: MembersOf(u, p) == MembersOf(t, p);
  }

  lemma SparedAfterPool(s: CloudState, t: CloudState, u: CloudState, orphans: set<Id>, p: Id)
    requires Spared(s, t, orphans) && p in PoolsOfListeners(s, orphans)
    requires Trimmed(t, u, p) || u == DropPool(t, p)
    ensures Spared(s, u, orphans)
  {
    forall q | q != p ensures MembersOf(u, q) == MembersOf(t, q) {
    }
  }

  lemma OnlyUser(s: CloudState, lb: Id, gone: set<Id>, l: Id)
    requires Inv(s, lb) && l in s.listeners && s.listeners[l].lb == lb && l !in gone && gone <= s.listeners.Keys
    ensures var p := s.listeners[l].pool;
      && p != NO_ID
      && l in Pruned(s, gone).listeners && Pruned(s, gone).listeners[l] == s.listeners[l]
      && !Referenced(DropListeners(Pruned(s, gone), {l}), p)
  {
    hide NamesFollowPorts, UniqueListeners, UniquePools, OneMonitor;
    ManagedPool(s, lb, l);
    forall k | k in s.listeners && s.listeners[k].pool == s.listeners[l].pool ensures k == l {
      ListenersOwnTheirPools(s, lb, l, k);
    }
  }

  /** Removing one more orphan listener and its pool. */
  lemma PruneOneMore(s: CloudState, lb: Id, gone: set<Id>, l: Id)
    requires Inv(s, lb) && l in s.listeners && s.listeners[l].lb == lb && l !in gone && gone <= s.listeners.Keys
    ensures var t := Pruned(s, gone);
      var u := DropListeners(t, {l});
      && l in t.listeners && t.listeners[l] == s.listeners[l]
      && s.listeners[l].pool != NO_ID
      && !Referenced(u, s.listeners[l].pool)
      && DropPool(u, s.listeners[l].pool) == Pruned(s, gone + {l})
  {
    hide Inv, Referenced;
    OnlyUser(s, lb, gone, l);
    var p := s.listeners[l].pool;
    assert PoolsOfListeners(s, gone + {l}) == PoolsOfListeners(s, gone) + {p};
    var v, w := DropPool(DropListeners(Pruned(s, gone), {l}), p), Pruned(s, gone + {l});
    assert v.listeners == w.listeners;
    assert v.pools == w.pools;
    assert v.members == w.members;
    assert v.monitors == w.monitors;
  }

  /*** The end state ***/

  ghost predicate AllServed(s: CloudState, lb: Id, numbers: set<int>, wanted: set<string>, exact: bool)
  {
    forall n :: n in numbers ==> Served(s, lb, n, wanted, exact)
  }

  /** Exactly the service's port numbers have listeners, and each is served. */
  ghost predicate Converged(s: CloudState, lb: Id, ports: seq<ServicePort>, wanted: set<string>, exact: bool)
  {
    && AllServed(s, lb, PortNumbers(ports), wanted, exact)
    && (forall l :: l in s.listeners && s.listeners[l].lb == lb ==> s.listeners[l].port in PortNumbers(ports))
  }

  ghost function PortsAmong(found: map<Id, Listener>, ids: set<Id>): set<int>
    requires ids <= found.Keys
  {
    set l | l in ids :: found[l].port
  }

  lemma {:induction false} InjectiveCount(found: map<Id, Listener>, ids: set<Id>)
    requires ids <= found.Keys
    requires forall k, l | k in found && l in found :: found[k].port == found[l].port ==> k == l
    ensures |PortsAmong(found, ids)| == |ids|
  {
    if ids == {} {
    } else {
      var i :| i in ids;
      InjectiveCount(found, ids - {i});
      assert PortsAmong(found, ids) == PortsAmong(found, ids - {i}) + {found[i].port};
      assert found[i].port !in PortsAmong(found, ids - {i});
    }
  }

  /** One listener per port number. */
  lemma ConvergedCount(s: CloudState, lb: Id, ports: seq<ServicePort>, wanted: set<string>, exact: bool)
    requires Inv(s, lb) && Converged(s, lb, ports, wanted, exact)
    ensures |ListenersOf(s, lb).Keys| == |PortNumbers(ports)|
  {
    hide Integrity, UniquePools, OneMonitor, PortNumbers, Addresses, MonitorsOf;
    var found := ListenersOf(s, lb);
    forall k, l | k in found && l in found && found[k].port == found[l].port ensures k == l {
      OneListenerPerPortNumber(s, k, l);
    }
    InjectiveCount(found, found.Keys);
    forall n | n in PortNumbers(ports) ensures n in PortsAmong(found, found.Keys) {
      var l, p :| Serves(s, lb, n, wanted, exact, l, p);
      assert l in found && found[l].port == n;
    }
    assert PortsAmong(found, found.Keys) == PortNumbers(ports);
  }
}
