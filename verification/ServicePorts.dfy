// What the steps of a service port do, and that they serve the port.
module ServicePorts {
  import opened Cloud
  import opened Naming
  import opened Discipline
  import opened Goal
  import opened Requests
  import opened Members
  import opened Deletion
  import opened Convergence

  /** Lookups of pools, listeners and monitors are faithful, and the load balancer exists under its
      name. */
  ghost predicate Regular(s: CloudState, findFaults: seq<Fault>, lb: Id, lbName: string)
  {
    findFaults == [] && IsNamed(s, lb, lbName)
  }

  /** The port has a listener and the pool a monitor. */
  ghost predicate Ready(s: CloudState, lb: Id, lbName: string, port: int, pool: Id)
  {
    ListenersNamed(s, lb, ListenerName(lbName, port)) != map[] && MonitorsOf(s, pool) != map[]
  }

  /*** The steps of one port ***/

  lemma ServedParts(s: CloudState, lb: Id, port: int, wanted: set<string>)
    requires Inv(s, lb) && lb in s.lbs
    ensures Served(s, lb, port, wanted, true) ==>
              var name := s.lbs[lb].name;
              && PoolsNamed(s, lb, PoolName(name, port)) != map[]
              && forall p :: p in PoolsNamed(s, lb, PoolName(name, port)) ==>
                        Addresses(s, p) == wanted && Ready(s, lb, name, port, p)
  {
    hide UniqueListeners, OneMonitor, Addresses, MonitorsOf, PoolName, ListenerName;
    if Served(s, lb, port, wanted, true) {
      var l, p :| Serves(s, lb, port, wanted, true, l, p);
      var name := s.lbs[lb].name;
      assert p in PoolsNamed(s, lb, PoolName(name, port));
      assert l in ListenersNamed(s, lb, ListenerName(name, port));
    }
  }

  lemma PoolNamedFacts(s: CloudState, lb: Id, name: string, p: Id)
    requires p in PoolsNamed(s, lb, name)
    ensures p in s.pools && s.pools[p].name == name && OwnerOfPool(s, p) == lb && PoolIn(s, p, lb)
  {
  }

  lemma PoolGrows(s: CloudState, w: Write, f: Fault, lb: Id, lbName: string, port: int)
    requires Integrity(s)
    requires w.PostPool? && w.lb == lb && w.name == PoolName(lbName, port)
    ensures Grown(s, Deliver(s, w, f), lb, lbName, {port})
    ensures Deliver(s, w, f).members == s.members && Deliver(s, w, f).listeners == s.listeners
  {
    hide PoolName;
    var t := Deliver(s, w, f);
    forall p | p in t.pools && p !in s.pools ensures NamedForPort(t, p, lb, lbName, {port}) {
      assert port in {port};
    }
    forall q ensures MembersOf(t, q) == MembersOf(s, q) {
    }
  }

  lemma ListenerGrows(s: CloudState, w: Write, f: Fault, lb: Id, lbName: string, port: int)
    requires Integrity(s)
    requires w.PostListener? && w.lb == lb && w.port == port
    ensures var t := Deliver(s, w, f);
      && Grown(s, t, lb, lbName, {port})
      && t.lbs == s.lbs && t.pools == s.pools && t.members == s.members
      && (!CarriedOut(f) ==> t == s)
      && (forall q :: MembersOf(t, q) == MembersOf(s, q))
      && (forall q :: MonitorsOf(t, q) == MonitorsOf(s, q))
      && (forall b, n :: PoolsNamed(t, b, n) == PoolsNamed(s, b, n))
      && (CarriedOut(f) && PoolIn(s, w.pool, lb) && lb in s.lbs ==> ListenersNamed(t, lb, w.name) != map[])
  {
    if CarriedOut(f) && PoolIn(s, w.pool, lb) && lb in s.lbs {
      assert s.next in ListenersNamed(Deliver(s, w, f), lb, w.name);
    }
    forall q ensures MembersOf(Deliver(s, w, f), q) == MembersOf(s, q) {
    }
  }

  lemma MonitorGrows(s: CloudState, w: Write, f: Fault, lb: Id, lbName: string, port: int)
    requires Integrity(s)
    requires w.PostMonitor?
    ensures var t := Deliver(s, w, f);
      && Grown(s, t, lb, lbName, {port})
      && t.lbs == s.lbs && t.listeners == s.listeners && t.pools == s.pools && t.members == s.members
      && (forall b, p :: Stranded(t, b, p) <==> Stranded(s, b, p))
      && (forall q :: MembersOf(t, q) == MembersOf(s, q))
      && (forall b, n :: PoolsNamed(t, b, n) == PoolsNamed(s, b, n))
      && (forall b, n :: ListenersNamed(t, b, n) == ListenersNamed(s, b, n))
      && (f == NoFault && w.pool in s.pools ==> MonitorsOf(t, w.pool) != map[])
  {
    hide PoolName, NamedForPort;
    if f == NoFault && w.pool in s.pools {
      assert s.next in MonitorsOf(Deliver(s, w, f), w.pool);
    }
    forall q ensures MembersOf(Deliver(s, w, f), q) == MembersOf(s, q) {
    }
  }

  lemma MembersGrow(s: CloudState, t: CloudState, p: Id, lb: Id, lbName: string, port: int)
    requires t.lbs == s.lbs && t.listeners == s.listeners && t.pools == s.pools && t.monitors == s.monitors
    requires forall q :: q != p ==> MembersOf(t, q) == MembersOf(s, q)
    requires p in PoolsNamed(s, lb, PoolName(lbName, port))
    ensures Grown(s, t, lb, lbName, {port})
    ensures p in PoolsNamed(t, lb, PoolName(lbName, port))
  {
    hide PoolName, MembersOf;
    assert port in {port};
    assert NamedForPort(s, p, lb, lbName, {port});
  }

  lemma NamedTogether(s: CloudState, lb: Id, lbName: string, port: int, p: Id)
    requires IsNamed(s, lb, lbName) && p in PoolsNamed(s, lb, PoolName(lbName, port))
    ensures RightlyNamed(s, lb, ListenerName(lbName, port), port, p) && PoolIn(s, p, lb)
  {
  }

  lemma PoolAdded(s: CloudState, f: Fault, lb: Id, lbName: string, service: Service, port: ServicePort)
    requires Integrity(s)
    ensures AddedFor(s, Deliver(s, PostPool(lb, PoolName(lbName, port.port), port.protocol), f), lb, lbName,
              service, {port})
  {
    hide PoolName;
    assert port in {port};
  }

  lemma PoolEnsured(s: CloudState, lb: Id, lbName: string, service: Service, port: ServicePort, find: Fault, f: Fault)
    requires Integrity(s)
    ensures var name := PoolName(lbName, port.port);
      var t := EnsuredPool(s, lb, name, port.protocol, find, f);
      && Grown(s, t, lb, lbName, {port.port}) && AddedFor(s, t, lb, lbName, service, {port})
      && t.members == s.members && t.listeners == s.listeners
      && (find == NoFault && lb in s.lbs ==>
            (PoolsNamed(t, lb, name) != map[] <==> PoolsNamed(s, lb, name) != map[] || CarriedOut(f)))
  {
    hide PoolName, Grown, AddedFor, Integrity;
    var w := PostPool(lb, PoolName(lbName, port.port), port.protocol);
    NoStep(s, lb, lbName, service, port);
    PoolGrows(s, w, f, lb, lbName, port.port);
    PoolAdded(s, f, lb, lbName, service, port);
    if lb in s.lbs && CarriedOut(f) {
      assert s.next in PoolsNamed(Deliver(s, w, f), lb, w.name);
    }
  }

  lemma MembersAdded(s: CloudState, t: CloudState, lb: Id, lbName: string, service: Service,
                     port: ServicePort, p: Id, wanted: set<string>)
    requires t.listeners == s.listeners && t.pools == s.pools && t.monitors == s.monitors
    requires forall q :: q != p ==> MembersOf(t, q) == MembersOf(s, q)
    requires Reconciled(MembersOf(s, p), MembersOf(t, p), wanted, port.nodePort)
    requires p in PoolsNamed(s, lb, PoolName(lbName, port.port))
    ensures AddedFor(s, t, lb, lbName, service, {port})
  {
    hide PoolName;
    assert port in {port};
    forall m | m in t.members && !(m in s.members && s.members[m] == t.members[m])
      ensures MemberFor(t, m, lb, lbName, port)
    {
      assert m in MembersOf(t, t.members[m].pool);
    }
  }

  lemma ListenerAdded(s: CloudState, f: Fault, lb: Id, lbName: string, service: Service, port: ServicePort, pool: Id)
    requires Integrity(s)
    ensures var w := PostListener(lb, ListenerName(lbName, port.port), port.protocol, port.port, pool);
            AddedFor(s, Deliver(s, w, f), lb, lbName, service, {port})
  {
    hide ListenerName;
    assert port in {port};
  }

  lemma MonitorAdded(s: CloudState, f: Fault, lb: Id, lbName: string, service: Service, port: ServicePort, pool: Id)
    requires Integrity(s) && pool in PoolsNamed(s, lb, PoolName(lbName, port.port))
    ensures AddedFor(s, Deliver(s, PostMonitor(pool, HealthFor(service, port.protocol)), f), lb, lbName, service,
              {port})
  {
    hide PoolName, HealthFor;
    assert port in {port};
  }

  lemma PortSetMore(ports: seq<ServicePort>, i: nat)
    requires i < |ports|
    ensures PortSet(ports[..i]) + {ports[i]} == PortSet(ports[..i + 1])
    ensures PortSet(ports[..i + 1]) <= PortSet(ports)
  {
    var a, b := ports[..i], ports[..i + 1];
    assert b == a + [ports[i]];
    forall q | q in PortSet(a) ensures q in PortSet(b) {
      var j :| 0 <= j < |a| && a[j] == q;
      assert b[j] == q;
    }
    assert b[i] == ports[i];
    forall q | q in PortSet(b) ensures q in PortSet(ports) {
      var j :| 0 <= j < |b| && b[j] == q;
      assert ports[j] == q;
    }
  }

  lemma PortSetGrows(ports: seq<ServicePort>, i: nat, j: nat)
    requires i <= j <= |ports|
    ensures PortSet(ports[..i]) <= PortSet(ports[..j])
  {
    forall q | q in PortSet(ports[..i]) ensures q in PortSet(ports[..j]) {
      var k :| 0 <= k < i && ports[..i][k] == q;
      assert ports[..j][k] == q;
    }
  }

  /** Whatever is new was created for one of the first n ports of the service. */
  ghost predicate AddedForFirst(s: CloudState, t: CloudState, lb: Id, lbName: string, service: Service, n: nat)
    requires n <= |service.ports|
  {
    AddedFor(s, t, lb, lbName, service, PortSet(service.ports[..n]))
  }

  lemma AddedUpTo(s: CloudState, t: CloudState, lb: Id, lbName: string, service: Service, n: nat)
    requires n <= |service.ports| && AddedFor(s, t, lb, lbName, service, PortSet(service.ports[..n]))
    ensures forall k | n <= k <= |service.ports| :: AddedForFirst(s, t, lb, lbName, service, k)
  {
    hide AddedFor;
    forall k | n <= k <= |service.ports| ensures AddedForFirst(s, t, lb, lbName, service, k) {
      PortSetGrows(service.ports, n, k);
      AddedMonotone(s, t, lb, lbName, service, PortSet(service.ports[..n]), PortSet(service.ports[..k]));
    }
  }

  lemma AddedMonotone(s: CloudState, t: CloudState, lb: Id, lbName: string, service: Service,
                      a: set<ServicePort>, b: set<ServicePort>)
    requires a <= b && AddedFor(s, t, lb, lbName, service, a)
    ensures AddedFor(s, t, lb, lbName, service, b)
  {
    hide AddedFor;
    AddedNothing(t, lb, lbName, service, b);
    AddedTwice(s, t, t, lb, lbName, service, a, b);
    assert a + b == b;
  }

  lemma SameMembers(s: CloudState, t: CloudState, p: Id)
    requires MembersOf(t, p) == MembersOf(s, p)
    ensures Addresses(t, p) == Addresses(s, p)
  {
  }

  /** A named pool with the wanted addresses and a monitor, plus a listener of the port's name,
      serve the port: the invariant binds the listener to that pool. */
  lemma PortServed(s: CloudState, lb: Id, lbName: string, port: int, p: Id, wanted: set<string>)
    requires Inv(s, lb) && IsNamed(s, lb, lbName)
    requires p in PoolsNamed(s, lb, PoolName(lbName, port))
    requires ListenersNamed(s, lb, ListenerName(lbName, port)) != map[]
    requires Addresses(s, p) == wanted && MonitorsOf(s, p) != map[]
    ensures Served(s, lb, port, wanted, true)
  {
    hide UniqueListeners, OneMonitor, Addresses, MonitorsOf, PoolName, ListenerName;
    var l :| l in ListenersNamed(s, lb, ListenerName(lbName, port));
    NamesRecoverable(lbName, s.listeners[l].port, lbName, port);
    assert Serves(s, lb, port, wanted, true, l, p);
  }

  lemma ServedForLess(s: CloudState, lb: Id, port: int, have: set<string>, wanted: set<string>, exact: bool)
    requires wanted <= have && (exact ==> have == wanted)
    ensures Served(s, lb, port, have, true) ==> Served(s, lb, port, wanted, exact)
  {
    hide Addresses, MonitorsOf;
    if Served(s, lb, port, have, true) {
      var l, p :| Serves(s, lb, port, have, true, l, p);
      assert Serves(s, lb, port, wanted, exact, l, p);
    }
  }

  lemma ServedLess(s: CloudState, lb: Id, port: int, wanted: set<string>, exact: bool, less: bool)
    requires less ==> exact
    ensures Served(s, lb, port, wanted, exact) ==> Served(s, lb, port, wanted, less)
  {
    hide Addresses, MonitorsOf;
    if Served(s, lb, port, wanted, exact) {
      var l, p :| Serves(s, lb, port, wanted, exact, l, p);
      assert Serves(s, lb, port, wanted, less, l, p);
    }
  }

  /** By the invariant a listener found by name is bound to the pool of its port. */
  lemma PortBound(s: CloudState, lb: Id, lbName: string, port: int)
    requires Inv(s, lb) && IsNamed(s, lb, lbName)
    requires ListenersNamed(s, lb, ListenerName(lbName, port)) != map[]
    ensures Bound(s, lb, lbName, port)
  {
    hide UniqueListeners, OneMonitor, PoolName, ListenerName;
    var l :| l in ListenersNamed(s, lb, ListenerName(lbName, port));
    NamesRecoverable(lbName, s.listeners[l].port, lbName, port);
    assert BoundBy(s, lb, lbName, port, s.listeners[l]);
  }

  /** Two steps of a port are as good as one. */
  lemma OnePortTwice(s: CloudState, t: CloudState, u: CloudState, lb: Id, lbName: string, service: Service,
                     port: ServicePort)
    requires Grown(s, t, lb, lbName, {port.port}) && Grown(t, u, lb, lbName, {port.port})
    requires AddedFor(s, t, lb, lbName, service, {port}) && AddedFor(t, u, lb, lbName, service, {port})
    ensures Grown(s, u, lb, lbName, {port.port}) && AddedFor(s, u, lb, lbName, service, {port})
  {
    hide Grown, AddedFor;
    GrownTwice(s, t, u, lb, lbName, {port.port}, {port.port});
    AddedTwice(s, t, u, lb, lbName, service, {port}, {port});
    assert {port.port} + {port.port} == {port.port} && {port} + {port} == {port};
  }

  lemma NoStep(s: CloudState, lb: Id, lbName: string, service: Service, port: ServicePort)
    ensures Grown(s, s, lb, lbName, {port.port}) && AddedFor(s, s, lb, lbName, service, {port})
  {
    hide Grown, AddedFor;
    GrownBase(s, lb, lbName, {port.port});
    AddedNothing(s, lb, lbName, service, {port});
  }

  /** No step of a port but that of its members touches members. */
  lemma SameMembersAddWanted(s: CloudState, t: CloudState, wanted: set<string>)
    requires t.members == s.members
    ensures OnlyWantedAdded(s, t, wanted) && WantedStay(s, t, wanted)
  {
  }

  lemma GrownKeepsTwinsAway(s: CloudState, t: CloudState, lb: Id, lbName: string, numbers: set<int>,
                            wanted: set<string>)
    requires Integrity(s) && Grown(s, t, lb, lbName, numbers) && OnlyWantedAdded(s, t, wanted)
    ensures NoStaleTwins(s, lb, wanted) ==> NoStaleTwins(t, lb, wanted)
  {
    hide Integrity, NoStaleTwins, OnlyWantedAdded, MembersOf, NamedForPort;
    TwinsStayAway(s, t, lb, wanted);
  }

  /** The listener decides whether the port's pool is stranded. */
  lemma PortStranded(s: CloudState, lb: Id, lbName: string, port: int, pool: Id)
    requires Inv(s, lb) && IsNamed(s, lb, lbName) && pool in PoolsNamed(s, lb, PoolName(lbName, port))
    ensures Stranded(s, lb, pool) <==> ListenersNamed(s, lb, ListenerName(lbName, port)) == map[]
  {
    hide UniqueListeners, OneMonitor, PoolName, ListenerName, IdentifiersUsed;
    var found := ListenersNamed(s, lb, ListenerName(lbName, port));
    if l :| l in found {
      NamesRecoverable(lbName, s.listeners[l].port, lbName, port);
      assert s.listeners[l].pool == pool;
    }
    if l :| l in s.listeners && s.listeners[l].pool == pool {
      PoolIdentified(s, pool);
      NamesRecoverable(lbName, s.listeners[l].port, lbName, port);
      assert l in found;
    }
  }

  /** Which pools of the load balancer are stranded once a port has been reconciled from s to t: the
      port's own exactly when it had no listener and none was created, all others as before.  It has
      one exactly when it had one or the creation of its pool was carried out. */
  ghost predicate PortResidue(s: CloudState, t: CloudState, lb: Id, lbName: string, port: int, creation: Fault,
                              created: bool)
  {
    var own := PoolsNamed(t, lb, PoolName(lbName, port));
    && (own != map[] <==> PoolsNamed(s, lb, PoolName(lbName, port)) != map[] || CarriedOut(creation))
    && (forall p :: p in own ==>
          (Stranded(t, lb, p) <==> ListenersNamed(s, lb, ListenerName(lbName, port)) == map[] && !created))
    && (forall p :: p !in own ==> (Stranded(t, lb, p) <==> Stranded(s, lb, p)))
  }

  lemma PortLeaves(s: CloudState, t: CloudState, lb: Id, lbName: string, port: int, creation: Fault, created: bool)
    requires Integrity(s) && Inv(t, lb) && IsNamed(t, lb, lbName) && Grown(s, t, lb, lbName, {port})
    requires PoolsNamed(t, lb, PoolName(lbName, port)) != map[] <==>
             PoolsNamed(s, lb, PoolName(lbName, port)) != map[] || CarriedOut(creation)
    requires ListenersNamed(t, lb, ListenerName(lbName, port)) == map[] <==>
             ListenersNamed(s, lb, ListenerName(lbName, port)) == map[] && !created
    ensures PortResidue(s, t, lb, lbName, port, creation, created)
  {
    hide Inv, Integrity, Grown, ListenersNamed, Stranded, PoolName, ListenerName;
    var own := PoolsNamed(t, lb, PoolName(lbName, port));
    forall p | p in own
      ensures Stranded(t, lb, p) <==> ListenersNamed(t, lb, ListenerName(lbName, port)) == map[]
    {
      PortStranded(t, lb, lbName, port, p);
    }
    forall p | p !in own ensures Stranded(t, lb, p) <==> Stranded(s, lb, p) {
      OtherPoolsStayStranded(s, t, lb, lbName, port, p);
    }
  }

  lemma OtherPoolsStayStranded(s: CloudState, t: CloudState, lb: Id, lbName: string, port: int, p: Id)
    requires Integrity(s) && Inv(t, lb) && IsNamed(t, lb, lbName) && Grown(s, t, lb, lbName, {port})
    requires p !in PoolsNamed(t, lb, PoolName(lbName, port))
    ensures Stranded(t, lb, p) <==> Stranded(s, lb, p)
  {
    hide UniqueListeners, UniquePools, OneMonitor, IdentifiersUsed, MembersOf, PoolName, ListenerName;
    if PoolIn(t, p, lb) {
      assert !NamedForPort(t, p, lb, lbName, {port});
      PoolIdentified(t, p);
      forall l | l in t.listeners && l !in s.listeners ensures t.listeners[l].pool != p {
        assert t.listeners[l].port == port;
      }
      assert Referenced(t, p) <==> Referenced(s, p);
    }
  }

  lemma SameListenersNamed(s: CloudState, t: CloudState)
    requires t.listeners == s.listeners
    ensures forall b, n :: ListenersNamed(t, b, n) == ListenersNamed(s, b, n)
  {
  }

  lemma SamePoolsNamed(s: CloudState, t: CloudState)
    requires t.pools == s.pools
    ensures forall b, n :: PoolsNamed(t, b, n) == PoolsNamed(s, b, n)
  {
  }

  /*** All ports ***/

  /** What the steps of the first n ports may have changed. */
  ghost predicate GrownFor(s: CloudState, t: CloudState, lb: Id, lbName: string, service: Service, nodes: seq<Node>,
                           n: nat)
    requires n <= |service.ports|
  {
    && Grown(s, t, lb, lbName, PortNumbers(service.ports[..n])) && AddedForFirst(s, t, lb, lbName, service, n)
    && OnlyWantedAdded(s, t, WantedIPs(nodes)) && WantedStay(s, t, WantedIPs(nodes))
  }

  lemma GrownForNone(s: CloudState, lb: Id, lbName: string, service: Service, nodes: seq<Node>)
    ensures GrownFor(s, s, lb, lbName, service, nodes, 0)
  {
    hide Grown, AddedFor, OnlyWantedAdded, WantedStay;
    GrownBase(s, lb, lbName, PortNumbers(service.ports[..0]));
    AddedNothing(s, lb, lbName, service, PortSet(service.ports[..0]));
    WantedAddedTwice(s, s, s, WantedIPs(nodes));
  }

  lemma TwinsAwayFor(s: CloudState, t: CloudState, lb: Id, lbName: string, service: Service, nodes: seq<Node>, n: nat)
    requires Integrity(s) && n <= |service.ports| && GrownFor(s, t, lb, lbName, service, nodes, n)
    ensures NoStaleTwins(s, lb, WantedIPs(nodes)) ==> NoStaleTwins(t, lb, WantedIPs(nodes))
  {
    hide Integrity, Grown, AddedForFirst, OnlyWantedAdded, WantedStay, NoStaleTwins, WantedIPs, PortNumbers;
    GrownKeepsTwinsAway(s, t, lb, lbName, PortNumbers(service.ports[..n]), WantedIPs(nodes));
  }

  lemma GrownForNext(s: CloudState, t: CloudState, u: CloudState, lb: Id, lbName: string, service: Service,
                     nodes: seq<Node>, i: nat)
    requires i < |service.ports| && GrownFor(s, t, lb, lbName, service, nodes, i)
    requires Grown(t, u, lb, lbName, {service.ports[i].port})
    requires AddedFor(t, u, lb, lbName, service, {service.ports[i]})
    requires OnlyWantedAdded(t, u, WantedIPs(nodes)) && WantedStay(t, u, WantedIPs(nodes))
    ensures GrownFor(s, u, lb, lbName, service, nodes, i + 1)
  {
    hide Grown, AddedFor, OnlyWantedAdded, WantedStay, PortNumbers, PortSet, WantedIPs;
    var ports := service.ports;
    GrownTwice(s, t, u, lb, lbName, PortNumbers(ports[..i]), {ports[i].port});
    OnePortMore(s, lb, ports, i, {});
    AddedTwice(s, t, u, lb, lbName, service, PortSet(ports[..i]), {ports[i]});
    PortSetMore(ports, i);
    WantedAddedTwice(s, t, u, WantedIPs(nodes));
  }

  lemma GrownForAll(s: CloudState, t: CloudState, lb: Id, lbName: string, service: Service, nodes: seq<Node>, n: nat)
    requires n <= |service.ports| && GrownFor(s, t, lb, lbName, service, nodes, n)
    ensures Grown(s, t, lb, lbName, PortNumbers(service.ports))
    ensures AddedFor(s, t, lb, lbName, service, PortSet(service.ports))
    ensures OnlyWantedAdded(s, t, WantedIPs(nodes)) && WantedStay(s, t, WantedIPs(nodes))
    ensures forall k | n <= k <= |service.ports| :: AddedForFirst(s, t, lb, lbName, service, k)
  {
    hide Grown, AddedFor, OnlyWantedAdded, WantedStay, WantedIPs;
    var ports := service.ports;
    AddedUpTo(s, t, lb, lbName, service, n);
    assert ports[..|ports|] == ports && AddedForFirst(s, t, lb, lbName, service, |ports|);
    forall q | q in PortNumbers(ports[..n]) ensures q in PortNumbers(ports) {
      var j :| 0 <= j < n && ports[..n][j].port == q;
      assert ports[j].port == q;
    }
    GrownMonotone(s, t, lb, lbName, PortNumbers(ports[..n]), PortNumbers(ports));
  }

  lemma NoPortServed(s: CloudState, lb: Id, ports: seq<ServicePort>, wanted: set<string>, exact: bool)
    ensures AllServed(s, lb, PortNumbers(ports[..0]), wanted, exact)
    ensures forall lbName :: AllBound(s, lb, lbName, PortNumbers(ports[..0]))
  {
  }

  lemma OnePortMore(s: CloudState, lb: Id, ports: seq<ServicePort>, i: nat, wanted: set<string>)
    requires i < |ports|
    ensures PortNumbers(ports[..i + 1]) == PortNumbers(ports[..i]) + {ports[i].port}
    ensures PortNumbers(ports[..i + 1]) <= PortNumbers(ports)
    ensures AllServed(s, lb, PortNumbers(ports), wanted, true) ==> Served(s, lb, ports[i].port, wanted, true)
  {
    hide Served;
    var a, b := ports[..i], ports[..i + 1];
    forall n | n in PortNumbers(b) ensures n in PortNumbers(a) + {ports[i].port} && n in PortNumbers(ports) {
      var j :| 0 <= j < |b| && b[j].port == n;
      assert b[j] == ports[j] && (j < i ==> a[j] == b[j]);
    }
    forall n | n in PortNumbers(a) ensures n in PortNumbers(b) {
      var j :| 0 <= j < |a| && a[j].port == n;
      assert b[j] == a[j];
    }
    assert b[i] == ports[i];
    assert ports[i].port in PortNumbers(ports);
  }

  lemma GrownMonotone(s: CloudState, t: CloudState, lb: Id, lbName: string, a: set<int>, b: set<int>)
    requires a <= b && Grown(s, t, lb, lbName, a)
    ensures Grown(s, t, lb, lbName, b)
  {
    hide MembersOf;
    GrownBase(t, lb, lbName, b);
    GrownTwice(s, t, t, lb, lbName, a, b);
    assert a + b == b;
  }

  ghost predicate AllBound(s: CloudState, lb: Id, lbName: string, numbers: set<int>)
  {
    forall n :: n in numbers ==> Bound(s, lb, lbName, n)
  }

  lemma AllBoundMore(s: CloudState, t: CloudState, lb: Id, lbName: string, numbers: set<int>, port: int)
    requires Grown(s, t, lb, lbName, {port})
    requires AllBound(s, lb, lbName, numbers) && Bound(t, lb, lbName, port)
    ensures AllBound(t, lb, lbName, numbers + {port})
  {
    hide PoolName, MembersOf, NamedForPort;
    forall n | n in numbers ensures Bound(t, lb, lbName, n) {
      var l :| l in s.listeners && BoundBy(s, lb, lbName, n, s.listeners[l]);
      assert l in t.listeners && BoundBy(t, lb, lbName, n, t.listeners[l]);
    }
  }

  lemma AllServedLess(s: CloudState, lb: Id, numbers: set<int>, wanted: set<string>, exact: bool, less: bool)
    requires less ==> exact
    ensures AllServed(s, lb, numbers, wanted, exact) ==> AllServed(s, lb, numbers, wanted, less)
  {
    hide Served;
    if AllServed(s, lb, numbers, wanted, exact) {
      forall n | n in numbers ensures Served(s, lb, n, wanted, less) {
        ServedLess(s, lb, n, wanted, exact, less);
      }
    }
  }

  lemma AllServedMore(s: CloudState, t: CloudState, lb: Id, numbers: set<int>, port: int,
                      wanted: set<string>, exact: bool)
    requires Inv(s, lb) && lb in s.lbs
    requires Grown(s, t, lb, s.lbs[lb].name, {port})
    requires AllServed(s, lb, numbers, wanted, exact) && Served(t, lb, port, wanted, exact)
    ensures AllServed(t, lb, numbers + {port}, wanted, exact)
  {
    hide Inv, Grown, Served;
    forall n | n in numbers && n != port ensures Served(t, lb, n, wanted, exact) {
      ServedPersists(s, t, lb, {port}, n, wanted, exact);
    }
  }
}
