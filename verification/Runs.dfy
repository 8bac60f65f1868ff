// Whole series of controller calls, each with its own failures.
module Runs {
  import opened Cloud
  import opened Naming
  import opened Discipline
  import opened Goal
  import opened Requests
  import opened Members
  import opened Deletion
  import opened Retry
  import opened Client
  import opened Convergence
  import opened ServicePorts
  import opened Synchronisation
  import opened Teardown
  import opened Controller

  datatype Operation = Ensure | Update | Delete(patience: nat)

  /** One call, with what its lists and lookups of load balancers, its lookups of pools, listeners and
      monitors, and its write requests meet. */
  datatype Call = Call(op: Operation, cluster: string, service: Service, nodes: seq<Node>,
                       lookupFaults: seq<Fault>, findFaults: seq<Fault>, faults: seq<Fault>)

  function NameOf(call: Call): string
  {
    LoadBalancerName(call.cluster, call.service.namespace, call.service.name)
  }

  ghost predicate Clean(call: Call)
  {
    call.lookupFaults == [] && call.findFaults == [] && call.faults == []
  }

  /** What a claim asks of a call about its name.  Deletions may fail in any way, and so may all write
      requests and all lists and lookups of load balancers, except that an error body must not be read
      as an empty member list, nor a false 404 as the absence of the load balancer. */
  ghost predicate Respects(call: Call, claim: Claim)
  {
    claim.Recorded? || NameOf(call) != claim.n || call.op.Delete? ||
    match claim
    case Healthy(_) => call.findFaults == []
    case Tidy(_) => NoErrorBody(call.lookupFaults) && DistinctIPs(call.nodes)
    case Single(_) => call.op.Update? || Next(call.lookupFaults) != Rejected(404)
  }

  ghost predicate AllRespect(calls: seq<Call>, claim: Claim)
  {
    forall i | 0 <= i < |calls| :: Respects(calls[i], claim)
  }

  /*** What a call keeps ***/

  /** The call is about another load balancer, or keeps one with this port number and backends. */
  ghost predicate Wants(call: Call, name: string, port: int, backends: map<Id, Member>)
  {
    NameOf(call) == name ==>
      && !call.op.Delete? && port in PortNumbers(call.service.ports)
      && forall m | m in backends :: backends[m].address in WantedIPs(call.nodes)
  }

  /** Listener l of the load balancer of this name listens on the port, and its pool has these
      members. */
  ghost predicate Up(s: CloudState, name: string, port: int, l: Id, listener: Listener, backends: map<Id, Member>)
  {
    && l in s.listeners && s.listeners[l] == listener && listener.port == port
    && IsNamed(s, listener.lb, name) && listener.pool in s.pools
    && Sub(backends, s.members) && forall m | m in backends :: backends[m].pool == listener.pool
  }

  /** Listeners and backends the call wants stay up: those of load balancers of this name. */
  ghost predicate StayUp(s: CloudState, t: CloudState, call: Call, name: string)
  {
    forall port, l, listener, backends ::
      Wants(call, name, port, backends) && Up(s, name, port, l, listener, backends) ==>
        Up(t, name, port, l, listener, backends)
  }

  /** What a call may do to load balancers and elastic IPs, whatever fails: create the one that is
      missing, nothing, or take one down. */
  ghost predicate Framed(s: CloudState, t: CloudState, call: Call, ok: bool)
  {
    && OthersUntouched(s, t, NameOf(call)) && RecordsStay(s, t)
    && match call.op
       case Ensure =>
         Placed(s, t, NameOf(call), call.service.withEip, Next(call.lookupFaults), Next(call.faults))
       case Update => t.lbs == s.lbs && t.eips == s.eips
       case Delete(_) => t == s || exists b :: TakenDown(s, t, b, NameOf(call), ok, Next(Rest(call.lookupFaults)))
  }

  /** No other load balancer changes, and of the elastic IPs only those listed or on the VIP port go; if
      the call fails, at most one on the VIP port, provided that its lookup succeeds. */
  ghost predicate TakenDown(s: CloudState, t: CloudState, lb: Id, name: string, ok: bool, lookup: Fault)
  {
    && IsNamed(s, lb, name) && EipsSettled(s, t, lb) && OnlyChanges(s, t, lb)
    && (!ok ==> OnlyVipReleased(s, t, s.lbs[lb].vipPort, lookup))
  }

  ghost predicate Deletes(call: Call, name: string)
  {
    call.op.Delete? && NameOf(call) == name
  }

  lemma FramedSurvives(s: CloudState, t: CloudState, call: Call, ok: bool, b: Id, name: string)
    requires Framed(s, t, call, ok) && IsNamed(s, b, name) && !Deletes(call, name)
    ensures IsNamed(t, b, name)
  {
    hide FoundOrCreated, ViewOf;
  }

  lemma OthersStayUp(s: CloudState, t: CloudState, call: Call, name: string)
    requires Integrity(s) && OthersUntouched(s, t, NameOf(call)) && name != NameOf(call)
    ensures StayUp(s, t, call, name)
  {
    hide NameOf, PortNumbers, WantedIPs, MonitorsIn;
    forall port, l, listener, backends | Up(s, name, port, l, listener, backends)
      ensures Up(t, name, port, l, listener, backends)
    {
      var b := listener.lb;
      assert l in ViewOf(s, b).listeners && l in ViewOf(t, b).listeners;
      PoolIdentified(s, listener.pool);
      assert listener.pool in ViewOf(s, b).pools && listener.pool in ViewOf(t, b).pools;
      forall m | m in backends ensures m in t.members && t.members[m] == backends[m] {
        assert m in ViewOf(s, b).members && m in ViewOf(t, b).members;
      }
    }
  }

  lemma AdditionsStayUp(s: CloudState, t: CloudState, call: Call, name: string)
    requires Sub(s.listeners, t.listeners) && Sub(s.pools, t.pools) && Sub(s.lbs, t.lbs)
    requires WantedStay(s, t, WantedIPs(call.nodes)) && name == NameOf(call)
    ensures StayUp(s, t, call, name)
  {
    hide NameOf, PortNumbers, WantedIPs;
  }

  lemma UpdatesStayUp(s: CloudState, t: CloudState, call: Call, name: string)
    requires PortsKeptUnder(s, t, name, call.service, WantedIPs(call.nodes)) && t.lbs == s.lbs && name == NameOf(call)
    ensures StayUp(s, t, call, name)
  {
    hide NameOf, PortNumbers, WantedIPs;
    forall port, l, listener, backends |
      Wants(call, name, port, backends) && Up(s, name, port, l, listener, backends)
      ensures Up(t, name, port, l, listener, backends)
    {
      assert PortsKept(s, t, listener.lb, PortNumbers(call.service.ports), WantedIPs(call.nodes));
    }
  }

  /*** What a call achieves ***/

  /** What success alone tells: every port has its listener, or no load balancer of the name is left. */
  ghost predicate Fulfilled(t: CloudState, call: Call)
  {
    if call.op.Delete? then LoadBalancersNamed(t, NameOf(call)) == map[] else Fronted(t, NameOf(call), call.service)
  }

  /** What a call without failures achieves. */
  ghost predicate Achieved(s: CloudState, t: CloudState, call: Call, ok: bool)
  {
    var name := NameOf(call);
    var exists' := LoadBalancersNamed(s, name) != map[];
    match call.op
    case Ensure => ok && exists b :: Deployed(s, t, b, call.cluster, call.service, call.nodes)
    case Update =>
      (ok <==> exists') &&
      if exists' then exists b :: Synchronised(s, t, b, name, call.service, call.nodes) else t == s
    case Delete(_) => ok && if exists' then exists b :: IsNamed(s, b, name) && TornDown(s, t, b) else t == s
  }

  /** An update whose write requests all work, and whose load balancer is looked up, but whose list of
      listeners may fail in any way and whose other lists may be error bodies. */
  ghost predicate FallsBack(call: Call)
  {
    && call.op.Update? && call.findFaults == [] && call.faults == []
    && Next(call.lookupFaults) == NoFault && NoLost(Rest(Rest(call.lookupFaults)))
  }

  ghost predicate KeepsGoing(s: CloudState, t: CloudState, call: Call, ok: bool)
  {
    var name := NameOf(call);
    && (ok <==> LoadBalancersNamed(s, name) != map[])
    && if ok then exists b :: Refilled(s, t, b, name, call.service, call.nodes, Next(Rest(call.lookupFaults)),
                                Rest(Rest(call.lookupFaults)))
       else t == s
  }

  /** What the success of a call can be trusted for. */
  ghost predicate Trusted(call: Call, healthy: bool, single: bool)
  {
    if call.op.Delete? then NoFalse404(call.lookupFaults) && NoFalse404(call.faults) && single
    else call.findFaults == [] && healthy
  }

  /** What is known of one call, given whether the step invariant and the uniqueness of the name
      held before it. */
  ghost predicate Meets(s: CloudState, t: CloudState, call: Call, ok: bool, healthy: bool, single: bool)
  {
    && Framed(s, t, call, ok)
    && (forall n :: healthy || n != NameOf(call) ==> StayUp(s, t, call, n))
    && (ok && Trusted(call, healthy, single) ==> Fulfilled(t, call))
    && (FallsBack(call) && healthy ==> KeepsGoing(s, t, call, ok) && NothingStranded(s, t))
    && (Clean(call) && healthy ==> Achieved(s, t, call, ok) && NothingStranded(s, t))
  }

  lemma LessMeets(s: CloudState, t: CloudState, call: Call, ok: bool, healthy: bool, single: bool,
                  healthy': bool, single': bool)
    requires Meets(s, t, call, ok, healthy, single) && (healthy' ==> healthy) && (single' ==> single)
    ensures Meets(s, t, call, ok, healthy', single')
  {
    hide Framed, StayUp, Achieved, Fulfilled, NoFalse404, NothingStranded, FallsBack, KeepsGoing;
  }

  lemma AllStayUp(s: CloudState, t: CloudState, call: Call, healthy: bool)
    requires Integrity(s) && OthersUntouched(s, t, NameOf(call)) && (healthy ==> StayUp(s, t, call, NameOf(call)))
    ensures forall n :: healthy || n != NameOf(call) ==> StayUp(s, t, call, n)
  {
    hide StayUp, OthersUntouched, Integrity;
    forall n | n != NameOf(call) ensures StayUp(s, t, call, n) {
      OthersStayUp(s, t, call, n);
    }
  }

  lemma EnsureMeets(s: CloudState, t: CloudState, call: Call, ok: bool, healthy: bool, single: bool)
    requires Integrity(s) && Integrity(t) && call.op.Ensure? && Framed(s, t, call, ok)
    requires WantedStay(s, t, WantedIPs(call.nodes))
    requires exists b :: AddedFor(s, t, b, NameOf(call), call.service, PortSet(call.service.ports))
    requires call.findFaults == [] && healthy && ok ==> Fronted(t, NameOf(call), call.service)
    requires Clean(call) && healthy ==>
               ok && exists b :: Deployed(s, t, b, call.cluster, call.service, call.nodes)
    ensures Meets(s, t, call, ok, healthy, single)
  {
    hide Integrity, StayUp, OthersUntouched, WantedStay, Deployed, Fronted, FoundOrCreated, NewListeners, NewPools,
         NewMembers, NewMonitors, PortSet, NameOf, WantedIPs, Sub, NothingStranded, RecordsStay;
    AdditionsStayUp(s, t, call, NameOf(call));
    AllStayUp(s, t, call, healthy);
    if Clean(call) && healthy {
      var b :| Deployed(s, t, b, call.cluster, call.service, call.nodes);
      DeployedStrandsNothing(s, t, b, call.cluster, call.service, call.nodes);
    }
  }

  lemma UpdateMeets(s: CloudState, t: CloudState, call: Call, ok: bool, healthy: bool, single: bool)
    requires Integrity(s) && Integrity(t) && call.op.Update? && Framed(s, t, call, ok)
    requires healthy ==> PortsKeptUnder(s, t, NameOf(call), call.service, WantedIPs(call.nodes))
    requires call.findFaults == [] && healthy && ok ==> Fronted(t, NameOf(call), call.service)
    requires Clean(call) && healthy ==> Achieved(s, t, call, ok)
    requires FallsBack(call) && healthy ==> KeepsGoing(s, t, call, ok)
    ensures Meets(s, t, call, ok, healthy, single)
  {
    hide Integrity, StayUp, OthersUntouched, PortsKeptUnder, Synchronised, Fronted, NameOf, WantedIPs,
         NothingStranded, RecordsStay, LoadBalancersNamed, Refilled;
    if healthy {
      UpdatesStayUp(s, t, call, NameOf(call));
    }
    AllStayUp(s, t, call, healthy);
    SameStrandsNothing(s);
    if Clean(call) && healthy && ok {
      var b :| Synchronised(s, t, b, NameOf(call), call.service, call.nodes);
      SynchronisedStrandsNothing(s, t, b, NameOf(call), call.service, call.nodes);
    }
    if FallsBack(call) && healthy && ok {
      var list, later := Next(Rest(call.lookupFaults)), Rest(Rest(call.lookupFaults));
      var b :| Refilled(s, t, b, NameOf(call), call.service, call.nodes, list, later);
      RefilledStrandsNothing(s, t, b, NameOf(call), call.service, call.nodes, list, later);
    }
  }

  lemma DeleteMeets(s: CloudState, t: CloudState, call: Call, ok: bool, healthy: bool, single: bool, lb: Id)
    requires Integrity(s) && Integrity(t) && call.op.Delete? && (single ==> OneNamed(s, NameOf(call)))
    requires OthersUntouched(s, t, NameOf(call)) && RecordsStay(s, t)
    requires if lb == NO_ID then t == s else TakenDown(s, t, lb, NameOf(call), ok, Next(Rest(call.lookupFaults)))
    requires ok && NoFalse404(call.lookupFaults) && NoFalse404(call.faults) ==>
               && (lb == NO_ID <==> LoadBalancersNamed(s, NameOf(call)) == map[])
               && (lb != NO_ID ==> Erased(s, t, lb))
    requires Clean(call) ==> ok && (lb != NO_ID ==> TornDown(s, t, lb))
    ensures Meets(s, t, call, ok, healthy, single)
  {
    hide Integrity, OthersUntouched, NameOf, NothingStranded, RecordsStay, LoadBalancersNamed, EipsSettled,
         OnlyChanges, Erased, NoFalse404, VipUnbound, OneNamed, IsNamed;
    DeletionsWantNothing(s, t, call);
    AllStayUp(s, t, call, healthy);
    NoFaultsNoFalse404();
    SameStrandsNothing(s);
    if single && ok && NoFalse404(call.lookupFaults) && NoFalse404(call.faults) {
      ErasedFreesName(s, t, lb, NameOf(call));
    }
    if Clean(call) && lb != NO_ID {
      ErasedStrandsNothing(s, t, lb);
    }
  }

  lemma DeletionsWantNothing(s: CloudState, t: CloudState, call: Call)
    requires call.op.Delete?
    ensures StayUp(s, t, call, NameOf(call))
  {
  }

  lemma ErasedFreesName(s: CloudState, t: CloudState, lb: Id, name: string)
    requires OneNamed(s, name)
    requires if lb == NO_ID then t == s && LoadBalancersNamed(s, name) == map[]
             else IsNamed(s, lb, name) && Erased(s, t, lb)
    ensures LoadBalancersNamed(t, name) == map[]
  {
    hide ViewOf;
    forall b ensures b !in LoadBalancersNamed(t, name) {
      assert b in s.lbs && s.lbs[b].name == name ==> IsNamed(s, b, name) && b in LoadBalancersNamed(s, name);
    }
  }

  /*** Stranded pools ***/

  lemma DeployedStrandsNothing(s: CloudState, t: CloudState, b: Id, cluster: string, service: Service, nodes: seq<Node>)
    requires Integrity(s) && Integrity(t) && Deployed(s, t, b, cluster, service, nodes)
    ensures NothingStranded(s, t)
  {
    hide LeftStranded, OnlyTouches, AllServed, BornWith, NothingStranded, Integrity;
    ResidueStrandsNothing(s, t, b, LoadBalancerName(cluster, service.namespace, service.name),
        PortNumbers(service.ports));
  }

  lemma SynchronisedStrandsNothing(s: CloudState, t: CloudState, b: Id, name: string, service: Service,
                                   nodes: seq<Node>)
    requires Integrity(s) && Integrity(t) && Synchronised(s, t, b, name, service, nodes)
    ensures NothingStranded(s, t)
  {
    hide LeftStranded, OnlyTouches, Converged, Rebuilt, NothingStranded, Integrity;
    ResidueStrandsNothing(s, t, b, name, PortNumbers(service.ports));
  }

  lemma RefilledStrandsNothing(s: CloudState, t: CloudState, b: Id, name: string, service: Service, nodes: seq<Node>,
                               list: Fault, later: seq<Fault>)
    requires Integrity(s) && Integrity(t) && Refilled(s, t, b, name, service, nodes, list, later)
    ensures NothingStranded(s, t)
  {
    hide LeftStranded, OnlyTouches, AllServed, Converged, Grown, NothingStranded, Integrity;
    ResidueStrandsNothing(s, t, b, name, PortNumbers(service.ports));
  }

  lemma SameStrandsNothing(s: CloudState)
    ensures NothingStranded(s, s)
  {
  }

  lemma ErasedStrandsNothing(s: CloudState, t: CloudState, lb: Id)
    requires Integrity(s) && Integrity(t) && Erased(s, t, lb) && OnlyChanges(s, t, lb)
    ensures NothingStranded(s, t)
  {
    hide MembersIn, MonitorsIn, Integrity, Referenced;
    forall b, p | Stranded(t, b, p) ensures Stranded(s, b, p) {
      assert p in ViewOf(t, b).pools;
      SameViewSameStranded(s, t, b, p);
    }
  }

  /*** Traces ***/

  /** The stores between the calls of a run, each call meeting what it promises. */
  ghost predicate Traced(trace: seq<CloudState>, calls: seq<Call>, oks: seq<bool>, healthy: iset<string>,
                         single: iset<string>)
  {
    && |oks| == |calls| && |trace| == |calls| + 1
    && forall i | 0 <= i < |calls| ::
         Meets(trace[i], trace[i + 1], calls[i], oks[i], NameOf(calls[i]) in healthy, NameOf(calls[i]) in single)
  }

  ghost predicate NeverDeleted(calls: seq<Call>, from: nat, name: string)
  {
    forall i | from <= i < |calls| :: !Deletes(calls[i], name)
  }

  /** A load balancer stays from one call of a run to the end when no later call deletes its name. */
  lemma {:induction false} TraceSurvives(trace: seq<CloudState>, calls: seq<Call>, oks: seq<bool>,
                                         healthy: iset<string>, single: iset<string>, i: nat, b: Id, name: string)
    requires Traced(trace, calls, oks, healthy, single) && i <= |calls|
    requires NeverDeleted(calls, i, name) && IsNamed(trace[i], b, name)
    ensures IsNamed(trace[|calls|], b, name)
    decreases |calls| - i
  {
    hide Framed, StayUp, Deletes, IsNamed, Achieved, Fulfilled;
    if i == |calls| {
    } else {
      assert Meets(trace[i], trace[i + 1], calls[i], oks[i], NameOf(calls[i]) in healthy, NameOf(calls[i]) in single);
      FramedSurvives(trace[i], trace[i + 1], calls[i], oks[i], b, name);
      TraceSurvives(trace, calls, oks, healthy, single, i + 1, b, name);
    }
  }

  lemma {:induction false} TraceKeepsUp(trace: seq<CloudState>, calls: seq<Call>, oks: seq<bool>,
                                        healthy: iset<string>, single: iset<string>, i: nat, name: string,
                                        port: int, l: Id, listener: Listener, backends: map<Id, Member>)
    requires Traced(trace, calls, oks, healthy, single) && i <= |calls| && name in healthy
    requires forall k | 0 <= k < |calls| :: Wants(calls[k], name, port, backends)
    requires Up(trace[0], name, port, l, listener, backends)
    ensures Up(trace[i], name, port, l, listener, backends)
  {
    hide Framed, Up, Wants, Achieved, Fulfilled;
    if i == 0 {
    } else {
      TraceKeepsUp(trace, calls, oks, healthy, single, i - 1, name, port, l, listener, backends);
      assert Meets(trace[i - 1], trace[i], calls[i - 1], oks[i - 1], NameOf(calls[i - 1]) in healthy,
          NameOf(calls[i - 1]) in single);
      assert StayUp(trace[i - 1], trace[i], calls[i - 1], name);
    }
  }

  lemma {:induction false} TraceStrandsNothing(trace: seq<CloudState>, calls: seq<Call>, oks: seq<bool>,
                                               healthy: iset<string>, single: iset<string>, i: nat)
    requires Traced(trace, calls, oks, healthy, single) && i <= |calls|
    requires forall k | 0 <= k < |calls| :: Clean(calls[k]) && NameOf(calls[k]) in healthy
    ensures NothingStranded(trace[0], trace[i])
  {
    hide Framed, StayUp, Achieved, Fulfilled, Stranded, NameOf;
    if i == 0 {
    } else {
      TraceStrandsNothing(trace, calls, oks, healthy, single, i - 1);
      assert Meets(trace[i - 1], trace[i], calls[i - 1], oks[i - 1], NameOf(calls[i - 1]) in healthy,
          NameOf(calls[i - 1]) in single);
    }
  }

  lemma {:induction false} TraceKeepsRecords(trace: seq<CloudState>, calls: seq<Call>, oks: seq<bool>,
                                             healthy: iset<string>, single: iset<string>, i: nat)
    requires Traced(trace, calls, oks, healthy, single) && i <= |calls|
    ensures RecordsStay(trace[0], trace[i])
  {
    hide StayUp, Achieved, Fulfilled, RecordsStay;
    if i == 0 {
      NothingIsUntouched(trace[0], "");
    } else {
      TraceKeepsRecords(trace, calls, oks, healthy, single, i - 1);
      assert Meets(trace[i - 1], trace[i], calls[i - 1], oks[i - 1], NameOf(calls[i - 1]) in healthy,
          NameOf(calls[i - 1]) in single);
      RecordsStayTwice(trace[0], trace[i - 1], trace[i]);
    }
  }

  lemma TraceKeeps(trace: seq<CloudState>, calls: seq<Call>, oks: seq<bool>, healthy: iset<string>,
                   single: iset<string>)
    requires Traced(trace, calls, oks, healthy, single)
    ensures RecordsStay(trace[0], trace[|calls|])
    ensures forall b, n | IsNamed(trace[0], b, n) && NeverDeleted(calls, 0, n) :: IsNamed(trace[|calls|], b, n)
    ensures forall n, port, l, listener, backends | n in healthy && Up(trace[0], n, port, l, listener, backends) ::
              (forall i | 0 <= i < |calls| :: Wants(calls[i], n, port, backends)) ==>
                Up(trace[|calls|], n, port, l, listener, backends)
  {
    hide RecordsStay, IsNamed, NeverDeleted, Up, Wants, Meets, NameOf;
    TraceKeepsRecords(trace, calls, oks, healthy, single, |calls|);
    forall b, n | IsNamed(trace[0], b, n) && NeverDeleted(calls, 0, n) ensures IsNamed(trace[|calls|], b, n) {
      TraceSurvives(trace, calls, oks, healthy, single, 0, b, n);
    }
    forall n, port, l, listener, backends |
      n in healthy && Up(trace[0], n, port, l, listener, backends) &&
      forall i | 0 <= i < |calls| :: Wants(calls[i], n, port, backends)
      ensures Up(trace[|calls|], n, port, l, listener, backends)
    {
      TraceKeepsUp(trace, calls, oks, healthy, single, |calls|, n, port, l, listener, backends);
    }
  }

  /*** Calls and runs ***/

  method Perform(c: LoadBalancerController, call: Call) returns (ok: bool)
    requires Integrity(c.client.cloud)
    modifies c.client
    ensures Integrity(c.client.cloud) && old(c.client.log) <= c.client.log
    ensures old(c.client.Holds(Recorded)) ==>
              Linked(c.client.log, |old(c.client.log)|, old(c.client.cloud), c.client.cloud)
    ensures forall claim | Respects(call, claim) :: old(c.client.Holds(claim)) ==> c.client.Holds(claim)
    ensures Meets(old(c.client.cloud), c.client.cloud, call, ok, old(c.client.Holds(Healthy(NameOf(call)))),
              old(c.client.Holds(Single(NameOf(call)))))
  {
    hide ELBv3Client.Holds, Inv, Integrity, OthersUntouched, Synchronised, Deployed, DistinctIPs, PortsKeptUnder,
         Fronted, Erased, LoadBalancersNamed, AddedFor, PortSet, EipsSettled, EndsWithReleases, OnlyWantedAdded,
         WantedStay, WantedIPs, NoErrorBody, NoFalse404, Linked, RecordsStay, OnlyChanges, SettledIn, ServedUnder,
         Meets, Calm, Emptied, OneMonitor, TornDown, Placed, Sub, ReleaseOrder, Changes, VipReleaseFirst,
         GoneOnRequest, EndsConfirmed, OnlyVipReleased, Sent, Stops, Answered, Lost, NoneFatal, FatalLast, Replied,
         AskedUnder, Refilled, NoLost;
    var name := NameOf(call);
    ghost var s0, l0 := c.client.cloud, c.client.log;
    ghost var healthy, single := c.client.Holds(Healthy(name)), c.client.Holds(Single(name));
    c.client.Meaning(name);
    c.client.Script(call.lookupFaults, call.findFaults, call.faults);
    match call.op {
      case Ensure =>
        ok := c.EnsureLoadBalancer(call.cluster, call.service, call.nodes);
        EnsureMeets(s0, c.client.cloud, call, ok, healthy, single);
      case Update =>
        ok := c.UpdateLoadBalancer(call.cluster, call.service, call.nodes);
        UpdateMeets(s0, c.client.cloud, call, ok, healthy, single);
      case Delete(patience) =>
        ghost var lb;
        ok, lb := c.EnsureLoadBalancerDeleted(call.cluster, call.service, patience);
        if lb != NO_ID && !ok {
          VipReleasedOnly(s0, c.client.cloud, c.client.log, |l0|, s0.lbs[lb].vipPort, Next(Rest(call.lookupFaults)));
        }
        DeleteMeets(s0, c.client.cloud, call, ok, healthy, single, lb);
    }
    c.client.Meaning(name);
    if old(c.client.Holds(Recorded)) {
      LinkedSince(l0, c.client.log, c.client.first, s0, c.client.cloud);
    }
  }

  /** Whatever writes fail and whatever the nodes, for each name: the step invariant holds after every
      request if the lookups of pools, listeners and monitors are faithful; members stay one per
      address unless two nodes share an IP or an error body reads as an empty list; and there is one
      load balancer of the name unless a 404 is false.  A listener and its backends stay up as long as
      every call for its load balancer wants them, and the load balancer stays unless a call deletes
      it.  Calls about other names may do as they please, and so may load balancers this controller
      knows nothing of.  The log holds every change made; `trace` has the store between the calls,
      each of which meets what it promises; and when no call fails, no pool is stranded. */
  method Run(c: LoadBalancerController, calls: seq<Call>) returns (oks: seq<bool>, ghost trace: seq<CloudState>)
    requires Integrity(c.client.cloud)
    modifies c.client
    ensures Integrity(c.client.cloud) && old(c.client.log) <= c.client.log
    ensures old(c.client.Holds(Recorded)) ==>
              Linked(c.client.log, |old(c.client.log)|, old(c.client.cloud), c.client.cloud)
    ensures forall claim | AllRespect(calls, claim) :: old(c.client.Holds(claim)) ==> c.client.Holds(claim)
    ensures Traced(trace, calls, oks, iset n | AllRespect(calls, Healthy(n)) && old(c.client.Holds(Healthy(n))),
              iset n | AllRespect(calls, Single(n)) && old(c.client.Holds(Single(n))))
    ensures trace[0] == old(c.client.cloud) && trace[|calls|] == c.client.cloud
    ensures RecordsStay(old(c.client.cloud), c.client.cloud)
    ensures forall b, n | IsNamed(old(c.client.cloud), b, n) && NeverDeleted(calls, 0, n) ::
              IsNamed(c.client.cloud, b, n)
    ensures forall n, port, l, listener, backends |
              AllRespect(calls, Healthy(n)) && old(c.client.Holds(Healthy(n))) &&
              Up(old(c.client.cloud), n, port, l, listener, backends) ::
                (forall i | 0 <= i < |calls| :: Wants(calls[i], n, port, backends)) ==>
                  Up(c.client.cloud, n, port, l, listener, backends)
    ensures (forall i | 0 <= i < |calls| :: Clean(calls[i]) && old(c.client.Holds(Healthy(NameOf(calls[i]))))) ==>
              NothingStranded(old(c.client.cloud), c.client.cloud)
  {
    hide ELBv3Client.Holds, Inv, Integrity, NoFalse404, Linked, RecordsStay, NothingStranded, NameOf, Meets, Up,
         Wants, IsNamed, NeverDeleted, DistinctIPs, NoErrorBody, Changes;
    ghost var s0, l0 := c.client.cloud, c.client.log;
    ghost var healthy := iset n | AllRespect(calls, Healthy(n)) && c.client.Holds(Healthy(n));
    ghost var single := iset n | AllRespect(calls, Single(n)) && c.client.Holds(Single(n));
    oks, trace := [], [s0];
    c.client.Meaning("");
    for i := 0 to |calls|
      invariant Integrity(c.client.cloud) && l0 <= c.client.log
      invariant |oks| == i && |trace| == i + 1 && trace[0] == s0 && trace[i] == c.client.cloud
      invariant forall k | 0 <= k < i ::
                  Meets(trace[k], trace[k + 1], calls[k], oks[k], NameOf(calls[k]) in healthy,
                    NameOf(calls[k]) in single)
      invariant forall claim | AllRespect(calls, claim) :: old(c.client.Holds(claim)) ==> c.client.Holds(claim)
    {
      ghost var s1, n := c.client.cloud, NameOf(calls[i]);
      ghost var healthyNow, singleNow := c.client.Holds(Healthy(n)), c.client.Holds(Single(n));
      var ok := Perform(c, calls[i]);
      LessMeets(s1, c.client.cloud, calls[i], ok, healthyNow, singleNow, n in healthy, n in single);
      oks, trace := oks + [ok], trace + [c.client.cloud];
    }
    assert Traced(trace, calls, oks, healthy, single);
    TraceKeeps(trace, calls, oks, healthy, single);
    if forall i | 0 <= i < |calls| :: Clean(calls[i]) && old(c.client.Holds(Healthy(NameOf(calls[i])))) {
      forall i | 0 <= i < |calls| ensures NameOf(calls[i]) in healthy {
        CleanRespects(calls, NameOf(calls[i]));
      }
      TraceStrandsNothing(trace, calls, oks, healthy, single, |calls|);
    }
    c.client.Meaning("");
    if old(c.client.Holds(Recorded)) {
      LinkedSince(l0, c.client.log, c.client.first, s0, c.client.cloud);
    }
  }

  lemma CleanRespects(calls: seq<Call>, n: string)
    requires forall k | 0 <= k < |calls| :: Clean(calls[k])
    ensures AllRespect(calls, Healthy(n))
  {
  }

  /** A clean update of any store in which the invariant holds for the service's load balancer, with
      any nodes. */
  method CleanUpdate(c: LoadBalancerController, cluster: string, service: Service, nodes: seq<Node>) returns (ok: bool)
    requires Integrity(c.client.cloud)
    requires c.client.Holds(Healthy(LoadBalancerName(cluster, service.namespace, service.name)))
    modifies c.client
    ensures Integrity(c.client.cloud) && old(c.client.log) <= c.client.log
    ensures c.client.StaysHealthy() && c.client.StaysSingle() && (DistinctIPs(nodes) ==> c.client.StaysTidy())
    ensures c.client.cloud.lbs == old(c.client.cloud.lbs) && c.client.cloud.eips == old(c.client.cloud.eips)
    ensures var name := LoadBalancerName(cluster, service.namespace, service.name);
      && (ok <==> LoadBalancersNamed(old(c.client.cloud), name) != map[])
      && (ok ==> exists b :: Synchronised(old(c.client.cloud), c.client.cloud, b, name, service, nodes))
      && (!ok ==> c.client.cloud == old(c.client.cloud))
      && (DistinctIPs(nodes) && SettledIn(old(c.client.cloud), name, service.ports, WantedIPs(nodes), true) ==>
            c.client.cloud == old(c.client.cloud) && c.client.log == old(c.client.log))
  {
    hide ELBv3Client.Holds, OthersUntouched, DistinctIPs, Synchronised, IsNamed, Integrity, OnlyWantedAdded,
         SettledIn, PortsKeptUnder, Fronted, RecordsStay, NoFalse404, Changes;
    NoFaultsNoFalse404();
    c.client.Script([], [], []);
    ok := c.UpdateLoadBalancer(cluster, service, nodes);
  }

  /** A clean deletion from any store: no conflict, each pool empty when its deletion is sent, and
      nothing of the load balancer left, stranded pools included. */
  method CleanDelete(c: LoadBalancerController, cluster: string, service: Service, patience: nat)
    returns (ghost lb: Id)
    requires Integrity(c.client.cloud)
    modifies c.client
    ensures Integrity(c.client.cloud) && old(c.client.log) <= c.client.log && c.client.Steady()
    ensures RecordsStay(old(c.client.cloud), c.client.cloud)
    ensures Calm(c.client.log, |old(c.client.log)|)
    ensures var name := LoadBalancerName(cluster, service.namespace, service.name);
      && (lb == NO_ID <==> LoadBalancersNamed(old(c.client.cloud), name) == map[])
      && (lb == NO_ID ==> c.client.cloud == old(c.client.cloud) && c.client.log == old(c.client.log))
      && (lb != NO_ID ==>
            && IsNamed(old(c.client.cloud), lb, name) && TornDown(old(c.client.cloud), c.client.cloud, lb)
            && OnlyChanges(old(c.client.cloud), c.client.cloud, lb)
            && (Inv(old(c.client.cloud), lb) ==> Emptied(c.client.log, |old(c.client.log)|)))
      && (OneNamed(old(c.client.cloud), name) ==> LoadBalancersNamed(c.client.cloud, name) == map[])
  {
    hide ELBv3Client.Holds, OthersUntouched, Integrity, LoadBalancersNamed, Erased, Calm, Emptied, NoFalse404,
         EipsSettled, EndsWithReleases, OnlyChanges, IsNamed, VipUnbound, OneNamed, RecordsStay, NamesFollowPorts,
         UniqueListeners, UniquePools, OneMonitor, Changes;
    ghost var s0, name := c.client.cloud, LoadBalancerName(cluster, service.namespace, service.name);
    c.client.Script([], [], []);
    NoFaultsNoFalse404();
    var ok;
    ok, lb := c.EnsureLoadBalancerDeleted(cluster, service, patience);
    if OneNamed(s0, name) {
      ErasedFreesName(s0, c.client.cloud, lb, name);
    }
  }

  /** Self-healing: after any run in which writes fail at will, one clean update settles the service.
      A load balancer that was there at the start, or served as a call reported, is there and settled
      unless a later call deleted it.  Addresses nobody wants are all gone unless a pool had one of them
      twice, which cannot be when members were one per address and no two nodes ever shared an IP; and
      pools without a listener are left over only if a call of the run failed. */
  method RunThenUpdate(c: LoadBalancerController, calls: seq<Call>, cluster: string, service: Service, nodes: seq<Node>)
    returns (oks: seq<bool>, ok: bool)
    requires Integrity(c.client.cloud)
    requires var name := LoadBalancerName(cluster, service.namespace, service.name);
      && c.client.Holds(Healthy(name)) && AllRespect(calls, Healthy(name))
      && c.client.Holds(Single(name)) && AllRespect(calls, Single(name))
    modifies c.client
    ensures |oks| == |calls|
    ensures var name := LoadBalancerName(cluster, service.namespace, service.name);
      && Integrity(c.client.cloud) && c.client.Holds(Healthy(name)) && c.client.Holds(Single(name))
      && (ok <==> LoadBalancersNamed(c.client.cloud, name) != map[])
      && (NeverDeleted(calls, 0, name) ==>
            forall b | IsNamed(old(c.client.cloud), b, name) :: ok && IsNamed(c.client.cloud, b, name))
      && (forall i | 0 <= i < |calls| && oks[i] && calls[i].op.Ensure? && NameOf(calls[i]) == name ::
            NeverDeleted(calls, i, name) ==> ok)
      && SettledIn(c.client.cloud, name, service.ports, WantedIPs(nodes),
            AllRespect(calls, Tidy(name)) && old(c.client.Holds(Tidy(name))))
    ensures (forall i | 0 <= i < |calls| :: Clean(calls[i]) && old(c.client.Holds(Healthy(NameOf(calls[i]))))) ==>
              NothingStranded(old(c.client.cloud), c.client.cloud)
  {
    hide ELBv3Client.Holds, Integrity, NameOf, Synchronised, SettledIn, AllRespect, LoadBalancersNamed, Up, Wants,
         Linked, Stranded, Clean, Traced, NeverDeleted, Changes;
    ghost var name, s0 := LoadBalancerName(cluster, service.namespace, service.name), c.client.cloud;
    ghost var healthy := iset n | AllRespect(calls, Healthy(n)) && c.client.Holds(Healthy(n));
    ghost var single := iset n | AllRespect(calls, Single(n)) && c.client.Holds(Single(n));
    ghost var trace;
    oks, trace := Run(c, calls);
    c.client.TidyHere(name);
    TraceLengths(trace, calls, oks, healthy, single);
    ghost var s1, tidy := c.client.cloud, AllRespect(calls, Tidy(name)) && old(c.client.Holds(Tidy(name)));
    forall i | 0 <= i < |calls| && oks[i] && calls[i].op.Ensure? && NameOf(calls[i]) == name &&
               NeverDeleted(calls, i, name)
      ensures LoadBalancersNamed(s1, name) != map[]
    {
      EnsuredStays(trace, calls, oks, healthy, single, i, name);
    }
    SameStrandsNothing(s1);
    ok := CleanUpdate(c, cluster, service, nodes);
    c.client.Meaning(name);
    forall b | IsNamed(s1, b, name) ensures LoadBalancersNamed(s1, name) != map[] {
      FoundIsNamed(s1, name, b);
    }
    if ok {
      ghost var b :| Synchronised(s1, c.client.cloud, b, name, service, nodes);
      SynchronisedIsNamed(s1, c.client.cloud, b, name, service, nodes);
      SynchronisedStrandsNothing(s1, c.client.cloud, b, name, service, nodes);
    }
    SynchronisedSettles(s1, c.client.cloud, name, service, nodes, tidy);
  }

  lemma TraceLengths(trace: seq<CloudState>, calls: seq<Call>, oks: seq<bool>, healthy: iset<string>,
                     single: iset<string>)
    requires Traced(trace, calls, oks, healthy, single)
    ensures |oks| == |calls| && |trace| == |calls| + 1
  {
  }

  /** What a successful call has ensured is there at the end unless a later call deletes it. */
  lemma EnsuredStays(trace: seq<CloudState>, calls: seq<Call>, oks: seq<bool>, healthy: iset<string>,
                     single: iset<string>, i: nat, name: string)
    requires Traced(trace, calls, oks, healthy, single) && i < |calls| && calls[i].op.Ensure? && oks[i]
    requires NameOf(calls[i]) == name && name in healthy && AllRespect(calls, Healthy(name))
    requires NeverDeleted(calls, i, name)
    ensures LoadBalancersNamed(trace[|calls|], name) != map[]
  {
    hide Framed, StayUp, Deletes, Achieved, AllBound, NameOf;
    assert Respects(calls[i], Healthy(name));
    assert Meets(trace[i], trace[i + 1], calls[i], oks[i], true, NameOf(calls[i]) in single);
    var b :| IsNamed(trace[i + 1], b, name) && AllBound(trace[i + 1], b, name, PortNumbers(calls[i].service.ports));
    TraceSurvives(trace, calls, oks, healthy, single, i + 1, b, name);
    FoundIsNamed(trace[|calls|], name, b);
  }

  /** After any such run a clean deletion leaves none of the name's load balancers, and nothing that
      ever belonged to them. */
  method RunThenDelete(c: LoadBalancerController, calls: seq<Call>, cluster: string, service: Service, patience: nat)
    requires Integrity(c.client.cloud)
    requires var name := LoadBalancerName(cluster, service.namespace, service.name);
      c.client.Holds(Single(name)) && AllRespect(calls, Single(name))
    modifies c.client
    ensures var name := LoadBalancerName(cluster, service.namespace, service.name);
      && Integrity(c.client.cloud) && c.client.Holds(Single(name))
      && LoadBalancersNamed(c.client.cloud, name) == map[]
      && forall b :: IsNamed(old(c.client.cloud), b, name) ==>
           b !in c.client.cloud.lbs && ViewOf(c.client.cloud, b) == View(map[], map[], map[], map[])
  {
    hide ELBv3Client.Holds, Integrity, NameOf, AllRespect, LoadBalancersNamed, Up, Wants, Linked, Stranded, Clean,
         ViewOf, TornDown, RecordsStay, IsNamed, Calm, Emptied, OnlyChanges, Inv, OneNamed, Changes;
    ghost var name, s0 := LoadBalancerName(cluster, service.namespace, service.name), c.client.cloud;
    var _, _ := Run(c, calls);
    ghost var s1 := c.client.cloud;
    c.client.Meaning(name);
    var lb := CleanDelete(c, cluster, service, patience);
    RecordsStayTwice(s0, s1, c.client.cloud);
    forall b | IsNamed(s0, b, name)
      ensures b !in c.client.cloud.lbs && ViewOf(c.client.cloud, b) == View(map[], map[], map[], map[])
    {
      GoneForGood(s0, c.client.cloud, b, name);
    }
  }

  lemma GoneForGood(s: CloudState, t: CloudState, b: Id, name: string)
    requires Integrity(s) && Integrity(t) && RecordsStay(s, t) && IsNamed(s, b, name)
    requires LoadBalancersNamed(t, name) == map[]
    ensures b !in t.lbs && ViewOf(t, b) == View(map[], map[], map[], map[])
  {
    if b in t.lbs {
      SameRecordStays(s, t, b);
      FoundIsNamed(t, name, b);
      assert false;
    }
  }

  /** How a pool gets stranded: the pool of a new port is created, the request for its listener is
      lost, and the service drops the port.  No later update removes the pool, clean as it may be. */
  method LostListenerStrandsPool(c: LoadBalancerController, lb: Id, lbName: string, port: ServicePort, service: Service,
                                 later: Service, nodes: seq<Node>)
    returns (pool: Id)
    requires Integrity(c.client.cloud) && IsNamed(c.client.cloud, lb, lbName) && c.client.Holds(Healthy(lbName))
    requires ListenersNamed(c.client.cloud, lb, ListenerName(lbName, port.port)) == map[]
    requires port.port !in PortNumbers(later.ports)
    modifies c.client
    ensures Stranded(c.client.cloud, lb, pool) && c.client.cloud.pools[pool].name == PoolName(lbName, port.port)
  {
    hide ELBv3Client.Holds, Integrity, ViewOf, Grown, AddedFor, Served, Addresses, WantedIPs, NoStaleTwins,
         OnlyWantedAdded, PortNumbers, PortsKept, Rebuilt, Converged, AllBound, Bound, Ready, PoolName,
         ListenerName, Referenced, NoFalse404, Changes;
    c.client.Script([], [], []);
    var created := c.EnsureBackends(lb, lbName, port, service, nodes);
    pool := created.value;
    c.client.Script([], [], [Unsent]);
    var ok := c.EnsureFrontend(lb, lbName, port, service, pool);
    ghost var s := c.client.cloud;
    c.client.Script([], [], []);
    ok := c.SyncListeners(lb, lbName, later, nodes);
    if NamedForPort(s, pool, lb, lbName, PortNumbers(later.ports)) {
      var n :| n in PortNumbers(later.ports) && s.pools[pool].name == PoolName(lbName, n);
      NamesRecoverable(lbName, n, lbName, port.port);
      assert false;
    }
  }

  lemma SynchronisedIsNamed(s: CloudState, t: CloudState, b: Id, name: string, service: Service, nodes: seq<Node>)
    requires Synchronised(s, t, b, name, service, nodes)
    ensures LoadBalancersNamed(t, name) != map[]
  {
    assert b in LoadBalancersNamed(t, name);
  }

  lemma SynchronisedSettles(s: CloudState, t: CloudState, name: string, service: Service, nodes: seq<Node>, tidy: bool)
    requires OneNamed(t, name) && (tidy ==> UniqueMembersFor(s, name))
    requires (exists b :: Synchronised(s, t, b, name, service, nodes)) || LoadBalancersNamed(t, name) == map[]
    ensures SettledIn(t, name, service.ports, WantedIPs(nodes), tidy)
  {
    hide Converged, Rebuilt, LeftStranded, OnlyTouches, UniqueMembers, NoStaleTwins, WantedIPs;
    forall b | IsNamed(t, b, name) ensures Converged(t, b, service.ports, WantedIPs(nodes), tidy) {
      assert b in LoadBalancersNamed(t, name);
      var c :| Synchronised(s, t, c, name, service, nodes);
      assert b == c;
      assert IsNamed(s, b, name);
      UniqueHasNoTwins(s, b, WantedIPs(nodes));
      ConvergedLess(t, b, service.ports, WantedIPs(nodes), NoStaleTwins(s, b, WantedIPs(nodes)), tidy);
    }
  }

  lemma ConvergedLess(s: CloudState, lb: Id, ports: seq<ServicePort>, wanted: set<string>, exact: bool, less: bool)
    requires less ==> exact
    ensures Converged(s, lb, ports, wanted, exact) ==> Converged(s, lb, ports, wanted, less)
  {
    hide AllServed, PortNumbers;
    AllServedLess(s, lb, PortNumbers(ports), wanted, exact, less);
  }
}
