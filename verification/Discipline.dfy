// The invariant the controller itself keeps: what names, references and counts its requests
// preserve when each one is sent only under the condition its lookup established.
module Discipline {
  import opened Cloud
  import opened Naming

  ghost predicate IsNamed(s: CloudState, lb: Id, name: string)
  {
    lb in s.lbs && s.lbs[lb].name == name
  }

  /*** One load balancer ***/

  /** Every listener of the load balancer is named for its port and bound to the pool named for it. */
  ghost predicate NamesFollowPorts(s: CloudState, lb: Id)
  {
    forall l :: l in s.listeners && s.listeners[l].lb == lb ==>
      var r := s.listeners[l];
      lb in s.lbs && PoolIn(s, r.pool, lb) &&
      r.name == ListenerName(s.lbs[lb].name, r.port) && s.pools[r.pool].name == PoolName(s.lbs[lb].name, r.port)
  }

  ghost predicate UniqueListeners(s: CloudState, lb: Id)
  {
    forall k, l | k in s.listeners && l in s.listeners && s.listeners[k].lb == lb && s.listeners[l].lb == lb ::
      s.listeners[k].name == s.listeners[l].name ==> k == l
  }

  ghost predicate UniquePools(s: CloudState, lb: Id)
  {
    forall p, q | PoolIn(s, p, lb) && PoolIn(s, q, lb) :: s.pools[p].name == s.pools[q].name ==> p == q
  }

  ghost predicate OneMonitorOf(s: CloudState, pool: Id)
  {
    forall h, i | h in s.monitors && i in s.monitors :: s.monitors[h].pool == s.monitors[i].pool == pool ==> h == i
  }

  ghost predicate OneMonitor(s: CloudState, lb: Id)
  {
    forall p | PoolIn(s, p, lb) :: OneMonitorOf(s, p)
  }

  /** The step invariant of a load balancer; it says nothing about any other. */
  ghost predicate Inv(s: CloudState, lb: Id)
  {
    Integrity(s) && NamesFollowPorts(s, lb) && UniqueListeners(s, lb) && UniquePools(s, lb) && OneMonitor(s, lb)
  }

  ghost predicate OnePerAddress(found: map<Id, Member>)
  {
    forall m, n | m in found && n in found :: found[m].address == found[n].address ==> m == n
  }

  /** One member per address in every pool; this one depends on the node IPs as well. */
  ghost predicate UniqueMembers(s: CloudState, lb: Id)
  {
    forall p | PoolIn(s, p, lb) :: OnePerAddress(MembersOf(s, p))
  }

  /*** The load balancers of one name ***/

  ghost predicate InvFor(s: CloudState, name: string)
  {
    forall b | IsNamed(s, b, name) :: Inv(s, b)
  }

  ghost predicate UniqueMembersFor(s: CloudState, name: string)
  {
    forall b | IsNamed(s, b, name) :: UniqueMembers(s, b)
  }

  ghost predicate OneNamed(s: CloudState, name: string)
  {
    forall b, c | IsNamed(s, b, name) && IsNamed(s, c, name) :: b == c
  }

  lemma ForOne(s: CloudState, name: string, lb: Id)
    requires IsNamed(s, lb, name)
    ensures InvFor(s, name) ==> Inv(s, lb)
    ensures UniqueMembersFor(s, name) ==> UniqueMembers(s, lb)
  {
  }

  /*** Requests ***/

  /** The names a new listener needs to keep the invariant. */
  ghost predicate RightlyNamed(s: CloudState, lb: Id, name: string, port: int, pool: Id)
  {
    lb in s.lbs && pool in s.pools ==>
      name == ListenerName(s.lbs[lb].name, port) && s.pools[pool].name == PoolName(s.lbs[lb].name, port)
  }

  /** The condition under which the controller may send a request. */
  ghost predicate Guard(s: CloudState, w: Write)
  {
    match w
    case PostListener(lb, name, _, port, pool) =>
      ListenersNamed(s, lb, name) == map[] && RightlyNamed(s, lb, name, port, pool)
    case PostPool(lb, name, _) => PoolsNamed(s, lb, name) == map[]
    case PostMonitor(pool, _) => MonitorsOf(s, pool) == map[]
    case _ => true
  }

  /** The condition under which a request keeps one member per address. */
  ghost predicate MemberGuard(s: CloudState, w: Write)
  {
    w.PostMember? ==> w.address !in Addresses(s, w.pool)
  }

  ghost function Addresses(s: CloudState, pool: Id): set<string>
  {
    var found := MembersOf(s, pool);
    set m | m in found :: found[m].address
  }

  lemma KeepsNames(s: CloudState, w: Write, lb: Id)
    requires Inv(s, lb) && (Owner(s, w) == lb ==> Guard(s, w))
    requires Integrity(Apply(s, w))
    ensures NamesFollowPorts(Apply(s, w), lb)
  {
    hide UniqueListeners, UniquePools, OneMonitor, ListenersNamed, PoolsNamed, IdentifiersUsed;
    assert s.next !in s.pools && s.next !in s.lbs by { Unused(s); }
  }

  lemma Unused(s: CloudState)
    requires Integrity(s)
    ensures s.next !in s.lbs && s.next !in s.listeners && s.next !in s.pools
    ensures s.next !in s.members && s.next !in s.monitors
  {
  }

  lemma KeepsUniqueListeners(s: CloudState, w: Write, lb: Id)
    requires Inv(s, lb) && (Owner(s, w) == lb ==> Guard(s, w))
    ensures UniqueListeners(Apply(s, w), lb)
  {
    hide Integrity, UniquePools, OneMonitor, PoolsNamed;
    if w.PostListener? {
      assert forall l :: l in s.listeners && s.listeners[l].lb == w.lb && s.listeners[l].name == w.name ==>
        l in ListenersNamed(s, w.lb, w.name);
    }
  }

  lemma KeepsUniquePools(s: CloudState, w: Write, lb: Id)
    requires Inv(s, lb) && (Owner(s, w) == lb ==> Guard(s, w))
    ensures UniquePools(Apply(s, w), lb)
  {
    hide Integrity, UniqueListeners, OneMonitor, ListenersNamed;
    if w.PostPool? {
      assert forall p :: p in s.pools && s.pools[p].lb == w.lb && s.pools[p].name == w.name ==>
        p in PoolsNamed(s, w.lb, w.name);
    }
  }

  /** A request that adds no second monitor keeps a pool at one. */
  lemma KeepsOneMonitorOf(s: CloudState, w: Write, pool: Id)
    requires OneMonitorOf(s, pool)
    requires w.PostMonitor? && w.pool == pool ==> MonitorsOf(s, pool) == map[]
    ensures OneMonitorOf(Apply(s, w), pool)
  {
    if w.PostMonitor? && w.pool == pool {
      assert forall h :: h in s.monitors && s.monitors[h].pool == pool ==> h in MonitorsOf(s, pool);
    }
  }

  lemma KeepsOneMonitor(s: CloudState, w: Write, lb: Id)
    requires Inv(s, lb) && (Owner(s, w) == lb ==> Guard(s, w))
    ensures OneMonitor(Apply(s, w), lb)
  {
    hide UniqueListeners, UniquePools, NamesFollowPorts, MonitorsOf, ListenersNamed, PoolsNamed, Apply, Status;
    var t := Apply(s, w);
    forall p | PoolIn(t, p, lb) ensures OneMonitorOf(t, p) {
      PoolBefore(s, w, p, lb);
      if !PoolIn(s, p, lb) {
        NewPoolIsEmpty(s, p);
      }
      KeepsOneMonitorOf(s, w, p);
    }
  }

  lemma PoolBefore(s: CloudState, w: Write, pool: Id, lb: Id)
    requires PoolIn(Apply(s, w), pool, lb)
    ensures PoolIn(s, pool, lb) || pool == s.next
  {
  }

  /** A request keeps the invariant of a load balancer when it is about another one, whatever its
      arguments, or is guarded. */
  lemma GuardedRequestKeepsInv(s: CloudState, w: Write, lb: Id)
    requires Inv(s, lb) && (Owner(s, w) == lb ==> Guard(s, w))
    ensures Inv(Apply(s, w), lb)
  {
    hide Guard;
    ServerKeepsIntegrity(s, w);
    KeepsNames(s, w, lb);
    KeepsUniqueListeners(s, w, lb);
    KeepsUniquePools(s, w, lb);
    KeepsOneMonitor(s, w, lb);
  }

  /** A request that adds no second member for an address keeps one member per address in a pool. */
  lemma KeepsUniqueMembers(s: CloudState, w: Write, pool: Id)
    requires Integrity(s) && OnePerAddress(MembersOf(s, pool))
    requires w.PostMember? && w.pool == pool ==> MemberGuard(s, w)
    ensures OnePerAddress(MembersOf(Apply(s, w), pool))
  {
    var before, after := MembersOf(s, pool), MembersOf(Apply(s, w), pool);
    MembersBefore(s, w, pool);
    forall m, n | m in after && n in after && after[m].address == after[n].address ensures m == n {
      assert m in before ==> before[m].address in Addresses(s, pool);
      assert n in before ==> before[n].address in Addresses(s, pool);
    }
  }

  lemma MembersBefore(s: CloudState, w: Write, pool: Id)
    requires Integrity(s)
    ensures var before, after := MembersOf(s, pool), MembersOf(Apply(s, w), pool);
      forall m :: m in after ==>
        (m in before && after[m] == before[m]) ||
        (m == s.next && w.PostMember? && w.pool == pool && after[m].address == w.address)
  {
    hide ReferencesResolve;
  }

  lemma NothingUnused(s: CloudState, lb: Id)
    requires Integrity(s) && lb !in s.lbs
    ensures Inv(s, lb) && UniqueMembers(s, lb)
  {
  }

  /** What becomes of the load balancers of a name: a new one has nothing yet. */
  lemma NamedBefore(s: CloudState, w: Write, b: Id, name: string)
    requires Integrity(s) && IsNamed(Apply(s, w), b, name)
    ensures b in s.lbs ==> IsNamed(s, b, name)
    ensures b !in s.lbs ==> b == s.next && w.PostLoadBalancer? && w.name == name
  {
  }

  lemma RequestKeepsInvFor(s: CloudState, w: Write, name: string)
    requires Integrity(s) && InvFor(s, name)
    requires IsNamed(s, Owner(s, w), name) ==> Guard(s, w)
    ensures InvFor(Apply(s, w), name)
  {
    hide Inv, Integrity, Guard, Owner;
    forall b | IsNamed(Apply(s, w), b, name) ensures Inv(Apply(s, w), b) {
      NamedBefore(s, w, b, name);
      if b !in s.lbs {
        NothingUnused(s, b);
        NewcomerIsAlone(s, w, b, name);
      }
      GuardedRequestKeepsInv(s, w, b);
    }
  }

  lemma NewcomerIsAlone(s: CloudState, w: Write, b: Id, name: string)
    requires Integrity(s) && b !in s.lbs && IsNamed(Apply(s, w), b, name)
    ensures Guard(s, w) && MemberGuard(s, w)
  {
  }

  lemma RequestKeepsUniqueMembers(s: CloudState, w: Write, lb: Id)
    requires Integrity(s) && UniqueMembers(s, lb) && (Owner(s, w) == lb ==> MemberGuard(s, w))
    ensures UniqueMembers(Apply(s, w), lb)
  {
    hide OnePerAddress, MembersOf, MemberGuard, Apply, Status;
    var t := Apply(s, w);
    forall p | PoolIn(t, p, lb) ensures OnePerAddress(MembersOf(t, p)) {
      PoolBefore(s, w, p, lb);
      if !PoolIn(s, p, lb) {
        NewPoolIsEmpty(s, p);
      }
      KeepsUniqueMembers(s, w, p);
    }
  }

  lemma NewPoolIsEmpty(s: CloudState, pool: Id)
    requires Integrity(s) && pool == s.next
    ensures OnePerAddress(MembersOf(s, pool)) && OneMonitorOf(s, pool)
    ensures pool !in s.pools && MonitorsOf(s, pool) == map[] && Addresses(s, pool) == {}
  {
  }

  lemma RequestKeepsUniqueMembersFor(s: CloudState, w: Write, name: string)
    requires Integrity(s) && UniqueMembersFor(s, name)
    requires IsNamed(s, Owner(s, w), name) ==> MemberGuard(s, w)
    ensures UniqueMembersFor(Apply(s, w), name)
  {
    hide Inv, UniqueMembers, Integrity, MemberGuard, Guard, Owner;
    forall b | IsNamed(Apply(s, w), b, name) ensures UniqueMembers(Apply(s, w), b) {
      NamedBefore(s, w, b, name);
      if b !in s.lbs {
        NothingUnused(s, b);
        NewcomerIsAlone(s, w, b, name);
      }
      RequestKeepsUniqueMembers(s, w, b);
    }
  }

  /** Only a second creation makes a name ambiguous. */
  lemma RequestKeepsOneNamed(s: CloudState, w: Write, name: string)
    requires Integrity(s) && OneNamed(s, name)
    requires w.PostLoadBalancer? && w.name == name ==> LoadBalancersNamed(s, name) == map[]
    ensures OneNamed(Apply(s, w), name)
  {
    var t := Apply(s, w);
    forall b, c | IsNamed(t, b, name) && IsNamed(t, c, name) ensures b == c {
      NamedBefore(s, w, b, name);
      NamedBefore(s, w, c, name);
      assert b in s.lbs ==> b in LoadBalancersNamed(s, name);
      assert c in s.lbs ==> c in LoadBalancersNamed(s, name);
    }
  }

  /*** What the invariant means ***/

  /** A listener of the load balancer shares its pool with no other listener in the store. */
  lemma ListenersOwnTheirPools(s: CloudState, lb: Id, k: Id, l: Id)
    requires Inv(s, lb)
    requires k in s.listeners && l in s.listeners && s.listeners[k].lb == lb
    requires s.listeners[k].pool == s.listeners[l].pool
    ensures k == l
  {
    hide UniquePools, OneMonitor, PoolName, ListenerName, IdentifiersUsed;
    assert s.listeners[k].pool != NO_ID by { PoolIdentified(s, s.listeners[k].pool); }
    assert s.listeners[l].lb == lb;
    var name := s.lbs[lb].name;
    NamesRecoverable(name, s.listeners[k].port, name, s.listeners[l].port);
  }

  lemma PoolIdentified(s: CloudState, pool: Id)
    requires Integrity(s) && pool in s.pools
    ensures pool != NO_ID
  {
  }

  lemma ManagedPool(s: CloudState, lb: Id, l: Id)
    requires Inv(s, lb) && l in s.listeners && s.listeners[l].lb == lb
    ensures s.listeners[l].pool != NO_ID && PoolIn(s, s.listeners[l].pool, lb) && lb in s.lbs
  {
    hide UniqueListeners, UniquePools, OneMonitor;
  }

  /** A load balancer has one listener for a port number, so it serves the number in one protocol. */
  lemma OneListenerPerPortNumber(s: CloudState, k: Id, l: Id)
    requires k in s.listeners && l in s.listeners && s.listeners[k].lb == s.listeners[l].lb
    requires Inv(s, s.listeners[k].lb)
    requires s.listeners[k].port == s.listeners[l].port
    ensures k == l
  {
  }
}
