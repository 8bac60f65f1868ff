// Single requests: what the replies to lookups say and what one write request keeps, whatever
// it meets on the way.
module Requests {
  import opened Cloud
  import opened Naming
  import opened Discipline
  import opened Deletion

  /** The reply to a list request. */
  datatype Listing<V> = NoPage | BadStatus(code: nat) | Undecodable | Page(items: seq<(Id, V)>)
  {
    /** What decoding the body yields; an error body decodes to no items. */
    function Items(): seq<(Id, V)>
    {
      if Page? then items else []
    }
  }

  /** The items list the found entries, each once, in any order. */
  ghost predicate Lists<V>(items: seq<(Id, V)>, found: map<Id, V>)
  {
    && (forall i | 0 <= i < |items| :: items[i].0 in found && found[items[i].0] == items[i].1)
    && (forall i, j | 0 <= i < j < |items| :: items[i].0 != items[j].0)
    && (forall k | k in found :: (k, found[k]) in items)
  }

  /** What a list request that meets the fault reads. */
  ghost predicate Replies<V>(page: Listing<V>, found: map<Id, V>, f: Fault)
  {
    && (page.Page? ==> Lists(page.items, found) && (|page.items| > 0 <==> found != map[]))
    && (f == NoFault <==> page.Page?)
    && (page.NoPage? <==> Lost(f))
    && (page.BadStatus? <==> f.Rejected?)
    && (page.BadStatus? ==> page.code == f.code)
  }

  datatype LookupResult = Found(id: Id, details: LoadBalancer) | NotFound | LookupFailed

  /** A spurious 404 is the one fault that reads as a definite "not found". */
  ghost predicate NoFalse404(script: seq<Fault>)
  {
    forall f :: f in script ==> f != Rejected(404)
  }

  /** No reply is an error body, which a list request reads as an empty list. */
  ghost predicate NoErrorBody(script: seq<Fault>)
  {
    forall f :: f in script ==> f.NoFault? || Lost(f)
  }

  lemma FalseNotFound(script: seq<Fault>)
    ensures NoFalse404(script) ==> Next(script) != Rejected(404)
  {
    assert script != [] ==> script[0] in script;
  }

  lemma BodyRead(script: seq<Fault>)
    ensures NoErrorBody(script) ==> Next(script) == NoFault || Lost(Next(script))
  {
    assert script != [] ==> script[0] in script;
  }

  lemma RestRead(script: seq<Fault>)
    ensures NoErrorBody(script) ==> NoErrorBody(Rest(script))
  {
    assert forall f :: f in Rest(script) ==> f in script;
  }

  lemma NoFaultsNoFalse404()
    ensures NoFalse404([]) && NoErrorBody([])
  {
  }

  /** Requests about listeners, pools, members and monitors. */
  predicate Ordinary(w: Write)
  {
    !w.PostLoadBalancer? && !w.DeleteLoadBalancer? && !w.ReleaseEip?
  }

  /** What a request keeps, whatever it meets. */
  lemma DeliveryKeeps(s: CloudState, w: Write, f: Fault)
    requires Integrity(s)
    ensures var t := Deliver(s, w, f);
      && Integrity(t) && s.next <= t.next
      && (forall n :: InvFor(s, n) && (IsNamed(s, Owner(s, w), n) ==> Guard(s, w)) ==> InvFor(t, n))
      && (forall n :: UniqueMembersFor(s, n) && (IsNamed(s, Owner(s, w), n) ==> MemberGuard(s, w)) ==>
                UniqueMembersFor(t, n))
      && (forall n :: OneNamed(s, n) && (w.PostLoadBalancer? && w.name == n ==> LoadBalancersNamed(s, n) == map[]) ==>
                OneNamed(t, n))
      && (Ordinary(w) ==> t.lbs == s.lbs && t.eips == s.eips)
      && (forall c :: c != Owner(s, w) ==> ViewOf(t, c) == ViewOf(s, c))
  {
    hide InvFor, UniqueMembersFor, OneNamed, Integrity, Guard, MemberGuard, Owner, ViewOf, LoadBalancersNamed,
         Status, IsNamed;
    ServerKeepsIntegrity(s, w);
    forall n | InvFor(s, n) && (IsNamed(s, Owner(s, w), n) ==> Guard(s, w)) ensures InvFor(Apply(s, w), n) {
      RequestKeepsInvFor(s, w, n);
    }
    forall n | UniqueMembersFor(s, n) && (IsNamed(s, Owner(s, w), n) ==> MemberGuard(s, w))
      ensures UniqueMembersFor(Apply(s, w), n)
    {
      RequestKeepsUniqueMembersFor(s, w, n);
    }
    forall n | OneNamed(s, n) && (w.PostLoadBalancer? && w.name == n ==> LoadBalancersNamed(s, n) == map[])
      ensures OneNamed(Apply(s, w), n)
    {
      RequestKeepsOneNamed(s, w, n);
    }
    forall c | c != Owner(s, w) ensures ViewOf(Apply(s, w), c) == ViewOf(s, c) {
      RequestTouchesOneLoadBalancer(s, w, c);
    }
  }

  lemma ListedAt<V>(items: seq<(Id, V)>, found: map<Id, V>, i: nat)
    requires Lists(items, found) && i < |items|
    ensures items[i].0 in found && forall k | 0 <= k < |items| && k != i :: items[k].0 != items[i].0
  {
    assert forall k | 0 <= k < i :: items[k].0 != items[i].0;
  }

  lemma FoundListed<V>(items: seq<(Id, V)>, found: map<Id, V>, k: Id)
    requires Lists(items, found) && k in found
    ensures exists i | 0 <= i < |items| :: items[i].0 == k
  {
    assert (k, found[k]) in items;
  }

  lemma ListenersRequested(log: seq<Entry>, from: nat, sent: seq<Write>, done: seq<(Id, Listener)>,
                           items: seq<(Id, Listener)>, found: map<Id, Listener>)
    requires InTurn(log, from, sent) && done <= items
    requires |sent| == |done| && forall k | 0 <= k < |done| :: sent[k] == Write.DeleteListener(items[k].0)
    ensures forall i | from <= i < |log| :: log[i].request.DeleteListener?
    ensures Emptied(log, from)
    ensures Lists(items, found) && done == items ==> forall l | l in found :: Sent(log, from, Write.DeleteListener(l))
  {
    hide Lists, Sent, InTurn;
    AllInTurn(log, from, sent);
    if Lists(items, found) && done == items {
      forall l | l in found ensures Sent(log, from, Write.DeleteListener(l)) {
        FoundListed(items, found, l);
        var k :| 0 <= k < |items| && items[k].0 == l;
        assert sent[k] in sent;
      }
    }
  }

  lemma AllListed<V>(items: seq<(Id, V)>, found: map<Id, V>, gone: set<Id>)
    requires Lists(items, found)
    requires gone <= found.Keys && forall k | 0 <= k < |items| :: items[k].0 in gone
    ensures gone == found.Keys
  {
    forall k | k in found ensures k in gone {
      assert (k, found[k]) in items;
    }
  }

  lemma NoneListed<V>(items: seq<(Id, V)>, found: map<Id, V>, left: map<Id, V>)
    requires Lists(items, found)
    requires (forall k :: k in left ==> k in found) && forall i | 0 <= i < |items| :: items[i].0 !in left
    ensures left == map[]
  {
    forall k | k in found ensures k !in left {
      assert (k, found[k]) in items;
    }
  }

  lemma PoolCreated(s: CloudState, lb: Id, name: string, protocol: Protocol, f: Fault)
    ensures var w := PostPool(lb, name, protocol);
      var r := Answer(s, w, f);
      && (r.Reply? && r.status == 201 && r.readable ==> r.created in PoolsNamed(Deliver(s, w, f), lb, name))
      && (r.Reply? && r.status == 201 && r.readable <==> f == NoFault && lb in s.lbs)
  {
  }

  /** The store after an EnsurePool whose lookup and creation meet the given faults. */
  function EnsuredPool(s: CloudState, lb: Id, name: string, protocol: Protocol, lookup: Fault,
                       creation: Fault): CloudState
  {
    if lookup == NoFault && PoolsNamed(s, lb, name) != map[] then s
    else Deliver(s, PostPool(lb, name, protocol), creation)
  }

  /** Pool names stay unique exactly when a failed lookup does not meet a successful creation of
      a pool that already exists. */
  lemma PoolNamesStayUnique(s: CloudState, lb: Id, name: string, protocol: Protocol, lookup: Fault, creation: Fault)
    requires Integrity(s) && UniquePools(s, lb)
    ensures UniquePools(EnsuredPool(s, lb, name, protocol, lookup, creation), lb) <==>
            !(PoolsNamed(s, lb, name) != map[] && lookup != NoFault && CarriedOut(creation))
  {
    var t := EnsuredPool(s, lb, name, protocol, lookup, creation);
    if PoolsNamed(s, lb, name) == map[] {
      assert forall p :: p in s.pools && s.pools[p].lb == lb && s.pools[p].name == name ==>
          p in PoolsNamed(s, lb, name);
    } else {
      var p :| p in PoolsNamed(s, lb, name);
      if t != s {
        assert t.pools[p].name == t.pools[s.next].name && p != s.next;
      }
    }
  }

  /** The store after an EnsureListener whose lookup and creation meet the given faults. */
  function EnsuredListener(s: CloudState, lb: Id, pool: Id, name: string, protocol: Protocol, port: int,
                           lookup: Fault, creation: Fault): CloudState
  {
    if lookup == NoFault && ListenersNamed(s, lb, name) != map[] then s
    else Deliver(s, PostListener(lb, name, protocol, port, pool), creation)
  }

  /** Listener names stay unique exactly when a failed lookup does not meet a successful creation
      of a listener that already exists. */
  lemma ListenerNamesStayUnique(s: CloudState, lb: Id, pool: Id, name: string, protocol: Protocol, port: int,
                                lookup: Fault, creation: Fault)
    requires Integrity(s) && UniqueListeners(s, lb) && PoolIn(s, pool, lb)
    ensures UniqueListeners(EnsuredListener(s, lb, pool, name, protocol, port, lookup, creation), lb) <==>
            !(ListenersNamed(s, lb, name) != map[] && lookup != NoFault && CarriedOut(creation))
  {
    var t := EnsuredListener(s, lb, pool, name, protocol, port, lookup, creation);
    if ListenersNamed(s, lb, name) == map[] {
      assert forall l :: l in s.listeners && s.listeners[l].lb == lb && s.listeners[l].name == name ==>
        l in ListenersNamed(s, lb, name);
    } else {
      var l :| l in ListenersNamed(s, lb, name);
      if t != s {
        assert t.listeners[l].name == t.listeners[s.next].name && l != s.next;
      }
    }
  }

  /** The store after an EnsureHealthMonitor whose lookup and creation meet the given faults. */
  function EnsuredMonitor(s: CloudState, pool: Id, config: HealthConfig, lookup: Fault, creation: Fault): CloudState
  {
    if lookup == NoFault && MonitorsOf(s, pool) != map[] then s else Deliver(s, PostMonitor(pool, config), creation)
  }

  /** A pool keeps at most one monitor exactly when a failed lookup does not meet a successful
      creation while the pool already has one. */
  lemma MonitorsStaySingle(s: CloudState, pool: Id, config: HealthConfig, lookup: Fault, creation: Fault)
    requires Integrity(s) && OneMonitorOf(s, pool)
    ensures OneMonitorOf(EnsuredMonitor(s, pool, config, lookup, creation), pool) <==>
            !(MonitorsOf(s, pool) != map[] && lookup != NoFault && CarriedOut(creation))
  {
    var t := EnsuredMonitor(s, pool, config, lookup, creation);
    if MonitorsOf(s, pool) == map[] {
      assert forall h :: h in s.monitors && s.monitors[h].pool == pool ==> h in MonitorsOf(s, pool);
    } else {
      var h :| h in MonitorsOf(s, pool);
      if t != s {
        assert t.monitors[h].pool == t.monitors[s.next].pool && h != s.next;
      }
    }
  }

  lemma ListenerPosted(s: CloudState, lb: Id, name: string, protocol: Protocol, port: int, pool: Id, f: Fault)
    requires Integrity(s)
    ensures var w := PostListener(lb, name, protocol, port, pool);
      var r, t := Answer(s, w, f), Deliver(s, w, f);
      && (r.Reply? && r.status == 201 <==> Honest(f) && lb in s.lbs && PoolIn(s, pool, lb))
      && (r.Reply? && r.status == 201 ==> ListenersNamed(t, lb, name) != map[])
      && (PoolIn(s, pool, lb) ==> lb in s.lbs)
      && (PoolIn(t, pool, lb) <==> PoolIn(s, pool, lb))
      && (RightlyNamed(s, lb, name, port, pool) && ListenersNamed(s, lb, name) == map[] ==> Guard(s, w))
  {
    if Honest(f) && Status(s, PostListener(lb, name, protocol, port, pool)) == 201 {
      assert s.next in ListenersNamed(Deliver(s, PostListener(lb, name, protocol, port, pool), f), lb, name);
    }
  }

  lemma MonitorPosted(s: CloudState, pool: Id, config: HealthConfig, f: Fault)
    ensures var w := PostMonitor(pool, config);
      Answer(s, w, f).Reply? && Answer(s, w, f).status == 201 <==> Honest(f) && pool in s.pools
  {
  }

  /** The store after the lookup and creation that start EnsureLoadBalancer. */
  ghost function FoundOrCreated(s: CloudState, name: string, withEip: bool, lookup: Fault, creation: Fault): CloudState
  {
    if lookup == Rejected(404) || (lookup == NoFault && LoadBalancersNamed(s, name) == map[])
    then Deliver(s, PostLoadBalancer(name, withEip), creation) else s
  }

  /** Names stay unique exactly when a false 404 does not meet a successful second creation; any
      other failed lookup, and a creation whose reply is lost, are harmless. */
  lemma LoadBalancerNamesStayUnique(s: CloudState, name: string, withEip: bool, lookup: Fault, creation: Fault)
    requires Integrity(s) && OneNamed(s, name)
    ensures OneNamed(FoundOrCreated(s, name, withEip, lookup, creation), name) <==>
            !(lookup == Rejected(404) && LoadBalancersNamed(s, name) != map[] && CarriedOut(creation))
  {
    var t := FoundOrCreated(s, name, withEip, lookup, creation);
    if LoadBalancersNamed(s, name) == map[] {
      RequestKeepsOneNamed(s, PostLoadBalancer(name, withEip), name);
    } else if t != s {
      var b :| b in LoadBalancersNamed(s, name);
      assert IsNamed(t, b, name) && IsNamed(t, s.next, name) && b != s.next;
    }
  }
}
