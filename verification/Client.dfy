// The ELB v3 client: every operation as a sequence of lookups and write requests against the
// store, any of which can fail.
module Client {
  import opened Wrappers
  import opened Cloud
  import opened Naming
  import opened Discipline
  import opened Requests
  import opened Goal
  import opened Members
  import opened Counting
  import opened Deletion
  import opened Retry

  /** What can hold now and after every logged request. */
  datatype Claim =
    | Recorded           // the log leads from the first store to the present one, request by request
    | Healthy(n: string) // the step invariant of the load balancers of this name
    | Tidy(n: string)    // one member per address in their pools
    | Single(n: string)  // at most one load balancer of this name

  /** Only faithful lookups on load balancer `lb` or distinct node IPs keep these up. */
  ghost predicate Delicate(s: CloudState, claim: Claim, lb: Id)
  {
    (claim.Healthy? || claim.Tidy?) && IsNamed(s, lb, claim.n)
  }

  /** The request does no harm to the claim. */
  ghost predicate Permits(s: CloudState, w: Write, claim: Claim)
  {
    match claim
    case Recorded => true
    case Healthy(n) => IsNamed(s, Owner(s, w), n) ==> Guard(s, w)
    case Tidy(n) => IsNamed(s, Owner(s, w), n) ==> MemberGuard(s, w)
    case Single(n) => w.PostLoadBalancer? && w.name == n ==> LoadBalancersNamed(s, n) == map[]
  }

  class ELBv3Client {
    var cloud: CloudState
    var lookupFaults: seq<Fault>     // what the next lists and lookups of load balancers meet
    var findFaults: seq<Fault>       // what the next lookups of a pool, listener or monitor meet
    var faults: seq<Fault>           // what the next write requests meet
    ghost var log: seq<Entry>        // every write request sent so far
    ghost const first: CloudState    // the store the log starts from

    constructor (initial: CloudState)
      requires Integrity(initial)
      ensures cloud == first == initial && lookupFaults == findFaults == faults == [] && log == []
      ensures Holds(Recorded)
    {
      cloud, lookupFaults, findFaults, faults, log, first := initial, [], [], [], [], initial;
    }

    ghost predicate Holds(claim: Claim)
      reads this
    {
      match claim
      case Recorded => Linked(log, 0, first, cloud)
      case Healthy(n) => InvFor(cloud, n) && forall e :: e in log ==> InvFor(e.after, n)
      case Tidy(n) => UniqueMembersFor(cloud, n) && forall e :: e in log ==> UniqueMembersFor(e.after, n)
      case Single(n) => OneNamed(cloud, n) && forall e :: e in log ==> OneNamed(e.after, n)
    }

    /** Nothing that has held is lost. */
    twostate predicate Steady()
      reads this
    {
      forall c :: old(Holds(c)) ==> Holds(c)
    }

    twostate predicate StaysHealthy()
      reads this
    {
      forall n :: old(Holds(Healthy(n))) ==> Holds(Healthy(n))
    }

    twostate predicate StaysTidy()
      reads this
    {
      forall n :: old(Holds(Tidy(n))) ==> Holds(Tidy(n))
    }

    twostate predicate StaysSingle()
      reads this
    {
      forall n :: old(Holds(Single(n))) ==> Holds(Single(n))
    }

    lemma HealthyHere(n: string, lb: Id)
      requires IsNamed(cloud, lb, n)
      ensures Holds(Healthy(n)) ==> Inv(cloud, lb)
    {
      ForOne(cloud, n, lb);
    }

    lemma TidyHere(n: string)
      ensures Holds(Tidy(n)) ==> UniqueMembersFor(cloud, n)
    {
    }

    lemma Meaning(n: string)
      ensures Holds(Single(n)) ==> OneNamed(cloud, n)
      ensures Holds(Recorded) ==> Linked(log, 0, first, cloud)
    {
    }

    /** How far the effects of every operation on load balancer `lb` reach, whatever fails. */
    twostate predicate Bounded(lb: Id)
      reads this
    {
      && Integrity(cloud)
      && old(log) <= log
      && (old(faults) == [] ==> faults == [])
      && (old(lookupFaults) == [] ==> lookupFaults == [])
      && (NoFalse404(old(lookupFaults)) ==> NoFalse404(lookupFaults))
      && (NoFalse404(old(faults)) ==> NoFalse404(faults))
      && cloud.lbs == old(cloud.lbs) && cloud.eips == old(cloud.eips) && old(cloud.next) <= cloud.next
      && forall c :: c != lb ==> ViewOf(cloud, c) == ViewOf(old(cloud), c)
    }

    /** What every operation on load balancer `lb` keeps besides, whatever fails. */
    twostate predicate Kept(lb: Id)
      reads this
    {
      && Bounded(lb) && (forall c :: !Delicate(old(cloud), c, lb) && old(Holds(c)) ==> Holds(c))
      && (old(findFaults) == [] ==> findFaults == [])
      && (NoErrorBody(old(lookupFaults)) ==> NoErrorBody(lookupFaults))
    }

    twostate predicate OnlyMembersOf(pool: Id)
      reads this
    {
      && cloud.listeners == old(cloud.listeners) && cloud.pools == old(cloud.pools)
      && cloud.monitors == old(cloud.monitors)
      && (forall q :: q != pool ==> MembersOf(cloud, q) == MembersOf(old(cloud), q))
    }

    twostate predicate NothingSent()
      reads this
    {
      cloud == old(cloud) && log == old(log) && faults == old(faults)
    }

    /** The one write request w was sent. */
    twostate predicate SentOnce(w: Write)
      reads this
    {
      && cloud == Deliver(old(cloud), w, Next(old(faults)))
      && log == old(log) + [EntryFor(old(cloud), w, Next(old(faults)))]
      && faults == Rest(old(faults))
    }

    /** What the next lookups and write requests will meet. */
    method Script(lookupFaults: seq<Fault>, findFaults: seq<Fault>, faults: seq<Fault>)
      modifies this`lookupFaults, this`findFaults, this`faults
      ensures this.lookupFaults == lookupFaults && this.findFaults == findFaults && this.faults == faults
      ensures Steady()
    {
      this.lookupFaults, this.findFaults, this.faults := lookupFaults, findFaults, faults;
    }

    /*** Requests ***/

    method Lookup<V>(found: map<Id, V>) returns (page: Listing<V>)
      modifies this`lookupFaults
      ensures lookupFaults == Rest(old(lookupFaults))
      ensures NoFalse404(old(lookupFaults)) ==> NoFalse404(lookupFaults)
      ensures NoErrorBody(old(lookupFaults)) ==> NoErrorBody(lookupFaults)
      ensures Steady()
      ensures Replies(page, found, Next(old(lookupFaults)))
    {
      assert forall f :: f in Rest(lookupFaults) ==> f in lookupFaults;
      page := ListReply(found, Next(lookupFaults));
      lookupFaults := Rest(lookupFaults);
    }

    /** A lookup of a pool, listener or monitor: a failure falls through to its creation. */
    method Find<V>(found: map<Id, V>) returns (page: Listing<V>)
      modifies this`findFaults
      ensures findFaults == Rest(old(findFaults))
      ensures Steady()
      ensures Replies(page, found, Next(old(findFaults)))
    {
      page := ListReply(found, Next(findFaults));
      findFaults := Rest(findFaults);
    }

    method ListReply<V>(found: map<Id, V>, f: Fault) returns (page: Listing<V>)
      ensures Replies(page, found, f)
    {
      match f
      case Unsent => page := NoPage;
      case ReplyLost => page := NoPage;
      case Rejected(code) => page := BadStatus(code);
      case Garbled => page := Undecodable;
      case NoFault =>
        var items := Enumerate(found);
        assert |items| > 0 ==> items[0].0 in found;
        page := Page(items);
    }

    method Enumerate<V>(found: map<Id, V>) returns (items: seq<(Id, V)>)
      ensures Lists(items, found)
    {
      items := [];
      var rest := found;
      while rest != map[]
        invariant rest.Keys <= found.Keys
        invariant forall k :: k in rest ==> rest[k] == found[k]
        invariant forall i | 0 <= i < |items| ::
                    items[i].0 in found && items[i].0 !in rest && found[items[i].0] == items[i].1
        invariant forall i, j | 0 <= i < j < |items| :: items[i].0 != items[j].0
        invariant forall k | k in found :: k in rest || (k, found[k]) in items
        decreases |rest|
      {
        var k :| k in rest;
        items := items + [(k, rest[k])];
        rest := rest - {k};
      }
    }

    method Send(w: Write) returns (r: Response)
      requires Integrity(cloud)
      modifies this
      ensures SentOnce(w)
      ensures lookupFaults == old(lookupFaults) && findFaults == old(findFaults)
      ensures r == Answer(old(cloud), w, Next(old(faults)))
      ensures Integrity(cloud)
      ensures old(log) <= log && old(cloud.next) <= cloud.next
      ensures NoFalse404(old(faults)) ==> NoFalse404(faults)
      ensures forall c :: old(Holds(c)) && Permits(old(cloud), w, c) ==> Holds(c)
      ensures Changes(log) == Changes(old(log)) + if cloud == old(cloud) then 0 else 1
      ensures Ordinary(w) ==> cloud.lbs == old(cloud.lbs) && cloud.eips == old(cloud.eips)
      ensures forall c :: c != Owner(old(cloud), w) ==> ViewOf(cloud, c) == ViewOf(old(cloud), c)
    {
      hide Deliver, Owner, Guard, MemberGuard, InvFor, UniqueMembersFor, OneNamed, IsNamed, Integrity, ViewOf,
           LoadBalancersNamed, Answer, Changes, Linked;
      var f := Next(faults);
      assert forall g :: g in Rest(faults) ==> g in faults;
      r := Answer(cloud, w, f);
      DeliveryKeeps(cloud, w, f);
      ChangesAppend(log, EntryFor(cloud, w, f));
      LinkedMore(log, 0, first, cloud, w, f);
      log := log + [EntryFor(cloud, w, f)];
      cloud := Deliver(cloud, w, f);
      faults := Rest(faults);
    }

    /*** Load balancers ***/

    method GetLoadBalancer(name: string) returns (r: LookupResult)
      modifies this`lookupFaults
      ensures lookupFaults == Rest(old(lookupFaults))
      ensures NoFalse404(old(lookupFaults)) ==> NoFalse404(lookupFaults)
      ensures Steady()
      ensures r.Found? ==> r.id in cloud.lbs && cloud.lbs[r.id] == r.details && r.details.name == name
      ensures r.NotFound? ==> Next(old(lookupFaults)) == Rejected(404) || LoadBalancersNamed(cloud, name) == map[]
      ensures if Next(old(lookupFaults)) == NoFault
              then (r.NotFound? <==> LoadBalancersNamed(cloud, name) == map[]) && !r.LookupFailed?
              else (r.NotFound? <==> Next(old(lookupFaults)) == Rejected(404)) && !r.Found?
    {
      var page := Lookup(LoadBalancersNamed(cloud, name));
      match page
      case NoPage => return LookupFailed;
      case BadStatus(code) => return if code == 404 then NotFound else LookupFailed;
      case Undecodable => return LookupFailed;
      case Page(items) =>
        if |items| == 0 {
          return NotFound;
        }
        return Found(items[0].0, items[0].1);
    }

    method CreateLoadBalancer(name: string, withEip: bool) returns (r: Option<Id>)
      requires Integrity(cloud)
      modifies this
      ensures SentOnce(PostLoadBalancer(name, withEip))
      ensures lookupFaults == old(lookupFaults) && findFaults == old(findFaults)
      ensures Integrity(cloud)
      ensures forall c :: old(Holds(c)) && (c == Single(name) ==> LoadBalancersNamed(old(cloud), name) == map[])
                ==> Holds(c)
      ensures r.Some? <==> Next(old(faults)) == NoFault
      ensures r.Some? ==> r.value == old(cloud.next)
    {
      var resp := Send(PostLoadBalancer(name, withEip));
      if resp.Reply? && resp.status == 201 && resp.readable {
        return Some(resp.created);
      }
      return None;
    }

    /*** Pools ***/

    method EnsurePool(lb: Id, name: string, protocol: Protocol) returns (r: Option<Id>)
      requires Integrity(cloud)
      modifies this
      ensures Kept(lb)
      ensures findFaults == Rest(old(findFaults)) && lookupFaults == old(lookupFaults)
      ensures r.Some? ==> r.value in PoolsNamed(cloud, lb, name)
      ensures cloud == EnsuredPool(old(cloud), lb, name, protocol, Next(old(findFaults)), Next(old(faults)))
      ensures if Next(old(findFaults)) == NoFault && PoolsNamed(old(cloud), lb, name) != map[]
              then r.Some? && NothingSent() else SentOnce(PostPool(lb, name, protocol))
      ensures StaysTidy()
      ensures Next(old(findFaults)) == NoFault ==> StaysHealthy()
      ensures r.Some? <==> (Next(old(findFaults)) == NoFault && PoolsNamed(old(cloud), lb, name) != map[]) ||
                           (Next(old(faults)) == NoFault && lb in cloud.lbs)
    {
      hide Holds, Integrity, ViewOf, NoFalse404, NoErrorBody, ListenerCreated, PoolsNamed, Deliver, Answer, Changes;
      var page := Find(PoolsNamed(cloud, lb, name));
      if page.Page? && |page.items| > 0 {
        return Some(page.items[0].0);
      }
      PoolCreated(cloud, lb, name, protocol, Next(faults));
      var resp := Send(PostPool(lb, name, protocol));
      if resp.Reply? && resp.status == 201 && resp.readable {
        return Some(resp.created);
      }
      return None;
    }

    /*** Members ***/

    /** POST one member; `wanted` are the addresses the pool is meant to have. */
    method AddMember(pool: Id, address: string, port: int, ghost wanted: set<string>)
      requires Integrity(cloud)
      modifies this
      ensures Kept(OwnerOfPool(old(cloud), pool)) && OnlyMembersOf(pool)
      ensures lookupFaults == old(lookupFaults) && findFaults == old(findFaults)
      ensures SentOnce(PostMember(pool, address, port))
      ensures cloud == old(cloud) || MemberAdded(old(cloud), cloud, pool, address, port)
      ensures old(faults) == [] && pool in cloud.pools ==> MemberAdded(old(cloud), cloud, pool, address, port)
      ensures StaysHealthy()
      ensures address in wanted ==> Gap(cloud, pool, wanted) <= Gap(old(cloud), pool, wanted)
      ensures address !in Addresses(old(cloud), pool) ==>
                StaysTidy() &&
                (address in wanted ==>
                   Gap(cloud, pool, wanted) + Changes(log) == Gap(old(cloud), pool, wanted) + Changes(old(log)))
    {
      hide Holds, Integrity, ViewOf, NoFalse404, NoErrorBody, ListenerCreated, Addresses, MembersOf, Gap, Deliver,
           Answer, Changes, MemberAdded;
      MemberPosted(cloud, pool, address, port, Next(faults), wanted);
      var _ := Send(PostMember(pool, address, port));
    }

    method DeleteMember(pool: Id, id: Id, ghost wanted: set<string>)
      requires Integrity(cloud)
      modifies this
      ensures Bounded(OwnerOfPool(old(cloud), pool)) && OnlyMembersOf(pool)
      ensures lookupFaults == old(lookupFaults) && findFaults == old(findFaults)
      ensures Steady()
      ensures SentOnce(Write.DeleteMember(pool, id))
      ensures cloud == old(cloud) || MembersOf(cloud, pool) == MembersOf(old(cloud), pool) - {id}
      ensures old(faults) == [] ==> MembersOf(cloud, pool) == MembersOf(old(cloud), pool) - {id}
      ensures id in StaleMembers(old(cloud), pool, wanted) ==>
                Gap(cloud, pool, wanted) <= Gap(old(cloud), pool, wanted) &&
                Gap(cloud, pool, wanted) + Changes(log) == Gap(old(cloud), pool, wanted) + Changes(old(log))
    {
      hide Holds, Integrity, ViewOf, NoFalse404, NoErrorBody, ListenerCreated, Addresses, MembersOf, Gap, Deliver,
           Answer, Changes, StaleMembers;
      MemberDeleted(cloud, pool, id, Next(faults), wanted);
      var _ := Send(Write.DeleteMember(pool, id));
    }

    /** The first internal IP of a node, or "". */
    method InternalAddress(node: Node) returns (ip: string)
      ensures ip == NodeIP(node)
      ensures (forall i | 0 <= i < |node.addresses| :: node.addresses[i].kind != InternalIP) ==> ip == ""
      ensures forall i | 0 <= i < |node.addresses| && node.addresses[i].kind == InternalIP ::
                (forall j | 0 <= j < i :: node.addresses[j].kind != InternalIP) ==> ip == node.addresses[i].address
    {
      ip := "";
      for i := 0 to |node.addresses|
        invariant ip == "" && forall j | 0 <= j < i :: node.addresses[j].kind != InternalIP
        invariant FirstInternal(node.addresses) == FirstInternal(node.addresses[i..])
      {
        if node.addresses[i].kind.InternalIP? {
          ip := node.addresses[i].address;
          break;
        }
      }
    }

    /** Address to member, the last listed member winning. */
    method IndexMembers(items: seq<(Id, Member)>) returns (index: map<string, Id>)
      ensures forall found: map<Id, Member> | Lists(items, found) :: Indexes(index, found)
      ensures items == [] ==> index == map[]
      ensures forall k | 0 <= k < |items| && (forall j | k < j < |items| :: items[j].1.address != items[k].1.address) ::
                items[k].1.address in index && index[items[k].1.address] == items[k].0
    {
      index := map[];
      for i := 0 to |items|
        invariant forall k | 0 <= k < i :: items[k].1.address in index
        invariant forall a | a in index :: exists k | 0 <= k < i :: items[k].0 == index[a] && items[k].1.address == a
        invariant forall k | 0 <= k < i && (forall j | k < j < i :: items[j].1.address != items[k].1.address) ::
                    items[k].1.address in index && index[items[k].1.address] == items[k].0
      {
        index := index[items[i].1.address := items[i].0];
      }
      forall found: map<Id, Member> | Lists(items, found) ensures Indexes(index, found) {
        forall m | m in found ensures found[m].address in index {
          assert (m, found[m]) in items;
        }
      }
    }

    /** Add a member for every node that has none; what is left of the index is stale. */
    method AddMissing(pool: Id, nodes: seq<Node>, port: int, existing: map<string, Id>) returns (stale: map<string, Id>)
      requires Integrity(cloud)
      modifies this
      ensures Kept(OwnerOfPool(old(cloud), pool)) && OnlyMembersOf(pool)
      ensures lookupFaults == old(lookupFaults) && findFaults == old(findFaults)
      ensures StaysHealthy()
      ensures stale == existing - WantedIPs(nodes)
      ensures InTurn(log, |old(log)|, Additions(existing.Keys, nodes, pool, port))
      ensures Gap(cloud, pool, WantedIPs(nodes)) <= Gap(old(cloud), pool, WantedIPs(nodes))
      ensures Filled(MembersOf(old(cloud), pool), MembersOf(cloud, pool), WantedIPs(nodes), port)
      ensures old(faults) == [] && pool in cloud.pools ==>
                AllPosted(MembersOf(old(cloud), pool), MembersOf(cloud, pool), existing.Keys, nodes) &&
                (Indexes(existing, MembersOf(old(cloud), pool)) ==> WantedIPs(nodes) <= Addresses(cloud, pool))
      ensures Indexes(existing, MembersOf(old(cloud), pool)) && DistinctIPs(nodes) ==>
                var wanted := WantedIPs(nodes);
                && StaysTidy()
                && Gap(cloud, pool, wanted) + Changes(log) == Gap(old(cloud), pool, wanted) + Changes(old(log))
                && NoneDoubled(MembersOf(old(cloud), pool), MembersOf(cloud, pool))
                && (wanted <= existing.Keys ==> NothingSent())
    {
      hide Holds, Integrity, ViewOf, NoFalse404, NoErrorBody, ListenerCreated, Addresses, MembersOf, Gap, Changes,
           DistinctIPs, WantedIPs, NodeIP, Indexes, Filled, NoneDoubled, MemberAdded, AllPosted, InTurn, Additions;
      ghost var wanted := WantedIPs(nodes);
      ghost var indexed := Indexes(existing, MembersOf(cloud, pool));
      ghost var regular := indexed && DistinctIPs(nodes);
      IndexedAddresses(existing, cloud, pool);
      FilledBase(MembersOf(cloud, pool), wanted, port);
      NothingPosted(MembersOf(cloud, pool), existing.Keys, nodes);
      WantedIPsEnds(nodes);
      NoneInTurn(log);
      NoAdditions(existing.Keys, nodes, pool, port);
      stale := existing;
      for i := 0 to |nodes|
        invariant Kept(OwnerOfPool(old(cloud), pool)) && OnlyMembersOf(pool)
        invariant lookupFaults == old(lookupFaults) && findFaults == old(findFaults)
        invariant StaysHealthy()
        invariant stale == existing - WantedIPs(nodes[..i])
        invariant InTurn(log, |old(log)|, Additions(existing.Keys, nodes[..i], pool, port))
        invariant Gap(cloud, pool, wanted) <= Gap(old(cloud), pool, wanted)
        invariant Filled(MembersOf(old(cloud), pool), MembersOf(cloud, pool), wanted, port)
        invariant old(faults) == [] && pool in cloud.pools ==>
                    AllPosted(MembersOf(old(cloud), pool), MembersOf(cloud, pool), existing.Keys, nodes[..i])
        invariant indexed ==> existing.Keys <= Addresses(cloud, pool) <= existing.Keys + WantedIPs(nodes[..i])
        invariant indexed && old(faults) == [] && pool in cloud.pools ==>
                  WantedIPs(nodes[..i]) <= Addresses(cloud, pool)
        invariant regular ==> StaysTidy()
        invariant regular ==>
                    Gap(cloud, pool, wanted) + Changes(log) == Gap(old(cloud), pool, wanted) + Changes(old(log))
        invariant regular ==> NoneDoubled(MembersOf(old(cloud), pool), MembersOf(cloud, pool))
        invariant regular && wanted <= existing.Keys ==> NothingSent()
      {
        WantedIPsAppend(nodes, i);
        OneAdditionMore(existing.Keys, nodes, pool, port, i);
        ghost var before := cloud;
        var ip := InternalAddress(nodes[i]);
        if ip == "" {
          PostedMore(old(cloud), before, cloud, pool, port, existing.Keys, nodes, i);
          continue;
        }
        if ip in stale {
          stale := stale - {ip};
          PostedMore(old(cloud), before, cloud, pool, port, existing.Keys, nodes, i);
          continue;
        }
        NextInTurn(log, |old(log)|, Additions(existing.Keys, nodes[..i], pool, port),
            EntryFor(cloud, PostMember(pool, ip, port), Next(faults)));
        AddMember(pool, ip, port, wanted);
        FilledMore(old(cloud), before, cloud, pool, ip, wanted, port);
        PostedMore(old(cloud), before, cloud, pool, port, existing.Keys, nodes, i);
      }
    }

    /** Delete the members the index still holds, in any order; no failure stops the loop. */
    method RemoveStale(pool: Id, stale: map<string, Id>, ghost wanted: set<string>)
      requires Integrity(cloud)
      modifies this
      ensures Bounded(OwnerOfPool(old(cloud), pool)) && OnlyMembersOf(pool)
      ensures lookupFaults == old(lookupFaults) && findFaults == old(findFaults)
      ensures Steady()
      ensures |log| == |old(log)| + |stale|
      ensures forall a | a in stale :: Sent(log, |old(log)|, Write.DeleteMember(pool, stale[a]))
      ensures forall i | |old(log)| <= i < |log| :: log[i].request.DeleteMember?
      ensures Thinned(MembersOf(old(cloud), pool), MembersOf(cloud, pool), stale.Values)
      ensures old(faults) == [] ==> MembersOf(cloud, pool) == MembersOf(old(cloud), pool) - stale.Values
      ensures IndexesStale(stale, old(cloud), pool, wanted) ==>
                Gap(cloud, pool, wanted) <= Gap(old(cloud), pool, wanted) &&
                Gap(cloud, pool, wanted) + Changes(log) == Gap(old(cloud), pool, wanted) + Changes(old(log))
      ensures stale == map[] ==> NothingSent()
    {
      hide Holds, Integrity, ViewOf, NoFalse404, NoErrorBody, ListenerCreated, Addresses, MembersOf, StaleMembers,
           Gap, Changes, Thinned, IndexesStale, Passed, Removing;
      ThinnedBase(MembersOf(cloud, pool));
      PassedEnds(stale);
      ghost var regular := IndexesStale(stale, cloud, pool, wanted);
      ghost var gone: set<Id> := {};
      var rest := stale;
      NoneRemoved(log, pool, stale);
      while rest != map[]
        invariant Bounded(OwnerOfPool(old(cloud), pool)) && OnlyMembersOf(pool)
        invariant lookupFaults == old(lookupFaults) && findFaults == old(findFaults)
        invariant Steady()
        invariant Passed(stale, gone, rest)
        invariant Removing(log, |old(log)|, pool, stale, rest)
        invariant Thinned(MembersOf(old(cloud), pool), MembersOf(cloud, pool), gone)
        invariant old(faults) == [] ==> MembersOf(cloud, pool) == MembersOf(old(cloud), pool) - gone
        invariant regular ==> IndexesStale(rest, cloud, pool, wanted)
        invariant regular ==> Gap(cloud, pool, wanted) <= Gap(old(cloud), pool, wanted)
        invariant regular ==>
                    Gap(cloud, pool, wanted) + Changes(log) == Gap(old(cloud), pool, wanted) + Changes(old(log))
        invariant stale == map[] ==> NothingSent() && rest == map[]
        decreases |rest|
      {
        var ip :| ip in rest;
        var id := rest[ip];
        PassedOne(stale, gone, rest, ip);
        IndexedIsStale(rest, cloud, pool, wanted, ip);
        ghost var before := cloud;
        OneRemoved(log, |old(log)|, pool, stale, rest, ip, EntryFor(cloud, Write.DeleteMember(pool, id), Next(faults)));
        DeleteMember(pool, id, wanted);
        DropIndexed(rest, before, cloud, pool, wanted, ip);
        ThinnedMore(MembersOf(old(cloud), pool), MembersOf(before, pool), MembersOf(cloud, pool), gone, id);
        rest := rest - {ip};
        gone := gone + {id};
      }
      AllRemoved(log, |old(log)|, pool, stale, rest);
    }

    /** Make the pool's members the nodes' internal IPs.  Only a list request without a reply is an
        error; an error body reads as an empty list. */
    method EnsureMembers(pool: Id, nodes: seq<Node>, port: int) returns (ok: bool)
      requires Integrity(cloud)
      modifies this
      ensures Kept(OwnerOfPool(old(cloud), pool)) && OnlyMembersOf(pool)
      ensures ok <==> !Lost(Next(old(lookupFaults)))
      ensures !ok ==> NothingSent()
      ensures MembersOnly(log, |old(log)|)
      ensures ok ==>
                var found := if Next(old(lookupFaults)) == NoFault then MembersOf(old(cloud), pool) else map[];
                Asked(log, |old(log)|, found, pool, nodes, port)
      ensures lookupFaults == Rest(old(lookupFaults)) && findFaults == old(findFaults)
      ensures NoErrorBody(old(lookupFaults)) && DistinctIPs(nodes) ==> StaysTidy()
      ensures StaysHealthy()
      ensures Reconciled(MembersOf(old(cloud), pool), MembersOf(cloud, pool), WantedIPs(nodes), port)
      ensures Gap(cloud, pool, WantedIPs(nodes)) <= Gap(old(cloud), pool, WantedIPs(nodes))
      // a clean run, for any nodes and any pool
      ensures Next(old(lookupFaults)) == NoFault && old(faults) == [] && pool in cloud.pools ==>
                var wanted := WantedIPs(nodes);
                && AllBalanced(MembersOf(old(cloud), pool), MembersOf(cloud, pool), nodes)
                && wanted <= Addresses(cloud, pool)
                && (Addresses(cloud, pool) == wanted <==> TwinFree(MembersOf(old(cloud), pool), wanted))
                && (StaleMembers(old(cloud), pool, wanted) != {} ==>
                      StaleMembers(cloud, pool, wanted) < StaleMembers(old(cloud), pool, wanted))
                && (Addresses(old(cloud), pool) == wanted ==> (NothingSent() <==> DistinctIPs(nodes)))
      // failing writes, nodes with distinct IPs
      ensures Next(old(lookupFaults)) == NoFault && DistinctIPs(nodes) ==>
                var wanted := WantedIPs(nodes);
                && StaysTidy()
                && Gap(cloud, pool, wanted) + Changes(log) == Gap(old(cloud), pool, wanted) + Changes(old(log))
                && NoneDoubled(MembersOf(old(cloud), pool), MembersOf(cloud, pool))
                && (Addresses(old(cloud), pool) == wanted ==> NothingSent())
      // whatever the list
      ensures ok && old(faults) == [] && pool in cloud.pools ==> WantedIPs(nodes) <= Addresses(cloud, pool)
      // an error body instead of it
      ensures ok && Next(old(lookupFaults)) != NoFault && old(faults) == [] && pool in cloud.pools ==>
                AllAdded(MembersOf(old(cloud), pool), MembersOf(cloud, pool), nodes)
    {
      hide Holds, Integrity, ViewOf, NoFalse404, NoErrorBody, MembersOnly, Addresses, MembersOf, StaleMembers, Gap,
           Changes, Indexes, Sound, Reconciled, NoneDoubled, TwinFree, AllPosted, AllBalanced, AllAdded, WantedIPs,
           DistinctIPs, Lists, Asked;
      ReconciledBase(MembersOf(cloud, pool), WantedIPs(nodes), port);
      NoListenerLogged(log);
      BodyRead(lookupFaults);
      var page := Lookup(MembersOf(cloud, pool));
      if page.NoPage? {
        return false;
      }
      var existing := IndexMembers(page.Items());
      IndexedAddresses(existing, cloud, pool);
      SoundIndex(existing, MembersOf(cloud, pool));
      EmptyIndex();
      ReconcileMembers(pool, nodes, port, existing);
      BlindHasWanted(old(cloud), cloud, pool, nodes);
      return true;
    }

    /** Bring the pool from the members in the index to the nodes' addresses. */
    method ReconcileMembers(pool: Id, nodes: seq<Node>, port: int, existing: map<string, Id>)
      requires Integrity(cloud) && Sound(existing, MembersOf(cloud, pool))
      modifies this
      ensures Kept(OwnerOfPool(old(cloud), pool)) && OnlyMembersOf(pool)
      ensures lookupFaults == old(lookupFaults) && findFaults == old(findFaults)
      ensures StaysHealthy()
      ensures Reconciled(MembersOf(old(cloud), pool), MembersOf(cloud, pool), WantedIPs(nodes), port)
      ensures Gap(cloud, pool, WantedIPs(nodes)) <= Gap(old(cloud), pool, WantedIPs(nodes))
      ensures Indexes(existing, MembersOf(old(cloud), pool)) && old(faults) == [] && pool in cloud.pools ==>
                var wanted := WantedIPs(nodes);
                && AllBalanced(MembersOf(old(cloud), pool), MembersOf(cloud, pool), nodes)
                && wanted <= Addresses(cloud, pool)
                && (Addresses(cloud, pool) == wanted <==> TwinFree(MembersOf(old(cloud), pool), wanted))
                && (StaleMembers(old(cloud), pool, wanted) != {} ==>
                      StaleMembers(cloud, pool, wanted) < StaleMembers(old(cloud), pool, wanted))
                && (cloud == old(cloud) && Addresses(old(cloud), pool) == wanted ==> DistinctIPs(nodes))
      ensures Indexes(existing, MembersOf(old(cloud), pool)) && DistinctIPs(nodes) ==>
                var wanted := WantedIPs(nodes);
                && StaysTidy()
                && Gap(cloud, pool, wanted) + Changes(log) == Gap(old(cloud), pool, wanted) + Changes(old(log))
                && NoneDoubled(MembersOf(old(cloud), pool), MembersOf(cloud, pool))
                && (existing.Keys == wanted ==> NothingSent())
      ensures MembersOnly(log, |old(log)|)
      ensures forall found | Indexes(existing, found) :: Asked(log, |old(log)|, found, pool, nodes, port)
      ensures existing == map[] && old(faults) == [] && pool in cloud.pools ==>
                AllAdded(MembersOf(old(cloud), pool), MembersOf(cloud, pool), nodes)
    {
      hide Holds, Integrity, ViewOf, NoFalse404, NoErrorBody, MembersOnly, Addresses, MembersOf, StaleMembers, Gap,
           Changes, Thinned, Filled, Sound, Indexes, IndexesStale, Reconciled, NoneDoubled, TwinFree, AllPosted,
           AllBalanced, AllAdded, WantedIPs, DistinctIPs, Asked, InTurn, Sent;
      ghost var first := cloud;
      var stale := AddMissing(pool, nodes, port, existing);
      ghost var filled, earlier := cloud, log;
      RemoveStale(pool, stale, WantedIPs(nodes));
      assert MembersOnly(log, |old(log)|) by {
        OnlyMembersAsked(earlier, log, |old(log)|, existing.Keys, nodes, pool, port);
      }
      forall found | Indexes(existing, found) ensures Asked(log, |old(log)|, found, pool, nodes, port) {
        AddedThenRemoved(earlier, log, |old(log)|, existing, found, pool, nodes, port);
      }
      FilledThenThinned(first, filled, cloud, pool, existing, WantedIPs(nodes), port);
      if old(faults) == [] && pool in cloud.pools {
        if Indexes(existing, MembersOf(first, pool)) {
          BalancedWhen(MembersOf(first, pool), MembersOf(filled, pool), MembersOf(cloud, pool), existing, nodes, port);
          UnchangedIfSame(first, cloud, pool, nodes);
        }
        if existing == map[] {
          BlindWhen(MembersOf(first, pool), MembersOf(filled, pool), MembersOf(cloud, pool), existing, nodes);
        }
      }
    }

    /*** Listeners and monitors ***/

    method EnsureListener(lb: Id, pool: Id, name: string, protocol: Protocol, port: int) returns (ok: bool)
      requires Integrity(cloud)
      modifies this
      ensures Kept(lb)
      ensures findFaults == Rest(old(findFaults)) && lookupFaults == old(lookupFaults)
      ensures if Next(old(findFaults)) == NoFault && ListenersNamed(old(cloud), lb, name) != map[]
              then ok && NothingSent() else SentOnce(PostListener(lb, name, protocol, port, pool))
      ensures cloud == EnsuredListener(old(cloud), lb, pool, name, protocol, port, Next(old(findFaults)),
                Next(old(faults)))
      ensures StaysTidy()
      ensures Next(old(findFaults)) == NoFault && RightlyNamed(old(cloud), lb, name, port, pool) ==> StaysHealthy()
      ensures ok <==> (Next(old(findFaults)) == NoFault && ListenersNamed(old(cloud), lb, name) != map[]) ||
                      (Honest(Next(old(faults))) && PoolIn(old(cloud), pool, lb))
      ensures ok ==> ListenersNamed(cloud, lb, name) != map[]
    {
      hide Holds, Integrity, ViewOf, NoFalse404, NoErrorBody, ListenerCreated, Deliver, Answer, ListenersNamed,
           RightlyNamed, PoolIn, Changes;
      var page := Find(ListenersNamed(cloud, lb, name));
      if page.Page? && |page.items| > 0 {
        return true;
      }
      ListenerPosted(cloud, lb, name, protocol, port, pool, Next(faults));
      var resp := Send(PostListener(lb, name, protocol, port, pool));
      return resp.Reply? && resp.status == 201;
    }

    method EnsureHealthMonitor(pool: Id, config: HealthConfig) returns (ok: bool)
      requires Integrity(cloud)
      modifies this
      ensures Kept(OwnerOfPool(old(cloud), pool))
      ensures findFaults == Rest(old(findFaults)) && lookupFaults == old(lookupFaults)
      ensures if Next(old(findFaults)) == NoFault && MonitorsOf(old(cloud), pool) != map[]
              then ok && NothingSent() else SentOnce(PostMonitor(pool, config))
      ensures cloud == EnsuredMonitor(old(cloud), pool, config, Next(old(findFaults)), Next(old(faults)))
      ensures StaysTidy()
      ensures Next(old(findFaults)) == NoFault ==> StaysHealthy()
      ensures ok <==> (Next(old(findFaults)) == NoFault && MonitorsOf(old(cloud), pool) != map[]) ||
                      (Honest(Next(old(faults))) && pool in old(cloud.pools))
    {
      hide Holds, Integrity, ViewOf, NoFalse404, NoErrorBody, ListenerCreated, Deliver, Answer, MonitorsOf, Changes;
      var page := Find(MonitorsOf(cloud, pool));
      if page.Page? && |page.items| > 0 {
        return true;
      }
      MonitorPosted(cloud, pool, config, Next(faults));
      var resp := Send(PostMonitor(pool, config));
      return resp.Reply? && resp.status == 201;
    }

    /*** Deletion ***/

    method ListListeners(lb: Id) returns (r: Option<seq<(Id, Listener)>>)
      modifies this`lookupFaults
      ensures lookupFaults == Rest(old(lookupFaults))
      ensures NoFalse404(old(lookupFaults)) ==> NoFalse404(lookupFaults)
      ensures Steady()
      ensures r.None? <==> Lost(Next(old(lookupFaults)))
      ensures r.Some? ==> r.value == [] || Lists(r.value, ListenersOf(cloud, lb))
      ensures r.Some? && Next(old(lookupFaults)) != NoFault ==> r.value == []
      ensures Next(old(lookupFaults)) == NoFault ==> r.Some? && Lists(r.value, ListenersOf(cloud, lb))
    {
      var page := Lookup(ListenersOf(cloud, lb));
      return if page.NoPage? then None else Some(page.Items());
    }

    method DeleteListener(id: Id) returns (ok: bool)
      requires Integrity(cloud)
      modifies this
      ensures SentOnce(Write.DeleteListener(id))
      ensures Bounded(if id in old(cloud.listeners) then old(cloud.listeners[id].lb) else NO_ID)
      ensures lookupFaults == old(lookupFaults) && findFaults == old(findFaults)
      ensures Steady()
      ensures cloud == old(cloud) || cloud == DropListeners(old(cloud), {id})
      ensures id !in old(cloud.listeners) ==> cloud == old(cloud)
      ensures id in cloud.listeners <==> id in old(cloud.listeners) && !CarriedOut(Next(old(faults)))
      ensures ok <==> Answered(log, |old(log)|)
      ensures old(faults) == [] ==> ok && cloud == DropListeners(old(cloud), {id})
      ensures Calm(log, |old(log)|) && Emptied(log, |old(log)|)
    {
      hide Holds, Integrity, ViewOf, NoFalse404, NoErrorBody, ListenerCreated, Deliver, Answer, DropListeners, Calm,
           Answered, Emptied, Changes, Sent, Stops, PartsOnly, InTurn;
      ListenerDeleted(cloud, id, Next(faults));
      OneLogged(log, EntryFor(cloud, Write.DeleteListener(id), Next(faults)));
      var resp := Send(Write.DeleteListener(id));
      return resp.Reply?;
    }

    /** DELETE one member of a pool that is being taken down since the state `first`. */
    method TrimMember(pool: Id, id: Id, ghost first: CloudState, ghost from: nat)
      requires Integrity(cloud) && from <= |log|
      modifies this
      ensures Bounded(OwnerOfPool(old(cloud), pool)) && cloud.pools == old(cloud.pools) &&
                cloud.monitors == old(cloud.monitors)
      ensures lookupFaults == old(lookupFaults) && findFaults == old(findFaults)
      ensures Steady()
      ensures Trimmed(first, old(cloud), pool) ==> Trimmed(first, cloud, pool)
      ensures SentOnce(Write.DeleteMember(pool, id))
      ensures forall m :: m in MembersOf(cloud, pool) ==> m in MembersOf(old(cloud), pool)
      ensures old(faults) == [] ==> id !in MembersOf(cloud, pool)
      ensures Calm(old(log), from) ==> Calm(log, from)
    {
      hide Holds, Integrity, ViewOf, NoFalse404, NoErrorBody, ListenerCreated, Deliver, Answer, Calm, Answered,
           Emptied, MembersOf, Trimmed, Status, Changes, Sent, Stops, PartsOnly, InTurn;
      MemberTrimmed(first, cloud, pool, id, Next(faults));
      ghost var e := EntryFor(cloud, Write.DeleteMember(pool, id), Next(faults));
      OneLogged(log, e);
      LoggedThen(log, log + [e], from);
      var _ := Send(Write.DeleteMember(pool, id));
    }

    /** GET the members of a pool and DELETE each; failures are ignored. */
    method DeleteMembers(pool: Id)
      requires Integrity(cloud)
      modifies this
      ensures forall i | |old(log)| <= i < |log| :: log[i].request.DeleteMember?
      ensures Next(old(lookupFaults)) == NoFault ==>
                forall m | m in MembersOf(old(cloud), pool) :: Sent(log, |old(log)|, Write.DeleteMember(pool, m))
      ensures Bounded(OwnerOfPool(old(cloud), pool)) && cloud.monitors == old(cloud.monitors)
      ensures lookupFaults == Rest(old(lookupFaults)) && findFaults == old(findFaults)
      ensures Steady()
      ensures Trimmed(old(cloud), cloud, pool)
      ensures old(lookupFaults) == [] && old(faults) == [] ==> MembersOf(cloud, pool) == map[]
      ensures Calm(log, |old(log)|) && Answered(log, |old(log)|) && Emptied(log, |old(log)|)
    {
      hide Holds, Integrity, ViewOf, NoFalse404, NoErrorBody, ListenerCreated, Calm, Answered, Emptied, MembersOf,
           Trimmed, Lists, Changes, Sent, Stops, PartsOnly, InTurn;
      var page := Lookup(MembersOf(cloud, pool));
      var items := page.Items();
      TrimmedBase(cloud, pool);
      NothingLogged(log);
      NoneInTurn(log);
      ghost var sent: seq<Write> := [];
      for i := 0 to |items|
        invariant Bounded(OwnerOfPool(old(cloud), pool)) && cloud.pools == old(cloud.pools) &&
                  cloud.monitors == old(cloud.monitors)
        invariant lookupFaults == Rest(old(lookupFaults)) && findFaults == old(findFaults)
        invariant Steady()
        invariant Trimmed(old(cloud), cloud, pool)
        invariant Calm(log, |old(log)|) && InTurn(log, |old(log)|, sent)
        invariant |sent| == i && forall k | 0 <= k < i :: sent[k] == Write.DeleteMember(pool, items[k].0)
        invariant forall m :: m in MembersOf(cloud, pool) ==> m in MembersOf(old(cloud), pool)
        invariant old(faults) == [] ==> forall k | 0 <= k < i :: items[k].0 !in MembersOf(cloud, pool)
      {
        ListedAt(items, MembersOf(old(cloud), pool), i);
        NextInTurn(log, |old(log)|, sent, EntryFor(cloud, Write.DeleteMember(pool, items[i].0), Next(faults)));
        sent := sent + [Write.DeleteMember(pool, items[i].0)];
        TrimMember(pool, items[i].0, old(cloud), |old(log)|);
      }
      AllInTurn(log, |old(log)|, sent);
      MemberDeletionsOnly(log, |old(log)|);
      ghost var found := MembersOf(old(cloud), pool);
      if Next(old(lookupFaults)) == NoFault {
        forall m | m in found ensures Sent(log, |old(log)|, Write.DeleteMember(pool, m)) {
          FoundListed(items, found, m);
          var k :| 0 <= k < |items| && items[k].0 == m;
          assert sent[k] in sent;
        }
      }
      if old(lookupFaults) == [] && old(faults) == [] {
        NoneListed(items, MembersOf(old(cloud), pool), MembersOf(cloud, pool));
      }
    }

    method DeletePool(id: Id) returns (ok: bool)
      requires Integrity(cloud)
      modifies this
      ensures Bounded(OwnerOfPool(old(cloud), id))
      ensures lookupFaults == Rest(old(lookupFaults)) && findFaults == old(findFaults)
      ensures Steady()
      ensures Trimmed(old(cloud), cloud, id) || cloud == DropPool(old(cloud), id)
      ensures id !in old(cloud.pools) ==> cloud == old(cloud)
      ensures old(log) < log && log[|log| - 1].request == Write.DeletePool(id)
      ensures forall i | |old(log)| <= i < |log| - 1 :: log[i].request.DeleteMember?
      ensures Next(old(lookupFaults)) == NoFault ==>
                forall m | m in MembersOf(old(cloud), id) :: Sent(log, |old(log)|, Write.DeleteMember(id, m))
      ensures !Referenced(old(cloud), id) ==>
                (id in cloud.pools <==> id in old(cloud.pools) && !CarriedOut(log[|log| - 1].fault))
      ensures ok <==> Answered(log, |old(log)|)
      ensures old(faults) == [] ==> ok
      ensures !Referenced(old(cloud), id) ==>
                (old(faults) == [] ==> cloud == DropPool(old(cloud), id)) && Calm(log, |old(log)|)
      ensures old(lookupFaults) == [] && old(faults) == [] && MonitorsOf(old(cloud), id) == map[] ==>
                Emptied(log, |old(log)|)
    {
      hide Holds, Integrity, ViewOf, NoFalse404, NoErrorBody, ListenerCreated, Deliver, Answer, Calm, Answered,
           Emptied, Trimmed, DropPool, Referenced, MembersOf, Changes, Sent, Stops, PartsOnly, InTurn;
      DeleteMembers(id);
      PoolDeleted(old(cloud), cloud, id, Next(faults));
      ghost var e := EntryFor(cloud, Write.DeletePool(id), Next(faults));
      OneLogged(log, e);
      LoggedThen(log, log + [e], |old(log)|);
      SentThen(log, log + [e], |old(log)|);
      var resp := Send(Write.DeletePool(id));
      return resp.Reply?;
    }

    /** One listener of the list, after the listeners `gone` of the store `start` have been deleted by the
        requests `sent`. */
    method DeleteListedListener(lb: Id, id: Id, ghost start: CloudState, ghost from: nat, ghost gone: set<Id>,
                                ghost sent: seq<Write>) returns (ok: bool, ghost now: set<Id>)
      requires Integrity(cloud) && from <= |log|
      requires cloud == DropListeners(start, gone) && id in ListenersOf(start, lb) && id !in gone
      modifies this
      ensures Bounded(lb) && Steady() && lookupFaults == old(lookupFaults)
      ensures (now == gone || now == gone + {id}) && cloud == DropListeners(start, now)
      ensures old(faults) == [] ==> ok && now == gone + {id}
      ensures old(Calm(log, from)) ==> Calm(log, from)
      ensures old(Answered(log, from)) ==> (ok <==> Answered(log, from)) && Stops(log, from)
      ensures old(InTurn(log, from, sent)) ==> InTurn(log, from, sent + [Write.DeleteListener(id)])
    {
      hide Holds, Integrity, ViewOf, NoFalse404, NoErrorBody, ListenerCreated, Calm, Answered, Emptied, ListenersOf,
           DropListeners, Lost, Changes, Sent, Stops, PartsOnly, InTurn;
      StillListed(start, lb, gone, id);
      ghost var before, earlier := cloud, log;
      NextInTurn(log, from, sent, EntryFor(cloud, Write.DeleteListener(id), Next(faults)));
      ok := DeleteListener(id);
      LoggedThen(earlier, log, from);
      if Answered(earlier, from) {
        AnsweredBefore(earlier, log, from);
      }
      DropListenersTwice(start, gone, {id});
      now := if cloud == before && old(faults) != [] then gone else gone + {id};
    }

    method DeleteListeners(lb: Id) returns (ok: bool)
      requires Integrity(cloud)
      modifies this
      ensures Bounded(lb)
      ensures Steady()
      ensures cloud == old(cloud).(listeners := cloud.listeners)
      ensures old(lookupFaults) == [] && old(faults) == [] ==>
                ok && cloud == DropListeners(old(cloud), ListenersOf(old(cloud), lb).Keys)
      ensures lookupFaults == Rest(old(lookupFaults))
      ensures ok <==> !Lost(Next(old(lookupFaults))) && Answered(log, |old(log)|)
      ensures Stops(log, |old(log)|) && (Lost(Next(old(lookupFaults))) ==> NothingSent())
      ensures forall i | |old(log)| <= i < |log| :: log[i].request.DeleteListener?
      ensures ok && Next(old(lookupFaults)) == NoFault ==>
                forall l | l in ListenersOf(old(cloud), lb) :: Sent(log, |old(log)|, Write.DeleteListener(l))
      ensures Calm(log, |old(log)|) && Emptied(log, |old(log)|)
    {
      hide Holds, Integrity, ViewOf, NoFalse404, NoErrorBody, ListenerCreated, Calm, Answered, Emptied, ListenersOf,
           DropListeners, Lost, Changes, Sent, Stops, PartsOnly, InTurn, Lists;
      NothingLogged(log);
      NothingSentYet(log);
      NoneInTurn(log);
      var page := Lookup(ListenersOf(cloud, lb));
      if page.NoPage? {
        return false;
      }
      var items := page.Items();
      DropNoListeners(cloud);
      ghost var start, from, gone: set<Id>, sent: seq<Write> := cloud, |log|, {}, [];
      ok := true;
      for i := 0 to |items|
        invariant Bounded(lb) && Steady() && lookupFaults == Rest(old(lookupFaults))
        invariant Calm(log, from) && Answered(log, from) && Stops(log, from) && InTurn(log, from, sent)
        invariant |sent| == i && forall k | 0 <= k < i :: sent[k] == Write.DeleteListener(items[k].0)
        invariant gone <= ListenersOf(start, lb).Keys && forall k | i <= k < |items| :: items[k].0 !in gone
        invariant cloud == DropListeners(start, gone)
        invariant old(faults) == [] ==> forall k | 0 <= k < i :: items[k].0 in gone
      {
        ListedAt(items, ListenersOf(start, lb), i);
        ok, gone := DeleteListedListener(lb, items[i].0, start, from, gone, sent);
        sent := sent + [Write.DeleteListener(items[i].0)];
        if !ok {
          break;
        }
      }
      ListenersRequested(log, from, sent, items[..|sent|], items, ListenersOf(start, lb));
      if !ok {
        return false;
      }
      if old(lookupFaults) == [] && old(faults) == [] {
        AllListed(items, ListenersOf(start, lb), gone);
      }
      return true;
    }

    /** The monitor of a pool, as the pool list reports it, or the empty identifier. */
    method HealthMonitorId(pool: Id) returns (id: Id)
      ensures if MonitorsOf(cloud, pool) == map[] then id == NO_ID else id in MonitorsOf(cloud, pool)
    {
      var found := MonitorsOf(cloud, pool);
      if found == map[] {
        return NO_ID;
      }
      id :| id in found;
    }

    /** DELETE the monitor, the members and the pool; only the last request can fail the step. */
    method DeletePoolParts(pool: Id) returns (ok: bool)
      requires Integrity(cloud)
      modifies this
      ensures old(log) < log && log[|log| - 1].request == Write.DeletePool(pool)
      ensures Stops(log, |old(log)|) && PartsOnly(log, |old(log)|)
      ensures forall i | |old(log)| <= i < |log| - 1 :: log[i].request.DeleteMember? || log[i].request.DeleteMonitor?
      ensures MonitorsOf(old(cloud), pool) != map[] ==>
                exists h | h in MonitorsOf(old(cloud), pool) :: Sent(log, |old(log)|, DeleteMonitor(h))
      ensures Next(old(lookupFaults)) == NoFault ==>
                forall m | m in MembersOf(old(cloud), pool) :: Sent(log, |old(log)|, Write.DeleteMember(pool, m))
      ensures Bounded(OwnerOfPool(old(cloud), pool))
      ensures Steady()
      ensures Trimmed(old(cloud), cloud, pool) || cloud == DropPool(old(cloud), pool)
      ensures ok <==> Answered(log, |old(log)|)
      ensures old(faults) == [] ==> ok
      ensures !Referenced(old(cloud), pool) ==>
                (old(faults) == [] ==> cloud == DropPool(old(cloud), pool)) && Calm(log, |old(log)|)
      ensures old(lookupFaults) == [] && old(faults) == [] && OneMonitorOf(old(cloud), pool) ==>
                Emptied(log, |old(log)|)
    {
      hide Holds, Integrity, ViewOf, NoFalse404, NoErrorBody, ListenerCreated, Deliver, Answer, Calm, Answered,
           Emptied, Trimmed, DropPool, Referenced, MonitorsOf, HasChildren, OneMonitorOf, Changes, Sent, Stops,
           PartsOnly, InTurn;
      NothingLogged(log);
      TrimmedBase(cloud, pool);
      var hm := HealthMonitorId(pool);
      if hm != NO_ID {
        MonitorTrimmed(cloud, pool, hm, Next(faults));
        OneLogged(log, EntryFor(cloud, DeleteMonitor(hm), Next(faults)));
        OneSent(log, EntryFor(cloud, DeleteMonitor(hm), Next(faults)));
        SameMembersTrimmed(cloud, pool, hm, Next(faults));
        var _ := Send(DeleteMonitor(hm));
      } else if MonitorsOf(cloud, pool) != map[] {
        MonitorIdentified(cloud, pool, hm);
      }
      ghost var trimmed, earlier := cloud, log;
      TrimmedSame(old(cloud), cloud, pool);
      ok := DeletePool(pool);
      TrimmedThen(old(cloud), trimmed, cloud, pool);
      LoggedThen(earlier, log, |old(log)|);
      SentThen(earlier, log, |old(log)|);
      assert Stops(log, |old(log)|) && PartsOnly(log, |old(log)|) by {
        OnlyPartsStop(log, |old(log)|);
      }
    }

    /** One pool of the list, after the pools `gone` of the store `start` have been deleted. */
    method DeleteListedPool(lb: Id, pool: Id, ghost start: CloudState, ghost from: nat, ghost gone: set<Id>)
      returns (ok: bool, ghost now: set<Id>)
      requires Integrity(cloud) && Integrity(start) && from <= |log|
      requires cloud.listeners == start.listeners && cloud.pools == DropPools(start, gone).pools
      requires pool in PoolsOf(start, lb) && pool !in gone
      modifies this
      ensures Bounded(lb) && Steady() && cloud.listeners == old(cloud.listeners)
      ensures (now == gone || now == gone + {pool}) && cloud.pools == DropPools(start, now).pools
      ensures Sent(log, |old(log)|, Write.DeletePool(pool)) && Stops(log, |old(log)|)
      ensures PartsOnly(log, |old(log)|)
      ensures old(Answered(log, from)) ==> (ok <==> Answered(log, from))
      ensures old(faults) == [] ==> ok
      ensures old(OneMonitor(cloud, lb)) ==> OneMonitor(cloud, lb)
      ensures old(lookupFaults) == [] && old(faults) == [] && old(OneMonitor(cloud, lb) && Emptied(log, from)) ==>
                Emptied(log, from)
      ensures ListenersOf(start, lb) == map[] && old(Calm(log, from)) ==> Calm(log, from)
      ensures ListenersOf(start, lb) == map[] && old(faults) == [] && old(cloud) == DropPools(start, gone) ==>
                now == gone + {pool} && cloud == DropPools(start, now)
    {
      hide Holds, Integrity, ViewOf, NoFalse404, NoErrorBody, ListenerCreated, Calm, Answered, Emptied, Trimmed,
           DropPool, DropPools, PoolsOf, ListenersOf, Referenced, OwnerOfPool, OneMonitor, OneMonitorOf, Changes,
           Sent, Stops, PartsOnly, InTurn;
      PoolStillListed(start, cloud, lb, gone, pool);
      OneMonitorThere(cloud, lb, pool);
      ghost var before, earlier := cloud, log;
      ok := DeletePoolParts(pool);
      DropOnePool(start, before, cloud, gone, pool);
      MonitorsShrink(before, cloud, pool, lb);
      LoggedThen(earlier, log, from);
      LastSent(log, |earlier|);
      now := if cloud == DropPool(before, pool) then gone + {pool} else gone;
    }

    method DeletePools(lb: Id) returns (ok: bool)
      requires Integrity(cloud)
      modifies this
      ensures Bounded(lb) && cloud.listeners == old(cloud.listeners)
      ensures Steady()
      ensures ok <==> !Lost(Next(old(lookupFaults))) && Answered(log, |old(log)|)
      ensures PartsOnly(log, |old(log)|)
      ensures Stops(log, |old(log)|) && (Lost(Next(old(lookupFaults))) ==> NothingSent())
      ensures ok && Next(old(lookupFaults)) == NoFault ==>
                forall p | p in PoolsOf(old(cloud), lb) :: Sent(log, |old(log)|, Write.DeletePool(p))
      ensures ListenersOf(old(cloud), lb) == map[] ==> Calm(log, |old(log)|)
      ensures ListenersOf(old(cloud), lb) == map[] && old(lookupFaults) == [] && old(faults) == [] ==>
                ok && cloud == DropPools(old(cloud), PoolsOf(old(cloud), lb).Keys)
      ensures old(lookupFaults) == [] && old(faults) == [] && OneMonitor(old(cloud), lb) ==> Emptied(log, |old(log)|)
    {
      hide Holds, Integrity, ViewOf, NoFalse404, NoErrorBody, ListenerCreated, Calm, Answered, Emptied, DropPools,
           PoolsOf, ListenersOf, OneMonitor, Lost, Lists, Changes, Sent, Stops, PartsOnly, InTurn;
      NothingLogged(log);
      NothingSentYet(log);
      var page := Lookup(PoolsOf(cloud, lb));
      if page.NoPage? {
        return false;
      }
      var items := page.Items();
      DropNoPools(cloud);
      ghost var start, from, gone: set<Id> := cloud, |log|, {};
      ghost var bare := ListenersOf(start, lb) == map[];
      for i := 0 to |items|
        invariant Bounded(lb) && Steady() && cloud.listeners == start.listeners
        invariant bare ==> Calm(log, from)
        invariant Answered(log, from) && Stops(log, from) && PartsOnly(log, from)
        invariant forall k | 0 <= k < i :: Sent(log, from, Write.DeletePool(items[k].0))
        invariant OneMonitor(start, lb) ==> OneMonitor(cloud, lb)
        invariant old(lookupFaults) == [] && old(faults) == [] && OneMonitor(start, lb) ==> Emptied(log, from)
        invariant gone <= PoolsOf(start, lb).Keys && forall k | i <= k < |items| :: items[k].0 !in gone
        invariant cloud.pools == DropPools(start, gone).pools
        invariant old(faults) == [] && bare ==>
                    cloud == DropPools(start, gone) && forall k | 0 <= k < i :: items[k].0 in gone
      {
        ListedAt(items, PoolsOf(start, lb), i);
        ghost var earlier := log;
        var sent;
        sent, gone := DeleteListedPool(lb, items[i].0, start, from, gone);
        SentThen(earlier, log, from);
        if !sent {
          return false;
        }
      }
      if bare && old(lookupFaults) == [] && old(faults) == [] {
        AllListed(items, PoolsOf(start, lb), gone);
      }
      if Next(old(lookupFaults)) == NoFault {
        forall p | p in PoolsOf(start, lb) ensures Sent(log, from, Write.DeletePool(p)) {
          FoundListed(items, PoolsOf(start, lb), p);
        }
      }
      return true;
    }

    /** DELETE the load balancer, retrying on 409 after 1, 2, 4, 8 and 16 seconds.  The context is
        cancelled during wait number `patience`, if the call gets that far. */
    method DeleteLoadBalancer(id: Id, patience: nat) returns (r: DeleteOutcome, waited: nat)
      requires Integrity(cloud)
      modifies this
      ensures Integrity(cloud) && lookupFaults == old(lookupFaults)
      ensures Steady()
      ensures old(log) < log && |log| - |old(log)| <= MAX_RETRIES + 1
      ensures forall i | |old(log)| <= i < |log| :: log[i].request == Write.DeleteLoadBalancer(id)
      ensures forall i | |old(log)| <= i < |log| - 1 :: Says(log[i], 409)
      ensures r.Deleted? <==> Says(log[|log| - 1], 204) || Says(log[|log| - 1], 404)
      ensures waited == Pow(2, |log| - |old(log)| - 1) - 1 <= 31
      ensures old(faults) == [] ==> faults == []
      ensures cloud == old(cloud) || (id in old(cloud.lbs) && cloud == DropLoadBalancer(old(cloud), id))
      ensures r.Deleted? <==> exists k: nat :: SucceedsAt(old(cloud), id, old(faults), patience, k)
      ensures r.Deleted? ==> SucceedsAt(old(cloud), id, old(faults), patience, |log| - |old(log)| - 1)
      ensures old(faults) == [] && id in old(cloud.lbs) && !HasChildren(old(cloud), id) ==>
                r.Deleted? && cloud == DropLoadBalancer(old(cloud), id) && Calm(log, |old(log)|)
      ensures NoFalse404(old(faults)) ==> NoFalse404(faults) && (r.Deleted? ==> id !in cloud.lbs)
      ensures Emptied(log, |old(log)|)
    {
      hide Holds, Integrity, ViewOf, NoFalse404, NoErrorBody, ListenerCreated, Deliver, Answer, Calm, Emptied,
           HasChildren, Guard, FaultAt, After, DropLoadBalancer, Pow, Changes, LoadBalancersNamed;
      AfterNext(faults, 0);
      BackoffBound(0);
      NothingLogged(log);
      waited := 0;
      for attempt := 0 to MAX_RETRIES + 1
        invariant attempt <= MAX_RETRIES && attempt <= patience
        invariant Integrity(cloud) && lookupFaults == old(lookupFaults)
        invariant Steady()
        invariant cloud == old(cloud)
        invariant old(log) <= log && |log| - |old(log)| == attempt
        invariant forall i | |old(log)| <= i < |log| ::
                    log[i].request == Write.DeleteLoadBalancer(id) && Says(log[i], 409)
        invariant faults == After(old(faults), attempt)
        invariant NoFalse404(old(faults)) ==> NoFalse404(faults)
        invariant Emptied(log, |old(log)|)
        invariant waited == Pow(2, attempt) - 1
        invariant forall j | 0 <= j < attempt :: Conflicted(DeletionAnswer(old(cloud), id, old(faults), j))
        invariant old(faults) == [] && id in old(cloud.lbs) && !HasChildren(old(cloud), id) ==> attempt == 0
      {
        AfterNext(old(faults), attempt);
        BackoffBound(attempt);
        DeletionAnswered(cloud, id, Next(faults), log);
        FalseNotFound(faults);
        LoggedThen(log, log + [EntryFor(cloud, Write.DeleteLoadBalancer(id), Next(faults))], |old(log)|);
        var resp := Send(Write.DeleteLoadBalancer(id));
        if resp.NoReply? {
          FailsAt(old(cloud), id, old(faults), patience, attempt);
          return RequestFailed, waited;
        }
        if resp.status == 404 || resp.status == 204 {
          assert SucceedsAt(old(cloud), id, old(faults), patience, attempt);
          return Deleted, waited;
        }
        if resp.status == 409 && attempt < MAX_RETRIES {
          if attempt == patience {
            FailsAt(old(cloud), id, old(faults), patience, attempt);
            return Cancelled, waited;
          }
          waited := waited + Pow(2, attempt);
          continue;
        }
        FailsAt(old(cloud), id, old(faults), patience, attempt);
        return Refused(resp.status), waited;
      }
      assert false;
    }

    /*** Elastic IPs ***/

    method FindEip(port: Id) returns (r: Option<Id>)
      modifies this`lookupFaults
      ensures lookupFaults == Rest(old(lookupFaults))
      ensures NoFalse404(old(lookupFaults)) ==> NoFalse404(lookupFaults)
      ensures Steady()
      ensures r.Some? ==> r.value in EipsOn(cloud, port)
      ensures Next(old(lookupFaults)) != NoFault ==> r.None?
      ensures Next(old(lookupFaults)) == NoFault ==> (r.Some? <==> EipsOn(cloud, port) != map[])
    {
      var page := Lookup(EipsOn(cloud, port));
      return if |page.Items()| > 0 then Some(page.Items()[0].0) else None;
    }

    method ReleaseEip(id: Id) returns (ok: bool)
      requires Integrity(cloud)
      modifies this
      ensures SentOnce(Write.ReleaseEip(id)) && lookupFaults == old(lookupFaults)
      ensures NoFalse404(old(faults)) ==> NoFalse404(faults)
      ensures ok <==> Honest(Next(old(faults))) && id in old(cloud.eips)
      ensures Integrity(cloud)
      ensures Steady()
    {
      hide Holds, Integrity, ViewOf, NoFalse404, NoErrorBody, ListenerCreated, Deliver, Changes;
      var resp := Send(Write.ReleaseEip(id));
      return resp.Reply? && resp.status in {200, 204};
    }
  }
}
