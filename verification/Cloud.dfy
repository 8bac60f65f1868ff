// The remote ELB v3 store as the controller sees it: load balancers with listeners, pools,
// members, health monitors and elastic IPs, the write requests it serves, and the faults a
// request can meet.  The server is synchronous, refuses to delete what is still referenced
// (status 409) and removes members and monitors together with their pool.
module Cloud {

  type Id = nat

  /** Stands for the empty identifier; the server never issues it. */
  const NO_ID: Id := 0

  datatype Protocol = TCP | UDP
  datatype HealthConfig = HealthConfig(kind: string, delay: int, timeout: int, maxRetries: int)

  datatype LoadBalancer = LoadBalancer(name: string, vipPort: Id, eips: seq<Id>, publicIps: seq<Id>)
  /** A listener; one without a default pool has NO_ID there. */
  datatype Listener = Listener(lb: Id, name: string, protocol: Protocol, port: int, pool: Id)
  datatype Pool = Pool(lb: Id, name: string, protocol: Protocol)
  datatype Member = Member(pool: Id, address: string, port: int)
  datatype Monitor = Monitor(pool: Id, config: HealthConfig)

  datatype CloudState = CloudState(
    lbs: map<Id, LoadBalancer>,
    listeners: map<Id, Listener>,
    pools: map<Id, Pool>,
    members: map<Id, Member>,
    monitors: map<Id, Monitor>,
    eips: map<Id, Id>,  // elastic IP to the port it is bound to
    next: Id)           // identifiers from here on are unused

  /*** Write requests ***/

  datatype Write =
    | PostLoadBalancer(name: string, withEip: bool)
    | DeleteLoadBalancer(id: Id)
    | PostListener(lb: Id, name: string, protocol: Protocol, port: int, pool: Id)
    | DeleteListener(id: Id)
    | PostPool(lb: Id, name: string, protocol: Protocol)
    | DeletePool(id: Id)
    | PostMember(pool: Id, address: string, port: int)
    | DeleteMember(pool: Id, id: Id)
    | PostMonitor(pool: Id, config: HealthConfig)
    | DeleteMonitor(id: Id)
    | ReleaseEip(id: Id)

  predicate HasChildren(s: CloudState, lb: Id)
  {
    (exists l :: l in s.listeners && s.listeners[l].lb == lb) ||
    (exists p :: p in s.pools && s.pools[p].lb == lb)
  }

  predicate Referenced(s: CloudState, pool: Id)
  {
    exists l :: l in s.listeners && s.listeners[l].pool == pool
  }

  /** A pool of the load balancer that no listener uses. */
  ghost predicate Stranded(s: CloudState, lb: Id, pool: Id)
  {
    PoolIn(s, pool, lb) && !Referenced(s, pool)
  }

  /** The HTTP status the server answers. */
  function Status(s: CloudState, w: Write): nat
  {
    match w
    case PostLoadBalancer(_, _) => 201
    case DeleteLoadBalancer(id) =>
      if id !in s.lbs then 404 else if HasChildren(s, id) then 409 else 204
    case PostListener(lb, _, _, _, pool) =>
      if lb in s.lbs && pool in s.pools && s.pools[pool].lb == lb then 201 else 404
    case DeleteListener(id) => if id in s.listeners then 204 else 404
    case PostPool(lb, _, _) => if lb in s.lbs then 201 else 404
    case DeletePool(id) =>
      if id !in s.pools then 404 else if Referenced(s, id) then 409 else 204
    case PostMember(pool, _, _) => if pool in s.pools then 201 else 404
    case DeleteMember(pool, id) =>
      if id in s.members && s.members[id].pool == pool then 204 else 404
    case PostMonitor(pool, _) => if pool in s.pools then 201 else 404
    case DeleteMonitor(id) => if id in s.monitors then 204 else 404
    case ReleaseEip(id) => if id in s.eips then 204 else 404
  }

  function DropPool(s: CloudState, id: Id): CloudState
  {
    s.(pools := s.pools - {id},
       members := map m | m in s.members && s.members[m].pool != id :: s.members[m],
       monitors := map h | h in s.monitors && s.monitors[h].pool != id :: s.monitors[h])
  }

  /** Deleting a load balancer unbinds its elastic IPs but does not release them. */
  function DropLoadBalancer(s: CloudState, id: Id): CloudState
    requires id in s.lbs
  {
    s.(lbs := s.lbs - {id},
       eips := map e | e in s.eips :: if s.eips[e] == s.lbs[id].vipPort then NO_ID else s.eips[e])
  }

  /** The state after the server has carried out the request; a refused one changes nothing. */
  function Apply(s: CloudState, w: Write): CloudState
  {
    if Status(s, w) >= 400 then s else
      match w
      case PostLoadBalancer(name, withEip) =>
        var eip := s.next + 2;
        s.(lbs := s.lbs[s.next := LoadBalancer(name, s.next + 1, if withEip then [eip] else [], [])],
           eips := if withEip then s.eips[eip := s.next + 1] else s.eips,
           next := s.next + 3)
      case DeleteLoadBalancer(id) => DropLoadBalancer(s, id)
      case PostListener(lb, name, protocol, port, pool) =>
        s.(listeners := s.listeners[s.next := Listener(lb, name, protocol, port, pool)], next := s.next + 1)
      case DeleteListener(id) => s.(listeners := s.listeners - {id})
      case PostPool(lb, name, protocol) =>
        s.(pools := s.pools[s.next := Pool(lb, name, protocol)], next := s.next + 1)
      case DeletePool(id) => DropPool(s, id)
      case PostMember(pool, address, port) =>
        s.(members := s.members[s.next := Member(pool, address, port)], next := s.next + 1)
      case DeleteMember(_, id) => s.(members := s.members - {id})
      case PostMonitor(pool, config) =>
        s.(monitors := s.monitors[s.next := Monitor(pool, config)], next := s.next + 1)
      case DeleteMonitor(id) => s.(monitors := s.monitors - {id})
      case ReleaseEip(id) => s.(eips := s.eips - {id})
  }

  /** The status tells what has become of the store: 201 something was created, 204 something went, 404
      and 409 nothing changed, because it does not exist or because something still depends on it. */
  lemma StatusTells(s: CloudState, w: Write)
    ensures Status(s, w) in {201, 204, 404, 409}
    ensures Status(s, w) == 201 <==> Apply(s, w).next > s.next
    ensures Status(s, w) == 204 ==> Apply(s, w) != s
    ensures Status(s, w) in {404, 409} ==> Apply(s, w) == s
    ensures Status(s, w) == 409 ==>
              if w.DeletePool? then Referenced(s, w.id) else w.DeleteLoadBalancer? && HasChildren(s, w.id)
  {
    hide Referenced, HasChildren;
  }

  /*** Faults ***/

  type HttpError = c: nat | 400 <= c < 600 witness 500

  datatype Fault =
    | NoFault
    | Unsent                     // the request never reaches the server
    | ReplyLost                  // carried out, but no reply arrives
    | Rejected(code: HttpError)  // an error status although nothing was done
    | Garbled                    // carried out, with a body that cannot be decoded

  /** No reply of any kind arrives. */
  predicate Lost(f: Fault)
  {
    f.Unsent? || f.ReplyLost?
  }

  /** The request is carried out and the reply brings the server's own status. */
  predicate Honest(f: Fault)
  {
    f.NoFault? || f.Garbled?
  }

  datatype Response = NoReply | Reply(status: nat, created: Id, readable: bool)

  /** The fault the next request meets: a script says which, and past its end nothing fails. */
  function Next(script: seq<Fault>): Fault
  {
    if script == [] then NoFault else script[0]
  }

  function Rest(script: seq<Fault>): seq<Fault>
  {
    if script == [] then [] else script[1..]
  }

  predicate CarriedOut(f: Fault)
  {
    !f.Unsent? && !f.Rejected?
  }

  function Deliver(s: CloudState, w: Write, f: Fault): CloudState
  {
    if CarriedOut(f) then Apply(s, w) else s
  }

  function Answer(s: CloudState, w: Write, f: Fault): Response
  {
    match f
    case NoFault => Reply(Status(s, w), s.next, true)
    case Unsent => NoReply
    case ReplyLost => NoReply
    case Rejected(code) => Reply(code, NO_ID, true)
    case Garbled => Reply(Status(s, w), NO_ID, false)
  }

  /** One write request in the log, with the store before and after it. */
  datatype Entry = Entry(request: Write, fault: Fault, before: CloudState, after: CloudState)

  function EntryFor(s: CloudState, w: Write, f: Fault): Entry
  {
    Entry(w, f, s, Deliver(s, w, f))
  }

  /** From the given position on, the log leads request by request from store s to store t. */
  ghost predicate Linked(log: seq<Entry>, from: nat, s: CloudState, t: CloudState)
  {
    && from <= |log|
    && (if from == |log| then s == t else log[from].before == s && log[|log| - 1].after == t)
    && (forall i | from <= i < |log| :: log[i].after == Deliver(log[i].before, log[i].request, log[i].fault))
    && (forall i | from <= i < |log| - 1 :: log[i].after == log[i + 1].before)
  }

  lemma LinkedMore(log: seq<Entry>, from: nat, s: CloudState, t: CloudState, w: Write, f: Fault)
    ensures Linked(log, from, s, t) ==> Linked(log + [EntryFor(t, w, f)], from, s, Deliver(t, w, f))
  {
    hide Deliver;
  }

  lemma LinkedSince(earlier: seq<Entry>, log: seq<Entry>, s: CloudState, t: CloudState, u: CloudState)
    requires earlier <= log && Linked(earlier, 0, s, t) && Linked(log, 0, s, u)
    ensures Linked(log, |earlier|, t, u)
  {
    hide Deliver;
    assert forall i | 0 <= i < |earlier| :: earlier[i] == log[i];
  }

  /** How many logged requests changed the store. */
  ghost function Changes(log: seq<Entry>): nat
  {
    if log == [] then 0
    else Changes(log[..|log| - 1]) + if log[|log| - 1].after != log[|log| - 1].before then 1 else 0
  }

  lemma ChangesAppend(log: seq<Entry>, e: Entry)
    ensures Changes(log + [e]) == Changes(log) + if e.after != e.before then 1 else 0
  {
    assert (log + [e])[..|log|] == log;
  }

  /*** What the server itself guarantees ***/

  ghost predicate Fresh<V>(m: map<Id, V>, next: Id)
  {
    forall k :: k in m ==> NO_ID < k < next
  }

  ghost predicate ReferencesResolve(s: CloudState)
  {
    && (forall l :: l in s.listeners ==>
          s.listeners[l].lb in s.lbs &&
          (s.listeners[l].pool == NO_ID || PoolIn(s, s.listeners[l].pool, s.listeners[l].lb)))
    && (forall p :: p in s.pools ==> s.pools[p].lb in s.lbs)
    && (forall m :: m in s.members ==> s.members[m].pool in s.pools)
    && (forall h :: h in s.monitors ==> s.monitors[h].pool in s.pools)
  }

  ghost predicate IdentifiersUsed(s: CloudState)
  {
    && s.next > NO_ID
    && Fresh(s.lbs, s.next) && Fresh(s.listeners, s.next) && Fresh(s.pools, s.next)
    && Fresh(s.members, s.next) && Fresh(s.monitors, s.next) && Fresh(s.eips, s.next)
  }

  /** References resolve, and identifiers from `next` on are unused. */
  ghost predicate Integrity(s: CloudState)
  {
    ReferencesResolve(s) && IdentifiersUsed(s)
  }

  lemma ServerResolvesReferences(s: CloudState, w: Write)
    requires Integrity(s)
    ensures ReferencesResolve(Apply(s, w))
  {
    assert s.next !in s.pools && s.next !in s.lbs && s.next !in s.listeners;
    assert s.next !in s.members && s.next !in s.monitors;
    hide IdentifiersUsed;
  }

  lemma ServerNumbersFreshly(s: CloudState, w: Write)
    requires Integrity(s)
    ensures IdentifiersUsed(Apply(s, w))
  {
    hide ReferencesResolve, Status;
  }

  /** Every request, whatever its arguments, keeps integrity. */
  lemma ServerKeepsIntegrity(s: CloudState, w: Write)
    requires Integrity(s)
    ensures Integrity(Apply(s, w))
  {
    ServerResolvesReferences(s, w);
    ServerNumbersFreshly(s, w);
  }

  /*** Lookups ***/

  function ListenersOf(s: CloudState, lb: Id): map<Id, Listener>
  {
    map l | l in s.listeners && s.listeners[l].lb == lb :: s.listeners[l]
  }

  function PoolsOf(s: CloudState, lb: Id): map<Id, Pool>
  {
    map p | p in s.pools && s.pools[p].lb == lb :: s.pools[p]
  }

  function MembersOf(s: CloudState, pool: Id): map<Id, Member>
  {
    map m | m in s.members && s.members[m].pool == pool :: s.members[m]
  }

  function MonitorsOf(s: CloudState, pool: Id): map<Id, Monitor>
  {
    map h | h in s.monitors && s.monitors[h].pool == pool :: s.monitors[h]
  }

  function ListenersNamed(s: CloudState, lb: Id, name: string): map<Id, Listener>
  {
    map l | l in s.listeners && s.listeners[l].lb == lb && s.listeners[l].name == name :: s.listeners[l]
  }

  function PoolsNamed(s: CloudState, lb: Id, name: string): map<Id, Pool>
  {
    map p | p in s.pools && s.pools[p].lb == lb && s.pools[p].name == name :: s.pools[p]
  }

  function LoadBalancersNamed(s: CloudState, name: string): map<Id, LoadBalancer>
  {
    map b | b in s.lbs && s.lbs[b].name == name :: s.lbs[b]
  }

  function EipsOn(s: CloudState, port: Id): map<Id, Id>
  {
    map e | e in s.eips && s.eips[e] == port :: s.eips[e]
  }

  /*** Frames ***/

  /** Everything that belongs to one load balancer. */
  datatype View = View(listeners: map<Id, Listener>, pools: map<Id, Pool>,
                       members: map<Id, Member>, monitors: map<Id, Monitor>)

  ghost predicate PoolIn(s: CloudState, pool: Id, lb: Id)
  {
    pool in s.pools && s.pools[pool].lb == lb
  }

  ghost function MembersIn(s: CloudState, lb: Id): map<Id, Member>
  {
    map m | m in s.members && PoolIn(s, s.members[m].pool, lb) :: s.members[m]
  }

  ghost function MonitorsIn(s: CloudState, lb: Id): map<Id, Monitor>
  {
    map h | h in s.monitors && PoolIn(s, s.monitors[h].pool, lb) :: s.monitors[h]
  }

  ghost function ViewOf(s: CloudState, lb: Id): View
  {
    View(ListenersOf(s, lb), PoolsOf(s, lb), MembersIn(s, lb), MonitorsIn(s, lb))
  }

  function OwnerOfPool(s: CloudState, pool: Id): Id
  {
    if pool in s.pools then s.pools[pool].lb else NO_ID
  }

  /** The load balancer a request is about. */
  function Owner(s: CloudState, w: Write): Id
  {
    match w
    case PostLoadBalancer(_, _) => s.next
    case DeleteLoadBalancer(id) => id
    case PostListener(lb, _, _, _, _) => lb
    case DeleteListener(id) => if id in s.listeners then s.listeners[id].lb else NO_ID
    case PostPool(lb, _, _) => lb
    case DeletePool(id) => OwnerOfPool(s, id)
    case PostMember(pool, _, _) => OwnerOfPool(s, pool)
    case DeleteMember(pool, _) => OwnerOfPool(s, pool)
    case PostMonitor(pool, _) => OwnerOfPool(s, pool)
    case DeleteMonitor(id) => if id in s.monitors then OwnerOfPool(s, s.monitors[id].pool) else NO_ID
    case ReleaseEip(_) => NO_ID
  }

  lemma ListenersTouchOneLoadBalancer(s: CloudState, w: Write, c: Id)
    requires Integrity(s)
    requires c != Owner(s, w)
    ensures ListenersOf(Apply(s, w), c) == ListenersOf(s, c)
  {
    hide ReferencesResolve, HasChildren, Referenced;
  }

  lemma PoolsTouchOneLoadBalancer(s: CloudState, w: Write, c: Id)
    requires Integrity(s)
    requires c != Owner(s, w)
    ensures PoolsOf(Apply(s, w), c) == PoolsOf(s, c)
    ensures forall p :: PoolIn(Apply(s, w), p, c) <==> PoolIn(s, p, c)
  {
    hide ReferencesResolve, HasChildren, Referenced;
  }

  lemma MembersOnlyBy(s: CloudState, w: Write)
    ensures w.PostMember? || w.DeleteMember? || w.DeletePool? || Apply(s, w).members == s.members
    ensures w.PostMonitor? || w.DeleteMonitor? || w.DeletePool? || Apply(s, w).monitors == s.monitors
  {
    hide Status;
  }

  lemma MembersTouchOneLoadBalancer(s: CloudState, w: Write, c: Id)
    requires Integrity(s)
    requires c != Owner(s, w)
    ensures MembersIn(Apply(s, w), c) == MembersIn(s, c)
  {
    hide Status, PoolIn, Integrity, Owner;
    PoolsTouchOneLoadBalancer(s, w, c);
    if w.PostMember? || w.DeleteMember? || w.DeletePool? {
      OwnedPool(s, w, c);
      MemberRequest(s, w, c);
    } else {
      MembersOnlyBy(s, w);
    }
  }

  lemma MemberRequest(s: CloudState, w: Write, c: Id)
    requires w.PostMember? || w.DeleteMember? || w.DeletePool?
    requires forall p :: PoolIn(Apply(s, w), p, c) <==> PoolIn(s, p, c)
    requires w.DeletePool? ==> !PoolIn(s, w.id, c)
    requires w.PostMember? || w.DeleteMember? ==> !PoolIn(s, w.pool, c)
    requires s.next !in s.members
    ensures MembersIn(Apply(s, w), c) == MembersIn(s, c)
  {
    hide PoolIn, HasChildren, Referenced;
  }

  lemma MonitorsTouchOneLoadBalancer(s: CloudState, w: Write, c: Id)
    requires Integrity(s)
    requires c != Owner(s, w)
    ensures MonitorsIn(Apply(s, w), c) == MonitorsIn(s, c)
  {
    hide Status, PoolIn, Integrity, Owner;
    PoolsTouchOneLoadBalancer(s, w, c);
    if w.PostMonitor? || w.DeleteMonitor? || w.DeletePool? {
      OwnedPool(s, w, c);
      MonitorRequest(s, w, c);
    } else {
      MembersOnlyBy(s, w);
    }
  }

  lemma MonitorRequest(s: CloudState, w: Write, c: Id)
    requires w.PostMonitor? || w.DeleteMonitor? || w.DeletePool?
    requires forall p :: PoolIn(Apply(s, w), p, c) <==> PoolIn(s, p, c)
    requires w.DeletePool? ==> !PoolIn(s, w.id, c)
    requires w.PostMonitor? ==> !PoolIn(s, w.pool, c)
    requires w.DeleteMonitor? && w.id in s.monitors ==> !PoolIn(s, s.monitors[w.id].pool, c)
    requires s.next !in s.monitors
    ensures MonitorsIn(Apply(s, w), c) == MonitorsIn(s, c)
  {
    hide PoolIn, HasChildren, Referenced;
  }

  /** The pool a member or monitor request is about does not belong to another load balancer. */
  lemma OwnedPool(s: CloudState, w: Write, c: Id)
    requires Integrity(s)
    requires c != Owner(s, w)
    ensures w.DeletePool? ==> !PoolIn(s, w.id, c)
    ensures w.PostMember? || w.DeleteMember? || w.PostMonitor? ==> !PoolIn(s, w.pool, c)
    ensures w.DeleteMonitor? && w.id in s.monitors ==> !PoolIn(s, s.monitors[w.id].pool, c)
    ensures !PoolIn(s, s.next, c) && s.next !in s.members && s.next !in s.monitors
  {
  }

  /** A request leaves the listeners, pools, members and monitors of other load balancers alone. */
  lemma RequestTouchesOneLoadBalancer(s: CloudState, w: Write, c: Id)
    requires Integrity(s)
    requires c != Owner(s, w)
    ensures ViewOf(Apply(s, w), c) == ViewOf(s, c)
  {
    ListenersTouchOneLoadBalancer(s, w, c);
    PoolsTouchOneLoadBalancer(s, w, c);
    MembersTouchOneLoadBalancer(s, w, c);
    MonitorsTouchOneLoadBalancer(s, w, c);
  }

  /** ... and changes at most the members of the pool it names. */
  lemma RequestTouchesOnePool(s: CloudState, w: Write, q: Id)
    requires Integrity(s)
    requires w.DeletePool? ==> w.id != q
    requires w.PostMember? ==> w.pool != q
    requires w.DeleteMember? ==> w.pool != q
    ensures MembersOf(Apply(s, w), q) == MembersOf(s, q)
  {
  }
}
