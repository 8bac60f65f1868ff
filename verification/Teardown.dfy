// Taking a load balancer down: which elastic IPs are released and what is left.
module Teardown {
  import opened Cloud
  import opened Text
  import opened Naming
  import opened Discipline
  import opened Goal
  import opened Requests
  import opened Members
  import opened Deletion
  import opened Retry
  import opened Convergence
  import opened ServicePorts
  import opened Synchronisation

  /*** Elastic IPs ***/

  /** The non-empty identifiers, in order. */
  ghost function NonEmpty(ids: seq<Id>): seq<Id>
  {
    if ids == [] then []
    else NonEmpty(ids[..|ids| - 1]) + if ids[|ids| - 1] != NO_ID then [ids[|ids| - 1]] else []
  }

  ghost function NonEmptyNotIn(ids: seq<Id>, others: seq<Id>): seq<Id>
  {
    if ids == [] then []
    else NonEmptyNotIn(ids[..|ids| - 1], others) +
         if ids[|ids| - 1] != NO_ID && ids[|ids| - 1] !in others then [ids[|ids| - 1]] else []
  }

  ghost function ReleaseOrder(eips: seq<Id>, publicIps: seq<Id>): seq<Id>
  {
    NonEmpty(eips) + NonEmptyNotIn(publicIps, eips)
  }

  /** From the given position on, the log holds exactly the releases of these identifiers. */
  ghost predicate Requested(log: seq<Entry>, from: nat, ids: seq<Id>)
  {
    |log| == from + |ids| && forall i | 0 <= i < |ids| :: log[from + i].request == ReleaseEip(ids[i])
  }

  ghost predicate Released(s: CloudState, t: CloudState, ids: seq<Id>, certain: bool)
  {
    && (forall e :: e in t.eips ==> e in s.eips && t.eips[e] == s.eips[e])
    && (forall e :: e in s.eips && e !in ids ==> e in t.eips)
    && (certain ==> forall e :: e in ids ==> e !in t.eips)
  }

  lemma ReleaseNothing(s: CloudState, log: seq<Entry>, certain: bool)
    ensures Calm(log, |log|) && Emptied(log, |log|) && Requested(log, |log|, NonEmpty([])) &&
              Released(s, s, NonEmpty([]), certain)
  {
  }

  ghost predicate SoleEip(s: CloudState, port: Id)
  {
    forall e, f | e in s.eips && f in s.eips :: s.eips[e] == port && s.eips[f] == port ==> e == f
  }

  /*** Teardown ***/

  /** No load balancer but this one changes, goes or loses anything. */
  ghost predicate OnlyChanges(s: CloudState, t: CloudState, lb: Id)
  {
    OnlyTouches(s, t, lb) && RecordsStay(s, t) && forall c :: c in s.lbs && c != lb ==> c in t.lbs
  }

  lemma ChangesNothing(s: CloudState, lb: Id)
    ensures OnlyChanges(s, s, lb)
  {
  }

  lemma ChangesNoMore(s: CloudState, t: CloudState, u: CloudState, lb: Id)
    requires OnlyChanges(s, t, lb)
    requires u == t.(eips := u.eips) || (lb in t.lbs && u == DropLoadBalancer(t, lb)) ||
             (OnlyTouches(t, u, lb) && u.lbs == t.lbs && t.next <= u.next)
    ensures OnlyChanges(s, u, lb)
    ensures u.lbs == t.lbs || u.lbs == t.lbs - {lb}
  {
    hide ViewOf;
    if u.listeners == t.listeners && u.pools == t.pools && u.members == t.members && u.monitors == t.monitors {
      SamePartsSameView(t, u);
    }
  }

  lemma OthersAreUntouched(s: CloudState, t: CloudState, lb: Id, name: string)
    requires Integrity(s) && OnlyChanges(s, t, lb) && IsNamed(s, lb, name)
    ensures OthersUntouched(s, t, name) && RecordsStay(s, t)
  {
    hide ViewOf;
  }

  lemma OthersStayUntouched(s: CloudState, t: CloudState, u: CloudState, lb: Id, name: string)
    requires OthersUntouched(s, t, name) && RecordsStay(s, t) && IsNamed(t, lb, name)
    requires OnlyTouches(t, u, lb) && u.lbs == t.lbs && t.next <= u.next
    ensures OthersUntouched(s, u, name) && RecordsStay(s, u)
  {
    hide ViewOf;
  }

  lemma NothingIsUntouched(s: CloudState, name: string)
    ensures OthersUntouched(s, s, name) && RecordsStay(s, s)
  {
  }

  lemma SamePartsSameView(s: CloudState, t: CloudState)
    requires t.listeners == s.listeners && t.pools == s.pools && t.members == s.members && t.monitors == s.monitors
    ensures forall c :: ViewOf(t, c) == ViewOf(s, c)
  {
    forall c ensures ViewOf(t, c) == ViewOf(s, c) {
      assert MembersIn(t, c) == MembersIn(s, c) && MonitorsIn(t, c) == MonitorsIn(s, c);
    }
  }

  lemma ListenersGone(s: CloudState, lb: Id)
    ensures ListenersOf(DropListeners(s, ListenersOf(s, lb).Keys), lb) == map[]
  {
  }

  lemma PoolsGone(s: CloudState, lb: Id)
    requires ListenersOf(s, lb) == map[]
    ensures var t := DropPools(s, PoolsOf(s, lb).Keys);
      ListenersOf(t, lb) == map[] && PoolsOf(t, lb) == map[] && !HasChildren(t, lb)
  {
    var t := DropPools(s, PoolsOf(s, lb).Keys);
    assert forall l :: l in t.listeners && t.listeners[l].lb == lb ==> l in ListenersOf(s, lb);
    assert forall p :: p in t.pools && t.pools[p].lb == lb ==> p in PoolsOf(s, lb);
  }

  /** Of all load balancers exactly this one is gone, with everything that belongs to it. */
  ghost predicate Erased(s: CloudState, t: CloudState, lb: Id)
  {
    t.lbs == s.lbs - {lb} && ViewOf(t, lb) == View(map[], map[], map[], map[])
  }

  /** The server keeps nothing below a load balancer that is gone. */
  lemma NothingUnder(s: CloudState, t: CloudState, lb: Id)
    requires Integrity(t)
    requires t.lbs == s.lbs || t.lbs == s.lbs - {lb}
    ensures lb !in t.lbs ==> Erased(s, t, lb)
  {
  }

  /** At most the elastic IPs bound to the port are gone; `certain` when nothing failed. */
  ghost predicate BoundEipReleased(s: CloudState, t: CloudState, port: Id, certain: bool)
  {
    && t == s.(eips := t.eips)
    && (forall e :: e in t.eips ==> e in s.eips && t.eips[e] == s.eips[e])
    && (forall e :: e in s.eips && (s.eips[e] != port || port == NO_ID) ==> e in t.eips)
    && (certain && port != NO_ID && SoleEip(s, port) ==> EipsOn(t, port) == map[])
  }

  /** What is left of the lookups after that of the elastic IP, which is skipped without a VIP port. */
  function AfterVip(port: Id, lookupFaults: seq<Fault>): seq<Fault>
  {
    if port == NO_ID then lookupFaults else Rest(lookupFaults)
  }

  /** Only the first request may be a release: of an elastic IP bound to the VIP port, when there is
      one and its lookup succeeds. */
  ghost predicate VipReleaseFirst(log: seq<Entry>, from: nat, s: CloudState, port: Id, lookup: Fault)
  {
    && (forall i | from <= i < |log| && log[i].request.ReleaseEip? ::
          i == from && port != NO_ID && lookup == NoFault && log[i].request.id in EipsOn(s, port))
    && (port != NO_ID && lookup == NoFault && EipsOn(s, port) != map[] ==>
          from < |log| && log[from].request.ReleaseEip?)
  }

  /** An elastic IP goes only if its release was requested. */
  ghost predicate GoneOnRequest(s: CloudState, t: CloudState, log: seq<Entry>, from: nat)
  {
    forall e | e in s.eips && e !in t.eips :: Sent(log, from, ReleaseEip(e))
  }

  /** The deletion of the load balancer is the last request, and its reply says that nothing is left. */
  ghost predicate EndsConfirmed(log: seq<Entry>, from: nat, lb: Id)
  {
    from < |log| && log[|log| - 1].request == Write.DeleteLoadBalancer(lb) && Acknowledged(log[|log| - 1])
  }

  /** At most one elastic IP is gone, bound to the VIP port, and none when its lookup failed. */
  ghost predicate OnlyVipReleased(s: CloudState, t: CloudState, port: Id, lookup: Fault)
  {
    && (forall e | e in s.eips && e !in t.eips :: port != NO_ID && lookup == NoFault && s.eips[e] == port)
    && (forall e, f | e in s.eips && f in s.eips && e !in t.eips && f !in t.eips :: e == f)
  }

  lemma VipReleasedOnly(s: CloudState, t: CloudState, log: seq<Entry>, from: nat, port: Id, lookup: Fault)
    requires VipReleaseFirst(log, from, s, port, lookup) && GoneOnRequest(s, t, log, from)
    ensures OnlyVipReleased(s, t, port, lookup)
  {
    forall e | e in s.eips && e !in t.eips
      ensures port != NO_ID && lookup == NoFault && s.eips[e] == port && from < |log| &&
                log[from].request == ReleaseEip(e)
    {
      assert Sent(log, from, ReleaseEip(e));
    }
  }

  /** At most one request, for such a release. */
  ghost predicate VipStep(s: CloudState, t: CloudState, before: seq<Entry>, log: seq<Entry>, port: Id, lookup: Fault)
  {
    && before <= log && |log| <= |before| + 1 && (forall i | |before| <= i < |log| :: log[i].request.ReleaseEip?)
    && VipReleaseFirst(log, |before|, s, port, lookup) && GoneOnRequest(s, t, log, |before|)
  }

  lemma VipReleased(s: CloudState, log: seq<Entry>, port: Id, lookup: Fault, id: Id, f: Fault)
    requires port != NO_ID && lookup == NoFault && id in EipsOn(s, port)
    ensures var e := EntryFor(s, ReleaseEip(id), f);
      VipStep(s, e.after, log, log + [e], port, lookup)
  {
    var e := EntryFor(s, ReleaseEip(id), f);
    assert (log + [e])[|log|] == e;
  }

  lemma NothingReleased(s: CloudState, log: seq<Entry>, port: Id, lookup: Fault)
    ensures !(port != NO_ID && lookup == NoFault && EipsOn(s, port) != map[]) ==> VipStep(s, s, log, log, port, lookup)
  {
  }

  lemma PartsAreNotWhole(log: seq<Entry>, from: nat, lb: Id)
    requires PartsOnly(log, from)
    ensures !Sent(log, from, Write.DeleteLoadBalancer(lb)) && !EndsConfirmed(log, from, lb)
    ensures forall i | from <= i < |log| :: !log[i].request.ReleaseEip?
  {
    hide Acknowledged;
  }

  /** Deleting the load balancer after its parts. */
  lemma WholeAfterParts(parts: seq<Entry>, log: seq<Entry>, from: nat, lb: Id)
    requires from <= |parts| && parts < log && Answered(parts, from) && PartsOnly(parts, from)
    requires forall i | |parts| <= i < |log| :: log[i].request == Write.DeleteLoadBalancer(lb)
    ensures Stops(log, from) && Answered(log, from)
    ensures Sent(log, from, Write.DeleteLoadBalancer(lb))
    ensures EndsConfirmed(log, from, lb) <==> Acknowledged(log[|log| - 1])
    ensures forall i | from <= i < |log| :: !log[i].request.ReleaseEip?
  {
    hide Lost, Acknowledged;
    assert forall i | 0 <= i < |parts| :: parts[i] == log[i];
    SentThen(parts, log, from);
    LastSent(log, from);
  }

  /** What comes after the first release. */
  lemma WholeAfterVip(s: CloudState, t: CloudState, middle: CloudState, u: CloudState, before: seq<Entry>,
                      l1: seq<Entry>, log: seq<Entry>, port: Id, lookup: Fault, lb: Id)
    requires l1 <= log && VipStep(s, t, before, l1, port, lookup)
    requires Stops(log, |l1|) && forall i | |l1| <= i < |log| :: !log[i].request.ReleaseEip?
    requires middle.eips == t.eips && (u == middle || (lb in middle.lbs && u == DropLoadBalancer(middle, lb)))
    ensures var from := |before|;
            VipReleaseFirst(log, from, s, port, lookup) && GoneOnRequest(s, u, log, from)
    ensures Stops(log, |before|) && (Answered(log, |before|) <==> Answered(log, |l1|))
    ensures Sent(log, |before|, Write.DeleteLoadBalancer(lb)) <==> Sent(log, |l1|, Write.DeleteLoadBalancer(lb))
    ensures EndsConfirmed(log, |before|, lb) <==> EndsConfirmed(log, |l1|, lb)
  {
    hide Lost, Acknowledged;
    assert forall i | 0 <= i < |l1| :: l1[i] == log[i];
    SentThen(l1, log, |before|);
  }

  lemma SettledThroughout(s0: CloudState, s1: CloudState, s2: CloudState, t: CloudState, lb: Id, certain: bool)
    requires lb in s0.lbs && BoundEipReleased(s0, s1, s0.lbs[lb].vipPort, certain)
    requires OnlyTouches(s1, s2, lb) && s1.next <= s2.next && s2.lbs == s1.lbs && s2.eips == s1.eips
    requires t == s2 || t == DropLoadBalancer(s2, lb)
    ensures EipsSettled(s0, t, lb) && OnlyChanges(s0, t, lb)
    ensures t.lbs == s0.lbs || t.lbs == s0.lbs - {lb}
  {
    hide BoundEipReleased, EipsSettled, OnlyChanges, OnlyTouches, DropLoadBalancer;
    EipsOnly(s0, s1, s0.lbs[lb].vipPort, certain);
    EipsSettleFirst(s0, s1, lb, certain);
    ChangesNothing(s0, lb);
    ChangesNoMore(s0, s0, s1, lb);
    EipsSettleSame(s0, s1, s2, lb);
    ChangesNoMore(s0, s1, s2, lb);
    EipsSettleDropped(s0, s2, t, lb);
    if t != s2 {
      ChangesNoMore(s0, s2, t, lb);
    }
  }

  lemma ConfirmedWasSent(log: seq<Entry>, from: nat, lb: Id)
    requires EndsConfirmed(log, from, lb)
    ensures Sent(log, from, Write.DeleteLoadBalancer(lb))
  {
    hide Acknowledged;
  }

  /** Releases at the end change nothing about the deletions before them. */
  lemma ReleasesOnly(earlier: seq<Entry>, log: seq<Entry>, from: nat, ids: seq<Id>)
    requires from <= |earlier| && earlier <= log && Requested(log, |earlier|, ids)
    ensures Answered(log, from) <==> Answered(earlier, from)
    ensures Answered(earlier, from) ==> Stops(log, from)
    ensures forall lb :: Sent(log, from, Write.DeleteLoadBalancer(lb)) <==>
              Sent(earlier, from, Write.DeleteLoadBalancer(lb))
  {
    hide Lost;
    assert forall i | 0 <= i < |earlier| :: log[i] == earlier[i];
    assert forall i | |earlier| <= i < |log| :: log[i].request == ReleaseEip(ids[i - |earlier|]);
    SentThen(earlier, log, from);
    LoggedThen(earlier, log, from);
  }

  /** Elastic IPs neither listed in the details nor bound to the VIP port are there as before; one
      that is left keeps its binding, except that the VIP port is gone with the load balancer. */
  ghost predicate EipsSettled(s: CloudState, t: CloudState, lb: Id)
    requires lb in s.lbs
  {
    var details := s.lbs[lb];
    && (forall e :: e in t.eips ==>
          e in s.eips && (t.eips[e] == s.eips[e] || (s.eips[e] == details.vipPort && t.eips[e] == NO_ID)))
    && (forall e | e in s.eips && e !in details.eips && e !in details.publicIps ::
          s.eips[e] != details.vipPort || details.vipPort == NO_ID ==> e in t.eips)
  }

  lemma EipsOnly(s: CloudState, t: CloudState, port: Id, certain: bool)
    requires BoundEipReleased(s, t, port, certain)
    ensures t == s.(eips := t.eips)
  {
  }

  lemma EipsSettleFirst(s: CloudState, t: CloudState, lb: Id, certain: bool)
    requires lb in s.lbs && BoundEipReleased(s, t, s.lbs[lb].vipPort, certain)
    ensures EipsSettled(s, t, lb)
  {
  }

  lemma EipsSettleSame(s: CloudState, t: CloudState, u: CloudState, lb: Id)
    requires lb in s.lbs && EipsSettled(s, t, lb) && u.eips == t.eips
    ensures EipsSettled(s, u, lb)
  {
  }

  lemma EipsSettleDropped(s: CloudState, t: CloudState, u: CloudState, lb: Id)
    requires lb in s.lbs && EipsSettled(s, t, lb)
    requires u == t || (lb in t.lbs && t.lbs[lb] == s.lbs[lb] && u == DropLoadBalancer(t, lb))
    ensures EipsSettled(s, u, lb)
  {
  }

  /** Nothing is bound to the VIP port any more, and what alone was bound to it is gone. */
  ghost predicate VipUnbound(s: CloudState, t: CloudState, lb: Id)
    requires lb in s.lbs
  {
    var port := s.lbs[lb].vipPort;
    forall e :: e in t.eips && e in s.eips && s.eips[e] == port ==>
      t.eips[e] == NO_ID && (port != NO_ID ==> !SoleEip(s, port))
  }

  lemma VipUnboundByDrop(s: CloudState, s1: CloudState, t: CloudState, lb: Id)
    requires lb in s.lbs && BoundEipReleased(s, s1, s.lbs[lb].vipPort, true)
    requires lb in t.lbs && t.lbs[lb] == s.lbs[lb] && t.eips == s1.eips
    ensures VipUnbound(s, DropLoadBalancer(t, lb), lb)
  {
    hide SoleEip;
    var port := s.lbs[lb].vipPort;
    forall e | e in t.eips && s.eips[e] == port && port != NO_ID ensures !SoleEip(s, port) {
      assert e in EipsOn(s1, port);
    }
  }

  lemma Listed(lb: LoadBalancer, e: Id)
    ensures e in ReleaseOrder(lb.eips, lb.publicIps) <==> e != NO_ID && (e in lb.eips || e in lb.publicIps)
  {
    ReleasesTheUnion(lb.eips, lb.publicIps, e);
  }

  lemma EipsSettleReleased(s: CloudState, t: CloudState, u: CloudState, lb: Id, certain: bool)
    requires lb in s.lbs && Integrity(s) && EipsSettled(s, t, lb)
    requires Released(t, u, ReleaseOrder(s.lbs[lb].eips, s.lbs[lb].publicIps), certain)
    ensures EipsSettled(s, u, lb)
    ensures VipUnbound(s, t, lb) ==> VipUnbound(s, u, lb)
    ensures certain ==> forall e :: e in u.eips ==> e !in s.lbs[lb].eips && e !in s.lbs[lb].publicIps
  {
    hide ReleaseOrder, SoleEip, ReferencesResolve;
    forall e ensures e in ReleaseOrder(s.lbs[lb].eips, s.lbs[lb].publicIps) <==>
      e != NO_ID && (e in s.lbs[lb].eips || e in s.lbs[lb].publicIps)
    {
      Listed(s.lbs[lb], e);
    }
  }

  /** The last requests of the call are exactly these releases. */
  ghost predicate EndsWithReleases(log: seq<Entry>, from: nat, ids: seq<Id>)
  {
    exists k: nat :: from <= k && Requested(log, k, ids)
  }

  lemma ReleasesAreLast(log: seq<Entry>, from: nat, k: nat, ids: seq<Id>)
    requires from <= k && Requested(log, k, ids)
    ensures EndsWithReleases(log, from, ids)
  {
  }

  lemma LoadBalancerIdentified(s: CloudState, lb: Id)
    requires Integrity(s) && lb in s.lbs
    ensures lb != NO_ID
  {
  }

  /** Nothing of the load balancer is left: no children, no record, no listed elastic IP; the other
      elastic IPs are as before. */
  ghost predicate TornDown(s: CloudState, t: CloudState, lb: Id)
    requires lb in s.lbs
  {
    var details := s.lbs[lb];
    && Erased(s, t, lb)
    && EipsSettled(s, t, lb)
    && VipUnbound(s, t, lb)
    && forall e :: e in t.eips ==> e !in details.eips && e !in details.publicIps
  }

  lemma {:induction false} NonEmptyMembers(ids: seq<Id>, e: Id)
    ensures e in NonEmpty(ids) <==> e in ids && e != NO_ID
  {
    if ids == [] {
    } else {
      NonEmptyMembers(ids[..|ids| - 1], e);
      assert ids == ids[..|ids| - 1] + [ids[|ids| - 1]];
    }
  }

  lemma {:induction false} NonEmptyNotInMembers(ids: seq<Id>, others: seq<Id>, e: Id)
    ensures e in NonEmptyNotIn(ids, others) <==> e in ids && e != NO_ID && e !in others
  {
    if ids == [] {
    } else {
      NonEmptyNotInMembers(ids[..|ids| - 1], others, e);
      assert ids == ids[..|ids| - 1] + [ids[|ids| - 1]];
    }
  }

  /** What is released after the deletion is exactly the union of the non-empty listed identifiers. */
  lemma ReleasesTheUnion(eips: seq<Id>, publicIps: seq<Id>, e: Id)
    ensures e in ReleaseOrder(eips, publicIps) <==> e != NO_ID && (e in eips || e in publicIps)
  {
    NonEmptyMembers(eips, e);
    NonEmptyNotInMembers(publicIps, eips, e);
  }

  lemma AppendKeepsDistinct(ids: seq<Id>, x: Id)
    ensures NoRepeats(ids) && x !in ids ==> NoRepeats(ids + [x])
    ensures ids + [] == ids
  {
  }

  lemma {:induction false} FilterKeepsDistinct(ids: seq<Id>, others: seq<Id>)
    requires NoRepeats(ids)
    ensures NoRepeats(NonEmpty(ids)) && NoRepeats(NonEmptyNotIn(ids, others))
  {
    if ids == [] {
    } else {
      var init, last := ids[..|ids| - 1], ids[|ids| - 1];
      FilterKeepsDistinct(init, others);
      assert last !in init;
      AppendKeepsDistinct(NonEmpty(init), last);
      AppendKeepsDistinct(NonEmptyNotIn(init, others), last);
      NonEmptyMembers(init, last);
      NonEmptyNotInMembers(init, others, last);
    }
  }

  /** Lists without empty identifiers or common ones are released one after the other, as they are. */
  lemma ReleasesInOrder(eips: seq<Id>, publicIps: seq<Id>)
    requires forall i | 0 <= i < |eips| :: eips[i] != NO_ID
    requires forall i | 0 <= i < |publicIps| :: publicIps[i] != NO_ID && publicIps[i] !in eips
    ensures ReleaseOrder(eips, publicIps) == eips + publicIps
  {
    AllKept(eips);
    AllKeptBeside(publicIps, eips);
  }

  lemma {:induction false} AllKept(ids: seq<Id>)
    requires forall i | 0 <= i < |ids| :: ids[i] != NO_ID
    ensures NonEmpty(ids) == ids
  {
    if ids == [] {
    } else {
      AllKept(ids[..|ids| - 1]);
      assert ids == ids[..|ids| - 1] + [ids[|ids| - 1]];
    }
  }

  lemma {:induction false} AllKeptBeside(ids: seq<Id>, others: seq<Id>)
    requires forall i | 0 <= i < |ids| :: ids[i] != NO_ID && ids[i] !in others
    ensures NonEmptyNotIn(ids, others) == ids
  {
    if ids == [] {
    } else {
      AllKeptBeside(ids[..|ids| - 1], others);
      assert ids == ids[..|ids| - 1] + [ids[|ids| - 1]];
    }
  }

  /** Each identifier is released once when neither list repeats one. */
  lemma ReleasesOnce(eips: seq<Id>, publicIps: seq<Id>)
    requires NoRepeats(eips) && NoRepeats(publicIps)
    ensures NoRepeats(ReleaseOrder(eips, publicIps))
  {
    FilterKeepsDistinct(eips, []);
    FilterKeepsDistinct(publicIps, eips);
    var a, b := NonEmpty(eips), NonEmptyNotIn(publicIps, eips);
    forall i, j | 0 <= i < |a| && 0 <= j < |b| ensures a[i] != b[j] {
      NonEmptyMembers(eips, a[i]);
      NonEmptyNotInMembers(publicIps, eips, b[j]);
    }
  }
}
