// Deleting listeners and pools: the stores deletions lead to, and that nothing referenced is
// deleted.
module Deletion {
  import opened Cloud
  import opened Discipline

  /** No request logged from the given position on was refused with 409. */
  ghost predicate Calm(log: seq<Entry>, from: nat)
  {
    forall i | from <= i < |log| :: Status(log[i].before, log[i].request) != 409
  }

  /** No deletion of a listener or pool logged from the given position on went without a reply. */
  ghost predicate Answered(log: seq<Entry>, from: nat)
  {
    forall i | from <= i < |log| && (log[i].request.DeleteListener? || log[i].request.DeletePool?) ::
        !Lost(log[i].fault)
  }

  ghost predicate Bare(s: CloudState, pool: Id)
  {
    MembersOf(s, pool) == map[] && MonitorsOf(s, pool) == map[]
  }

  /** Every pool whose deletion was logged from the given position on was bare by then, so the
      deletion does not rely on the server to remove members and monitors with their pool. */
  ghost predicate Emptied(log: seq<Entry>, from: nat)
  {
    forall i | from <= i < |log| && log[i].request.DeletePool? :: Bare(log[i].before, log[i].request.id)
  }

  /** The request was sent, logged from the given position on. */
  ghost predicate Sent(log: seq<Entry>, from: nat, w: Write)
  {
    exists i | from <= i < |log| :: log[i].request == w
  }

  /** Nothing was sent after a deletion of a listener or pool that went without a reply. */
  ghost predicate Stops(log: seq<Entry>, from: nat)
  {
    forall i | from <= i < |log| - 1 && (log[i].request.DeleteListener? || log[i].request.DeletePool?) ::
        !Lost(log[i].fault)
  }

  /** Requests logged from the given position on delete parts of load balancers. */
  ghost predicate PartsOnly(log: seq<Entry>, from: nat)
  {
    forall i | from <= i < |log| :: var w := log[i].request;
      w.DeleteListener? || w.DeletePool? || w.DeleteMember? || w.DeleteMonitor?
  }

  lemma NothingSentYet(log: seq<Entry>)
    ensures Stops(log, |log|) && PartsOnly(log, |log|) && forall w :: !Sent(log, |log|, w)
  {
  }

  lemma OneSent(log: seq<Entry>, e: Entry)
    ensures Stops(log + [e], |log|) && forall w :: Sent(log + [e], |log|, w) <==> w == e.request
  {
    hide Lost;
    assert (log + [e])[|log|] == e;
  }

  /** From the given position on, the log holds exactly these requests, in turn. */
  ghost predicate InTurn(log: seq<Entry>, from: nat, ws: seq<Write>)
  {
    |log| == from + |ws| && forall i | from <= i < |log| :: log[i].request == ws[i - from]
  }

  lemma NoneInTurn(log: seq<Entry>)
    ensures InTurn(log, |log|, [])
  {
  }

  lemma NextInTurn(log: seq<Entry>, from: nat, ws: seq<Write>, e: Entry)
    ensures InTurn(log, from, ws) ==> InTurn(log + [e], from, ws + [e.request])
  {
  }

  lemma AllInTurn(log: seq<Entry>, from: nat, ws: seq<Write>)
    requires InTurn(log, from, ws)
    ensures forall i | from <= i < |log| :: log[i].request in ws
    ensures forall w | w in ws :: Sent(log, from, w)
  {
    forall w | w in ws ensures Sent(log, from, w) {
      var i :| 0 <= i < |ws| && ws[i] == w;
      assert log[from + i].request == w;
    }
  }

  lemma MemberDeletionsOnly(log: seq<Entry>, from: nat)
    requires forall i | from <= i < |log| :: log[i].request.DeleteMember?
    ensures Answered(log, from) && Emptied(log, from)
  {
  }

  lemma AnsweredBefore(earlier: seq<Entry>, log: seq<Entry>, from: nat)
    requires Answered(earlier, from) && earlier <= log && |log| <= |earlier| + 1
    ensures Stops(log, from)
  {
  }

  lemma LastSent(log: seq<Entry>, from: nat)
    requires from < |log|
    ensures Sent(log, from, log[|log| - 1].request)
  {
  }

  lemma SentThen(earlier: seq<Entry>, log: seq<Entry>, from: nat)
    requires from <= |earlier| && earlier <= log
    ensures forall w :: Sent(log, from, w) <==> Sent(earlier, from, w) || Sent(log, |earlier|, w)
    ensures Answered(earlier, from) && Stops(log, |earlier|) ==> Stops(log, from)
    ensures log == earlier && Stops(earlier, from) ==> Stops(log, from)
    ensures PartsOnly(log, from) <==> PartsOnly(earlier, from) && PartsOnly(log, |earlier|)
  {
    hide Lost;
    assert forall i | 0 <= i < |earlier| :: earlier[i] == log[i];
  }

  /** A listener creation logged from the given position on was carried out. */
  ghost predicate ListenerCreated(log: seq<Entry>, from: nat)
  {
    exists i | from <= i < |log| :: log[i].request.PostListener? && CarriedOut(log[i].fault)
  }

  /** Requests logged from the given position on are about members. */
  ghost predicate MembersOnly(log: seq<Entry>, from: nat)
  {
    forall i | from <= i < |log| :: log[i].request.PostMember? || log[i].request.DeleteMember?
  }

  /*** Failures that end a call ***/

  /** The creation is not acknowledged, and the call it belongs to gives up. */
  ghost predicate Fatal(e: Entry)
  {
    match e.request
    case PostLoadBalancer(_, _) => e.fault != NoFault
    case PostPool(_, _, _) => e.fault != NoFault
    case PostListener(_, _, _, _, _) => !Honest(e.fault)
    case _ => false
  }

  ghost predicate NoneFatal(log: seq<Entry>, from: nat)
  {
    forall i | from <= i < |log| :: !Fatal(log[i])
  }

  /** Nothing was sent after a creation that was not acknowledged. */
  ghost predicate FatalLast(log: seq<Entry>, from: nat)
  {
    forall i | from <= i < |log| - 1 :: !Fatal(log[i])
  }

  lemma LoadBalancerIsFatal(e: Entry)
    requires e.request.PostLoadBalancer?
    ensures Fatal(e) <==> e.fault != NoFault
  {
  }

  lemma PoolIsFatal(e: Entry)
    requires e.request.PostPool?
    ensures Fatal(e) <==> e.fault != NoFault
  {
  }

  lemma NothingFatal(log: seq<Entry>)
    ensures NoneFatal(log, |log|) && FatalLast(log, |log|)
  {
  }

  lemma OneFatal(log: seq<Entry>, e: Entry)
    ensures NoneFatal(log + [e], |log|) <==> !Fatal(e)
    ensures FatalLast(log + [e], |log|)
  {
    hide Fatal;
    assert (log + [e])[|log|] == e;
  }

  lemma FatalThen(earlier: seq<Entry>, log: seq<Entry>, from: nat)
    requires from <= |earlier| && earlier <= log
    ensures NoneFatal(log, from) <==> NoneFatal(earlier, from) && NoneFatal(log, |earlier|)
    ensures NoneFatal(earlier, from) && FatalLast(log, |earlier|) ==> FatalLast(log, from)
    ensures log == earlier && FatalLast(earlier, from) ==> FatalLast(log, from)
  {
    hide Fatal;
    assert forall i | 0 <= i < |earlier| :: earlier[i] == log[i];
  }

  lemma HarmlessThroughout(log: seq<Entry>, from: nat)
    requires NoneFatal(log, from)
    ensures FatalLast(log, from)
  {
  }

  lemma PartsAreHarmless(log: seq<Entry>, from: nat)
    requires PartsOnly(log, from)
    ensures NoneFatal(log, from) && FatalLast(log, from)
  {
  }

  lemma MembersAreHarmless(log: seq<Entry>, from: nat)
    requires MembersOnly(log, from)
    ensures NoneFatal(log, from) && FatalLast(log, from) && !ListenerCreated(log, from)
  {
  }

  lemma NoListenerLogged(log: seq<Entry>)
    ensures !ListenerCreated(log, |log|) && MembersOnly(log, |log|)
  {
  }

  lemma ListenerLogged(log: seq<Entry>, e: Entry)
    ensures ListenerCreated(log + [e], |log|) <==> e.request.PostListener? && CarriedOut(e.fault)
  {
    hide CarriedOut;
    assert (log + [e])[|log|] == e;
  }

  /** At most the creation of a listener was sent. */
  lemma ListenerStepLogged(log: seq<Entry>, after: seq<Entry>, e: Entry)
    requires e.request.PostListener? && (after == log || after == log + [e])
    ensures ListenerCreated(after, |log|) <==> after != log && CarriedOut(e.fault)
    ensures NoneFatal(after, |log|) <==> after == log || Honest(e.fault)
    ensures FatalLast(after, |log|)
  {
    hide CarriedOut, Honest;
    NoListenerLogged(log);
    ListenerLogged(log, e);
    NothingFatal(log);
    OneFatal(log, e);
  }

  /** Then at most the creation of a monitor, whose failure is ignored. */
  lemma MonitorStepLogged(log: seq<Entry>, middle: seq<Entry>, after: seq<Entry>, e: Entry)
    requires log <= middle && e.request.PostMonitor? && (after == middle || after == middle + [e])
    requires NoneFatal(middle, |log|)
    ensures ListenerCreated(after, |log|) <==> ListenerCreated(middle, |log|)
    ensures NoneFatal(after, |log|) && FatalLast(after, |log|)
    ensures after != middle ==> after != [] && after[|after| - 1] == e
  {
    hide CarriedOut, Honest;
    NoListenerLogged(middle);
    ListenerLogged(middle, e);
    NothingFatal(middle);
    OneFatal(middle, e);
    ListenerLoggedThen(middle, after, |log|);
    FatalThen(middle, after, |log|);
  }

  lemma ListenerLoggedThen(earlier: seq<Entry>, log: seq<Entry>, from: nat)
    requires from <= |earlier| && earlier <= log
    ensures ListenerCreated(log, from) <==> ListenerCreated(earlier, from) || ListenerCreated(log, |earlier|)
  {
    hide CarriedOut;
    assert forall i | 0 <= i < |earlier| :: earlier[i] == log[i];
  }

  lemma NothingLogged(log: seq<Entry>)
    ensures Calm(log, |log|) && Answered(log, |log|) && Emptied(log, |log|)
  {
  }

  lemma OneLogged(log: seq<Entry>, e: Entry)
    ensures Calm(log + [e], |log|) <==> Status(e.before, e.request) != 409
    ensures Answered(log + [e], |log|) <==> (e.request.DeleteListener? || e.request.DeletePool? ==> !Lost(e.fault))
    ensures Emptied(log + [e], |log|) <==> (e.request.DeletePool? ==> Bare(e.before, e.request.id))
  {
    hide Status, Bare, Lost;
    assert (log + [e])[|log|] == e;
  }

  lemma LoggedThen(earlier: seq<Entry>, log: seq<Entry>, from: nat)
    requires from <= |earlier| && earlier <= log
    ensures Calm(log, from) <==> Calm(earlier, from) && Calm(log, |earlier|)
    ensures Answered(log, from) <==> Answered(earlier, from) && Answered(log, |earlier|)
    ensures Emptied(log, from) <==> Emptied(earlier, from) && Emptied(log, |earlier|)
  {
    hide Status, Bare, Lost;
    assert forall i | 0 <= i < |earlier| :: earlier[i] == log[i];
  }

  ghost function DropListeners(s: CloudState, ids: set<Id>): CloudState
  {
    s.(listeners := s.listeners - ids)
  }

  lemma DropListenersTwice(s: CloudState, a: set<Id>, b: set<Id>)
    ensures DropListeners(DropListeners(s, a), b) == DropListeners(s, a + b)
  {
  }

  lemma DropNoListeners(s: CloudState)
    ensures DropListeners(s, {}) == s
    ensures forall ids :: DropListeners(s, ids) == s.(listeners := DropListeners(s, ids).listeners)
  {
  }

  lemma StillListed(s: CloudState, lb: Id, gone: set<Id>, l: Id)
    requires l in ListenersOf(s, lb) && l !in gone
    ensures var t := DropListeners(s, gone);
            l in t.listeners && t.listeners[l].lb == lb
  {
  }

  lemma ListenerDeleted(s: CloudState, id: Id, f: Fault)
    ensures var w := Write.DeleteListener(id);
      var t := Deliver(s, w, f);
      && (t == s || t == DropListeners(s, {id}))
      && (id !in s.listeners ==> t == s)
      && (id in t.listeners <==> id in s.listeners && !CarriedOut(f))
      && (f == NoFault ==> t == DropListeners(s, {id}))
      && (Answer(s, w, f).Reply? <==> !Lost(f))
      && Status(s, w) != 409
  {
    if id !in s.listeners {
      assert s.listeners - {id} == s.listeners;
    }
  }

  /** t is s with some members and monitors of the pool gone. */
  ghost predicate Trimmed(s: CloudState, t: CloudState, pool: Id)
  {
    && t == s.(members := t.members, monitors := t.monitors)
    && (forall m :: m in t.members ==> m in s.members && t.members[m] == s.members[m])
    && (forall m :: m in s.members && s.members[m].pool != pool ==> m in t.members)
    && (forall h :: h in t.monitors ==> h in s.monitors && t.monitors[h] == s.monitors[h])
    && (forall h :: h in s.monitors && s.monitors[h].pool != pool ==> h in t.monitors)
  }

  lemma TrimmedBase(s: CloudState, pool: Id)
    ensures Trimmed(s, s, pool)
  {
  }

  lemma TrimmedSame(s: CloudState, t: CloudState, pool: Id)
    requires Trimmed(s, t, pool)
    ensures t.pools == s.pools
    ensures OwnerOfPool(t, pool) == OwnerOfPool(s, pool)
    ensures Referenced(t, pool) <==> Referenced(s, pool)
  {
  }

  lemma TrimmedAbsent(s: CloudState, t: CloudState, pool: Id)
    requires ReferencesResolve(s) && pool !in s.pools && Trimmed(s, t, pool)
    ensures t == s && DropPool(s, pool) == s
  {
    assert t.members == s.members && t.monitors == s.monitors;
    assert DropPool(s, pool).members == s.members && DropPool(s, pool).monitors == s.monitors;
  }

  lemma TrimmedThen(s: CloudState, t: CloudState, u: CloudState, pool: Id)
    requires Trimmed(s, t, pool)
    ensures Trimmed(t, u, pool) ==> Trimmed(s, u, pool)
    ensures DropPool(t, pool) == DropPool(s, pool)
  {
    assert DropPool(t, pool).members == DropPool(s, pool).members;
    assert DropPool(t, pool).monitors == DropPool(s, pool).monitors;
  }

  lemma MemberTrimmed(first: CloudState, s: CloudState, pool: Id, id: Id, f: Fault)
    ensures var w := Write.DeleteMember(pool, id);
      && (Trimmed(first, s, pool) ==> Trimmed(first, Deliver(s, w, f), pool))
      && Deliver(s, w, f).pools == s.pools && Deliver(s, w, f).monitors == s.monitors && Status(s, w) != 409
      && (forall m :: m in MembersOf(Deliver(s, w, f), pool) ==> m in MembersOf(s, pool))
      && (f == NoFault ==> id !in MembersOf(Deliver(s, w, f), pool))
  {
  }

  lemma MonitorTrimmed(s: CloudState, pool: Id, id: Id, f: Fault)
    requires id in MonitorsOf(s, pool)
    ensures var w := DeleteMonitor(id);
      Trimmed(s, Deliver(s, w, f), pool) && Status(s, w) != 409 && Owner(s, w) == OwnerOfPool(s, pool)
      && (f == NoFault && OneMonitorOf(s, pool) ==> MonitorsOf(Deliver(s, w, f), pool) == map[])
  {
  }

  lemma SameMembersTrimmed(s: CloudState, pool: Id, id: Id, f: Fault)
    ensures MembersOf(Deliver(s, DeleteMonitor(id), f), pool) == MembersOf(s, pool)
  {
  }

  lemma ListenerIsPart(log: seq<Entry>, e: Entry)
    requires e.request.DeleteListener?
    ensures PartsOnly(log + [e], |log|)
  {
  }

  lemma ListenersAreParts(log: seq<Entry>, from: nat)
    requires forall i | from <= i < |log| :: log[i].request.DeleteListener?
    ensures PartsOnly(log, from)
  {
  }

  lemma SamePools(s: CloudState, t: CloudState, lb: Id)
    requires t.pools == s.pools
    ensures PoolsOf(t, lb) == PoolsOf(s, lb)
  {
  }

  lemma OnlyPartsStop(log: seq<Entry>, from: nat)
    requires forall i | from <= i < |log| - 1 :: log[i].request.DeleteMember? || log[i].request.DeleteMonitor?
    requires from < |log| && log[|log| - 1].request.DeletePool?
    ensures Stops(log, from) && PartsOnly(log, from)
  {
  }

  lemma OneMonitorThere(s: CloudState, lb: Id, pool: Id)
    ensures OneMonitor(s, lb) && PoolIn(s, pool, lb) ==> OneMonitorOf(s, pool)
  {
  }

  lemma MonitorsShrink(s: CloudState, t: CloudState, pool: Id, lb: Id)
    requires Trimmed(s, t, pool) || t == DropPool(s, pool)
    ensures OneMonitor(s, lb) ==> OneMonitor(t, lb)
  {
    if OneMonitor(s, lb) {
      forall p | PoolIn(t, p, lb) ensures OneMonitorOf(t, p) {
        assert PoolIn(s, p, lb) && OneMonitorOf(s, p);
      }
    }
  }

  lemma SameMonitors(s: CloudState, t: CloudState, lb: Id)
    requires t.pools == s.pools && t.monitors == s.monitors
    ensures OneMonitor(s, lb) ==> OneMonitor(t, lb)
  {
    if OneMonitor(s, lb) {
      forall p | PoolIn(t, p, lb) ensures OneMonitorOf(t, p) {
        assert PoolIn(s, p, lb) && OneMonitorOf(s, p);
      }
    }
  }

  lemma MonitorIdentified(s: CloudState, pool: Id, id: Id)
    requires Integrity(s) && id in MonitorsOf(s, pool)
    ensures id != NO_ID
  {
  }

  lemma PoolDropped(s: CloudState, id: Id)
    ensures id !in DropPool(s, id).pools
  {
  }

  lemma PoolDeleted(first: CloudState, s: CloudState, id: Id, f: Fault)
    requires Integrity(first) && Trimmed(first, s, id)
    ensures var w := Write.DeletePool(id);
      var t := Deliver(s, w, f);
      && (Trimmed(first, t, id) || t == DropPool(first, id))
      && (Answer(s, w, f).Reply? <==> !Lost(f))
      && (f == NoFault && !Referenced(first, id) ==> t == DropPool(first, id))
      && (!Referenced(first, id) ==> Status(s, w) != 409)
      && (!Referenced(first, id) ==> (id in t.pools <==> id in first.pools && !CarriedOut(f)))
      && OwnerOfPool(s, id) == OwnerOfPool(first, id)
      && (id !in first.pools ==> t == first)
  {
    hide Trimmed, DropPool, Referenced;
    assert id !in DropPool(first, id).pools by { PoolDropped(first, id); }
    TrimmedSame(first, s, id);
    TrimmedThen(first, s, s, id);
    if id !in first.pools {
      TrimmedAbsent(first, s, id);
    }
  }

  ghost function DropPools(s: CloudState, ids: set<Id>): CloudState
  {
    s.(pools := s.pools - ids,
       members := map m | m in s.members && s.members[m].pool !in ids :: s.members[m],
       monitors := map h | h in s.monitors && s.monitors[h].pool !in ids :: s.monitors[h])
  }

  lemma DropNoPools(s: CloudState)
    ensures DropPools(s, {}) == s
  {
    assert DropPools(s, {}).members == s.members;
    assert DropPools(s, {}).monitors == s.monitors;
  }

  lemma PoolStillListed(s: CloudState, t: CloudState, lb: Id, gone: set<Id>, pool: Id)
    requires Integrity(s) && t.listeners == s.listeners && t.pools == DropPools(s, gone).pools
    requires pool in PoolsOf(s, lb) && pool !in gone
    ensures OwnerOfPool(t, pool) == lb && PoolIn(t, pool, lb)
    ensures ListenersOf(s, lb) == map[] ==> !Referenced(t, pool)
  {
    if Referenced(t, pool) {
      var l :| l in t.listeners && t.listeners[l].pool == pool;
      assert l in ListenersOf(s, lb);
    }
  }

  lemma DropOnePool(s: CloudState, t: CloudState, u: CloudState, gone: set<Id>, pool: Id)
    requires t.pools == DropPools(s, gone).pools
    requires Trimmed(t, u, pool) || u == DropPool(t, pool)
    ensures u.listeners == t.listeners
    ensures u == DropPool(t, pool) ==> u.pools == DropPools(s, gone + {pool}).pools
    ensures u != DropPool(t, pool) ==> u.pools == t.pools
    ensures t == DropPools(s, gone) ==> DropPool(t, pool) == DropPools(s, gone + {pool})
  {
    assert u == DropPool(t, pool) ==> u.pools == t.pools - {pool} == DropPools(s, gone + {pool}).pools;
    if t == DropPools(s, gone) {
      assert DropPool(t, pool).pools == DropPools(s, gone + {pool}).pools;
      assert DropPool(t, pool).members == DropPools(s, gone + {pool}).members;
      assert DropPool(t, pool).monitors == DropPools(s, gone + {pool}).monitors;
      assert DropPool(t, pool) == t.(pools := DropPool(t, pool).pools, members := DropPool(t, pool).members,
          monitors := DropPool(t, pool).monitors);
    }
  }
}
