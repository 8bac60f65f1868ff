// Retrying the deletion of a load balancer with exponential back-off.
module Retry {
  import opened Cloud
  import opened Naming
  import opened Discipline
  import opened Deletion

  const MAX_RETRIES := 5

  datatype DeleteOutcome = Deleted | RequestFailed | Refused(status: nat) | Cancelled

  function FaultAt(script: seq<Fault>, k: nat): Fault
  {
    if k < |script| then script[k] else NoFault
  }

  function After(script: seq<Fault>, k: nat): seq<Fault>
  {
    if k < |script| then script[k..] else []
  }

  lemma AfterNext(script: seq<Fault>, k: nat)
    ensures Next(After(script, k)) == FaultAt(script, k)
    ensures Rest(After(script, k)) == After(script, k + 1)
    ensures After(script, 0) == script
    ensures script == [] ==> After(script, k) == []
  {
  }

  /** Every request that meets one of these faults gets a reply. */
  ghost predicate NoLost(script: seq<Fault>)
  {
    forall f :: f in script ==> !Lost(f)
  }

  /** The first n requests that meet these faults get a reply. */
  ghost predicate Replied(script: seq<Fault>, n: nat)
  {
    forall k | 0 <= k < n :: !Lost(FaultAt(script, k))
  }

  lemma RepliedOnce(script: seq<Fault>, i: nat)
    ensures Replied(script, 0)
    ensures Replied(script, i + 1) <==> Replied(script, i) && !Lost(FaultAt(script, i))
  {
  }

  lemma LostFrom(script: seq<Fault>, i: nat, n: nat)
    requires i < n
    ensures Replied(script, i) && Lost(FaultAt(script, i)) ==> !Replied(script, n)
    ensures Replied(script, i) ==> forall k: nat | Lost(FaultAt(script, k)) :: k >= i
    ensures Replied(script, n) ==> !Lost(FaultAt(script, i))
  {
  }

  lemma HeardThroughout(script: seq<Fault>)
    ensures NoLost(script) ==> forall n: nat :: Replied(script, n)
    ensures NoLost([])
  {
    forall k: nat | k < |script| ensures script[k] in script {
    }
  }

  lemma HeardAt(script: seq<Fault>, k: nat)
    ensures NoLost(script) ==> !Lost(FaultAt(script, k))
    ensures script == [] ==> NoLost(script) && FaultAt(script, k) == NoFault
    ensures NoLost(script) ==> NoLost(Rest(script))
  {
    assert k < |script| ==> script[k] in script;
    assert forall f :: f in Rest(script) ==> f in script;
  }

  predicate Gone(r: Response)
  {
    r.Reply? && (r.status == 204 || r.status == 404)
  }

  /** The reply to the logged request has this status. */
  ghost predicate Says(e: Entry, status: nat)
  {
    var reply := Answer(e.before, e.request, e.fault);
    reply.Reply? && reply.status == status
  }

  /** The reply to the logged deletion says that there is nothing left to delete. */
  ghost predicate Acknowledged(e: Entry)
  {
    Says(e, 204) || Says(e, 404)
  }

  predicate Conflicted(r: Response)
  {
    r.Reply? && r.status == 409
  }

  /** The answer to deletion attempt k, when all earlier ones changed nothing. */
  function DeletionAnswer(s: CloudState, id: Id, script: seq<Fault>, k: nat): Response
  {
    Answer(s, Write.DeleteLoadBalancer(id), FaultAt(script, k))
  }

  /** Attempt k, one of six and not cancelled, sees 204 or 404 after only conflicts. */
  predicate SucceedsAt(s: CloudState, id: Id, script: seq<Fault>, patience: nat, k: nat)
  {
    k <= MAX_RETRIES && k <= patience && Gone(DeletionAnswer(s, id, script, k)) &&
    forall j | 0 <= j < k :: Conflicted(DeletionAnswer(s, id, script, j))
  }

  /** Attempt k ends the loop without success, so no attempt succeeds. */
  lemma FailsAt(s: CloudState, id: Id, script: seq<Fault>, patience: nat, k: nat)
    requires forall j | 0 <= j < k :: Conflicted(DeletionAnswer(s, id, script, j))
    requires !Gone(DeletionAnswer(s, id, script, k))
    requires Conflicted(DeletionAnswer(s, id, script, k)) ==> k >= MAX_RETRIES || k >= patience
    ensures !exists j: nat :: SucceedsAt(s, id, script, patience, j)
  {
    forall j: nat ensures !SucceedsAt(s, id, script, patience, j) {
      if j < k {
        assert Conflicted(DeletionAnswer(s, id, script, j));
      }
    }
  }

  lemma BackoffBound(k: nat)
    requires k <= MAX_RETRIES
    ensures Pow(2, k + 1) == Pow(2, k) + Pow(2, k) && Pow(2, k) - 1 <= 31
    ensures Pow(2, 0) == 1
  {
    assert Pow(2, 0) == 1;
    assert Pow(2, 1) == 2;
    assert Pow(2, 2) == 4;
    assert Pow(2, 3) == 8;
    assert Pow(2, 4) == 16;
    assert Pow(2, 5) == 32;
  }

  lemma DeletionAnswered(s: CloudState, id: Id, f: Fault, log: seq<Entry>)
    requires Integrity(s)
    ensures var w := Write.DeleteLoadBalancer(id);
      var r, t := Answer(s, w, f), Deliver(s, w, f);
      && Guard(s, w)
      && (t == s || (id in s.lbs && t == DropLoadBalancer(s, id)))
      && (Conflicted(r) ==> t == s)
      && (f == NoFault && id in s.lbs && !HasChildren(s, id) ==>
            Gone(r) && t == DropLoadBalancer(s, id) && Calm(log + [EntryFor(s, w, f)], |log|))
      && (Gone(r) && f != Rejected(404) ==> id !in t.lbs)
      && Emptied(log + [EntryFor(s, w, f)], |log|)
  {
    OneLogged(log, EntryFor(s, Write.DeleteLoadBalancer(id), f));
  }

  /** Attempt k is sent 2^k - 1 seconds after the first.  When conflicts clear at some time within
      31 seconds and nothing else goes wrong, the deletion succeeds. */
  lemma ConflictsThatClearAreSurvived(s: CloudState, id: Id, script: seq<Fault>, patience: nat, clear: int)
    requires clear <= 31 && patience >= MAX_RETRIES
    requires forall k | 0 <= k <= MAX_RETRIES :: Pow(2, k) - 1 < clear ==> Conflicted(DeletionAnswer(s, id, script, k))
    requires forall k | 0 <= k <= MAX_RETRIES :: Pow(2, k) - 1 >= clear ==> Gone(DeletionAnswer(s, id, script, k))
    ensures exists k: nat :: SucceedsAt(s, id, script, patience, k)
  {
    BackoffBound(5);
    assert Pow(2, 1) == 2 && Pow(2, 2) == 4 && Pow(2, 3) == 8 && Pow(2, 4) == 16;
    var k := if clear <= 0 then 0 else if clear <= 1 then 1 else if clear <= 3 then 2
             else if clear <= 7 then 3 else if clear <= 15 then 4 else 5;
    assert SucceedsAt(s, id, script, patience, k);
  }
}
