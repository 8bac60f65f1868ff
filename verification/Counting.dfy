// How many members a pool has for an address, for any list of nodes and any pool: what one clean
// reconcile makes of the number, and where repeated ones lead.
module Counting {
  import opened Cloud
  import opened Discipline
  import opened Goal
  import opened Members
  import opened Deletion

  /** How many nodes have this first internal IP; nodes without one do not count. */
  ghost function NodeCount(nodes: seq<Node>, a: string): nat
  {
    if nodes == [] then 0
    else NodeCount(nodes[..|nodes| - 1], a) + if NodeIP(nodes[|nodes| - 1]) == a != "" then 1 else 0
  }

  ghost function WithAddress(found: map<Id, Member>, a: string): set<Id>
  {
    set m | m in found && found[m].address == a
  }

  ghost function MemberCount(found: map<Id, Member>, a: string): nat
  {
    |WithAddress(found, a)|
  }

  /** Members for an address after a clean reconcile: of those there were, one is taken over by a
      node or deleted, and every other node gets a new one. */
  function Balanced(have: nat, nodes: nat): nat
  {
    nodes + if have > 0 then have - 1 else 0
  }

  /** How many members AddMissing adds for an address. */
  ghost function Posts(indexed: set<string>, nodes: seq<Node>, a: string): nat
  {
    var n := NodeCount(nodes, a);
    if a in indexed && n > 0 then n - 1 else n
  }

  /*** Requests ***/

  /** The members AddMissing asks for, node by node: those without an address and the first node of an
      indexed address are passed over. */
  ghost function Additions(indexed: set<string>, nodes: seq<Node>, pool: Id, port: int): seq<Write>
  {
    if nodes == [] then []
    else
      var init, ip := nodes[..|nodes| - 1], NodeIP(nodes[|nodes| - 1]);
      Additions(indexed, init, pool, port) +
      if ip != "" && ip !in indexed - WantedIPs(init) then [PostMember(pool, ip, port)] else []
  }

  /** What a reconcile of a pool with these members asks for, whatever becomes of the requests: all
      additions, then one deletion for each address nobody wants. */
  ghost predicate Asked(log: seq<Entry>, from: nat, found: map<Id, Member>, pool: Id, nodes: seq<Node>, port: int)
  {
    var addresses := set m | m in found :: found[m].address;
    var additions := Additions(addresses, nodes, pool, port);
    && |log| == from + |additions| + |addresses - WantedIPs(nodes)|
    && (forall i | from <= i < from + |additions| :: log[i].request == additions[i - from])
    && forall a | a in addresses && a !in WantedIPs(nodes) ::
         exists m | m in found && found[m].address == a :: Sent(log, from + |additions|, Write.DeleteMember(pool, m))
  }

  lemma NoAdditions(indexed: set<string>, nodes: seq<Node>, pool: Id, port: int)
    ensures Additions(indexed, nodes[..0], pool, port) == []
    ensures Additions(indexed, nodes[..|nodes|], pool, port) == Additions(indexed, nodes, pool, port)
  {
    assert nodes[..|nodes|] == nodes;
  }

  lemma OneAdditionMore(indexed: set<string>, nodes: seq<Node>, pool: Id, port: int, i: nat)
    requires i < |nodes|
    ensures var ip, before := NodeIP(nodes[i]), Additions(indexed, nodes[..i], pool, port);
      Additions(indexed, nodes[..i + 1], pool, port) ==
      if ip != "" && ip !in indexed - WantedIPs(nodes[..i]) then before + [PostMember(pool, ip, port)] else before
  {
    assert nodes[..i + 1][..i] == nodes[..i];
  }

  /** Of the additions, each is for an address some node has, and an address gets as many as it has
      nodes, less one if it was indexed. */
  lemma {:induction false} AdditionsCount(indexed: set<string>, nodes: seq<Node>, pool: Id, port: int, a: string)
    ensures multiset(Additions(indexed, nodes, pool, port))[PostMember(pool, a, port)] == Posts(indexed, nodes, a)
    ensures forall w | w in Additions(indexed, nodes, pool, port) ::
              w.PostMember? && w.address in WantedIPs(nodes) && w == PostMember(pool, w.address, port)
  {
    if nodes == [] {
    } else {
      var n := |nodes| - 1;
      AdditionsCount(indexed, nodes[..n], pool, port, a);
      PostsStep(indexed, nodes, n, a);
      WantedIPsAppend(nodes, n);
      assert nodes[..n + 1] == nodes;
    }
  }

  lemma AddedThenRemoved(filled: seq<Entry>, log: seq<Entry>, from: nat, existing: map<string, Id>,
                         found: map<Id, Member>, pool: Id, nodes: seq<Node>, port: int)
    requires filled <= log && Indexes(existing, found)
    requires InTurn(filled, from, Additions(existing.Keys, nodes, pool, port))
    requires var stale := existing - WantedIPs(nodes);
      |log| == |filled| + |stale| &&
      forall a | a in stale :: Sent(log, |filled|, Write.DeleteMember(pool, stale[a]))
    ensures Asked(log, from, found, pool, nodes, port)
  {
    hide WantedIPs, Sent, Additions;
    var addresses := set m | m in found :: found[m].address;
    assert existing.Keys == addresses;
    var stale := existing - WantedIPs(nodes);
    assert stale.Keys == addresses - WantedIPs(nodes);
    KeysCount(stale);
    assert forall i | 0 <= i < |filled| :: log[i] == filled[i];
    forall a | a in addresses && a !in WantedIPs(nodes)
      ensures exists m | m in found && found[m].address == a :: Sent(log, |filled|, Write.DeleteMember(pool, m))
    {
      assert existing[a] in found && stale[a] == existing[a];
    }
  }

  lemma BlindHasWanted(s: CloudState, t: CloudState, pool: Id, nodes: seq<Node>)
    ensures AllAdded(MembersOf(s, pool), MembersOf(t, pool), nodes) ==> WantedIPs(nodes) <= Addresses(t, pool)
  {
    hide WantedIPs, MembersOf;
    if AllAdded(MembersOf(s, pool), MembersOf(t, pool), nodes) {
      forall a | a in WantedIPs(nodes) ensures a in Addresses(t, pool) {
        CountedIsWanted(nodes, a);
        assert MemberCount(MembersOf(t, pool), a) > 0;
        var m :| m in WithAddress(MembersOf(t, pool), a);
      }
    }
  }

  /** The members of the index that are not in `rest` have been deleted, one request each. */
  ghost predicate Removing(log: seq<Entry>, from: nat, pool: Id, index: map<string, Id>, rest: map<string, Id>)
  {
    && |log| + |rest| == from + |index| && from <= |log| && rest.Keys <= index.Keys
    && (forall a | a in rest :: rest[a] == index[a])
    && (forall i | from <= i < |log| :: log[i].request.DeleteMember?)
    && forall a | a in index && a !in rest :: Sent(log, from, Write.DeleteMember(pool, index[a]))
  }

  lemma NoneRemoved(log: seq<Entry>, pool: Id, index: map<string, Id>)
    ensures Removing(log, |log|, pool, index, index)
  {
  }

  lemma OneRemoved(log: seq<Entry>, from: nat, pool: Id, index: map<string, Id>, rest: map<string, Id>, a: string,
                   e: Entry)
    requires a in rest && e.request == Write.DeleteMember(pool, rest[a])
    ensures Removing(log, from, pool, index, rest) ==> Removing(log + [e], from, pool, index, rest - {a})
  {
    hide Sent;
    if Removing(log, from, pool, index, rest) {
      OneSent(log, e);
      SentThen(log, log + [e], from);
      assert |rest - {a}| == |rest| - 1;
    }
  }

  lemma AllRemoved(log: seq<Entry>, from: nat, pool: Id, index: map<string, Id>, rest: map<string, Id>)
    requires Removing(log, from, pool, index, rest) && rest == map[]
    ensures |log| == from + |index| && forall i | from <= i < |log| :: log[i].request.DeleteMember?
    ensures forall a | a in index :: Sent(log, from, Write.DeleteMember(pool, index[a]))
  {
  }

  lemma OnlyMembersAsked(filled: seq<Entry>, log: seq<Entry>, from: nat, indexed: set<string>, nodes: seq<Node>,
                         pool: Id, port: int)
    requires filled <= log && InTurn(filled, from, Additions(indexed, nodes, pool, port))
    requires forall i | |filled| <= i < |log| :: log[i].request.DeleteMember?
    ensures MembersOnly(log, from)
  {
    hide Additions;
    AdditionsCount(indexed, nodes, pool, port, "");
    forall i | from <= i < |log| ensures log[i].request.PostMember? || log[i].request.DeleteMember? {
      if i < |filled| {
        var additions := Additions(indexed, nodes, pool, port);
        assert log[i] == filled[i] && filled[i].request == additions[i - from] && additions[i - from] in additions;
      }
    }
  }

  lemma {:induction false} KeysCount(index: map<string, Id>)
    ensures |index| == |index.Keys|
  {
    if index == map[] {
    } else {
      var a :| a in index;
      KeysCount(index - {a});
      assert index.Keys == (index - {a}).Keys + {a};
    }
  }

  lemma OneNodeMore(nodes: seq<Node>, i: nat, a: string)
    requires i < |nodes|
    ensures NodeCount(nodes[..i + 1], a) == NodeCount(nodes[..i], a) + if NodeIP(nodes[i]) == a != "" then 1 else 0
  {
    assert nodes[..i + 1][..i] == nodes[..i];
  }

  lemma {:induction false} CountedIsWanted(nodes: seq<Node>, a: string)
    ensures NodeCount(nodes, a) > 0 <==> a in WantedIPs(nodes)
  {
    if nodes == [] {
      assert WantedIPs(nodes) == {};
    } else {
      var i := |nodes| - 1;
      CountedIsWanted(nodes[..i], a);
      WantedIPsAppend(nodes, i);
      assert nodes[..i + 1] == nodes;
    }
  }

  /** One round of the loop: the node takes over the indexed member, or a member is added. */
  lemma PostsStep(indexed: set<string>, nodes: seq<Node>, i: nat, a: string)
    requires i < |nodes|
    ensures Posts(indexed, nodes[..i + 1], a) == Posts(indexed, nodes[..i], a) +
            if NodeIP(nodes[i]) == a != "" && a !in indexed - WantedIPs(nodes[..i]) then 1 else 0
  {
    OneNodeMore(nodes, i, a);
    CountedIsWanted(nodes[..i], a);
  }

  lemma CountAdded(s: CloudState, t: CloudState, pool: Id, address: string, port: int, a: string)
    requires MemberAdded(s, t, pool, address, port)
    ensures MemberCount(MembersOf(t, pool), a) == MemberCount(MembersOf(s, pool), a) + if a == address then 1 else 0
  {
    hide MembersOf, Addresses;
    var before, after := WithAddress(MembersOf(s, pool), a), WithAddress(MembersOf(t, pool), a);
    if a == address {
      assert after == before + {s.next};
    } else {
      assert after == before;
    }
  }

  /** Deleting the stale part of the index takes one member from each stale address. */
  lemma CountThinned(before: map<Id, Member>, after: map<Id, Member>, stale: map<string, Id>, a: string)
    requires forall b :: b in stale ==> stale[b] in before && before[stale[b]].address == b
    requires after == before - stale.Values
    ensures MemberCount(after, a) == MemberCount(before, a) - if a in stale then 1 else 0
  {
    if a in stale {
      assert WithAddress(after, a) == WithAddress(before, a) - {stale[a]};
    } else {
      assert WithAddress(after, a) == WithAddress(before, a);
    }
  }

  /** Adding and deleting together balance every address. */
  lemma CountBalanced(first: map<Id, Member>, filled: map<Id, Member>, last: map<Id, Member>,
                      index: map<string, Id>, nodes: seq<Node>, a: string)
    requires Indexes(index, first) && Extended(first, filled)
    requires MemberCount(filled, a) == MemberCount(first, a) + Posts(index.Keys, nodes, a)
    requires last == filled - (index - WantedIPs(nodes)).Values
    ensures MemberCount(last, a) == Balanced(MemberCount(first, a), NodeCount(nodes, a))
  {
    CountThinned(filled, last, index - WantedIPs(nodes), a);
    CountedIsWanted(nodes, a);
    if a in index {
      assert index[a] in WithAddress(first, a);
    } else {
      assert WithAddress(first, a) == {};
    }
  }

  lemma LastNode(nodes: seq<Node>)
    requires nodes != []
    ensures var i := |nodes| - 1;
      DistinctIPs(nodes) <==>
        DistinctIPs(nodes[..i]) &&
        (NodeIP(nodes[i]) != "" ==> NodeIP(nodes[i]) !in WantedIPs(nodes[..i]))
  {
    hide NodeIP;
    var i := |nodes| - 1;
    var init, ip := nodes[..i], NodeIP(nodes[i]);
    if DistinctIPs(nodes) {
      forall j, k | 0 <= j < k < i && NodeIP(init[j]) != "" ensures NodeIP(init[j]) != NodeIP(init[k]) {
        assert init[j] == nodes[j] && init[k] == nodes[k];
      }
    } else {
      var j, k :| 0 <= j < k < |nodes| && NodeIP(nodes[j]) != "" && NodeIP(nodes[j]) == NodeIP(nodes[k]);
      assert init[j] == nodes[j] && (k < i ==> init[k] == nodes[k]);
    }
  }

  ghost predicate OneNodeEach(nodes: seq<Node>)
  {
    forall a :: NodeCount(nodes, a) <= 1
  }

  lemma LastNodeCounted(nodes: seq<Node>)
    requires nodes != []
    ensures var i := |nodes| - 1;
      OneNodeEach(nodes) <==>
        OneNodeEach(nodes[..i]) &&
        (NodeIP(nodes[i]) != "" ==> NodeIP(nodes[i]) !in WantedIPs(nodes[..i]))
  {
    hide NodeIP, WantedIPs;
    var i := |nodes| - 1;
    var init, ip := nodes[..i], NodeIP(nodes[i]);
    assert nodes[..i + 1] == nodes;
    CountedIsWanted(init, ip);
    OneNodeMore(nodes, i, ip);
    forall a
      ensures NodeCount(init, a) <= NodeCount(nodes, a) && (a != ip ==> NodeCount(nodes, a) == NodeCount(init, a))
    {
      OneNodeMore(nodes, i, a);
    }
    if OneNodeEach(nodes) {
      forall a ensures NodeCount(init, a) <= 1 {
        assert NodeCount(nodes, a) <= 1;
      }
    }
  }

  lemma {:induction false} AtMostOneEach(nodes: seq<Node>)
    ensures DistinctIPs(nodes) <==> OneNodeEach(nodes)
  {
    hide NodeIP, WantedIPs;
    if nodes == [] {
      assert DistinctIPs(nodes) && OneNodeEach(nodes);
    } else {
      AtMostOneEach(nodes[..|nodes| - 1]);
      LastNode(nodes);
      LastNodeCounted(nodes);
    }
  }

  /** The clean reconcile of EnsureMembers, address by address. */
  ghost predicate AllBalanced(first: map<Id, Member>, last: map<Id, Member>, nodes: seq<Node>)
  {
    forall a :: MemberCount(last, a) == Balanced(MemberCount(first, a), NodeCount(nodes, a))
  }

  /** The clean additions of AddMissing, address by address. */
  ghost predicate AllPosted(first: map<Id, Member>, last: map<Id, Member>, indexed: set<string>, nodes: seq<Node>)
  {
    forall a :: MemberCount(last, a) == MemberCount(first, a) + Posts(indexed, nodes, a)
  }

  lemma NothingPosted(found: map<Id, Member>, indexed: set<string>, nodes: seq<Node>)
    ensures AllPosted(found, found, indexed, nodes[..0])
    ensures nodes[..|nodes|] == nodes
  {
  }

  /** One round of AddMissing: its node takes over an indexed member or gets a new one. */
  lemma PostedMore(first: CloudState, s: CloudState, t: CloudState, pool: Id, port: int,
                   indexed: set<string>, nodes: seq<Node>, i: nat)
    requires i < |nodes|
    ensures var ip := NodeIP(nodes[i]);
      AllPosted(MembersOf(first, pool), MembersOf(s, pool), indexed, nodes[..i]) &&
      (if ip == "" || ip in indexed - WantedIPs(nodes[..i]) then t == s else MemberAdded(s, t, pool, ip, port)) ==>
        AllPosted(MembersOf(first, pool), MembersOf(t, pool), indexed, nodes[..i + 1])
  {
    hide MembersOf, MemberAdded, MemberCount, Posts, WantedIPs, NodeIP;
    var ip, before, after := NodeIP(nodes[i]), MembersOf(first, pool), MembersOf(t, pool);
    if AllPosted(before, MembersOf(s, pool), indexed, nodes[..i]) &&
       (if ip == "" || ip in indexed - WantedIPs(nodes[..i]) then t == s else MemberAdded(s, t, pool, ip, port)) {
      forall a ensures MemberCount(after, a) == MemberCount(before, a) + Posts(indexed, nodes[..i + 1], a) {
        PostsStep(indexed, nodes, i, a);
        if !(ip == "" || ip in indexed - WantedIPs(nodes[..i])) {
          CountAdded(s, t, pool, ip, port, a);
        }
      }
    }
  }

  lemma BalancedWhen(first: map<Id, Member>, filled: map<Id, Member>, last: map<Id, Member>,
                     index: map<string, Id>, nodes: seq<Node>, port: int)
    requires Indexes(index, first) && Filled(first, filled, WantedIPs(nodes), port)
    requires AllPosted(first, filled, index.Keys, nodes)
    requires last == filled - (index - WantedIPs(nodes)).Values
    ensures AllBalanced(first, last, nodes)
  {
    hide Indexes, Extended, MemberCount, Posts, WantedIPs, NodeCount;
    forall a ensures MemberCount(last, a) == Balanced(MemberCount(first, a), NodeCount(nodes, a)) {
      CountBalanced(first, filled, last, index, nodes, a);
    }
  }

  /** After a list request that answered with an error body every node gets another member. */
  lemma BlindWhen(first: map<Id, Member>, filled: map<Id, Member>, last: map<Id, Member>,
                  index: map<string, Id>, nodes: seq<Node>)
    requires index == map[] && AllPosted(first, filled, index.Keys, nodes)
    requires last == filled - (index - WantedIPs(nodes)).Values
    ensures AllAdded(first, last, nodes)
  {
    hide MemberCount;
    assert last == filled;
    forall a ensures MemberCount(last, a) == MemberCount(first, a) + NodeCount(nodes, a) {
      assert Posts({}, nodes, a) == NodeCount(nodes, a);
    }
  }

  /** One more member per node for every address. */
  ghost predicate AllAdded(first: map<Id, Member>, last: map<Id, Member>, nodes: seq<Node>)
  {
    forall a :: MemberCount(last, a) == MemberCount(first, a) + NodeCount(nodes, a)
  }

  lemma CountedOnce(found: map<Id, Member>)
    ensures OnePerAddress(found) <==> forall a :: MemberCount(found, a) <= 1
  {
    if OnePerAddress(found) {
      forall a ensures MemberCount(found, a) <= 1 {
        var ids := WithAddress(found, a);
        if m :| m in ids {
          assert ids == {m};
        }
      }
    } else {
      var m, n :| m in found && n in found && found[m].address == found[n].address && m != n;
      var ids := WithAddress(found, found[m].address);
      assert {m, n} <= ids && ids == {m, n} + (ids - {m, n});
      assert MemberCount(found, found[m].address) > 1;
    }
  }

  /** The members of a pool at the start and after each of several clean reconciles. */
  ghost predicate CleanReconciles(pools: seq<map<Id, Member>>, nodes: seq<Node>)
  {
    pools != [] && forall i | 0 <= i < |pools| - 1 :: AllBalanced(pools[i], pools[i + 1], nodes)
  }

  function Times(n: nat, k: nat): (r: nat)
    ensures r == n * k
  {
    if n == 0 then 0 else Times(n - 1, k) + k
  }

  /** The members for an address after so many clean reconciles, at least one. */
  function AfterRuns(have: nat, wanted: nat, runs: nat): nat
    requires runs > 0
  {
    if wanted == 0 then (if have > runs then have - runs else 0)
    else Balanced(have, wanted) + Times(runs - 1, wanted - 1)
  }

  lemma OneRunMore(have: nat, wanted: nat, runs: nat)
    requires runs > 0
    ensures AfterRuns(have, wanted, 1) == Balanced(have, wanted)
    ensures AfterRuns(have, wanted, runs + 1) == Balanced(AfterRuns(have, wanted, runs), wanted)
  {
    if wanted > 0 {
      assert Times(runs, wanted - 1) == Times(runs - 1, wanted - 1) + (wanted - 1);
      assert Times(0, wanted - 1) == 0;
    }
  }

  /** Where repeated clean reconciles lead.  Members nobody wants go away one per run; a surplus
      over one wanted member stays for good; several nodes with one address add to it each run. */
  lemma {:induction false} RepeatedRuns(pools: seq<map<Id, Member>>, nodes: seq<Node>, a: string)
    requires CleanReconciles(pools, nodes) && |pools| > 1
    ensures var runs := |pools| - 1;
      MemberCount(pools[runs], a) == AfterRuns(MemberCount(pools[0], a), NodeCount(nodes, a), runs)
  {
    hide MemberCount, NodeCount, AfterRuns, Balanced;
    var runs, wanted := |pools| - 1, NodeCount(nodes, a);
    assert AllBalanced(pools[runs - 1], pools[runs], nodes);
    assert MemberCount(pools[runs], a) == Balanced(MemberCount(pools[runs - 1], a), wanted);
    if runs == 1 {
      OneRunMore(MemberCount(pools[0], a), wanted, 1);
    } else {
      var earlier := pools[..runs];
      forall i | 0 <= i < |earlier| - 1 ensures AllBalanced(earlier[i], earlier[i + 1], nodes) {
        assert AllBalanced(pools[i], pools[i + 1], nodes);
      }
      RepeatedRuns(earlier, nodes, a);
      OneRunMore(MemberCount(pools[0], a), wanted, runs - 1);
    }
  }

  /** From a pool with one member per address, a clean reconcile ends with one member per address
      if and only if no two nodes share an IP. */
  lemma UniqueIff(first: map<Id, Member>, last: map<Id, Member>, nodes: seq<Node>)
    requires OnePerAddress(first) && AllBalanced(first, last, nodes)
    ensures OnePerAddress(last) <==> DistinctIPs(nodes)
  {
    hide MemberCount, DistinctIPs, OnePerAddress;
    CountedOnce(first);
    CountedOnce(last);
    AtMostOneEach(nodes);
    forall a ensures MemberCount(last, a) == NodeCount(nodes, a) {
      assert MemberCount(first, a) <= 1;
      assert MemberCount(last, a) == Balanced(MemberCount(first, a), NodeCount(nodes, a));
    }
    if !DistinctIPs(nodes) {
      var a :| NodeCount(nodes, a) > 1;
      assert MemberCount(last, a) > 1;
    } else {
      forall a ensures MemberCount(last, a) <= 1 {
        assert NodeCount(nodes, a) <= 1;
      }
    }
  }

  /** After an error body one member per address is left if and only if there was one per address,
      no two nodes share an IP and no node had a member already. */
  lemma BlindUniqueIff(first: map<Id, Member>, last: map<Id, Member>, nodes: seq<Node>)
    requires AllAdded(first, last, nodes)
    ensures OnePerAddress(last) <==>
            OnePerAddress(first) && DistinctIPs(nodes) && forall m :: m in first ==>
                first[m].address !in WantedIPs(nodes)
  {
    hide DistinctIPs, WantedIPs, OnePerAddress, NodeCount;
    CountedOnce(first);
    CountedOnce(last);
    AtMostOneEach(nodes);
    forall a ensures NodeCount(nodes, a) > 0 <==> a in WantedIPs(nodes) {
      CountedIsWanted(nodes, a);
    }
    forall m | m in first ensures MemberCount(first, first[m].address) > 0 {
      Counted(first, m);
    }
    if OnePerAddress(last) {
      forall a ensures MemberCount(first, a) <= 1 && NodeCount(nodes, a) <= 1 {
        assert MemberCount(last, a) <= 1;
      }
      forall m | m in first ensures first[m].address !in WantedIPs(nodes) {
        assert MemberCount(last, first[m].address) <= 1;
      }
    } else if OnePerAddress(first) && DistinctIPs(nodes) {
      var a :| MemberCount(last, a) > 1;
      assert MemberCount(first, a) <= 1 && NodeCount(nodes, a) <= 1;
      var m :| m in WithAddress(first, a);
      assert first[m].address == a;
    }
  }

  /** On a pool that has exactly the wanted addresses a clean reconcile leaves the store alone only
      if no two nodes share an IP. */
  lemma UnchangedIfSame(s: CloudState, t: CloudState, pool: Id, nodes: seq<Node>)
    requires AllBalanced(MembersOf(s, pool), MembersOf(t, pool), nodes)
    ensures t == s && Addresses(s, pool) == WantedIPs(nodes) ==> DistinctIPs(nodes)
  {
    hide MemberCount, DistinctIPs, WantedIPs, NodeCount, MembersOf;
    var found := MembersOf(s, pool);
    if t == s && Addresses(s, pool) == WantedIPs(nodes) {
      AtMostOneEach(nodes);
      forall a ensures NodeCount(nodes, a) <= 1 {
        CountedIsWanted(nodes, a);
        assert MemberCount(found, a) == Balanced(MemberCount(found, a), NodeCount(nodes, a));
        if a in Addresses(s, pool) {
          var m :| m in found && found[m].address == a;
          Counted(found, m);
        }
      }
    }
  }

  lemma Counted(found: map<Id, Member>, m: Id)
    requires m in found
    ensures MemberCount(found, found[m].address) > 0
  {
    assert m in WithAddress(found, found[m].address);
  }
}
