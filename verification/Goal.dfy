// What a reconcile is for: the addresses a pool should have, the distance of a pool from them,
// and when a service port is fully served.
module Goal {
  import opened Cloud
  import opened Naming
  import opened Discipline

  /*** Nodes ***/

  datatype AddressKind = InternalIP | ExternalIP | Hostname
  datatype NodeAddress = NodeAddress(kind: AddressKind, address: string)
  datatype Node = Node(name: string, addresses: seq<NodeAddress>)

  /** The first internal IP in the list, or "". */
  function FirstInternal(addresses: seq<NodeAddress>): string
  {
    if addresses == [] then ""
    else if addresses[0].kind.InternalIP? then addresses[0].address
    else FirstInternal(addresses[1..])
  }

  /** An address wanted of some node: the first one listed as internal, if it is not empty. */
  lemma WantedMeans(nodes: seq<Node>, ip: string)
    ensures ip in WantedIPs(nodes) <==>
            ip != "" && exists n, i | 0 <= n < |nodes| && 0 <= i < |nodes[n].addresses| ::
                          && nodes[n].addresses[i] == NodeAddress(InternalIP, ip)
                          && forall j | 0 <= j < i :: nodes[n].addresses[j].kind != InternalIP
  {
    hide FirstInternal;
    if ip in WantedIPs(nodes) {
      var n :| 0 <= n < |nodes| && NodeIP(nodes[n]) != "" && NodeIP(nodes[n]) == ip;
      FirstInternalIs(nodes[n].addresses);
    }
    if n, i :| && 0 <= n < |nodes| && 0 <= i < |nodes[n].addresses|
               && nodes[n].addresses[i] == NodeAddress(InternalIP, ip)
               && (forall j | 0 <= j < i :: nodes[n].addresses[j].kind != InternalIP) {
      FirstInternalIs(nodes[n].addresses);
      assert NodeIP(nodes[n]) == ip;
    }
  }

  lemma {:induction false} FirstInternalIs(addresses: seq<NodeAddress>)
    ensures FirstInternal(addresses) != "" ==>
              exists i | 0 <= i < |addresses| :: addresses[i].kind == InternalIP &&
                forall j | 0 <= j < i :: addresses[j].kind != InternalIP
    ensures forall i | 0 <= i < |addresses| ::
              addresses[i].kind == InternalIP && (forall j | 0 <= j < i :: addresses[j].kind != InternalIP) ==>
                FirstInternal(addresses) == addresses[i].address
    ensures (forall i | 0 <= i < |addresses| :: addresses[i].kind != InternalIP) ==> FirstInternal(addresses) == ""
  {
    if addresses == [] {
    } else {
      var rest := addresses[1..];
      FirstInternalIs(rest);
      if addresses[0].kind != InternalIP {
        forall i | 0 <= i < |addresses| && addresses[i].kind == InternalIP &&
                   (forall j | 0 <= j < i :: addresses[j].kind != InternalIP)
          ensures FirstInternal(addresses) == addresses[i].address
        {
          assert rest[i - 1] == addresses[i];
          assert forall j | 0 <= j < i - 1 :: rest[j] == addresses[j + 1];
        }
        if FirstInternal(rest) != "" {
          var i :| 0 <= i < |rest| && rest[i].kind == InternalIP && forall j | 0 <= j < i :: rest[j].kind != InternalIP;
          assert addresses[i + 1] == rest[i];
          assert forall j | 0 < j < i + 1 :: addresses[j] == rest[j - 1];
        }
      }
    }
  }

  function NodeIP(node: Node): string
  {
    FirstInternal(node.addresses)
  }

  ghost function WantedIPs(nodes: seq<Node>): set<string>
  {
    set i | 0 <= i < |nodes| && NodeIP(nodes[i]) != "" :: NodeIP(nodes[i])
  }

  ghost predicate DistinctIPs(nodes: seq<Node>)
  {
    forall i, j | 0 <= i < j < |nodes| && NodeIP(nodes[i]) != "" :: NodeIP(nodes[i]) != NodeIP(nodes[j])
  }

  lemma WantedIPsAppend(nodes: seq<Node>, i: nat)
    requires i < |nodes|
    ensures WantedIPs(nodes[..i + 1]) ==
            WantedIPs(nodes[..i]) + if NodeIP(nodes[i]) == "" then {} else {NodeIP(nodes[i])}
    ensures DistinctIPs(nodes) && NodeIP(nodes[i]) != "" ==> NodeIP(nodes[i]) !in WantedIPs(nodes[..i])
    ensures NodeIP(nodes[i]) != "" ==> NodeIP(nodes[i]) in WantedIPs(nodes)
  {
    var a, b := nodes[..i], nodes[..i + 1];
    forall ip | ip in WantedIPs(b) ensures ip in WantedIPs(a) || ip == NodeIP(nodes[i]) {
      var j :| 0 <= j < |b| && NodeIP(b[j]) != "" && NodeIP(b[j]) == ip;
      assert j < i ==> a[j] == b[j];
    }
    forall ip | ip in WantedIPs(a) ensures ip in WantedIPs(b) {
      var j :| 0 <= j < |a| && NodeIP(a[j]) != "" && NodeIP(a[j]) == ip;
      assert b[j] == a[j];
    }
    assert b[i] == nodes[i];
  }

  /*** The distance of a pool from the wanted addresses ***/

  ghost function StaleMembers(s: CloudState, pool: Id, wanted: set<string>): set<Id>
  {
    var found := MembersOf(s, pool);
    set m | m in found && found[m].address !in wanted
  }

  /** Wanted addresses without a member plus members nobody wants. */
  ghost function Gap(s: CloudState, pool: Id, wanted: set<string>): nat
  {
    |wanted - Addresses(s, pool)| + |StaleMembers(s, pool, wanted)|
  }

  lemma MembersAfterPost(s: CloudState, pool: Id, address: string, port: int)
    requires Integrity(s) && pool in s.pools
    ensures var t := Apply(s, PostMember(pool, address, port));
            MembersOf(t, pool) == MembersOf(s, pool)[s.next := Member(pool, address, port)] &&
            s.next !in MembersOf(s, pool) &&
            Addresses(t, pool) == Addresses(s, pool) + {address}
  {
    var t := Apply(s, PostMember(pool, address, port));
    var a, b := MembersOf(s, pool), MembersOf(t, pool);
    assert b == a[s.next := Member(pool, address, port)];
    assert b[s.next].address == address;
    forall x | x in Addresses(s, pool) ensures x in Addresses(t, pool) {
      var m :| m in a && a[m].address == x;
      assert m in b && b[m].address == x;
    }
  }

  lemma MembersAfterDelete(s: CloudState, pool: Id, id: Id)
    requires id in MembersOf(s, pool)
    ensures MembersOf(Apply(s, DeleteMember(pool, id)), pool) == MembersOf(s, pool) - {id}
  {
  }

  /** Adding a wanted address that has no member closes the gap by one. */
  lemma AddingClosesGap(s: CloudState, pool: Id, wanted: set<string>, address: string, port: int)
    requires Integrity(s) && pool in s.pools
    requires address in wanted && address !in Addresses(s, pool)
    ensures Gap(Apply(s, PostMember(pool, address, port)), pool, wanted) + 1 == Gap(s, pool, wanted)
  {
    var t := Apply(s, PostMember(pool, address, port));
    MembersAfterPost(s, pool, address, port);
    assert wanted - Addresses(t, pool) == (wanted - Addresses(s, pool)) - {address};
    assert StaleMembers(t, pool, wanted) == StaleMembers(s, pool, wanted);
  }

  /** Another member for a wanted address that has one leaves the gap as it is. */
  lemma DoublingKeepsGap(s: CloudState, pool: Id, wanted: set<string>, address: string, port: int)
    requires Integrity(s) && pool in s.pools
    requires address in wanted && address in Addresses(s, pool)
    ensures Gap(Apply(s, PostMember(pool, address, port)), pool, wanted) == Gap(s, pool, wanted)
  {
    var t := Apply(s, PostMember(pool, address, port));
    MembersAfterPost(s, pool, address, port);
    assert Addresses(t, pool) == Addresses(s, pool);
    assert StaleMembers(t, pool, wanted) == StaleMembers(s, pool, wanted);
  }

  /** Deleting a member nobody wants closes the gap by one. */
  lemma DeletingClosesGap(s: CloudState, pool: Id, wanted: set<string>, id: Id)
    requires id in StaleMembers(s, pool, wanted)
    ensures Gap(Apply(s, DeleteMember(pool, id)), pool, wanted) + 1 == Gap(s, pool, wanted)
  {
    var t := Apply(s, DeleteMember(pool, id));
    MembersAfterDelete(s, pool, id);
    var a, b := MembersOf(s, pool), MembersOf(t, pool);
    assert StaleMembers(t, pool, wanted) == StaleMembers(s, pool, wanted) - {id};
    forall x | x in wanted ensures x in Addresses(s, pool) <==> x in Addresses(t, pool) {
      if x in Addresses(s, pool) {
        var m :| m in a && a[m].address == x;
        assert m in b && b[m].address == x;
      }
    }
    assert wanted - Addresses(t, pool) == wanted - Addresses(s, pool);
  }

  /** With one member per address the gap is the size of the symmetric difference. */
  lemma GapIsSymmetricDifference(s: CloudState, pool: Id, wanted: set<string>)
    requires OnePerAddress(MembersOf(s, pool))
    ensures var have := Addresses(s, pool);
            Gap(s, pool, wanted) == |wanted - have| + |have - wanted|
  {
    StaleCount(MembersOf(s, pool), StaleMembers(s, pool, wanted));
    var stale := StaleMembers(s, pool, wanted);
    assert Addresses(s, pool) - wanted == set m | m in stale :: MembersOf(s, pool)[m].address;
  }

  lemma {:induction false} StaleCount(found: map<Id, Member>, ids: set<Id>)
    requires ids <= found.Keys
    requires forall m, n | m in found && n in found :: found[m].address == found[n].address ==> m == n
    ensures |set m | m in ids :: found[m].address| == |ids|
  {
    if ids == {} {
    } else {
      var i :| i in ids;
      StaleCount(found, ids - {i});
      assert (set m | m in ids :: found[m].address) ==
             (set m | m in ids - {i} :: found[m].address) + {found[i].address};
    }
  }

  /** The gap is zero exactly when the pool's addresses are the wanted ones. */
  lemma GapZero(s: CloudState, pool: Id, wanted: set<string>)
    ensures Gap(s, pool, wanted) == 0 <==> Addresses(s, pool) == wanted
  {
    var found := MembersOf(s, pool);
    if Gap(s, pool, wanted) == 0 {
      assert wanted - Addresses(s, pool) == {} && StaleMembers(s, pool, wanted) == {};
      forall x | x in Addresses(s, pool) ensures x in wanted {
        var m :| m in found && found[m].address == x;
        assert m !in StaleMembers(s, pool, wanted);
      }
      assert forall x :: x in wanted ==> x !in wanted - Addresses(s, pool) ==> x in Addresses(s, pool);
    }
    if Addresses(s, pool) == wanted {
      assert wanted - Addresses(s, pool) == {};
      assert StaleMembers(s, pool, wanted) == {};
    }
  }

  /*** Served ports ***/

  ghost predicate Serves(s: CloudState, lb: Id, port: int, wanted: set<string>, exact: bool, l: Id, p: Id)
  {
    && l in s.listeners && s.listeners[l].lb == lb && s.listeners[l].port == port && s.listeners[l].pool == p
    && p in s.pools && s.pools[p].lb == lb
    && wanted <= Addresses(s, p) && (exact ==> Addresses(s, p) == wanted)
    && MonitorsOf(s, p) != map[]
  }

  /** A listener for the port is bound to a monitored pool that has every wanted address and, when
      `exact`, no other. */
  ghost predicate Served(s: CloudState, lb: Id, port: int, wanted: set<string>, exact: bool)
  {
    exists l, p :: Serves(s, lb, port, wanted, exact, l, p)
  }

  /** No pool of the load balancer has two members for an address nobody wants.  One reconcile
      deletes one member per unwanted address, so this is what it takes to be rid of all at once. */
  ghost predicate NoStaleTwins(s: CloudState, lb: Id, wanted: set<string>)
  {
    forall m, n | m in s.members && n in s.members && PoolIn(s, s.members[m].pool, lb) ::
      (&& s.members[m].pool == s.members[n].pool && s.members[m].address == s.members[n].address
       && s.members[m].address !in wanted) ==> m == n
  }

  lemma UniqueHasNoTwins(s: CloudState, lb: Id, wanted: set<string>)
    ensures UniqueMembers(s, lb) ==> NoStaleTwins(s, lb, wanted)
  {
    if UniqueMembers(s, lb) {
      forall m, n | m in s.members && n in s.members && PoolIn(s, s.members[m].pool, lb) &&
                    s.members[m].pool == s.members[n].pool && s.members[m].address == s.members[n].address
        ensures m == n
      {
        assert m in MembersOf(s, s.members[m].pool) && n in MembersOf(s, s.members[m].pool);
      }
    }
  }

  /** The port has a listener, bound to the pool named for the port. */
  ghost predicate Bound(s: CloudState, lb: Id, lbName: string, port: int)
  {
    exists l :: l in s.listeners && BoundBy(s, lb, lbName, port, s.listeners[l])
  }

  ghost predicate BoundBy(s: CloudState, lb: Id, lbName: string, port: int, listener: Listener)
  {
    && listener.lb == lb && listener.port == port
    && listener.pool in s.pools && s.pools[listener.pool].lb == lb &&
          s.pools[listener.pool].name == PoolName(lbName, port)
  }
}
