// Reconciling the members of one pool: what adding the missing and deleting the stale ones does.
module Members {
  import opened Cloud
  import opened Discipline
  import opened Goal

  /** Every indexed address is that of the indexed member. */
  ghost predicate Sound(index: map<string, Id>, found: map<Id, Member>)
  {
    forall a :: a in index ==> index[a] in found && found[index[a]].address == a
  }

  /** Each address of the pool, with one of the members that have it. */
  ghost predicate Indexes(index: map<string, Id>, found: map<Id, Member>)
  {
    Sound(index, found) && forall m :: m in found ==> found[m].address in index
  }

  /** t is s with one more member in the pool. */
  ghost predicate MemberAdded(s: CloudState, t: CloudState, pool: Id, address: string, port: int)
  {
    && s.next !in MembersOf(s, pool)
    && MembersOf(t, pool) == MembersOf(s, pool)[s.next := Member(pool, address, port)]
    && Addresses(t, pool) == Addresses(s, pool) + {address}
  }

  /** The pool keeps its members and gains only wanted ones. */
  ghost predicate Filled(before: map<Id, Member>, after: map<Id, Member>, wanted: set<string>, port: int)
  {
    && Extended(before, after)
    && (forall m :: m in after && m !in before ==> after[m].port == port && after[m].address in wanted)
  }

  ghost predicate Extended(before: map<Id, Member>, after: map<Id, Member>)
  {
    forall m :: m in before ==> m in after && after[m] == before[m]
  }

  /** Members are only lost, and only among the given ones. */
  ghost predicate Thinned(before: map<Id, Member>, after: map<Id, Member>, ids: set<Id>)
  {
    && (forall m :: m in after ==> m in before && after[m] == before[m])
    && (forall m :: m in before && m !in ids ==> m in after)
  }

  /** Wanted members stay, new ones are wanted, lost ones were not. */
  ghost predicate Reconciled(before: map<Id, Member>, after: map<Id, Member>, wanted: set<string>, port: int)
  {
    && (forall m :: m in before && before[m].address in wanted ==> m in after)
    && (forall m :: m in before && m in after ==> after[m] == before[m])
    && (forall m :: m in after && m !in before ==> after[m].port == port && after[m].address in wanted)
  }

  /** New members have addresses the pool did not have. */
  ghost predicate NoneDoubled(before: map<Id, Member>, after: map<Id, Member>)
  {
    forall m, n | m in after && m !in before && n in before :: before[n].address != after[m].address
  }

  ghost predicate TwinFree(found: map<Id, Member>, wanted: set<string>)
  {
    forall m, n | m in found && n in found && found[m].address !in wanted ::
      found[m].address == found[n].address ==> m == n
  }

  /** The index holds one unwanted member per address. */
  ghost predicate IndexesStale(index: map<string, Id>, s: CloudState, pool: Id, wanted: set<string>)
  {
    && (forall a :: a in index ==> index[a] in StaleMembers(s, pool, wanted))
    && (forall a, b | a in index && b in index :: index[a] == index[b] ==> a == b)
  }

  lemma WantedIPsEnds(nodes: seq<Node>)
    ensures WantedIPs(nodes[..0]) == {} && WantedIPs(nodes[..|nodes|]) == WantedIPs(nodes)
  {
    assert nodes[..|nodes|] == nodes;
  }

  lemma MemberPosted(s: CloudState, pool: Id, address: string, port: int, f: Fault, wanted: set<string>)
    requires Integrity(s)
    ensures var w := PostMember(pool, address, port);
      var t := Deliver(s, w, f);
      && t.listeners == s.listeners && t.pools == s.pools && t.monitors == s.monitors
      && (forall q :: q != pool ==> MembersOf(t, q) == MembersOf(s, q))
      && (t == s || MemberAdded(s, t, pool, address, port))
      && (f == NoFault && pool in s.pools ==> MemberAdded(s, t, pool, address, port))
      && (address !in Addresses(s, pool) && address in wanted ==>
            Gap(t, pool, wanted) + (if t == s then 0 else 1) == Gap(s, pool, wanted))
      && (address in wanted ==> Gap(t, pool, wanted) <= Gap(s, pool, wanted))
  {
    hide Addresses, MembersOf, Gap, Integrity;
    var w := PostMember(pool, address, port);
    forall q | q != pool ensures MembersOf(Apply(s, w), q) == MembersOf(s, q) {
      RequestTouchesOnePool(s, w, q);
    }
    if pool in s.pools {
      MembersAfterPost(s, pool, address, port);
      if address in wanted {
        if address in Addresses(s, pool) {
          DoublingKeepsGap(s, pool, wanted, address, port);
        } else {
          AddingClosesGap(s, pool, wanted, address, port);
        }
      }
    }
  }

  lemma MemberDeleted(s: CloudState, pool: Id, id: Id, f: Fault, wanted: set<string>)
    requires Integrity(s)
    ensures var w := DeleteMember(pool, id);
      var t := Deliver(s, w, f);
      && t.listeners == s.listeners && t.pools == s.pools && t.monitors == s.monitors
      && (forall q :: q != pool ==> MembersOf(t, q) == MembersOf(s, q))
      && (t == s || MembersOf(t, pool) == MembersOf(s, pool) - {id})
      && (f == NoFault ==> MembersOf(t, pool) == MembersOf(s, pool) - {id})
      && (id in StaleMembers(s, pool, wanted) ==>
            Gap(t, pool, wanted) + (if t == s then 0 else 1) == Gap(s, pool, wanted))
  {
    hide Addresses, Gap, Integrity;
    var w := DeleteMember(pool, id);
    forall q | q != pool ensures MembersOf(Apply(s, w), q) == MembersOf(s, q) {
      RequestTouchesOnePool(s, w, q);
    }
    if id in MembersOf(s, pool) {
      MembersAfterDelete(s, pool, id);
      if id in StaleMembers(s, pool, wanted) {
        DeletingClosesGap(s, pool, wanted, id);
      }
    }
  }

  lemma IndexedAddresses(index: map<string, Id>, s: CloudState, pool: Id)
    ensures Indexes(index, MembersOf(s, pool)) ==> index.Keys == Addresses(s, pool)
    ensures forall m :: m in MembersOf(s, pool) ==> MembersOf(s, pool)[m].address in Addresses(s, pool)
  {
    var found := MembersOf(s, pool);
    if Indexes(index, found) {
      forall a | a in index ensures a in Addresses(s, pool) {
        assert found[index[a]].address == a;
      }
    }
  }

  lemma FilledBase(found: map<Id, Member>, wanted: set<string>, port: int)
    ensures Filled(found, found, wanted, port) && NoneDoubled(found, found)
  {
  }

  lemma FilledMore(first: CloudState, s: CloudState, t: CloudState, pool: Id, address: string,
                   wanted: set<string>, port: int)
    requires t == s || MemberAdded(s, t, pool, address, port)
    requires address in wanted
    ensures MemberAdded(s, t, pool, address, port) ==> Addresses(t, pool) == Addresses(s, pool) + {address}
    ensures Addresses(s, pool) <= Addresses(t, pool) <= Addresses(s, pool) + {address}
    ensures Filled(MembersOf(first, pool), MembersOf(s, pool), wanted, port) ==>
              Filled(MembersOf(first, pool), MembersOf(t, pool), wanted, port)
    ensures NoneDoubled(MembersOf(first, pool), MembersOf(s, pool)) && address !in Addresses(first, pool) ==>
              NoneDoubled(MembersOf(first, pool), MembersOf(t, pool))
  {
    hide MembersOf;
    if address !in Addresses(first, pool) {
      forall n | n in MembersOf(first, pool) ensures MembersOf(first, pool)[n].address != address {
        assert MembersOf(first, pool)[n].address in Addresses(first, pool);
      }
    }
  }

  lemma ReconciledBase(found: map<Id, Member>, wanted: set<string>, port: int)
    ensures Reconciled(found, found, wanted, port)
  {
  }

  lemma EmptyIndex()
    ensures Indexes(map[], map[])
  {
  }

  lemma SoundIndex(index: map<string, Id>, found: map<Id, Member>)
    ensures index == map[] || Indexes(index, found) ==> Sound(index, found)
  {
  }

  lemma IndexedIsStale(index: map<string, Id>, s: CloudState, pool: Id, wanted: set<string>, a: string)
    requires a in index
    ensures IndexesStale(index, s, pool, wanted) ==> index[a] in StaleMembers(s, pool, wanted)
  {
  }

  lemma DropIndexed(index: map<string, Id>, s: CloudState, t: CloudState, pool: Id, wanted: set<string>, a: string)
    requires a in index
    requires t == s || MembersOf(t, pool) == MembersOf(s, pool) - {index[a]}
    ensures IndexesStale(index, s, pool, wanted) ==> IndexesStale(index - {a}, t, pool, wanted)
  {
    hide MembersOf;
  }

  lemma ThinnedBase(found: map<Id, Member>)
    ensures Thinned(found, found, {}) && found - {} == found
  {
  }

  lemma ThinnedMore(first: map<Id, Member>, before: map<Id, Member>, after: map<Id, Member>, gone: set<Id>, id: Id)
    requires Thinned(first, before, gone)
    requires after == before || after == before - {id}
    ensures Thinned(first, after, gone + {id})
    ensures before == first - gone && after == before - {id} ==> after == first - (gone + {id})
  {
  }

  /** The members of the index that are done and those still to go. */
  ghost predicate Passed(index: map<string, Id>, done: set<Id>, rest: map<string, Id>)
  {
    index.Values == done + rest.Values
  }

  lemma PassedOne(index: map<string, Id>, done: set<Id>, rest: map<string, Id>, a: string)
    requires Passed(index, done, rest) && a in rest
    ensures Passed(index, done + {rest[a]}, rest - {a})
    ensures |rest - {a}| < |rest|
  {
    var left := rest - {a};
    forall v | v in rest.Values ensures v in {rest[a]} + left.Values {
      var b :| b in rest && rest[b] == v;
      assert b != a ==> b in left && left[b] == v;
    }
    assert left.Keys == rest.Keys - {a};
  }

  lemma PassedEnds(index: map<string, Id>)
    ensures Passed(index, {}, index)
    ensures forall done :: Passed(index, done, map[]) ==> done == index.Values
  {
  }

  lemma StaleIndex(s: CloudState, t: CloudState, pool: Id, index: map<string, Id>, wanted: set<string>, port: int)
    requires Sound(index, MembersOf(s, pool)) && Filled(MembersOf(s, pool), MembersOf(t, pool), wanted, port)
    ensures IndexesStale(index - wanted, t, pool, wanted)
  {
    hide MembersOf;
  }

  lemma WantedSurvive(t: CloudState, u: CloudState, pool: Id, index: map<string, Id>, wanted: set<string>)
    requires IndexesStale(index - wanted, t, pool, wanted)
    requires MembersOf(u, pool) == MembersOf(t, pool) - (index - wanted).Values && wanted <= Addresses(t, pool)
    ensures wanted <= Addresses(u, pool)
  {
    hide MembersOf;
    forall a | a in wanted ensures a in Addresses(u, pool) {
      var m :| m in MembersOf(t, pool) && MembersOf(t, pool)[m].address == a;
      assert m in MembersOf(u, pool) && MembersOf(u, pool)[m].address == a;
    }
  }

  /** Deleting the stale part of the index leaves only wanted addresses if and only if no unwanted
      address had two members; either way stale members get fewer. */
  lemma StaleShrink(s: CloudState, t: CloudState, u: CloudState, pool: Id, index: map<string, Id>,
                    wanted: set<string>, port: int)
    requires Indexes(index, MembersOf(s, pool)) && Filled(MembersOf(s, pool), MembersOf(t, pool), wanted, port)
    requires MembersOf(u, pool) == MembersOf(t, pool) - (index - wanted).Values && wanted <= Addresses(u, pool)
    ensures Addresses(u, pool) == wanted <==> TwinFree(MembersOf(s, pool), wanted)
    ensures StaleMembers(s, pool, wanted) != {} ==> StaleMembers(u, pool, wanted) < StaleMembers(s, pool, wanted)
  {
    hide MembersOf;
    var before, after := MembersOf(s, pool), MembersOf(u, pool);
    var stale := index - wanted;
    assert StaleMembers(u, pool, wanted) <= StaleMembers(s, pool, wanted);
    if m :| m in StaleMembers(s, pool, wanted) {
      var a := before[m].address;
      assert a in stale && stale[a] in StaleMembers(s, pool, wanted) && stale[a] !in after;
    }
    if TwinFree(before, wanted) {
      forall m | m in before && before[m].address !in wanted ensures m !in after {
        assert stale[before[m].address] == m;
      }
    } else {
      var m, n :| m in before && n in before && before[m].address == before[n].address &&
          before[m].address !in wanted && m != n;
      var left := if stale[before[m].address] == m then n else m;
      assert left !in stale.Values;
      assert left in after && after[left].address in Addresses(u, pool);
    }
  }

  lemma FilledThenThinned(s: CloudState, t: CloudState, u: CloudState, pool: Id, index: map<string, Id>,
                          wanted: set<string>, port: int)
    requires Sound(index, MembersOf(s, pool)) && Filled(MembersOf(s, pool), MembersOf(t, pool), wanted, port)
    requires Thinned(MembersOf(t, pool), MembersOf(u, pool), (index - wanted).Values)
    ensures IndexesStale(index - wanted, t, pool, wanted)
    ensures Reconciled(MembersOf(s, pool), MembersOf(u, pool), wanted, port)
    ensures NoneDoubled(MembersOf(s, pool), MembersOf(t, pool)) ==> NoneDoubled(MembersOf(s, pool), MembersOf(u, pool))
    ensures Indexes(index, MembersOf(s, pool)) && wanted <= Addresses(t, pool) &&
            MembersOf(u, pool) == MembersOf(t, pool) - (index - wanted).Values ==>
              && wanted <= Addresses(u, pool)
              && (Addresses(u, pool) == wanted <==> TwinFree(MembersOf(s, pool), wanted))
              && (StaleMembers(s, pool, wanted) != {} ==> StaleMembers(u, pool, wanted) < StaleMembers(s, pool, wanted))
  {
    hide MembersOf;
    StaleIndex(s, t, pool, index, wanted, port);
    if Indexes(index, MembersOf(s, pool)) && wanted <= Addresses(t, pool) &&
       MembersOf(u, pool) == MembersOf(t, pool) - (index - wanted).Values {
      WantedSurvive(t, u, pool, index, wanted);
      StaleShrink(s, t, u, pool, index, wanted, port);
    }
  }

  lemma TwinsOfPool(s: CloudState, lb: Id, pool: Id, wanted: set<string>)
    requires PoolIn(s, pool, lb)
    ensures NoStaleTwins(s, lb, wanted) ==> TwinFree(MembersOf(s, pool), wanted)
  {
  }

  /*** Additions ***/

  /** Members for unwanted addresses were all there before. */
  ghost predicate OnlyWantedAdded(s: CloudState, t: CloudState, wanted: set<string>)
  {
    forall m :: m in t.members && t.members[m].address !in wanted ==> m in s.members && s.members[m] == t.members[m]
  }

  /** Members for wanted addresses stay. */
  ghost predicate WantedStay(s: CloudState, t: CloudState, wanted: set<string>)
  {
    forall m :: m in s.members && s.members[m].address in wanted ==> m in t.members && t.members[m] == s.members[m]
  }

  lemma WantedAddedTwice(s: CloudState, t: CloudState, u: CloudState, wanted: set<string>)
    ensures OnlyWantedAdded(s, s, wanted) && WantedStay(s, s, wanted)
    ensures WantedStay(s, t, wanted) && WantedStay(t, u, wanted) ==> WantedStay(s, u, wanted)
    ensures OnlyWantedAdded(s, t, wanted) && OnlyWantedAdded(t, u, wanted) ==> OnlyWantedAdded(s, u, wanted)
  {
  }

  lemma ReconciledAddsWanted(s: CloudState, t: CloudState, pool: Id, wanted: set<string>, port: int)
    requires Reconciled(MembersOf(s, pool), MembersOf(t, pool), wanted, port)
    requires forall q :: q != pool ==> MembersOf(t, q) == MembersOf(s, q)
    ensures OnlyWantedAdded(s, t, wanted) && WantedStay(s, t, wanted)
  {
    forall m | m in s.members && s.members[m].address in wanted
      ensures m in t.members && s.members[m] == t.members[m]
    {
      assert m in MembersOf(s, s.members[m].pool);
    }
    forall m | m in t.members && t.members[m].address !in wanted
      ensures m in s.members && s.members[m] == t.members[m]
    {
      assert m in MembersOf(t, t.members[m].pool);
    }
  }

  lemma TwinsStayAway(s: CloudState, t: CloudState, lb: Id, wanted: set<string>)
    requires Integrity(s) && OnlyWantedAdded(s, t, wanted)
    requires forall q :: q in s.pools && q in t.pools ==> t.pools[q] == s.pools[q]
    ensures NoStaleTwins(s, lb, wanted) ==> NoStaleTwins(t, lb, wanted)
  {
  }
}
