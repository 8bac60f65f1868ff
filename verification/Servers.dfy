// The servers of a project: the index from fixed IPv4 address to server, and the plain scan by
// address it is meant to agree with.
module Servers {
  import opened Wrappers

  datatype ServerAddress = ServerAddress(addr: string, version: string, kind: string)

  /** A server; its addresses are grouped by network. */
  datatype Server = Server(id: string, status: string, zone: string, addresses: map<string, seq<ServerAddress>>)

  predicate IsFixed(a: ServerAddress)
  {
    a.kind == "fixed"
  }

  predicate IsFixedV4(a: ServerAddress)
  {
    a.kind == "fixed" && a.version == "4"
  }

  ghost predicate Owns(s: Server, ip: string)
  {
    exists net, i :: net in s.addresses && 0 <= i < |s.addresses[net]| && IsFixed(s.addresses[net][i]) &&
        s.addresses[net][i].addr == ip
  }

  ghost predicate OwnsV4(s: Server, ip: string)
  {
    exists net, i :: net in s.addresses && 0 <= i < |s.addresses[net]| && IsFixedV4(s.addresses[net][i]) &&
        s.addresses[net][i].addr == ip
  }

  /*** The index ***/

  /** The last listed server that owns the IPv4 address. */
  ghost function LastOwner(servers: seq<Server>, ip: string): Option<Server>
  {
    if servers == [] then None
    else if OwnsV4(servers[|servers| - 1], ip) then Some(servers[|servers| - 1])
    else LastOwner(servers[..|servers| - 1], ip)
  }

  function LookUp(index: map<string, Server>, ip: string): Option<Server>
  {
    if ip in index then Some(index[ip]) else None
  }

  /** The index maps exactly the owned IPv4 addresses, each to its last listed owner. */
  ghost predicate IsIndexOf(index: map<string, Server>, servers: seq<Server>)
  {
    forall ip :: LookUp(index, ip) == LastOwner(servers, ip)
  }

  method IndexServers(servers: seq<Server>) returns (newCache: map<string, Server>)
    ensures IsIndexOf(newCache, servers)
    // every fixed IPv4 address is a key
    ensures forall s, net, k | 0 <= s < |servers| && net in servers[s].addresses &&
              0 <= k < |servers[s].addresses[net]| ::
              var a := servers[s].addresses[net][k];
              a.kind == "fixed" && a.version == "4" ==> a.addr in newCache
    // of the server it is mapped to, and of no later one
    ensures forall ip | ip in newCache ::
              exists s | 0 <= s < |servers| && newCache[ip] == servers[s] ::
                && (exists net, k :: net in servers[s].addresses && 0 <= k < |servers[s].addresses[net]| &&
                      servers[s].addresses[net][k] == ServerAddress(ip, "4", "fixed"))
                && (forall t, net, k | s < t < |servers| && net in servers[t].addresses &&
                      0 <= k < |servers[t].addresses[net]| ::
                        servers[t].addresses[net][k] != ServerAddress(ip, "4", "fixed"))
  {
    newCache := map[];
    for idx := 0 to |servers|
      invariant IsIndexOf(newCache, servers[..idx])
    {
      assert servers[..idx + 1][..idx] == servers[..idx];
      newCache := IndexServer(newCache, servers[idx]);
    }
    assert servers[..|servers|] == servers;
    IndexHolds(newCache, servers);
  }

  lemma IndexHolds(index: map<string, Server>, servers: seq<Server>)
    requires IsIndexOf(index, servers)
    ensures forall s, net, k | 0 <= s < |servers| && net in servers[s].addresses &&
              0 <= k < |servers[s].addresses[net]| ::
              var a := servers[s].addresses[net][k];
              a.kind == "fixed" && a.version == "4" ==> a.addr in index
    ensures forall ip | ip in index ::
              exists s | 0 <= s < |servers| && index[ip] == servers[s] ::
                && (exists net, k :: net in servers[s].addresses && 0 <= k < |servers[s].addresses[net]| &&
                      servers[s].addresses[net][k] == ServerAddress(ip, "4", "fixed"))
                && (forall t, net, k | s < t < |servers| && net in servers[t].addresses &&
                      0 <= k < |servers[t].addresses[net]| ::
                        servers[t].addresses[net][k] != ServerAddress(ip, "4", "fixed"))
  {
    hide OwnsV4, LastOwner;
    forall s, net, k | 0 <= s < |servers| && net in servers[s].addresses && 0 <= k < |servers[s].addresses[net]| &&
                       servers[s].addresses[net][k].kind == "fixed" && servers[s].addresses[net][k].version == "4"
      ensures servers[s].addresses[net][k].addr in index
    {
      var ip := servers[s].addresses[net][k].addr;
      ListedIsOwned(servers[s], net, k);
      var j := LastOwnerIs(servers, ip);
      assert LookUp(index, ip) == LastOwner(servers, ip);
    }
    forall ip | ip in index
      ensures exists s | 0 <= s < |servers| && index[ip] == servers[s] ::
                && (exists net, k :: net in servers[s].addresses && 0 <= k < |servers[s].addresses[net]| &&
                      servers[s].addresses[net][k] == ServerAddress(ip, "4", "fixed"))
                && (forall t, net, k | s < t < |servers| && net in servers[t].addresses &&
                      0 <= k < |servers[t].addresses[net]| ::
                        servers[t].addresses[net][k] != ServerAddress(ip, "4", "fixed"))
    {
      var s := LastOwnerIs(servers, ip);
      assert LookUp(index, ip) == LastOwner(servers, ip);
      OwnedIsListed(servers[s], ip);
      forall t, net, k | s < t < |servers| && net in servers[t].addresses && 0 <= k < |servers[t].addresses[net]|
        ensures servers[t].addresses[net][k] != ServerAddress(ip, "4", "fixed")
      {
        if servers[t].addresses[net][k] == ServerAddress(ip, "4", "fixed") {
          ListedIsOwned(servers[t], net, k);
        }
      }
    }
  }

  lemma ListedIsOwned(s: Server, net: string, k: nat)
    requires net in s.addresses && k < |s.addresses[net]|
    requires s.addresses[net][k].kind == "fixed" && s.addresses[net][k].version == "4"
    ensures OwnsV4(s, s.addresses[net][k].addr)
  {
    assert IsFixedV4(s.addresses[net][k]);
  }

  lemma OwnedIsListed(s: Server, ip: string)
    requires OwnsV4(s, ip)
    ensures exists net, k :: net in s.addresses && 0 <= k < |s.addresses[net]| &&
              s.addresses[net][k] == ServerAddress(ip, "4", "fixed")
  {
    var net, k :| net in s.addresses && 0 <= k < |s.addresses[net]| && IsFixedV4(s.addresses[net][k]) &&
        s.addresses[net][k].addr == ip;
    assert s.addresses[net][k] == ServerAddress(ip, "4", "fixed");
  }

  /** Enter one server under its fixed IPv4 addresses; the networks come in any order. */
  method IndexServer(index: map<string, Server>, s: Server) returns (newCache: map<string, Server>)
    ensures forall ip :: LookUp(newCache, ip) == if OwnsV4(s, ip) then Some(s) else LookUp(index, ip)
  {
    newCache := index;
    ghost var entered: set<string> := {};
    var rest := s.addresses.Keys;
    while rest != {}
      invariant rest <= s.addresses.Keys
      invariant forall ip :: ip in entered ==> OwnsV4(s, ip)
      invariant forall net, i | net in s.addresses && net !in rest && 0 <= i < |s.addresses[net]| ::
                  IsFixedV4(s.addresses[net][i]) ==> s.addresses[net][i].addr in entered
      invariant forall ip :: LookUp(newCache, ip) == if ip in entered then Some(s) else LookUp(index, ip)
      decreases |rest|
    {
      var net :| net in rest;
      rest := rest - {net};
      var addrs := s.addresses[net];
      for i := 0 to |addrs|
        invariant forall ip :: ip in entered ==> OwnsV4(s, ip)
        invariant forall n, j | n in s.addresses && n !in rest && n != net && 0 <= j < |s.addresses[n]| ::
                    IsFixedV4(s.addresses[n][j]) ==> s.addresses[n][j].addr in entered
        invariant forall j | 0 <= j < i :: IsFixedV4(addrs[j]) ==> addrs[j].addr in entered
        invariant forall ip :: LookUp(newCache, ip) == if ip in entered then Some(s) else LookUp(index, ip)
      {
        if IsFixedV4(addrs[i]) {
          assert OwnsV4(s, addrs[i].addr) by {
            assert IsFixedV4(s.addresses[net][i]);
          }
          newCache := newCache[addrs[i].addr := s];
          entered := entered + {addrs[i].addr};
        }
      }
    }
  }

  /*** The scan ***/

  /** The first listed server that owns the address, of either IP version. */
  ghost function FirstOwner(servers: seq<Server>, ip: string): Option<Server>
  {
    if servers == [] then None
    else if Owns(servers[0], ip) then Some(servers[0])
    else FirstOwner(servers[1..], ip)
  }

  method HasAddress(s: Server, ip: string) returns (found: bool)
    ensures found <==> Owns(s, ip)
    ensures found <==> exists net, k :: net in s.addresses && 0 <= k < |s.addresses[net]| &&
                         s.addresses[net][k].kind == "fixed" && s.addresses[net][k].addr == ip
  {
    var rest := s.addresses.Keys;
    while rest != {}
      invariant rest <= s.addresses.Keys
      invariant forall net, i | net in s.addresses && net !in rest && 0 <= i < |s.addresses[net]| ::
                  !(IsFixed(s.addresses[net][i]) && s.addresses[net][i].addr == ip)
      decreases |rest|
    {
      var net :| net in rest;
      rest := rest - {net};
      var addrs := s.addresses[net];
      for i := 0 to |addrs|
        invariant forall j | 0 <= j < i :: !(IsFixed(addrs[j]) && addrs[j].addr == ip)
      {
        if addrs[i].addr == ip && IsFixed(addrs[i]) {
          assert IsFixed(s.addresses[net][i]);
          return true;
        }
      }
    }
    return false;
  }

  method FindServerByIP(servers: seq<Server>, ip: string) returns (r: Option<Server>)
    ensures r == FirstOwner(servers, ip)
    // a hit is the first server with the address as a fixed one, a miss means that none has it
    ensures r.Some? ==>
              exists s | 0 <= s < |servers| && r.value == servers[s] ::
                && (exists net, k :: net in servers[s].addresses && 0 <= k < |servers[s].addresses[net]| &&
                      servers[s].addresses[net][k].kind == "fixed" && servers[s].addresses[net][k].addr == ip)
                && (forall t, net, k | 0 <= t < s && net in servers[t].addresses &&
                      0 <= k < |servers[t].addresses[net]| ::
                      servers[t].addresses[net][k].kind == "fixed" ==> servers[t].addresses[net][k].addr != ip)
    ensures r.None? ==>
              forall t, net, k | 0 <= t < |servers| && net in servers[t].addresses &&
                  0 <= k < |servers[t].addresses[net]| ::
                servers[t].addresses[net][k].kind == "fixed" ==> servers[t].addresses[net][k].addr != ip
  {
    for i := 0 to |servers|
      invariant FirstOwner(servers, ip) == FirstOwner(servers[i..], ip)
      invariant forall t, net, k | 0 <= t < i && net in servers[t].addresses && 0 <= k < |servers[t].addresses[net]| ::
                  servers[t].addresses[net][k].kind == "fixed" ==> servers[t].addresses[net][k].addr != ip
    {
      var found := HasAddress(servers[i], ip);
      if found {
        return Some(servers[i]);
      }
      assert servers[i..][1..] == servers[i + 1..];
    }
    return None;
  }

  /*** Agreement ***/

  lemma {:induction false} LastOwnerIs(servers: seq<Server>, ip: string) returns (j: nat)
    ensures LastOwner(servers, ip).None? ==> forall i | 0 <= i < |servers| :: !OwnsV4(servers[i], ip)
    ensures LastOwner(servers, ip).Some? ==>
              && j < |servers| && OwnsV4(servers[j], ip) && LastOwner(servers, ip) == Some(servers[j])
              && forall i | j < i < |servers| :: !OwnsV4(servers[i], ip)
  {
    hide OwnsV4;
    j := 0;
    if servers == [] {
    } else {
      var n := |servers| - 1;
      if OwnsV4(servers[n], ip) {
        j := n;
      } else {
        j := LastOwnerIs(servers[..n], ip);
        assert forall i | 0 <= i < n :: servers[..n][i] == servers[i];
      }
    }
  }

  lemma {:induction false} FirstOwnerIs(servers: seq<Server>, ip: string) returns (j: nat)
    ensures FirstOwner(servers, ip).None? ==> forall i | 0 <= i < |servers| :: !Owns(servers[i], ip)
    ensures FirstOwner(servers, ip).Some? ==>
              && j < |servers| && Owns(servers[j], ip) && FirstOwner(servers, ip) == Some(servers[j])
              && forall i | 0 <= i < j :: !Owns(servers[i], ip)
  {
    hide Owns;
    j := 0;
    if servers == [] {
    } else {
      if !Owns(servers[0], ip) {
        var k := FirstOwnerIs(servers[1..], ip);
        j := k + 1;
        assert forall i | 1 <= i < |servers| :: servers[1..][i - 1] == servers[i];
      }
    }
  }

  lemma V4IsFixed(s: Server, ip: string)
    requires OwnsV4(s, ip)
    ensures Owns(s, ip)
  {
    var net, i :| net in s.addresses && 0 <= i < |s.addresses[net]| && IsFixedV4(s.addresses[net][i]) &&
        s.addresses[net][i].addr == ip;
    assert IsFixed(s.addresses[net][i]);
  }

  ghost predicate DistinctServers(servers: seq<Server>)
  {
    forall i, j | 0 <= i < j < |servers| :: servers[i] != servers[j]
  }

  /** Nobody owns the address, or its first owner lists it as IPv4 and no later server does. */
  ghost predicate OneOwner(servers: seq<Server>, ip: string)
  {
    (forall i | 0 <= i < |servers| :: !Owns(servers[i], ip)) ||
    (exists j | 0 <= j < |servers| ::
       && OwnsV4(servers[j], ip)
       && (forall i | 0 <= i < j :: !Owns(servers[i], ip))
       && (forall i | j < i < |servers| :: !OwnsV4(servers[i], ip)))
  }

  /** For distinct servers, index and scan give the same answer for an address, hit or miss, exactly
      when the address has one owner in this sense. */
  lemma IndexAgreesWithScan(index: map<string, Server>, servers: seq<Server>, ip: string)
    requires IsIndexOf(index, servers) && DistinctServers(servers)
    ensures LookUp(index, ip) == FirstOwner(servers, ip) <==> OneOwner(servers, ip)
  {
    hide Owns, OwnsV4, LookUp;
    var last := LastOwnerIs(servers, ip);
    var first := FirstOwnerIs(servers, ip);
    assert LookUp(index, ip) == LastOwner(servers, ip);
    forall i | 0 <= i < |servers| && OwnsV4(servers[i], ip) ensures Owns(servers[i], ip) {
      V4IsFixed(servers[i], ip);
    }
  }

  ghost predicate OnlyV4(servers: seq<Server>)
  {
    forall i, ip | 0 <= i < |servers| :: Owns(servers[i], ip) ==> OwnsV4(servers[i], ip)
  }

  ghost predicate NoSharedAddress(servers: seq<Server>)
  {
    forall i, j, ip | 0 <= i < j < |servers| :: !(Owns(servers[i], ip) && Owns(servers[j], ip))
  }

  /** For IPv4-only listings of distinct servers, index and scan agree on every address exactly when
      no address is on two servers. */
  lemma AgreementMeansNoSharedAddress(index: map<string, Server>, servers: seq<Server>)
    requires IsIndexOf(index, servers) && DistinctServers(servers) && OnlyV4(servers)
    ensures (forall ip :: LookUp(index, ip) == FirstOwner(servers, ip)) <==> NoSharedAddress(servers)
  {
    hide Owns, OwnsV4, LookUp, IsIndexOf, DistinctServers, FirstOwner;
    forall ip ensures LookUp(index, ip) == FirstOwner(servers, ip) <==> OneOwner(servers, ip) {
      IndexAgreesWithScan(index, servers, ip);
    }
    forall i, ip | 0 <= i < |servers| && OwnsV4(servers[i], ip) ensures Owns(servers[i], ip) {
      V4IsFixed(servers[i], ip);
    }
    OneOwnerEverywhere(servers);
  }

  lemma OneOwnerEverywhere(servers: seq<Server>)
    requires OnlyV4(servers)
    requires forall i, ip | 0 <= i < |servers| && OwnsV4(servers[i], ip) :: Owns(servers[i], ip)
    ensures (forall ip :: OneOwner(servers, ip)) <==> NoSharedAddress(servers)
  {
    hide Owns, OwnsV4;
    if NoSharedAddress(servers) {
      forall ip ensures OneOwner(servers, ip) {
        if j :| 0 <= j < |servers| && Owns(servers[j], ip) {
          assert OwnsV4(servers[j], ip);
        }
      }
    }
    if forall ip :: OneOwner(servers, ip) {
      forall i, j, ip | 0 <= i < j < |servers| ensures !(Owns(servers[i], ip) && Owns(servers[j], ip)) {
        OneOwnerIsAlone(servers, i, j, ip);
      }
    }
  }

  lemma OneOwnerIsAlone(servers: seq<Server>, i: nat, j: nat, ip: string)
    requires OnlyV4(servers) && OneOwner(servers, ip) && i < j < |servers|
    ensures !(Owns(servers[i], ip) && Owns(servers[j], ip))
  {
    hide Owns, OwnsV4;
  }
}
