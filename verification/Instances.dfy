// Looking up the server of a node: by provider ID, else by internal IP in a cache that is
// refreshed when it is older than its time to live.
module Instances {
  import opened Wrappers
  import opened Goal
  import opened Servers
  import opened ProviderId

  /** Seconds on the clock; the zero time is long past. */
  type Time = int

  /** The answer to a request for one server. */
  datatype ServerAnswer = Failed | Missing | Exists(server: Server)

  datatype NodeSpec = NodeSpec(providerID: string, addresses: seq<NodeAddress>)

  /** The first internal IP of the list that the index knows. */
  function FirstHit(addresses: seq<NodeAddress>, index: map<string, Server>): Option<Server>
  {
    if addresses == [] then None
    else if addresses[0].kind.InternalIP? && addresses[0].address in index then Some(index[addresses[0].address])
    else FirstHit(addresses[1..], index)
  }

  /** A fresh cache or a failed listing changes nothing; otherwise the whole index of the listing
      is installed under the later time. */
  ghost predicate Refreshed(before: map<string, Server>, timeBefore: Time, ttl: Time, now: Time,
                            listing: Option<seq<Server>>, later: Time, ok: bool,
                            after: map<string, Server>, timeAfter: Time)
  {
    var young := now - timeBefore < ttl;
    && (ok <==> young || listing.Some?)
    && if young || listing.None? then after == before && timeAfter == timeBefore
       else IsIndexOf(after, listing.value) && timeAfter == later
  }

  class InstancesV2 {
    var cache: map<string, Server>
    var cacheTime: Time
    const cacheTTL: Time

    constructor ()
      ensures cache == map[] && cacheTime == 0 && cacheTTL == 120
    {
      cache, cacheTime, cacheTTL := map[], 0, 120;
    }

    predicate Fresh(now: Time)
      reads this
    {
      now - cacheTime < cacheTTL
    }

    /** `listing` is what listing the servers returns, None when it fails; `now` and `later` are
        the clock at the freshness check and after the index is built. */
    method RefreshCache(now: Time, listing: Option<seq<Server>>, later: Time) returns (ok: bool)
      modifies this
      ensures Refreshed(old(cache), old(cacheTime), cacheTTL, now, listing, later, ok, cache, cacheTime)
    {
      if Fresh(now) {
        return true;
      }
      if listing.None? {
        return false;
      }
      var newCache := IndexServers(listing.value);
      cache := newCache;
      cacheTime := later;
      return true;
    }

    /** `byId` answers the request for the server named by the provider ID, if one is sent. */
    method GetServerForNode(node: NodeSpec, byId: ServerAnswer, now: Time, listing: Option<seq<Server>>, later: Time)
      returns (r: Option<Server>)
      modifies this
      ensures var direct := node.providerID != "" && Extracted(node.providerID) != "" && byId.Exists?;
        && (direct ==> r == Some(byId.server))
        && (direct || old(Fresh(now)) || listing.None? ==> cache == old(cache) && cacheTime == old(cacheTime))
        && (!direct && !old(Fresh(now)) && listing.Some? ==> IsIndexOf(cache, listing.value) && cacheTime == later)
        && (!direct ==> r == if old(Fresh(now)) || listing.Some? then FirstHit(node.addresses, cache) else None)
        // the first internal IP the cache knows
        && (!direct && (old(Fresh(now)) || listing.Some?) ==>
              && (forall i | 0 <= i < |node.addresses| &&
                    (node.addresses[i].kind == InternalIP && node.addresses[i].address in cache) ::
                    (forall j | 0 <= j < i :: !(node.addresses[j].kind == InternalIP &&
                        node.addresses[j].address in cache)) ==>
                      r == Some(cache[node.addresses[i].address]))
              && ((forall i | 0 <= i < |node.addresses| ::
                    !(node.addresses[i].kind == InternalIP && node.addresses[i].address in cache)) ==> r == None))
    {
      if node.providerID != "" {
        var serverID := ExtractServerID(node.providerID);
        if serverID != "" {
          match byId {
            case Failed =>
            case Missing =>
            case Exists(server) => return Some(server);
          }
        }
      }
      var ok := RefreshCache(now, listing, later);
      if !ok {
        return None;
      }
      for i := 0 to |node.addresses|
        invariant FirstHit(node.addresses, cache) == FirstHit(node.addresses[i..], cache)
        invariant forall j | 0 <= j < i :: !(node.addresses[j].kind == InternalIP && node.addresses[j].address in cache)
      {
        var addr := node.addresses[i];
        assert node.addresses[i..][1..] == node.addresses[i + 1..];
        if addr.kind.InternalIP? {
          if addr.address in cache {
            return Some(cache[addr.address]);
          }
        }
      }
      return None;
    }
  }
}
