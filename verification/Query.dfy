// The canonical query string of the request signer.
module Query {
  import opened Text
  import opened Encoding

  type Params = map<string, seq<string>>

  ghost predicate AllBytes(params: Params)
  {
    forall k :: k in params ==> IsBytes(k) && forall i | 0 <= i < |params[k]| :: IsBytes(params[k][i])
  }

  function Pair(k: string, v: string): string
  {
    Encoded(k) + "=" + Encoded(v)
  }

  function PairsOf(k: string, vs: seq<string>): seq<string>
  {
    if vs == [] then [] else [Pair(k, vs[0])] + PairsOf(k, vs[1..])
  }

  function Pairs(keys: seq<string>, params: Params): seq<string>
    requires forall i | 0 <= i < |keys| :: keys[i] in params
  {
    if keys == [] then [] else PairsOf(keys[0], params[keys[0]]) + Pairs(keys[1..], params)
  }

  /** The query string when the map is iterated in this order. */
  ghost function QueryString(order: seq<string>, params: Params): string
    requires Listing(order, params.Keys)
  {
    SortListing(order, params.Keys);
    Join(Pairs(Sort(order), params), '&')
  }

  method CollectKeys(params: Params) returns (keys: seq<string>)
    ensures Listing(keys, params.Keys)
  {
    keys := [];
    var rest := params.Keys;
    while rest != {}
      invariant rest <= params.Keys && Listing(keys, params.Keys - rest)
      decreases |rest|
    {
      var k :| k in rest;
      keys := keys + [k];
      rest := rest - {k};
    }
    assert params.Keys - {} == params.Keys;
  }

  method EncodePairs(keys: seq<string>, params: Params) returns (pairs: seq<string>)
    requires forall i | 0 <= i < |keys| :: keys[i] in params
    ensures pairs == Pairs(keys, params)
  {
    hide Pairs, PairsOf, Encoded;
    pairs := [];
    NoPairs(keys, params);
    for i := 0 to |keys|
      invariant pairs == Pairs(keys[..i], params)
    {
      var k := keys[i];
      var vs := params[k];
      ghost var done := pairs;
      NoPairsOf(k, vs);
      for j := 0 to |vs|
        invariant pairs == done + PairsOf(k, vs[..j])
      {
        PairsOfStep(k, vs, j);
        var key := UriEncode(k);
        var value := UriEncode(vs[j]);
        pairs := pairs + [key + "=" + value];
      }
      assert vs[..|vs|] == vs;
      PairsStep(keys, params, i);
    }
    assert keys[..|keys|] == keys;
  }

  /** The keys are collected in an arbitrary order; the result is the one of every order.  `entries`
      are the key and the position of the value behind each pair of the string. */
  method BuildCanonicalQueryString(params: Params) returns (r: string, ghost entries: seq<(string, nat)>)
    ensures forall order | Listing(order, params.Keys) :: r == QueryString(order, params)
    // every value of every key is there once
    ensures forall k, n: nat :: (k, n) in entries <==> k in params && n < |params[k]|
    // by key in the order of bytes, then by position
    ensures forall i, j | 0 <= i < j < |entries| ::
              || (entries[i].0 == entries[j].0 && entries[i].1 < entries[j].1)
              || entries[i].0 < entries[j].0
              || exists d | 0 <= d < |entries[i].0| && d < |entries[j].0| ::
                   entries[i].0[..d] == entries[j].0[..d] && entries[i].0[d] < entries[j].0[d]
    // one pair for each
    ensures if entries == [] then r == "" else
              var pairs := Split(r, '&');
              && |pairs| == |entries|
              && forall i | 0 <= i < |pairs| :: entries[i].0 in params && entries[i].1 < |params[entries[i].0]| &&
                   pairs[i] == Encoded(entries[i].0) + "=" + Encoded(params[entries[i].0][entries[i].1])
  {
    hide Pairs, Listing, Sort, Leq, Pair, Split, Join;
    var keys := CollectKeys(params);
    SortListing(keys, params.Keys);
    ListedKeys(Sort(keys), params);
    entries := EntriesInOrder(Sort(keys), params);
    if |params| == 0 {
      r := "";
      EmptyQuery(keys, params);
    } else {
      var pairs := EncodePairs(Sort(keys), params);
      r := Join(pairs, '&');
    }
    forall order | Listing(order, params.Keys) ensures r == QueryString(order, params) {
      ListingMultiset(order, params.Keys);
      ListingMultiset(keys, params.Keys);
      SortOrderFree(order, keys);
    }
  }

  lemma {:induction false} EntriesOf(keys: seq<string>, params: Params) returns (entries: seq<(string, nat)>)
    requires StrictlySorted(keys) && forall i | 0 <= i < |keys| :: keys[i] in params
    ensures |entries| == |Pairs(keys, params)|
    ensures forall i | 0 <= i < |entries| ::
              var (k, n) := entries[i];
              k in keys && k in params && n < |params[k]| && Pairs(keys, params)[i] == Pair(k, params[k][n])
    ensures forall k, n: nat | k in keys && n < |params[k]| :: (k, n) in entries
    ensures forall i, j | 0 <= i < j < |entries| ::
              (entries[i].0 == entries[j].0 && entries[i].1 < entries[j].1) ||
              (Leq(entries[i].0, entries[j].0) && entries[i].0 != entries[j].0)
  {
    hide Leq, Pair, PairsOf;
    entries := [];
    if keys == [] {
    } else {
      var k := keys[0];
      var rest := EntriesOf(keys[1..], params);
      var first: seq<(string, nat)> := seq(|params[k]|, (n: nat) requires n < |params[k]| => (k, n));
      forall n: nat | n < |params[k]| ensures (k, n) in first {
        assert first[n] == (k, n);
      }
      PairsOfAt(k, params[k]);
      assert keys == [k] + keys[1..];
      entries := first + rest;
    }
  }

  lemma {:induction false} PairsOfAt(k: string, vs: seq<string>)
    ensures |PairsOf(k, vs)| == |vs| && forall n | 0 <= n < |vs| :: PairsOf(k, vs)[n] == Pair(k, vs[n])
  {
    if vs == [] {
    } else {
      PairsOfAt(k, vs[1..]);
    }
  }

  lemma EntriesInOrder(keys: seq<string>, params: Params) returns (entries: seq<(string, nat)>)
    requires StrictlySorted(keys) && Listing(keys, params.Keys)
    requires forall i | 0 <= i < |keys| :: keys[i] in params
    ensures forall k, n: nat :: (k, n) in entries <==> k in params && n < |params[k]|
    ensures forall i, j | 0 <= i < j < |entries| ::
              || (entries[i].0 == entries[j].0 && entries[i].1 < entries[j].1)
              || entries[i].0 < entries[j].0
              || exists d | 0 <= d < |entries[i].0| && d < |entries[j].0| ::
                   entries[i].0[..d] == entries[j].0[..d] && entries[i].0[d] < entries[j].0[d]
    ensures var r := Join(Pairs(keys, params), '&');
      if entries == [] then r == "" else
        var pairs := Split(r, '&');
        && |pairs| == |entries|
        && forall i | 0 <= i < |pairs| :: entries[i].0 in params && entries[i].1 < |params[entries[i].0]| &&
             pairs[i] == Encoded(entries[i].0) + "=" + Encoded(params[entries[i].0][entries[i].1])
  {
    hide Leq, Pairs, Split;
    entries := EntriesOf(keys, params);
    forall i, j | 0 <= i < j < |entries| && Leq(entries[i].0, entries[j].0) && entries[i].0 != entries[j].0
      ensures || entries[i].0 < entries[j].0
              || exists d | 0 <= d < |entries[i].0| && d < |entries[j].0| ::
                   entries[i].0[..d] == entries[j].0[..d] && entries[i].0[d] < entries[j].0[d]
    {
      LeqIsBytewise(entries[i].0, entries[j].0);
    }
    var pairs := Pairs(keys, params);
    if pairs != [] {
      forall i | 0 <= i < |pairs| ensures '&' !in pairs[i] {
        PairsFree(keys, params, i);
      }
      SplitJoin(pairs, '&');
    }
  }

  lemma ListedKeys(keys: seq<string>, params: Params)
    requires Listing(keys, params.Keys)
    ensures forall i | 0 <= i < |keys| :: keys[i] in params
  {
  }

  lemma EmptyQuery(keys: seq<string>, params: Params)
    requires Listing(keys, params.Keys) && |params| == 0
    ensures QueryString(keys, params) == ""
  {
    ListingMultiset(keys, params.Keys);
    assert params.Keys == {};
    assert |keys| == |multiset(keys)| == 0;
  }

  lemma NoPairs(keys: seq<string>, params: Params)
    ensures Pairs(keys[..0], params) == []
  {
  }

  lemma NoPairsOf(k: string, vs: seq<string>)
    ensures PairsOf(k, vs[..0]) == []
  {
  }

  lemma {:induction false} PairsOfStep(k: string, vs: seq<string>, j: nat)
    requires j < |vs|
    ensures PairsOf(k, vs[..j + 1]) == PairsOf(k, vs[..j]) + [Pair(k, vs[j])]
  {
    hide Pair;
    if j == 0 {
      NoPairsOf(k, vs);
      assert vs[..1][1..] == vs[..0];
    } else {
      PairsOfStep(k, vs[1..], j - 1);
      assert vs[..j + 1][1..] == vs[1..][..j] && vs[..j][1..] == vs[1..][..j - 1];
    }
  }

  lemma {:induction false} PairsStep(keys: seq<string>, params: Params, i: nat)
    requires i < |keys| && forall i | 0 <= i < |keys| :: keys[i] in params
    ensures Pairs(keys[..i + 1], params) == Pairs(keys[..i], params) + PairsOf(keys[i], params[keys[i]])
  {
    hide PairsOf;
    if i == 0 {
      assert keys[..1][1..] == [] && keys[..0] == [];
    } else {
      PairsStep(keys[1..], params, i - 1);
      assert keys[..i + 1][1..] == keys[1..][..i] && keys[..i][1..] == keys[1..][..i - 1];
      var x, y, z := PairsOf(keys[0], params[keys[0]]), Pairs(keys[1..][..i - 1], params),
          PairsOf(keys[i], params[keys[i]]);
      assert x + (y + z) == (x + y) + z;
    }
  }

  /*** Decoding ***/

  /** The text before and after the first '='. */
  function Cut(s: string): (string, string)
  {
    if s == [] then ("", "")
    else if s[0] == '=' then ("", s[1..])
    else ([s[0]] + Cut(s[1..]).0, Cut(s[1..]).1)
  }

  /** Decoded pairs grouped by key, values in order. */
  function Collect(pairs: seq<string>): Params
  {
    if pairs == [] then map[] else
      var m := Collect(pairs[1..]);
      var k, v := Decode(Cut(pairs[0]).0), Decode(Cut(pairs[0]).1);
      m[k := [v] + if k in m then m[k] else []]
  }

  function DecodeQuery(s: string): Params
  {
    if s == "" then map[] else Collect(Split(s, '&'))
  }

  lemma {:induction false} CutAt(a: string, b: string)
    requires '=' !in a
    ensures Cut(a + "=" + b) == (a, b)
  {
    var s := a + "=" + b;
    if a == [] {
      assert s[1..] == b;
    } else {
      CutAt(a[1..], b);
      assert s[1..] == a[1..] + "=" + b;
      assert a == [a[0]] + a[1..];
    }
  }

  lemma EncodedChars(s: string, c: char)
    requires c == '&' || c == '='
    ensures c !in Encoded(s)
  {
    EncodingIsWellFormed(s, false);
    if c in Encoded(s) {
      WellEncodedChars(Encoded(s), false, c);
    }
  }

  lemma PairDecodes(k: string, v: string)
    requires IsBytes(k) && IsBytes(v)
    ensures Decode(Cut(Pair(k, v)).0) == k && Decode(Cut(Pair(k, v)).1) == v
  {
    EncodedChars(k, '=');
    CutAt(Encoded(k), Encoded(v));
    DecodeEncoded(k, false);
    DecodeEncoded(v, false);
  }

  lemma {:induction false} CollectPairsOf(k: string, vs: seq<string>, rest: seq<string>)
    requires IsBytes(k) && forall i | 0 <= i < |vs| :: IsBytes(vs[i])
    requires k !in Collect(rest)
    ensures Collect(PairsOf(k, vs) + rest) == if vs == [] then Collect(rest) else Collect(rest)[k := vs]
  {
    hide Pair, Cut, Decode, IsBytes;
    var whole := PairsOf(k, vs) + rest;
    if vs == [] {
      assert whole == rest;
    } else {
      CollectPairsOf(k, vs[1..], rest);
      assert whole[1..] == PairsOf(k, vs[1..]) + rest;
      PairDecodes(k, vs[0]);
      assert vs == [vs[0]] + vs[1..];
    }
  }

  /** The parameters that have a value. */
  ghost function Valued(params: Params): Params
  {
    map k | k in params && params[k] != [] :: params[k]
  }

  lemma NothingCollected(keys: seq<string>, params: Params)
    requires forall i | 0 <= i < |keys| :: keys[i] in params
    ensures keys == [] ==> Collect(Pairs(keys, params)) == map[]
  {
  }

  lemma {:induction false} CollectPairs(keys: seq<string>, params: Params)
    requires AllBytes(params) && NoRepeats(keys) && forall i | 0 <= i < |keys| :: keys[i] in params
    ensures Collect(Pairs(keys, params)) == map k | k in keys && params[k] != [] :: params[k]
  {
    hide PairsOf, Collect, IsBytes;
    NothingCollected(keys, params);
    if keys == [] {
    } else {
      var k, rest := keys[0], keys[1..];
      CollectPairs(rest, params);
      assert keys == [k] + rest;
      assert k !in rest;
      CollectPairsOf(k, params[k], Pairs(rest, params));
    }
  }

  lemma {:induction false} PairsFree(keys: seq<string>, params: Params, i: nat)
    requires forall i | 0 <= i < |keys| :: keys[i] in params
    requires i < |Pairs(keys, params)|
    ensures '&' !in Pairs(keys, params)[i] && Pairs(keys, params)[i] != ""
  {
    var k := keys[0];
    var first := PairsOf(k, params[k]);
    if i < |first| {
      PairsOfFree(k, params[k], i);
    } else {
      PairsFree(keys[1..], params, i - |first|);
    }
  }

  lemma {:induction false} PairsOfFree(k: string, vs: seq<string>, i: nat)
    requires i < |PairsOf(k, vs)|
    ensures '&' !in PairsOf(k, vs)[i] && PairsOf(k, vs)[i] != ""
  {
    if i == 0 {
      EncodedChars(k, '&');
      EncodedChars(vs[0], '&');
    } else {
      PairsOfFree(k, vs[1..], i - 1);
    }
  }

  /** Decoding recovers the keys and value lists, except keys with no value at all. */
  lemma QueryDecodes(order: seq<string>, params: Params)
    requires AllBytes(params) && Listing(order, params.Keys)
    ensures DecodeQuery(QueryString(order, params)) == Valued(params)
  {
    SortListing(order, params.Keys);
    var keys := Sort(order);
    var pairs := Pairs(keys, params);
    CollectPairs(keys, params);
    assert Collect(pairs) == Valued(params);
    if pairs != [] {
      forall i | 0 <= i < |pairs| ensures '&' !in pairs[i] && pairs[i] != "" {
        PairsFree(keys, params, i);
      }
      SplitJoin(pairs, '&');
      assert Join(pairs, '&') != "";
    }
  }

  /*** Equal strings ***/

  function KeysWithValues(keys: seq<string>, params: Params): seq<string>
  {
    if keys == [] then []
    else (if keys[0] in params && params[keys[0]] != [] then [keys[0]] else []) + KeysWithValues(keys[1..], params)
  }

  lemma {:induction false} KeptKeys(keys: seq<string>, params: Params)
    requires forall i | 0 <= i < |keys| :: keys[i] in params
    ensures forall k :: k in KeysWithValues(keys, params) <==> k in keys && params[k] != []
  {
    if keys == [] {
    } else {
      KeptKeys(keys[1..], params);
      assert keys == [keys[0]] + keys[1..];
    }
  }

  lemma {:induction false} KeptSorted(keys: seq<string>, params: Params)
    requires forall i | 0 <= i < |keys| :: keys[i] in params
    requires StrictlySorted(keys)
    ensures StrictlySorted(KeysWithValues(keys, params))
  {
    hide Leq;
    if keys == [] {
    } else {
      KeptSorted(keys[1..], params);
      KeptKeys(keys[1..], params);
      var rest := KeysWithValues(keys[1..], params);
      forall j | 0 <= j < |rest| ensures Leq(keys[0], rest[j]) && keys[0] != rest[j] {
        assert rest[j] in keys[1..];
      }
    }
  }

  lemma {:induction false} ValuedPairs(keys: seq<string>, params: Params)
    requires forall i | 0 <= i < |keys| :: keys[i] in params
    requires forall i | 0 <= i < |KeysWithValues(keys, params)| :: KeysWithValues(keys, params)[i] in Valued(params)
    ensures Pairs(KeysWithValues(keys, params), Valued(params)) == Pairs(keys, params)
  {
    hide Pair;
    if keys == [] {
    } else {
      var rest := KeysWithValues(keys[1..], params);
      if params[keys[0]] != [] {
        assert KeysWithValues(keys, params) == [keys[0]] + rest;
        assert KeysWithValues(keys, params)[1..] == rest;
        forall i | 0 <= i < |rest| ensures rest[i] in Valued(params) {
          assert KeysWithValues(keys, params)[i + 1] == rest[i];
        }
        assert Valued(params)[keys[0]] == params[keys[0]];
      } else {
        assert KeysWithValues(keys, params) == rest;
      }
      ValuedPairs(keys[1..], params);
    }
  }

  /** The string is built from the keys that have a value, in sorted order. */
  lemma QueryOfValued(order: seq<string>, params: Params)
    requires Listing(order, params.Keys)
    ensures var kept := KeysWithValues(Sort(order), params);
      && Listing(kept, Valued(params).Keys) && StrictlySorted(kept)
      && QueryString(order, params) == Join(Pairs(kept, Valued(params)), '&')
  {
    hide Leq, Pairs, Join, Sort;
    SortListing(order, params.Keys);
    var keys := Sort(order);
    var kept := KeysWithValues(keys, params);
    KeptKeys(keys, params);
    KeptSorted(keys, params);
    assert forall i | 0 <= i < |kept| :: kept[i] in kept;
    ValuedPairs(keys, params);
  }

  /** The canonical query string depends on exactly the valued parameters: maps that differ there
      have different strings. */
  lemma QueryStringsDistinguish(o1: seq<string>, p1: Params, o2: seq<string>, p2: Params)
    requires AllBytes(p1) && AllBytes(p2)
    requires Listing(o1, p1.Keys) && Listing(o2, p2.Keys)
    ensures QueryString(o1, p1) == QueryString(o2, p2) <==> Valued(p1) == Valued(p2)
  {
    hide Pairs, Join, Sort, AllBytes, KeysWithValues, Listing, QueryString;
    QueryDecodes(o1, p1);
    QueryDecodes(o2, p2);
    QueryOfValued(o1, p1);
    QueryOfValued(o2, p2);
    if Valued(p1) == Valued(p2) {
      var k1, k2 := KeysWithValues(Sort(o1), p1), KeysWithValues(Sort(o2), p2);
      ListingMultiset(k1, Valued(p1).Keys);
      ListingMultiset(k2, Valued(p1).Keys);
      SortedUnique(k1, k2);
    }
  }
}
