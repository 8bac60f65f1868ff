// The canonical header lines and the signed-header list of the request signer.
module Headers {
  import opened Text

  type Header = map<string, seq<string>>

  /** Lower case for ASCII, which header field names are made of. */
  function Lower(s: string): (r: string)
    ensures |r| == |s|
  {
    if s == [] then ""
    else [if 'A' <= s[0] <= 'Z' then (s[0] as int + 32) as char else s[0]] + Lower(s[1..])
  }

  predicate IsSpace(c: char)
  {
    c == ' ' || ('\t' <= c <= '\r')
  }

  function TrimSpace(s: string): string
  {
    if s == [] then ""
    else if IsSpace(s[0]) then TrimSpace(s[1..])
    else if IsSpace(s[|s| - 1]) then TrimSpace(s[..|s| - 1])
    else s
  }

  lemma {:induction false} LowerAt(s: string, i: nat)
    requires i < |s|
    ensures Lower(s)[i] == if 'A' <= s[i] <= 'Z' then 'a' + (s[i] - 'A') else s[i]
  {
    if i == 0 {
    } else {
      LowerAt(s[1..], i - 1);
    }
  }

  /** Trimming takes away white space at both ends, all of it and nothing else. */
  lemma {:induction false} TrimmedIs(s: string) returns (i: nat, j: nat)
    ensures i <= j <= |s| && TrimSpace(s) == s[i..j]
    ensures forall k | 0 <= k < i || j <= k < |s| :: s[k] in {' ', '\t', '\n', '\r', '\U{0B}', '\U{0C}'}
    ensures i < j ==> s[i] !in {' ', '\t', '\n', '\r', '\U{0B}', '\U{0C}'} &&
                      s[j - 1] !in {' ', '\t', '\n', '\r', '\U{0B}', '\U{0C}'}
  {
    if s == [] {
      i, j := 0, 0;
    } else if IsSpace(s[0]) {
      i, j := TrimmedIs(s[1..]);
      assert s[1..][i..j] == s[i + 1..j + 1];
      assert forall k | 0 < k < |s| :: s[k] == s[1..][k - 1];
      i, j := i + 1, j + 1;
    } else if IsSpace(s[|s| - 1]) {
      i, j := TrimmedIs(s[..|s| - 1]);
      assert s[..|s| - 1][i..j] == s[i..j];
      assert forall k | 0 <= k < |s| - 1 :: s[k] == s[..|s| - 1][k];
    } else {
      i, j := 0, |s|;
    }
  }

  predicate IsSignedName(lower: string)
  {
    lower == "host" || lower == "content-type" || "x-sdk-" <= lower || "x-project-" <= lower
  }

  predicate IsSigned(key: string)
  {
    IsSignedName(Lower(key))
  }

  /** The code reads the first value of every signed header. */
  ghost predicate HasValues(header: Header)
  {
    forall k :: k in header && IsSigned(k) ==> header[k] != []
  }

  function FirstValue(header: Header, key: string): string
  {
    if key in header && header[key] != [] then TrimSpace(header[key][0]) else ""
  }

  /** Lower-case names of the signed headers, in iteration order. */
  function SignedNames(order: seq<string>): seq<string>
  {
    if order == [] then []
    else
      var key := order[|order| - 1];
      SignedNames(order[..|order| - 1]) + if IsSigned(key) then [Lower(key)] else []
  }

  /** Lower-case name to value; a later header overwrites an earlier one of the same name. */
  function SignedValues(order: seq<string>, header: Header): map<string, string>
  {
    if order == [] then map[]
    else
      var key := order[|order| - 1];
      var m := SignedValues(order[..|order| - 1], header);
      if IsSigned(key) then m[Lower(key) := FirstValue(header, key)] else m
  }

  function NamesWithHost(order: seq<string>): seq<string>
  {
    SignedNames(order) + if "host" in SignedNames(order) then [] else ["host"]
  }

  function ValuesWithHost(order: seq<string>, header: Header, host: string): map<string, string>
  {
    var m := SignedValues(order, header);
    if "host" in m then m else m["host" := host]
  }

  function ValueOf(values: map<string, string>, name: string): string
  {
    if name in values then values[name] else ""
  }

  /** One "name:value" line per name. */
  function Lines(names: seq<string>, values: map<string, string>): string
  {
    if names == [] then ""
    else names[0] + ":" + ValueOf(values, names[0]) + "\n" + Lines(names[1..], values)
  }

  /** Header lines and signed-header list when the header map is iterated in this order. */
  function CanonicalHeaders(order: seq<string>, header: Header, host: string): (string, string)
  {
    var names := Sort(NamesWithHost(order));
    (Lines(names, ValuesWithHost(order, header, host)), Join(names, ';'))
  }

  method CollectHeaders(header: Header) returns (headers: map<string, string>, headerKeys: seq<string>,
                        ghost order: seq<string>)
    requires HasValues(header)
    ensures Listing(order, header.Keys)
    ensures headers == SignedValues(order, header) && headerKeys == SignedNames(order)
  {
    hide Lower, TrimSpace, IsSigned, IsSignedName;
    headers, headerKeys, order := map[], [], [];
    var rest := header.Keys;
    while rest != {}
      invariant rest <= header.Keys && Listing(order, header.Keys - rest)
      invariant headers == SignedValues(order, header) && headerKeys == SignedNames(order)
      decreases |rest|
    {
      var key :| key in rest;
      var lowerKey := Lower(key);
      assert (order + [key])[..|order|] == order;
      SignedMeansName(key);
      if IsSignedName(lowerKey) {
        headers := headers[lowerKey := TrimSpace(header[key][0])];
        headerKeys := headerKeys + [lowerKey];
      }
      order := order + [key];
      rest := rest - {key};
    }
    assert header.Keys - {} == header.Keys;
  }

  method WriteLines(headerKeys: seq<string>, headers: map<string, string>) returns (lines: string)
    ensures lines == Lines(headerKeys, headers)
  {
    hide Lines;
    lines := "";
    NoLines(headerKeys, headers);
    for i := 0 to |headerKeys|
      invariant lines == Lines(headerKeys[..i], headers)
    {
      LinesStep(headerKeys, headers, i);
      lines := lines + (headerKeys[i] + ":" + ValueOf(headers, headerKeys[i]) + "\n");
    }
    assert headerKeys[..|headerKeys|] == headerKeys;
  }

  /** `order` is the one in which the header map happened to be iterated, `names` and `values` are what
      the two strings are made of. */
  method BuildCanonicalHeaders(header: Header, host: string) returns (lines: string, signed: string,
                               ghost order: seq<string>, ghost names: seq<string>, ghost values: map<string, string>)
    requires HasValues(header)
    ensures signed == Join(names, ';') && lines == Lines(names, values)
    // in the order of bytes
    ensures forall i, j | 0 <= i < j < |names| ::
              || names[i] <= names[j]
              || exists d | 0 <= d < |names[i]| && d < |names[j]| ::
                   names[i][..d] == names[j][..d] && names[i][d] < names[j][d]
    // which headers are signed
    ensures forall n :: n in names <==>
              || n == "host"
              || ((n == "content-type" || "x-sdk-" <= n || "x-project-" <= n) && exists k | k in header ::
                  Lower(k) == n)
    // with which values
    ensures forall n | n in names :: n in values &&
              if n == "host" && (forall k | k in header :: Lower(k) != "host") then values[n] == host
              else exists k | k in header && Lower(k) == n && header[k] != [] :: values[n] == TrimSpace(header[k][0])
    ensures Listing(order, header.Keys)
    ensures (lines, signed) == CanonicalHeaders(order, header, host)
    ensures NoConflict(header) ==> forall o | Listing(o, header.Keys) ::
              (lines, signed) == CanonicalHeaders(o, header, host)
  {
    hide Lower, TrimSpace, Sort, Join, Lines, IsSigned, SignedNames, SignedValues, Listing, NoConflict, FirstValue;
    var headers, headerKeys;
    headers, headerKeys, order := CollectHeaders(header);
    NamesAreKeys(order, header);
    assert headerKeys + [] == headerKeys;
    if "host" !in headers {
      headers := headers["host" := host];
      headerKeys := headerKeys + ["host"];
    }
    headerKeys := Sort(headerKeys);
    lines := WriteLines(headerKeys, headers);
    signed := Join(headerKeys, ';');
    OrderFreeIffNoConflict(header, host);
    names, values := headerKeys, headers;
    NamesInOrder(order);
    NamesAndValues(order, header, host);
  }

  lemma NamesInOrder(order: seq<string>)
    ensures var names := Sort(NamesWithHost(order));
      forall i, j | 0 <= i < j < |names| ::
        || names[i] <= names[j]
        || exists d | 0 <= d < |names[i]| && d < |names[j]| ::
             names[i][..d] == names[j][..d] && names[i][d] < names[j][d]
  {
    hide Leq, Sort;
    var names := Sort(NamesWithHost(order));
    SortSorts(NamesWithHost(order));
    forall i, j | 0 <= i < j < |names| ensures Leq(names[i], names[j]) {
    }
    forall i, j | 0 <= i < j < |names|
      ensures || names[i] <= names[j]
              || exists d | 0 <= d < |names[i]| && d < |names[j]| ::
                   names[i][..d] == names[j][..d] && names[i][d] < names[j][d]
    {
      LeqIsBytewise(names[i], names[j]);
    }
  }

  lemma NamesAndValues(order: seq<string>, header: Header, host: string)
    requires HasValues(header) && Listing(order, header.Keys)
    ensures var names, values := Sort(NamesWithHost(order)), ValuesWithHost(order, header, host);
      && (forall n :: n in names <==>
            || n == "host"
            || ((n == "content-type" || "x-sdk-" <= n || "x-project-" <= n) && exists k | k in header :: Lower(k) == n))
      && (forall n | n in names :: n in values &&
            if n == "host" && (forall k | k in header :: Lower(k) != "host") then values[n] == host
            else exists k | k in header && Lower(k) == n && header[k] != [] :: values[n] == TrimSpace(header[k][0]))
  {
    hide Sort, Lower, TrimSpace, SignedNames, SignedValues;
    var names, values := Sort(NamesWithHost(order)), ValuesWithHost(order, header, host);
    SortSorts(NamesWithHost(order));
    NamesAreKeys(order, header);
    forall n ensures n in names <==> n == "host" || n in SignedValues(order, header) {
      assert n in names <==> n in multiset(names);
    }
    forall n
      ensures n in SignedValues(order, header) <==> exists k :: k in header && IsSigned(k) && Lower(k) == n
      ensures n in SignedValues(order, header) ==>
                exists k :: k in header && IsSigned(k) && Lower(k) == n && header[k] != [] &&
                    SignedValues(order, header)[n] == TrimSpace(header[k][0])
    {
      ValueSource(order, header, n);
    }
  }

  lemma NoLines(names: seq<string>, values: map<string, string>)
    ensures Lines(names[..0], values) == ""
  {
  }

  lemma SignedMeansName(key: string)
    ensures IsSigned(key) <==> IsSignedName(Lower(key))
  {
  }

  lemma {:induction false} NamesAreKeys(order: seq<string>, header: Header)
    ensures forall n :: n in SignedNames(order) <==> n in SignedValues(order, header)
  {
    if order == [] {
    } else {
      NamesAreKeys(order[..|order| - 1], header);
    }
  }

  lemma {:induction false} LinesStep(names: seq<string>, values: map<string, string>, i: nat)
    requires i < |names|
    ensures Lines(names[..i + 1], values) == Lines(names[..i], values) +
              (names[i] + ":" + ValueOf(values, names[i]) + "\n")
  {
    if i == 0 {
      assert names[..1][1..] == [];
    } else {
      LinesStep(names[1..], values, i - 1);
      assert names[..i + 1][1..] == names[1..][..i] && names[..i][1..] == names[1..][..i - 1];
      var x := names[0] + ":" + ValueOf(values, names[0]) + "\n";
      var y, z := Lines(names[1..][..i - 1], values), names[i] + ":" + ValueOf(values, names[i]) + "\n";
      assert x + (y + z) == (x + y) + z;
    }
  }

  /*** Iteration order ***/

  /** Signed headers whose names differ only in case agree on their first value. */
  ghost predicate NoConflict(header: Header)
  {
    forall j, k | j in header && k in header && IsSigned(j) && IsSigned(k) ::
      Lower(j) == Lower(k) ==> FirstValue(header, j) == FirstValue(header, k)
  }

  lemma {:induction false} NamesAppend(a: seq<string>, b: seq<string>)
    ensures SignedNames(a + b) == SignedNames(a) + SignedNames(b)
  {
    hide IsSigned, Lower;
    if b == [] {
      assert a + b == a;
    } else {
      NamesAppend(a, b[..|b| - 1]);
      assert (a + b)[..|a + b| - 1] == a + b[..|b| - 1];
    }
  }

  function Removed(s: seq<string>, j: nat): (r: seq<string>)
    requires j < |s|
    ensures |r| == |s| - 1
  {
    s[..j] + s[j + 1..]
  }

  lemma RemovedMultiset(s: seq<string>, j: nat)
    requires j < |s|
    ensures multiset(Removed(s, j)) == multiset(s) - multiset{s[j]}
  {
    assert s == s[..j] + [s[j]] + s[j + 1..];
  }

  lemma NamesRemoved(s: seq<string>, j: nat)
    requires j < |s|
    ensures multiset(SignedNames(s)) == multiset(SignedNames(Removed(s, j))) + multiset(SignedNames([s[j]]))
  {
    hide SignedNames;
    var before, x, after := s[..j], [s[j]], s[j + 1..];
    assert s == before + x + after;
    NamesAppend(before, after);
    NamesAppend(before + x, after);
    NamesAppend(before, x);
  }

  lemma FindIn(s: seq<string>, x: string) returns (j: nat)
    requires x in multiset(s)
    ensures j < |s| && s[j] == x
  {
    j :| 0 <= j < |s| && s[j] == x;
  }

  /** The multiset of signed names does not depend on the order. */
  lemma {:induction false} NamesOrderFree(a: seq<string>, b: seq<string>)
    requires multiset(a) == multiset(b)
    ensures multiset(SignedNames(a)) == multiset(SignedNames(b))
    decreases |a|
  {
    hide SignedNames, Removed;
    assert |a| == |multiset(a)| == |multiset(b)| == |b|;
    if a == [] {
      assert b == [];
    } else {
      assert a[0] in multiset(a);
      var j := FindIn(b, a[0]);
      RemovedMultiset(a, 0);
      RemovedMultiset(b, j);
      NamesOrderFree(Removed(a, 0), Removed(b, j));
      NamesRemoved(a, 0);
      NamesRemoved(b, j);
    }
  }

  lemma NamesSame(a: seq<string>, b: seq<string>, keys: set<string>)
    requires Listing(a, keys) && Listing(b, keys)
    ensures Sort(NamesWithHost(a)) == Sort(NamesWithHost(b))
  {
    hide Listing, SignedNames, Sort;
    ListingMultiset(a, keys);
    ListingMultiset(b, keys);
    NamesOrderFree(a, b);
    assert "host" in SignedNames(a) <==> "host" in multiset(SignedNames(b));
    SortOrderFree(NamesWithHost(a), NamesWithHost(b));
  }

  /** Where the value of a name comes from. */
  lemma {:induction false} ValueSource(order: seq<string>, header: Header, n: string)
    ensures n in SignedValues(order, header) ==>
              exists k :: k in order && IsSigned(k) && Lower(k) == n &&
                  SignedValues(order, header)[n] == FirstValue(header, k)
    ensures (exists k :: k in order && IsSigned(k) && Lower(k) == n) ==> n in SignedValues(order, header)
  {
    hide IsSigned, Lower, FirstValue;
    if order == [] {
    } else {
      var last, init := order[|order| - 1], order[..|order| - 1];
      assert order == init + [last];
      ValueSource(init, header, n);
    }
  }

  /** Without conflicting spellings the result does not depend on the iteration order. */
  lemma HeadersOrderFree(a: seq<string>, b: seq<string>, header: Header, host: string)
    requires Listing(a, header.Keys) && Listing(b, header.Keys)
    requires NoConflict(header)
    ensures CanonicalHeaders(a, header, host) == CanonicalHeaders(b, header, host)
  {
    hide IsSigned, Lower, FirstValue, Sort, Lines, Join, SignedNames, NamesWithHost;
    NamesSame(a, b, header.Keys);
    var va, vb := SignedValues(a, header), SignedValues(b, header);
    forall n ensures n in va <==> n in vb {
      ValueSource(a, header, n);
      ValueSource(b, header, n);
    }
    forall n | n in va ensures va[n] == vb[n] {
      ValueSource(a, header, n);
      ValueSource(b, header, n);
    }
    assert va == vb;
  }

  /*** ... and only then ***/

  lemma {:induction false} LinesShorter(names: seq<string>, k: string, v: map<string, string>, w: map<string, string>)
    requires forall n | n in names && n != k :: ValueOf(v, n) == ValueOf(w, n)
    requires |ValueOf(v, k)| < |ValueOf(w, k)|
    ensures |Lines(names, v)| <= |Lines(names, w)|
    ensures k in names ==> |Lines(names, v)| < |Lines(names, w)|
  {
    if names == [] {
    } else {
      LinesShorter(names[1..], k, v, w);
    }
  }

  /** Changing the value of one listed name changes the lines. */
  lemma {:induction false} LinesDiffer(names: seq<string>, k: string, v: map<string, string>, w: map<string, string>)
    requires k in names && forall n | n in names && n != k :: ValueOf(v, n) == ValueOf(w, n)
    requires ValueOf(v, k) != ValueOf(w, k)
    ensures Lines(names, v) != Lines(names, w)
  {
    if |ValueOf(v, k)| < |ValueOf(w, k)| {
      LinesShorter(names, k, v, w);
    } else if |ValueOf(w, k)| < |ValueOf(v, k)| {
      LinesShorter(names, k, w, v);
    } else {
      var n, rest := names[0], names[1..];
      var hv, hw := n + ":" + ValueOf(v, n) + "\n", n + ":" + ValueOf(w, n) + "\n";
      assert Lines(names, v)[..|hv|] == hv && Lines(names, v)[|hv|..] == Lines(rest, v);
      assert Lines(names, w)[..|hw|] == hw && Lines(names, w)[|hw|..] == Lines(rest, w);
      if n == k {
        assert hv[|n| + 1..|hv| - 1] == ValueOf(v, k);
        assert hw[|n| + 1..|hw| - 1] == ValueOf(w, k);
      } else {
        LinesDiffer(rest, k, v, w);
      }
    }
  }

  lemma {:induction false} OrderExists(keys: set<string>) returns (order: seq<string>)
    ensures Listing(order, keys)
  {
    order := [];
    if keys == {} {
    } else {
      var k :| k in keys;
      var rest := OrderExists(keys - {k});
      order := rest + [k];
    }
  }

  lemma LastSpellingWins(rest: seq<string>, j: string, k: string, header: Header)
    requires IsSigned(j) && IsSigned(k) && Lower(j) == Lower(k)
    ensures SignedValues(rest + [j, k], header) == SignedValues(rest, header)[Lower(k) := FirstValue(header, k)]
    ensures Lower(k) in SignedNames(rest + [j, k])
  {
    hide IsSigned, Lower, FirstValue;
    var a := rest + [j, k];
    assert a[..|a| - 1] == rest + [j];
    assert (rest + [j])[..|rest|] == rest;
  }

  lemma AppendTwo(rest: seq<string>, keys: set<string>, j: string, k: string)
    requires j in keys && k in keys && j != k && Listing(rest, keys - {j, k})
    ensures Listing(rest + [j, k], keys)
  {
    var a := rest + [j, k];
    forall x | x in keys ensures x in a {
      assert x == j || x == k || x in rest;
      assert a[|rest|] == j && a[|rest| + 1] == k;
    }
  }

  /** Two spellings with different values: two orders of iteration give different canonical headers. */
  lemma ConflictShows(header: Header, host: string, j: string, k: string) returns (a: seq<string>, b: seq<string>)
    requires j in header && k in header && IsSigned(j) && IsSigned(k)
    requires Lower(j) == Lower(k) && FirstValue(header, j) != FirstValue(header, k)
    ensures Listing(a, header.Keys) && Listing(b, header.Keys)
    ensures CanonicalHeaders(a, header, host) != CanonicalHeaders(b, header, host)
  {
    hide IsSigned, Lower, FirstValue, Sort, Join, Lines, SignedNames, SignedValues, Listing, NamesWithHost,
         ValuesWithHost;
    var rest := OrderExists(header.Keys - {j, k});
    a, b := rest + [j, k], rest + [k, j];
    assert {k, j} == {j, k};
    AppendTwo(rest, header.Keys, j, k);
    AppendTwo(rest, header.Keys, k, j);
    LastSpellingWins(rest, j, k, header);
    LastSpellingWins(rest, k, j, header);
    NamesSame(a, b, header.Keys);
    NameListed(a, Lower(j));
    ConflictingLines(Sort(NamesWithHost(a)), SignedValues(rest, header), Lower(j), a, b, header, host);
  }

  lemma NameListed(order: seq<string>, n: string)
    requires n in SignedNames(order)
    ensures n in Sort(NamesWithHost(order))
  {
    SortSorts(NamesWithHost(order));
    assert n in multiset(Sort(NamesWithHost(order)));
  }

  lemma ConflictingLines(names: seq<string>, m: map<string, string>, n: string, a: seq<string>,
                         b: seq<string>, header: Header, host: string)
    requires n in names
    requires n in SignedValues(a, header) && SignedValues(a, header) == m[n := SignedValues(a, header)[n]]
    requires n in SignedValues(b, header) && SignedValues(b, header) == m[n := SignedValues(b, header)[n]]
    requires SignedValues(a, header)[n] != SignedValues(b, header)[n]
    ensures Lines(names, ValuesWithHost(a, header, host)) != Lines(names, ValuesWithHost(b, header, host))
  {
    hide SignedValues, Lines;
    LinesDiffer(names, n, ValuesWithHost(a, header, host), ValuesWithHost(b, header, host));
  }

  /** The canonical headers are well defined exactly when no two spellings conflict. */
  lemma OrderFreeIffNoConflict(header: Header, host: string)
    ensures NoConflict(header) <==>
            forall a, b | Listing(a, header.Keys) && Listing(b, header.Keys) ::
              CanonicalHeaders(a, header, host) == CanonicalHeaders(b, header, host)
  {
    hide CanonicalHeaders, Listing, IsSigned, Lower, FirstValue;
    if NoConflict(header) {
      forall a, b | Listing(a, header.Keys) && Listing(b, header.Keys)
        ensures CanonicalHeaders(a, header, host) == CanonicalHeaders(b, header, host)
      {
        HeadersOrderFree(a, b, header, host);
      }
    } else {
      var j, k :| j in header && k in header && IsSigned(j) && IsSigned(k) && Lower(j) == Lower(k) &&
          FirstValue(header, j) != FirstValue(header, k);
      var a, b := ConflictShows(header, host, j, k);
    }
  }

  /*** What the two strings contain ***/

  /** Signed header names are distinct after lower-casing. */
  ghost predicate DistinctNames(header: Header)
  {
    forall j, k | j in header && k in header && IsSigned(j) && IsSigned(k) :: Lower(j) == Lower(k) ==> j == k
  }

  lemma {:induction false} NamesDistinct(order: seq<string>, header: Header)
    requires DistinctNames(header) && NoRepeats(order) && forall i | 0 <= i < |order| :: order[i] in header
    ensures NoRepeats(SignedNames(order))
    ensures forall n :: n in SignedNames(order) ==> exists k :: k in order && IsSigned(k) && Lower(k) == n
  {
    hide IsSigned, Lower;
    if order == [] {
    } else {
      var last, init := order[|order| - 1], order[..|order| - 1];
      assert order == init + [last];
      NamesDistinct(init, header);
      assert last !in init;
      if IsSigned(last) {
        forall k | k in init && IsSigned(k) ensures Lower(k) != Lower(last) {
          assert k != last;
        }
        assert Lower(last) !in SignedNames(init);
      }
    }
  }

  /** The signed names are strictly sorted, so host, which is always there, occurs once. */
  lemma SignedNamesSorted(order: seq<string>, header: Header)
    requires DistinctNames(header) && Listing(order, header.Keys)
    ensures var names := Sort(NamesWithHost(order));
            StrictlySorted(names) && "host" in names
  {
    hide IsSigned, Lower, SignedNames, Sort, StrictlySorted;
    NamesDistinct(order, header);
    var names := NamesWithHost(order);
    assert NoRepeats(names) && "host" in names;
    var elements := set n | n in names;
    SortListing(names, elements);
  }

  /** A name or value that cannot be mistaken for a separator. */
  predicate Clean(s: string, forbidden: string)
  {
    forall i | 0 <= i < |s| :: s[i] !in forbidden
  }

  function BeforeColon(line: string): string
  {
    if line == "" || line[0] == ':' then "" else [line[0]] + BeforeColon(line[1..])
  }

  /** Names and values of the header lines, in order. */
  function ParseLines(lines: seq<string>): seq<(string, string)>
  {
    if |lines| <= 1 then []
    else
      var name := BeforeColon(lines[0]);
      [(name, if |name| < |lines[0]| then lines[0][|name| + 1..] else "")] + ParseLines(lines[1..])
  }

  lemma {:induction false} ColonFound(name: string, value: string)
    requires ':' !in name
    ensures BeforeColon(name + ":" + value) == name
  {
    if name == "" {
    } else {
      ColonFound(name[1..], value);
      assert (name + ":" + value)[1..] == name[1..] + ":" + value;
      assert name == [name[0]] + name[1..];
    }
  }

  function Fields(names: seq<string>, values: map<string, string>): seq<(string, string)>
  {
    if names == [] then [] else [(names[0], ValueOf(values, names[0]))] + Fields(names[1..], values)
  }

  lemma {:induction false} LinesParse(names: seq<string>, values: map<string, string>)
    requires forall i | 0 <= i < |names| :: Clean(names[i], ":;\n") && Clean(ValueOf(values, names[i]), "\n")
    ensures ParseLines(Split(Lines(names, values), '\n')) == Fields(names, values)
  {
    if names == [] {
    } else {
      var name, value := names[0], ValueOf(values, names[0]);
      var line := name + ":" + value;
      assert '\n' !in name && ':' !in name && '\n' !in value && '\n' !in line;
      SplitAtSeparator(line, Lines(names[1..], values), '\n');
      assert Lines(names, values) == line + "\n" + Lines(names[1..], values);
      ColonFound(name, value);
      assert line[|name| + 1..] == value;
      LinesParse(names[1..], values);
    }
  }

  /** Splitting the signed-header list gives exactly the names of the header lines, in order, and
      the lines give back every signed value. */
  lemma HeadersParse(order: seq<string>, header: Header, host: string)
    requires var names := Sort(NamesWithHost(order));
      forall i | 0 <= i < |names| :: Clean(names[i], ":;\n") &&
          Clean(ValueOf(ValuesWithHost(order, header, host), names[i]), "\n")
    ensures var names := Sort(NamesWithHost(order));
      var (lines, signed) := CanonicalHeaders(order, header, host);
      && Split(signed, ';') == names
      && ParseLines(Split(lines, '\n')) == Fields(names, ValuesWithHost(order, header, host))
  {
    hide Sort, SignedNames, SignedValues;
    var names := Sort(NamesWithHost(order));
    SortSorts(NamesWithHost(order));
    assert |names| == |multiset(names)| == |multiset(NamesWithHost(order))| == |NamesWithHost(order)| >= 1;
    SplitJoin(names, ';');
    LinesParse(names, ValuesWithHost(order, header, host));
  }
}
