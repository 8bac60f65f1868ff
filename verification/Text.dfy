// Strings as the signer uses them: splitting and joining, the bytewise order, sorting.
module Text {

  /*** Split and join ***/

  /** The parts between separators; always at least one. */
  function Split(s: string, sep: char): (parts: seq<string>)
    ensures |parts| >= 1
  {
    if s == [] then [""]
    else
      var rest := Split(s[1..], sep);
      if s[0] == sep then [""] + rest else [[s[0]] + rest[0]] + rest[1..]
  }

  function Join(parts: seq<string>, sep: char): string
  {
    if parts == [] then "" else if |parts| == 1 then parts[0] else parts[0] + [sep] + Join(parts[1..], sep)
  }

  lemma {:induction false} SplitSingle(s: string, sep: char)
    requires sep !in s
    ensures Split(s, sep) == [s]
  {
    if s == [] {
    } else {
      SplitSingle(s[1..], sep);
      assert [s[0]] + s[1..] == s;
    }
  }

  lemma {:induction false} SplitAtSeparator(s: string, t: string, sep: char)
    requires sep !in s
    ensures Split(s + [sep] + t, sep) == [s] + Split(t, sep)
  {
    var whole := s + [sep] + t;
    if s == [] {
      assert whole[1..] == t;
    } else {
      SplitAtSeparator(s[1..], t, sep);
      assert whole[1..] == s[1..] + [sep] + t;
      assert [s[0]] + s[1..] == s;
    }
  }

  /** Splitting undoes joining when no part contains the separator. */
  lemma {:induction false} SplitJoin(parts: seq<string>, sep: char)
    requires parts != [] && forall i | 0 <= i < |parts| :: sep !in parts[i]
    ensures Split(Join(parts, sep), sep) == parts
  {
    if |parts| == 1 {
      SplitSingle(parts[0], sep);
    } else {
      SplitJoin(parts[1..], sep);
      SplitAtSeparator(parts[0], Join(parts[1..], sep), sep);
    }
  }

  lemma {:induction false} SplitPartsFree(s: string, sep: char, i: nat)
    requires i < |Split(s, sep)|
    ensures sep !in Split(s, sep)[i]
  {
    if s == [] {
    } else {
      var rest := Split(s[1..], sep);
      if s[0] == sep {
        if i > 0 {
          SplitPartsFree(s[1..], sep, i - 1);
        }
      } else {
        SplitPartsFree(s[1..], sep, i);
      }
    }
  }

  /*** The order of sort.Strings ***/

  predicate Leq(a: string, b: string)
  {
    a == [] || (b != [] && (a[0] < b[0] || (a[0] == b[0] && Leq(a[1..], b[1..]))))
  }

  lemma {:induction false} LeqTotal(a: string, b: string)
    ensures Leq(a, b) || Leq(b, a)
    ensures Leq(a, a)
  {
    if a == [] {
    } else {
      LeqTotal(a[1..], if b == [] then b else b[1..]);
    }
  }

  lemma {:induction false} LeqAntisymmetric(a: string, b: string)
    requires Leq(a, b) && Leq(b, a)
    ensures a == b
  {
    if a == [] {
    } else {
      LeqAntisymmetric(a[1..], b[1..]);
      assert a == [a[0]] + a[1..] && b == [b[0]] + b[1..];
    }
  }

  lemma {:induction false} LeqTransitive(a: string, b: string, c: string)
    requires Leq(a, b) && Leq(b, c)
    ensures Leq(a, c)
  {
    if a == [] {
    } else if a[0] == b[0] == c[0] {
      LeqTransitive(a[1..], b[1..], c[1..]);
    }
  }

  /** The order of bytes: a prefix comes first, else the first difference decides. */
  lemma {:induction false} LeqIsBytewise(a: string, b: string)
    ensures Leq(a, b) <==> a <= b || exists i | 0 <= i < |a| && i < |b| :: a[..i] == b[..i] && a[i] < b[i]
  {
    if a == [] || b == [] {
    } else if a[0] != b[0] {
      assert a[..0] == b[..0];
      assert forall i | 0 < i < |a| && i < |b| :: a[..i][0] == a[0] && b[..i][0] == b[0];
    } else {
      LeqIsBytewise(a[1..], b[1..]);
      assert a == [a[0]] + a[1..] && b == [b[0]] + b[1..];
      if i :| 0 <= i < |a[1..]| && i < |b[1..]| && a[1..][..i] == b[1..][..i] && a[1..][i] < b[1..][i] {
        assert a[..i + 1] == [a[0]] + a[1..][..i] && b[..i + 1] == [b[0]] + b[1..][..i];
        assert a[i + 1] < b[i + 1];
      }
      if i :| 0 <= i < |a| && i < |b| && a[..i] == b[..i] && a[i] < b[i] {
        assert a[..i][1..] == a[1..][..i - 1] && b[..i][1..] == b[1..][..i - 1];
        assert a[1..][i - 1] < b[1..][i - 1];
      }
    }
  }

  ghost predicate Sorted(keys: seq<string>)
  {
    forall i, j | 0 <= i < j < |keys| :: Leq(keys[i], keys[j])
  }

  ghost predicate StrictlySorted(keys: seq<string>)
  {
    forall i, j | 0 <= i < j < |keys| :: Leq(keys[i], keys[j]) && keys[i] != keys[j]
  }

  function Insert(x: string, keys: seq<string>): seq<string>
  {
    if keys == [] then [x]
    else if Leq(x, keys[0]) then [x] + keys
    else [keys[0]] + Insert(x, keys[1..])
  }

  /** What sort.Strings leaves. */
  function Sort(keys: seq<string>): seq<string>
  {
    if keys == [] then [] else Insert(keys[0], Sort(keys[1..]))
  }

  lemma {:induction false} InsertSorted(x: string, keys: seq<string>)
    requires Sorted(keys)
    ensures Sorted(Insert(x, keys)) && multiset(Insert(x, keys)) == multiset{x} + multiset(keys)
  {
    hide Leq;
    if keys == [] {
    } else if Leq(x, keys[0]) {
      forall j | 0 <= j < |keys| ensures Leq(x, keys[j]) {
        if j > 0 {
          LeqTransitive(x, keys[0], keys[j]);
        }
      }
    } else {
      LeqTotal(x, keys[0]);
      var rest := Insert(x, keys[1..]);
      InsertSorted(x, keys[1..]);
      assert keys == [keys[0]] + keys[1..];
      forall j | 0 <= j < |rest| ensures Leq(keys[0], rest[j]) {
        assert rest[j] in multiset(rest);
        assert rest[j] == x || rest[j] in keys[1..];
      }
    }
  }

  lemma {:induction false} SortSorts(keys: seq<string>)
    ensures Sorted(Sort(keys)) && multiset(Sort(keys)) == multiset(keys)
  {
    if keys == [] {
    } else {
      SortSorts(keys[1..]);
      InsertSorted(keys[0], Sort(keys[1..]));
      assert keys == [keys[0]] + keys[1..];
    }
  }

  lemma HeadLeast(keys: seq<string>, x: string)
    requires Sorted(keys) && x in keys
    ensures Leq(keys[0], x)
  {
    LeqTotal(x, x);
  }

  /** A sorted sequence is determined by its elements. */
  lemma {:induction false} SortedUnique(a: seq<string>, b: seq<string>)
    requires Sorted(a) && Sorted(b) && multiset(a) == multiset(b)
    ensures a == b
  {
    hide Leq;
    assert |a| == |multiset(a)| == |multiset(b)| == |b|;
    if a == [] {
    } else {
      assert a[0] in multiset(b) && b[0] in multiset(a);
      HeadLeast(a, b[0]);
      HeadLeast(b, a[0]);
      LeqAntisymmetric(a[0], b[0]);
      SplitHead(a);
      SplitHead(b);
      assert multiset(a[1..]) == multiset(b[1..]);
      SortedUnique(a[1..], b[1..]);
    }
  }

  lemma SplitHead(keys: seq<string>)
    requires keys != []
    ensures keys == [keys[0]] + keys[1..] && multiset(keys[1..]) == multiset(keys) - multiset{keys[0]}
    ensures Sorted(keys) ==> Sorted(keys[1..])
  {
    assert keys == [keys[0]] + keys[1..];
  }

  lemma SortOrderFree(a: seq<string>, b: seq<string>)
    requires multiset(a) == multiset(b)
    ensures Sort(a) == Sort(b)
  {
    SortSorts(a);
    SortSorts(b);
    SortedUnique(Sort(a), Sort(b));
  }

  ghost predicate NoRepeats<T>(keys: seq<T>)
  {
    forall i, j | 0 <= i < j < |keys| :: keys[i] != keys[j]
  }

  /** Each element of the set once. */
  ghost predicate Listing(keys: seq<string>, elements: set<string>)
  {
    NoRepeats(keys) && forall k :: k in keys <==> k in elements
  }

  lemma {:induction false} ListingMultiset(keys: seq<string>, elements: set<string>)
    requires Listing(keys, elements)
    ensures multiset(keys) == multiset(elements)
  {
    if keys == [] {
      assert elements == {};
    } else {
      var last := keys[|keys| - 1];
      var init := keys[..|keys| - 1];
      assert keys == init + [last];
      assert last !in init;
      forall k ensures k in init <==> k in elements - {last} {
        assert k in keys <==> k in init || k == last;
      }
      ListingMultiset(init, elements - {last});
      assert elements == (elements - {last}) + {last};
    }
  }

  lemma SingleCounts(s: seq<string>)
    requires forall x :: multiset(s)[x] <= 1
    ensures NoRepeats(s)
  {
    forall i, j | 0 <= i < j < |s| ensures s[i] != s[j] {
      assert s == s[..j] + [s[j]] + s[j + 1..];
      assert multiset(s)[s[j]] == multiset(s[..j])[s[j]] + 1 + multiset(s[j + 1..])[s[j]];
      assert s[j] !in s[..j];
      assert s[i] == s[..j][i];
    }
  }

  /** Sorting distinct keys gives a strictly sorted listing of the same set. */
  lemma SortListing(keys: seq<string>, elements: set<string>)
    requires Listing(keys, elements)
    ensures StrictlySorted(Sort(keys)) && Listing(Sort(keys), elements)
  {
    SortSorts(keys);
    ListingMultiset(keys, elements);
    var s := Sort(keys);
    SingleCounts(s);
    forall k ensures k in s <==> k in elements {
      assert k in s <==> k in multiset(s);
    }
  }
}
