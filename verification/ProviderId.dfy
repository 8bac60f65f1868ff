// Printing and parsing provider IDs of the form opentelekomcloud:///<zone>/<server>.
module ProviderId {
  import opened Text

  const PREFIX := "opentelekomcloud:///"
  const LEGACY_PREFIX := "otc://"

  function Print(zone: string, id: string): string
  {
    PREFIX + zone + "/" + id
  }

  /** The text after the first matching prefix that does not make up the whole text. */
  function Trimmed(s: string): string
  {
    if |s| > |PREFIX| && s[..|PREFIX|] == PREFIX then s[|PREFIX|..]
    else if |s| > |LEGACY_PREFIX| && s[..|LEGACY_PREFIX|] == LEGACY_PREFIX then s[|LEGACY_PREFIX|..]
    else s
  }

  function DropEmpty(parts: seq<string>): seq<string>
  {
    if parts == [] then [] else (if parts[0] != "" then [parts[0]] else []) + DropEmpty(parts[1..])
  }

  lemma {:induction false} DropEmptyAppend(a: seq<string>, b: seq<string>)
    ensures DropEmpty(a + b) == DropEmpty(a) + DropEmpty(b)
  {
    if a == [] {
      assert a + b == b;
    } else {
      DropEmptyAppend(a[1..], b);
      assert (a + b)[1..] == a[1..] + b && (a + b)[0] == a[0];
    }
  }

  /** c in front of the first part. */
  function Prefixed(c: char, parts: seq<string>): (r: seq<string>)
    requires parts != []
    ensures |r| == |parts|
  {
    [[c] + parts[0]] + parts[1..]
  }

  /** c at the end of the last part. */
  function Extended(parts: seq<string>, c: char): seq<string>
    requires parts != []
  {
    parts[..|parts| - 1] + [parts[|parts| - 1] + [c]]
  }

  lemma SplitCons(c: char, t: string)
    ensures Split([c] + t, '/') == if c == '/' then [""] + Split(t, '/') else Prefixed(c, Split(t, '/'))
  {
    assert ([c] + t)[1..] == t;
  }

  lemma ExtendInside(d: char, parts: seq<string>, c: char)
    requires parts != []
    ensures Extended(Prefixed(d, parts), c) == Prefixed(d, Extended(parts, c))
    ensures Extended([""] + parts, c) == [""] + Extended(parts, c)
  {
    if |parts| == 1 {
      assert [d] + (parts[0] + [c]) == ([d] + parts[0]) + [c];
    }
  }

  lemma JoinInside(d: char, a: seq<string>, b: seq<string>)
    requires a != []
    ensures Prefixed(d, a) + b == Prefixed(d, a + b)
    ensures [""] + a + b == [""] + (a + b)
  {
  }

  /** Appending one character to the text extends the last part or starts a new one. */
  lemma {:induction false} SplitMore(s: string, c: char)
    ensures Split(s + [c], '/') == if c == '/' then Split(s, '/') + [""] else Extended(Split(s, '/'), c)
  {
    hide Split, Prefixed, Extended;
    if s == "" {
      assert s + [c] == [c] + "";
      SplitCons(c, "");
      SplitNothing();
      OnePart(c);
    } else {
      SplitMore(s[1..], c);
      assert s == [s[0]] + s[1..] && s + [c] == [s[0]] + (s[1..] + [c]);
      SplitCons(s[0], s[1..]);
      SplitCons(s[0], s[1..] + [c]);
      ExtendInside(s[0], Split(s[1..], '/'), c);
      JoinInside(s[0], Split(s[1..], '/'), [""]);
    }
  }

  lemma OnePart(c: char)
    ensures Prefixed(c, [""]) == Extended([""], c) && [""] + [""] == ["", ""]
  {
    assert [c] + "" == "" + [c];
  }

  method SplitProviderID(providerID: string) returns (parts: seq<string>)
    ensures parts == DropEmpty(Split(Trimmed(providerID), '/'))
    ensures forall text | text != "" && providerID in {"opentelekomcloud:///" + text, "otc://" + text} ::
              parts == DropEmpty(Split(text, '/'))
    ensures !("opentelekomcloud:///" < providerID) && !("otc://" < providerID) ==>
              parts == DropEmpty(Split(providerID, '/'))
  {
    var trimmed := providerID;
    var prefixes := [PREFIX, LEGACY_PREFIX];
    for i := 0 to |prefixes|
      invariant trimmed == providerID
      invariant forall k | 0 <= k < i :: !(|providerID| > |prefixes[k]| && providerID[..|prefixes[k]|] == prefixes[k])
    {
      if |trimmed| > |prefixes[i]| && trimmed[..|prefixes[i]|] == prefixes[i] {
        trimmed := trimmed[|prefixes[i]|..];
        break;
      }
    }
    assert trimmed == Trimmed(providerID) by {
      assert prefixes[0] == PREFIX && prefixes[1] == LEGACY_PREFIX;
    }
    parts := SplitOnSlash(trimmed);
    TrimmedIs(providerID);
  }

  lemma TrimmedIs(s: string)
    ensures forall text | text != "" && s in {"opentelekomcloud:///" + text, "otc://" + text} :: Trimmed(s) == text
    ensures !("opentelekomcloud:///" < s) && !("otc://" < s) ==> Trimmed(s) == s
  {
    forall text | text != "" && s in {"opentelekomcloud:///" + text, "otc://" + text} ensures Trimmed(s) == text {
      if s == PREFIX + text {
        assert s[..|PREFIX|] == PREFIX && s[|PREFIX|..] == text;
      } else {
        assert s == LEGACY_PREFIX + text;
        assert s[..|LEGACY_PREFIX|] == LEGACY_PREFIX && s[|LEGACY_PREFIX|..] == text;
        assert |s| > |PREFIX| ==> s[..|PREFIX|][1] == s[1] != PREFIX[1];
      }
    }
  }

  /** The character loop is: split on '/' and drop empty parts. */
  method SplitOnSlash(trimmed: string) returns (parts: seq<string>)
    ensures parts == DropEmpty(Split(trimmed, '/'))
  {
    hide Split, DropEmpty;
    parts := [];
    var current := "";
    SplitNothing();
    for i := 0 to |trimmed|
      invariant var all := Split(trimmed[..i], '/');
        parts == DropEmpty(all[..|all| - 1]) && current == all[|all| - 1]
    {
      ghost var all := Split(trimmed[..i], '/');
      SplitMore(trimmed[..i], trimmed[i]);
      assert trimmed[..i + 1] == trimmed[..i] + [trimmed[i]];
      LastPart(all[..|all| - 1], current);
      assert all[..|all| - 1] + [all[|all| - 1]] == all;
      if trimmed[i] == '/' {
        if current != "" {
          parts := parts + [current];
        }
        current := "";
        assert (all + [""])[..|all|] == all;
      } else {
        current := current + [trimmed[i]];
        assert (all[..|all| - 1] + [current])[..|all| - 1] == all[..|all| - 1];
      }
    }
    assert trimmed[..|trimmed|] == trimmed;
    ghost var all := Split(trimmed, '/');
    assert all == all[..|all| - 1] + [current];
    LastPart(all[..|all| - 1], current);
    if current != "" {
      parts := parts + [current];
    }
  }

  lemma SplitNothing()
    ensures Split("", '/') == [""] && DropEmpty([]) == [] && [""][..0] == []
  {
  }

  lemma LastPart(init: seq<string>, last: string)
    ensures DropEmpty(init + [last]) == if last != "" then DropEmpty(init) + [last] else DropEmpty(init)
  {
    hide DropEmpty;
    DropEmptyAppend(init, [last]);
    SinglePart(last);
    assert DropEmpty(init) + [] == DropEmpty(init);
  }

  function Extracted(providerID: string): string
  {
    var parts := DropEmpty(Split(Trimmed(providerID), '/'));
    if |parts| > 0 then parts[|parts| - 1] else ""
  }

  method ExtractServerID(providerID: string) returns (id: string)
    ensures id == Extracted(providerID)
  {
    var parts := SplitProviderID(providerID);
    id := if |parts| > 0 then parts[|parts| - 1] else "";
  }

  lemma TrimmedPrint(zone: string, id: string)
    ensures Trimmed(Print(zone, id)) == zone + "/" + id
  {
    var s := Print(zone, id);
    assert s[..|PREFIX|] == PREFIX && s[|PREFIX|..] == zone + "/" + id;
  }

  lemma {:induction false} PartsOf(a: string, b: string)
    ensures Split(a + "/" + b, '/') == Split(a, '/') + Split(b, '/')
  {
    hide Split, Prefixed;
    if a == "" {
      assert a + "/" + b == ['/'] + b;
      SplitCons('/', b);
      SplitNothing();
    } else {
      PartsOf(a[1..], b);
      assert a == [a[0]] + a[1..] && a + "/" + b == [a[0]] + (a[1..] + "/" + b);
      SplitCons(a[0], a[1..]);
      SplitCons(a[0], a[1..] + "/" + b);
      JoinInside(a[0], Split(a[1..], '/'), Split(b, '/'));
    }
  }

  predicate OnlySlashes(s: string)
  {
    forall i | 0 <= i < |s| :: s[i] == '/'
  }

  lemma {:induction false} NoParts(s: string)
    ensures DropEmpty(Split(s, '/')) == [] <==> OnlySlashes(s)
  {
    if s == "" {
      assert [""][1..] == [];
    } else {
      NoParts(s[1..]);
      var rest := Split(s[1..], '/');
      if s[0] == '/' {
        assert ([""] + rest)[1..] == rest;
        assert OnlySlashes(s[1..]) <==> OnlySlashes(s);
      }
    }
  }

  lemma {:induction false} PartsHaveNoSlash(s: string, i: nat)
    requires i < |DropEmpty(Split(s, '/'))|
    ensures DropEmpty(Split(s, '/'))[i] != "" && '/' !in DropEmpty(Split(s, '/'))[i]
  {
    PartsFree(Split(s, '/'), s, 0, i);
  }

  lemma {:induction false} PartsFree(parts: seq<string>, s: string, from: nat, i: nat)
    requires from <= |Split(s, '/')| && parts == Split(s, '/')[from..]
    requires i < |DropEmpty(parts)|
    ensures DropEmpty(parts)[i] != "" && '/' !in DropEmpty(parts)[i]
    decreases |parts|
  {
    if parts[0] != "" && i == 0 {
      SplitPartsFree(s, '/', from);
    } else {
      PartsFree(parts[1..], s, from + 1, if parts[0] != "" then i - 1 else i);
    }
  }

  /** Parsing a printed provider ID returns the server ID exactly when that ID has no slash and is
      not empty after a zone with other characters than slashes. */
  lemma RoundTrip(zone: string, id: string)
    ensures Print(zone, id) == "opentelekomcloud:///" + zone + "/" + id
    ensures Extracted(Print(zone, id)) == id <==> '/' !in id && (id != "" || OnlySlashes(zone))
  {
    hide Split, DropEmpty;
    TrimmedPrint(zone, id);
    PartsOf(zone, id);
    DropEmptyAppend(Split(zone, '/'), Split(id, '/'));
    NoParts(zone);
    NoParts(id);
    var parts := DropEmpty(Split(Trimmed(Print(zone, id)), '/'));
    if |parts| > 0 {
      PartsHaveNoSlash(zone + "/" + id, |parts| - 1);
    }
    if '/' !in id {
      SplitSingle(id, '/');
      SinglePart(id);
    } else {
      assert !(forall i | 0 <= i < |id| :: id[i] != '/');
    }
  }

  lemma SinglePart(id: string)
    ensures DropEmpty([id]) == if id != "" then [id] else []
  {
    assert [id][1..] == [];
  }
}
