// Percent-encoding and the canonical URI of the request signer.
module Encoding {
  import opened Text

  /** A Go string is a sequence of bytes; a byte is written as the character with that code. */
  ghost predicate IsBytes(s: string)
  {
    forall i | 0 <= i < |s| :: s[i] as int < 256
  }

  predicate IsUnreserved(c: char)
  {
    ('A' <= c <= 'Z') || ('a' <= c <= 'z') || ('0' <= c <= '9') || c == '-' || c == '_' || c == '.' || c == '~'
  }

  function UpperHex(n: nat): char
  {
    var d := n % 16;
    if d < 10 then '0' + d as char else 'A' + (d - 10) as char
  }

  predicate IsUpperHex(c: char)
  {
    '0' <= c <= '9' || 'A' <= c <= 'F'
  }

  function HexValue(c: char): (d: int)
    ensures IsUpperHex(c) ==> 0 <= d < 16
  {
    if '0' <= c <= '9' then (c - '0') as int else c as int - 'A' as int + 10
  }

  function EncodeByte(b: char): string
  {
    if IsUnreserved(b) then [b] else ['%', UpperHex(b as int / 16), UpperHex(b as int)]
  }

  /** The encoding of each byte, except that bytes satisfying `keep` stay as they are. */
  function EncodeKeeping(s: string, keepSlash: bool): string
  {
    if s == [] then ""
    else (if keepSlash && s[0] == '/' then "/" else EncodeByte(s[0])) + EncodeKeeping(s[1..], keepSlash)
  }

  function Encoded(s: string): string
  {
    EncodeKeeping(s, false)
  }

  lemma {:induction false} EncodeAppend(a: string, b: string, slash: bool)
    ensures EncodeKeeping(a + b, slash) == EncodeKeeping(a, slash) + EncodeKeeping(b, slash)
  {
    hide EncodeByte;
    if a == [] {
      assert a + b == b;
    } else {
      EncodeAppend(a[1..], b, slash);
      assert (a + b)[1..] == a[1..] + b && (a + b)[0] == a[0];
      var head := if slash && a[0] == '/' then "/" else EncodeByte(a[0]);
      var x, y := EncodeKeeping(a[1..], slash), EncodeKeeping(b, slash);
      assert head + (x + y) == (head + x) + y;
    }
  }

  /** Which bytes stay, and how the others are written. */
  lemma EncodedByte(b: char)
    requires b as int < 256
    ensures if 'A' <= b <= 'Z' || 'a' <= b <= 'z' || '0' <= b <= '9' || b in {'-', '_', '.', '~'}
            then Encoded([b]) == [b]
            else Encoded([b]) == ['%', "0123456789ABCDEF"[b as int / 16], "0123456789ABCDEF"[b as int % 16]]
    ensures EncodeKeeping([b], true) == if b == '/' then "/" else Encoded([b])
  {
    assert [b][1..] == [] && EncodeKeeping([b][1..], true) == "";
    assert Encoded([b]) == EncodeByte(b) by {
      assert [b][1..] == [] && EncodeKeeping([b][1..], false) == "";
    }
    assert UpperHex(b as int) == UpperHex(b as int % 16);
    HexDigit(b as int / 16);
    HexDigit(b as int % 16);
  }

  lemma HexDigit(d: nat)
    requires d < 16
    ensures UpperHex(d) == "0123456789ABCDEF"[d]
  {
  }

  lemma EncodeStep(s: string, i: nat)
    requires i < |s|
    ensures Encoded(s[..i + 1]) == Encoded(s[..i]) + EncodeByte(s[i])
  {
    assert s[..i + 1] == s[..i] + [s[i]];
    EncodeAppend(s[..i], [s[i]], false);
    assert EncodeKeeping([s[i]][1..], false) == "";
  }

  method UriEncode(s: string) returns (r: string)
    ensures r == Encoded(s)
  {
    hide EncodeKeeping, UpperHex;
    r := "";
    EmptyEncoded(s);
    for i := 0 to |s|
      invariant r == Encoded(s[..i])
    {
      EncodeStep(s, i);
      if IsUnreserved(s[i]) {
        r := r + [s[i]];
      } else {
        r := r + ['%', UpperHex(s[i] as int / 16), UpperHex(s[i] as int)];
      }
    }
    assert s[..|s|] == s;
  }

  lemma EmptyEncoded(s: string)
    ensures Encoded(s[..0]) == ""
  {
  }

  /*** What an encoding consists of ***/

  /** Unreserved bytes and uppercase %HH only (RFC 3986, sections 2.1 and 2.3), plus kept slashes. */
  predicate WellEncoded(s: string, slash: bool)
  {
    s == [] ||
    (if s[0] == '%' then |s| >= 3 && IsUpperHex(s[1]) && IsUpperHex(s[2]) && WellEncoded(s[3..], slash)
     else (IsUnreserved(s[0]) || (slash && s[0] == '/')) && WellEncoded(s[1..], slash))
  }

  lemma {:induction false} EncodingIsWellFormed(s: string, slash: bool)
    ensures WellEncoded(EncodeKeeping(s, slash), slash)
  {
    if s == [] {
    } else {
      EncodingIsWellFormed(s[1..], slash);
      var e, rest := EncodeKeeping(s, slash), EncodeKeeping(s[1..], slash);
      if (slash && s[0] == '/') || IsUnreserved(s[0]) {
        assert e[1..] == rest;
      } else {
        assert e[3..] == rest;
      }
    }
  }

  /** So an encoding contains no separator of a query string. */
  lemma {:induction false} WellEncodedChars(s: string, slash: bool, c: char)
    requires WellEncoded(s, slash) && c in s
    ensures c == '%' || IsUnreserved(c) || (slash && c == '/')
  {
    var width := if s[0] == '%' then 3 else 1;
    assert s == s[..width] + s[width..];
    if c in s[..width] {
    } else {
      WellEncodedChars(s[width..], slash, c);
    }
  }

  /*** Decoding ***/

  function Decode(s: string): string
  {
    if s == [] then ""
    else if s[0] == '%' && |s| >= 3 && IsUpperHex(s[1]) && IsUpperHex(s[2]) then
      [(HexValue(s[1]) * 16 + HexValue(s[2])) as char] + Decode(s[3..])
    else [s[0]] + Decode(s[1..])
  }

  lemma DecodeByte(b: char, rest: string)
    requires b as int < 256
    ensures Decode(EncodeByte(b) + rest) == [b] + Decode(rest)
  {
    var e := EncodeByte(b) + rest;
    if IsUnreserved(b) {
      assert e[1..] == rest;
    } else {
      assert e[3..] == rest;
      HexInverse(b as int / 16);
      HexInverse(b as int % 16);
    }
  }

  lemma HexInverse(d: int)
    requires 0 <= d < 16
    ensures IsUpperHex(UpperHex(d)) && HexValue(UpperHex(d)) == d
  {
  }

  /** Percent-decoding inverts the encoding, slashes kept or not. */
  lemma {:induction false} DecodeEncoded(s: string, slash: bool)
    requires IsBytes(s)
    ensures Decode(EncodeKeeping(s, slash)) == s
  {
    if s == [] {
    } else {
      var rest := EncodeKeeping(s[1..], slash);
      DecodeEncoded(s[1..], slash);
      if slash && s[0] == '/' {
        assert ("/" + rest)[1..] == rest;
      } else {
        DecodeByte(s[0], rest);
      }
      assert s == [s[0]] + s[1..];
    }
  }

  lemma EncodedInjective(a: string, b: string, slash: bool)
    requires IsBytes(a) && IsBytes(b)
    ensures EncodeKeeping(a, slash) == EncodeKeeping(b, slash) <==> a == b
  {
    DecodeEncoded(a, slash);
    DecodeEncoded(b, slash);
  }

  /*** The canonical URI ***/

  function WithSlash(path: string): string
  {
    if path != [] && path[|path| - 1] == '/' then path else path + "/"
  }

  /** Encoding the parts between slashes and joining them again keeps exactly the slashes. */
  lemma {:induction false} EncodeParts(path: string, parts: seq<string>, encoded: seq<string>)
    requires parts == Split(path, '/')
    requires |encoded| == |parts| && forall i | 0 <= i < |parts| :: encoded[i] == Encoded(parts[i])
    ensures Join(encoded, '/') == EncodeKeeping(path, true)
  {
    hide EncodeByte, IsUnreserved, UpperHex;
    if path == [] {
    } else {
      var rest: seq<string> := Split(path[1..], '/');
      if path[0] == '/' {
        assert parts[1..] == rest;
        EncodeParts(path[1..], rest, encoded[1..]);
      } else {
        var head := Encoded(rest[0]);
        var encodedRest := [head] + encoded[1..];
        EncodeParts(path[1..], rest, encodedRest);
        assert parts[0] == [path[0]] + rest[0];
        assert parts[0][1..] == rest[0];
        assert encoded[0] == EncodeByte(path[0]) + head;
        assert encodedRest[1..] == encoded[1..];
      }
    }
  }

  lemma EndsInSlash(path: string)
    ensures var r := EncodeKeeping(WithSlash(path), true);
      && r != "" && r[|r| - 1] == '/'
      && (IsBytes(path) ==> Decode(r) == if path != "" && path[|path| - 1] == '/' then path else path + "/")
  {
    LastEncoded(WithSlash(path));
    if IsBytes(path) {
      DecodeEncoded(WithSlash(path), true);
    }
  }

  method BuildCanonicalURI(path: string) returns (r: string)
    ensures r == EncodeKeeping(WithSlash(path), true)
    ensures r != "" && r[|r| - 1] == '/'
    ensures IsBytes(path) ==>
              Decode(r) == if path != "" && path[|path| - 1] == '/' then path else path + "/"
  {
    hide Decode, Split, IsBytes;
    EndsInSlash(path);
    if path == "" {
      return "/";
    }
    var segments := Split(path, '/');
    var encoded: seq<string> := [];
    for i := 0 to |segments|
      invariant |encoded| == i && forall k | 0 <= k < i :: encoded[k] == Encoded(segments[k])
    {
      var e := UriEncode(segments[i]);
      encoded := encoded + [e];
    }
    r := Join(encoded, '/');
    EncodeParts(path, segments, encoded);
    LastEncoded(path);
    if !(|r| > 0 && r[|r| - 1] == '/') {
      r := r + "/";
    }
    EncodeAppend(path, "/", true);
  }

  /** The encoded path ends in a slash exactly when the path does. */
  lemma {:induction false} LastEncoded(path: string)
    requires path != []
    ensures var e := EncodeKeeping(path, true);
            e != [] && (e[|e| - 1] == '/' <==> path[|path| - 1] == '/')
  {
    if |path| == 1 {
      assert EncodeKeeping(path[1..], true) == "";
    } else {
      LastEncoded(path[1..]);
      assert path[1..][|path| - 2] == path[|path| - 1];
    }
  }

  /** Two paths share a canonical URI exactly when they are equal after a missing trailing slash is
      added, and decoding the canonical URI gives that path back. */
  lemma CanonicalURIsDistinguish(p: string, q: string)
    requires IsBytes(p) && IsBytes(q)
    ensures EncodeKeeping(WithSlash(p), true) == EncodeKeeping(WithSlash(q), true) <==> WithSlash(p) == WithSlash(q)
    ensures Decode(EncodeKeeping(WithSlash(p), true)) == WithSlash(p)
  {
    EncodedInjective(WithSlash(p), WithSlash(q), true);
    DecodeEncoded(WithSlash(p), true);
  }
}
