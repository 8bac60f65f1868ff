// Names of cloud resources: the load balancer name with its 64-bit rolling hash, and the
// pool and listener names derived from it.  A Go string is a sequence of bytes; a byte is
// written here as the character with that code.
module Naming {

  /*** Text: UTF-8 and digits ***/

  function Utf8(c: char): (b: string)
    ensures 1 <= |b| <= 4
  {
    var n := c as int;
    if n < 0x80 then [c]
    else if n < 0x800 then [(0xC0 + n / 0x40) as char, Continuation(n)]
    else if n < 0x1_0000 then [(0xE0 + n / 0x1000) as char, Continuation(n / 0x40), Continuation(n)]
    else [(0xF0 + n / 0x4_0000) as char, Continuation(n / 0x1000), Continuation(n / 0x40), Continuation(n)]
  }

  function Continuation(n: nat): char
  {
    (0x80 + n % 0x40) as char
  }

  /** The bytes of a text. */
  function Bytes(text: string): (b: string)
    ensures |b| >= |text|
  {
    if text == [] then [] else Utf8(text[0]) + Bytes(text[1..])
  }

  /** Six bits more at the end of a number. */
  function More(n: int, continuation: char): int
  {
    n * 0x40 + (continuation as int - 0x80)
  }

  lemma SixBits(n: nat)
    ensures More(n / 0x40, Continuation(n)) == n && 0x80 <= Continuation(n) as int < 0xC0
    ensures n / 0x40 / 0x40 == n / 0x1000 && n / 0x1000 / 0x40 == n / 0x4_0000
  {
  }

  /** A character's code is read back from its bytes: one below 0x80 is its own byte, a longer one has a
      leading byte that tells their number, and six bits in each continuation byte. */
  lemma Utf8Bits(c: char)
    ensures var b, n := Utf8(c), c as int;
      if n < 0x80 then b == [c]
      else if n < 0x800 then |b| == 2 && n == More(b[0] as int - 0xC0, b[1])
      else if n < 0x1_0000 then |b| == 3 && n == More(More(b[0] as int - 0xE0, b[1]), b[2])
      else |b| == 4 && n == More(More(More(b[0] as int - 0xF0, b[1]), b[2]), b[3])
    ensures forall i | 1 <= i < |Utf8(c)| :: 0x80 <= Utf8(c)[i] as int < 0xC0
  {
    hide Continuation, More;
    var n := c as int;
    SixBits(n);
    SixBits(n / 0x40);
    SixBits(n / 0x1000);
  }

  lemma {:induction false} AsciiBytes(text: string)
    requires forall i | 0 <= i < |text| :: text[i] as int < 0x80
    ensures Bytes(text) == text
  {
    if text == [] {
    } else {
      AsciiBytes(text[1..]);
      assert text == [text[0]] + text[1..];
    }
  }

  predicate IsDigit(c: char)
  {
    '0' <= c <= '9'
  }

  function Digit(d: nat): char
    requires d < 16
  {
    if d < 10 then '0' + d as char else 'a' + (d - 10) as char
  }

  function DigitValue(c: char): int
  {
    if IsDigit(c) then (c - '0') as int else c as int - 'a' as int + 10
  }

  /** `n` in the given base, most significant digit first, as %d and %x print it. */
  function Digits(n: nat, base: nat): (s: string)
    requires 2 <= base <= 16
    ensures |s| >= 1
  {
    if n < base then [Digit(n)] else Digits(n / base, base) + [Digit(n % base)]
  }

  function Signed(n: int, base: nat): string
    requires 2 <= base <= 16
  {
    if n < 0 then "-" + Digits(-n, base) else Digits(n, base)
  }

  function Value(s: string, base: nat): int
  {
    if s == [] then 0 else Value(s[..|s| - 1], base) * base + DigitValue(s[|s| - 1])
  }

  lemma DigitInverse(d: nat)
    requires d < 16
    ensures DigitValue(Digit(d)) == d && Digit(d) == "0123456789abcdef"[d]
  {
  }

  lemma ValueAppend(s: string, c: char, base: nat)
    ensures Value(s + [c], base) == Value(s, base) * base + DigitValue(c)
  {
    assert (s + [c])[..|s|] == s;
  }

  lemma DivMod(n: nat, d: nat)
    requires d > 0
    ensures n == (n / d) * d + n % d && 0 <= n % d < d && 0 <= n / d
    ensures n >= d >= 2 ==> n / d < n
  {
  }

  lemma DigitsUnfold(n: nat, base: nat)
    requires 2 <= base <= 16
    ensures 0 <= n % base < 16
    ensures Digits(n, base) == (if n < base then [] else Digits(n / base, base)) + [Digit(n % base)]
  {
    DivMod(n, base);
  }

  lemma {:induction false} DigitsValue(n: nat, base: nat)
    requires 2 <= base <= 16
    ensures Value(Digits(n, base), base) == n
  {
    hide Digits, Digit, DigitValue;
    DivMod(n, base);
    DigitsUnfold(n, base);
    DigitInverse(n % base);
    if n < base {
      assert n == n % base;
      ValueAppend([], Digit(n), base);
      assert [] + [Digit(n)] == [Digit(n)];
      ZeroTimes(base);
    } else {
      DigitsValue(n / base, base);
      ValueAppend(Digits(n / base, base), Digit(n % base), base);
    }
  }

  lemma ZeroTimes(base: nat)
    ensures Value([], base) * base == 0
  {
  }

  lemma {:induction false} DigitsAreDigits(n: nat, i: nat)
    requires i < |Digits(n, 10)|
    ensures IsDigit(Digits(n, 10)[i])
  {
    if n < 10 || i >= |Digits(n / 10, 10)| {
    } else {
      DigitsAreDigits(n / 10, i);
    }
  }

  /** A number below base^k has at most k digits. */
  lemma {:induction false} DigitsLength(n: nat, base: nat, k: nat)
    requires 2 <= base <= 16 && k >= 1
    requires n < Pow(base, k)
    ensures |Digits(n, base)| <= k
  {
    hide Pow;
    if n < base {
    } else {
      QuotientBelowPower(n, base, k);
      DigitsLength(n / base, base, k - 1);
    }
  }

  lemma PowOne(base: nat)
    ensures Pow(base, 1) == base
  {
    assert Pow(base, 0) == 1;
  }

  lemma QuotientBelowPower(n: nat, base: nat, k: nat)
    requires base >= 2 && k >= 1 && base <= n < Pow(base, k)
    ensures k >= 2 && n / base < Pow(base, k - 1)
  {
    PowOne(base);
    QuotientBound(n, base, Pow(base, k - 1));
  }

  lemma CancelFactor(d: nat, x: int, y: int)
    requires d > 0 && d * x < d * y
    ensures x < y
  {
  }

  lemma QuotientBound(n: nat, d: nat, q: int)
    requires d > 0 && n < d * q
    ensures n / d < q
  {
    DivMod(n, d);
    CancelFactor(d, n / d, q);
  }

  lemma SignedInjective(m: int, n: int, base: nat)
    requires 2 <= base <= 16
    requires Signed(m, base) == Signed(n, base)
    ensures m == n
  {
    DigitsValue(if m < 0 then -m else m, base);
    DigitsValue(if n < 0 then -n else n, base);
    DigitsStart(if m < 0 then -m else m, base);
    DigitsStart(if n < 0 then -n else n, base);
    if m < 0 && n < 0 {
      assert Signed(m, base)[1..] == Digits(-m, base);
      assert Signed(n, base)[1..] == Digits(-n, base);
    }
  }

  lemma {:induction false} DigitsStart(n: nat, base: nat)
    requires 2 <= base <= 16
    ensures Digits(n, base)[0] != '-'
  {
    DivMod(n, base);
    DigitsUnfold(n, base);
    if n < base {
    } else {
      DigitsStart(n / base, base);
    }
    hide Digits;
  }

  /*** Wrapping arithmetic ***/

  const TWO63 := 0x8000_0000_0000_0000
  const TWO64 := 0x1_0000_0000_0000_0000

  function Pow(b: int, e: nat): (p: int)
    ensures b >= 1 ==> p >= 1
  {
    if e == 0 then 1 else b * Pow(b, e - 1)
  }

  /** The signed 64-bit value congruent to x. */
  function Wrap(x: int): (w: int)
    ensures -0x8000_0000_0000_0000 <= w < 0x8000_0000_0000_0000
    ensures (x - w) % 0x1_0000_0000_0000_0000 == 0
  {
    (x + TWO63) % TWO64 - TWO63
  }

  /** Wrapping after every step or only at the end gives the same value. */
  lemma WrapStep(x: int, c: int)
    ensures Wrap(Wrap(x) * 31 + c) == Wrap(x * 31 + c)
  {
    var k := (x + TWO63) / TWO64;
    assert Wrap(x) == x - k * TWO64;
  }

  /** Go's %, which truncates toward zero. */
  function Rem(a: int, b: nat): int
    requires b > 0
  {
    if a >= 0 then a % b else -((-a) % b)
  }

  /*** The short hash ***/

  /** Sum of s[i] * 31^(|s|-1-i), in unbounded arithmetic. */
  function Polynomial(s: string): int
  {
    if s == [] then 0 else s[0] as int * Pow(31, |s| - 1) + Polynomial(s[1..])
  }

  lemma {:induction false} PolynomialAppend(s: string, c: char)
    ensures Polynomial([]) == 0
    ensures Polynomial(s + [c]) == Polynomial(s) * 31 + c as int
  {
    if s == [] {
      assert (s + [c])[1..] == [];
      assert Pow(31, 0) == 1;
    } else {
      PolynomialAppend(s[1..], c);
      assert (s + [c])[1..] == s[1..] + [c];
      var d, p := s[0] as int, Pow(31, |s| - 1);
      assert Pow(31, |s|) == 31 * p;
      assert d * (31 * p) == (d * p) * 31;
    }
  }

  /** The residue the hash prints: negating the minimum 64-bit integer overflows back to itself,
      so the residue of that one value is negative. */
  function Residue(input: string): (r: int)
    ensures r == -0x8000 || 0 <= r < 0xFFFF
  {
    var h := Wrap(Polynomial(input));
    if h == -TWO63 then -0x8000 else (if h < 0 then -h else h) % 0xFFFF
  }

  /** Negating a negative hash and taking the remainder gives the residue, overflow included. */
  lemma HashResidue(input: string)
    ensures var hash := Wrap(Polynomial(input));
      Rem(if hash < 0 then Wrap(-hash) else hash, 0xFFFF) == Residue(input)
  {
    hide Polynomial;
    var hash := Wrap(Polynomial(input));
    if hash == -TWO63 {
      assert Wrap(TWO63) == -TWO63;
    } else if hash < 0 {
      assert Wrap(-hash) == -hash;
    }
  }

  lemma WrapZero()
    ensures Wrap(0) == 0
  {
  }

  method GenerateShortHash(input: string) returns (s: string)
    ensures s == Signed(Residue(input), 16)
  {
    hide Polynomial, Digits, Pow, Signed, Wrap, Rem, Residue;
    PolynomialAppend([], '0');
    WrapZero();
    var hash := 0;
    for i := 0 to |input|
      invariant hash == Wrap(Polynomial(input[..i]))
    {
      assert input[..i + 1] == input[..i] + [input[i]];
      PolynomialAppend(input[..i], input[i]);
      WrapStep(Polynomial(input[..i]), input[i] as int);
      hash := Wrap(hash * 31 + input[i] as int);
    }
    assert input[..|input|] == input;
    HashResidue(input);
    if hash < 0 {
      hash := Wrap(-hash);
    }
    s := Signed(Rem(hash, 0xFFFF), 16);
  }

  /*** Load balancer names ***/

  /** A pool or listener is named after its load balancer and, in decimal, its port. */
  lemma DerivedNames(lb: string, port: nat)
    ensures exists d: string ::
              && PoolName(lb, port) == lb + "-pool-" + d && ListenerName(lb, port) == lb + "-listener-" + d
              && Value(d, 10) == port && forall i | 0 <= i < |d| :: d[i] in "0123456789"
  {
    var d := Digits(port, 10);
    DigitsValue(port, 10);
    forall i | 0 <= i < |d| ensures d[i] in "0123456789" {
      DigitsAreDigits(port, i);
      assert d[i] == "0123456789"[d[i] as int - '0' as int];
    }
    assert PoolName(lb, port) == lb + "-pool-" + d && ListenerName(lb, port) == lb + "-listener-" + d;
  }

  function FullName(cluster: string, namespace: string, service: string): string
  {
    "k8s-" + cluster + "-" + namespace + "-" + service
  }

  function LoadBalancerName(cluster: string, namespace: string, service: string): string
  {
    var name := FullName(cluster, namespace, service);
    if |Bytes(name)| > 64 then Bytes(name)[..55] + "-" + Signed(Residue(name), 16) else Bytes(name)
  }

  method GetLoadBalancerName(cluster: string, namespace: string, service: string) returns (name: string)
    ensures name == LoadBalancerName(cluster, namespace, service) && |name| <= 64
    ensures var text := "k8s-" + cluster + "-" + namespace + "-" + service;
      if |Bytes(text)| <= 64 then name == Bytes(text)
      else 57 <= |name| <= 61 && name == Bytes(text)[..55] + "-" + Signed(Residue(text), 16)
  {
    NameFits(cluster, namespace, service);
    var full := "k8s-" + cluster + "-" + namespace + "-" + service;
    name := Bytes(full);
    if |name| > 64 {
      var hash := GenerateShortHash(full);
      var truncated := name[..55];
      name := truncated + "-" + hash;
    }
  }

  lemma NameFits(cluster: string, namespace: string, service: string)
    ensures var name := LoadBalancerName(cluster, namespace, service);
            |name| <= 64 &&
            (|Bytes(FullName(cluster, namespace, service))| > 64 ==> 57 <= |name| <= 61)
  {
    var r := Residue(FullName(cluster, namespace, service));
    assert Pow(16, 4) == 0x1_0000 by { PowersOf16(); }
    DigitsLength(if r < 0 then -r else r, 16, 4);
  }

  lemma PowersOf16()
    ensures Pow(16, 4) == 0x1_0000
  {
    assert Pow(16, 0) == 1;
    assert Pow(16, 1) == 16;
    assert Pow(16, 2) == 256;
    assert Pow(16, 3) == 4096;
  }

  /** When both names are too long, they collide exactly when prefix and signed residue agree. */
  lemma LongNamesCollide(c1: string, n1: string, s1: string, c2: string, n2: string, s2: string)
    requires |Bytes(FullName(c1, n1, s1))| > 64 && |Bytes(FullName(c2, n2, s2))| > 64
    ensures LoadBalancerName(c1, n1, s1) == LoadBalancerName(c2, n2, s2) <==>
            Bytes(FullName(c1, n1, s1))[..55] == Bytes(FullName(c2, n2, s2))[..55] &&
            Residue(FullName(c1, n1, s1)) == Residue(FullName(c2, n2, s2))
  {
    var a, b := LoadBalancerName(c1, n1, s1), LoadBalancerName(c2, n2, s2);
    var r1, r2 := Residue(FullName(c1, n1, s1)), Residue(FullName(c2, n2, s2));
    assert a[..55] == Bytes(FullName(c1, n1, s1))[..55] && a[56..] == Signed(r1, 16);
    assert b[..55] == Bytes(FullName(c2, n2, s2))[..55] && b[56..] == Signed(r2, 16);
    if a == b {
      SignedInjective(r1, r2, 16);
    }
  }

  /*** Pool and listener names ***/

  function PoolName(lb: string, port: int): string
  {
    lb + "-pool-" + Signed(port, 10)
  }

  function ListenerName(lb: string, port: int): string
  {
    lb + "-listener-" + Signed(port, 10)
  }

  /** Length of the run of digits that ends s. */
  function DigitRun(s: string): (n: nat)
    ensures n <= |s|
  {
    if s != [] && IsDigit(s[|s| - 1]) then 1 + DigitRun(s[..|s| - 1]) else 0
  }

  lemma {:induction false} DigitRunAfter(stem: string, n: nat)
    requires stem != [] && !IsDigit(stem[|stem| - 1])
    ensures DigitRun(stem + Digits(n, 10)) == |Digits(n, 10)|
  {
    var s := stem + Digits(n, 10);
    DigitsAreDigits(n, |Digits(n, 10)| - 1);
    assert IsDigit(s[|s| - 1]);
    if n < 10 {
      assert s[..|s| - 1] == stem;
    } else {
      assert s[..|s| - 1] == stem + Digits(n / 10, 10);
      DigitRunAfter(stem, n / 10);
    }
  }

  /** Cutting a numbered name before its trailing digits. */
  lemma CutNumber(stem: string, n: nat, name: string)
    requires stem != [] && !IsDigit(stem[|stem| - 1])
    requires name == stem + Digits(n, 10)
    ensures name[..|name| - DigitRun(name)] == stem
    ensures Value(name[|name| - DigitRun(name)..], 10) == n
  {
    DigitRunAfter(stem, n);
    assert name[|name| - DigitRun(name)..] == Digits(n, 10);
    DigitsValue(n, 10);
  }

  /** A tag that ends in one dash separates the name before it from the number after it. */
  lemma NumberedNameInjective(a: string, tag: string, m: int, b: string, n: int)
    requires |tag| >= 2 && tag[|tag| - 1] == '-' && tag[|tag| - 2] != '-'
    requires a + tag + Signed(m, 10) == b + tag + Signed(n, 10)
    ensures a == b && m == n
  {
    var name := a + tag + Signed(m, 10);
    var x := a + tag + (if m < 0 then "-" else "");
    var y := b + tag + (if n < 0 then "-" else "");
    assert name == x + Digits(if m < 0 then -m else m, 10);
    assert name == y + Digits(if n < 0 then -n else n, 10);
    CutNumber(x, if m < 0 then -m else m, name);
    CutNumber(y, if n < 0 then -n else n, name);
    assert x == y;
    SignedStemInjective(a, tag, m < 0, b, n < 0);
  }

  lemma SignedStemInjective(a: string, tag: string, s: bool, b: string, t: bool)
    requires |tag| >= 2 && tag[|tag| - 1] == '-' && tag[|tag| - 2] != '-'
    requires a + tag + (if s then "-" else "") == b + tag + (if t then "-" else "")
    ensures a == b && s == t
  {
    var x, y := a + tag + (if s then "-" else ""), b + tag + (if t then "-" else "");
    assert x[|x| - 2] == if s then '-' else tag[|tag| - 2];
    assert y[|y| - 2] == if t then '-' else tag[|tag| - 2];
    assert a == x[..|a|] && b == y[..|b|];
  }

  /** Each pool and listener name determines the load balancer name and the port. */
  lemma NamesRecoverable(a: string, m: int, b: string, n: int)
    ensures PoolName(a, m) == PoolName(b, n) <==> a == b && m == n
    ensures ListenerName(a, m) == ListenerName(b, n) <==> a == b && m == n
  {
    if PoolName(a, m) == PoolName(b, n) {
      NumberedNameInjective(a, "-pool-", m, b, n);
    }
    if ListenerName(a, m) == ListenerName(b, n) {
      NumberedNameInjective(a, "-listener-", m, b, n);
    }
  }
}
