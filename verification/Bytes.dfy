/** Octets and big-endian numbers, shared by the token framing and the DER codec. */
module Bytes {

  type Byte = b: int | 0 <= b < 256

  /** The octets of n in base 256, most significant first, without leading zeros (none for 0). */
  function Big(n: nat): (s: seq<Byte>) {
    if n == 0 then [] else Big(n / 256) + [n % 256]
  }

  function FromBig(s: seq<Byte>): nat {
    if s == [] then 0 else FromBig(s[..|s| - 1]) * 256 + s[|s| - 1]
  }

  /** The octets of a number denote that number and have no leading zero. */
  lemma {:induction false} BigRoundTrip(n: nat)
    ensures FromBig(Big(n)) == n
    ensures n > 0 ==> Big(n) != [] && Big(n)[0] > 0
    ensures |Big(n)| == 1 ==> Big(n) == [n]
  {
    if n > 0 {
      BigRoundTrip(n / 256);
      assert Big(n)[..|Big(n)| - 1] == Big(n / 256);
    }
  }

  /** Octets without a leading zero are the octets of the number they denote. */
  lemma {:induction false} BigCanonical(s: seq<Byte>)
    requires s != [] ==> s[0] > 0
    ensures Big(FromBig(s)) == s
    ensures s != [] ==> FromBig(s) > 0
  {
    if s != [] {
      var init := s[..|s| - 1];
      BigCanonical(init);
      assert s == init + [s[|s| - 1]];
    }
  }

  lemma {:induction false} BigMonotone(m: nat, n: nat)
    requires m <= n
    ensures |Big(m)| <= |Big(n)|
  {
    if m > 0 {
      BigMonotone(m / 256, n / 256);
    }
  }

  // Fixed-width network byte order

  /** htons: the low 16 bits, high octet first. */
  function Big16(n: nat): (s: seq<Byte>)
    ensures |s| == 2
  {
    [n / 0x100 % 0x100, n % 0x100]
  }

  function FromBig16(s: seq<Byte>): nat
    requires |s| == 2
  {
    s[0] as int * 0x100 + s[1]
  }

  /** htonl: the low 32 bits, high octet first. */
  function Big32(n: nat): (s: seq<Byte>)
    ensures |s| == 4
  {
    [n / 0x100_0000 % 0x100, n / 0x1_0000 % 0x100, n / 0x100 % 0x100, n % 0x100]
  }

  function FromBig32(s: seq<Byte>): nat
    requires |s| == 4
  {
    s[0] as int * 0x100_0000 + s[1] as int * 0x1_0000 + s[2] as int * 0x100 + s[3]
  }

  lemma Big16RoundTrip(n: nat)
    ensures FromBig16(Big16(n)) == n % 0x1_0000
  {
    Quotients(n);
    var a, b := n / 0x100, n / 0x1_0000;
    assert n == 0x100 * a + n % 0x100;
    assert a == 0x100 * b + a % 0x100;
    assert n == 0x1_0000 * b + n % 0x1_0000;
  }

  lemma Quotients(n: nat)
    ensures n / 0x1_0000 == n / 0x100 / 0x100
    ensures n / 0x100_0000 == n / 0x1_0000 / 0x100
    ensures n / 0x1_0000_0000 == n / 0x100_0000 / 0x100
  {
  }

  lemma Big32RoundTrip(n: nat)
    ensures FromBig32(Big32(n)) == n % 0x1_0000_0000
  {
    Quotients(n);
    var a, b, c, d := n / 0x100, n / 0x1_0000, n / 0x100_0000, n / 0x1_0000_0000;
    assert n == 0x100 * a + n % 0x100;
    assert a == 0x100 * b + a % 0x100;
    assert b == 0x100 * c + b % 0x100;
    assert c == 0x100 * d + c % 0x100;
    assert n % 0x1_0000_0000 == n - 0x1_0000_0000 * d;
  }
}
