/** Byte strings, and the big-endian integer encoding the key schedule uses. */
module Octets {

  type byte = b: int | 0 <= b < 256

  /** A text as C++ holds it: a string of bytes. */
  predicate IsByteString(s: string) {
    forall i :: 0 <= i < |s| ==> s[i] as int < 256
  }

  function Bytes(s: string): (bytes: seq<byte>)
    requires IsByteString(s)
    ensures |bytes| == |s| && forall i :: 0 <= i < |s| ==> bytes[i] == s[i] as int
  {
    seq(|s|, i requires 0 <= i < |s| => s[i] as int)
  }

  function TextOf(bytes: seq<byte>): (s: string)
    ensures IsByteString(s) && Bytes(s) == bytes
  {
    seq(|bytes|, i requires 0 <= i < |bytes| => bytes[i] as char)
  }

  lemma BytesInjective(s: string, t: string)
    requires IsByteString(s) && IsByteString(t) && Bytes(s) == Bytes(t)
    ensures s == t
  {
    assert |s| == |t|;
    forall i | 0 <= i < |s| ensures s[i] == t[i] {
      assert Bytes(s)[i] == Bytes(t)[i];
    }
  }

  function Pow256(n: nat): (r: nat)
    ensures r >= 1
  {
    if n == 0 then 1 else 256 * Pow256(n - 1)
  }

  /** The number a big-endian byte string stands for (OS2IP of RFC 8017). */
  function Os2ip(s: seq<byte>): (n: nat) {
    if s == [] then 0 else 256 * Os2ip(s[..|s| - 1]) + s[|s| - 1]
  }

  /** The low `len` base-256 digits of n, most significant first. */
  function BigEndian(n: nat, len: nat): (s: seq<byte>)
    ensures |s| == len
  {
    if len == 0 then [] else BigEndian(n / 256, len - 1) + [n % 256]
  }

  /** Section 4.1 of RFC 8017: decoding undoes encoding, up to the digits that were kept. */
  lemma {:induction false} Os2ipUndoesBigEndian(n: nat, len: nat)
    ensures Os2ip(BigEndian(n, len)) == n % Pow256(len)
  {
    if len == 0 {
    } else {
      Os2ipUndoesBigEndian(n / 256, len - 1);
      var s := BigEndian(n, len);
      assert s[..len - 1] == BigEndian(n / 256, len - 1);
      DigitSplit(n, Pow256(len - 1));
    }
  }

  lemma DigitSplit(n: nat, p: nat)
    requires p >= 1
    ensures 256 * (n / 256 % p) + n % 256 == n % (256 * p)
  {
    var q, d := n / 256, n % 256;
    var k, r := q / p, q % p;
    QuotientUnique(n, 256 * p, k, 256 * r + d);
  }

  lemma MulAtLeast(m: nat, d: int)
    ensures d >= 1 ==> m * d >= m
    ensures d <= -1 ==> m * d + m <= 0
  {
  }

  lemma QuotientUnique(n: nat, m: nat, k: int, r: nat)
    requires r < m && n == m * k + r
    ensures n / m == k && n % m == r
  {
    var k', r' := n / m, n % m;
    assert m * (k - k') == r' - r by { assert m * (k - k') == m * k - m * k'; }
    MulAtLeast(m, k - k');
  }

  lemma MulDistributes(a: int, x: int, y: int)
    ensures a * (x + y) == a * x + a * y
  {
  }

  lemma MulAssociates(a: int, x: int, y: int)
    ensures a * (x * y) == (a * x) * y
  {
  }

  /** Two digits, the lower of them below a and the upper below b, stay below a * b. */
  lemma TwoDigits(a: nat, b: nat, s: nat, r: nat)
    requires r < a && s < b
    ensures a * s + r < a * b
  {
    MulDistributes(a, s, b - s);
    MulAtLeast(a, b - s);
  }

  lemma DivDiv(n: nat, a: nat, b: nat)
    requires a >= 1 && b >= 1
    ensures n / a / b == n / (a * b)
  {
    var q, r := n / a, n % a;
    var k, s := q / b, q % b;
    MulDistributes(a, b * k, s);
    MulAssociates(a, b, k);
    TwoDigits(a, b, s, r);
    NestedQuotient(n, a * b, k, a * s, r);
  }

  lemma NestedQuotient(n: nat, m: nat, k: int, u: nat, r: nat)
    requires n == m * k + u + r && u + r < m
    ensures n / m == k
  {
    QuotientUnique(n, m, k, u + r);
  }

  lemma {:induction false} BigEndianDigit(n: nat, len: nat, j: nat)
    requires j < len
    ensures BigEndian(n, len)[len - 1 - j] == n / Pow256(j) % 256
  {
    if j > 0 {
      BigEndianDigit(n / 256, len - 1, j - 1);
      DivDiv(n, 256, Pow256(j - 1));
    }
  }

  /** `i2osp`: fills the buffer from its last byte, one shifted-out byte at a time. Shifts of a
      64-bit value by 64 or more are undefined, hence at most eight bytes. */
  method I2osp(n: nat, len: nat) returns (out: seq<byte>)
    requires n < Pow256(8) && len <= 8
    ensures out == BigEndian(n, len)
    ensures |out| == len && Os2ip(out) == n % Pow256(len)
  {
    var buf := new byte[len](_ => 0);
    for i := 0 to len
      invariant forall j :: 0 <= j < i ==> buf[len - 1 - j] == n / Pow256(j) % 256
    {
      buf[len - 1 - i] := n / Pow256(i) % 256;
    }
    out := buf[..];
    forall k | 0 <= k < len ensures out[k] == BigEndian(n, len)[k] {
      BigEndianDigit(n, len, len - 1 - k);
      assert buf[len - 1 - (len - 1 - k)] == n / Pow256(len - 1 - k) % 256;
    }
    Os2ipUndoesBigEndian(n, len);
  }

  /** Concatenations whose first parts have equal length split in only one way. */
  lemma SplitPrefix<T>(a: seq<T>, b: seq<T>, c: seq<T>, d: seq<T>)
    requires a + b == c + d && |a| == |c|
    ensures a == c && b == d
  {
    assert (a + b)[..|a|] == a && (c + d)[..|c|] == c;
    assert (a + b)[|a|..] == b && (c + d)[|c|..] == d;
  }
}
