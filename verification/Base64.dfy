/** Base64url as the browser code builds it from `btoa` and `atob` (section 5 of RFC 4648). */
module Base64 {
  import opened Octets
  import opened Wrappers

  type sextet = n: int | 0 <= n < 64

  function Letter(n: sextet): (c: char)
    ensures Index(c) == Some(n) && c != '='
  {
    if n < 26 then 'A' + n as char
    else if n < 52 then 'a' + (n - 26) as char
    else if n < 62 then '0' + (n - 52) as char
    else if n == 62 then '+' else '/'
  }

  function Index(c: char): Option<sextet> {
    if 'A' <= c <= 'Z' then Some(c as int - 'A' as int)
    else if 'a' <= c <= 'z' then Some(c as int - 'a' as int + 26)
    else if '0' <= c <= '9' then Some(c as int - '0' as int + 52)
    else if c == '+' then Some(62)
    else if c == '/' then Some(63)
    else None
  }

  predicate IsBase64(s: string) {
    forall c | c in s :: Index(c).Some?
  }

  function TwoLetters(x: byte): (s: string)
    ensures |s| == 2 && IsBase64(s)
  {
    [Letter(x / 4), Letter(x % 4 * 16)]
  }

  function ThreeLetters(x: byte, y: byte): (s: string)
    ensures |s| == 3 && IsBase64(s)
  {
    [Letter(x / 4), Letter(x % 4 * 16 + y / 16), Letter(y % 16 * 4)]
  }

  function FourLetters(x: byte, y: byte, z: byte): (s: string)
    ensures |s| == 4 && IsBase64(s)
  {
    [Letter(x / 4), Letter(x % 4 * 16 + y / 16), Letter(y % 16 * 4 + z / 64), Letter(z % 64)]
  }

  /** The standard alphabet's letters for b, without padding. */
  function Letters(b: seq<byte>): (s: string)
    ensures IsBase64(s)
  {
    if b == [] then ""
    else if |b| == 1 then TwoLetters(b[0])
    else if |b| == 2 then ThreeLetters(b[0], b[1])
    else FourLetters(b[0], b[1], b[2]) + Letters(b[3..])
  }

  /** Some known answers, from each part of the alphabet of section 4 of RFC 4648. */
  lemma KnownAnswers()
    ensures FourLetters(0x00, 0x10, 0x83) == "ABCD"
    ensures FourLetters(0x69, 0xb7, 0x1d) == "abcd"
    ensures FourLetters(0xd3, 0x5d, 0xb7) == "0123"
    ensures FourLetters(0xfb, 0xff, 0xbf) == "+/+/"
  {
  }

  function Repeat(c: char, n: nat): (s: string)
    ensures |s| == n && forall i :: 0 <= i < n ==> s[i] == c
  {
    if n == 0 then "" else [c] + Repeat(c, n - 1)
  }

  function PadCount(n: nat): nat {
    if n % 3 == 0 then 0 else 3 - n % 3
  }

  /** `btoa`: letters, then '=' up to a multiple of four. */
  function Btoa(b: seq<byte>): string {
    Letters(b) + Repeat('=', PadCount(|b|))
  }

  /** Bytes of unpadded letters; leftover bits of a last partial group are dropped. */
  function Groups(s: string): Option<seq<byte>> {
    if s == "" then Some([])
    else if |s| == 1 then None
    else
      match (Index(s[0]), Index(s[1]))
      case (Some(c0), Some(c1)) =>
        var b0 := c0 * 4 + c1 / 16;
        if |s| == 2 then Some([b0])
        else (match Index(s[2])
              case None => None
              case Some(c2) =>
                var b1 := c1 % 16 * 16 + c2 / 4;
                if |s| == 3 then Some([b0, b1])
                else (match (Index(s[3]), Groups(s[4..]))
                      case (Some(c3), Some(rest)) => Some([b0, b1, c2 % 4 * 64 + c3] + rest)
                      case _ => None))
      case _ => None
  }

  /** Exactly when letters decode: none is foreign to the alphabet and no single one is left over. */
  lemma {:induction false} GroupsIff(s: string)
    ensures Groups(s).Some? <==> IsBase64(s) && |s| % 4 != 1
  {
    if |s| >= 4 {
      GroupsIff(s[4..]);
      assert s == [s[0], s[1], s[2], s[3]] + s[4..];
      IsBase64Append([s[0], s[1], s[2], s[3]], s[4..]);
      FourValid(s[0], s[1], s[2], s[3]);
      GroupsOfFour(s);
      assert |s| % 4 == |s[4..]| % 4;
    } else {
      GroupsOfRest(s);
    }
  }

  lemma IsBase64Append(s: string, t: string)
    ensures IsBase64(s + t) <==> IsBase64(s) && IsBase64(t)
  {
    if IsBase64(s + t) {
      forall c | c in s ensures Index(c).Some? { assert c in s + t; }
      forall c | c in t ensures Index(c).Some? { assert c in s + t; }
    }
  }

  lemma GroupsOfFour(s: string)
    requires |s| >= 4
    ensures Groups(s).Some? <==>
            && Index(s[0]).Some? && Index(s[1]).Some? && Index(s[2]).Some? && Index(s[3]).Some?
            && Groups(s[4..]).Some?
  {
  }

  lemma GroupsOfRest(s: string)
    requires |s| < 4
    ensures Groups(s).Some? <==> IsBase64(s) && |s| != 1
  {
    assert IsBase64(s) <==> forall i :: 0 <= i < |s| ==> Index(s[i]).Some?;
  }

  lemma FourValid(a: char, b: char, c: char, d: char)
    ensures IsBase64([a, b, c, d]) <==> Index(a).Some? && Index(b).Some? && Index(c).Some? && Index(d).Some?
  {
    var s := [a, b, c, d];
    assert s[0] == a && s[1] == b && s[2] == c && s[3] == d;
    if IsBase64(s) { assert s[0] in s && s[1] in s && s[2] in s && s[3] in s; }
  }

  function Without(s: string, drop: char -> bool): string {
    if s == "" then "" else (if drop(s[0]) then "" else [s[0]]) + Without(s[1..], drop)
  }

  predicate IsSpace(c: char) {
    c == ' ' || c == '\t' || c == '\n' || c == '\r' || c as int == 12
  }

  function Unpad(s: string): string {
    if |s| % 4 == 0 && |s| > 0 && s[|s| - 1] == '=' then
      if s[|s| - 2] == '=' then s[..|s| - 2] else s[..|s| - 1]
    else s
  }

  /** `atob`: forgiving decoding; None is the InvalidCharacterError it throws. */
  function Atob(s: string): Option<seq<byte>> {
    Groups(Unpad(Without(s, IsSpace)))
  }

  function ReplaceAll(s: string, from: char, to: char): (r: string)
    ensures |r| == |s|
  {
    seq(|s|, i requires 0 <= i < |s| => if s[i] == from then to else s[i])
  }

  function UrlSafe(s: string): (r: string)
    ensures |r| == |s|
  {
    ReplaceAll(ReplaceAll(s, '+', '-'), '/', '_')
  }

  function ToB64u(b: seq<byte>): string {
    Without(UrlSafe(Btoa(b)), c => c == '=')
  }

  function Standard(s: string): string {
    ReplaceAll(ReplaceAll(s, '-', '+'), '_', '/')
  }

  function Padded(s: string): (r: string)
    ensures |r| % 4 == 0 && s <= r
  {
    s + Repeat('=', (4 - |s| % 4) % 4)
  }

  /** `fromB64u` of the web client and `decodeBase64` of the verification page, which are the same code. */
  function DecodeB64(s: string): Option<seq<byte>> {
    Atob(Padded(Standard(s)))
  }

  lemma GroupsUndoFour(x: byte, y: byte, z: byte, rest: string, b: seq<byte>)
    requires Groups(rest) == Some(b)
    ensures Groups(FourLetters(x, y, z) + rest) == Some([x, y, z] + b)
  {
    var c1, c2 := x % 4 * 16 + y / 16, y % 16 * 4 + z / 64;
    BitsRejoin(x, y, z, c1, c2);
    GroupsFour(x / 4, c1, c2, z % 64, rest, b, x, y, z);
  }

  /** Four letters that stand for three octets. */
  lemma GroupsFour(
    c0: sextet, c1: sextet, c2: sextet, c3: sextet, rest: string, b: seq<byte>, x: byte, y: byte, z: byte
  )
    requires Groups(rest) == Some(b)
    requires c0 * 4 + c1 / 16 == x && c1 % 16 * 16 + c2 / 4 == y && c2 % 4 * 64 + c3 == z
    ensures Groups([Letter(c0), Letter(c1), Letter(c2), Letter(c3)] + rest) == Some([x, y, z] + b)
  {
    var s := [Letter(c0), Letter(c1), Letter(c2), Letter(c3)] + rest;
    assert s[4..] == rest;
  }

  /** Three octets cut into four sextets and put together again. */
  lemma BitsRejoin(x: byte, y: byte, z: byte, c1: int, c2: int)
    requires c1 == x % 4 * 16 + y / 16 && c2 == y % 16 * 4 + z / 64
    ensures 0 <= c1 < 64 && 0 <= c2 < 64
    ensures x / 4 * 4 + c1 / 16 == x && c1 % 16 * 16 + c2 / 4 == y && c2 % 4 * 64 + z % 64 == z
  {
  }

  lemma GroupsUndoTwo(x: byte)
    ensures Groups(TwoLetters(x)) == Some([x])
  {
    var c1 := x % 4 * 16;
    assert x / 4 * 4 + c1 / 16 == x;
  }

  lemma GroupsUndoThree(x: byte, y: byte)
    ensures Groups(ThreeLetters(x, y)) == Some([x, y])
  {
    var c1, c2 := x % 4 * 16 + y / 16, y % 16 * 4;
    assert x / 4 * 4 + c1 / 16 == x && c1 % 16 * 16 + c2 / 4 == y;
  }

  lemma {:induction false} GroupsUndoLetters(b: seq<byte>)
    ensures Groups(Letters(b)) == Some(b)
  {
    if |b| >= 3 {
      GroupsUndoLetters(b[3..]);
      LettersNext(b);
      GroupsUndoFour(b[0], b[1], b[2], Letters(b[3..]), b[3..]);
      assert b == [b[0], b[1], b[2]] + b[3..];
    } else if |b| == 2 {
      LettersRest(b);
      GroupsUndoThree(b[0], b[1]);
      assert b == [b[0], b[1]];
    } else if |b| == 1 {
      LettersRest(b);
      GroupsUndoTwo(b[0]);
      assert b == [b[0]];
    }
  }

  lemma LettersNext(b: seq<byte>)
    requires |b| >= 3
    ensures Letters(b) == FourLetters(b[0], b[1], b[2]) + Letters(b[3..])
  {
  }

  lemma LettersRest(b: seq<byte>)
    requires |b| < 3
    ensures Letters(b) == if b == [] then "" else if |b| == 1 then TwoLetters(b[0]) else ThreeLetters(b[0], b[1])
  {
  }

  /** Four letters for each full group of three, and r + 1 for a rest of r. */
  function LetterCount(n: nat): nat {
    4 * (n / 3) + (if n % 3 == 0 then 0 else n % 3 + 1)
  }

  lemma LetterCountFacts(n: nat, l: nat)
    requires l == LetterCount(n)
    ensures l == (4 * n + 2) / 3
    ensures (4 - l % 4) % 4 == PadCount(n)
    ensures (l + PadCount(n)) % 4 == 0
  {
    var k, r := n / 3, n % 3;
    assert n == 3 * k + r;
    if r == 0 {
      assert l == 4 * k && 4 * n + 2 == 3 * l + 2;
    } else if r == 1 {
      assert l == 4 * k + 2 && 4 * n + 2 == 3 * l;
    } else {
      assert l == 4 * k + 3 && 4 * n + 2 == 3 * l + 1;
    }
  }

  lemma {:induction false} LettersLength(b: seq<byte>)
    ensures |Letters(b)| == LetterCount(|b|)
  {
    if |b| >= 3 {
      LettersLength(b[3..]);
      assert |b[3..]| == |b| - 3;
    }
  }

  lemma {:induction false} WithoutNone(s: string, drop: char -> bool)
    requires forall c | c in s :: !drop(c)
    ensures Without(s, drop) == s
  {
    if s != "" {
      assert s[0] in s;
      assert forall c | c in s[1..] :: c in s;
      WithoutNone(s[1..], drop);
      assert s == [s[0]] + s[1..];
    }
  }

  lemma WithoutCons(c: char, s: string, drop: char -> bool)
    ensures Without([c] + s, drop) == (if drop(c) then "" else [c]) + Without(s, drop)
  {
    assert ([c] + s)[1..] == s;
  }

  lemma {:induction false} WithoutAppend(s: string, t: string, drop: char -> bool)
    ensures Without(s + t, drop) == Without(s, drop) + Without(t, drop)
  {
    if s == "" {
      assert s + t == t;
    } else {
      WithoutAppend(s[1..], t, drop);
      WithoutCons(s[0], s[1..], drop);
      WithoutCons(s[0], s[1..] + t, drop);
      assert s == [s[0]] + s[1..] && s + t == [s[0]] + (s[1..] + t);
    }
  }

  lemma {:induction false} WithoutAll(s: string, drop: char -> bool)
    requires forall c | c in s :: drop(c)
    ensures Without(s, drop) == ""
  {
    if s != "" {
      assert forall c | c in s[1..] :: c in s;
      WithoutAll(s[1..], drop);
    }
  }

  /** The URL-safe letters of b. */
  function UrlLetters(b: seq<byte>): (s: string)
    ensures |s| == |Letters(b)|
  {
    UrlSafe(Letters(b))
  }

  lemma ToB64uIsUrlLetters(b: seq<byte>)
    ensures ToB64u(b) == UrlLetters(b)
    ensures Standard(UrlLetters(b)) == Standard(Letters(b)) == Letters(b)
  {
    var pad := Repeat('=', PadCount(|b|));
    assert UrlSafe(Btoa(b)) == UrlLetters(b) + pad;
    WithoutAppend(UrlLetters(b), pad, c => c == '=');
    forall c | c in UrlLetters(b) ensures c != '=' {
      var i :| 0 <= i < |UrlLetters(b)| && UrlLetters(b)[i] == c;
      assert Letters(b)[i] in Letters(b);
    }
    WithoutNone(UrlLetters(b), c => c == '=');
    WithoutAll(pad, c => c == '=');
    forall i | 0 <= i < |Letters(b)|
      ensures Standard(UrlLetters(b))[i] == Letters(b)[i] && Standard(Letters(b))[i] == Letters(b)[i]
    {
      assert Letters(b)[i] in Letters(b);
    }
  }

  lemma UnpadRepeat(l: string, k: nat)
    requires IsBase64(l) && k <= 2 && (|l| + k) % 4 == 0
    ensures Unpad(l + Repeat('=', k)) == l
  {
    var s := l + Repeat('=', k);
    assert s[..|l|] == l;
    if l != "" {
      assert l[|l| - 1] in l;
      assert s[|l| - 1] == l[|l| - 1];
    }
  }

  lemma AtobUndoesBtoa(b: seq<byte>)
    ensures Atob(Btoa(b)) == Some(b)
  {
    forall c | c in Btoa(b) ensures !IsSpace(c) {
      assert c in Letters(b) || c == '=';
    }
    WithoutNone(Btoa(b), IsSpace);
    PadFormula(b);
    UnpadRepeat(Letters(b), PadCount(|b|));
    GroupsUndoLetters(b);
  }

  /** `atob` ignores white space, wherever it stands. */
  lemma SpacesIgnored(s: string, c: char, t: string)
    requires c in {' ', '\t', '\n', '\r'} || c as int == 0x0c
    ensures Atob(s + [c] + t) == Atob(s + t)
  {
    WithoutAppend(s + [c], t, IsSpace);
    WithoutAppend(s, [c], IsSpace);
    WithoutAppend(s, t, IsSpace);
    WithoutCons(c, "", IsSpace);
    assert [c] + "" == [c];
    assert Without([c], IsSpace) == "";
    assert Without(s, IsSpace) + "" == Without(s, IsSpace);
  }

  /** Unpadded letters are decoded as if they had been padded. */
  lemma DecodeSpelling(s: string, b: seq<byte>)
    requires Standard(s) == Letters(b)
    ensures DecodeB64(s) == Some(b)
  {
    PaddedLetters(b);
    AtobUndoesBtoa(b);
  }

  lemma PaddedLetters(b: seq<byte>)
    ensures Padded(Letters(b)) == Btoa(b)
  {
    PadFormula(b);
  }

  lemma PadFormula(b: seq<byte>)
    ensures (4 - |Letters(b)| % 4) % 4 == PadCount(|b|)
    ensures |Letters(b)| == (4 * |b| + 2) / 3 && (|Letters(b)| + PadCount(|b|)) % 4 == 0
  {
    LettersLength(b);
    LetterCountFacts(|b|, |Letters(b)|);
  }

  lemma BtoaLength(b: seq<byte>)
    ensures |Btoa(b)| % 4 == 0
  {
    PadFormula(b);
    assert |Btoa(b)| == |Letters(b)| + PadCount(|b|);
  }

  lemma NoPadNeeded(s: string)
    requires |s| % 4 == 0
    ensures Padded(s) == s
  {
  }

  /** The round trip, the unpadded length, and that the pad formula restores a multiple of four. */
  lemma DecodeUndoesToB64u(b: seq<byte>)
    ensures DecodeB64(ToB64u(b)) == Some(b)
    ensures |ToB64u(b)| == (4 * |b| + 2) / 3
    ensures |Padded(ToB64u(b))| % 4 == 0
  {
    ToB64uIsUrlLetters(b);
    PadFormula(b);
    DecodeSpelling(UrlLetters(b), b);
  }

  /** Padded or not, standard or URL-safe: all spellings of b decode to b. */
  lemma DecodeAcceptsBothAlphabets(b: seq<byte>)
    ensures DecodeB64(Btoa(b)) == DecodeB64(Letters(b)) == Some(b)
    ensures DecodeB64(UrlSafe(Btoa(b))) == DecodeB64(ToB64u(b)) == Some(b)
  {
    ToB64uIsUrlLetters(b);
    DecodeSpelling(ToB64u(b), b);
    DecodeSpelling(Letters(b), b);
    BtoaLength(b);
    StandardBtoa(b);
    NoPadNeeded(Btoa(b));
    AtobUndoesBtoa(b);
  }

  lemma StandardBtoa(b: seq<byte>)
    ensures Standard(Btoa(b)) == Standard(UrlSafe(Btoa(b))) == Btoa(b)
  {
    ToB64uIsUrlLetters(b);
    var pad := Repeat('=', PadCount(|b|));
    assert Standard(Btoa(b)) == Standard(Letters(b)) + pad;
    assert Standard(UrlSafe(Btoa(b))) == Standard(UrlLetters(b)) + pad;
  }
}
