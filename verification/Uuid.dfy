/** UUIDs: their canonical text, and the two orders the server puts them in. Routes compare the
    text with JavaScript's `<`; the database compares the sixteen bytes. */
module Uuid {
  import opened Octets

  type Uuid = u: seq<byte> | |u| == 16 witness seq(16, _ => 0)

  predicate LexLess<T(==)>(less: (T, T) -> bool, a: seq<T>, b: seq<T>) {
    if b == [] then false
    else if a == [] then true
    else if a[0] == b[0] then LexLess(less, a[1..], b[1..])
    else less(a[0], b[0])
  }

  predicate ByteLt(x: byte, y: byte) { x < y }

  predicate CharLt(x: char, y: char) { x < y }

  /** PostgreSQL's order on the uuid type. */
  predicate BytesLess(a: Uuid, b: Uuid) {
    LexLess(ByteLt, a, b)
  }

  /** JavaScript's order on strings (UTF-16 code units). */
  predicate TextLess(a: string, b: string) {
    LexLess(CharLt, a, b)
  }

  function HexDigit(n: int): (c: char)
    requires 0 <= n < 16
    ensures c != '-' && c != '|' && c < 128 as char
  {
    if n < 10 then '0' + n as char else 'a' + (n - 10) as char
  }

  function Hex(b: byte): string {
    [HexDigit(b / 16), HexDigit(b % 16)]
  }

  predicate HyphenBefore(i: nat) {
    i == 4 || i == 6 || i == 8 || i == 10
  }

  /** The canonical text of the bytes from position i on. */
  function TextFrom(u: Uuid, i: nat): string
    requires i <= 16
    decreases 16 - i
  {
    if i == 16 then "" else (if HyphenBefore(i) then "-" else "") + Hex(u[i]) + TextFrom(u, i + 1)
  }

  function Text(u: Uuid): string {
    TextFrom(u, 0)
  }

  lemma ConsOrder(x: char, s: string, y: char, t: string)
    ensures TextLess([x] + s, [y] + t) == if x == y then TextLess(s, t) else x < y
  {
    assert ([x] + s)[1..] == s && ([y] + t)[1..] == t;
  }

  lemma HexOrder(a: byte, b: byte, s: string, t: string)
    ensures TextLess(Hex(a) + s, Hex(b) + t) == if a == b then TextLess(s, t) else a < b
  {
    assert Hex(a) + s == [HexDigit(a / 16)] + ([HexDigit(a % 16)] + s);
    assert Hex(b) + t == [HexDigit(b / 16)] + ([HexDigit(b % 16)] + t);
    ConsOrder(HexDigit(a / 16), [HexDigit(a % 16)] + s, HexDigit(b / 16), [HexDigit(b % 16)] + t);
    ConsOrder(HexDigit(a % 16), s, HexDigit(b % 16), t);
  }

  lemma TextFromStep(u: Uuid, i: nat)
    requires i < 16
    ensures TextFrom(u, i) ==
            if HyphenBefore(i) then ['-'] + (Hex(u[i]) + TextFrom(u, i + 1)) else Hex(u[i]) + TextFrom(u, i + 1)
  {
  }

  lemma OrderStep(a: Uuid, b: Uuid, i: nat)
    requires i < 16
    ensures TextLess(TextFrom(a, i), TextFrom(b, i)) ==
            if a[i] == b[i] then TextLess(TextFrom(a, i + 1), TextFrom(b, i + 1)) else a[i] < b[i]
  {
    var s, t := Hex(a[i]) + TextFrom(a, i + 1), Hex(b[i]) + TextFrom(b, i + 1);
    TextFromStep(a, i);
    TextFromStep(b, i);
    HexOrder(a[i], b[i], TextFrom(a, i + 1), TextFrom(b, i + 1));
    ConsOrder('-', s, '-', t);
  }

  lemma {:induction false} OrderFrom(a: Uuid, b: Uuid, i: nat)
    requires i <= 16
    ensures TextLess(TextFrom(a, i), TextFrom(b, i)) == LexLess(ByteLt, a[i..], b[i..])
    decreases 16 - i
  {
    if i < 16 {
      OrderFrom(a, b, i + 1);
      OrderStep(a, b, i);
      assert a[i..][1..] == a[i + 1..] && b[i..][1..] == b[i + 1..];
    }
  }

  /** The text order the route uses is the byte order the database checks. */
  lemma TextOrderIsByteOrder(a: Uuid, b: Uuid)
    ensures TextLess(Text(a), Text(b)) <==> BytesLess(a, b)
  {
    OrderFrom(a, b, 0);
    assert a[0..] == a && b[0..] == b;
  }

  lemma {:induction false} LexTotal(a: seq<byte>, b: seq<byte>)
    requires |a| == |b|
    ensures if a == b then !LexLess(ByteLt, a, b) && !LexLess(ByteLt, b, a)
      else LexLess(ByteLt, a, b) != LexLess(ByteLt, b, a)
  {
    if a != [] {
      LexTotal(a[1..], b[1..]);
      assert a == [a[0]] + a[1..] && b == [b[0]] + b[1..];
    }
  }

  /** Exactly one of two distinct ids is the smaller, and none is smaller than itself. */
  lemma OrderIsStrictTotal(a: Uuid, b: Uuid)
    ensures a != b ==> BytesLess(a, b) != BytesLess(b, a)
    ensures !BytesLess(a, a)
  {
    LexTotal(a, b);
    LexTotal(a, a);
  }

  function HyphensFrom(i: nat): nat {
    if i <= 4 then 4 else if i <= 6 then 3 else if i <= 8 then 2 else if i <= 10 then 1 else 0
  }

  predicate Plain(s: string) {
    forall k :: 0 <= k < |s| ==> s[k] != '|' && s[k] < 128 as char
  }

  lemma PlainAppend(s: string, t: string)
    requires Plain(s) && Plain(t)
    ensures Plain(s + t)
  {
  }

  lemma {:induction false} TextFromLength(u: Uuid, i: nat)
    requires i <= 16
    ensures |TextFrom(u, i)| == 2 * (16 - i) + HyphensFrom(i)
    decreases 16 - i
  {
    if i < 16 { TextFromLength(u, i + 1); }
  }

  lemma {:induction false} TextFromShape(u: Uuid, i: nat)
    requires i <= 16
    ensures Plain(TextFrom(u, i))
    decreases 16 - i
  {
    if i < 16 {
      TextFromShape(u, i + 1);
      TextFromStep(u, i);
      var rest := Hex(u[i]) + TextFrom(u, i + 1);
      PlainAppend(Hex(u[i]), TextFrom(u, i + 1));
      PlainAppend(['-'], rest);
    }
  }

  predicate IsHexDigit(c: char) {
    '0' <= c <= '9' || 'a' <= c <= 'f'
  }

  lemma HexIsHex(b: byte)
    ensures IsHexDigit(Hex(b)[0]) && IsHexDigit(Hex(b)[1])
  {
  }

  /** The canonical form: lower-case hexadecimal digits in groups of 8, 4, 4, 4 and 12. */
  lemma TextLayout(u: Uuid)
    ensures |Text(u)| == 36
    ensures forall k :: 0 <= k < 36 ==>
              if k == 8 || k == 13 || k == 18 || k == 23 then Text(u)[k] == '-' else IsHexDigit(Text(u)[k])
  {
    TextShape(u);
    forall k | 0 <= k < 36
      ensures if k == 8 || k == 13 || k == 18 || k == 23 then Text(u)[k] == '-' else IsHexDigit(Text(u)[k])
    {
      LayoutFrom(u, 0, k);
    }
  }

  lemma {:induction false} LayoutFrom(u: Uuid, i: nat, k: nat)
    requires i <= 16 && k < |TextFrom(u, i)|
    ensures var at := Start(i) + k;
            if at == 8 || at == 13 || at == 18 || at == 23 then TextFrom(u, i)[k] == '-'
            else IsHexDigit(TextFrom(u, i)[k])
    decreases 16 - i
  {
    if i < 16 {
      if k < Width(i) {
        LayoutOfByte(u, i, k);
      } else {
        TextFromLater(u, i, k);
        LayoutFrom(u, i + 1, k - Width(i));
      }
    }
  }

  function Width(i: nat): nat {
    if HyphenBefore(i) then 3 else 2
  }

  lemma TextFromLater(u: Uuid, i: nat, k: nat)
    requires i < 16 && Width(i) <= k < |TextFrom(u, i)|
    ensures k - Width(i) < |TextFrom(u, i + 1)| && TextFrom(u, i)[k] == TextFrom(u, i + 1)[k - Width(i)]
    ensures Start(i + 1) == Start(i) + Width(i)
  {
    TextFromStep(u, i);
  }

  lemma LayoutOfByte(u: Uuid, i: nat, k: nat)
    requires i < 16 && k < Width(i) && k < |TextFrom(u, i)|
    ensures var at := Start(i) + k;
            if at == 8 || at == 13 || at == 18 || at == 23 then TextFrom(u, i)[k] == '-'
            else IsHexDigit(TextFrom(u, i)[k])
  {
    TextFromStep(u, i);
    HexIsHex(u[i]);
  }

  /** Where the text from byte i on begins in the whole text. */
  function Start(i: nat): nat {
    2 * i + (if i <= 4 then 0 else if i <= 6 then 1 else if i <= 8 then 2 else if i <= 10 then 3 else 4)
  }

  /** The text has 36 ASCII characters, none of them the separator of the associated data. */
  lemma TextShape(u: Uuid)
    ensures |Text(u)| == 36 && '|' !in Text(u) && forall c | c in Text(u) :: c < 128 as char
  {
    TextFromShape(u, 0);
    TextFromLength(u, 0);
  }

  /** Distinct ids have distinct texts. */
  lemma TextInjective(a: Uuid, b: Uuid)
    requires Text(a) == Text(b)
    ensures a == b
  {
    TextOrderIsByteOrder(a, b);
    TextOrderIsByteOrder(b, a);
    OrderIsStrictTotal(a, b);
    OrderIsStrictTotal(b, a);
    LessIrreflexive(Text(a));
  }

  lemma {:induction false} LessIrreflexive(s: string)
    ensures !TextLess(s, s)
  {
    if s != [] { LessIrreflexive(s[1..]); }
  }
}
