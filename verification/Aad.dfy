/** The associated data both clients rebuild for a message: "sender|recipient|time". */
module Aad {
  import opened Octets
  import opened Uuid

  function DigitChar(d: nat): (c: char)
    requires d < 10
    ensures '0' <= c <= '9' && c as int == '0' as int + d
  {
    '0' + d as char
  }

  function Digits(n: nat): (s: string)
    ensures s != "" && forall c | c in s :: '0' <= c <= '9'
  {
    (if n < 10 then "" else Digits(n / 10)) + [DigitChar(n % 10)]
  }

  /** `std::to_string` on a signed 64-bit value. */
  function Decimal(n: int): (s: string)
    ensures s != "" && forall c | c in s :: '0' <= c <= '9' || c == '-'
  {
    if n < 0 then "-" + Digits(-n) else Digits(n)
  }

  function MakeAad(senderId: string, recipientId: string, sentAtMs: int): string {
    senderId + "|" + recipientId + "|" + Decimal(sentAtMs)
  }

  /** The number a digit string is read as. */
  function Value(s: string): int {
    if s == "" then 0 else 10 * Value(s[..|s| - 1]) + (s[|s| - 1] as int - '0' as int)
  }

  lemma {:induction false} ValueOfDigits(n: nat)
    ensures Value(Digits(n)) == n
  {
    var front := if n < 10 then "" else Digits(n / 10);
    if n >= 10 { ValueOfDigits(n / 10); }
    ValueAppend(front, n % 10);
  }

  lemma ValueAppend(s: string, d: nat)
    requires d < 10
    ensures Value(s + [DigitChar(d)]) == 10 * Value(s) + d
  {
    assert (s + [DigitChar(d)])[..|s|] == s;
  }

  function SignedValue(s: string): int {
    if s != "" && s[0] == '-' then -Value(s[1..]) else Value(s)
  }

  /** Printing a number loses nothing. */
  lemma ValueOfDecimal(n: int)
    ensures SignedValue(Decimal(n)) == n
  {
    if n < 0 {
      assert Decimal(n)[1..] == Digits(-n);
      ValueOfDigits(-n);
    } else {
      assert Decimal(n)[0] in Digits(n);
      ValueOfDigits(n);
    }
  }

  /** Numbers are printed without leading zeros, and only negative ones with a sign. */
  lemma {:induction false} NoLeadingZero(n: nat)
    ensures Digits(n)[0] == '0' <==> n == 0
    ensures n == 0 ==> Digits(n) == "0"
  {
    if n >= 10 { NoLeadingZero(n / 10); }
  }

  lemma DecimalIsCanonical(n: int)
    ensures n == 0 ==> Decimal(n) == "0"
    ensures n > 0 ==> '1' <= Decimal(n)[0] <= '9'
    ensures n < 0 ==> |Decimal(n)| >= 2 && Decimal(n)[0] == '-' && '1' <= Decimal(n)[1] <= '9'
  {
    var m := if n < 0 then -n else n;
    NoLeadingZero(m);
    assert Digits(m)[0] in Digits(m);
  }

  /** Sender, recipient and time, in this order, between the first two separators. */
  lemma FieldsInOrder(s: string, r: string, t: int)
    requires '|' !in s && '|' !in r
    ensures var text := MakeAad(s, r, t);
            && |text| > |s| + |r| + 2
            && text[..|s|] == s && text[|s|] == '|' && text[|s| + 1..|s| + 1 + |r|] == r && text[|s| + 1 + |r|] == '|'
            && SignedValue(text[|s| + |r| + 2..]) == t
  {
    var text, d := MakeAad(s, r, t), Decimal(t);
    ValueOfDecimal(t);
    assert text[|s| + 1..|s| + 1 + |r|] == r;
    assert text[|s| + |r| + 2..] == d;
  }

  lemma MakeAadNests(s: string, r: string, t: int)
    ensures MakeAad(s, r, t) == s + "|" + (r + "|" + Decimal(t))
  {
  }

  lemma FirstBar(a: string, x: string)
    requires '|' !in a
    ensures (a + "|" + x)[|a|] == '|' && forall k :: 0 <= k < |a| ==> (a + "|" + x)[k] != '|'
    ensures (a + "|" + x)[..|a|] == a && (a + "|" + x)[|a| + 1..] == x
  {
    forall k | 0 <= k < |a| ensures (a + "|" + x)[k] != '|' {
      assert (a + "|" + x)[k] == a[k];
    }
  }

  lemma SplitAtBar(a: string, x: string, b: string, y: string)
    requires '|' !in a && '|' !in b && a + "|" + x == b + "|" + y
    ensures a == b && x == y
  {
    FirstBar(a, x);
    FirstBar(b, y);
    assert |a| == |b|;
  }

  lemma SplitTwice(s: string, r: string, t: int, s': string, r': string, t': int)
    requires '|' !in s && '|' !in r && '|' !in s' && '|' !in r'
    requires MakeAad(s, r, t) == MakeAad(s', r', t')
    ensures s == s' && r == r' && t == t'
  {
    MakeAadNests(s, r, t);
    MakeAadNests(s', r', t');
    SplitAtBar(s, r + "|" + Decimal(t), s', r' + "|" + Decimal(t'));
    SplitAtBar(r, Decimal(t), r', Decimal(t'));
    ValueOfDecimal(t);
    ValueOfDecimal(t');
  }

  lemma BarCount(s: string, r: string, t: int)
    ensures multiset(MakeAad(s, r, t))['|'] == multiset(s)['|'] + multiset(r)['|'] + 2
  {
    var d := Decimal(t);
    assert '|' !in d;
    assert multiset(d)['|'] == 0;
    assert multiset(MakeAad(s, r, t)) == multiset(s) + multiset("|") + multiset(r) + multiset("|") + multiset(d);
  }

  /** Ids without the separator in one of two triples: equal associated data means equal sender,
      recipient and time, whatever the ids of the other. */
  lemma AadInjective(s: string, r: string, t: int, s': string, r': string, t': int)
    requires '|' !in s && '|' !in r
    requires MakeAad(s, r, t) == MakeAad(s', r', t')
    ensures s == s' && r == r' && t == t'
  {
    BarCount(s, r, t);
    BarCount(s', r', t');
    assert '|' !in multiset(s) && '|' !in multiset(r);
    assert '|' !in multiset(s') && '|' !in multiset(r');
    SplitTwice(s, r, t, s', r', t');
  }

  lemma SplitBar(s: string) returns (a: string, b: string)
    requires '|' in s
    ensures s == a + "|" + b && (IsByteString(s) ==> IsByteString(a) && IsByteString(b))
  {
    var k :| 0 <= k < |s| && s[k] == '|';
    a, b := s[..k], s[k + 1..];
  }

  lemma ShiftBar(a: string, b: string, c: string, t: int)
    ensures MakeAad(a + "|" + b, c, t) == MakeAad(a, b + "|" + c, t)
  {
  }

  /** A separator inside an id can be read as the one between the ids. */
  lemma BarInIdIsAmbiguous(s: string, r: string, t: int) returns (s': string, r': string)
    requires '|' in s || '|' in r
    ensures MakeAad(s', r', t) == MakeAad(s, r, t) && s' != s && r' != r
    ensures IsByteString(s) && IsByteString(r) ==> IsByteString(s') && IsByteString(r')
  {
    if '|' in s {
      var a, b := SplitBar(s);
      ShiftBar(a, b, r, t);
      s', r' := a, b + "|" + r;
      assert |r'| > |r| && |s'| < |s|;
    } else {
      var a, b := SplitBar(r);
      ShiftBar(s, a, b, t);
      s', r' := s + "|" + a, b;
      assert |r'| < |r| && |s'| > |s|;
    }
  }

  /** The exact condition: associated data determines what it was made from if and only if neither
      id contains the separator. */
  lemma UnambiguousIffNoBar(s: string, r: string, t: int)
    ensures (forall s', r', t' :: MakeAad(s', r', t') == MakeAad(s, r, t) ==> s' == s && r' == r && t' == t) <==>
            '|' !in s && '|' !in r
  {
    if '|' in s || '|' in r {
      var s', r' := BarInIdIsAmbiguous(s, r, t);
    } else {
      forall s', r', t' | MakeAad(s', r', t') == MakeAad(s, r, t) ensures s' == s && r' == r && t' == t {
        AadInjective(s, r, t, s', r', t');
      }
    }
  }

  /** The server's ids are UUID texts, so for them the encoding is unambiguous outright. */
  lemma AadBindsUuids(s: Uuid, r: Uuid, t: int, s': Uuid, r': Uuid, t': int)
    requires MakeAad(Text(s), Text(r), t) == MakeAad(Text(s'), Text(r'), t')
    ensures s == s' && r == r' && t == t'
  {
    TextShape(s);
    TextShape(r);
    AadInjective(Text(s), Text(r), t, Text(s'), Text(r'), t');
    TextInjective(s, s');
    TextInjective(r, r');
  }

  lemma AadIsByteString(s: string, r: string, t: int)
    requires IsByteString(s) && IsByteString(r)
    ensures IsByteString(MakeAad(s, r, t))
  {
    var d := Decimal(t);
    assert IsByteString(d) by {
      forall i | 0 <= i < |d| ensures d[i] as int < 256 { assert d[i] in d; }
    }
  }

  /** The associated data as bytes. */
  function AadOf(s: string, r: string, t: int): seq<byte>
    requires IsByteString(s) && IsByteString(r)
  {
    AadIsByteString(s, r, t);
    Bytes(MakeAad(s, r, t))
  }

  lemma AadOfInjective(s: string, r: string, t: int, s': string, r': string, t': int)
    requires IsByteString(s) && IsByteString(r) && IsByteString(s') && IsByteString(r')
    requires '|' !in s && '|' !in r && AadOf(s, r, t) == AadOf(s', r', t')
    ensures s == s' && r == r' && t == t'
  {
    AadIsByteString(s, r, t);
    AadIsByteString(s', r', t');
    BytesInjective(MakeAad(s, r, t), MakeAad(s', r', t'));
    AadInjective(s, r, t, s', r', t');
  }

  lemma UuidIsByteString(u: Uuid)
    ensures IsByteString(Text(u)) && '|' !in Text(u)
  {
    TextShape(u);
    forall i | 0 <= i < |Text(u)| ensures Text(u)[i] as int < 256 { assert Text(u)[i] in Text(u); }
  }
}
