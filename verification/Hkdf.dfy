/** HKDF (RFC 5869) over the library's HMAC. */
module Hkdf {
  import opened Octets
  import opened Primitives

  const HASH_LEN := 32
  const MAX_BLOCKS := 255

  /** T(i) of section 2.3 of RFC 5869, defined for the block numbers one octet can hold. */
  ghost function T<B>(p: Primitives<B>, prk: seq<B>, info: seq<B>, i: nat): seq<B>
    requires i <= MAX_BLOCKS
  {
    if i == 0 then [] else p.hmac(prk, T(p, prk, info, i - 1) + info + [p.octet(i)])
  }

  /** T(1) | T(2) | ... | T(n) */
  ghost function Blocks<B>(p: Primitives<B>, prk: seq<B>, info: seq<B>, n: nat): seq<B>
    requires n <= MAX_BLOCKS
  {
    if n == 0 then [] else Blocks(p, prk, info, n - 1) + T(p, prk, info, n)
  }

  function BlocksNeeded(len: nat): (n: nat)
    ensures HASH_LEN * n >= len && (n > 0 ==> HASH_LEN * (n - 1) < len)
  {
    (len + HASH_LEN - 1) / HASH_LEN
  }

  lemma {:induction false} BlocksLength<B(!new)>(p: Primitives<B>, prk: seq<B>, info: seq<B>, n: nat)
    requires n <= MAX_BLOCKS && HashLength(p)
    ensures |Blocks(p, prk, info, n)| == HASH_LEN * n
  {
    if n > 0 { BlocksLength(p, prk, info, n - 1); }
  }

  /** HKDF-Expand of section 2.3 of RFC 5869: the first `len` octets of T(1) | ... | T(N). */
  ghost function Expand<B(!new)>(p: Primitives<B>, prk: seq<B>, info: seq<B>, len: nat): (okm: seq<B>)
    requires HashLength(p) && len <= MAX_BLOCKS * HASH_LEN
    ensures |okm| == len
  {
    BlocksLength(p, prk, info, BlocksNeeded(len));
    Blocks(p, prk, info, BlocksNeeded(len))[..len]
  }

  lemma {:induction false} BlocksExtend<B(!new)>(p: Primitives<B>, prk: seq<B>, info: seq<B>, m: nat, n: nat)
    requires m <= n <= MAX_BLOCKS && HashLength(p)
    ensures Blocks(p, prk, info, m) <= Blocks(p, prk, info, n)
  {
    if m < n { BlocksExtend(p, prk, info, m, n - 1); }
  }

  /** A shorter output is a prefix of a longer one. */
  lemma ExpandPrefix<B(!new)>(p: Primitives<B>, prk: seq<B>, info: seq<B>, m: nat, n: nat)
    requires HashLength(p) && m <= n <= MAX_BLOCKS * HASH_LEN
    ensures Expand(p, prk, info, m) <= Expand(p, prk, info, n)
  {
    BlocksExtend(p, prk, info, BlocksNeeded(m), BlocksNeeded(n));
    BlocksLength(p, prk, info, BlocksNeeded(m));
    BlocksLength(p, prk, info, BlocksNeeded(n));
  }

  /** Outputs of at most one block are a truncated HMAC. */
  lemma ExpandOneBlock<B(!new)>(p: Primitives<B>, prk: seq<B>, info: seq<B>, len: nat)
    requires HashLength(p) && 0 < len <= HASH_LEN
    ensures Expand(p, prk, info, len) == p.hmac(prk, info + [p.octet(1)])[..len]
  {
    assert BlocksNeeded(len) == 1;
    assert Blocks(p, prk, info, 1) == Blocks(p, prk, info, 0) + T(p, prk, info, 1);
    assert T(p, prk, info, 1) == p.hmac(prk, T(p, prk, info, 0) + info + [p.octet(1)]);
    assert T(p, prk, info, 0) + info == info;
    assert Blocks(p, prk, info, 1) == p.hmac(prk, info + [p.octet(1)]);
  }

  function Min(a: int, b: int): int {
    if a < b then a else b
  }

  /** What the buffer holds after n rounds: the first n blocks, cut to the wanted length. */
  ghost predicate Filled<B(!new)>(p: Primitives<B>, prk: seq<B>, info: seq<B>, len: nat, n: nat, okm: seq<B>)
    requires n <= MAX_BLOCKS && HashLength(p)
  {
    BlocksLength(p, prk, info, n);
    okm == Blocks(p, prk, info, n)[..Min(len, HASH_LEN * n)]
  }

  lemma FillNext<B(!new)>(p: Primitives<B>, prk: seq<B>, info: seq<B>, len: nat, n: nat, okm: seq<B>)
    requires n < MAX_BLOCKS && HashLength(p) && HASH_LEN * n < len
    requires |okm| == HASH_LEN * n && Filled(p, prk, info, len, n, okm)
    ensures var t := T(p, prk, info, n + 1);
            |t| == HASH_LEN && Filled(p, prk, info, len, n + 1, okm + t[..Min(HASH_LEN, len - |okm|)])
  {
    BlocksLength(p, prk, info, n);
    BlocksLength(p, prk, info, n + 1);
    var t := T(p, prk, info, n + 1);
    assert okm == Blocks(p, prk, info, n);
    assert okm + t[..Min(HASH_LEN, len - |okm|)] == (okm + t)[..Min(len, HASH_LEN * (n + 1))];
  }

  /** `hkdf_expand`: the block counter is an unsigned char that wraps, the block buffer is fed back
      into the next HMAC, and the last block is cut to what is still missing. Up to the RFC's bound
      of 255 blocks the counter does not wrap and the output is the RFC's. */
  method HkdfExpand<B(!new)>(p: Primitives<B>, prk: seq<B>, info: seq<B>, len: nat) returns (okm: seq<B>)
    requires HashLength(p)
    ensures |okm| == len
    ensures len <= MAX_BLOCKS * HASH_LEN ==> okm == Expand(p, prk, info, len)
  {
    okm := [];
    var t: seq<B> := [];
    var counter: byte := 1;
    ghost var n: nat := 0;
    while |okm| < len
      invariant |okm| == Min(len, HASH_LEN * n) && (n > 0 ==> HASH_LEN * (n - 1) < len)
      invariant counter == (n + 1) % 256
      invariant n <= MAX_BLOCKS ==> t == T(p, prk, info, n) && Filled(p, prk, info, len, n, okm)
      decreases len - |okm|
    {
      if n < MAX_BLOCKS { FillNext(p, prk, info, len, n, okm); }
      t := p.hmac(prk, t + info + [p.octet(counter)]);
      okm := okm + t[..Min(|t|, len - |okm|)];
      counter := (counter + 1) % 256;
      n := n + 1;
    }
    assert n == BlocksNeeded(len);
  }
}
