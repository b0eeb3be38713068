/** Which blocks mask the payload and the tag: sections 2.2 to 2.4 of RFC 3610. */
module CcmMasks {
  import opened Octet
  import opened Bytes
  import opened AesReference
  import opened CcmSpec
  import opened CcmInPlace

  /** A block that ends in the number `i`, behind the nonce and an octet that says how long the number is. */
  function Numbered(nonce: seq<byte>, i: nat): (r: seq<byte>)
    requires ValidNonce(nonce)
    ensures |r| == BLOCK
  {
    [(14 - |nonce|) as byte] + nonce + Big(i, 15 - |nonce|)
  }

  lemma {:induction false} NumberedIs(nonce: seq<byte>, i: nat)
    requires ValidNonce(nonce)
    ensures CounterBlock(nonce, i) == Numbered(nonce, i)
  {
  }

  lemma {:induction false} XorAt(a: seq<byte>, b: seq<byte>, k: nat)
    requires k < |a| <= |b|
    ensures Xor(a, b)[k] == Add(a[k], b[k])
  {
    hide Add;
    if k > 0 {
      XorAt(a[1..], b[1..], k - 1);
    }
  }

  /** The tag is the authentication code under the block with the number zero. */
  lemma {:induction false} TagMasked(key: seq<byte>, nonce: seq<byte>, aad: seq<byte>, p: seq<byte>, m: nat, k: nat)
    requires ValidKey(key) && ValidNonce(nonce) && ValidTag(m) && k < m
    ensures Tag(key, nonce, aad, p, m)[k] == Add(T(key, nonce, aad, p, m)[k], E(key, Numbered(nonce, 0))[k])
  {
    hide E;
    hide T;
    hide Add;
    hide Xor;
    NumberedIs(nonce, 0);
    XorAt(T(key, nonce, aad, p, m)[..m], S(key, nonce, 0), k);
  }

  /** Octet `t` of block `j` of the payload is masked by the block with the number j + 1. */
  lemma {:induction false} PayloadMasked(key: seq<byte>, nonce: seq<byte>, p: seq<byte>, j: nat, t: nat)
    requires ValidKey(key) && ValidNonce(nonce) && t < BLOCK && BLOCK * j + t < |p|
    ensures Crypt(key, nonce, p)[BLOCK * j + t] == Add(p[BLOCK * j + t], E(key, Numbered(nonce, j + 1))[t])
  {
    hide E;
    hide Add;
    hide Xor;
    hide KeyStream;
    NumberedIs(nonce, j + 1);
    KeyStreamAt(key, nonce, 1, |p|, j, t);
    XorAt(p, KeyStream(key, nonce, 1, |p|), BLOCK * j + t);
  }

  /** No block is used twice: numbers that fit their field give different blocks, and the first block of the
      authentication code is none of them. */
  lemma {:induction false} MasksDiffer(nonce: seq<byte>, i: nat, j: nat, alen: nat, plen: nat, m: nat)
    requires ValidNonce(nonce) && ValidTag(m) && i != j && FitsIn(i, 15 - |nonce|) && FitsIn(j, 15 - |nonce|)
    ensures Numbered(nonce, i) != Numbered(nonce, j) && Numbered(nonce, i) != B0(nonce, alen, plen, m)
  {
    hide FitsIn;
    hide Big;
    BigInverts(i, 15 - |nonce|);
    BigInverts(j, 15 - |nonce|);
    assert Numbered(nonce, i)[1 + |nonce|..] == Big(i, 15 - |nonce|);
    assert Numbered(nonce, j)[1 + |nonce|..] == Big(j, 15 - |nonce|);
    FlagsDiffer(alen > 0, m, |nonce|);
    assert Numbered(nonce, i)[0] == (14 - |nonce|) as byte;
    assert B0(nonce, alen, plen, m)[0] == Flags(alen > 0, m, 15 - |nonce|);
  }

  /** The flags of the first block hold the size of the tag, the others do not. */
  lemma {:induction false} FlagsDiffer(adata: bool, m: nat, nlen: nat)
    requires ValidTag(m) && 7 <= nlen <= 13
    ensures (14 - nlen) as byte != Flags(adata, m, 15 - nlen)
  {
    if m == 4 {} else if m == 6 {} else if m == 8 {} else if m == 10 {} else if m == 12 {} else if m == 14 {} else {}
  }

  /** What the first block says is read back: additional data, size of the tag, size of the length field, nonce,
      and the length of the payload. */
  lemma {:induction false} FirstBlockReads(nonce: seq<byte>, alen: nat, plen: nat, m: nat)
    requires ValidNonce(nonce) && ValidTag(m) && FitsIn(plen, 15 - |nonce|)
    ensures var b := B0(nonce, alen, plen, m);
            && (b[0] & 0x40 != 0 <==> alen > 0) && 2 * ((b[0] & 0x38) >> 3) as nat + 2 == m && (b[0] & 7) as nat + 1 == 15 - |nonce|
            && b[1..1 + |nonce|] == nonce && BigValue(b[1 + |nonce|..]) == plen
  {
    hide FitsIn;
    hide Big;
    hide BigValue;
    BigInverts(plen, 15 - |nonce|);
    FlagsRead(alen > 0, m, |nonce|);
    assert B0(nonce, alen, plen, m)[1 + |nonce|..] == Big(plen, 15 - |nonce|);
  }

  lemma {:induction false} FlagsRead(adata: bool, m: nat, nlen: nat)
    requires ValidTag(m) && 7 <= nlen <= 13
    ensures var f := Flags(adata, m, 15 - nlen);
            (f & 0x40 != 0 <==> adata) && 2 * ((f & 0x38) >> 3) as nat + 2 == m && (f & 7) as nat + 1 == 15 - nlen
  {
    if m == 4 { LowRead(adata, 8, nlen); } else if m == 6 { LowRead(adata, 16, nlen); } else if m == 8 { LowRead(adata, 24, nlen); }
    else if m == 10 { LowRead(adata, 32, nlen); } else if m == 12 { LowRead(adata, 40, nlen); }
    else if m == 14 { LowRead(adata, 48, nlen); } else { LowRead(adata, 56, nlen); }
  }

  lemma {:induction false} LowRead(adata: bool, t: byte, nlen: nat)
    requires t & 0x38 == t && 7 <= nlen <= 13
    ensures var f := (if adata then 0x40 else 0) + t + ((14 - nlen) as byte);
            (f & 0x40 != 0 <==> adata) && f & 0x38 == t && (f & 7) as nat + 1 == 15 - nlen
  {
    if nlen == 7 {} else if nlen == 8 {} else if nlen == 9 {} else if nlen == 10 {} else if nlen == 11 {} else if nlen == 12 {} else {}
  }
}
