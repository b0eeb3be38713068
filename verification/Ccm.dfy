/** AES-CCM, section 2 of RFC 3610, and the in-place form the library uses. */
module CcmSpec {
  import opened Octet
  import opened Bytes
  import opened AesReference

  const BLOCK: nat := 16

  /** Nonces of 7 to 13 octets leave 8 to 2 octets for the length of the payload. */
  predicate ValidNonce(nonce: seq<byte>) {
    7 <= |nonce| <= 13
  }

  predicate ValidTag(m: nat) {
    m == 4 || m == 6 || m == 8 || m == 10 || m == 12 || m == 14 || m == 16
  }

  predicate ValidKey(key: seq<byte>) {
    |key| == KEY_OCTETS
  }

  /** L, the size of the length field. */
  function LengthSize(nonce: seq<byte>): nat
    requires ValidNonce(nonce)
  {
    15 - |nonce|
  }

  /** The flags of section 2.2: 64 * Adata + 8 * (M - 2) / 2 + (L - 1). */
  function Flags(adata: bool, m: nat, l: nat): byte
    requires ValidTag(m) && 2 <= l <= 8
  {
    (if adata then 0x40 else 0) + 8 * (((m - 2) / 2) as byte) + ((l - 1) as byte)
  }

  /** B_0: flags, nonce, and the payload length in the octets that are left. */
  function B0(nonce: seq<byte>, alen: nat, plen: nat, m: nat): (r: seq<byte>)
    requires ValidNonce(nonce) && ValidTag(m)
    ensures |r| == BLOCK
  {
    [Flags(alen > 0, m, LengthSize(nonce))] + nonce + Big(plen, LengthSize(nonce))
  }

  /** A_i, the counter block of section 2.3. */
  function CounterBlock(nonce: seq<byte>, i: nat): (r: seq<byte>)
    requires ValidNonce(nonce)
    ensures |r| == BLOCK
  {
    [(LengthSize(nonce) - 1) as byte] + nonce + Big(i, LengthSize(nonce))
  }

  function Add(x: byte, y: byte): byte {
    x ^ y
  }

  function Xor(a: seq<byte>, b: seq<byte>): (r: seq<byte>)
    requires |a| <= |b|
    ensures |r| == |a|
  {
    if a == [] then [] else [Add(a[0], b[0])] + Xor(a[1..], b[1..])
  }

  /** `d` filled up with zeros to whole blocks. */
  function Pad(d: seq<byte>): (r: seq<byte>)
    ensures Whole(r)
    decreases |d|
  {
    if |d| == 0 then []
    else if |d| <= BLOCK then
      WholeOne(d + Zeros(BLOCK - |d|));
      d + Zeros(BLOCK - |d|)
    else
      WholeMore(d[..BLOCK], Pad(d[BLOCK..]));
      d[..BLOCK] + Pad(d[BLOCK..])
  }

  predicate Whole(d: seq<byte>)
    decreases |d|
  {
    |d| == 0 || (|d| >= BLOCK && Whole(d[BLOCK..]))
  }

  lemma {:induction false} WholeOne(b: seq<byte>)
    requires |b| == BLOCK
    ensures Whole(b)
  {
  }

  lemma {:induction false} WholeMore(b: seq<byte>, d: seq<byte>)
    requires |b| == BLOCK && Whole(d)
    ensures Whole(b + d)
  {
    assert (b + d)[BLOCK..] == d;
  }

  lemma {:induction false} WholeJoin(a: seq<byte>, b: seq<byte>)
    requires Whole(a) && Whole(b)
    ensures Whole(a + b)
    decreases |a|
  {
    if a == [] {
      assert a + b == b;
    } else {
      WholeJoin(a[BLOCK..], b);
      assert (a + b)[BLOCK..] == a[BLOCK..] + b;
    }
  }

  /** The chain X_1, X_2, ... over the blocks of `d`, from the value `x`. */
  function Chain(key: seq<byte>, x: seq<byte>, d: seq<byte>): (r: seq<byte>)
    requires ValidKey(key) && |x| == BLOCK && Whole(d)
    ensures |r| == BLOCK
    decreases |d|
  {
    if d == [] then x else Chain(key, E(key, Xor(d[..BLOCK], x)), d[BLOCK..])
  }

  /** The blocks B_1, B_2, ... of section 2.2: the additional data behind its two-octet length, and the
      payload, each filled up with zeros. For less than 0xFF00 octets of additional data: longer ones have
      a longer length field. */
  function AuthBlocks(aad: seq<byte>, p: seq<byte>): (r: seq<byte>)
    ensures Whole(r)
  {
    WholeJoin(if aad == [] then [] else Pad(Big(|aad|, 2) + aad), Pad(p));
    (if aad == [] then [] else Pad(Big(|aad|, 2) + aad)) + Pad(p)
  }

  /** T, the CBC-MAC, before it is cut to M octets. */
  function T(key: seq<byte>, nonce: seq<byte>, aad: seq<byte>, p: seq<byte>, m: nat): (r: seq<byte>)
    requires ValidKey(key) && ValidNonce(nonce) && ValidTag(m)
    ensures |r| == BLOCK
  {
    Chain(key, E(key, B0(nonce, |aad|, |p|, m)), AuthBlocks(aad, p))
  }

  /** S_i, and the first `n` octets of S_i, S_{i+1}, ... */
  function S(key: seq<byte>, nonce: seq<byte>, i: nat): (r: seq<byte>)
    requires ValidKey(key) && ValidNonce(nonce)
    ensures |r| == BLOCK
  {
    E(key, CounterBlock(nonce, i))
  }

  function KeyStream(key: seq<byte>, nonce: seq<byte>, i: nat, n: nat): (r: seq<byte>)
    requires ValidKey(key) && ValidNonce(nonce)
    ensures |r| == n
    decreases n
  {
    if n <= BLOCK then S(key, nonce, i)[..n] else S(key, nonce, i) + KeyStream(key, nonce, i + 1, n - BLOCK)
  }

  /** Section 2.3: the payload under the key stream from S_1 on. */
  function Crypt(key: seq<byte>, nonce: seq<byte>, p: seq<byte>): (r: seq<byte>)
    requires ValidKey(key) && ValidNonce(nonce)
    ensures |r| == |p|
  {
    Xor(p, KeyStream(key, nonce, 1, |p|))
  }

  /** U, the encrypted tag. */
  function Tag(key: seq<byte>, nonce: seq<byte>, aad: seq<byte>, p: seq<byte>, m: nat): (r: seq<byte>)
    requires ValidKey(key) && ValidNonce(nonce) && ValidTag(m)
    ensures |r| == m
  {
    Xor(T(key, nonce, aad, p, m)[..m], S(key, nonce, 0))
  }

  lemma {:induction false} XorTwice(a: seq<byte>, b: seq<byte>)
    requires |a| <= |b|
    ensures Xor(Xor(a, b), b) == a
  {
    hide Add;
    if a != [] {
      XorTwice(a[1..], b[1..]);
      assert Xor(a, b)[1..] == Xor(a[1..], b[1..]);
      OctetTwice(a[0], b[0]);
    }
  }

  lemma {:induction false} OctetTwice(x: byte, y: byte)
    ensures Add(Add(x, y), y) == x
  {
  }

  lemma {:induction false} XorAt(a: seq<byte>, b: seq<byte>, k: nat)
    requires |a| <= |b| && k < |a|
    ensures Xor(a, b)[k] == Add(a[k], b[k])
  {
    hide Add;
    if k > 0 {
      XorAt(a[1..], b[1..], k - 1);
    }
  }

  lemma {:induction false} XorIs(a: seq<byte>, b: seq<byte>, r: seq<byte>)
    requires |a| == |r| <= |b| && forall k :: 0 <= k < |a| ==> r[k] == Add(a[k], b[k])
    ensures r == Xor(a, b)
  {
    hide Add;
    hide Xor;
    forall k | 0 <= k < |a| ensures r[k] == Xor(a, b)[k] {
      XorAt(a, b, k);
    }
  }

  /** Encrypting twice gives the payload back, whole blocks or not. */
  lemma {:induction false} CryptTwice(key: seq<byte>, nonce: seq<byte>, p: seq<byte>)
    requires ValidKey(key) && ValidNonce(nonce)
    ensures Crypt(key, nonce, Crypt(key, nonce, p)) == p
  {
    XorTwice(p, KeyStream(key, nonce, 1, |p|));
  }
}
