/** CCM as the library runs it: the payload is encrypted where it lies, and two block buffers are
    reused for the authentication chain. */
module CcmInPlace {
  import opened Octet
  import opened Bytes
  import opened Sequences
  import opened AesReference
  import opened CcmSpec

  /** Lengths and counters are cut to 32 bits before they are stored. */
  const WORD: nat := 0x1_0000_0000

  /** The place of a block in the payload is an `int`. */
  const INT_MAX: nat := 0x7FFF_FFFF

  // ---- block 0 and the counter blocks -----------------------------------------------------------------

  lemma {:induction false} BigTail(n: nat, size: nat, k: nat)
    requires k <= size
    ensures Big(n, size)[k..] == Big(n, size - k)
    decreases size
  {
    if k < size {
      BigTail(n / 256, size - 1, k);
      DropJoined(Big(n / 256, size - 1), [(n % 256) as byte], k);
    }
  }

  lemma {:induction false} BigZero(size: nat)
    ensures Big(0, size) == Zeros(size)
  {
    if size > 0 {
      BigZero(size - 1);
      ZerosPush(size - 1);
      assert 0 / 256 == 0 && (0 % 256) as byte == 0;
    }
  }

  lemma {:induction false} BigWide(n: nat, size: nat, more: nat)
    requires FitsIn(n, size)
    ensures Big(n, size + more) == Zeros(more) + Big(n, size)
    decreases size
  {
    if size == 0 {
      BigZero(more);
      EmptyUnit(Zeros(more));
    } else {
      BigWide(n / 256, size - 1, more);
      Assoc(Zeros(more), Big(n / 256, size - 1), [(n % 256) as byte]);
    }
  }

  /** Zeros and a 32-bit number read as the last octets of a longer number. */
  lemma {:induction false} FieldIs(n: nat, l: nat)
    requires n < WORD && l <= 8
    ensures (Zeros(4) + Big(n, 4))[8 - l..] == Big(n, l)
  {
    FitsInBounds(n);
    BigWide(n, 4, 4);
    BigTail(n, 8, 8 - l);
  }

  function LowFlag(nlen: nat): byte
    requires 7 <= nlen <= 13
  {
    ((15 - nlen - 1) as byte) & 0x07
  }

  function TagFlag(mlen: nat): byte
    requires ValidTag(mlen)
  {
    ((((mlen - 2) / 2) as byte) << 3) & 0x38
  }

  /** The bits the C code sets are the sum of section 2.2. */
  lemma {:induction false} LowFlagIs(nlen: nat)
    requires 7 <= nlen <= 13
    ensures LowFlag(nlen) == (15 - nlen - 1) as byte && LowFlag(nlen) <= 7
  {
    if nlen == 7 {} else if nlen == 8 {} else if nlen == 9 {} else if nlen == 10 {} else if nlen == 11 {} else if nlen == 12 {} else {}
  }

  lemma {:induction false} TagFlagIs(mlen: nat)
    requires ValidTag(mlen)
    ensures TagFlag(mlen) == 8 * (((mlen - 2) / 2) as byte) && TagFlag(mlen) & 0x38 == TagFlag(mlen)
  {
    if mlen == 4 {} else if mlen == 6 {} else if mlen == 8 {} else if mlen == 10 {} else if mlen == 12 {} else if mlen == 14 {} else {}
  }

  lemma {:induction false} BitsAdd(adata: bool, t: byte, l: byte)
    requires t & 0x38 == t && l <= 7
    ensures ((if adata then 0x40 else 0) | t) | l == (if adata then 0x40 else 0) + t + l
  {
  }

  lemma {:induction false} FlagsAre(adata: bool, mlen: nat, nlen: nat)
    requires ValidTag(mlen) && 7 <= nlen <= 13
    ensures ((if adata then 0x40 else 0) | TagFlag(mlen)) | LowFlag(nlen) == Flags(adata, mlen, 15 - nlen)
  {
    hide TagFlag;
    hide LowFlag;
    LowFlagIs(nlen);
    TagFlagIs(mlen);
    BitsAdd(adata, TagFlag(mlen), LowFlag(nlen));
  }

  /** Flag octet, number in the last four octets, then the nonce over whatever it covers. */
  method Compose(buf: array<byte>, flag: byte, n: nat, nonce: seq<byte>)
    requires buf.Length == BLOCK && ValidNonce(nonce) && n < WORD
    modifies buf
    ensures buf[..] == [flag] + nonce + Big(n, LengthSize(nonce))
  {
    Memset(buf);
    forall k | 0 <= k < BLOCK ensures Zeros(BLOCK)[k] == 0 {
      ZerosAt(BLOCK, k);
    }
    buf[0] := flag;
    ghost var s0 := buf[..];
    Blit(buf, 12, Big(n, 4));
    ghost var s1 := buf[..];
    Blit(buf, 1, nonce);
    Composed(flag, n, nonce, s0, s1);
  }

  lemma {:induction false} Composed(flag: byte, n: nat, nonce: seq<byte>, s0: seq<byte>, s1: seq<byte>)
    requires ValidNonce(nonce) && n < WORD
    requires |s0| == BLOCK && s0[0] == flag && (forall k :: 1 <= k < BLOCK ==> s0[k] == 0)
    requires s1 == Store(s0, 12, Big(n, 4))
    ensures Store(s1, 1, nonce) == [flag] + nonce + Big(n, LengthSize(nonce))
  {
    hide Store;
    hide Big;
    StoreIs(s0, 12, Big(n, 4));
    StoreIs(s1, 1, nonce);
    forall k | 0 <= k < 4 ensures Zeros(4)[k] == 0 {
      ZerosAt(4, k);
    }
    assert s1[8..] == Zeros(4) + Big(n, 4);
    FieldIs(n, LengthSize(nonce));
    assert s1[1 + |nonce|..] == s1[8..][|nonce| - 7..];
    assert s1[..1] == [flag];
  }

  method GenerateB0(nonce: seq<byte>, alen: nat, plen: nat, mlen: nat, buf: array<byte>)
    requires buf.Length == BLOCK && ValidNonce(nonce) && ValidTag(mlen)
    modifies buf
    ensures buf[..] == B0(nonce, alen, plen % WORD, mlen)
  {
    FlagsAre(alen > 0, mlen, |nonce|);
    var flag: byte := 0;
    if alen > 0 {
      flag := flag | 0x40;
    }
    flag := flag | TagFlag(mlen);
    flag := flag | LowFlag(|nonce|);
    Compose(buf, flag, plen % WORD, nonce);
  }

  method GenerateS(key: seq<byte>, nonce: seq<byte>, i: nat, s: array<byte>)
    requires s.Length == BLOCK && ValidKey(key) && ValidNonce(nonce)
    modifies s
    ensures s[..] == E(key, CounterBlock(nonce, i % WORD))
  {
    LowFlagIs(|nonce|);
    Compose(s, LowFlag(|nonce|), i % WORD, nonce);
    Encrypt(s, key, s);
  }

  // ---- the authentication chain -----------------------------------------------------------------------

  method BxorY(b: array<byte>, at: nat, y: array<byte>, num: nat)
    requires at + num <= b.Length && num <= y.Length && b != y
    modifies b
    ensures forall k :: 0 <= k < b.Length ==> b[k] == if at <= k < at + num then Add(old(b[k]), y[k - at]) else old(b[k])
  {
    hide Add;
    var i := 0;
    while i < num
      invariant 0 <= i <= num
      invariant forall k :: 0 <= k < b.Length ==> b[k] == if at <= k < at + i then Add(old(b[k]), y[k - at]) else old(b[k])
    {
      b[at + i] := Add(b[at + i], y[i]);
      i := i + 1;
    }
  }

  /** The whole of `b`, under the first octets of `y`. */
  method BxorAll(b: array<byte>, y: array<byte>)
    requires b.Length <= y.Length && b != y
    modifies b
    ensures b[..] == Xor(old(b[..]), y[..])
  {
    hide Add;
    hide Xor;
    ghost var was := b[..];
    BxorY(b, 0, y, b.Length);
    XorIs(was, y[..], b[..]);
  }

  function Filled(chunk: seq<byte>): (r: seq<byte>)
    requires |chunk| <= BLOCK
    ensures |r| == BLOCK
  {
    chunk + Zeros(BLOCK - |chunk|)
  }

  lemma {:induction false} FilledIs(chunk: seq<byte>)
    requires |chunk| <= BLOCK
    ensures Store(Zeros(BLOCK), 0, chunk) == Filled(chunk)
  {
    hide Store;
    StoreIs(Zeros(BLOCK), 0, chunk);
    ZerosTail(BLOCK, |chunk|);
    EmptyUnit(chunk);
  }

  /** `b` holds a block: one more link of the chain, left in `y`. */
  method Link(key: seq<byte>, b: array<byte>, y: array<byte>)
    requires ValidKey(key) && b.Length == y.Length == BLOCK && b != y
    modifies b, y
    ensures y[..] == E(key, Xor(old(b[..]), old(y[..])))
  {
    hide E;
    hide Xor;
    BxorAll(b, y);
    Encrypt(b, key, y);
  }

  method Absorb(key: seq<byte>, chunk: seq<byte>, b: array<byte>, y: array<byte>)
    requires ValidKey(key) && b.Length == y.Length == BLOCK && b != y && |chunk| <= BLOCK
    modifies b, y
    ensures y[..] == E(key, Xor(Filled(chunk), old(y[..])))
  {
    hide E;
    hide Store;
    hide Filled;
    hide Zeros;
    hide Xor;
    FilledIs(chunk);
    Memset(b);
    Blit(b, 0, chunk);
    Link(key, b, y);
  }

  lemma {:induction false} ChainOne(key: seq<byte>, x: seq<byte>, b: seq<byte>)
    requires ValidKey(key) && |x| == |b| == BLOCK
    ensures Whole(b) && Chain(key, x, b) == E(key, Xor(b, x))
  {
    hide E;
    WholeOne(b);
    assert b[..BLOCK] == b && b[BLOCK..] == [];
  }

  lemma {:induction false} ChainMore(key: seq<byte>, x: seq<byte>, b: seq<byte>, d: seq<byte>)
    requires ValidKey(key) && |x| == |b| == BLOCK && Whole(d)
    ensures Whole(b + d) && Chain(key, x, b + d) == Chain(key, E(key, Xor(b, x)), d)
  {
    hide E;
    WholeMore(b, d);
    assert (b + d)[..BLOCK] == b && (b + d)[BLOCK..] == d;
  }

  lemma {:induction false} ChainJoin(key: seq<byte>, x: seq<byte>, a: seq<byte>, b: seq<byte>)
    requires ValidKey(key) && |x| == BLOCK && Whole(a) && Whole(b)
    ensures Whole(a + b) && Chain(key, x, a + b) == Chain(key, Chain(key, x, a), b)
    decreases |a|
  {
    hide E;
    if a == [] {
      EmptyUnit(b);
    } else {
      var head, rest := a[..BLOCK], a[BLOCK..];
      assert a == head + rest;
      Assoc(head, rest, b);
      ChainJoin(key, E(key, Xor(head, x)), rest, b);
      ChainMore(key, x, head, rest + b);
      ChainMore(key, x, head, rest);
    }
  }

  /** One chunk of at most a block, and the rest. */
  lemma {:induction false} PadStep(key: seq<byte>, x: seq<byte>, d: seq<byte>, l: nat)
    requires ValidKey(key) && |x| == BLOCK && d != [] && l == (if |d| > BLOCK then BLOCK else |d|)
    ensures Chain(key, x, Pad(d)) == Chain(key, E(key, Xor(Filled(d[..l]), x)), Pad(d[l..]))
  {
    hide E;
    if |d| > BLOCK {
      assert Filled(d[..l]) == d[..l];
      ChainMore(key, x, d[..BLOCK], Pad(d[BLOCK..]));
    } else {
      assert d[..l] == d;
      ChainOne(key, x, Filled(d));
    }
  }

  /** The loop over additional data or payload. */
  method AbsorbAll(key: seq<byte>, d: seq<byte>, b: array<byte>, y: array<byte>)
    requires ValidKey(key) && b.Length == y.Length == BLOCK && b != y
    modifies b, y
    ensures y[..] == Chain(key, old(y[..]), Pad(d))
  {
    hide E;
    hide Chain;
    hide Pad;
    ghost var goal := Chain(key, y[..], Pad(d));
    var rest := d;
    while rest != []
      invariant Chain(key, y[..], Pad(rest)) == goal
      decreases |rest|
    {
      var l := if |rest| > BLOCK then BLOCK else |rest|;
      PadStep(key, y[..], rest, l);
      Absorb(key, rest[..l], b, y);
      rest := rest[l..];
    }
    PadEmpty(key, y[..]);
  }

  lemma {:induction false} PadEmpty(key: seq<byte>, x: seq<byte>)
    requires ValidKey(key) && |x| == BLOCK
    ensures Pad([]) == [] && Chain(key, x, []) == x
  {
  }

  /** The first block of additional data: its length in two octets and up to fourteen octets of it. */
  method AbsorbAad(key: seq<byte>, aad: seq<byte>, b: array<byte>, y: array<byte>)
    requires ValidKey(key) && aad != [] && b.Length == y.Length == BLOCK && b != y
    modifies b, y
    ensures y[..] == Chain(key, old(y[..]), Pad(Big(|aad|, 2) + aad))
  {
    hide E;
    hide Chain;
    hide Pad;
    hide Big;
    hide Filled;
    hide Xor;
    var l := if |aad| > 14 then 14 else |aad|;
    ghost var d := Big(|aad|, 2) + aad;
    FillAad(aad, l, b);
    PadStep(key, y[..], d, 2 + l);
    assert d[2 + l..] == aad[l..];
    Link(key, b, y);
    AbsorbAll(key, aad[l..], b, y);
  }

  method FillAad(aad: seq<byte>, l: nat, b: array<byte>)
    requires b.Length == BLOCK && l <= 14 && l <= |aad|
    modifies b
    ensures b[..] == Filled((Big(|aad|, 2) + aad)[..2 + l])
  {
    hide Big;
    hide Store;
    hide Filled;
    hide Zeros;
    Memset(b);
    StoreJoin(Zeros(BLOCK), 0, Big(|aad|, 2), aad[..l]);
    FirstOctets(Big(|aad|, 2), aad, l);
    FilledIs(Big(|aad|, 2) + aad[..l]);
    Blit(b, 0, Big(|aad|, 2));
    Blit(b, 2, aad[..l]);
  }

  lemma {:induction false} FirstOctets(a: seq<byte>, b: seq<byte>, l: nat)
    requires l <= |b|
    ensures (a + b)[..|a| + l] == a + b[..l]
  {
  }

  method GenerateT(key: seq<byte>, nonce: seq<byte>, aad: seq<byte>, p: seq<byte>, m: array<byte>)
    requires ValidKey(key) && ValidNonce(nonce) && ValidTag(m.Length)
    modifies m
    ensures |p| < WORD ==> m[..] == T(key, nonce, aad, p, m.Length)[..m.Length]
  {
    hide E;
    hide Chain;
    hide Pad;
    var b := new byte[BLOCK];
    var y := new byte[BLOCK];
    GenerateB0(nonce, |aad|, |p|, m.Length, b);
    Encrypt(b, key, y);
    ghost var x := y[..];
    if aad != [] {
      AbsorbAad(key, aad, b, y);
    } else {
      PadEmpty(key, x);
    }
    AbsorbAll(key, p, b, y);
    ChainJoin(key, x, if aad == [] then [] else Pad(Big(|aad|, 2) + aad), Pad(p));
    StoreIs(m[..], 0, y[..m.Length]);
    Blit(m, 0, y[..m.Length]);
    assert m[..] == y[..m.Length];
  }

  // ---- the payload ------------------------------------------------------------------------------------

  lemma {:induction false} KeyStreamAt(key: seq<byte>, nonce: seq<byte>, i: nat, n: nat, j: nat, t: nat)
    requires ValidKey(key) && ValidNonce(nonce) && t < BLOCK && BLOCK * j + t < n
    ensures KeyStream(key, nonce, i, n)[BLOCK * j + t] == S(key, nonce, i + j)[t]
    decreases j
  {
    hide S;
    if j > 0 {
      KeyStreamAt(key, nonce, i + 1, n - BLOCK, j - 1, t);
    }
  }

  /** Block `j` of the key stream. */
  lemma {:induction false} KeyStreamBlock(key: seq<byte>, nonce: seq<byte>, n: nat, j: nat)
    requires ValidKey(key) && ValidNonce(nonce)
    ensures forall k :: BLOCK * j <= k < BLOCK * (j + 1) && k < n ==>
              KeyStream(key, nonce, 1, n)[k] == S(key, nonce, j + 1)[k - BLOCK * j]
  {
    hide S;
    hide KeyStream;
    forall k | BLOCK * j <= k < BLOCK * (j + 1) && k < n
      ensures KeyStream(key, nonce, 1, n)[k] == S(key, nonce, j + 1)[k - BLOCK * j]
    {
      KeyStreamAt(key, nonce, 1, n, j, k - BLOCK * j);
    }
  }

  /** The payload under the key stream, block by block. The place of a block overflows if and only if a block
      starts past INT_MAX. */
  method CryptInPlace(key: seq<byte>, nonce: seq<byte>, p: array<byte>) returns (inRange: bool)
    requires ValidKey(key) && ValidNonce(nonce)
    modifies p
    ensures inRange <==> p.Length <= INT_MAX + 1
    ensures inRange ==> p[..] == Crypt(key, nonce, old(p[..]))
  {
    hide S;
    hide E;
    hide KeyStream;
    hide CounterBlock;
    hide Add;
    hide Xor;
    ghost var n := p.Length;
    ghost var was, ks := p[..], KeyStream(key, nonce, 1, n);
    var s := new byte[BLOCK];
    var j, plen := 0, p.Length;
    while plen > 0
      invariant 0 <= plen <= n && n - plen <= INT_MAX + 1 && (plen == n - BLOCK * j || (plen == 0 && BLOCK * j >= n)) && j <= n
      invariant forall k :: 0 <= k < n ==> p[k] == if k < n - plen then Add(was[k], ks[k]) else was[k]
    {
      if j * BLOCK > INT_MAX {
        return false;
      }
      var l := if plen > BLOCK then BLOCK else plen;
      KeyStreamBlock(key, nonce, n, j);
      SIs(key, nonce, j + 1);
      GenerateS(key, nonce, j + 1, s);
      BxorY(p, j * BLOCK, s, l);
      j := j + 1;
      plen := plen - l;
    }
    XorIs(was, ks, p[..]);
    inRange := true;
  }

  lemma {:induction false} SIs(key: seq<byte>, nonce: seq<byte>, i: nat)
    requires ValidKey(key) && ValidNonce(nonce) && i < WORD
    ensures S(key, nonce, i) == E(key, CounterBlock(nonce, i % WORD))
  {
    hide E;
    hide CounterBlock;
  }

  /** Encrypt the payload in place and write its tag. */
  method CcmEncrypt(key: seq<byte>, nonce: seq<byte>, aad: seq<byte>, p: array<byte>, m: array<byte>) returns (inRange: bool)
    requires ValidKey(key) && ValidNonce(nonce) && ValidTag(m.Length) && p != m
    modifies p, m
    ensures inRange <==> p.Length <= INT_MAX + 1
    ensures inRange ==> p[..] == Crypt(key, nonce, old(p[..]))
    ensures inRange ==> m[..] == Tag(key, nonce, aad, old(p[..]), m.Length)
  {
    hide T;
    hide S;
    hide E;
    hide CounterBlock;
    hide Xor;
    hide Crypt;
    var s := new byte[BLOCK];
    GenerateT(key, nonce, aad, p[..], m);
    SIs(key, nonce, 0);
    GenerateS(key, nonce, 0, s);
    BxorAll(m, s);
    inRange := CryptInPlace(key, nonce, p);
  }

  /** Zero for equal octets, else the difference at the first place where they differ. */
  method Memcmp(a: seq<byte>, b: seq<byte>) returns (r: int)
    requires |a| == |b|
    ensures r == 0 <==> a == b
  {
    var i := 0;
    while i < |a|
      invariant 0 <= i <= |a| && a[..i] == b[..i]
    {
      if a[i] != b[i] {
        return if a[i] < b[i] then -1 else 1;
      }
      i := i + 1;
    }
    assert a == a[..i] && b == b[..i];
    return 0;
  }

  /** Decrypt the payload in place; the result is zero exactly for the tag of what was decrypted. */
  method CcmDecrypt(key: seq<byte>, nonce: seq<byte>, aad: seq<byte>, p: array<byte>, m: seq<byte>) returns (r: Option<int>)
    requires ValidKey(key) && ValidNonce(nonce) && ValidTag(|m|)
    modifies p
    ensures r.Some? <==> p.Length <= INT_MAX + 1
    ensures r.Some? ==> p[..] == Crypt(key, nonce, old(p[..]))
    ensures r.Some? ==> (r.value == 0 <==> m == Tag(key, nonce, aad, p[..], |m|))
  {
    hide T;
    hide S;
    hide E;
    hide CounterBlock;
    hide Xor;
    hide Crypt;
    var s := new byte[BLOCK];
    var tmp := new byte[|m|];
    var inRange := CryptInPlace(key, nonce, p);
    if !inRange {
      return None;
    }
    GenerateT(key, nonce, aad, p[..], tmp);
    SIs(key, nonce, 0);
    GenerateS(key, nonce, 0, s);
    BxorAll(tmp, s);
    var order := Memcmp(tmp[..], m);
    r := Some(order);
  }

  /** What was encrypted in place is decrypted in place, and its tag is accepted, as long as no block starts
      past INT_MAX. */
  method EncryptDecrypt(key: seq<byte>, nonce: seq<byte>, aad: seq<byte>, p: array<byte>, m: array<byte>) returns (r: Option<int>)
    requires ValidKey(key) && ValidNonce(nonce) && ValidTag(m.Length) && p != m
    modifies p, m
    ensures if p.Length <= INT_MAX + 1 then p[..] == old(p[..]) && r == Some(0) else r == None
  {
    hide Crypt;
    hide Tag;
    CryptTwice(key, nonce, p[..]);
    var inRange := CcmEncrypt(key, nonce, aad, p, m);
    if !inRange {
      return None;
    }
    r := CcmDecrypt(key, nonce, aad, p, m[..]);
  }
}
