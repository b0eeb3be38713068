/** HMAC, section 2 of RFC 2104: over the streaming SHA-256 context, and in one go over MD5. */
module Hmac {
  import opened Octet
  import opened Bytes
  import opened Sequences
  import ShaContext
  import Sha256
  import Md5

  const IPAD: byte := 0x36
  const OPAD: byte := 0x5c

  /** Exclusive or of every octet with `c`. */
  function Masked(s: seq<byte>, c: byte): (r: seq<byte>)
    ensures |r| == |s|
  {
    if s == [] then [] else Masked(s[..|s| - 1], c) + [s[|s| - 1] ^ c]
  }

  /** The key, hashed if it is longer than a block, filled up with zeros to a block. */
  function BlockKey(hash: seq<byte> -> seq<byte>, size: nat, key: seq<byte>): seq<byte> {
    var k := if |key| > size then hash(key) else key;
    if |k| <= size then k + Zeros(size - |k|) else k
  }

  function Mac(hash: seq<byte> -> seq<byte>, size: nat, key: seq<byte>, text: seq<byte>): seq<byte> {
    var k := BlockKey(hash, size, key);
    hash(Masked(k, OPAD) + hash(Masked(k, IPAD) + text))
  }

  lemma {:induction false} MacLength(hash: seq<byte> -> seq<byte>, size: nat, key: seq<byte>, text: seq<byte>)
    requires forall m :: |hash(m)| == SHA_SIZE
    ensures |Mac(hash, size, key, text)| == SHA_SIZE
  {
  }

  lemma {:induction false} MaskedAt(s: seq<byte>, c: byte, i: nat)
    requires i < |s|
    ensures Masked(s, c)[i] == s[i] ^ c
  {
    if i < |s| - 1 {
      MaskedAt(s[..|s| - 1], c, i);
    }
  }

  /** Section 2 of RFC 2104: the inner hash takes the key under 0x36 and the text, the outer one the key under
      0x5c and the inner hash. The key is filled up with zeros to a block; one that is longer than a block
      stands for its hash. */
  lemma {:induction false} MacNests(hash: seq<byte> -> seq<byte>, size: nat, key: seq<byte>, text: seq<byte>, inner: seq<byte>, outer: seq<byte>)
    requires |inner| == |outer| == size
    requires var k := if |key| > size then hash(key) else key;
             |k| <= size &&
             forall i :: 0 <= i < size ==>
               inner[i] == (if i < |k| then k[i] else 0) ^ 0x36 && outer[i] == (if i < |k| then k[i] else 0) ^ 0x5c
    ensures Mac(hash, size, key, text) == hash(outer + hash(inner + text))
  {
    var k := BlockKey(hash, size, key);
    forall i | 0 <= i < size ensures Masked(k, IPAD)[i] == inner[i] && Masked(k, OPAD)[i] == outer[i] {
      BlockKeyAt(hash, size, key, i);
      MaskedAt(k, IPAD, i);
      MaskedAt(k, OPAD, i);
    }
    assert Masked(k, IPAD) == inner && Masked(k, OPAD) == outer;
  }

  lemma {:induction false} BlockKeyAt(hash: seq<byte> -> seq<byte>, size: nat, key: seq<byte>, i: nat)
    requires var k := if |key| > size then hash(key) else key; |k| <= size && i < size
    ensures var k := if |key| > size then hash(key) else key;
            |BlockKey(hash, size, key)| == size && BlockKey(hash, size, key)[i] == if i < |k| then k[i] else 0
  {
    var k := if |key| > size then hash(key) else key;
    if i >= |k| {
      ZerosAt(size - |k|, i - |k|);
    }
  }

  lemma {:induction false} ZeroMasked(c: byte)
    ensures 0 ^ c == c
  {
  }

  // ---- SHA-256 ----------------------------------------------------------------------------------------

  const SHA_BLOCK: nat := 64
  const SHA_SIZE: nat := 32

  function Sha(msg: seq<byte>): (r: seq<byte>)
    ensures |r| == SHA_SIZE
  {
    Sha256.Digest(msg)
  }

  /** The digest of the context is the digest of the whole message. */
  lemma {:induction false} DigestIsSha(msg: seq<byte>)
    ensures Sha256.PARAMS.Valid() && Sha256.PARAMS.Digest(msg) == Sha(msg)
  {
  }

  const MAX_BITS: nat := 0x1_0000_0000_0000_0000

  lemma {:induction false} MaxBits()
    ensures Sha256.PARAMS.Valid() && Sha256.PARAMS.MaxBits() == MAX_BITS && Sha256.PARAMS.size == SHA_BLOCK
  {
  }

  /** The two loops that fill a pad: the octets of the key, then the mask alone. */
  method FillPad(key: seq<byte>, c: byte, pad: array<byte>)
    requires |key| <= pad.Length
    modifies pad
    ensures pad[..] == Masked(key + Zeros(pad.Length - |key|), c)
  {
    var i := 0;
    while i < |key|
      invariant 0 <= i <= |key|
      invariant forall k :: 0 <= k < i ==> pad[k] == key[k] ^ c
    {
      pad[i] := key[i] ^ c;
      i := i + 1;
    }
    while i < pad.Length
      invariant |key| <= i <= pad.Length
      invariant forall k :: 0 <= k < |key| ==> pad[k] == key[k] ^ c
      invariant forall k :: |key| <= k < i ==> pad[k] == c
    {
      pad[i] := c;
      i := i + 1;
    }
    PadIs(key, c, pad[..]);
  }

  lemma {:induction false} PadIs(key: seq<byte>, c: byte, pad: seq<byte>)
    requires |key| <= |pad|
    requires forall k :: 0 <= k < |key| ==> pad[k] == key[k] ^ c
    requires forall k :: |key| <= k < |pad| ==> pad[k] == c
    ensures pad == Masked(key + Zeros(|pad| - |key|), c)
  {
    var full := key + Zeros(|pad| - |key|);
    forall k | 0 <= k < |pad| ensures pad[k] == Masked(full, c)[k] {
      MaskedAt(full, c, k);
      if k >= |key| {
        ZerosAt(|pad| - |key|, k - |key|);
        ZeroMasked(c);
      }
    }
  }

  class HmacContext {
    const shaContext: ShaContext.Context<Sha256.Value>
    const kOpad: array<byte>
    /** The key and the text taken in so far. */
    ghost var key: seq<byte>
    ghost var text: seq<byte>

    ghost function Key(): seq<byte>
      reads this
    {
      BlockKey(Sha, SHA_BLOCK, key)
    }

    ghost predicate Valid()
      reads this, shaContext, shaContext.messageBlock, kOpad
    {
      && shaContext.p == Sha256.PARAMS && shaContext.Valid()
      && kOpad.Length == SHA_BLOCK && (kOpad as object) != shaContext.messageBlock
    }

    /** The context holds the masked key and the text; the other mask is put by. */
    ghost predicate Running()
      reads this, shaContext, shaContext.messageBlock, kOpad
    {
      && Valid() && !shaContext.computed && shaContext.corrupted == 0
      && |Key()| == SHA_BLOCK && kOpad[..] == Masked(Key(), OPAD)
      && shaContext.msg == Masked(Key(), IPAD) + text
    }

    constructor ()
      ensures Valid() && fresh(shaContext) && fresh(shaContext.messageBlock) && fresh(kOpad)
    {
      MaxBits();
      shaContext := new ShaContext.Context(Sha256.PARAMS);
      kOpad := new byte[SHA_BLOCK](_ => 0);
      key, text := [], [];
    }

    /** The hash of a key that is longer than a block. */
    static method HashKey(key: seq<byte>) returns (r: nat, tempkey: seq<byte>)
      ensures 8 * |key| < MAX_BITS ==> r == ShaContext.SUCCESS && tempkey == Sha(key)
      ensures 8 * |key| >= MAX_BITS ==> r != ShaContext.SUCCESS
    {
      hide Sha256.PARAMS;
      hide ShaContext.Params.Digest;
      hide ShaContext.Params.MaxBits;
      hide ShaContext.Params.Valid;
      hide ShaContext.Context.Covered;
      hide ShaContext.Context.Bits;
      MaxBits();
      hide Sha;
      DigestIsSha(key);
      EmptyUnit(key);
      var tctx := new ShaContext.Context(Sha256.PARAMS);
      r := tctx.Input(key);
      if r == ShaContext.SUCCESS {
        r, tempkey := tctx.Result();
      }
    }

    /** Start over with a key. */
    method Reset(newKey: seq<byte>) returns (r: nat)
      requires Valid()
      modifies this, shaContext, shaContext.messageBlock, kOpad
      ensures Valid()
      ensures 8 * |newKey| < MAX_BITS ==> r == ShaContext.SUCCESS && Running() && key == newKey && text == []
      ensures 8 * |newKey| >= MAX_BITS ==> r != ShaContext.SUCCESS
    {
      hide Sha256.PARAMS;
      hide ShaContext.Params.Digest;
      hide ShaContext.Params.MaxBits;
      hide ShaContext.Params.Valid;
      hide ShaContext.Context.Covered;
      hide ShaContext.Context.Bits;
      hide Masked;
      hide Sha;
      MaxBits();
      var k := newKey;
      if |k| > SHA_BLOCK {
        r, k := HashKey(newKey);
        if r != ShaContext.SUCCESS {
          return r;
        }
      }
      var kIpad := new byte[SHA_BLOCK];
      FillPad(k, IPAD, kIpad);
      FillPad(k, OPAD, kOpad);
      key, text := newKey, [];
      shaContext.Reset();
      r := shaContext.Input(kIpad[..]);
      EmptyUnit(Masked(Key(), IPAD));
    }

    /** The next octets of the text. */
    method Input(data: seq<byte>) returns (r: nat)
      requires Running()
      modifies this, shaContext, shaContext.messageBlock
      ensures Valid() && r == ShaContext.SUCCESS && key == old(key)
      ensures 8 * (SHA_BLOCK + |old(text) + data|) < MAX_BITS ==> Running() && text == old(text) + data
      ensures 8 * (SHA_BLOCK + |old(text) + data|) >= MAX_BITS && data != [] ==> shaContext.corrupted != 0
    {
      MaxBits();
      hide Masked;
      hide BlockKey;
      ghost var k := Masked(Key(), IPAD);
      Assoc(k, text, data);
      EmptyUnit(text);
      r := shaContext.Input(data);
      text := text + data;
    }

    /** The authentication code of the text. */
    method Result() returns (r: nat, digest: seq<byte>)
      requires Running()
      modifies shaContext, shaContext.messageBlock
      ensures Valid() && r == ShaContext.SUCCESS && digest == Mac(Sha, SHA_BLOCK, key, text)
    {
      hide Sha256.PARAMS;
      hide ShaContext.Params.Digest;
      hide ShaContext.Params.MaxBits;
      hide ShaContext.Params.Valid;
      hide ShaContext.Context.Covered;
      hide ShaContext.Context.Bits;
      hide Masked;
      hide BlockKey;
      hide Sha;
      MaxBits();
      DigestIsSha(shaContext.msg);
      r, digest := shaContext.Result();
      shaContext.Reset();
      EmptyUnit(kOpad[..]);
      r := shaContext.Input(kOpad[..]);
      r := shaContext.Input(digest);
      DigestIsSha(shaContext.msg);
      r, digest := shaContext.Result();
    }
  }

  // ---- MD5 --------------------------------------------------------------------------------------------

  method Md5Of(a: seq<byte>, b: seq<byte>) returns (digest: seq<byte>)
    requires Md5.InputLength(|a|) && Md5.InputLength(|b|)
    ensures digest == Md5.Digest(a + b)
  {
    var context := new Md5.Context();
    context.Update(a);
    context.Update(b);
    EmptyUnit(a);
    digest := context.Final();
  }

  /** HMAC-MD5, over a key and a text whose lengths fit the counters. */
  method HmacMd5(text: seq<byte>, key: seq<byte>) returns (digest: seq<byte>)
    requires Md5.InputLength(|text|) && Md5.InputLength(|key|)
    ensures digest == Mac(Md5.Digest, 64, key, text)
  {
    hide Masked;
    hide Md5.Digest;
    var k := key;
    if |k| > 64 {
      EmptyUnit(key);
      k := Md5Of(key, []);
    }
    var kIpad := new byte[64];
    var kOpad := new byte[64];
    FillPad(k, IPAD, kIpad);
    FillPad(k, OPAD, kOpad);
    digest := Md5Of(kIpad[..], text);
    digest := Md5Of(kOpad[..], digest);
  }
}
