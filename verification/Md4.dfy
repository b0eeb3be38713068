/** The MD4 context: a count of bits in two words, the chaining value, and a block buffer. */
module Md4 {
  import opened Octet
  import opened Bytes
  import opened Sequences
  import opened BlockHash
  import opened MdBlocks
  import Md4Transform

  function Compress(q: Quad, block: seq<byte>): Quad {
    Md4Transform.Compress(q, block)
  }

  /** Section 3 of RFC 1320: the length is appended in bits, modulo 2^64, low word first. */
  function Digest(msg: seq<byte>): (r: seq<byte>)
    ensures |r| == 16
  {
    Octets(Hash(Compress, BLOCK, INITIAL, msg, 0x80, Little(8 * |msg|, 8)))
  }

  const PADDING: seq<byte> := [0x80] + Zeros(63)

  class Context {
    const buffer: array<byte>
    var count0: nat
    var count1: nat
    var state: Quad
    /** The octets taken in so far. */
    ghost var msg: seq<byte>

    ghost predicate Valid()
      reads this, buffer
    {
      && buffer.Length == BLOCK && count0 < W32 && count1 < W32
      && count0 + W32 * count1 == 8 * |msg| % W64
      && Covered(msg)
    }

    /** The state covers the whole blocks of `m`, and the buffer starts with the rest. */
    ghost predicate Covered(m: seq<byte>)
      reads this, buffer
    {
      && buffer.Length == BLOCK && state == Fold(Compress, BLOCK, INITIAL, m)
      && buffer[..|Rest(BLOCK, m)|] == Rest(BLOCK, m)
    }

    constructor ()
      ensures Valid() && msg == [] && fresh(buffer)
    {
      buffer := new byte[BLOCK](_ => 0);
      count0, count1, state, msg := 0, 0, INITIAL, [];
      new;
      assert buffer[..0] == [];
    }

    /** Add the number of bits of `n` octets, with a carry found by comparing. */
    method Count(n: nat)
      requires n < W32 && count0 < W32 && count1 < W32
      modifies this`count0, this`count1
      ensures count0 < W32 && count1 < W32
      ensures count0 + W32 * count1 == Wrap(old(count0) + W32 * old(count1) + 8 * n, W64)
    {
      CountAdds(count0, count1, n);
      var low := 8 * n % W32;
      count0 := (count0 + low) % W32;
      if count0 < low {
        count1 := (count1 + 1) % W32;
      }
      count1 := (count1 + n / 0x2000_0000) % W32;
    }

    method TransformBuffer()
      requires buffer.Length == BLOCK
      modifies this`state
      ensures state == Compress(old(state), buffer[..])
    {
      state := Md4Transform.Transform(state, buffer[..]);
    }

    /** The octets of the buffer that are in use: the count of bits says how many. */
    function Index(): (i: nat)
      reads this
      ensures i < BLOCK
    {
      count0 / 8 % 64
    }

    lemma {:induction false} IndexIs()
      requires Valid()
      ensures Index() == |Rest(BLOCK, msg)| == |msg| % BLOCK
    {
      RestLength(BLOCK, msg);
      BitsToOctets(count0, count1, |msg|);
    }

    /** Take in the next octets: fill the buffer, then whole blocks from where they lie, then keep the rest.
        Lengths and positions are 32 bits. The loop stays inside the input if and only if the octets that
        wait in the buffer and the input together are fewer than 2^32. */
    method Update(input: seq<byte>) returns (inside: bool)
      requires Valid() && |input| < W32
      modifies this, buffer
      ensures inside <==> |old(msg)| % BLOCK + |input| < W32
      ensures inside ==> Valid() && msg == old(msg) + input
    {
      hide Fold;
      hide Rest;
      hide Compress;
      IndexIs();
      BitsGrow(|msg|, |input|);
      var index := Index();
      Count(|input|);
      var partLen := 64 - index;
      var i := 0;
      inside := true;
      if |input| >= partLen {
        FillBuffer(index, input[..partLen]);
        inside, i := TransformBlocks(input, partLen);
        if !inside {
          return;
        }
        index := 0;
      } else {
        assert msg + input[..0] == msg;
      }
      Keep(index, input, i);
      msg := msg + input;
    }

    /** The first octets of the input complete the block in the buffer. */
    method FillBuffer(index: nat, part: seq<byte>)
      requires Covered(msg) && index == |Rest(BLOCK, msg)| && index + |part| == BLOCK
      modifies this`state, buffer
      ensures Covered(msg + part) && Rest(BLOCK, msg + part) == []
    {
      hide Fold;
      hide Rest;
      hide Compress;
      StoreIs(buffer[..], index, part);
      FoldCompletes(Compress, BLOCK, INITIAL, msg, part);
      ghost var tail := Rest(BLOCK, msg);
      Blit(buffer, index, part);
      assert buffer[..] == tail + part;
      TransformBuffer();
    }

    method TransformBlocks(input: seq<byte>, start: nat) returns (inside: bool, i: nat)
      requires 0 < start <= 64 && start <= |input| < W32
      requires Covered(msg + input[..start]) && Rest(BLOCK, msg + input[..start]) == []
      modifies this`state
      ensures inside <==> 64 - start + |input| < W32
      ensures inside ==> start <= i <= |input| < i + 64
      ensures inside ==> Covered(msg + input[..i]) && Rest(BLOCK, msg + input[..i]) == []
    {
      hide Fold;
      hide Rest;
      hide Md4Transform.Compress;
      i := start;
      while (i + 63) % W32 < |input|
        invariant start <= i <= |input| && (i - start) % 64 == 0
        invariant Covered(msg + input[..i]) && Rest(BLOCK, msg + input[..i]) == []
        decreases |input| - i
      {
        PositionWraps(i, start, |input|);
        if i + 64 > |input| {
          return false, i;
        }
        BlockAt(Compress, BLOCK, INITIAL, msg, input, i);
        state := Md4Transform.Transform(state, input[i..i + 64]);
        i := (i + 64) % W32;
      }
      PositionWraps(i, start, |input|);
      inside := true;
    }

    /** What is left of the input waits in the buffer. */
    method Keep(index: nat, input: seq<byte>, i: nat)
      requires i <= |input| && Covered(msg + input[..i])
      requires index == |Rest(BLOCK, msg + input[..i])| && index + |input| - i < BLOCK
      modifies buffer
      ensures Covered(msg + input)
    {
      hide Fold;
      hide Rest;
      hide Compress;
      Remainder(Compress, BLOCK, INITIAL, msg, input, i);
      StoreIs(buffer[..], index, input[i..]);
      ghost var before := buffer[..];
      Blit(buffer, index, input[i..]);
      assert buffer[..index + |input| - i] == before[..index] + input[i..];
    }

    /** Padding and length go through the same method as the message. The context is cleared. */
    method Final() returns (digest: seq<byte>)
      requires Valid()
      modifies this, buffer
      ensures digest == Digest(old(msg))
    {
      hide Fold;
      hide Rest;
      hide Compress;
      hide Hash;
      hide Little;
      hide Octets;
      ghost var m := msg;
      var bits := Little(count0, 4) + Little(count1, 4);
      LengthOctets(count0, count1, |msg|);
      IndexIs();
      var padLen := PadLength(Index());
      FinalMessage(m, bits);
      var _ := Update(PADDING[..padLen]);
      var _ := Update(bits);
      digest := Octets(state);
      count0, count1, state, msg := 0, 0, Quad(0, 0, 0, 0), [];
      Memset(buffer);
    }
  }

  /** The loop stays inside every piece, when `n` octets came before. */
  predicate StaysInside(n: nat, pieces: seq<seq<byte>>)
    decreases |pieces|
  {
    pieces == [] || (n % BLOCK + |pieces[0]| < W32 && StaysInside(n + |pieces[0]|, pieces[1..]))
  }

  /** However a message is cut into pieces, the digest is that of the whole message, if and only if no piece
      leads the loop out of its input. */
  method DigestPieces(pieces: seq<seq<byte>>) returns (digest: Option<seq<byte>>)
    requires forall i :: 0 <= i < |pieces| ==> |pieces[i]| < W32
    ensures digest.Some? <==> StaysInside(0, pieces)
    ensures digest.Some? ==> digest.value == Digest(Flatten(pieces))
  {
    hide Digest;
    hide Fold;
    hide Rest;
    hide Compress;
    var context := new Context();
    var i := 0;
    while i < |pieces|
      invariant 0 <= i <= |pieces| && fresh(context) && fresh(context.buffer)
      invariant context.Valid() && context.msg == Flatten(pieces[..i])
      invariant StaysInside(0, pieces) <==> StaysInside(|context.msg|, pieces[i..])
    {
      assert pieces[..i + 1][..i] == pieces[..i] && pieces[i..][1..] == pieces[i + 1..];
      var inside := context.Update(pieces[i]);
      if !inside {
        return None;
      }
      i := i + 1;
    }
    assert pieces[..i] == pieces;
    var octets := context.Final();
    digest := Some(octets);
  }

  /** Where the position of the loop wraps around: only when fewer than 64 octets before 2^32 are left of a
      full block, and the buffer was not empty. */
  lemma {:induction false} PositionWraps(i: nat, start: nat, n: nat)
    requires 0 < start <= 64 && start <= i <= n < W32 && (i - start) % 64 == 0
    ensures (i + 63) % W32 < n && i + 64 > n ==> 64 - start + n >= W32
    ensures i + 64 <= n ==> (i + 64) % W32 == i + 64 && (i + 64 - start) % 64 == 0
    ensures (i + 63) % W32 >= n ==> 64 - start + n < W32 && n < i + 64
  {
    var k := (i - start) / 64;
    assert i == start + 64 * k;
    Wrapped(i + 63);
  }

  lemma {:induction false} Wrapped(n: nat)
    requires n < 2 * W32
    ensures n % W32 == if n < W32 then n else n - W32
  {
  }

  /** Up to 56 octets modulo 64, at least one. */
  function PadLength(index: nat): (n: nat)
    requires index < BLOCK
    ensures 0 < n <= 64
  {
    if index < 56 then 56 - index else 120 - index
  }

  lemma {:induction false} FinalMessage(m: seq<byte>, bits: seq<byte>)
    requires |bits| == 8
    ensures Fold(Compress, BLOCK, INITIAL, (m + PADDING[..PadLength(|Rest(BLOCK, m)|)]) + bits) ==
            Hash(Compress, BLOCK, INITIAL, m, 0x80, bits)
  {
    hide Fold;
    hide Rest;
    hide Compress;
    var padLen := PadLength(|Rest(BLOCK, m)|);
    ZerosPrefix(padLen - 1);
    Assoc(m, PADDING[..padLen], bits);
  }

  lemma {:induction false} CountAdds(count0: nat, count1: nat, n: nat)
    requires n < W32 && count0 < W32 && count1 < W32
    ensures var low := 8 * n % W32;
            var c0 := (count0 + low) % W32;
            var c1 := ((if c0 < low then (count1 + 1) % W32 else count1) + n / 0x2000_0000) % W32;
            c0 + W32 * c1 == Wrap(count0 + W32 * count1 + 8 * n, W64)
  {
    var low, high := 8 * n % W32, n / 0x2000_0000;
    BitWords(n);
    SmallMod(count0 + low, W32);
    SmallMod(count1 + 1, W32);
    var c0 := Wrap(count0 + low, W32);
    var carried := if c0 < low then Wrap(count1 + 1, W32) else count1;
    SmallMod(carried + high, W32);
    CarriesAdd(count0, count1, low, high);
  }

  lemma {:induction false} BitWords(n: nat)
    requires n < W32
    ensures 8 * n == 8 * n % W32 + W32 * (n / 0x2000_0000) && n / 0x2000_0000 < 8
  {
  }

  function Wrap(x: nat, m: nat): nat {
    if x < m then x else x - m
  }

  lemma {:induction false} CarriesAdd(count0: nat, count1: nat, low: nat, high: nat)
    requires count0 < W32 && count1 < W32 && low < W32 && high < 8
    ensures var c0 := Wrap(count0 + low, W32);
            var carried := if c0 < low then Wrap(count1 + 1, W32) else count1;
            c0 + W32 * Wrap(carried + high, W32) == Wrap(count0 + W32 * count1 + (low + W32 * high), W64)
  {
  }

  lemma {:induction false} BitsToOctets(count0: nat, count1: nat, n: nat)
    requires count0 < W32 && count1 < W32 && count0 + W32 * count1 == 8 * n % W64
    ensures count0 / 8 % 64 == n % 64
  {
    var q, u, v := 8 * n / W64, count0 / 512, count0 % 512;
    var z := q * (W64 / 512) + u + (W32 / 512) * count1;
    Octaves(n, count0, q, count1);
    OctetsLeft(n, count0, u, v, z);
  }

  lemma {:induction false} Octaves(n: nat, count0: nat, q: nat, count1: nat)
    requires q == 8 * n / W64 && count0 + W32 * count1 == 8 * n % W64
    ensures 8 * n == 512 * (q * (W64 / 512) + count0 / 512 + (W32 / 512) * count1) + count0 % 512
  {
    Splits(8 * n, W64);
    Splits(count0, 512);
  }

  lemma {:induction false} OctetsLeft(n: nat, count0: nat, u: nat, v: nat, z: nat)
    requires 8 * n == 512 * z + v && count0 == 512 * u + v && v < 512
    ensures count0 / 8 % 64 == n % 64
  {
    var w := n - 64 * z;
    assert v == 8 * w;
    ModIs(n, 64, z, w);
    assert count0 / 8 == 64 * u + w;
    ModIs(count0 / 8, 64, u, w);
  }

  lemma {:induction false} BitsGrow(n: nat, k: nat)
    requires k < W32
    ensures Wrap(8 * n % W64 + 8 * k, W64) == 8 * (n + k) % W64
  {
    var q, r := 8 * n / W64, 8 * n % W64;
    assert 8 * n == q * W64 + r;
    ModIs(8 * (n + k), W64, if r + 8 * k < W64 then q else q + 1, Wrap(r + 8 * k, W64));
  }

  lemma {:induction false} LengthOctets(count0: nat, count1: nat, n: nat)
    requires count0 < W32 && count1 < W32 && count0 + W32 * count1 == 8 * n % W64
    ensures Little(count0, 4) + Little(count1, 4) == Little(8 * n, 8)
  {
    hide Little;
    hide Pow256;
    LittleJoin(count0, count1);
    LittleDrops(8 * n, 8);
    PowValues();
  }

  lemma {:induction false} ZerosPrefix(k: nat)
    requires k <= 63
    ensures PADDING[..k + 1] == [0x80] + Zeros(k)
  {
    ZerosCut(63, k);
  }

  lemma {:induction false} ZerosCut(n: nat, k: nat)
    requires k <= n
    ensures Zeros(n)[..k] == Zeros(k)
  {
    if k > 0 {
      ZerosCut(n - 1, k - 1);
    }
  }
}
