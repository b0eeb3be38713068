/** The MD5 context: a count of octets in two words, the chaining value, and a block buffer. */
module Md5 {
  import opened Octet
  import opened Bytes
  import opened Sequences
  import opened BlockHash
  import opened MdBlocks
  import Md5Transform

  function Compress(q: Quad, block: seq<byte>): Quad {
    Md5Transform.Compress(q, block)
  }

  /** Section 3 of RFC 1321: the length is appended in bits, modulo 2^64, low word first. */
  function Digest(msg: seq<byte>): (r: seq<byte>)
    ensures |r| == 16
  {
    Octets(Hash(Compress, BLOCK, INITIAL, msg, 0x80, Little(8 * |msg|, 8)))
  }

  /** Input lengths are 32 bits. */
  predicate InputLength(n: nat) {
    n < W32
  }

  class Context {
    const buffer: array<byte>
    var bytes0: nat
    var bytes1: nat
    var state: Quad
    /** The octets taken in so far. */
    ghost var msg: seq<byte>

    ghost predicate Valid()
      reads this, buffer
    {
      && buffer.Length == BLOCK && bytes0 < W32 && bytes1 < W32
      && bytes0 + W32 * bytes1 == |msg| % W64
      && Covered(msg)
    }

    /** The state covers the whole blocks of `m`, and the buffer starts with the rest. */
    ghost predicate Covered(m: seq<byte>)
      reads this, buffer
    {
      && buffer.Length == BLOCK && state == Fold(Compress, BLOCK, INITIAL, m)
      && buffer[..|Rest(BLOCK, m)|] == Rest(BLOCK, m)
    }

    constructor ()
      ensures Valid() && msg == [] && fresh(buffer)
    {
      buffer := new byte[BLOCK](_ => 0);
      bytes0, bytes1, state, msg := 0, 0, INITIAL, [];
      new;
      assert buffer[..0] == [];
    }

    /** Add `n` octets, with a carry found by comparing. */
    method Count(n: nat)
      requires InputLength(n) && bytes0 < W32 && bytes1 < W32
      modifies this`bytes0, this`bytes1
      ensures bytes0 < W32 && bytes1 < W32
      ensures bytes0 + W32 * bytes1 == (old(bytes0) + W32 * old(bytes1) + n) % W64
    {
      CountAdds(bytes0, bytes1, n);
      var t := bytes0;
      bytes0 := (t + n) % W32;
      if bytes0 < t {
        bytes1 := (bytes1 + 1) % W32;
      }
    }

    /** The octets of the buffer that are in use. */
    function Index(): (i: nat)
      reads this
      ensures i < BLOCK
    {
      bytes0 % 64
    }

    lemma {:induction false} IndexIs()
      requires Valid()
      ensures Index() == |Rest(BLOCK, msg)|
    {
      RestLength(BLOCK, msg);
      LowBits(bytes0, bytes1, |msg|);
    }

    /** Take in the next octets: every block is copied into the buffer and processed there. */
    method Update(input: seq<byte>)
      requires Valid() && InputLength(|input|)
      modifies this, buffer
      ensures Valid() && msg == old(msg) + input
    {
      hide Fold;
      hide Rest;
      hide Compress;
      IndexIs();
      CountGrows(|msg|, |input|);
      var index := Index();
      Count(|input|);
      var t := 64 - index;
      if t > |input| {
        assert msg + input[..0] == msg;
        Keep(index, input, 0);
      } else {
        FillBuffer(index, input[..t]);
        var i := TransformBlocks(input, t);
        Keep(0, input, i);
      }
      msg := msg + input;
    }

    method TransformBuffer()
      requires buffer.Length == BLOCK
      modifies this`state
      ensures state == Compress(old(state), buffer[..])
    {
      state := Md5Transform.Transform(state, buffer[..]);
    }

    /** The next octets complete the block in the buffer. */
    method FillBuffer(index: nat, part: seq<byte>)
      requires Covered(msg) && index == |Rest(BLOCK, msg)| && index + |part| == BLOCK
      modifies this`state, buffer
      ensures Covered(msg + part) && Rest(BLOCK, msg + part) == []
    {
      hide Fold;
      hide Rest;
      hide Compress;
      StoreIs(buffer[..], index, part);
      FoldCompletes(Compress, BLOCK, INITIAL, msg, part);
      ghost var tail := Rest(BLOCK, msg);
      Blit(buffer, index, part);
      assert buffer[..] == tail + part;
      TransformBuffer();
    }

    method TransformBlocks(input: seq<byte>, start: nat) returns (i: nat)
      requires start <= |input| && Covered(msg + input[..start]) && Rest(BLOCK, msg + input[..start]) == []
      modifies this`state, buffer
      ensures start <= i <= |input| < i + 64
      ensures Covered(msg + input[..i]) && Rest(BLOCK, msg + input[..i]) == []
    {
      hide Fold;
      hide Rest;
      hide Compress;
      i := start;
      var len := |input| - start;
      while len >= 64
        invariant start <= i <= |input| && len == |input| - i
        invariant Covered(msg + input[..i]) && Rest(BLOCK, msg + input[..i]) == []
      {
        BlockAt(Compress, BLOCK, INITIAL, msg, input, i);
        StoreIs(buffer[..], 0, input[i..i + 64]);
        Blit(buffer, 0, input[i..i + 64]);
        assert buffer[..] == input[i..i + 64];
        TransformBuffer();
        i, len := i + 64, len - 64;
      }
    }

    /** What is left of the input waits in the buffer. */
    method Keep(index: nat, input: seq<byte>, i: nat)
      requires i <= |input| && Covered(msg + input[..i])
      requires index == |Rest(BLOCK, msg + input[..i])| && index + |input| - i < BLOCK
      modifies buffer
      ensures Covered(msg + input)
    {
      hide Fold;
      hide Rest;
      hide Compress;
      Remainder(Compress, BLOCK, INITIAL, msg, input, i);
      StoreIs(buffer[..], index, input[i..]);
      ghost var before := buffer[..];
      Blit(buffer, index, input[i..]);
      assert buffer[..index + |input| - i] == before[..index] + input[i..];
    }

    /** The mark, zeros, and the length in bits in the last two words of a block: of this block, or of
        another one if there is no room. The context is cleared. */
    method Final() returns (digest: seq<byte>)
      requires Valid()
      modifies this, buffer
      ensures digest == Digest(old(msg))
    {
      hide Fold;
      hide Rest;
      hide Compress;
      hide Hash;
      hide Little;
      hide Octets;
      IndexIs();
      LengthOctets(bytes0, bytes1, |msg|);
      PaddedFolds(Compress, BLOCK, INITIAL, msg, 0x80, Little(8 * |msg|, 8));
      PadMark(Index());
      StoreLength(Little(8 * bytes0 % W32, 4) + Little(8 * bytes1 % W32 + bytes0 / 0x2000_0000, 4));
      TransformBuffer();
      digest := Octets(state);
      bytes0, bytes1, state, msg := 0, 0, Quad(0, 0, 0, 0), [];
      Memset(buffer);
    }

    /** The mark and zeros, up to where the length goes. */
    method PadMark(count: nat)
      requires buffer.Length == BLOCK && count < BLOCK
      modifies this`state, buffer
      ensures var tail := old(buffer[..count]);
              if count + 1 <= 56 then buffer[..56] == tail + [0x80] + Zeros(55 - count) && state == old(state)
              else buffer[..56] == Zeros(56) && state == Compress(old(state), tail + [0x80] + Zeros(63 - count))
    {
      hide Compress;
      ghost var tail := buffer[..count];
      buffer[count] := 0x80;
      assert buffer[..count + 1] == tail + [0x80];
      if count + 1 > 56 {
        Clear(count + 1, 64);
        assert buffer[..64] == buffer[..];
        TransformBuffer();
        Clear(0, 56);
        EmptyUnit(Zeros(56));
      } else {
        Clear(count + 1, 56);
      }
    }

    method Clear(from: nat, to: nat)
      requires from <= to <= buffer.Length
      modifies buffer
      ensures buffer[..to] == old(buffer[..from]) + Zeros(to - from)
    {
      StoreIs(buffer[..], from, Zeros(to - from));
      ghost var head := buffer[..from];
      Blit(buffer, from, Zeros(to - from));
      assert buffer[..to] == head + Zeros(to - from);
    }

    method StoreLength(length: seq<byte>)
      requires buffer.Length == BLOCK && |length| == 8
      modifies buffer
      ensures buffer[..] == old(buffer[..56]) + length
    {
      StoreIs(buffer[..], 56, length);
      ghost var head := buffer[..56];
      Blit(buffer, 56, length);
      assert buffer[..] == head + length;
    }
  }

  /** However a message is cut into pieces, the digest is that of the whole message. */
  method DigestPieces(pieces: seq<seq<byte>>) returns (digest: seq<byte>)
    requires forall i :: 0 <= i < |pieces| ==> InputLength(|pieces[i]|)
    ensures digest == Digest(Flatten(pieces))
  {
    hide Digest;
    var context := new Context();
    var i := 0;
    while i < |pieces|
      invariant 0 <= i <= |pieces| && fresh(context) && fresh(context.buffer)
      invariant context.Valid() && context.msg == Flatten(pieces[..i])
    {
      assert pieces[..i + 1][..i] == pieces[..i];
      context.Update(pieces[i]);
      i := i + 1;
    }
    assert pieces[..i] == pieces;
    digest := context.Final();
  }

  lemma {:induction false} CountAdds(bytes0: nat, bytes1: nat, n: nat)
    requires InputLength(n) && bytes0 < W32 && bytes1 < W32
    ensures var b0 := (bytes0 + n) % W32;
            var b1 := if b0 < bytes0 then (bytes1 + 1) % W32 else bytes1;
            b0 + W32 * b1 == (bytes0 + W32 * bytes1 + n) % W64
  {
    SmallMod(bytes0 + n, W32);
    SmallMod(bytes1 + 1, W32);
    SmallMod(bytes0 + W32 * bytes1 + n, W64);
  }

  lemma {:induction false} LowBits(bytes0: nat, bytes1: nat, n: nat)
    requires bytes0 < W32 && bytes1 < W32 && bytes0 + W32 * bytes1 == n % W64
    ensures bytes0 % 64 == n % 64
  {
  }

  lemma {:induction false} CountGrows(n: nat, k: nat)
    ensures (n % W64 + k) % W64 == (n + k) % W64
  {
  }

  /** The count of octets, shifted by three across the two words, is the count of bits. */
  lemma {:induction false} LengthOctets(bytes0: nat, bytes1: nat, n: nat)
    requires bytes0 < W32 && bytes1 < W32 && bytes0 + W32 * bytes1 == n % W64
    ensures Little(8 * bytes0 % W32, 4) + Little(8 * bytes1 % W32 + bytes0 / 0x2000_0000, 4) == Little(8 * n, 8)
  {
    hide Little;
    hide Pow256;
    var low, high := 8 * bytes0 % W32, 8 * bytes1 % W32 + bytes0 / 0x2000_0000;
    LittleJoin(low, high);
    ShiftAcross(bytes0, bytes1, n);
    LittleDrops(8 * n, 8);
    PowValues();
  }

  lemma {:induction false} ShiftAcross(bytes0: nat, bytes1: nat, n: nat)
    requires bytes0 < W32 && bytes1 < W32 && bytes0 + W32 * bytes1 == n % W64
    ensures 8 * bytes0 % W32 + W32 * (8 * bytes1 % W32 + bytes0 / 0x2000_0000) == 8 * n % W64
  {
    var h0, h1 := bytes0 / 0x2000_0000, bytes1 / 0x2000_0000;
    var l0, l1 := 8 * bytes0 % W32, 8 * bytes1 % W32;
    assert 8 * bytes0 == l0 + W32 * h0 && h0 < 8;
    assert 8 * bytes1 == l1 + W32 * h1 && l1 <= W32 - 8;
    var q := n / W64;
    assert n == W64 * q + (bytes0 + W32 * bytes1);
    ModIs(8 * n, W64, h1 + 8 * q, l0 + W32 * (l1 + h0));
  }
}
