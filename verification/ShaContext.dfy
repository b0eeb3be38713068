/** The streaming context of the SHA-2 hashes. The 256-bit and the 512-bit code are the same program over
    words of 32 and of 64 bits; here the constants that differ are parameters. */
module ShaContext {
  import opened Octet
  import opened Bytes
  import opened Sequences
  import opened BlockHash

  /** `half` is the number of octets of one of the two words that count the bits of the message. */
  datatype Params<!W(!new)> = Params(size: nat, half: nat, initial: W, compress: (W, seq<byte>) -> W, octets: W -> seq<byte>) {
    predicate Valid() {
      half >= 4 && 2 * half + 1 <= size && size % 8 == 0
    }

    function Limit(): (n: nat)
      ensures n > 0
    {
      Pow256(half)
    }

    /** Messages up to this many bits can be hashed. */
    function MaxBits(): nat {
      Pow256(2 * half)
    }

    /** Section 5 of FIPS 180-2: the padding carries the length of the message in bits. */
    function Digest(msg: seq<byte>): seq<byte>
      requires Valid()
    {
      octets(Hash(compress, size, initial, msg, 0x80, Big(8 * |msg|, 2 * half)))
    }
  }

  /** Error codes; a message that is too long is noted as 1. */
  const SUCCESS: nat := 0
  const STATE_ERROR: nat := 3

  const MASKS: seq<byte> := [0x00, 0x80, 0xC0, 0xE0, 0xF0, 0xF8, 0xFC, 0xFE]
  const MARK_BITS: seq<byte> := [0x80, 0x40, 0x20, 0x10, 0x08, 0x04, 0x02, 0x01]

  /** The final bits and the bit that ends the message, in one octet. */
  function LastOctet(bits: byte, length: nat): byte
    requires length < 8
  {
    (bits & MASKS[length]) | MARK_BITS[length]
  }

  lemma {:induction false} TablesAre(length: nat)
    requires length < 8
    ensures MASKS[length] == (0xFF as byte) << (8 - length) && MARK_BITS[length] == (0x80 as byte) >> length
  {
    if length == 0 {} else if length == 1 {} else if length == 2 {} else if length == 3 {} else if length == 4 {}
    else if length == 5 {} else if length == 6 {} else {}
  }

  /** The first `length` bits, a one, and zeros. */
  lemma {:induction false} LastOctetIs(bits: byte, length: nat)
    requires length < 8
    ensures LastOctet(bits, length) == (bits & ((0xFF as byte) << (8 - length))) | ((0x80 as byte) >> length)
  {
    TablesAre(length);
  }

  class Context<W(!new)> {
    const p: Params<W>
    const messageBlock: array<byte>
    var messageBlockIndex: nat
    var lengthLow: nat
    var lengthHigh: nat
    var intermediateHash: W
    var computed: bool
    /** Zero, one for a message that is too long, or the code of a call out of order. */
    var corrupted: nat
    /** The octets taken in so far, and the digest once it is computed. */
    ghost var msg: seq<byte>
    ghost var digest: seq<byte>

    ghost predicate Valid()
      reads this, messageBlock
    {
      && p.Valid() && messageBlock.Length == p.size
      && lengthLow < p.Limit() && lengthHigh < p.Limit()
      && (corrupted == 0 && !computed ==> Covered() && 8 * |msg| == Bits())
      && (corrupted == 0 && computed ==> digest == p.octets(intermediateHash))
    }

    /** The hash covers the whole blocks, and the block buffer holds the rest. */
    ghost predicate Covered()
      reads this, messageBlock
    {
      && p.size > 0 && messageBlock.Length == p.size && messageBlockIndex < p.size
      && intermediateHash == Fold(p.compress, p.size, p.initial, msg)
      && messageBlock[..messageBlockIndex] == Rest(p.size, msg)
    }

    /** The number the two length words denote. */
    ghost function Bits(): nat
      reads this
    {
      Joined(lengthHigh, lengthLow, p.Limit())
    }

    constructor (p: Params<W>)
      requires p.Valid()
      ensures Valid() && this.p == p && corrupted == 0 && !computed && msg == [] && fresh(messageBlock)
    {
      this.p := p;
      messageBlock := new byte[p.size](_ => 0);
      messageBlockIndex, lengthLow, lengthHigh, intermediateHash := 0, 0, 0, p.initial;
      computed, corrupted, msg := false, 0, [];
      digest := [];
      new;
      assert messageBlock[..0] == [];
    }

    /** Start over. */
    method Reset()
      requires Valid()
      modifies this
      ensures Valid() && corrupted == 0 && !computed && msg == []
    {
      messageBlockIndex, lengthLow, lengthHigh, intermediateHash := 0, 0, 0, p.initial;
      computed, corrupted, msg := false, 0, [];
      assert messageBlock[..0] == [];
    }

    /** Add to the two words, with the carry found by comparing. One is returned, and noted, when the
        upper word runs over too. */
    method AddLength(length: nat) returns (over: nat)
      requires length <= 8 && p.half >= 4 && lengthLow < p.Limit() && lengthHigh < p.Limit()
      modifies this`lengthLow, this`lengthHigh, this`corrupted
      ensures lengthLow < p.Limit() && lengthHigh < p.Limit() && corrupted == over
      ensures var total := old(Bits()) + length;
              if total < p.Limit() * p.Limit() then over == 0 && Bits() == total else over == 1
    {
      PowLarge(p.half);
      CarryAdds(lengthHigh, lengthLow, length, p.Limit());
      hide Joined;
      hide Pow256;
      var addTemp := lengthLow;
      lengthLow := (lengthLow + length) % p.Limit();
      over := 0;
      if lengthLow < addTemp {
        lengthHigh := (lengthHigh + 1) % p.Limit();
        if lengthHigh == 0 {
          over := 1;
        }
      }
      corrupted := over;
    }

    method ProcessMessageBlock()
      requires p.size > 0 && messageBlock.Length == p.size
      modifies this`intermediateHash, this`messageBlockIndex
      ensures intermediateHash == p.compress(old(intermediateHash), messageBlock[..]) && messageBlockIndex == 0
    {
      intermediateHash := p.compress(intermediateHash, messageBlock[..]);
      messageBlockIndex := 0;
    }

    /** One octet: into the block buffer, which is processed when it is full. */
    method InputOctet(b: byte)
      requires Valid() && corrupted == 0 && !computed
      modifies this, messageBlock
      ensures Valid() && !computed && digest == old(digest)
      ensures if 8 * |old(msg)| + 8 < p.MaxBits() then corrupted == 0 && msg == old(msg) + [b] else corrupted == 1
    {
      hide Fold;
      hide Rest;
      PowSum(p.half, p.half);
      ghost var tail := Rest(p.size, msg);
      messageBlock[messageBlockIndex] := b;
      messageBlockIndex := messageBlockIndex + 1;
      assert messageBlock[..messageBlockIndex] == tail + [b];
      var over := AddLength(8);
      if over == 0 {
        if messageBlockIndex == p.size {
          assert messageBlock[..] == tail + [b];
          FoldCompletes(p.compress, p.size, p.initial, msg, [b]);
          ProcessMessageBlock();
          assert messageBlock[..0] == [];
        } else {
          FoldKeeps(p.compress, p.size, p.initial, msg, [b]);
        }
        msg := msg + [b];
      }
    }

    method InputOctets(data: seq<byte>)
      requires Valid() && !computed && corrupted == 0
      modifies this, messageBlock
      ensures Valid() && !computed && digest == old(digest)
      ensures if data == [] || 8 * |old(msg) + data| < p.MaxBits() then corrupted == 0 && msg == old(msg) + data else corrupted == 1
    {
      hide Valid;
      hide Params.MaxBits;
      ghost var before := msg;
      EmptyUnit(before);
      var i := 0;
      while i < |data| && corrupted == 0
        invariant 0 <= i <= |data| && Valid() && !computed && digest == old(digest)
        invariant if corrupted == 0 then msg == before + data[..i] else corrupted == 1 && data != [] && 8 * |before + data| >= p.MaxBits()
        invariant corrupted == 0 && i > 0 ==> 8 * |msg| < p.MaxBits()
      {
        assert data[..i + 1] == data[..i] + [data[i]];
        Assoc(before, data[..i], [data[i]]);
        InputOctet(data[i]);
        i := i + 1;
      }
      assert data[..|data|] == data;
    }

    /** Take in the next octets. A message that gets too long is noted, not reported. */
    method Input(data: seq<byte>) returns (r: nat)
      requires Valid()
      modifies this, messageBlock
      ensures Valid() && computed == old(computed) && digest == old(digest)
      ensures data == [] ==> r == SUCCESS && msg == old(msg) && corrupted == old(corrupted)
      ensures data != [] && old(computed) ==> r == corrupted == STATE_ERROR
      ensures data != [] && !old(computed) && old(corrupted) != 0 ==> r == corrupted == old(corrupted)
      ensures data != [] && !old(computed) && old(corrupted) == 0 ==>
                r == SUCCESS && if 8 * |old(msg) + data| < p.MaxBits() then corrupted == 0 && msg == old(msg) + data else corrupted == 1
    {
      if data == [] {
        return SUCCESS;
      }
      if computed {
        corrupted := STATE_ERROR;
        return STATE_ERROR;
      }
      if corrupted != 0 {
        return corrupted;
      }
      InputOctets(data);
      r := SUCCESS;
    }

    // ---- the end of the message -----------------------------------------------------------------------

    method FillZeros(to: nat)
      requires messageBlockIndex <= to <= messageBlock.Length
      modifies this`messageBlockIndex, messageBlock
      ensures messageBlockIndex == to
      ensures messageBlock[..to] == old(messageBlock[..messageBlockIndex]) + Zeros(to - old(messageBlockIndex))
    {
      ghost var from, head := messageBlockIndex, messageBlock[..messageBlockIndex];
      EmptyUnit(head);
      while messageBlockIndex < to
        invariant from <= messageBlockIndex <= to
        invariant messageBlock[..messageBlockIndex] == head + Zeros(messageBlockIndex - from)
      {
        messageBlock[messageBlockIndex] := 0;
        ZerosPush(messageBlockIndex - from);
        Assoc(head, Zeros(messageBlockIndex - from), [0]);
        messageBlockIndex := messageBlockIndex + 1;
      }
    }

    /** The padding octet; if the length does not fit behind it, zeros, and the block is processed. */
    method PadMark(padByte: byte)
      requires p.Valid() && messageBlock.Length == p.size && messageBlockIndex < p.size
      modifies this`intermediateHash, this`messageBlockIndex, messageBlock
      ensures var tail := old(messageBlock[..messageBlockIndex]);
              if |tail| + 1 <= p.size - 2 * p.half then
                messageBlockIndex == |tail| + 1 && messageBlock[..messageBlockIndex] == tail + [padByte] && intermediateHash == old(intermediateHash)
              else
                messageBlockIndex == 0 &&
                intermediateHash == p.compress(old(intermediateHash), tail + [padByte] + Zeros(p.size - |tail| - 1))
    {
      ghost var tail := messageBlock[..messageBlockIndex];
      messageBlock[messageBlockIndex] := padByte;
      messageBlockIndex := messageBlockIndex + 1;
      assert messageBlock[..messageBlockIndex] == tail + [padByte];
      if messageBlockIndex > p.size - 2 * p.half {
        FillZeros(p.size);
        assert messageBlock[..p.size] == messageBlock[..];
        ProcessMessageBlock();
      }
    }

    /** Zeros up to the last octets of the block, which hold the length, upper word first. */
    method PadLength()
      requires p.Valid() && messageBlock.Length == p.size && messageBlockIndex <= p.size - 2 * p.half
      requires lengthLow < p.Limit() && lengthHigh < p.Limit()
      modifies this`intermediateHash, this`messageBlockIndex, messageBlock
      ensures messageBlockIndex == 0
      ensures intermediateHash == p.compress(old(intermediateHash),
                old(messageBlock[..messageBlockIndex]) + Zeros(p.size - 2 * p.half - old(messageBlockIndex)) + Big(Bits(), 2 * p.half))
    {
      hide Joined;
      BigJoin(lengthHigh, lengthLow, p.half, p.half);
      JoinedIs(lengthHigh, lengthLow, p.Limit());
      var room := p.size - 2 * p.half;
      FillZeros(room);
      var length := Big(lengthHigh, p.half) + Big(lengthLow, p.half);
      StoreIs(messageBlock[..], room, length);
      ghost var padded := messageBlock[..room];
      Blit(messageBlock, room, length);
      assert messageBlock[..] == padded + length;
      ProcessMessageBlock();
    }

    method PadMessage(padByte: byte)
      requires Covered() && p.Valid() && lengthLow < p.Limit() && lengthHigh < p.Limit()
      modifies this`intermediateHash, this`messageBlockIndex, messageBlock
      ensures intermediateHash == Hash(p.compress, p.size, p.initial, msg, padByte, Big(Bits(), 2 * p.half))
    {
      hide Fold;
      hide Rest;
      hide Hash;
      hide Joined;
      PaddedFolds(p.compress, p.size, p.initial, msg, padByte, Big(Bits(), 2 * p.half));
      ghost var tail := Rest(p.size, msg);
      PadMark(padByte);
      EmptyUnit(Zeros(p.size - 2 * p.half));
      assert messageBlock[..0] == [];
      PadLength();
    }

    method Finalize(padByte: byte)
      requires Covered() && p.Valid() && lengthLow < p.Limit() && lengthHigh < p.Limit() && corrupted == 0
      modifies this, messageBlock
      ensures Valid() && computed && corrupted == 0 && msg == old(msg)
      ensures digest == p.octets(Hash(p.compress, p.size, p.initial, msg, padByte, Big(old(Bits()), 2 * p.half)))
    {
      hide Hash;
      PadMessage(padByte);
      Memset(messageBlock);
      lengthLow, lengthHigh, computed := 0, 0, true;
      digest := p.octets(intermediateHash);
    }

    /** The last bits of a message that is not made of whole octets: the padding octet holds them. */
    method FinalBits(messageBits: byte, length: nat) returns (r: nat)
      requires Valid()
      modifies this, messageBlock
      ensures Valid() && msg == old(msg)
      ensures length == 0 ==> r == SUCCESS && computed == old(computed) && corrupted == old(corrupted)
      ensures length != 0 && (old(computed) || length >= 8) ==> r == corrupted == STATE_ERROR
      ensures 0 < length < 8 && !old(computed) && old(corrupted) != 0 ==> r == corrupted == old(corrupted)
      ensures 0 < length < 8 && !old(computed) && old(corrupted) == 0 ==>
                r == SUCCESS && computed && corrupted == 0 &&
                digest == p.octets(Hash(p.compress, p.size, p.initial, msg, LastOctet(messageBits, length),
                                        Big(8 * |msg| + length, 2 * p.half)))
    {
      hide Hash;
      hide Fold;
      hide Rest;
      hide Joined;
      hide Big;
      hide LastOctet;
      if length == 0 {
        return SUCCESS;
      }
      if computed || length >= 8 {
        corrupted := STATE_ERROR;
        return STATE_ERROR;
      }
      if corrupted != 0 {
        return corrupted;
      }
      PowSum(p.half, p.half);
      JoinedBound(lengthHigh, lengthLow, p.Limit());
      RoomForBits(|msg|, 2 * p.half);
      var over := AddLength(length);
      Finalize(LastOctet(messageBits, length));
      r := SUCCESS;
    }

    /** The digest of everything taken in. Asking again gives the same digest. */
    method Result() returns (r: nat, messageDigest: seq<byte>)
      requires Valid()
      modifies this, messageBlock
      ensures Valid() && msg == old(msg) && corrupted == old(corrupted)
      ensures old(corrupted) != 0 ==> r == old(corrupted) && messageDigest == []
      ensures old(corrupted) == 0 ==> r == SUCCESS && computed && messageDigest == digest
      ensures old(corrupted) == 0 && old(computed) ==> messageDigest == old(digest)
      ensures old(corrupted) == 0 && !old(computed) ==> messageDigest == p.Digest(msg)
    {
      hide Hash;
      if corrupted != 0 {
        return corrupted, [];
      }
      if !computed {
        Finalize(0x80);
      }
      return SUCCESS, p.octets(intermediateHash);
    }
  }

  /** However a message is cut into pieces, the digest is that of the whole message, for every message
      whose length in bits fits the length field. */
  method HashPieces<W(!new)>(p: Params<W>, pieces: seq<seq<byte>>) returns (r: nat, digest: seq<byte>)
    requires p.Valid()
    ensures 8 * |Flatten(pieces)| < p.MaxBits() ==> r == SUCCESS && digest == p.Digest(Flatten(pieces))
    ensures 8 * |Flatten(pieces)| >= p.MaxBits() ==> r != SUCCESS
  {
    var context := new Context(p);
    assert p.MaxBits() > 0;
    var i := 0;
    while i < |pieces|
      invariant 0 <= i <= |pieces| && context.Valid() && context.p == p && !context.computed
      invariant fresh(context) && fresh(context.messageBlock)
      invariant if 8 * |Flatten(pieces[..i])| < p.MaxBits() then context.corrupted == 0 && context.msg == Flatten(pieces[..i])
                else context.corrupted == 1
    {
      assert pieces[..i + 1][..i] == pieces[..i];
      EmptyUnit(context.msg);
      r := context.Input(pieces[i]);
      i := i + 1;
    }
    assert pieces[..i] == pieces;
    r, digest := context.Result();
  }

  lemma {:induction false} JoinedBound(high: nat, low: nat, m: nat)
    requires high < m && low < m
    ensures Joined(high, low, m) < m * m
  {
    MulMonotone(high + 1, m, m);
    MulNext(high, m);
  }

  lemma {:induction false} RoomForBits(n: nat, k: nat)
    requires 8 * n < Pow256(k) && k > 0
    ensures 8 * n + 7 < Pow256(k)
  {
  }

  lemma {:induction false} JoinedIs(high: nat, low: nat, m: nat)
    ensures Joined(high, low, m) == high * m + low
  {
  }

  lemma {:induction false} PowLarge(n: nat)
    requires n >= 1
    ensures Pow256(n) >= 256
  {
    if n > 1 {
      PowLarge(n - 1);
    }
  }

  /** The number the two words denote. */
  function Joined(high: nat, low: nat, m: nat): nat {
    high * m + low
  }

  /** Adding with a carry: the lower word runs over exactly if it gets smaller, and both run over exactly
      if the sum needs a third word. */
  lemma {:induction false} CarryAdds(high: nat, low: nat, n: nat, m: nat)
    requires low < m && high < m && n <= 8 && m >= 256
    ensures var l, h := (low + n) % m, (high + 1) % m;
            if l >= low then Joined(high, l, m) == Joined(high, low, m) + n && Joined(high, low, m) + n < m * m
            else if h > 0 then Joined(h, l, m) == Joined(high, low, m) + n && Joined(high, low, m) + n < m * m
            else Joined(high, low, m) + n >= m * m
  {
    SmallMod(low + n, m);
    SmallMod(high + 1, m);
    CarryCases(high, low, n, m, (low + n) % m, (high + 1) % m);
  }

  lemma {:induction false} CarryCases(high: nat, low: nat, n: nat, m: nat, l: nat, h: nat)
    requires low < m && high < m && n <= 8 && m >= 256
    requires l == if low + n < m then low + n else low + n - m
    requires h == if high + 1 < m then high + 1 else 0
    ensures if l >= low then Joined(high, l, m) == Joined(high, low, m) + n && Joined(high, low, m) + n < m * m
            else if h > 0 then Joined(h, l, m) == Joined(high, low, m) + n && Joined(high, low, m) + n < m * m
            else Joined(high, low, m) + n >= m * m
  {
    MulMonotone(high + 1, m, m);
    MulNext(high, m);
    if high + 1 < m {
      MulMonotone(high + 2, m, m);
      MulNext(high + 1, m);
    }
  }

  lemma {:induction false} MulNext(a: nat, m: nat)
    ensures (a + 1) * m == a * m + m
  {
  }

  lemma {:induction false} MulMonotone(a: nat, b: nat, m: nat)
    requires a <= b
    ensures a * m <= b * m
  {
    assert b * m == a * m + (b - a) * m;
  }
}
