/** Hashing by blocks: the fold of a compression function over a padded message, and what becomes of it
    when the message arrives in pieces. */
module BlockHash {
  import opened Octet
  import opened Bytes
  import opened Sequences

  /** The chaining value after the whole blocks of `d`; an incomplete last block is left out. */
  function Fold<W(!new)>(f: (W, seq<byte>) -> W, size: nat, h: W, d: seq<byte>): W
    requires size > 0
    decreases |d|
  {
    if |d| < size then h else Fold(f, size, f(h, d[..size]), d[size..])
  }

  /** The incomplete last block. */
  function Rest(size: nat, d: seq<byte>): (r: seq<byte>)
    requires size > 0
    ensures |r| < size
    decreases |d|
  {
    if |d| < size then d else Rest(size, d[size..])
  }

  /** A message may be folded piece by piece, carrying the incomplete block over. */
  lemma {:induction false} FoldPieces<W(!new)>(f: (W, seq<byte>) -> W, size: nat, h: W, a: seq<byte>, b: seq<byte>)
    requires size > 0
    ensures Fold(f, size, h, a + b) == Fold(f, size, Fold(f, size, h, a), Rest(size, a) + b)
    ensures Rest(size, a + b) == Rest(size, Rest(size, a) + b)
    decreases |a|
  {
    if |a| >= size {
      FoldPieces(f, size, f(h, a[..size]), a[size..], b);
      DropJoined(a, b, size);
      assert (a + b)[..size] == a[..size];
    }
  }

  lemma {:induction false} FoldBlock<W(!new)>(f: (W, seq<byte>) -> W, size: nat, h: W, block: seq<byte>)
    requires |block| == size > 0
    ensures Fold(f, size, h, block) == f(h, block) && Rest(size, block) == []
  {
    assert block[..size] == block && block[size..] == [];
  }

  lemma {:induction false} FoldShort<W(!new)>(f: (W, seq<byte>) -> W, size: nat, h: W, d: seq<byte>)
    requires |d| < size
    ensures Fold(f, size, h, d) == h && Rest(size, d) == d
  {
  }

  /** The next octets of a message when they complete no block, and when they complete one. */
  lemma {:induction false} FoldKeeps<W(!new)>(f: (W, seq<byte>) -> W, size: nat, h: W, a: seq<byte>, b: seq<byte>)
    requires size > 0 && |Rest(size, a)| + |b| < size
    ensures Fold(f, size, h, a + b) == Fold(f, size, h, a) && Rest(size, a + b) == Rest(size, a) + b
  {
    FoldPieces(f, size, h, a, b);
    FoldShort(f, size, Fold(f, size, h, a), Rest(size, a) + b);
  }

  lemma {:induction false} FoldCompletes<W(!new)>(f: (W, seq<byte>) -> W, size: nat, h: W, a: seq<byte>, b: seq<byte>)
    requires size > 0 && |Rest(size, a)| + |b| == size
    ensures Fold(f, size, h, a + b) == f(Fold(f, size, h, a), Rest(size, a) + b) && Rest(size, a + b) == []
  {
    FoldPieces(f, size, h, a, b);
    FoldBlock(f, size, Fold(f, size, h, a), Rest(size, a) + b);
  }

  /** One more block of an input that lies behind what came before. */
  lemma {:induction false} BlockAt<W(!new)>(f: (W, seq<byte>) -> W, size: nat, h: W, m: seq<byte>, input: seq<byte>, i: nat)
    requires size > 0 && i + size <= |input| && Rest(size, m + input[..i]) == []
    ensures Fold(f, size, h, m + input[..i + size]) == f(Fold(f, size, h, m + input[..i]), input[i..i + size])
    ensures Rest(size, m + input[..i + size]) == []
  {
    hide Fold;
    hide Rest;
    var block := input[i..i + size];
    FoldCompletes(f, size, h, m + input[..i], block);
    EmptyUnit(block);
    Assoc(m, input[..i], block);
    assert input[..i + size] == input[..i] + block;
  }

  /** The end of the input, which completes no block. */
  lemma {:induction false} Remainder<W(!new)>(f: (W, seq<byte>) -> W, size: nat, h: W, m: seq<byte>, input: seq<byte>, i: nat)
    requires size > 0 && i <= |input| && |Rest(size, m + input[..i])| + |input| - i < size
    ensures Fold(f, size, h, m + input) == Fold(f, size, h, m + input[..i])
    ensures Rest(size, m + input) == Rest(size, m + input[..i]) + input[i..]
  {
    hide Fold;
    hide Rest;
    FoldKeeps(f, size, h, m + input[..i], input[i..]);
    Assoc(m, input[..i], input[i..]);
    assert input == input[..i] + input[i..];
  }

  /** A message that arrives in pieces. */
  function Flatten(pieces: seq<seq<byte>>): seq<byte> {
    if pieces == [] then [] else Flatten(pieces[..|pieces| - 1]) + pieces[|pieces| - 1]
  }

  lemma {:induction false} RestLength(size: nat, d: seq<byte>)
    requires size > 0
    ensures |Rest(size, d)| == |d| % size
    decreases |d|
  {
    if |d| >= size {
      RestLength(size, d[size..]);
      ModStep(|d|, size);
    }
  }

  lemma {:induction false} ModStep(n: nat, m: nat)
    requires m > 0 && n >= m
    ensures n % m == (n - m) % m
  {
    var q, r := (n - m) / m, (n - m) % m;
    assert (q + 1) * m == q * m + m;
    ModIs(n, m, q + 1, r);
  }

  lemma {:induction false} ModIs(n: nat, m: nat, q: nat, r: nat)
    requires m > 0 && r < m && n == q * m + r
    ensures n % m == r
  {
    QuotientIs(m, n / m, n % m, q, r);
  }

  lemma {:induction false} SmallMod(n: nat, m: nat)
    requires 0 < m && n < 2 * m
    ensures n % m == if n < m then n else n - m
  {
    if n >= m {
      ModIs(n, m, 1, n - m);
    }
  }

  lemma {:induction false} MulAtLeast(k: nat, m: nat)
    requires k >= 1
    ensures k * m >= m
  {
    assert k * m == (k - 1) * m + m;
  }

  lemma {:induction false} QuotientIs(m: nat, q: int, r: nat, q': int, r': nat)
    requires m > 0 && r < m && r' < m && q * m + r == q' * m + r'
    ensures r == r'
  {
    assert (q - q') * m == r' - r;
    if q > q' {
      MulAtLeast(q - q', m);
      assert false;
    } else if q < q' {
      MulAtLeast(q' - q, m);
      assert false;
    }
  }

  /** What the standards append: a marked octet, zeros up to the length field, and the length field, so
      that the message ends on a block boundary. `index` is the length of the incomplete block. */
  function Padding(size: nat, index: nat, mark: byte, length: seq<byte>): (r: seq<byte>)
    requires index < size && |length| < size
    ensures |r| + index == size || |r| + index == 2 * size
  {
    [mark] + Zeros(PadZeros(size, index, |length|)) + length
  }

  function PadZeros(size: nat, index: nat, field: nat): nat
    requires index < size && field < size
  {
    if index + 1 + field <= size then size - field - 1 - index else 2 * size - field - 1 - index
  }

  /** No smaller number of zeros would do: section 5.1 of FIPS 180-2, "the smallest, non-negative solution". */
  lemma {:induction false} PadZerosLeast(size: nat, index: nat, field: nat, k: nat)
    requires index < size && field < size && (index + 1 + k + field) % size == 0
    ensures k >= PadZeros(size, index, field)
  {
    var n := index + 1 + k + field;
    if k < PadZeros(size, index, field) {
      assert 0 < n < 2 * size && n != size;
      if n < size {
        ModIs(n, size, 0, n);
      } else {
        ModIs(n, size, 1, n - size);
      }
    }
  }

  /** The chaining value over a whole message and its padding. */
  function Hash<W(!new)>(f: (W, seq<byte>) -> W, size: nat, h: W, msg: seq<byte>, mark: byte, length: seq<byte>): W
    requires |length| < size
  {
    Fold(f, size, h, msg + Padding(size, |Rest(size, msg)|, mark, length))
  }

  /** The padded message leaves no incomplete block. */
  lemma {:induction false} PaddedIsWhole(size: nat, msg: seq<byte>, mark: byte, length: seq<byte>)
    requires |length| < size
    ensures Rest(size, msg + Padding(size, |Rest(size, msg)|, mark, length)) == []
  {
    var tail := Rest(size, msg) + Padding(size, |Rest(size, msg)|, mark, length);
    FoldPieces((x: int, y: seq<byte>) => x, size, 0, msg, Padding(size, |Rest(size, msg)|, mark, length));
    if |tail| == 2 * size {
      assert Rest(size, tail[size..]) == [] by {
        FoldBlock((x: int, y: seq<byte>) => x, size, 0, tail[size..]);
      }
    } else {
      FoldBlock((x: int, y: seq<byte>) => x, size, 0, tail);
    }
  }

  /** The one or two blocks that padding completes. */
  lemma {:induction false} PaddedFolds<W(!new)>(f: (W, seq<byte>) -> W, size: nat, h: W, msg: seq<byte>, mark: byte, field: seq<byte>)
    requires |field| + 1 <= size
    ensures var tail, room := Rest(size, msg), size - |field|;
            var x := Fold(f, size, h, msg);
            Hash(f, size, h, msg, mark, field) ==
            if |tail| + 1 <= room then f(x, tail + [mark] + Zeros(room - |tail| - 1) + field)
            else f(f(x, tail + [mark] + Zeros(size - |tail| - 1)), Zeros(room) + field)
  {
    hide Rest;
    hide Fold;
    hide Padding;
    hide Zeros;
    var tail, room := Rest(size, msg), size - |field|;
    var x := Fold(f, size, h, msg);
    FoldPieces(f, size, h, msg, Padding(size, |tail|, mark, field));
    if |tail| + 1 <= room {
      OneBlock(size, tail, mark, field);
      FoldBlock(f, size, x, tail + [mark] + Zeros(room - |tail| - 1) + field);
    } else {
      TwoBlocks(size, tail, mark, field);
      var b1, b2 := tail + [mark] + Zeros(size - |tail| - 1), Zeros(room) + field;
      FoldPieces(f, size, x, b1, b2);
      FoldBlock(f, size, x, b1);
      EmptyUnit(b2);
      FoldBlock(f, size, f(x, b1), b2);
    }
  }

  lemma {:induction false} OneBlock(size: nat, tail: seq<byte>, mark: byte, field: seq<byte>)
    requires |tail| + 1 + |field| <= size
    ensures tail + Padding(size, |tail|, mark, field) == tail + [mark] + Zeros(size - |field| - |tail| - 1) + field
  {
    hide Zeros;
    var zeros := Zeros(size - |field| - |tail| - 1);
    Assoc(tail, [mark] + zeros, field);
    Assoc(tail, [mark], zeros);
  }

  lemma {:induction false} TwoBlocks(size: nat, tail: seq<byte>, mark: byte, field: seq<byte>)
    requires |tail| < size && |field| + 1 <= size < |tail| + 1 + |field|
    ensures tail + Padding(size, |tail|, mark, field) ==
            (tail + [mark] + Zeros(size - |tail| - 1)) + (Zeros(size - |field|) + field)
  {
    hide Zeros;
    var a, b := Zeros(size - |tail| - 1), Zeros(size - |field|);
    ZerosSum(size - |tail| - 1, size - |field|);
    Assoc(tail, [mark] + (a + b), field);
    Assoc(tail, [mark], a + b);
    Assoc(tail + [mark], a, b);
    Assoc(tail + [mark] + a, b, field);
  }

  lemma {:induction false} ZerosSum(a: nat, b: nat)
    ensures Zeros(a) + Zeros(b) == Zeros(a + b)
  {
    if a > 0 {
      ZerosSum(a - 1, b);
      Assoc([0], Zeros(a - 1), Zeros(b));
    } else {
      EmptyUnit(Zeros(b));
    }
  }

  // ---- two-word counters --------------------------------------------------------------------------

  function Pow256(n: nat): (p: nat)
    ensures p > 0
  {
    if n == 0 then 1 else 256 * Pow256(n - 1)
  }

  lemma {:induction false} PowSum(a: nat, b: nat)
    ensures Pow256(a + b) == Pow256(a) * Pow256(b)
  {
    if a == 0 {
      assert Pow256(0) * Pow256(b) == Pow256(b);
    } else {
      PowSum(a - 1, b);
      assert 256 * (Pow256(a - 1) * Pow256(b)) == (256 * Pow256(a - 1)) * Pow256(b);
    }
  }

  lemma {:induction false} PowValues()
    ensures Pow256(4) == 0x1_0000_0000 && Pow256(8) == 0x1_0000_0000_0000_0000
    ensures Pow256(16) == 0x1_0000_0000_0000_0000_0000_0000_0000_0000
  {
    assert Pow256(4) == 0x1_0000_0000;
    PowSum(4, 4);
    PowSum(8, 8);
  }

  lemma {:induction false} MulRegroup(a: nat, p: nat)
    ensures a * (256 * p) == 256 * (a * p) && (256 * p) * a == 256 * (p * a)
  {
  }

  lemma {:induction false} LastDigit(n: nat, m: nat, d: nat)
    requires n == 256 * m + d && d < 256
    ensures n / 256 == m && n % 256 == d
  {
  }

  /** High and low word next to each other are the whole number. */
  lemma {:induction false} BigJoin(high: nat, low: nat, a: nat, b: nat)
    requires low < Pow256(b)
    ensures Big(high, a) + Big(low, b) == Big(high * Pow256(b) + low, a + b)
    decreases b
  {
    if b == 0 {
      EmptyUnit(Big(high, a));
      assert high * 1 + 0 == high;
    } else {
      var m := high * Pow256(b - 1);
      MulRegroup(high, Pow256(b - 1));
      LastDigit(high * Pow256(b) + low, m + low / 256, low % 256);
      BigJoin(high, low / 256, a, b - 1);
      Assoc(Big(high, a), Big(low / 256, b - 1), [(low % 256) as byte]);
    }
  }
}
