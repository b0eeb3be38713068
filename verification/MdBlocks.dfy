/** What MD4 and MD5 share: four words, sixteen little-endian words to a block, a list of steps. */
module MdBlocks {
  import opened Octet
  import opened Bytes
  import opened BlockHash

  type Word = bv32

  datatype Quad = Quad(a: Word, b: Word, c: Word, d: Word)

  const BLOCK: nat := 64

  const INITIAL: Quad := Quad(0x67452301, 0xefcdab89, 0x98badcfe, 0x10325476)

  function Rotl(x: Word, n: nat): Word
    requires 0 < n < 32
  {
    (x << n) | (x >> (32 - n))
  }

  function Add(x: Word, y: Word): Word {
    x + y
  }

  function At(block: seq<byte>, i: nat): byte {
    if i < |block| then block[i] else 0
  }

  /** Word `i` of a block. */
  function X(block: seq<byte>, i: nat): Word {
    (At(block, 4 * i) as Word) | ((At(block, 4 * i + 1) as Word) << 8) |
    ((At(block, 4 * i + 2) as Word) << 16) | ((At(block, 4 * i + 3) as Word) << 24)
  }

  function Sum(p: Quad, q: Quad): Quad {
    Quad(Add(p.a, q.a), Add(p.b, q.b), Add(p.c, q.c), Add(p.d, q.d))
  }

  function Low(x: Word): byte {
    (x & 0xff) as byte
  }

  function WordOctets(x: Word): (r: seq<byte>)
    ensures |r| == 4
  {
    [Low(x), Low(x >> 8), Low(x >> 16), Low(x >> 24)]
  }

  function Octets(q: Quad): (r: seq<byte>)
    ensures |r| == 16
  {
    WordOctets(q.a) + WordOctets(q.b) + WordOctets(q.c) + WordOctets(q.d)
  }

  // ---- 64-bit counts in two words ---------------------------------------------------------------------

  const W32: nat := 0x1_0000_0000
  const W64: nat := 0x1_0000_0000_0000_0000

  /** Low word first, as the length is stored. */
  lemma {:induction false} LittleJoin(low: nat, high: nat)
    requires low < W32
    ensures Little(low, 4) + Little(high, 4) == Little(low + W32 * high, 8)
  {
    LittleSplit(low, high, 4);
  }

  lemma {:induction false} LittleSplit(low: nat, high: nat, a: nat)
    requires low < Pow256(a)
    ensures Little(low, a) + Little(high, 4) == Little(low + Pow256(a) * high, a + 4)
  {
    if a == 0 {
      assert [] + Little(high, 4) == Little(high, 4);
    } else {
      MulRegroup(high, Pow256(a - 1));
      LastDigit(low + Pow256(a) * high, low / 256 + Pow256(a - 1) * high, low % 256);
      LittleSplit(low / 256, high, a - 1);
      assert ([(low % 256) as byte] + Little(low / 256, a - 1)) + Little(high, 4) ==
             [(low % 256) as byte] + (Little(low / 256, a - 1) + Little(high, 4));
    }
  }

  lemma {:induction false} LowDigit(n: nat, q: nat, k: nat, m: nat)
    requires k > 0 && n == q * (256 * k) + m && m < 256 * k
    ensures n % 256 == m % 256 && n / 256 == q * k + m / 256 && m / 256 < k
  {
    MulRegroup(q, k);
    LastDigit(n, q * k + m / 256, m % 256);
  }

  lemma {:induction false} LowDigits(n: nat, q: nat, m: nat, size: nat)
    requires n == q * Pow256(size) + m && m < Pow256(size)
    ensures Little(m, size) == Little(n, size)
  {
    if size > 0 {
      LowDigit(n, q, Pow256(size - 1), m);
      LowDigits(n / 256, q, m / 256, size - 1);
    }
  }

  lemma {:induction false} Splits(n: nat, d: nat)
    requires d > 0
    ensures n == n / d * d + n % d && n % d < d
  {
  }

  /** Only the low 64 bits of a length are stored. */
  lemma {:induction false} LittleDrops(n: nat, size: nat)
    ensures Little(n % Pow256(size), size) == Little(n, size)
  {
    hide *;
    Splits(n, Pow256(size));
    LowDigits(n, n / Pow256(size), n % Pow256(size), size);
  }
}
