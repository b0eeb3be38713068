/** MD4, RFC 1320: the list of steps, and the code that writes them out. */
module Md4Transform {
  import opened Octet
  import opened MdBlocks

  const STEPS: nat := 48

  function F(x: Word, y: Word, z: Word): Word {
    (x & y) | (!x & z)
  }

  function G(x: Word, y: Word, z: Word): Word {
    ((x & y) | (x & z)) | (y & z)
  }

  function H(x: Word, y: Word, z: Word): Word {
    x ^ y ^ z
  }

  function FF(a: Word, b: Word, c: Word, d: Word, x: Word, s: nat): Word
    requires 0 < s < 32
  {
    Rotl(a + (F(b, c, d) + x), s)
  }

  function GG(a: Word, b: Word, c: Word, d: Word, x: Word, s: nat): Word
    requires 0 < s < 32
  {
    Rotl(a + (G(b, c, d) + x + 0x5a827999), s)
  }

  function HH(a: Word, b: Word, c: Word, d: Word, x: Word, s: nat): Word
    requires 0 < s < 32
  {
    Rotl(a + (H(b, c, d) + x + 0x6ed9eba1), s)
  }

  /** The word of the block that step `i` uses: in order, by columns, and in bit-reversed order. */
  function Index(i: nat): (k: nat)
    requires i < STEPS
    ensures k < 16
  {
    if i < 16 then i
    else if i < 32 then 4 * (i % 4) + (i - 16) / 4
    else 8 * (i % 2) + 4 * (i / 2 % 2) + 2 * (i / 4 % 2) + i / 8 % 2
  }

  function Shift(i: nat): (s: nat)
    requires i < STEPS
    ensures 0 < s < 32
  {
    var j := i % 4;
    if i < 16 then (if j == 0 then 3 else if j == 1 then 7 else if j == 2 then 11 else 19)
    else if i < 32 then (if j == 0 then 3 else if j == 1 then 5 else if j == 2 then 9 else 13)
    else if j == 0 then 3 else if j == 1 then 9 else if j == 2 then 11 else 15
  }

  /** One step; the word that was computed last moves to second place. */
  function Step(block: seq<byte>, q: Quad, i: nat): Quad
    requires i < STEPS
  {
    var x := X(block, Index(i));
    var t := if i < 16 then FF(q.a, q.b, q.c, q.d, x, Shift(i))
             else if i < 32 then GG(q.a, q.b, q.c, q.d, x, Shift(i))
             else HH(q.a, q.b, q.c, q.d, x, Shift(i));
    Quad(q.d, t, q.b, q.c)
  }

  function Steps(block: seq<byte>, q: Quad, n: nat): Quad
    requires n <= STEPS
  {
    if n == 0 then q else Step(block, Steps(block, q, n - 1), n - 1)
  }

  function Compress(q: Quad, block: seq<byte>): Quad {
    Sum(q, Steps(block, q, STEPS))
  }

  lemma {:induction false} FourSteps(block: seq<byte>, q: Quad, n: nat)
    requires n + 4 <= STEPS
    ensures Steps(block, q, n + 4) ==
            Step(block, Step(block, Step(block, Step(block, Steps(block, q, n), n), n + 1), n + 2), n + 3)
  {
    hide Step;
    assert Steps(block, q, n + 2) == Step(block, Step(block, Steps(block, q, n), n), n + 1);
    assert Steps(block, q, n + 4) == Step(block, Step(block, Steps(block, q, n + 2), n + 2), n + 3);
  }

  /** Round 1, step by step. */
  lemma {:induction false} Table1()
    ensures Index(0) == 0 && Index(1) == 1 && Index(2) == 2 && Index(3) == 3
    ensures Index(4) == 4 && Index(5) == 5 && Index(6) == 6 && Index(7) == 7
    ensures Index(8) == 8 && Index(9) == 9 && Index(10) == 10 && Index(11) == 11
    ensures Index(12) == 12 && Index(13) == 13 && Index(14) == 14 && Index(15) == 15
    ensures Shift(0) == 3 && Shift(1) == 7 && Shift(2) == 11 && Shift(3) == 19
    ensures Shift(4) == 3 && Shift(5) == 7 && Shift(6) == 11 && Shift(7) == 19
    ensures Shift(8) == 3 && Shift(9) == 7 && Shift(10) == 11 && Shift(11) == 19
    ensures Shift(12) == 3 && Shift(13) == 7 && Shift(14) == 11 && Shift(15) == 19
  {
  }

  /** Round 2, step by step. */
  lemma {:induction false} Table2()
    ensures Index(16) == 0 && Index(17) == 4 && Index(18) == 8 && Index(19) == 12
    ensures Index(20) == 1 && Index(21) == 5 && Index(22) == 9 && Index(23) == 13
    ensures Index(24) == 2 && Index(25) == 6 && Index(26) == 10 && Index(27) == 14
    ensures Index(28) == 3 && Index(29) == 7 && Index(30) == 11 && Index(31) == 15
    ensures Shift(16) == 3 && Shift(17) == 5 && Shift(18) == 9 && Shift(19) == 13
    ensures Shift(20) == 3 && Shift(21) == 5 && Shift(22) == 9 && Shift(23) == 13
    ensures Shift(24) == 3 && Shift(25) == 5 && Shift(26) == 9 && Shift(27) == 13
    ensures Shift(28) == 3 && Shift(29) == 5 && Shift(30) == 9 && Shift(31) == 13
  {
  }

  /** Round 3, step by step. */
  lemma {:induction false} Table3()
    ensures Index(32) == 0 && Index(33) == 8 && Index(34) == 4 && Index(35) == 12
    ensures Index(36) == 2 && Index(37) == 10 && Index(38) == 6 && Index(39) == 14
    ensures Index(40) == 1 && Index(41) == 9 && Index(42) == 5 && Index(43) == 13
    ensures Index(44) == 3 && Index(45) == 11 && Index(46) == 7 && Index(47) == 15
    ensures Shift(32) == 3 && Shift(33) == 9 && Shift(34) == 11 && Shift(35) == 15
    ensures Shift(36) == 3 && Shift(37) == 9 && Shift(38) == 11 && Shift(39) == 15
    ensures Shift(40) == 3 && Shift(41) == 9 && Shift(42) == 11 && Shift(43) == 15
    ensures Shift(44) == 3 && Shift(45) == 9 && Shift(46) == 11 && Shift(47) == 15
  {
  }

  method Round1(block: seq<byte>, ghost q: Quad, p: Quad) returns (r: Quad)
    requires p == Steps(block, q, 0)
    ensures r == Steps(block, q, 16)
  {
    hide Steps;
    hide Index;
    hide Shift;
    hide FF;
    hide X;
    Table1();
    var a, b, c, d := p.a, p.b, p.c, p.d;
    a := FF(a, b, c, d, X(block, 0), 3);
    d := FF(d, a, b, c, X(block, 1), 7);
    c := FF(c, d, a, b, X(block, 2), 11);
    b := FF(b, c, d, a, X(block, 3), 19);
    FourSteps(block, q, 0);
    assert Quad(a, b, c, d) == Steps(block, q, 4);
    a := FF(a, b, c, d, X(block, 4), 3);
    d := FF(d, a, b, c, X(block, 5), 7);
    c := FF(c, d, a, b, X(block, 6), 11);
    b := FF(b, c, d, a, X(block, 7), 19);
    FourSteps(block, q, 4);
    assert Quad(a, b, c, d) == Steps(block, q, 8);
    a := FF(a, b, c, d, X(block, 8), 3);
    d := FF(d, a, b, c, X(block, 9), 7);
    c := FF(c, d, a, b, X(block, 10), 11);
    b := FF(b, c, d, a, X(block, 11), 19);
    FourSteps(block, q, 8);
    assert Quad(a, b, c, d) == Steps(block, q, 12);
    a := FF(a, b, c, d, X(block, 12), 3);
    d := FF(d, a, b, c, X(block, 13), 7);
    c := FF(c, d, a, b, X(block, 14), 11);
    b := FF(b, c, d, a, X(block, 15), 19);
    FourSteps(block, q, 12);
    assert Quad(a, b, c, d) == Steps(block, q, 16);
    r := Quad(a, b, c, d);
  }

  method Round2(block: seq<byte>, ghost q: Quad, p: Quad) returns (r: Quad)
    requires p == Steps(block, q, 16)
    ensures r == Steps(block, q, 32)
  {
    hide Steps;
    hide Index;
    hide Shift;
    hide GG;
    hide X;
    Table2();
    var a, b, c, d := p.a, p.b, p.c, p.d;
    a := GG(a, b, c, d, X(block, 0), 3);
    d := GG(d, a, b, c, X(block, 4), 5);
    c := GG(c, d, a, b, X(block, 8), 9);
    b := GG(b, c, d, a, X(block, 12), 13);
    FourSteps(block, q, 16);
    assert Quad(a, b, c, d) == Steps(block, q, 20);
    a := GG(a, b, c, d, X(block, 1), 3);
    d := GG(d, a, b, c, X(block, 5), 5);
    c := GG(c, d, a, b, X(block, 9), 9);
    b := GG(b, c, d, a, X(block, 13), 13);
    FourSteps(block, q, 20);
    assert Quad(a, b, c, d) == Steps(block, q, 24);
    a := GG(a, b, c, d, X(block, 2), 3);
    d := GG(d, a, b, c, X(block, 6), 5);
    c := GG(c, d, a, b, X(block, 10), 9);
    b := GG(b, c, d, a, X(block, 14), 13);
    FourSteps(block, q, 24);
    assert Quad(a, b, c, d) == Steps(block, q, 28);
    a := GG(a, b, c, d, X(block, 3), 3);
    d := GG(d, a, b, c, X(block, 7), 5);
    c := GG(c, d, a, b, X(block, 11), 9);
    b := GG(b, c, d, a, X(block, 15), 13);
    FourSteps(block, q, 28);
    assert Quad(a, b, c, d) == Steps(block, q, 32);
    r := Quad(a, b, c, d);
  }

  method Round3(block: seq<byte>, ghost q: Quad, p: Quad) returns (r: Quad)
    requires p == Steps(block, q, 32)
    ensures r == Steps(block, q, 48)
  {
    hide Steps;
    hide Index;
    hide Shift;
    hide HH;
    hide X;
    Table3();
    var a, b, c, d := p.a, p.b, p.c, p.d;
    a := HH(a, b, c, d, X(block, 0), 3);
    d := HH(d, a, b, c, X(block, 8), 9);
    c := HH(c, d, a, b, X(block, 4), 11);
    b := HH(b, c, d, a, X(block, 12), 15);
    FourSteps(block, q, 32);
    assert Quad(a, b, c, d) == Steps(block, q, 36);
    a := HH(a, b, c, d, X(block, 2), 3);
    d := HH(d, a, b, c, X(block, 10), 9);
    c := HH(c, d, a, b, X(block, 6), 11);
    b := HH(b, c, d, a, X(block, 14), 15);
    FourSteps(block, q, 36);
    assert Quad(a, b, c, d) == Steps(block, q, 40);
    a := HH(a, b, c, d, X(block, 1), 3);
    d := HH(d, a, b, c, X(block, 9), 9);
    c := HH(c, d, a, b, X(block, 5), 11);
    b := HH(b, c, d, a, X(block, 13), 15);
    FourSteps(block, q, 40);
    assert Quad(a, b, c, d) == Steps(block, q, 44);
    a := HH(a, b, c, d, X(block, 3), 3);
    d := HH(d, a, b, c, X(block, 11), 9);
    c := HH(c, d, a, b, X(block, 7), 11);
    b := HH(b, c, d, a, X(block, 15), 15);
    FourSteps(block, q, 44);
    assert Quad(a, b, c, d) == Steps(block, q, 48);
    r := Quad(a, b, c, d);
  }

  method Transform(state: Quad, block: seq<byte>) returns (r: Quad)
    ensures r == Compress(state, block)
  {
    hide Steps;
    hide Add;
    r := Round1(block, state, StepsStart(block, state));
    r := Round2(block, state, r);
    r := Round3(block, state, r);
    r := Quad(Add(state.a, r.a), Add(state.b, r.b), Add(state.c, r.c), Add(state.d, r.d));
  }

  function StepsStart(block: seq<byte>, q: Quad): (p: Quad)
    ensures p == Steps(block, q, 0)
  {
    q
  }
}
