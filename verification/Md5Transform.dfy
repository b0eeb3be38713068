/** MD5, RFC 1321: the list of steps, and the code that writes them out. */
module Md5Transform {
  import opened Octet
  import opened MdBlocks

  const STEPS: nat := 64

  const T: seq<Word> := [
    0xd76aa478, 0xe8c7b756, 0x242070db, 0xc1bdceee,
    0xf57c0faf, 0x4787c62a, 0xa8304613, 0xfd469501,
    0x698098d8, 0x8b44f7af, 0xffff5bb1, 0x895cd7be,
    0x6b901122, 0xfd987193, 0xa679438e, 0x49b40821,
    0xf61e2562, 0xc040b340, 0x265e5a51, 0xe9b6c7aa,
    0xd62f105d, 0x02441453, 0xd8a1e681, 0xe7d3fbc8,
    0x21e1cde6, 0xc33707d6, 0xf4d50d87, 0x455a14ed,
    0xa9e3e905, 0xfcefa3f8, 0x676f02d9, 0x8d2a4c8a,
    0xfffa3942, 0x8771f681, 0x6d9d6122, 0xfde5380c,
    0xa4beea44, 0x4bdecfa9, 0xf6bb4b60, 0xbebfbc70,
    0x289b7ec6, 0xeaa127fa, 0xd4ef3085, 0x04881d05,
    0xd9d4d039, 0xe6db99e5, 0x1fa27cf8, 0xc4ac5665,
    0xf4292244, 0x432aff97, 0xab9423a7, 0xfc93a039,
    0x655b59c3, 0x8f0ccc92, 0xffeff47d, 0x85845dd1,
    0x6fa87e4f, 0xfe2ce6e0, 0xa3014314, 0x4e0811a1,
    0xf7537e82, 0xbd3af235, 0x2ad7d2bb, 0xeb86d391
  ]

  function F(x: Word, y: Word, z: Word): Word {
    (x & y) | (!x & z)
  }

  function G(x: Word, y: Word, z: Word): Word {
    (x & z) | (y & !z)
  }

  function H(x: Word, y: Word, z: Word): Word {
    x ^ y ^ z
  }

  function I(x: Word, y: Word, z: Word): Word {
    y ^ (x | !z)
  }

  function Index(i: nat): (k: nat)
    requires i < STEPS
    ensures k < 16
  {
    if i < 16 then i else if i < 32 then (5 * i + 1) % 16 else if i < 48 then (3 * i + 5) % 16 else 7 * i % 16
  }

  function Shift(i: nat): (s: nat)
    requires i < STEPS
    ensures 0 < s < 32
  {
    var j := i % 4;
    if i < 16 then (if j == 0 then 7 else if j == 1 then 12 else if j == 2 then 17 else 22)
    else if i < 32 then (if j == 0 then 5 else if j == 1 then 9 else if j == 2 then 14 else 20)
    else if i < 48 then (if j == 0 then 4 else if j == 1 then 11 else if j == 2 then 16 else 23)
    else if j == 0 then 6 else if j == 1 then 10 else if j == 2 then 15 else 21
  }

  function TAt(i: nat): Word
    requires i < STEPS
  {
    T[i]
  }

  /** b + ((a + f + X[k] + T[i]) <<< s), section 3.4. */
  function Mixed(w: Word, f: Word, addend: Word, s: nat, x: Word): Word
    requires 0 < s < 32
  {
    Rotl(w + (f + addend), s) + x
  }

  function Step(block: seq<byte>, q: Quad, i: nat): Quad
    requires i < STEPS
  {
    var f := if i < 16 then F(q.b, q.c, q.d) else if i < 32 then G(q.b, q.c, q.d)
             else if i < 48 then H(q.b, q.c, q.d) else I(q.b, q.c, q.d);
    Quad(q.d, Mixed(q.a, f, Add(X(block, Index(i)), TAt(i)), Shift(i), q.b), q.b, q.c)
  }

  function Steps(block: seq<byte>, q: Quad, n: nat): Quad
    requires n <= STEPS
  {
    if n == 0 then q else Step(block, Steps(block, q, n - 1), n - 1)
  }

  function Compress(q: Quad, block: seq<byte>): Quad {
    Sum(q, Steps(block, q, STEPS))
  }

  lemma {:induction false} FourSteps(block: seq<byte>, q: Quad, n: nat)
    requires n + 4 <= STEPS
    ensures Steps(block, q, n + 4) ==
            Step(block, Step(block, Step(block, Step(block, Steps(block, q, n), n), n + 1), n + 2), n + 3)
  {
    hide Step;
    assert Steps(block, q, n + 2) == Step(block, Step(block, Steps(block, q, n), n), n + 1);
    assert Steps(block, q, n + 4) == Step(block, Step(block, Steps(block, q, n + 2), n + 2), n + 3);
  }

  /** The optimized forms of F and G. */
  function F1(x: Word, y: Word, z: Word): (r: Word)
    ensures r == F(x, y, z)
  {
    F1IsF(x, y, z);
    z ^ (x & (y ^ z))
  }

  lemma {:induction false} F1IsF(x: Word, y: Word, z: Word)
    ensures z ^ (x & (y ^ z)) == F(x, y, z)
  {
  }

  function F2(x: Word, y: Word, z: Word): (r: Word)
    ensures r == G(x, y, z)
  {
    F2IsG(x, y, z);
    F1(z, x, y)
  }

  lemma {:induction false} F2IsG(x: Word, y: Word, z: Word)
    ensures F(z, x, y) == G(x, y, z)
  {
  }

  function F3(x: Word, y: Word, z: Word): (r: Word)
    ensures r == H(x, y, z)
  {
    x ^ y ^ z
  }

  function F4(x: Word, y: Word, z: Word): (r: Word)
    ensures r == I(x, y, z)
  {
    y ^ (x | !z)
  }

  /** Round 1, step by step. */
  lemma {:induction false} Table1()
    ensures Index(0) == 0 && Index(1) == 1 && Index(2) == 2 && Index(3) == 3
    ensures Index(4) == 4 && Index(5) == 5 && Index(6) == 6 && Index(7) == 7
    ensures Index(8) == 8 && Index(9) == 9 && Index(10) == 10 && Index(11) == 11
    ensures Index(12) == 12 && Index(13) == 13 && Index(14) == 14 && Index(15) == 15
    ensures Shift(0) == 7 && Shift(1) == 12 && Shift(2) == 17 && Shift(3) == 22
    ensures Shift(4) == 7 && Shift(5) == 12 && Shift(6) == 17 && Shift(7) == 22
    ensures Shift(8) == 7 && Shift(9) == 12 && Shift(10) == 17 && Shift(11) == 22
    ensures Shift(12) == 7 && Shift(13) == 12 && Shift(14) == 17 && Shift(15) == 22
  {
  }

  /** Round 2, step by step. */
  lemma {:induction false} Table2()
    ensures Index(16) == 1 && Index(17) == 6 && Index(18) == 11 && Index(19) == 0
    ensures Index(20) == 5 && Index(21) == 10 && Index(22) == 15 && Index(23) == 4
    ensures Index(24) == 9 && Index(25) == 14 && Index(26) == 3 && Index(27) == 8
    ensures Index(28) == 13 && Index(29) == 2 && Index(30) == 7 && Index(31) == 12
    ensures Shift(16) == 5 && Shift(17) == 9 && Shift(18) == 14 && Shift(19) == 20
    ensures Shift(20) == 5 && Shift(21) == 9 && Shift(22) == 14 && Shift(23) == 20
    ensures Shift(24) == 5 && Shift(25) == 9 && Shift(26) == 14 && Shift(27) == 20
    ensures Shift(28) == 5 && Shift(29) == 9 && Shift(30) == 14 && Shift(31) == 20
  {
  }

  /** Round 3, step by step. */
  lemma {:induction false} Table3()
    ensures Index(32) == 5 && Index(33) == 8 && Index(34) == 11 && Index(35) == 14
    ensures Index(36) == 1 && Index(37) == 4 && Index(38) == 7 && Index(39) == 10
    ensures Index(40) == 13 && Index(41) == 0 && Index(42) == 3 && Index(43) == 6
    ensures Index(44) == 9 && Index(45) == 12 && Index(46) == 15 && Index(47) == 2
    ensures Shift(32) == 4 && Shift(33) == 11 && Shift(34) == 16 && Shift(35) == 23
    ensures Shift(36) == 4 && Shift(37) == 11 && Shift(38) == 16 && Shift(39) == 23
    ensures Shift(40) == 4 && Shift(41) == 11 && Shift(42) == 16 && Shift(43) == 23
    ensures Shift(44) == 4 && Shift(45) == 11 && Shift(46) == 16 && Shift(47) == 23
  {
  }

  /** Round 4, step by step. */
  lemma {:induction false} Table4()
    ensures Index(48) == 0 && Index(49) == 7 && Index(50) == 14 && Index(51) == 5
    ensures Index(52) == 12 && Index(53) == 3 && Index(54) == 10 && Index(55) == 1
    ensures Index(56) == 8 && Index(57) == 15 && Index(58) == 6 && Index(59) == 13
    ensures Index(60) == 4 && Index(61) == 11 && Index(62) == 2 && Index(63) == 9
    ensures Shift(48) == 6 && Shift(49) == 10 && Shift(50) == 15 && Shift(51) == 21
    ensures Shift(52) == 6 && Shift(53) == 10 && Shift(54) == 15 && Shift(55) == 21
    ensures Shift(56) == 6 && Shift(57) == 10 && Shift(58) == 15 && Shift(59) == 21
    ensures Shift(60) == 6 && Shift(61) == 10 && Shift(62) == 15 && Shift(63) == 21
  {
  }

  method Round1(block: seq<byte>, ghost q: Quad, p: Quad) returns (r: Quad)
    requires p == Steps(block, q, 0)
    ensures r == Steps(block, q, 16)
  {
    hide Steps;
    hide Index;
    hide Shift;
    hide F;
    hide F1;
    hide X;
    hide Mixed;
    hide Add;
    hide TAt;
    Table1();
    var a, b, c, d := p.a, p.b, p.c, p.d;
    a := Mixed(a, F1(b, c, d), Add(X(block, 0), TAt(0)), 7, b);
    d := Mixed(d, F1(a, b, c), Add(X(block, 1), TAt(1)), 12, a);
    c := Mixed(c, F1(d, a, b), Add(X(block, 2), TAt(2)), 17, d);
    b := Mixed(b, F1(c, d, a), Add(X(block, 3), TAt(3)), 22, c);
    FourSteps(block, q, 0);
    assert Quad(a, b, c, d) == Steps(block, q, 4);
    a := Mixed(a, F1(b, c, d), Add(X(block, 4), TAt(4)), 7, b);
    d := Mixed(d, F1(a, b, c), Add(X(block, 5), TAt(5)), 12, a);
    c := Mixed(c, F1(d, a, b), Add(X(block, 6), TAt(6)), 17, d);
    b := Mixed(b, F1(c, d, a), Add(X(block, 7), TAt(7)), 22, c);
    FourSteps(block, q, 4);
    assert Quad(a, b, c, d) == Steps(block, q, 8);
    a := Mixed(a, F1(b, c, d), Add(X(block, 8), TAt(8)), 7, b);
    d := Mixed(d, F1(a, b, c), Add(X(block, 9), TAt(9)), 12, a);
    c := Mixed(c, F1(d, a, b), Add(X(block, 10), TAt(10)), 17, d);
    b := Mixed(b, F1(c, d, a), Add(X(block, 11), TAt(11)), 22, c);
    FourSteps(block, q, 8);
    assert Quad(a, b, c, d) == Steps(block, q, 12);
    a := Mixed(a, F1(b, c, d), Add(X(block, 12), TAt(12)), 7, b);
    d := Mixed(d, F1(a, b, c), Add(X(block, 13), TAt(13)), 12, a);
    c := Mixed(c, F1(d, a, b), Add(X(block, 14), TAt(14)), 17, d);
    b := Mixed(b, F1(c, d, a), Add(X(block, 15), TAt(15)), 22, c);
    FourSteps(block, q, 12);
    assert Quad(a, b, c, d) == Steps(block, q, 16);
    r := Quad(a, b, c, d);
  }

  method Round2(block: seq<byte>, ghost q: Quad, p: Quad) returns (r: Quad)
    requires p == Steps(block, q, 16)
    ensures r == Steps(block, q, 32)
  {
    hide Steps;
    hide Index;
    hide Shift;
    hide G;
    hide F2;
    hide X;
    hide Mixed;
    hide Add;
    hide TAt;
    Table2();
    var a, b, c, d := p.a, p.b, p.c, p.d;
    a := Mixed(a, F2(b, c, d), Add(X(block, 1), TAt(16)), 5, b);
    d := Mixed(d, F2(a, b, c), Add(X(block, 6), TAt(17)), 9, a);
    c := Mixed(c, F2(d, a, b), Add(X(block, 11), TAt(18)), 14, d);
    b := Mixed(b, F2(c, d, a), Add(X(block, 0), TAt(19)), 20, c);
    FourSteps(block, q, 16);
    assert Quad(a, b, c, d) == Steps(block, q, 20);
    a := Mixed(a, F2(b, c, d), Add(X(block, 5), TAt(20)), 5, b);
    d := Mixed(d, F2(a, b, c), Add(X(block, 10), TAt(21)), 9, a);
    c := Mixed(c, F2(d, a, b), Add(X(block, 15), TAt(22)), 14, d);
    b := Mixed(b, F2(c, d, a), Add(X(block, 4), TAt(23)), 20, c);
    FourSteps(block, q, 20);
    assert Quad(a, b, c, d) == Steps(block, q, 24);
    a := Mixed(a, F2(b, c, d), Add(X(block, 9), TAt(24)), 5, b);
    d := Mixed(d, F2(a, b, c), Add(X(block, 14), TAt(25)), 9, a);
    c := Mixed(c, F2(d, a, b), Add(X(block, 3), TAt(26)), 14, d);
    b := Mixed(b, F2(c, d, a), Add(X(block, 8), TAt(27)), 20, c);
    FourSteps(block, q, 24);
    assert Quad(a, b, c, d) == Steps(block, q, 28);
    a := Mixed(a, F2(b, c, d), Add(X(block, 13), TAt(28)), 5, b);
    d := Mixed(d, F2(a, b, c), Add(X(block, 2), TAt(29)), 9, a);
    c := Mixed(c, F2(d, a, b), Add(X(block, 7), TAt(30)), 14, d);
    b := Mixed(b, F2(c, d, a), Add(X(block, 12), TAt(31)), 20, c);
    FourSteps(block, q, 28);
    assert Quad(a, b, c, d) == Steps(block, q, 32);
    r := Quad(a, b, c, d);
  }

  method Round3(block: seq<byte>, ghost q: Quad, p: Quad) returns (r: Quad)
    requires p == Steps(block, q, 32)
    ensures r == Steps(block, q, 48)
  {
    hide Steps;
    hide Index;
    hide Shift;
    hide H;
    hide F3;
    hide X;
    hide Mixed;
    hide Add;
    hide TAt;
    Table3();
    var a, b, c, d := p.a, p.b, p.c, p.d;
    a := Mixed(a, F3(b, c, d), Add(X(block, 5), TAt(32)), 4, b);
    d := Mixed(d, F3(a, b, c), Add(X(block, 8), TAt(33)), 11, a);
    c := Mixed(c, F3(d, a, b), Add(X(block, 11), TAt(34)), 16, d);
    b := Mixed(b, F3(c, d, a), Add(X(block, 14), TAt(35)), 23, c);
    FourSteps(block, q, 32);
    assert Quad(a, b, c, d) == Steps(block, q, 36);
    a := Mixed(a, F3(b, c, d), Add(X(block, 1), TAt(36)), 4, b);
    d := Mixed(d, F3(a, b, c), Add(X(block, 4), TAt(37)), 11, a);
    c := Mixed(c, F3(d, a, b), Add(X(block, 7), TAt(38)), 16, d);
    b := Mixed(b, F3(c, d, a), Add(X(block, 10), TAt(39)), 23, c);
    FourSteps(block, q, 36);
    assert Quad(a, b, c, d) == Steps(block, q, 40);
    a := Mixed(a, F3(b, c, d), Add(X(block, 13), TAt(40)), 4, b);
    d := Mixed(d, F3(a, b, c), Add(X(block, 0), TAt(41)), 11, a);
    c := Mixed(c, F3(d, a, b), Add(X(block, 3), TAt(42)), 16, d);
    b := Mixed(b, F3(c, d, a), Add(X(block, 6), TAt(43)), 23, c);
    FourSteps(block, q, 40);
    assert Quad(a, b, c, d) == Steps(block, q, 44);
    a := Mixed(a, F3(b, c, d), Add(X(block, 9), TAt(44)), 4, b);
    d := Mixed(d, F3(a, b, c), Add(X(block, 12), TAt(45)), 11, a);
    c := Mixed(c, F3(d, a, b), Add(X(block, 15), TAt(46)), 16, d);
    b := Mixed(b, F3(c, d, a), Add(X(block, 2), TAt(47)), 23, c);
    FourSteps(block, q, 44);
    assert Quad(a, b, c, d) == Steps(block, q, 48);
    r := Quad(a, b, c, d);
  }

  method Round4(block: seq<byte>, ghost q: Quad, p: Quad) returns (r: Quad)
    requires p == Steps(block, q, 48)
    ensures r == Steps(block, q, 64)
  {
    hide Steps;
    hide Index;
    hide Shift;
    hide I;
    hide F4;
    hide X;
    hide Mixed;
    hide Add;
    hide TAt;
    Table4();
    var a, b, c, d := p.a, p.b, p.c, p.d;
    a := Mixed(a, F4(b, c, d), Add(X(block, 0), TAt(48)), 6, b);
    d := Mixed(d, F4(a, b, c), Add(X(block, 7), TAt(49)), 10, a);
    c := Mixed(c, F4(d, a, b), Add(X(block, 14), TAt(50)), 15, d);
    b := Mixed(b, F4(c, d, a), Add(X(block, 5), TAt(51)), 21, c);
    FourSteps(block, q, 48);
    assert Quad(a, b, c, d) == Steps(block, q, 52);
    a := Mixed(a, F4(b, c, d), Add(X(block, 12), TAt(52)), 6, b);
    d := Mixed(d, F4(a, b, c), Add(X(block, 3), TAt(53)), 10, a);
    c := Mixed(c, F4(d, a, b), Add(X(block, 10), TAt(54)), 15, d);
    b := Mixed(b, F4(c, d, a), Add(X(block, 1), TAt(55)), 21, c);
    FourSteps(block, q, 52);
    assert Quad(a, b, c, d) == Steps(block, q, 56);
    a := Mixed(a, F4(b, c, d), Add(X(block, 8), TAt(56)), 6, b);
    d := Mixed(d, F4(a, b, c), Add(X(block, 15), TAt(57)), 10, a);
    c := Mixed(c, F4(d, a, b), Add(X(block, 6), TAt(58)), 15, d);
    b := Mixed(b, F4(c, d, a), Add(X(block, 13), TAt(59)), 21, c);
    FourSteps(block, q, 56);
    assert Quad(a, b, c, d) == Steps(block, q, 60);
    a := Mixed(a, F4(b, c, d), Add(X(block, 4), TAt(60)), 6, b);
    d := Mixed(d, F4(a, b, c), Add(X(block, 11), TAt(61)), 10, a);
    c := Mixed(c, F4(d, a, b), Add(X(block, 2), TAt(62)), 15, d);
    b := Mixed(b, F4(c, d, a), Add(X(block, 9), TAt(63)), 21, c);
    FourSteps(block, q, 60);
    assert Quad(a, b, c, d) == Steps(block, q, 64);
    r := Quad(a, b, c, d);
  }

  method Transform(state: Quad, block: seq<byte>) returns (r: Quad)
    ensures r == Compress(state, block)
  {
    hide Steps;
    hide Add;
    r := Round1(block, state, StepsStart(block, state));
    r := Round2(block, state, r);
    r := Round3(block, state, r);
    r := Round4(block, state, r);
    r := Quad(Add(state.a, r.a), Add(state.b, r.b), Add(state.c, r.c), Add(state.d, r.d));
  }

  function StepsStart(block: seq<byte>, q: Quad): (p: Quad)
    ensures p == Steps(block, q, 0)
  {
    q
  }
}
