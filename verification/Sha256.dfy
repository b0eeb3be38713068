/** The compression function of SHA-256, section 6.2 of FIPS 180-2, and the loops that compute it. */
module Sha256 {
  import opened Octet
  import opened Bytes
  import opened BlockHash
  import ShaContext

  type Word = bv32

  const ROUNDS: nat := 64
  const BLOCK: nat := 64

  datatype Value = Value(a: Word, b: Word, c: Word, d: Word, e: Word, f: Word, g: Word, h: Word)

  const H0: Value := Value(0x6A09E667, 0xBB67AE85, 0x3C6EF372, 0xA54FF53A,
                          0x510E527F, 0x9B05688C, 0x1F83D9AB, 0x5BE0CD19)

  /** The entry `t` of a row of eight. */
  function Of(t: nat, k0: Word, k1: Word, k2: Word, k3: Word, k4: Word, k5: Word, k6: Word, k7: Word): Word {
    if t == 0 then k0 else if t == 1 then k1 else if t == 2 then k2 else if t == 3 then k3
    else if t == 4 then k4 else if t == 5 then k5 else if t == 6 then k6 else k7
  }

  /** The constants of the rounds. */
  function K(t: nat): Word
    requires t < ROUNDS
  {
    if t < 8 then
      Of(t, 0x428a2f98, 0x71374491, 0xb5c0fbcf, 0xe9b5dba5, 0x3956c25b, 0x59f111f1, 0x923f82a4, 0xab1c5ed5)
    else if t < 16 then
      Of(t - 8, 0xd807aa98, 0x12835b01, 0x243185be, 0x550c7dc3, 0x72be5d74, 0x80deb1fe, 0x9bdc06a7, 0xc19bf174)
    else if t < 24 then
      Of(t - 16, 0xe49b69c1, 0xefbe4786, 0x0fc19dc6, 0x240ca1cc, 0x2de92c6f, 0x4a7484aa, 0x5cb0a9dc, 0x76f988da)
    else if t < 32 then
      Of(t - 24, 0x983e5152, 0xa831c66d, 0xb00327c8, 0xbf597fc7, 0xc6e00bf3, 0xd5a79147, 0x06ca6351, 0x14292967)
    else if t < 40 then
      Of(t - 32, 0x27b70a85, 0x2e1b2138, 0x4d2c6dfc, 0x53380d13, 0x650a7354, 0x766a0abb, 0x81c2c92e, 0x92722c85)
    else if t < 48 then
      Of(t - 40, 0xa2bfe8a1, 0xa81a664b, 0xc24b8b70, 0xc76c51a3, 0xd192e819, 0xd6990624, 0xf40e3585, 0x106aa070)
    else if t < 56 then
      Of(t - 48, 0x19a4c116, 0x1e376c08, 0x2748774c, 0x34b0bcb5, 0x391c0cb3, 0x4ed8aa4a, 0x5b9cca4f, 0x682e6ff3)
    else 
      Of(t - 56, 0x748f82ee, 0x78a5636f, 0x84c87814, 0x8cc70208, 0x90befffa, 0xa4506ceb, 0xbef9a3f7, 0xc67178f2)
  }

  function Rotr(x: Word, n: nat): Word
    requires 0 < n < 32
  {
    (x >> n) | (x << (32 - n))
  }

  function UpperSigma0(x: Word): Word {
    Rotr(x, 2) ^ Rotr(x, 13) ^ Rotr(x, 22)
  }

  function UpperSigma1(x: Word): Word {
    Rotr(x, 6) ^ Rotr(x, 11) ^ Rotr(x, 25)
  }

  function LowerSigma0(x: Word): Word {
    Rotr(x, 7) ^ Rotr(x, 18) ^ (x >> 3)
  }

  function LowerSigma1(x: Word): Word {
    Rotr(x, 17) ^ Rotr(x, 19) ^ (x >> 10)
  }

  function Ch(x: Word, y: Word, z: Word): Word {
    (x & y) ^ (!x & z)
  }

  function Maj(x: Word, y: Word, z: Word): Word {
    ((x & y) ^ (x & z)) ^ (y & z)
  }

  function At(block: seq<byte>, i: nat): byte {
    if i < |block| then block[i] else 0
  }

  function WordAt(block: seq<byte>, t: nat): Word {
    ((At(block, 4 * t + 0) as Word) << 24) | ((At(block, 4 * t + 1) as Word) << 16) | ((At(block, 4 * t + 2) as Word) << 8) | (At(block, 4 * t + 3) as Word)
  }

  function Extend(w2: Word, w7: Word, w15: Word, w16: Word): Word {
    LowerSigma1(w2) + w7 + LowerSigma0(w15) + w16
  }

  /** Word `t` of the message schedule. */
  function Schedule(block: seq<byte>, t: nat): Word {
    if t < 16 then WordAt(block, t)
    else Extend(Schedule(block, t - 2), Schedule(block, t - 7), Schedule(block, t - 15), Schedule(block, t - 16))
  }

  function Temp1(v: Value, k: Word, w: Word): Word {
    v.h + UpperSigma1(v.e) + Ch(v.e, v.f, v.g) + k + w
  }

  function Temp2(v: Value): Word {
    UpperSigma0(v.a) + Maj(v.a, v.b, v.c)
  }

  function Add(x: Word, y: Word): Word {
    x + y
  }

  function Round(v: Value, k: Word, w: Word): Value {
    Value(Add(Temp1(v, k, w), Temp2(v)), v.a, v.b, v.c, Add(v.d, Temp1(v, k, w)), v.e, v.f, v.g)
  }

  /** The working variables after `n` rounds. */
  function Rounds(block: seq<byte>, v: Value, n: nat): Value
    requires n <= ROUNDS
  {
    if n == 0 then v else Round(Rounds(block, v, n - 1), K(n - 1), Schedule(block, n - 1))
  }

  function Sum(x: Value, y: Value): Value {
    Value(Add(x.a, y.a), Add(x.b, y.b), Add(x.c, y.c), Add(x.d, y.d), Add(x.e, y.e), Add(x.f, y.f), Add(x.g, y.g), Add(x.h, y.h))
  }

  function Compress(v: Value, block: seq<byte>): Value {
    Sum(v, Rounds(block, v, ROUNDS))
  }

  function Low(x: Word): byte {
    (x & 0xff) as byte
  }

  function WordOctets(x: Word): (r: seq<byte>)
    ensures |r| == 4
  {
    [Low(x >> 24), Low(x >> 16), Low(x >> 8), Low(x)]
  }

  /** The digest: the words of the hash value, most significant octet first. */
  function Octets(v: Value): (r: seq<byte>)
    ensures |r| == 32
  {
    WordOctets(v.a) + WordOctets(v.b) + WordOctets(v.c) + WordOctets(v.d) +
    WordOctets(v.e) + WordOctets(v.f) + WordOctets(v.g) + WordOctets(v.h)
  }

  const PARAMS: ShaContext.Params<Value> := ShaContext.Params(BLOCK, 4, H0, Compress, Octets)

  function Digest(msg: seq<byte>): (r: seq<byte>)
    ensures |r| == 32
  {
    Octets(Hash(Compress, BLOCK, H0, msg, 0x80, Big(8 * |msg|, 8)))
  }

  // ---- the loops --------------------------------------------------------------------------------------

  function ValueOf(h: seq<Word>): Value
    requires |h| == 8
  {
    Value(h[0], h[1], h[2], h[3], h[4], h[5], h[6], h[7])
  }

  lemma {:induction false} ScheduleStep(block: seq<byte>, t: nat)
    ensures t < 16 ==> Schedule(block, t) == WordAt(block, t)
    ensures t >= 16 ==>
              Schedule(block, t) == Extend(Schedule(block, t - 2), Schedule(block, t - 7), Schedule(block, t - 15), Schedule(block, t - 16))
  {
    hide WordAt;
    hide Extend;
  }

  method PrepareSchedule(block: seq<byte>, w: array<Word>)
    requires |block| == BLOCK && w.Length == ROUNDS
    modifies w
    ensures forall k :: 0 <= k < ROUNDS ==> w[k] == Schedule(block, k)
  {
    hide K;
    hide WordAt;
    hide Extend;
    hide LowerSigma0;
    hide LowerSigma1;
    hide Schedule;
    var t := 0;
    while t < 16
      invariant 0 <= t <= 16
      invariant forall k :: 0 <= k < t ==> w[k] == Schedule(block, k)
    {
      ScheduleStep(block, t);
      w[t] := WordAt(block, t);
      t := t + 1;
    }
    while t < ROUNDS
      invariant 16 <= t <= ROUNDS
      invariant forall k :: 0 <= k < t ==> w[k] == Schedule(block, k)
    {
      ScheduleStep(block, t);
      w[t] := Extend(w[t - 2], w[t - 7], w[t - 15], w[t - 16]);
      t := t + 1;
    }
  }

  /** The rounds, on eight working variables. */
  method RunRounds(ghost block: seq<byte>, w: array<Word>, start: Value) returns (v: Value)
    requires w.Length == ROUNDS && forall k :: 0 <= k < ROUNDS ==> w[k] == Schedule(block, k)
    ensures v == Rounds(block, start, ROUNDS)
  {
    hide Schedule;
    hide Temp1;
    hide Temp2;
    hide Add;
    hide K;
    var a, b, c, d, e, f, g, h := start.a, start.b, start.c, start.d, start.e, start.f, start.g, start.h;
    var t := 0;
    while t < ROUNDS
      invariant 0 <= t <= ROUNDS && Value(a, b, c, d, e, f, g, h) == Rounds(block, start, t)
    {
      var temp1 := Temp1(Value(a, b, c, d, e, f, g, h), K(t), w[t]);
      var temp2 := Temp2(Value(a, b, c, d, e, f, g, h));
      h := g;
      g := f;
      f := e;
      e := Add(d, temp1);
      d := c;
      c := b;
      b := a;
      a := Add(temp1, temp2);
      t := t + 1;
    }
    v := Value(a, b, c, d, e, f, g, h);
  }

  method AddTo(hash: array<Word>, v: Value)
    requires hash.Length == 8
    modifies hash
    ensures ValueOf(hash[..]) == Sum(ValueOf(old(hash[..])), v)
  {
    hide Add;
    hash[0] := Add(hash[0], v.a);
    hash[1] := Add(hash[1], v.b);
    hash[2] := Add(hash[2], v.c);
    hash[3] := Add(hash[3], v.d);
    hash[4] := Add(hash[4], v.e);
    hash[5] := Add(hash[5], v.f);
    hash[6] := Add(hash[6], v.g);
    hash[7] := Add(hash[7], v.h);
  }

  /** Hash one block into the intermediate hash, eight words in place. */
  method ProcessMessageBlock(block: seq<byte>, hash: array<Word>)
    requires |block| == BLOCK && hash.Length == 8
    modifies hash
    ensures ValueOf(hash[..]) == Compress(ValueOf(old(hash[..])), block)
  {
    hide Schedule;
    hide Rounds;
    hide Sum;
    hide K;
    var w := new Word[ROUNDS];
    PrepareSchedule(block, w);
    var v := RunRounds(block, w, ValueOf(hash[..]));
    AddTo(hash, v);
  }
}
