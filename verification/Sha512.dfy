/** The compression function of SHA-512, section 6.3 of FIPS 180-2, and the loops that compute it. */
module Sha512 {
  import opened Octet
  import opened Bytes
  import opened BlockHash
  import ShaContext

  type Word = bv64

  const ROUNDS: nat := 80
  const BLOCK: nat := 128

  datatype Value = Value(a: Word, b: Word, c: Word, d: Word, e: Word, f: Word, g: Word, h: Word)

  const H0: Value := Value(0x6A09E667F3BCC908, 0xBB67AE8584CAA73B, 0x3C6EF372FE94F82B, 0xA54FF53A5F1D36F1,
                          0x510E527FADE682D1, 0x9B05688C2B3E6C1F, 0x1F83D9ABFB41BD6B, 0x5BE0CD19137E2179)

  /** The entry `t` of a row of eight. */
  function Of(t: nat, k0: Word, k1: Word, k2: Word, k3: Word, k4: Word, k5: Word, k6: Word, k7: Word): Word {
    if t == 0 then k0 else if t == 1 then k1 else if t == 2 then k2 else if t == 3 then k3
    else if t == 4 then k4 else if t == 5 then k5 else if t == 6 then k6 else k7
  }

  /** The constants of the rounds. */
  function K(t: nat): Word
    requires t < ROUNDS
  {
    if t < 8 then
      Of(t, 0x428A2F98D728AE22, 0x7137449123EF65CD, 0xB5C0FBCFEC4D3B2F, 0xE9B5DBA58189DBBC,
         0x3956C25BF348B538, 0x59F111F1B605D019, 0x923F82A4AF194F9B, 0xAB1C5ED5DA6D8118)
    else if t < 16 then
      Of(t - 8, 0xD807AA98A3030242, 0x12835B0145706FBE, 0x243185BE4EE4B28C, 0x550C7DC3D5FFB4E2,
         0x72BE5D74F27B896F, 0x80DEB1FE3B1696B1, 0x9BDC06A725C71235, 0xC19BF174CF692694)
    else if t < 24 then
      Of(t - 16, 0xE49B69C19EF14AD2, 0xEFBE4786384F25E3, 0x0FC19DC68B8CD5B5, 0x240CA1CC77AC9C65,
         0x2DE92C6F592B0275, 0x4A7484AA6EA6E483, 0x5CB0A9DCBD41FBD4, 0x76F988DA831153B5)
    else if t < 32 then
      Of(t - 24, 0x983E5152EE66DFAB, 0xA831C66D2DB43210, 0xB00327C898FB213F, 0xBF597FC7BEEF0EE4,
         0xC6E00BF33DA88FC2, 0xD5A79147930AA725, 0x06CA6351E003826F, 0x142929670A0E6E70)
    else if t < 40 then
      Of(t - 32, 0x27B70A8546D22FFC, 0x2E1B21385C26C926, 0x4D2C6DFC5AC42AED, 0x53380D139D95B3DF,
         0x650A73548BAF63DE, 0x766A0ABB3C77B2A8, 0x81C2C92E47EDAEE6, 0x92722C851482353B)
    else if t < 48 then
      Of(t - 40, 0xA2BFE8A14CF10364, 0xA81A664BBC423001, 0xC24B8B70D0F89791, 0xC76C51A30654BE30,
         0xD192E819D6EF5218, 0xD69906245565A910, 0xF40E35855771202A, 0x106AA07032BBD1B8)
    else if t < 56 then
      Of(t - 48, 0x19A4C116B8D2D0C8, 0x1E376C085141AB53, 0x2748774CDF8EEB99, 0x34B0BCB5E19B48A8,
         0x391C0CB3C5C95A63, 0x4ED8AA4AE3418ACB, 0x5B9CCA4F7763E373, 0x682E6FF3D6B2B8A3)
    else if t < 64 then
      Of(t - 56, 0x748F82EE5DEFB2FC, 0x78A5636F43172F60, 0x84C87814A1F0AB72, 0x8CC702081A6439EC,
         0x90BEFFFA23631E28, 0xA4506CEBDE82BDE9, 0xBEF9A3F7B2C67915, 0xC67178F2E372532B)
    else if t < 72 then
      Of(t - 64, 0xCA273ECEEA26619C, 0xD186B8C721C0C207, 0xEADA7DD6CDE0EB1E, 0xF57D4F7FEE6ED178,
         0x06F067AA72176FBA, 0x0A637DC5A2C898A6, 0x113F9804BEF90DAE, 0x1B710B35131C471B)
    else 
      Of(t - 72, 0x28DB77F523047D84, 0x32CAAB7B40C72493, 0x3C9EBE0A15C9BEBC, 0x431D67C49C100D4C,
         0x4CC5D4BECB3E42B6, 0x597F299CFC657E2A, 0x5FCB6FAB3AD6FAEC, 0x6C44198C4A475817)
  }

  function Rotr(x: Word, n: nat): Word
    requires 0 < n < 64
  {
    (x >> n) | (x << (64 - n))
  }

  function UpperSigma0(x: Word): Word {
    Rotr(x, 28) ^ Rotr(x, 34) ^ Rotr(x, 39)
  }

  function UpperSigma1(x: Word): Word {
    Rotr(x, 14) ^ Rotr(x, 18) ^ Rotr(x, 41)
  }

  function LowerSigma0(x: Word): Word {
    Rotr(x, 1) ^ Rotr(x, 8) ^ (x >> 7)
  }

  function LowerSigma1(x: Word): Word {
    Rotr(x, 19) ^ Rotr(x, 61) ^ (x >> 6)
  }

  function Ch(x: Word, y: Word, z: Word): Word {
    (x & y) ^ (!x & z)
  }

  function Maj(x: Word, y: Word, z: Word): Word {
    ((x & y) ^ (x & z)) ^ (y & z)
  }

  function At(block: seq<byte>, i: nat): byte {
    if i < |block| then block[i] else 0
  }

  function WordAt(block: seq<byte>, t: nat): Word {
    ((At(block, 8 * t + 0) as Word) << 56) | ((At(block, 8 * t + 1) as Word) << 48) |
    ((At(block, 8 * t + 2) as Word) << 40) | ((At(block, 8 * t + 3) as Word) << 32) |
    ((At(block, 8 * t + 4) as Word) << 24) | ((At(block, 8 * t + 5) as Word) << 16) |
    ((At(block, 8 * t + 6) as Word) << 8) | (At(block, 8 * t + 7) as Word)
  }

  function Extend(w2: Word, w7: Word, w15: Word, w16: Word): Word {
    LowerSigma1(w2) + w7 + LowerSigma0(w15) + w16
  }

  /** Word `t` of the message schedule. */
  function Schedule(block: seq<byte>, t: nat): Word {
    if t < 16 then WordAt(block, t)
    else Extend(Schedule(block, t - 2), Schedule(block, t - 7), Schedule(block, t - 15), Schedule(block, t - 16))
  }

  function Temp1(v: Value, k: Word, w: Word): Word {
    v.h + UpperSigma1(v.e) + Ch(v.e, v.f, v.g) + k + w
  }

  function Temp2(v: Value): Word {
    UpperSigma0(v.a) + Maj(v.a, v.b, v.c)
  }

  function Add(x: Word, y: Word): Word {
    x + y
  }

  function Round(v: Value, k: Word, w: Word): Value {
    Value(Add(Temp1(v, k, w), Temp2(v)), v.a, v.b, v.c, Add(v.d, Temp1(v, k, w)), v.e, v.f, v.g)
  }

  /** The working variables after `n` rounds. */
  function Rounds(block: seq<byte>, v: Value, n: nat): Value
    requires n <= ROUNDS
  {
    if n == 0 then v else Round(Rounds(block, v, n - 1), K(n - 1), Schedule(block, n - 1))
  }

  function Sum(x: Value, y: Value): Value {
    Value(Add(x.a, y.a), Add(x.b, y.b), Add(x.c, y.c), Add(x.d, y.d), Add(x.e, y.e), Add(x.f, y.f), Add(x.g, y.g), Add(x.h, y.h))
  }

  function Compress(v: Value, block: seq<byte>): Value {
    Sum(v, Rounds(block, v, ROUNDS))
  }

  function Low(x: Word): byte {
    (x & 0xff) as byte
  }

  function WordOctets(x: Word): (r: seq<byte>)
    ensures |r| == 8
  {
    [Low(x >> 56), Low(x >> 48), Low(x >> 40), Low(x >> 32), Low(x >> 24), Low(x >> 16), Low(x >> 8), Low(x)]
  }

  /** The digest: the words of the hash value, most significant octet first. */
  function Octets(v: Value): (r: seq<byte>)
    ensures |r| == 64
  {
    WordOctets(v.a) + WordOctets(v.b) + WordOctets(v.c) + WordOctets(v.d) +
    WordOctets(v.e) + WordOctets(v.f) + WordOctets(v.g) + WordOctets(v.h)
  }

  const PARAMS: ShaContext.Params<Value> := ShaContext.Params(BLOCK, 8, H0, Compress, Octets)

  function Digest(msg: seq<byte>): (r: seq<byte>)
    ensures |r| == 64
  {
    Octets(Hash(Compress, BLOCK, H0, msg, 0x80, Big(8 * |msg|, 16)))
  }

  // ---- the loops --------------------------------------------------------------------------------------

  function ValueOf(h: seq<Word>): Value
    requires |h| == 8
  {
    Value(h[0], h[1], h[2], h[3], h[4], h[5], h[6], h[7])
  }

  lemma {:induction false} ScheduleStep(block: seq<byte>, t: nat)
    ensures t < 16 ==> Schedule(block, t) == WordAt(block, t)
    ensures t >= 16 ==>
              Schedule(block, t) == Extend(Schedule(block, t - 2), Schedule(block, t - 7), Schedule(block, t - 15), Schedule(block, t - 16))
  {
    hide WordAt;
    hide Extend;
  }

  method PrepareSchedule(block: seq<byte>, w: array<Word>)
    requires |block| == BLOCK && w.Length == ROUNDS
    modifies w
    ensures forall k :: 0 <= k < ROUNDS ==> w[k] == Schedule(block, k)
  {
    hide K;
    hide WordAt;
    hide Extend;
    hide LowerSigma0;
    hide LowerSigma1;
    hide Schedule;
    var t := 0;
    while t < 16
      invariant 0 <= t <= 16
      invariant forall k :: 0 <= k < t ==> w[k] == Schedule(block, k)
    {
      ScheduleStep(block, t);
      w[t] := WordAt(block, t);
      t := t + 1;
    }
    while t < ROUNDS
      invariant 16 <= t <= ROUNDS
      invariant forall k :: 0 <= k < t ==> w[k] == Schedule(block, k)
    {
      ScheduleStep(block, t);
      w[t] := Extend(w[t - 2], w[t - 7], w[t - 15], w[t - 16]);
      t := t + 1;
    }
  }

  /** The rounds, on eight working variables. */
  method RunRounds(ghost block: seq<byte>, w: array<Word>, start: Value) returns (v: Value)
    requires w.Length == ROUNDS && forall k :: 0 <= k < ROUNDS ==> w[k] == Schedule(block, k)
    ensures v == Rounds(block, start, ROUNDS)
  {
    hide Schedule;
    hide Temp1;
    hide Temp2;
    hide Add;
    hide K;
    var a, b, c, d, e, f, g, h := start.a, start.b, start.c, start.d, start.e, start.f, start.g, start.h;
    var t := 0;
    while t < ROUNDS
      invariant 0 <= t <= ROUNDS && Value(a, b, c, d, e, f, g, h) == Rounds(block, start, t)
    {
      var temp1 := Temp1(Value(a, b, c, d, e, f, g, h), K(t), w[t]);
      var temp2 := Temp2(Value(a, b, c, d, e, f, g, h));
      h := g;
      g := f;
      f := e;
      e := Add(d, temp1);
      d := c;
      c := b;
      b := a;
      a := Add(temp1, temp2);
      t := t + 1;
    }
    v := Value(a, b, c, d, e, f, g, h);
  }

  method AddTo(hash: array<Word>, v: Value)
    requires hash.Length == 8
    modifies hash
    ensures ValueOf(hash[..]) == Sum(ValueOf(old(hash[..])), v)
  {
    hide Add;
    hash[0] := Add(hash[0], v.a);
    hash[1] := Add(hash[1], v.b);
    hash[2] := Add(hash[2], v.c);
    hash[3] := Add(hash[3], v.d);
    hash[4] := Add(hash[4], v.e);
    hash[5] := Add(hash[5], v.f);
    hash[6] := Add(hash[6], v.g);
    hash[7] := Add(hash[7], v.h);
  }

  /** Hash one block into the intermediate hash, eight words in place. */
  method ProcessMessageBlock(block: seq<byte>, hash: array<Word>)
    requires |block| == BLOCK && hash.Length == 8
    modifies hash
    ensures ValueOf(hash[..]) == Compress(ValueOf(old(hash[..])), block)
  {
    hide Schedule;
    hide Rounds;
    hide Sum;
    hide K;
    var w := new Word[ROUNDS];
    PrepareSchedule(block, w);
    var v := RunRounds(block, w, ValueOf(hash[..]));
    AddTo(hash, v);
  }
}
