/** The functions of the hashes, as section 4.1 of FIPS 180-2 describes them: rotations, a choice, a majority. */
module HashFunctions {
  import Sha256
  import Sha512

  function Parity32(a: bv32, b: bv32, c: bv32): bv32 {
    a ^ b ^ c
  }

  /** Each is the parity of three rotations, or of two and a shift. */
  lemma {:induction false} Sha256Sigmas(x: bv32)
    ensures Sha256.UpperSigma0(x) == Parity32(x.RotateRight(2), x.RotateRight(13), x.RotateRight(22))
    ensures Sha256.UpperSigma1(x) == Parity32(x.RotateRight(6), x.RotateRight(11), x.RotateRight(25))
    ensures Sha256.LowerSigma0(x) == Parity32(x.RotateRight(7), x.RotateRight(18), x >> 3)
    ensures Sha256.LowerSigma1(x) == Parity32(x.RotateRight(17), x.RotateRight(19), x >> 10)
  {
    hide Parity32;
    hide Sha256.UpperSigma0;
    hide Sha256.UpperSigma1;
    hide Sha256.LowerSigma0;
    hide Sha256.LowerSigma1;
    Sha256Rotations(x);
    hide Sha256.Rotr;
    Sha256Parts(x);
  }

  lemma {:induction false} Sha256Rotations(x: bv32)
    ensures Sha256.Rotr(x, 2) == x.RotateRight(2) && Sha256.Rotr(x, 13) == x.RotateRight(13) && Sha256.Rotr(x, 22) == x.RotateRight(22)
    ensures Sha256.Rotr(x, 6) == x.RotateRight(6) && Sha256.Rotr(x, 11) == x.RotateRight(11) && Sha256.Rotr(x, 25) == x.RotateRight(25)
    ensures Sha256.Rotr(x, 7) == x.RotateRight(7) && Sha256.Rotr(x, 18) == x.RotateRight(18) && Sha256.Rotr(x, 17) == x.RotateRight(17)
    ensures Sha256.Rotr(x, 19) == x.RotateRight(19)
  {
  }

  lemma {:induction false} Sha256Parts(x: bv32)
    ensures Sha256.UpperSigma0(x) == Parity32(Sha256.Rotr(x, 2), Sha256.Rotr(x, 13), Sha256.Rotr(x, 22))
    ensures Sha256.UpperSigma1(x) == Parity32(Sha256.Rotr(x, 6), Sha256.Rotr(x, 11), Sha256.Rotr(x, 25))
    ensures Sha256.LowerSigma0(x) == Parity32(Sha256.Rotr(x, 7), Sha256.Rotr(x, 18), x >> 3)
    ensures Sha256.LowerSigma1(x) == Parity32(Sha256.Rotr(x, 17), Sha256.Rotr(x, 19), x >> 10)
  {
    hide Sha256.Rotr;
  }

  /** Where `x` has a one the choice is `y`, elsewhere `z`; the majority has a bit that two of the three have. */
  lemma {:induction false} Sha256Choice(x: bv32, y: bv32, z: bv32)
    ensures Sha256.Ch(x, y, z) & x == y & x && Sha256.Ch(x, y, z) & !x == z & !x
    ensures Sha256.Maj(x, y, z) == (x & y) | (x & z) | (y & z)
  {
    Sha256Taken(x, y, z);
    Sha256Passed(x, y, z);
    Sha256Majority(x, y, z);
    hide Sha256.Ch;
    hide Sha256.Maj;
  }

  lemma {:induction false} Sha256Taken(x: bv32, y: bv32, z: bv32)
    ensures Sha256.Ch(x, y, z) & x == y & x
  {
  }

  lemma {:induction false} Sha256Passed(x: bv32, y: bv32, z: bv32)
    ensures Sha256.Ch(x, y, z) & !x == z & !x
  {
  }

  lemma {:induction false} Sha256Majority(x: bv32, y: bv32, z: bv32)
    ensures Sha256.Maj(x, y, z) == (x & y) | (x & z) | (y & z)
  {
  }

  function Parity64(a: bv64, b: bv64, c: bv64): bv64 {
    a ^ b ^ c
  }

  lemma {:induction false} Sha512Sigmas(x: bv64)
    ensures Sha512.UpperSigma0(x) == Parity64(x.RotateRight(28), x.RotateRight(34), x.RotateRight(39))
    ensures Sha512.UpperSigma1(x) == Parity64(x.RotateRight(14), x.RotateRight(18), x.RotateRight(41))
    ensures Sha512.LowerSigma0(x) == Parity64(x.RotateRight(1), x.RotateRight(8), x >> 7)
    ensures Sha512.LowerSigma1(x) == Parity64(x.RotateRight(19), x.RotateRight(61), x >> 6)
  {
    hide Parity64;
    hide Sha512.UpperSigma0;
    hide Sha512.UpperSigma1;
    hide Sha512.LowerSigma0;
    hide Sha512.LowerSigma1;
    Sha512Rotations(x);
    hide Sha512.Rotr;
    Sha512Parts(x);
  }

  lemma {:induction false} Sha512Rotations(x: bv64)
    ensures Sha512.Rotr(x, 28) == x.RotateRight(28) && Sha512.Rotr(x, 34) == x.RotateRight(34) && Sha512.Rotr(x, 39) == x.RotateRight(39)
    ensures Sha512.Rotr(x, 14) == x.RotateRight(14) && Sha512.Rotr(x, 18) == x.RotateRight(18) && Sha512.Rotr(x, 41) == x.RotateRight(41)
    ensures Sha512.Rotr(x, 1) == x.RotateRight(1) && Sha512.Rotr(x, 8) == x.RotateRight(8) && Sha512.Rotr(x, 19) == x.RotateRight(19)
    ensures Sha512.Rotr(x, 61) == x.RotateRight(61)
  {
  }

  lemma {:induction false} Sha512Parts(x: bv64)
    ensures Sha512.UpperSigma0(x) == Parity64(Sha512.Rotr(x, 28), Sha512.Rotr(x, 34), Sha512.Rotr(x, 39))
    ensures Sha512.UpperSigma1(x) == Parity64(Sha512.Rotr(x, 14), Sha512.Rotr(x, 18), Sha512.Rotr(x, 41))
    ensures Sha512.LowerSigma0(x) == Parity64(Sha512.Rotr(x, 1), Sha512.Rotr(x, 8), x >> 7)
    ensures Sha512.LowerSigma1(x) == Parity64(Sha512.Rotr(x, 19), Sha512.Rotr(x, 61), x >> 6)
  {
    hide Sha512.Rotr;
  }

  lemma {:induction false} Sha512Choice(x: bv64, y: bv64, z: bv64)
    ensures Sha512.Ch(x, y, z) & x == y & x && Sha512.Ch(x, y, z) & !x == z & !x
    ensures Sha512.Maj(x, y, z) == (x & y) | (x & z) | (y & z)
  {
    Sha512Taken(x, y, z);
    Sha512Passed(x, y, z);
    Sha512Majority(x, y, z);
    hide Sha512.Ch;
    hide Sha512.Maj;
  }

  lemma {:induction false} Sha512Taken(x: bv64, y: bv64, z: bv64)
    ensures Sha512.Ch(x, y, z) & x == y & x
  {
  }

  lemma {:induction false} Sha512Passed(x: bv64, y: bv64, z: bv64)
    ensures Sha512.Ch(x, y, z) & !x == z & !x
  {
  }

  lemma {:induction false} Sha512Majority(x: bv64, y: bv64, z: bv64)
    ensures Sha512.Maj(x, y, z) == (x & y) | (x & z) | (y & z)
  {
  }
}
