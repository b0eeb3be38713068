/** Where the constants of the hashes come from: sections 4.2.2, 4.2.3 and 5.3 of FIPS 180-2. */
module HashConstants {
  import Sha256
  import Sha512

  const W32: nat := 0x1_0000_0000
  const W64: nat := 0x1_0000_0000_0000_0000

  function Of(i: nat, p0: nat, p1: nat, p2: nat, p3: nat, p4: nat, p5: nat, p6: nat, p7: nat): nat {
    if i == 0 then p0 else if i == 1 then p1 else if i == 2 then p2 else if i == 3 then p3
    else if i == 4 then p4 else if i == 5 then p5 else if i == 6 then p6 else p7
  }

  /** The first eighty primes. */
  function Prime(i: nat): nat
    requires i < 80
  {
    if i < 8 then Of(i, 2, 3, 5, 7, 11, 13, 17, 19)
    else if i < 16 then Of(i - 8, 23, 29, 31, 37, 41, 43, 47, 53)
    else if i < 24 then Of(i - 16, 59, 61, 67, 71, 73, 79, 83, 89)
    else if i < 32 then Of(i - 24, 97, 101, 103, 107, 109, 113, 127, 131)
    else if i < 40 then Of(i - 32, 137, 139, 149, 151, 157, 163, 167, 173)
    else if i < 48 then Of(i - 40, 179, 181, 191, 193, 197, 199, 211, 223)
    else if i < 56 then Of(i - 48, 227, 229, 233, 239, 241, 251, 257, 263)
    else if i < 64 then Of(i - 56, 269, 271, 277, 281, 283, 293, 307, 311)
    else if i < 72 then Of(i - 64, 313, 317, 331, 337, 347, 349, 353, 359)
    else Of(i - 72, 367, 373, 379, 383, 389, 397, 401, 409)
  }

  function WholeCubeRoot(p: nat): nat {
    if p < 8 then 1 else if p < 27 then 2 else if p < 64 then 3 else if p < 125 then 4 else if p < 216 then 5
    else if p < 343 then 6 else 7
  }

  function WholeSquareRoot(p: nat): nat {
    if p < 4 then 1 else if p < 9 then 2 else if p < 16 then 3 else 4
  }

  /** `k` is the fraction of the cube root of `p`, counted in parts of which `unit` make one, and rounded down. */
  predicate CubeRootFraction(k: nat, p: nat, unit: nat) {
    var n := WholeCubeRoot(p) * unit + k;
    k < unit && n * n * n <= p * unit * unit * unit < (n + 1) * (n + 1) * (n + 1)
  }

  /** The same for the square root. */
  predicate SquareRootFraction(k: nat, p: nat, unit: nat) {
    var n := WholeSquareRoot(p) * unit + k;
    k < unit && n * n <= p * unit * unit < (n + 1) * (n + 1)
  }

  /** The constants of the rounds are the first 32 bits of the fractions of the cube roots of the first 64 primes. */
  lemma {:induction false} Sha256Rounds(i: nat)
    requires i < 64
    ensures CubeRootFraction(Sha256.K(i) as nat, Prime(i), W32)
  {
    hide CubeRootFraction;
    hide Sha256.K;
    hide Prime;
    if i < 8 { Sha256Row0(i); }
    else if i < 16 { Sha256Row1(i); }
    else if i < 24 { Sha256Row2(i); }
    else if i < 32 { Sha256Row3(i); }
    else if i < 40 { Sha256Row4(i); }
    else if i < 48 { Sha256Row5(i); }
    else if i < 56 { Sha256Row6(i); }
    else { Sha256Row7(i); }
  }

  lemma {:induction false} Sha256Row0(i: nat)
    requires 0 <= i < 8
    ensures CubeRootFraction(Sha256.K(i) as nat, Prime(i), W32)
  {
  }

  lemma {:induction false} Sha256Row1(i: nat)
    requires 8 <= i < 16
    ensures CubeRootFraction(Sha256.K(i) as nat, Prime(i), W32)
  {
  }

  lemma {:induction false} Sha256Row2(i: nat)
    requires 16 <= i < 24
    ensures CubeRootFraction(Sha256.K(i) as nat, Prime(i), W32)
  {
  }

  lemma {:induction false} Sha256Row3(i: nat)
    requires 24 <= i < 32
    ensures CubeRootFraction(Sha256.K(i) as nat, Prime(i), W32)
  {
  }

  lemma {:induction false} Sha256Row4(i: nat)
    requires 32 <= i < 40
    ensures CubeRootFraction(Sha256.K(i) as nat, Prime(i), W32)
  {
  }

  lemma {:induction false} Sha256Row5(i: nat)
    requires 40 <= i < 48
    ensures CubeRootFraction(Sha256.K(i) as nat, Prime(i), W32)
  {
  }

  lemma {:induction false} Sha256Row6(i: nat)
    requires 48 <= i < 56
    ensures CubeRootFraction(Sha256.K(i) as nat, Prime(i), W32)
  {
  }

  lemma {:induction false} Sha256Row7(i: nat)
    requires 56 <= i < 64
    ensures CubeRootFraction(Sha256.K(i) as nat, Prime(i), W32)
  {
  }

  /** Of SHA-512: the first 64 bits, for the first 80 primes. */
  lemma {:induction false} Sha512Rounds(i: nat)
    requires i < 80
    ensures CubeRootFraction(Sha512.K(i) as nat, Prime(i), W64)
  {
    hide CubeRootFraction;
    hide Sha512.K;
    hide Prime;
    if i < 8 { Sha512Row0(i); }
    else if i < 16 { Sha512Row1(i); }
    else if i < 24 { Sha512Row2(i); }
    else if i < 32 { Sha512Row3(i); }
    else if i < 40 { Sha512Row4(i); }
    else if i < 48 { Sha512Row5(i); }
    else if i < 56 { Sha512Row6(i); }
    else if i < 64 { Sha512Row7(i); }
    else if i < 72 { Sha512Row8(i); }
    else { Sha512Row9(i); }
  }

  lemma {:induction false} Sha512Row0(i: nat)
    requires 0 <= i < 8
    ensures CubeRootFraction(Sha512.K(i) as nat, Prime(i), W64)
  {
  }

  lemma {:induction false} Sha512Row1(i: nat)
    requires 8 <= i < 16
    ensures CubeRootFraction(Sha512.K(i) as nat, Prime(i), W64)
  {
  }

  lemma {:induction false} Sha512Row2(i: nat)
    requires 16 <= i < 24
    ensures CubeRootFraction(Sha512.K(i) as nat, Prime(i), W64)
  {
  }

  lemma {:induction false} Sha512Row3(i: nat)
    requires 24 <= i < 32
    ensures CubeRootFraction(Sha512.K(i) as nat, Prime(i), W64)
  {
  }

  lemma {:induction false} Sha512Row4(i: nat)
    requires 32 <= i < 40
    ensures CubeRootFraction(Sha512.K(i) as nat, Prime(i), W64)
  {
  }

  lemma {:induction false} Sha512Row5(i: nat)
    requires 40 <= i < 48
    ensures CubeRootFraction(Sha512.K(i) as nat, Prime(i), W64)
  {
  }

  lemma {:induction false} Sha512Row6(i: nat)
    requires 48 <= i < 56
    ensures CubeRootFraction(Sha512.K(i) as nat, Prime(i), W64)
  {
  }

  lemma {:induction false} Sha512Row7(i: nat)
    requires 56 <= i < 64
    ensures CubeRootFraction(Sha512.K(i) as nat, Prime(i), W64)
  {
  }

  lemma {:induction false} Sha512Row8(i: nat)
    requires 64 <= i < 72
    ensures CubeRootFraction(Sha512.K(i) as nat, Prime(i), W64)
  {
  }

  lemma {:induction false} Sha512Row9(i: nat)
    requires 72 <= i < 80
    ensures CubeRootFraction(Sha512.K(i) as nat, Prime(i), W64)
  {
  }

  /** The first hash values are the same for the square roots of the first eight primes. */
  lemma {:induction false} Sha256Start()
    ensures var h := Sha256.H0;
            SquareRootFraction(h.a as nat, 2, W32) &&
            SquareRootFraction(h.b as nat, 3, W32) &&
            SquareRootFraction(h.c as nat, 5, W32) &&
            SquareRootFraction(h.d as nat, 7, W32) &&
            SquareRootFraction(h.e as nat, 11, W32) &&
            SquareRootFraction(h.f as nat, 13, W32) &&
            SquareRootFraction(h.g as nat, 17, W32) &&
            SquareRootFraction(h.h as nat, 19, W32)
  {
  }

  lemma {:induction false} Sha512Start()
    ensures var h := Sha512.H0;
            SquareRootFraction(h.a as nat, 2, W64) &&
            SquareRootFraction(h.b as nat, 3, W64) &&
            SquareRootFraction(h.c as nat, 5, W64) &&
            SquareRootFraction(h.d as nat, 7, W64) &&
            SquareRootFraction(h.e as nat, 11, W64) &&
            SquareRootFraction(h.f as nat, 13, W64) &&
            SquareRootFraction(h.g as nat, 17, W64) &&
            SquareRootFraction(h.h as nat, 19, W64)
  {
  }
}
