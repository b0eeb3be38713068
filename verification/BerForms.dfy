/** What lengths and identifiers look like on the wire: sections 8.1.3 and 8.19 of X.690. */
module BerForms {
  import opened Octet
  import opened Bytes
  import opened Sequences
  import opened BerSpec

  /** The number that octets denote, the first one weighing most, in the base `base`. */
  function Denoted(digits: seq<nat>, base: nat, high: nat): nat {
    if digits == [] then high else Denoted(digits[1..], base, high * base + digits[0])
  }

  lemma {:induction false} DenotedPush(digits: seq<nat>, d: nat, base: nat, high: nat)
    ensures Denoted(digits + [d], base, high) == Denoted(digits, base, high) * base + d
    decreases |digits|
  {
    if digits == [] {
      assert ([] + [d])[1..] == [];
    } else {
      TailOfJoined(digits, [d]);
      DenotedPush(digits[1..], d, base, high * base + digits[0]);
    }
  }

  function Numbers(s: seq<byte>): (r: seq<nat>)
    ensures |r| == |s|
  {
    if s == [] then [] else Numbers(s[..|s| - 1]) + [s[|s| - 1] as nat]
  }

  /** The low seven bits of each octet. */
  function Sevens(s: seq<byte>): (r: seq<nat>)
    ensures |r| == |s|
  {
    if s == [] then [] else Sevens(s[..|s| - 1]) + [s[|s| - 1] as nat % 128]
  }

  lemma {:induction false} BigDenotes(n: nat, size: nat)
    requires FitsIn(n, size)
    ensures Denoted(Numbers(Big(n, size)), 256, 0) == n
  {
    if size > 0 {
      var head, last := Big(n / 256, size - 1), (n % 256) as byte;
      assert Big(n, size) == head + [last] && (head + [last])[..size - 1] == head;
      ByteOfNat(n % 256);
      BigDenotes(n / 256, size - 1);
      DenotedPush(Numbers(head), n % 256, 256, 0);
    }
  }

  /** A length below 128 is one octet. Any other is the number of octets that follow, with the high bit, and then
      the length itself, most significant octet first and none of them too many. */
  lemma {:induction false} LengthForm(n: nat)
    requires n < WORD
    ensures var l := Length(n);
            if n < 128 then l == [n as byte]
            else |l| > 1 && l[0] as nat == 128 + (|l| - 1) && l[1] != 0 && Denoted(Numbers(l[1..]), 256, 0) == n
  {
    if n >= 128 {
      WordOctets(n);
      OctetsFit(n);
      BigDenotes(n, Octets(n));
      ByteOfNat(128 + Octets(n));
      FirstNotZero(n);
      assert Length(n)[1..] == Big(n, Octets(n));
    }
  }

  lemma {:induction false} FirstNotZero(n: nat)
    requires n > 0
    ensures Big(n, Octets(n))[0] != 0
  {
    if n < 256 {
      assert Octets(n) == 1 && Big(n, 1) == Big(0, 0) + [(n % 256) as byte];
      ByteOfNat(n);
    } else {
      FirstNotZero(n / 256);
      assert Big(n, Octets(n)) == Big(n / 256, Octets(n / 256)) + [(n % 256) as byte];
    }
  }

  /** All octets but the last have the high bit. */
  predicate Continued(s: seq<byte>) {
    s != [] && s[|s| - 1] as nat < 128 && Marks(s[..|s| - 1])
  }

  predicate Marks(s: seq<byte>) {
    s == [] || (s[|s| - 1] as nat >= 128 && Marks(s[..|s| - 1]))
  }

  /** An arc is written in groups of seven bits, the most significant first, and none of them is too many. */
  lemma {:induction false} ArcForm(n: nat)
    ensures Continued(Arc(n)) && Denoted(Sevens(Arc(n)), 128, 0) == n && (n >= 128 ==> Arc(n)[0] != 128)
  {
    hide ArcHigh;
    hide Marks;
    hide Denoted;
    hide Sevens;
    var head, last := if n < 128 then [] else ArcHigh(n / 128), (n % 128) as byte;
    LastGroup(n);
    NoMarks();
    assert (head + [last])[..|head|] == head;
    if n >= 128 {
      HighForm(n / 128);
    }
    GroupPush(head, last, n);
  }

  lemma {:induction false} NoMarks()
    ensures Marks([]) && Denoted(Sevens([]), 128, 0) == 0
  {
  }

  lemma {:induction false} LastGroup(n: nat)
    ensures ((n % 128) as byte) as nat == n % 128 && (n < 128 ==> n / 128 == 0)
  {
    ByteOfNat(n % 128);
  }

  lemma {:induction false} GroupPush(head: seq<byte>, last: byte, n: nat)
    requires Denoted(Sevens(head), 128, 0) == n / 128 && last as nat % 128 == n % 128
    ensures Denoted(Sevens(head + [last]), 128, 0) == n
  {
    assert (head + [last])[..|head|] == head;
    DenotedPush(Sevens(head), n % 128, 128, 0);
  }

  lemma {:induction false} HighForm(n: nat)
    requires n > 0
    ensures var a := ArcHigh(n); a != [] && Marks(a) && Denoted(Sevens(a), 128, 0) == n && a[0] != 128
  {
    hide Denoted;
    hide Sevens;
    var head, last := if n < 128 then [] else ArcHigh(n / 128), (128 + n % 128) as byte;
    MarkedGroup(n);
    NoMarks();
    LastGroup(n);
    assert ArcHigh(n) == head + [last] && (head + [last])[..|head|] == head;
    if n >= 128 {
      HighForm(n / 128);
    }
    GroupPush(head, last, n);
  }

  lemma {:induction false} MarkedGroup(n: nat)
    ensures ((128 + n % 128) as byte) as nat == 128 + n % 128 && (128 + n % 128) % 128 == n % 128
  {
    ByteOfNat(128 + n % 128);
  }

  lemma {:induction false} ArcsOf(n: nat, rest: seq<nat>)
    requires n < 128
    ensures Arcs([n] + rest) == [n as byte] + Arcs(rest)
  {
    assert ([n] + rest)[1..] == rest;
  }

  /** The identifier of SPNEGO as it is known: the first two arcs share an octet. */
  lemma {:induction false} SpnegoIdentifier()
    ensures OidBody([1, 3, 6, 1, 5, 5, 2]) == [0x2b, 0x06, 0x01, 0x05, 0x05, 0x02]
  {
    hide Arc;
    hide Arcs;
    var e := [1, 3, 6, 1, 5, 5, 2];
    ArcIsPlain(43);
    NoArcs();
    ArcsOf(2, []);
    ArcsOf(5, [2]);
    ArcsOf(5, [5, 2]);
    ArcsOf(1, [5, 5, 2]);
    ArcsOf(6, [1, 5, 5, 2]);
    assert e[2..] == [6] + [1, 5, 5, 2] && [1] + [5, 5, 2] == [1, 5, 5, 2] && [5] + [5, 2] == [5, 5, 2] && [5] + [2] == [5, 2] && [2] + [] == [2];
  }

  lemma {:induction false} NoArcs()
    ensures Arcs([]) == []
  {
  }

  lemma {:induction false} ArcIsPlain(n: nat)
    requires n < 128
    ensures Arc(n) == [n as byte]
  {
  }
}
