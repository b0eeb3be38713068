/** Octets are bit vectors; this module holds the one fact relating them to integers. */
module Octet {
  type byte = bv8

  lemma {:induction false} ByteOfNat(n: nat)
    requires n < 256
    ensures (n as bv8) as nat == n
  {
    if n < 16 {} else if n < 32 {} else if n < 64 {} else if n < 128 {} else {}
  }
}

/** Octets, fixed-width integers laid out as octets, and the result of a partial operation. */
module Bytes {
  import opened Octet
  import opened Sequences

  /** Failure-compatible: `None` is an early error return. */
  datatype Option<+T> = None | Some(value: T) {
    predicate IsFailure() { None? }

    function PropagateFailure<U>(): Option<U>
      requires None?
    {
      None
    }

    function Extract(): T
      requires Some?
    {
      value
    }
  }

  /** `n` is an unsigned integer of `size` octets. */
  predicate FitsIn(n: nat, size: nat) {
    if size == 0 then n == 0 else FitsIn(n / 256, size - 1)
  }

  lemma {:induction false} FitsInBounds(n: nat)
    ensures n < 0x100 ==> FitsIn(n, 1)
    ensures n < 0x1_0000 ==> FitsIn(n, 2)
    ensures n < 0x1_0000_0000 ==> FitsIn(n, 4)
  {
    assert n / 256 / 256 == n / 0x1_0000;
    assert n / 256 / 256 / 256 == n / 0x100_0000;
    assert n / 256 / 256 / 256 / 256 == n / 0x1_0000_0000;
    assert FitsIn(n / 256 / 256 / 256, 1) <==> n / 256 / 256 / 256 / 256 == 0;
    assert FitsIn(n / 256 / 256, 2) <==> FitsIn(n / 256 / 256 / 256, 1);
  }

  lemma {:induction false} FitsIn8(n: nat)
    requires n < 0x1_0000_0000_0000_0000
    ensures FitsIn(n, 8)
  {
    var h := n / 256 / 256 / 256 / 256;
    assert h < 0x1_0000_0000;
    FitsInBounds(h);
    assert FitsIn(n / 256 / 256, 6) <==> FitsIn(n / 256 / 256 / 256, 5);
    assert FitsIn(n / 256 / 256 / 256, 5) <==> FitsIn(h, 4);
  }

  /** The `size` low octets of `n`, least significant first. */
  function Little(n: nat, size: nat): (s: seq<byte>)
    ensures |s| == size
  {
    if size == 0 then [] else [(n % 256) as byte] + Little(n / 256, size - 1)
  }

  function LittleValue(s: seq<byte>): nat {
    if s == [] then 0 else s[0] as nat + 256 * LittleValue(s[1..])
  }

  /** The `size` low octets of `n`, most significant first. */
  function Big(n: nat, size: nat): (s: seq<byte>)
    ensures |s| == size
  {
    if size == 0 then [] else Big(n / 256, size - 1) + [(n % 256) as byte]
  }

  function BigValue(s: seq<byte>): nat {
    if s == [] then 0 else 256 * BigValue(s[..|s| - 1]) + s[|s| - 1] as nat
  }

  lemma {:induction false} LittleInverts(n: nat, size: nat)
    requires FitsIn(n, size)
    ensures LittleValue(Little(n, size)) == n
  {
    if size > 0 {
      ByteOfNat(n % 256);
      LittleInverts(n / 256, size - 1);
      assert Little(n, size)[1..] == Little(n / 256, size - 1);
    }
  }

  lemma {:induction false} BigInverts(n: nat, size: nat)
    requires FitsIn(n, size)
    ensures BigValue(Big(n, size)) == n
  {
    if size > 0 {
      ByteOfNat(n % 256);
      BigInverts(n / 256, size - 1);
      assert Big(n, size)[..size - 1] == Big(n / 256, size - 1);
    }
  }

  /** `a` and `b` hold the same octets from `lo` up to `hi`. */
  predicate Same(a: seq<byte>, b: seq<byte>, lo: nat, hi: nat)
    decreases hi
  {
    hi <= lo || (hi <= |a| && hi <= |b| && a[hi - 1] == b[hi - 1] && Same(a, b, lo, hi - 1))
  }

  lemma {:induction false} SameAt(a: seq<byte>, b: seq<byte>, lo: nat, hi: nat, i: nat)
    requires Same(a, b, lo, hi) && lo <= i < hi
    ensures i < |a| && i < |b| && a[i] == b[i]
    decreases hi
  {
    if i < hi - 1 {
      SameAt(a, b, lo, hi - 1, i);
    }
  }

  lemma {:induction false} SameIf(a: seq<byte>, b: seq<byte>, lo: nat, hi: nat)
    requires hi <= |a| && hi <= |b| && forall i :: lo <= i < hi ==> a[i] == b[i]
    ensures Same(a, b, lo, hi)
    decreases hi
  {
    if lo < hi {
      SameIf(a, b, lo, hi - 1);
    }
  }

  lemma {:induction false} SameSlice(a: seq<byte>, b: seq<byte>, lo: nat, hi: nat)
    requires Same(a, b, lo, hi) && lo <= hi <= |a| && hi <= |b|
    ensures a[lo..hi] == b[lo..hi]
  {
    forall i | lo <= i < hi ensures a[i] == b[i] {
      SameAt(a, b, lo, hi, i);
    }
  }

  lemma {:induction false} SamePart(a: seq<byte>, b: seq<byte>, lo: nat, hi: nat, lo2: nat, hi2: nat)
    requires Same(a, b, lo, hi) && lo <= lo2 && hi2 <= hi
    ensures Same(a, b, lo2, hi2)
    decreases hi
  {
    if lo2 < hi2 {
      if hi2 < hi {
        SamePart(a, b, lo, hi - 1, lo2, hi2);
      } else {
        SamePart(a, b, lo, hi - 1, lo2, hi2 - 1);
      }
    }
  }

  lemma {:induction false} SameTrans(a: seq<byte>, b: seq<byte>, c: seq<byte>, lo: nat, hi: nat)
    requires Same(a, b, lo, hi) && Same(b, c, lo, hi)
    ensures Same(a, c, lo, hi)
    decreases hi
  {
    if lo < hi {
      SameTrans(a, b, c, lo, hi - 1);
    }
  }

  lemma {:induction false} SameSelf(a: seq<byte>, lo: nat, hi: nat)
    requires hi <= |a|
    ensures Same(a, a, lo, hi)
    decreases hi
  {
    if lo < hi {
      SameSelf(a, lo, hi - 1);
    }
  }

  lemma {:induction false} SameSymmetric(a: seq<byte>, b: seq<byte>, lo: nat, hi: nat)
    requires Same(a, b, lo, hi)
    ensures Same(b, a, lo, hi)
    decreases hi
  {
    if lo < hi {
      SameSymmetric(a, b, lo, hi - 1);
    }
  }

  /** `buf` with `data` stored at `o`. */
  function Store(buf: seq<byte>, o: nat, data: seq<byte>): (r: seq<byte>)
    requires o + |data| <= |buf|
    ensures |r| == |buf|
    decreases |data|
  {
    if data == [] then buf else Store(buf[o := data[0]], o + 1, data[1..])
  }

  lemma {:induction false} StoreIs(buf: seq<byte>, o: nat, data: seq<byte>)
    requires o + |data| <= |buf|
    ensures Store(buf, o, data) == buf[..o] + data + buf[o + |data|..]
    decreases |data|
  {
    if data != [] {
      StoreIs(buf[o := data[0]], o + 1, data[1..]);
      assert data == [data[0]] + data[1..];
    } else {
      assert buf == buf[..o] + data + buf[o..];
    }
  }

  lemma {:induction false} StoreJoin(buf: seq<byte>, o: nat, a: seq<byte>, b: seq<byte>)
    requires o + |a| + |b| <= |buf|
    ensures Store(Store(buf, o, a), o + |a|, b) == Store(buf, o, a + b)
  {
    StoreIs(buf, o, a);
    StoreIs(Store(buf, o, a), o + |a|, b);
    StoreIs(buf, o, a + b);
    var r := Store(buf, o, a);
    assert r[..o + |a|] == buf[..o] + a;
    assert r[o + |a| + |b|..] == buf[o + |a| + |b|..];
  }

  /** The copy loops and `memcpy` calls that store octets in place. */
  method Blit(buf: array<byte>, o: nat, octets: seq<byte>)
    requires o + |octets| <= buf.Length
    modifies buf
    ensures buf[..] == Store(old(buf[..]), o, octets)
  {
    StoreIs(buf[..], o, octets);
    forall i | 0 <= i < |octets| {
      buf[o + i] := octets[i];
    }
    assert buf[..] == old(buf[..])[..o] + octets + old(buf[..])[o + |octets|..];
  }

  lemma {:induction false} StoreKeeps(buf: seq<byte>, o: nat, data: seq<byte>)
    requires o + |data| <= |buf|
    ensures var r := Store(buf, o, data);
            r[o..o + |data|] == data && Same(buf, r, 0, o) && Same(buf, r, o + |data|, |buf|)
  {
    StoreIs(buf, o, data);
    SameIf(buf, Store(buf, o, data), 0, o);
    SameIf(buf, Store(buf, o, data), o + |data|, |buf|);
  }

  /** `b` with the `n` octets at `src` copied to `dst`. */
  function Moved(b: seq<byte>, dst: nat, src: nat, n: nat): seq<byte>
    requires dst + n <= |b| && src + n <= |b|
  {
    b[..dst] + b[src..src + n] + b[dst + n..]
  }

  lemma {:induction false} MovedIs(b: seq<byte>, dst: nat, src: nat, n: nat, r: seq<byte>)
    requires dst + n <= |b| && src + n <= |b| == |r|
    requires forall k :: dst <= k < dst + n ==> r[k] == b[k - dst + src]
    requires forall k :: 0 <= k < |b| && !(dst <= k < dst + n) ==> r[k] == b[k]
    ensures r == Moved(b, dst, src, n)
  {
  }

  /** Copy between overlapping places of one buffer: upwards or downwards, so that no octet is
      overwritten before it is read. */
  method Memmove(buf: array<byte>, dst: nat, src: nat, n: nat)
    requires dst + n <= buf.Length && src + n <= buf.Length
    modifies buf
    ensures buf[..] == Moved(old(buf[..]), dst, src, n)
  {
    if dst <= src {
      MoveUp(buf, dst, src, n);
    } else {
      MoveDown(buf, dst, src, n);
    }
  }

  method MoveUp(buf: array<byte>, dst: nat, src: nat, n: nat)
    requires dst <= src && src + n <= buf.Length
    modifies buf
    ensures buf[..] == Moved(old(buf[..]), dst, src, n)
  {
    var i := 0;
    while i < n
      invariant 0 <= i <= n
      invariant forall k :: dst <= k < dst + i ==> buf[k] == old(buf[k - dst + src])
      invariant forall k :: 0 <= k < buf.Length && !(dst <= k < dst + i) ==> buf[k] == old(buf[k])
    {
      buf[dst + i] := buf[src + i];
      i := i + 1;
    }
    MovedIs(old(buf[..]), dst, src, n, buf[..]);
  }

  method MoveDown(buf: array<byte>, dst: nat, src: nat, n: nat)
    requires src <= dst && dst + n <= buf.Length
    modifies buf
    ensures buf[..] == Moved(old(buf[..]), dst, src, n)
  {
    var i := n;
    while i > 0
      invariant 0 <= i <= n
      invariant forall k :: dst + i <= k < dst + n ==> buf[k] == old(buf[k - dst + src])
      invariant forall k :: 0 <= k < buf.Length && !(dst + i <= k < dst + n) ==> buf[k] == old(buf[k])
    {
      i := i - 1;
      buf[dst + i] := buf[src + i];
    }
    MovedIs(old(buf[..]), dst, src, n, buf[..]);
  }

  function Zeros(n: nat): (r: seq<byte>)
    ensures |r| == n
  {
    if n == 0 then [] else [0] + Zeros(n - 1)
  }

  lemma {:induction false} ZerosPush(n: nat)
    ensures Zeros(n) + [0] == Zeros(n + 1)
  {
    if n > 0 {
      ZerosPush(n - 1);
      assert ([0] + Zeros(n - 1)) + [0] == [0] + (Zeros(n - 1) + [0]);
    } else {
      assert [] + [0] == [0] + [];
    }
  }

  lemma {:induction false} ZerosAt(n: nat, k: nat)
    requires k < n
    ensures Zeros(n)[k] == 0
  {
    if k > 0 {
      ZerosAt(n - 1, k - 1);
    }
  }

  lemma {:induction false} ZerosTail(n: nat, k: nat)
    requires k <= n
    ensures Zeros(n)[k..] == Zeros(n - k)
  {
    if k > 0 {
      ZerosTail(n - 1, k - 1);
    }
  }

  method Memset(buf: array<byte>)
    modifies buf
    ensures buf[..] == Zeros(buf.Length)
  {
    var i := 0;
    while i < buf.Length
      invariant 0 <= i <= buf.Length && buf[..i] == Zeros(i)
    {
      buf[i] := 0;
      ZerosPush(i);
      i := i + 1;
    }
    assert buf[..] == buf[..i];
  }

  // ---- UTF-16 code units, little-endian ---------------------------------------------------------------

  predicate CodeUnits(units: seq<nat>) {
    units == [] || (units[0] < 0x1_0000 && CodeUnits(units[1..]))
  }

  /** The code units of a C string: none is NUL. */
  predicate ValidText(units: seq<nat>) {
    units == [] || (0 < units[0] < 0x1_0000 && ValidText(units[1..]))
  }

  lemma {:induction false} ValidIsCodeUnits(units: seq<nat>)
    requires ValidText(units)
    ensures CodeUnits(units)
  {
    if units != [] {
      ValidIsCodeUnits(units[1..]);
    }
  }

  function LittleUnit(buf: seq<byte>, off: nat): nat
    requires off + 2 <= |buf|
  {
    buf[off] as nat + 256 * buf[off + 1] as nat
  }

  /** `n` code units from `off` on; `off` need not be even. */
  function LittleUnits(buf: seq<byte>, off: nat, n: nat): (r: seq<nat>)
    requires off + 2 * n <= |buf|
    ensures |r| == n
    decreases n
  {
    if n == 0 then [] else [LittleUnit(buf, off)] + LittleUnits(buf, off + 2, n - 1)
  }

  function LittleOctets(units: seq<nat>): (r: seq<byte>)
    ensures |r| == 2 * |units|
  {
    if units == [] then [] else Little(units[0], 2) + LittleOctets(units[1..])
  }

  lemma {:induction false} LittlePair(u: nat)
    requires u < 0x1_0000
    ensures Little(u, 2)[0] as nat + 256 * Little(u, 2)[1] as nat == u
  {
    LittleOfTwo(u);
    ByteOfNat(u % 256);
    ByteOfNat(u / 256);
  }

  lemma {:induction false} LittleOfTwo(u: nat)
    requires u < 0x1_0000
    ensures Little(u, 2) == [(u % 256) as byte, (u / 256) as byte]
  {
    assert Little(u / 256 / 256, 0) == [];
    assert Little(u / 256, 1) == [(u / 256) as byte];
  }

  lemma {:induction false} HeadPair(b: seq<byte>, off: nat, n: nat, head: seq<byte>, rest: seq<byte>)
    requires off + n <= |b| && |head| == 2 && n == 2 + |rest| && b[off..off + n] == head + rest
    ensures b[off] == head[0] && b[off + 1] == head[1] && b[off + 2..off + n] == rest
  {
    var d := b[off..off + n];
    assert d[0] == head[0] && d[1] == head[1];
    SliceOfSlice(b, off, off + n, 2, n);
    EndOf(head, rest);
  }

  lemma {:induction false} UnitIs(b: seq<byte>, off: nat, u: nat)
    requires off + 2 <= |b| && u < 0x1_0000 && b[off] == Little(u, 2)[0] && b[off + 1] == Little(u, 2)[1]
    ensures LittleUnit(b, off) == u
  {
    LittlePair(u);
    hide Little;
  }

  lemma {:induction false} UnitsRead(b: seq<byte>, off: nat, units: seq<nat>)
    requires off + 2 * |units| <= |b| && CodeUnits(units) && b[off..off + 2 * |units|] == LittleOctets(units)
    ensures LittleUnits(b, off, |units|) == units
    decreases |units|
  {
    if units != [] {
      hide Little;
      hide LittleUnit;
      HeadPair(b, off, 2 * |units|, Little(units[0], 2), LittleOctets(units[1..]));
      UnitIs(b, off, units[0]);
      UnitsRead(b, off + 2, units[1..]);
    }
  }

  /** A buffer and the offset reached in it. */
  datatype Wire = Wire(buf: seq<byte>, off: nat)
}
