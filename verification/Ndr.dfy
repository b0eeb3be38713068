/** The data model of the DCE/RPC marshaller: the coders a caller composes, the value trees they
    marshal, and the two transfer syntaxes. A coder stands for a C function that calls the primitive
    coders in sequence. */
module Ndr {
  import opened Bytes

  const MAX_DEFERRED: nat := 1024

  datatype PtrKind = Ref | Unique

  /** One arm of a discriminated union; every arm the library uses is a unique pointer. */
  datatype Arm = Arm(tag: nat, target: Coder)

  datatype Coder =
    | U8
    | U16
    | U32
    | U3264
    | Utf16(nulTerminated: bool)
    | Pointer(kind: PtrKind, target: Coder)
    | Array(elem: Coder)
    | Union(arms: seq<Arm>)
    | Nothing
    | Then(first: Coder, rest: Coder)

  /** A text is the list of UTF-16 code units of a string. */
  datatype Value =
    | Num(n: nat)
    | Text(units: seq<nat>)
    | Null
    | Pointee(v: Value)
    | Items(elems: seq<Value>)
    | Tagged(tag: nat, arm: Value)
    | Unit
    | Both(first: Value, rest: Value)

  /** The negotiated transfer syntax and the integer byte order of the PDU header. */
  datatype Syntax = Syntax(ndr64: bool, little: bool)

  function WordSize(s: Syntax): nat {
    if s.ndr64 then 8 else 4
  }

  predicate IsAlignment(a: nat) {
    a == 1 || a == 2 || a == 4 || a == 8
  }

  /** The least multiple of `a` not below `off`, by subtraction: offsets are reasoned about without
      division. */
  function AlignUp(off: nat, a: nat): (r: nat)
    requires IsAlignment(a)
    ensures off <= r < off + a
  {
    if off == 0 then 0 else if off <= a then a else a + AlignUp(off - a, a)
  }

  /** The masking the C code does: add `a - 1`, clear the low bits. */
  lemma {:induction false} AlignUpRounds8(off: nat)
    ensures AlignUp(off, 8) == (off + 7) / 8 * 8
  {
    if off > 8 {
      AlignUpRounds8(off - 8);
      assert (off + 7) / 8 == (off - 8 + 7) / 8 + 1;
    }
  }

  lemma {:induction false} AlignUpRounds4(off: nat)
    ensures AlignUp(off, 4) == (off + 3) / 4 * 4
  {
    if off > 4 {
      AlignUpRounds4(off - 4);
      assert (off + 3) / 4 == (off - 4 + 3) / 4 + 1;
    }
  }

  /** Evenness by subtraction, which keeps division out of the proofs about offsets. */
  predicate Even(n: nat) {
    if n < 2 then n == 0 else Even(n - 2)
  }

  lemma {:induction false} EvenIsDivisible(n: nat)
    ensures Even(n) <==> n % 2 == 0
  {
    if n >= 2 {
      EvenIsDivisible(n - 2);
    }
  }

  lemma {:induction false} EvenPlusTwice(off: nat, n: nat)
    ensures Even(off + 2 * n) <==> Even(off)
  {
    if n > 0 {
      EvenPlusTwice(off, n - 1);
    }
  }

  /** An integer wider than an octet starts and ends at an even offset. */
  lemma {:induction false} AlignedIsEven(off: nat, a: nat)
    requires IsAlignment(a) && a != 1
    ensures Even(AlignUp(off, a)) && Even(AlignUp(off, a) + a)
  {
    EvenPlusTwice(0, a / 2);
    EvenPlusTwice(AlignUp(off, a), a / 2);
    if off > a {
      AlignedIsEven(off - a, a);
      EvenPlusTwice(AlignUp(off - a, a), a / 2);
    }
  }

  lemma {:induction false} EvenIsAligned(off: nat)
    requires Even(off)
    ensures AlignUp(off, 2) == off && Even(off + 2)
  {
    if off >= 2 {
      EvenIsAligned(off - 2);
    }
  }

  function Max(a: nat, b: nat): nat {
    if a < b then b else a
  }

  /** The coder of the first arm that carries `tag`. */
  function FindArm(arms: seq<Arm>, tag: nat): (r: Option<Coder>)
    ensures r.Some? ==> exists i :: 0 <= i < |arms| && arms[i].target == r.value
  {
    if arms == [] then None
    else if arms[0].tag == tag then Some(arms[0].target)
    else FindArm(arms[1..], tag)
  }

  function ArmCoder(c: Coder, tag: nat): (r: Option<Coder>)
    requires c.Union?
    ensures r.Some? ==> r.value < c
  {
    FindArm(c.arms, tag)
  }

  /** The values the C types of the coder can hold under syntax `s`. */
  predicate Typed(s: Syntax, c: Coder, v: Value)
    decreases c, 0
  {
    match c
    case U8 => v.Num? && v.n < 0x100
    case U16 => v.Num? && v.n < 0x1_0000
    case U32 => v.Num? && v.n < 0x1_0000_0000
    case U3264 => v.Num? && v.n < (if s.ndr64 then 0x1_0000_0000_0000_0000 else 0x1_0000_0000)
    case Utf16(_) => v.Text? && ValidText(v.units) && |v.units| + 1 < 0x1_0000_0000
    case Pointer(kind, t) => (v.Null? && kind == Unique) || (v.Pointee? && Typed(s, t, v.v))
    case Array(e) => v.Items? && |v.elems| < 0x1_0000_0000 && TypedAll(s, e, v.elems)
    case Union(arms) =>
      v.Tagged? && v.tag < 0x1_0000_0000 &&
      (v.arm.Null? || (v.arm.Pointee? && ArmCoder(c, v.tag).Some? && Typed(s, ArmCoder(c, v.tag).value, v.arm.v)))
    case Nothing => v.Unit?
    case Then(a, b) => v.Both? && Typed(s, a, v.first) && Typed(s, b, v.rest)
  }

  predicate TypedAll(s: Syntax, c: Coder, vs: seq<Value>)
    decreases c, 1, |vs|
  {
    vs == [] || (Typed(s, c, vs[0]) && TypedAll(s, c, vs[1..]))
  }

  /** The largest alignment met while visiting the value, at least `m`. An embedded pointer counts
      as its referent id; counts of arrays and strings do not count. */
  function MaxAlign(s: Syntax, c: Coder, v: Value, m: nat): (r: nat)
    requires Typed(s, c, v)
    requires IsAlignment(m)
    ensures m <= r && IsAlignment(r)
    decreases c, 0
  {
    match c
    case U8 => m
    case U16 => Max(m, 2)
    case U32 => Max(m, 4)
    case U3264 => Max(m, WordSize(s))
    case Utf16(_) => Max(m, 2)
    case Pointer(_, _) => Max(m, WordSize(s))
    case Array(e) => MaxAlignAll(s, e, v.elems, m)
    case Union(_) => Max(m, WordSize(s))
    case Nothing => m
    case Then(a, b) => MaxAlign(s, b, v.rest, MaxAlign(s, a, v.first, m))
  }

  function MaxAlignAll(s: Syntax, c: Coder, vs: seq<Value>, m: nat): (r: nat)
    requires TypedAll(s, c, vs)
    requires IsAlignment(m)
    ensures m <= r && IsAlignment(r)
    decreases c, 1, |vs|
  {
    if vs == [] then m else MaxAlignAll(s, c, vs[1..], MaxAlign(s, c, vs[0], m))
  }

  /** Counts are only written below a pointer, so no string or array stands at top level. */
  predicate TopLevel(c: Coder) {
    match c
    case Utf16(_) => false
    case Array(_) => false
    case Then(a, b) => TopLevel(a) && TopLevel(b)
    case _ => true
  }

  /** A pointee waiting in the PDU's queue. */
  datatype Job = Job(coder: Coder, value: Value)

  predicate AllTyped(s: Syntax, q: seq<Job>)
    decreases |q|
  {
    var n := |q|;
    n == 0 || (Typed(s, q[n - 1].coder, q[n - 1].value) && AllTyped(s, q[..n - 1]))
  }

  lemma {:induction false} AllTypedAt(s: Syntax, q: seq<Job>, k: nat)
    requires AllTyped(s, q) && k < |q|
    ensures Typed(s, q[k].coder, q[k].value)
    decreases |q|
  {
    if k < |q| - 1 {
      AllTypedAt(s, q[..|q| - 1], k);
    }
  }

  lemma {:induction false} AllTypedPush(s: Syntax, q: seq<Job>, j: Job)
    requires AllTyped(s, q) && Typed(s, j.coder, j.value)
    ensures AllTyped(s, q + [j])
  {
    assert (q + [j])[..|q|] == q;
  }
}
