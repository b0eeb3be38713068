/** One coder serves every visit of a value; what it does depends on the PDU's flags. This module
    states that dependence, and how the visit of a composite is made of the visits of its parts. */
module NdrVisit {
  import opened Bytes
  import opened Ndr
  import opened NdrEncode

  /** The conformance run, the data run below a pointer, and the single run at top level. */
  datatype Visit = Counting | Storing | AtTop

  /** What a coder reads and updates. The alignment has no meaning at top level, where it is 1. */
  datatype Pass = Pass(enc: Enc, align: nat)

  predicate Fit(s: Syntax, p: Pass) {
    Ready(s, p.enc.q) && IsAlignment(p.align)
  }

  function WithWire(w: Option<Wire>, p: Pass): Option<Pass> {
    if w.None? then None else Some(p.(enc := p.enc.(w := w.value)))
  }

  function WithEnc(e: Option<Enc>, align: nat): Option<Pass> {
    if e.None? then None else Some(Pass(e.value, align))
  }

  function Step(s: Syntax, visit: Visit, c: Coder, v: Value, p: Pass): (r: Option<Pass>)
    requires Typed(s, c, v) && (visit.AtTop? ==> TopLevel(c)) && Fit(s, p)
    ensures r.Some? ==> Fit(s, r.value)
  {
    match visit
    case Counting => WithWire(EncConf(s, c, v, p.enc.w), p.(align := MaxAlign(s, c, v, p.align)))
    case Storing => WithEnc(EncData(s, c, v, p.enc), p.align)
    case AtTop => WithEnc(EncTop(s, c, v, p.enc), p.align)
  }

  function StepInt(s: Syntax, visit: Visit, size: nat, n: nat, p: Pass): (r: Option<Pass>)
    requires IsAlignment(size) && Fit(s, p)
    ensures r.Some? ==> Fit(s, r.value)
  {
    if visit.Counting? then Some(p.(align := Max(p.align, size))) else WithEnc(PutInt(s, p.enc, size, n), p.align)
  }

  /** Counts are written on the first visit and do not raise the alignment. */
  function StepCount(s: Syntax, visit: Visit, n: nat, p: Pass): (r: Option<Pass>)
    requires Fit(s, p)
    ensures r.Some? ==> Fit(s, r.value)
  {
    if visit.Counting? then WithWire(Put(s, p.enc.w, WordSize(s), n), p) else Some(p)
  }

  function StepUnits(s: Syntax, units: seq<nat>, p: Pass): (r: Option<Pass>)
    requires Fit(s, p)
    ensures r.Some? ==> Fit(s, r.value)
  {
    WithWire(PutUnits(s, p.enc.w, units), p)
  }

  function StepPtr(s: Syntax, visit: Visit, kind: PtrKind, t: Coder, v: Value, p: Pass): (r: Option<Pass>)
    requires (v.Null? && kind == Unique) || (v.Pointee? && Typed(s, t, v.v))
    requires Fit(s, p)
    ensures r.Some? ==> Fit(s, r.value)
  {
    match visit
    case Counting => Some(p.(align := Max(p.align, WordSize(s))))
    case Storing => WithEnc(EncEmbedded(s, kind, t, v, p.enc), p.align)
    case AtTop => WithEnc(EncTopPtr(s, kind, t, v, p.enc), p.align)
  }

  function StepAll(s: Syntax, visit: Visit, c: Coder, vs: seq<Value>, p: Pass): (r: Option<Pass>)
    requires TypedAll(s, c, vs) && !visit.AtTop? && Fit(s, p)
    ensures r.Some? ==> Fit(s, r.value)
    decreases |vs|
  {
    if vs == [] then Some(p)
    else
      var p1 :- Step(s, visit, c, vs[0], p);
      StepAll(s, visit, c, vs[1..], p1)
  }

  lemma {:induction false} StepOfInt(s: Syntax, visit: Visit, c: Coder, v: Value, p: Pass)
    requires (c.U8? || c.U16? || c.U32? || c.U3264?) && Typed(s, c, v) && Fit(s, p)
    ensures Step(s, visit, c, v, p) ==
            StepInt(s, visit, if c.U8? then 1 else if c.U16? then 2 else if c.U32? then 4 else WordSize(s), v.n, p)
  {
  }

  lemma {:induction false} StepOfThen(s: Syntax, visit: Visit, a: Coder, b: Coder, v: Value, p: Pass)
    requires Typed(s, Then(a, b), v) && (visit.AtTop? ==> TopLevel(Then(a, b))) && Fit(s, p)
    ensures var p1 := Step(s, visit, a, v.first, p);
            Step(s, visit, Then(a, b), v, p) == if p1.None? then None else Step(s, visit, b, v.rest, p1.value)
  {
    var c := Then(a, b);
    if visit.Counting? {
      assert EncConf(s, c, v, p.enc.w) ==
        var w1 := EncConf(s, a, v.first, p.enc.w);
        if w1.None? then None else EncConf(s, b, v.rest, w1.value);
    } else if visit.Storing? {
      assert EncData(s, c, v, p.enc) ==
        var e1 := EncData(s, a, v.first, p.enc);
        if e1.None? then None else EncData(s, b, v.rest, e1.value);
    } else {
      assert EncTop(s, c, v, p.enc) ==
        var e1 := EncTop(s, a, v.first, p.enc);
        if e1.None? then None else EncTop(s, b, v.rest, e1.value);
    }
  }

  /** The tag, then the pointer of the arm it selects, if it selects one. */
  lemma {:induction false} StepOfUnion(s: Syntax, visit: Visit, c: Coder, v: Value, p: Pass)
    requires c.Union? && Typed(s, c, v) && Fit(s, p)
    ensures var p1 := StepInt(s, visit, WordSize(s), v.tag, p);
            var arm := ArmCoder(c, v.tag);
            Step(s, visit, c, v, p) ==
            if p1.None? || arm.None? then p1 else StepPtr(s, visit, Unique, arm.value, v.arm, p1.value)
  {
  }

  lemma {:induction false} StepAllCounting(s: Syntax, c: Coder, vs: seq<Value>, p: Pass)
    requires TypedAll(s, c, vs) && Fit(s, p)
    ensures StepAll(s, Counting, c, vs, p) ==
            WithWire(EncConfAll(s, c, vs, p.enc.w), p.(align := MaxAlignAll(s, c, vs, p.align)))
    decreases |vs|
  {
    if vs != [] {
      var p1 := Step(s, Counting, c, vs[0], p);
      if p1.Some? {
        StepAllCounting(s, c, vs[1..], p1.value);
      }
    }
  }

  lemma {:induction false} StepAllStoring(s: Syntax, c: Coder, vs: seq<Value>, p: Pass)
    requires TypedAll(s, c, vs) && Fit(s, p)
    ensures StepAll(s, Storing, c, vs, p) == WithEnc(EncDataAll(s, c, vs, p.enc), p.align)
    decreases |vs|
  {
    if vs != [] {
      var p1 := Step(s, Storing, c, vs[0], p);
      if p1.Some? {
        StepAllStoring(s, c, vs[1..], p1.value);
      }
    }
  }

  /** The count, then the elements. */
  lemma {:induction false} StepOfArray(s: Syntax, visit: Visit, elem: Coder, v: Value, p: Pass)
    requires Typed(s, Array(elem), v) && !visit.AtTop? && Fit(s, p)
    ensures var p1 := StepCount(s, visit, |v.elems|, p);
            Step(s, visit, Array(elem), v, p) ==
            if p1.None? then None else StepAll(s, visit, elem, v.elems, p1.value)
  {
    var p1 := StepCount(s, visit, |v.elems|, p);
    if p1.Some? {
      if visit.Counting? {
        StepAllCounting(s, elem, v.elems, p1.value);
      } else {
        StepAllStoring(s, elem, v.elems, p1.value);
      }
    }
  }

  /** First visit of a string: three counts. */
  lemma {:induction false} StepOfCounts(s: Syntax, nul: bool, v: Value, p: Pass)
    requires Typed(s, Utf16(nul), v) && Fit(s, p)
    ensures var p1 := StepCount(s, Counting, MaxCount(nul, v.units), p);
            var p2 := if p1.None? then None else StepCount(s, Counting, 0, p1.value);
            var p3 := if p2.None? then None else StepCount(s, Counting, |TextUnits(nul, v.units)|, p2.value);
            Step(s, Counting, Utf16(nul), v, p) ==
            if p3.None? then None else StepInt(s, Counting, 2, 0, p3.value)
  {
    var w := p.enc.w;
    var w1 := Put(s, w, WordSize(s), MaxCount(nul, v.units));
    var w2 := if w1.None? then None else Put(s, w1.value, WordSize(s), 0);
    var w3 := if w2.None? then None else Put(s, w2.value, WordSize(s), |TextUnits(nul, v.units)|);
    assert EncConf(s, Utf16(nul), v, w) == w3;
  }

  lemma {:induction false} StepOfUnit(s: Syntax, units: seq<nat>, p: Pass)
    requires units != [] && Fit(s, p)
    ensures var p1 := StepInt(s, Storing, 2, units[0], p);
            StepUnits(s, units, p) == if p1.None? then None else StepUnits(s, units[1..], p1.value)
  {
  }

  lemma {:induction false} StepOfNoUnits(s: Syntax, p: Pass)
    requires Fit(s, p)
    ensures StepUnits(s, [], p) == Some(p)
  {
  }

  /** A referent id and a queue entry. */
  lemma {:induction false} StepOfEmbedded(s: Syntax, kind: PtrKind, t: Coder, v: Value, p: Pass)
    requires Typed(s, t, v) && Fit(s, p)
    ensures var p1 := StepInt(s, Storing, WordSize(s), Referent(s, kind), p);
            StepPtr(s, Storing, kind, t, Pointee(v), p) ==
            if p1.None? then None else WithEnc(Defer(s, p1.value.enc, t, v), p.align)
  {
  }

  lemma {:induction false} StepOfNull(s: Syntax, visit: Visit, t: Coder, p: Pass)
    requires Fit(s, p) && !visit.Counting?
    ensures StepPtr(s, visit, Unique, t, Null, p) == StepInt(s, visit, WordSize(s), 0, p)
  {
  }

  /** At top level: a referent id unless the pointer is a reference, then the pointee, then the queue. */
  lemma {:induction false} StepOfTopPtr(s: Syntax, kind: PtrKind, t: Coder, v: Value, p: Pass)
    requires Typed(s, t, v) && Fit(s, p)
    ensures var p1 := if kind == Ref then Some(p) else StepInt(s, AtTop, WordSize(s), Referent(s, kind), p);
            var e2 := if p1.None? then None else EncOne(s, t, v, p1.value.enc);
            StepPtr(s, AtTop, kind, t, Pointee(v), p) ==
            if e2.None? then None else WithEnc(EncDrain(s, e2.value, |p.enc.q|), p.align)
  {
  }

  lemma {:induction false} DrainStep(s: Syntax, e: Enc, cur: nat)
    requires Ready(s, e.q) && cur < |e.q|
    ensures var job := e.q[cur];
            && Typed(s, job.coder, job.value)
            && var e1 := EncOne(s, job.coder, job.value, e);
               EncDrain(s, e, cur) == if e1.None? then None else EncDrain(s, e1.value, cur + 1)
  {
    AllTypedAt(s, e.q, cur);
  }

  /** Second visit: the code units and the terminator. */
  lemma {:induction false} StepOfUnits(s: Syntax, nul: bool, v: Value, p: Pass)
    requires Typed(s, Utf16(nul), v) && Fit(s, p)
    ensures Step(s, Storing, Utf16(nul), v, p) == StepUnits(s, TextUnits(nul, v.units), p)
  {
  }
}

/** The encoding half of the PDU: coders that store into the fixed output buffer, advance the shared
    offset, and keep the queue of deferred pointers in the PDU's fixed array. A method returns false
    where the C function returns -1; the state is then not used again. */
module NdrEncoder {
  import opened Octet
  import opened Bytes
  import opened Sequences
  import opened Ndr
  import opened NdrEncode
  import opened NdrVisit

  /** The announced and the actual count of a string. A text without a terminator is rounded up to an
      even announced count. */
  method Counts(nul: bool, units: seq<nat>) returns (max: nat, actual: nat)
    ensures max == MaxCount(nul, units) && actual == |TextUnits(nul, units)|
  {
    actual := |units|;
    if nul {
      actual := actual + 1;
    }
    max := actual;
    if !nul && max % 2 == 1 {
      max := max + 1;
    }
  }

  class EncodePdu {
    const syntax: Syntax
    const buf: array<byte>
    const ptrs: array<Job>
    var offset: nat
    var topLevel: bool
    var curPtr: nat
    var maxPtr: nat
    var isConformanceRun: bool
    var maxAlignment: nat
    /** The buffer up to now and the queue, as values. */
    ghost var enc: Enc
    /** Set while a pointee is being coded; the pointee coder is never re-entered. */
    ghost var coding: bool

    ghost predicate Valid()
      reads this, ptrs, buf
    {
      && ptrs.Length == MAX_DEFERRED && (buf as object) != ptrs
      && curPtr <= maxPtr <= MAX_DEFERRED
      && enc == Enc(Wire(buf[..], offset), ptrs[..maxPtr])
      && Ready(syntax, enc.q)
      && IsAlignment(maxAlignment)
      && (isConformanceRun ==> !topLevel)
      && (topLevel ==> curPtr == maxPtr && !coding)
    }

    ghost function Phase(): Visit
      reads this
    {
      if isConformanceRun then Counting else if topLevel then AtTop else Storing
    }

    ghost function Now(): Pass
      reads this
    {
      Pass(enc, if topLevel then 1 else maxAlignment)
    }

    /** The coder succeeded with the outcome `next`, and left everything else alone. */
    twostate predicate Became(ok: bool, next: Option<Pass>)
      reads this, buf, ptrs
    {
      && (ok <==> next.Some?)
      && (ok ==> Valid() && Now() == next.value && Phase() == old(Phase()) && coding == old(coding)
                 && (!topLevel ==> curPtr == old(curPtr)))
    }

    constructor (syntax: Syntax, size: nat)
      ensures Valid() && fresh(buf) && fresh(ptrs)
      ensures this.syntax == syntax && buf.Length == size && Phase() == AtTop && enc.w.off == 0 && enc.q == []
    {
      this.syntax := syntax;
      var room := new byte[size](_ => 0);
      buf := room;
      ptrs := new Job[MAX_DEFERRED](_ => Job(Nothing, Unit));
      offset, curPtr, maxPtr, maxAlignment := 0, 0, 0, 1;
      topLevel, isConformanceRun, coding := true, false, false;
      enc := Enc(Wire(room[..], 0), []);
      new;
      assert ptrs[..0] == [];
    }

    /** Store an integer of `size` octets, aligned to `size`. */
    method SetUint(size: nat, n: nat) returns (ok: bool)
      requires Valid() && IsAlignment(size)
      modifies this`offset, this`enc, buf
      ensures Valid() && enc.q == old(enc.q)
      ensures ok <==> Put(syntax, old(enc.w), size, n).Some?
      ensures ok ==> enc.w == Put(syntax, old(enc.w), size, n).value
      ensures !ok ==> enc.w == old(enc.w)
    {
      var o := AlignUp(offset, size);
      if o + size > buf.Length {
        return false;
      }
      Blit(buf, o, Octets(syntax, n, size));
      offset := o + size;
      enc := enc.(w := Wire(buf[..], offset));
      return true;
    }

    /** The integer coders: the first visit only raises the alignment. */
    method UintCoder(size: nat, n: nat) returns (ok: bool)
      requires Valid() && IsAlignment(size)
      modifies this`offset, this`maxAlignment, this`enc, buf
      ensures Became(ok, StepInt(syntax, old(Phase()), size, n, old(Now())))
    {
      if isConformanceRun {
        if maxAlignment < size {
          maxAlignment := size;
        }
        return true;
      }
      ok := SetUint(size, n);
    }

    method ConformanceCoder(n: nat) returns (ok: bool)
      requires Valid()
      modifies this`offset, this`enc, buf
      ensures Became(ok, StepCount(syntax, old(Phase()), n, old(Now())))
    {
      if !isConformanceRun {
        return true;
      }
      ok := SetUint(WordSize(syntax), n);
    }

    method AddDeferredPointer(t: Coder, v: Value) returns (ok: bool)
      requires Valid() && Typed(syntax, t, v) && Phase() == Storing
      modifies this`maxPtr, this`enc, ptrs
      ensures Became(ok, WithEnc(Defer(syntax, old(enc), t, v), old(maxAlignment)))
    {
      if maxPtr >= MAX_DEFERRED {
        return false;
      }
      AllTypedPush(syntax, ptrs[..maxPtr], Job(t, v));
      ptrs[maxPtr] := Job(t, v);
      maxPtr := maxPtr + 1;
      assert ptrs[..maxPtr] == old(ptrs[..maxPtr]) + [Job(t, v)];
      enc := enc.(q := ptrs[..maxPtr]);
      return true;
    }

    /** A string: the counts on the first visit, the code units on the second. */
    method Utf16Coder(nul: bool, v: Value) returns (ok: bool)
      requires Valid() && Phase() != AtTop && Typed(syntax, Utf16(nul), v)
      modifies this`offset, this`maxAlignment, this`enc, buf
      ensures Became(ok, Step(syntax, old(Phase()), Utf16(nul), v, old(Now())))
    {
      if isConformanceRun {
        ok := PutCounts(nul, v);
        return;
      }
      ok := PutText(nul, v);
    }

    method PutText(nul: bool, v: Value) returns (ok: bool)
      requires Valid() && Phase() == Storing && Typed(syntax, Utf16(nul), v)
      modifies this`offset, this`maxAlignment, this`enc, buf
      ensures Became(ok, Step(syntax, Storing, Utf16(nul), v, old(Now())))
    {
      StepOfUnits(syntax, nul, v, Now());
      var units := v.units;
      assert nul ==> (units + [0])[|units|..] == [0] && [0][1..] == [];
      ok := PutCodeUnits(units, TextUnits(nul, units));
      if !ok { return; }
      if nul {
        StepOfUnit(syntax, [0], Now());
        ok := UintCoder(2, 0);
      }
      if ok {
        StepOfNoUnits(syntax, Now());
      }
    }

    method PutCounts(nul: bool, v: Value) returns (ok: bool)
      requires Valid() && Phase() == Counting && Typed(syntax, Utf16(nul), v)
      modifies this`offset, this`maxAlignment, this`enc, buf
      ensures Became(ok, Step(syntax, Counting, Utf16(nul), v, old(Now())))
    {
      StepOfCounts(syntax, nul, v, Now());
      var max, actual := Counts(nul, v.units);
      ok := ConformanceCoder(max);
      if !ok { return; }
      ok := ConformanceCoder(0);
      if !ok { return; }
      ok := ConformanceCoder(actual);
      if !ok { return; }
      if maxAlignment < 2 {
        maxAlignment := 2;
      }
    }

    /** The loop over the code units, `all` being the units with their terminator. */
    method PutCodeUnits(units: seq<nat>, ghost all: seq<nat>) returns (ok: bool)
      requires Valid() && Phase() == Storing && units <= all
      modifies this`offset, this`maxAlignment, this`enc, buf
      ensures !ok ==> StepUnits(syntax, all, old(Now())).None?
      ensures ok ==> Became(true, Some(Now()))
      ensures ok ==> StepUnits(syntax, all[|units|..], Now()) == StepUnits(syntax, all, old(Now()))
    {
      var i := 0;
      while i < |units|
        invariant 0 <= i <= |units| && Valid() && Became(true, Some(Now()))
        invariant StepUnits(syntax, all[i..], Now()) == StepUnits(syntax, all, old(Now()))
      {
        StepOfUnit(syntax, all[i..], Now());
        ok := UintCoder(2, units[i]);
        if !ok { return; }
        i := i + 1;
      }
      ok := true;
    }

    /** The coder of any value, on any visit. */
    method Code(c: Coder, v: Value) returns (ok: bool)
      requires Valid() && Typed(syntax, c, v) && (Phase() == AtTop ==> TopLevel(c))
      modifies this, buf, ptrs
      ensures Became(ok, Step(syntax, old(Phase()), c, v, old(Now())))
      decreases if topLevel then 1 else 0, 0, c, 1
    {
      match c
      case U8 => StepOfInt(syntax, Phase(), c, v, Now()); ok := UintCoder(1, v.n);
      case U16 => StepOfInt(syntax, Phase(), c, v, Now()); ok := UintCoder(2, v.n);
      case U32 => StepOfInt(syntax, Phase(), c, v, Now()); ok := UintCoder(4, v.n);
      case U3264 => StepOfInt(syntax, Phase(), c, v, Now()); ok := UintCoder(WordSize(syntax), v.n);
      case Utf16(nul) => ok := Utf16Coder(nul, v);
      case Pointer(kind, t) => ok := PtrCoder(kind, t, v);
      case Array(elem) => ok := ArrayCoder(elem, v);
      case Union(arms) => ok := UnionCoder(c, v);
      case Nothing => ok := true;
      case Then(a, b) => ok := StructCoder(a, b, v);
    }

    /** A structure: its members one after the other. */
    method StructCoder(a: Coder, b: Coder, v: Value) returns (ok: bool)
      requires Valid() && Typed(syntax, Then(a, b), v) && (Phase() == AtTop ==> TopLevel(Then(a, b)))
      modifies this, buf, ptrs
      ensures Became(ok, Step(syntax, old(Phase()), Then(a, b), v, old(Now())))
      decreases if topLevel then 1 else 0, 0, Then(a, b), 0
    {
      StepOfThen(syntax, Phase(), a, b, v, Now());
      ok := Code(a, v.first);
      if ok {
        ok := Code(b, v.rest);
      }
    }

    /** A discriminated union: the tag, then the pointer of the arm it selects. */
    method UnionCoder(c: Coder, v: Value) returns (ok: bool)
      requires c.Union? && Valid() && Typed(syntax, c, v)
      modifies this, buf, ptrs
      ensures Became(ok, Step(syntax, old(Phase()), c, v, old(Now())))
      decreases if topLevel then 1 else 0, 0, c, 0
    {
      StepOfUnion(syntax, Phase(), c, v, Now());
      ok := UintCoder(WordSize(syntax), v.tag);
      if ok && ArmCoder(c, v.tag).Some? {
        ok := PtrCoder(Unique, ArmCoder(c, v.tag).value, v.arm);
      }
    }

    /** A conformant array: the count on the first visit, and the elements on both. */
    method ArrayCoder(elem: Coder, v: Value) returns (ok: bool)
      requires Valid() && Phase() != AtTop && Typed(syntax, Array(elem), v)
      modifies this, buf, ptrs
      ensures Became(ok, Step(syntax, old(Phase()), Array(elem), v, old(Now())))
      decreases 0, 0, elem, 3
    {
      StepOfArray(syntax, Phase(), elem, v, Now());
      ok := ConformanceCoder(|v.elems|);
      if !ok { return; }
      ghost var goal := StepAll(syntax, Phase(), elem, v.elems, Now());
      assert v.elems[0..] == v.elems;
      var i := 0;
      while i < |v.elems|
        invariant 0 <= i <= |v.elems| && TypedAll(syntax, elem, v.elems[i..])
        invariant Valid() && Became(true, Some(Now()))
        invariant StepAll(syntax, Phase(), elem, v.elems[i..], Now()) == goal
      {
        SplitAt(v.elems, i);
        ok := Code(elem, v.elems[i]);
        if !ok { return; }
        i := i + 1;
      }
      ok := true;
    }

    /** A pointer: an embedded one is deferred; at top level its pointee is coded in place and the
        queue is drained before returning. */
    method PtrCoder(kind: PtrKind, t: Coder, v: Value) returns (ok: bool)
      requires Valid() && ((v.Null? && kind == Unique) || (v.Pointee? && Typed(syntax, t, v.v)))
      modifies this, buf, ptrs
      ensures Became(ok, StepPtr(syntax, old(Phase()), kind, t, v, old(Now())))
      decreases if topLevel then 1 else 0, 0, t, 0
    {
      if isConformanceRun {
        if maxAlignment < WordSize(syntax) {
          maxAlignment := WordSize(syntax);
        }
        return true;
      }
      if v.Null? {
        StepOfNull(syntax, Phase(), t, Now());
        ok := UintCoder(WordSize(syntax), 0);
      } else if topLevel {
        ok := TopPtrCoder(kind, t, v.v);
      } else {
        ok := EmbeddedPtrCoder(kind, t, v.v);
      }
    }

    method EmbeddedPtrCoder(kind: PtrKind, t: Coder, v: Value) returns (ok: bool)
      requires Valid() && Phase() == Storing && Typed(syntax, t, v)
      modifies this, buf, ptrs
      ensures Became(ok, StepPtr(syntax, Storing, kind, t, Pointee(v), old(Now())))
    {
      StepOfEmbedded(syntax, kind, t, v, Now());
      ok := UintCoder(WordSize(syntax), Referent(syntax, kind));
      if ok {
        ok := AddDeferredPointer(t, v);
      }
    }

    /** A top-level pointer that is not null. A reference pointer has no referent id here. */
    method TopPtrCoder(kind: PtrKind, t: Coder, v: Value) returns (ok: bool)
      requires Valid() && Phase() == AtTop && Typed(syntax, t, v)
      modifies this, buf, ptrs
      ensures Became(ok, StepPtr(syntax, AtTop, kind, t, Pointee(v), old(Now())))
      decreases 0, 2
    {
      StepOfTopPtr(syntax, kind, t, v, Now());
      if kind == Unique {
        ok := UintCoder(WordSize(syntax), Referent(syntax, kind));
        if !ok { return; }
      }
      topLevel := false;
      ok := DoCoder(t, v);
      if !ok { return; }
      ok := ProcessDeferredPointers();
      if !ok { return; }
      topLevel := true;
    }

    /** One pointee, in two visits. */
    method DoCoder(t: Coder, v: Value) returns (ok: bool)
      requires Valid() && Phase() == Storing && !coding && Typed(syntax, t, v)
      modifies this, buf, ptrs
      ensures ok <==> EncOne(syntax, t, v, old(enc)).Some?
      ensures ok ==> Valid() && Phase() == Storing && !coding && curPtr == old(curPtr)
      ensures ok ==> enc == EncOne(syntax, t, v, old(enc)).value
      decreases 0, 0, t, 2
    {
      coding := true;
      maxAlignment := 1;
      isConformanceRun := true;
      ok := Code(t, v);
      if !ok { return; }
      offset := AlignUp(offset, maxAlignment);
      enc := enc.(w := enc.w.(off := offset));
      isConformanceRun := false;
      ok := Code(t, v);
      if !ok { return; }
      coding := false;
    }

    /** Drain the queue in order, including what it gains on the way. */
    method ProcessDeferredPointers() returns (ok: bool)
      requires Valid() && Phase() == Storing && !coding
      modifies this, buf, ptrs
      ensures ok <==> EncDrain(syntax, old(enc), old(curPtr)).Some?
      ensures ok ==> Valid() && Phase() == Storing && !coding && curPtr == maxPtr
      ensures ok ==> enc == EncDrain(syntax, old(enc), old(curPtr)).value
      decreases 0, 1
    {
      while curPtr != maxPtr
        invariant Valid() && Phase() == Storing && !coding
        invariant EncDrain(syntax, enc, curPtr) == EncDrain(syntax, old(enc), old(curPtr))
        decreases MAX_DEFERRED - curPtr
      {
        var job := ptrs[curPtr];
        DrainStep(syntax, enc, curPtr);
        curPtr := curPtr + 1;
        ok := DoCoder(job.coder, job.value);
        if !ok { return; }
      }
      ok := true;
    }
  }
}
