/** Decoding undoes encoding. The two queues of deferred pointers are simulated step by step: at every
    point they hold the same coders, and the decoder's slot `k` stands for the encoder's job `k`. */
module NdrRoundTrip {
  import opened Octet
  import opened Bytes
  import opened Ndr
  import opened NdrEncode
  import opened NdrDecode

  // ---- where strings stand -------------------------------------------------------------------
  // The encoder aligns the data of a string to 2, the decoder does not. The data visit of a pointee
  // holding a string starts at an even offset, so only octets before the string can misplace it.

  function OddAfter(c: Coder, v: Value, odd: bool): bool
    decreases c, 0
  {
    match c
    case U8 => !odd
    case Utf16(nul) => v.Text? && |TextUnits(nul, v.units)| == 0 && odd
    case Array(e) => v.Items? && OddAfterAll(e, v.elems, odd)
    case Nothing => odd
    case Then(a, b) => v.Both? && OddAfter(b, v.rest, OddAfter(a, v.first, odd))
    case _ => false
  }

  function OddAfterAll(c: Coder, vs: seq<Value>, odd: bool): bool
    decreases c, 1, |vs|
  {
    if vs == [] then odd else OddAfterAll(c, vs[1..], OddAfter(c, vs[0], odd))
  }

  /** Every string with data reached by the data visit stands at an even offset. */
  predicate TextEven(c: Coder, v: Value, odd: bool)
    decreases c, 0
  {
    match c
    case Utf16(nul) => v.Text? && (!odd || |TextUnits(nul, v.units)| == 0)
    case Array(e) => v.Items? && TextEvenAll(e, v.elems, odd)
    case Then(a, b) => v.Both? && TextEven(a, v.first, odd) && TextEven(b, v.rest, OddAfter(a, v.first, odd))
    case _ => true
  }

  predicate TextEvenAll(c: Coder, vs: seq<Value>, odd: bool)
    decreases c, 1, |vs|
  {
    vs == [] || (TextEven(c, vs[0], odd) && TextEvenAll(c, vs[1..], OddAfter(c, vs[0], odd)))
  }

  /** In every pointee of the tree, no string with data follows an odd number of octets. */
  predicate TextPlaced(c: Coder, v: Value)
    decreases c, 0
  {
    match c
    case Pointer(_, t) => v.Pointee? ==> TextEven(t, v.v, false) && TextPlaced(t, v.v)
    case Union(_) =>
      v.Tagged? && v.arm.Pointee? && ArmCoder(c, v.tag).Some? ==>
        TextEven(ArmCoder(c, v.tag).value, v.arm.v, false) && TextPlaced(ArmCoder(c, v.tag).value, v.arm.v)
    case Array(e) => v.Items? ==> TextPlacedAll(e, v.elems)
    case Then(a, b) => v.Both? ==> TextPlaced(a, v.first) && TextPlaced(b, v.rest)
    case _ => true
  }

  predicate TextPlacedAll(c: Coder, vs: seq<Value>)
    decreases c, 1, |vs|
  {
    vs == [] || (TextPlaced(c, vs[0]) && TextPlacedAll(c, vs[1..]))
  }

  predicate HasText(c: Coder, v: Value)
    decreases c, 0
  {
    match c
    case Utf16(_) => true
    case Array(e) => v.Items? && HasTextAll(e, v.elems)
    case Then(a, b) => v.Both? && (HasText(a, v.first) || HasText(b, v.rest))
    case _ => false
  }

  predicate HasTextAll(c: Coder, vs: seq<Value>)
    decreases c, 1, |vs|
  {
    vs != [] && (HasText(c, vs[0]) || HasTextAll(c, vs[1..]))
  }

  lemma {:induction false} TextAligns(s: Syntax, c: Coder, v: Value, m: nat)
    requires Typed(s, c, v) && IsAlignment(m)
    ensures HasText(c, v) ==> MaxAlign(s, c, v, m) >= 2
    decreases c, 0
  {
    match c
    case Array(e) => TextAlignsAll(s, e, v.elems, m);
    case Then(a, b) =>
      TextAligns(s, a, v.first, m);
      TextAligns(s, b, v.rest, MaxAlign(s, a, v.first, m));
    case _ =>
  }

  lemma {:induction false} TextAlignsAll(s: Syntax, c: Coder, vs: seq<Value>, m: nat)
    requires TypedAll(s, c, vs) && IsAlignment(m)
    ensures HasTextAll(c, vs) ==> MaxAlignAll(s, c, vs, m) >= 2
    decreases c, 1, |vs|
  {
    if vs != [] {
      TextAligns(s, c, vs[0], m);
      TextAlignsAll(s, c, vs[1..], MaxAlign(s, c, vs[0], m));
    }
  }

  lemma {:induction false} NoTextAnywhere(s: Syntax, c: Coder, v: Value, odd: bool)
    requires Typed(s, c, v) && !HasText(c, v)
    ensures TextEven(c, v, odd)
    decreases c, 0
  {
    match c
    case Array(e) => NoTextAnywhereAll(s, e, v.elems, odd);
    case Then(a, b) =>
      NoTextAnywhere(s, a, v.first, odd);
      NoTextAnywhere(s, b, v.rest, OddAfter(a, v.first, odd));
    case _ =>
  }

  lemma {:induction false} NoTextAnywhereAll(s: Syntax, c: Coder, vs: seq<Value>, odd: bool)
    requires TypedAll(s, c, vs) && !HasTextAll(c, vs)
    ensures TextEvenAll(c, vs, odd)
    decreases c, 1, |vs|
  {
    if vs != [] {
      NoTextAnywhere(s, c, vs[0], odd);
      NoTextAnywhereAll(s, c, vs[1..], OddAfter(c, vs[0], odd));
    }
  }

  // ---- the primitives --------------------------------------------------------------------------

  /** `b` holds, between `lo` and `hi`, what `buf` holds there. */
  predicate Agrees(b: seq<byte>, buf: seq<byte>, lo: nat, hi: nat) {
    lo <= hi <= |b| && hi <= |buf| && Same(b, buf, lo, hi)
  }

  function Min(a: nat, b: nat): nat {
    if a < b then a else b
  }

  /** Nothing written before `w` is changed between `w` and `w2`. */
  predicate Keeps(w: Wire, w2: Wire) {
    |w.buf| == |w2.buf| && w.off <= w2.off && Same(w.buf, w2.buf, 0, Min(w.off, |w.buf|))
  }

  lemma {:induction false} KeepsTrans(w: Wire, w1: Wire, w2: Wire)
    requires Keeps(w, w1) && Keeps(w1, w2)
    ensures Keeps(w, w2)
  {
    SamePart(w1.buf, w2.buf, 0, Min(w1.off, |w1.buf|), 0, Min(w.off, |w.buf|));
    SameTrans(w.buf, w1.buf, w2.buf, 0, Min(w.off, |w.buf|));
  }

  lemma {:induction false} KeepsSelf(w: Wire, w1: Wire)
    requires w.buf == w1.buf && w.off <= w1.off
    ensures Keeps(w, w1)
  {
    SameSelf(w.buf, 0, Min(w.off, |w.buf|));
  }

  /** What a step wrote is still there after later steps. */
  lemma {:induction false} AgreesEarlier(b: seq<byte>, w1: Wire, w2: Wire, lo: nat)
    requires lo <= w1.off && Keeps(w1, w2) && Agrees(b, w2.buf, lo, w2.off)
    ensures Agrees(b, w1.buf, lo, w1.off) && Agrees(b, w2.buf, w1.off, w2.off)
  {
    SamePart(b, w2.buf, lo, w2.off, lo, w1.off);
    SamePart(b, w2.buf, lo, w2.off, w1.off, w2.off);
    SamePart(w1.buf, w2.buf, 0, w1.off, lo, w1.off);
    SameSymmetric(w1.buf, w2.buf, lo, w1.off);
    SameTrans(b, w2.buf, w1.buf, lo, w1.off);
  }

  lemma {:induction false} OctetsInvert(s: Syntax, n: nat, size: nat)
    requires FitsIn(n, size)
    ensures ValueOf(s, Octets(s, n, size)) == n
  {
    LittleInverts(n, size);
    BigInverts(n, size);
  }

  lemma {:induction false} PutKeeps(s: Syntax, w: Wire, size: nat, n: nat)
    requires IsAlignment(size) && Put(s, w, size, n).Some?
    ensures Keeps(w, Put(s, w, size, n).value)
  {
    var o := AlignUp(w.off, size);
    StoreKeeps(w.buf, o, Octets(s, n, size));
    SamePart(w.buf, Put(s, w, size, n).value.buf, 0, o, 0, w.off);
  }

  lemma {:induction false} ReadBack(buf: seq<byte>, o: nat, data: seq<byte>, b: seq<byte>, lo: nat)
    requires lo <= o && o + |data| <= |buf| && Agrees(b, Store(buf, o, data), lo, o + |data|)
    ensures b[o..o + |data|] == data
  {
    StoreKeeps(buf, o, data);
    SamePart(b, Store(buf, o, data), lo, o + |data|, o, o + |data|);
    SameSlice(b, Store(buf, o, data), o, o + |data|);
  }

  /** An integer is read back, and both sides advance alike. */
  lemma {:induction false} PutGet(s: Syntax, w: Wire, size: nat, n: nat, b: seq<byte>)
    requires IsAlignment(size) && FitsIn(n, size) && Put(s, w, size, n).Some?
    requires var w' := Put(s, w, size, n).value; Agrees(b, w'.buf, w.off, w'.off)
    ensures Get(s, Wire(b, w.off), size) == Some((n, Wire(b, Put(s, w, size, n).value.off)))
  {
    ReadBack(w.buf, AlignUp(w.off, size), Octets(s, n, size), b, w.off);
    OctetsInvert(s, n, size);
  }

  lemma {:induction false} FitsWord(s: Syntax, n: nat)
    requires n < 0x1_0000_0000 || (s.ndr64 && n < 0x1_0000_0000_0000_0000)
    ensures FitsIn(n, WordSize(s))
  {
    FitsInBounds(n);
    if s.ndr64 {
      FitsIn8(n);
    }
  }

  lemma {:induction false} Fits32(n: nat)
    requires n < 0x1_0000_0000
    ensures n % 0x1_0000_0000 == n
  {
  }

  // ---- the conformance visit ---------------------------------------------------------------------

  lemma {:induction false} ConfKeeps(s: Syntax, c: Coder, v: Value, w: Wire)
    requires Typed(s, c, v) && EncConf(s, c, v, w).Some?
    ensures Keeps(w, EncConf(s, c, v, w).value)
    decreases c, 0
  {
    var w' := EncConf(s, c, v, w).value;
    match c
    case Utf16(nul) =>
      var w1 := Put(s, w, WordSize(s), MaxCount(nul, v.units)).value;
      var w2 := Put(s, w1, WordSize(s), 0).value;
      PutKeeps(s, w, WordSize(s), MaxCount(nul, v.units));
      PutKeeps(s, w1, WordSize(s), 0);
      PutKeeps(s, w2, WordSize(s), |TextUnits(nul, v.units)|);
      KeepsTrans(w, w1, w2);
      KeepsTrans(w, w2, w');
    case Array(elem) =>
      var w1 := Put(s, w, WordSize(s), |v.elems|).value;
      PutKeeps(s, w, WordSize(s), |v.elems|);
      ConfKeepsAll(s, elem, v.elems, w1);
      KeepsTrans(w, w1, w');
    case Then(a, b) =>
      var w1 := EncConf(s, a, v.first, w).value;
      ConfKeeps(s, a, v.first, w);
      ConfKeeps(s, b, v.rest, w1);
      KeepsTrans(w, w1, w');
    case _ => KeepsSelf(w, w');
  }

  lemma {:induction false} ConfKeepsAll(s: Syntax, c: Coder, vs: seq<Value>, w: Wire)
    requires TypedAll(s, c, vs) && EncConfAll(s, c, vs, w).Some?
    ensures Keeps(w, EncConfAll(s, c, vs, w).value)
    decreases c, 1, |vs|
  {
    if vs == [] {
      KeepsSelf(w, w);
    } else {
      var w1 := EncConf(s, c, vs[0], w).value;
      ConfKeeps(s, c, vs[0], w);
      ConfKeepsAll(s, c, vs[1..], w1);
      KeepsTrans(w, w1, EncConfAll(s, c, vs, w).value);
    }
  }

  function ShapeOf(s: Syntax, c: Coder, v: Value): (sh: Shape)
    requires Typed(s, c, v)
    ensures Fits(c, sh)
    decreases c, 0
  {
    match c
    case Utf16(nul) => TextShape(|TextUnits(nul, v.units)|)
    case Array(e) => ItemShapes(ShapesOf(s, e, v.elems))
    case Then(a, b) => BothShapes(ShapeOf(s, a, v.first), ShapeOf(s, b, v.rest))
    case _ => NoShape
  }

  function ShapesOf(s: Syntax, c: Coder, vs: seq<Value>): (shs: seq<Shape>)
    requires TypedAll(s, c, vs)
    ensures FitsAll(c, shs) && |shs| == |vs|
    decreases c, 1, |vs|
  {
    if vs == [] then [] else [ShapeOf(s, c, vs[0])] + ShapesOf(s, c, vs[1..])
  }

  lemma {:induction false} TextConfRoundTrip(s: Syntax, nul: bool, v: Value, w: Wire, b: seq<byte>)
    requires Typed(s, Utf16(nul), v) && EncConf(s, Utf16(nul), v, w).Some?
    requires var w' := EncConf(s, Utf16(nul), v, w).value; Agrees(b, w'.buf, w.off, w'.off)
    ensures var w' := EncConf(s, Utf16(nul), v, w).value;
            DecConf(s, Utf16(nul), Wire(b, w.off)) == Some((TextShape(|TextUnits(nul, v.units)|), Wire(b, w'.off)))
  {
    var size := WordSize(s);
    var n := |TextUnits(nul, v.units)|;
    var w1 := Put(s, w, size, MaxCount(nul, v.units)).value;
    var w2 := Put(s, w1, size, 0).value;
    var w3 := Put(s, w2, size, n).value;
    FitsWord(s, n);
    FitsWord(s, MaxCount(nul, v.units));
    FitsWord(s, 0);
    PutKeeps(s, w1, size, 0);
    PutKeeps(s, w2, size, n);
    AgreesEarlier(b, w2, w3, w.off);
    AgreesEarlier(b, w1, w2, w.off);
    PutGet(s, w, size, MaxCount(nul, v.units), b);
    PutGet(s, w1, size, 0, b);
    PutGet(s, w2, size, n, b);
    Fits32(n);
  }

  /** The decoder learns every count, and both sides end the first visit at the same offset. */
  lemma {:induction false} ConfRoundTrip(s: Syntax, c: Coder, v: Value, w: Wire, b: seq<byte>)
    requires Typed(s, c, v) && EncConf(s, c, v, w).Some?
    requires var w' := EncConf(s, c, v, w).value; Agrees(b, w'.buf, w.off, w'.off)
    ensures DecConf(s, c, Wire(b, w.off)) == Some((ShapeOf(s, c, v), Wire(b, EncConf(s, c, v, w).value.off)))
    decreases c, 0
  {
    var w' := EncConf(s, c, v, w).value;
    match c
    case Utf16(nul) => TextConfRoundTrip(s, nul, v, w, b);
    case Array(elem) =>
      var n := |v.elems|;
      var w1 := Put(s, w, WordSize(s), n).value;
      FitsWord(s, n);
      ConfKeepsAll(s, elem, v.elems, w1);
      AgreesEarlier(b, w1, w', w.off);
      PutGet(s, w, WordSize(s), n, b);
      ConfRoundTripAll(s, elem, v.elems, w1, b);
    case Then(x, y) =>
      var w1 := EncConf(s, x, v.first, w).value;
      ConfKeeps(s, y, v.rest, w1);
      AgreesEarlier(b, w1, w', w.off);
      ConfRoundTrip(s, x, v.first, w, b);
      ConfRoundTrip(s, y, v.rest, w1, b);
    case _ =>
  }

  lemma {:induction false} ConfRoundTripAll(s: Syntax, c: Coder, vs: seq<Value>, w: Wire, b: seq<byte>)
    requires TypedAll(s, c, vs) && EncConfAll(s, c, vs, w).Some?
    requires var w' := EncConfAll(s, c, vs, w).value; Agrees(b, w'.buf, w.off, w'.off)
    ensures DecConfAll(s, c, |vs|, Wire(b, w.off)) == Some((ShapesOf(s, c, vs), Wire(b, EncConfAll(s, c, vs, w).value.off)))
    decreases c, 1, |vs|
  {
    if vs != [] {
      var w1 := EncConf(s, c, vs[0], w).value;
      ConfKeepsAll(s, c, vs[1..], w1);
      AgreesEarlier(b, w1, EncConfAll(s, c, vs, w).value, w.off);
      ConfRoundTrip(s, c, vs[0], w, b);
      ConfRoundTripAll(s, c, vs[1..], w1, b);
    }
  }

  /** Both directions align the data visit of a pointee to the same boundary. */
  lemma {:induction false} SameAlignment(s: Syntax, c: Coder, v: Value, m: nat)
    requires Typed(s, c, v) && IsAlignment(m)
    ensures ShapeAlign(s, c, ShapeOf(s, c, v), m) == MaxAlign(s, c, v, m)
    decreases c, 0
  {
    match c
    case Array(e) => SameAlignmentAll(s, e, v.elems, m);
    case Then(a, b) =>
      SameAlignment(s, a, v.first, m);
      SameAlignment(s, b, v.rest, MaxAlign(s, a, v.first, m));
    case _ =>
  }

  lemma {:induction false} SameAlignmentAll(s: Syntax, c: Coder, vs: seq<Value>, m: nat)
    requires TypedAll(s, c, vs) && IsAlignment(m)
    ensures ShapeAlignAll(s, c, ShapesOf(s, c, vs), m) == MaxAlignAll(s, c, vs, m)
    decreases c, 1, |vs|
  {
    if vs != [] {
      SameAlignment(s, c, vs[0], m);
      SameAlignmentAll(s, c, vs[1..], MaxAlign(s, c, vs[0], m));
      assert ShapesOf(s, c, vs)[1..] == ShapesOf(s, c, vs[1..]);
    }
  }

  // ---- the data visit ------------------------------------------------------------------------------

  function Coders(q: seq<Job>): (cs: seq<Coder>)
    ensures |cs| == |q|
  {
    if q == [] then [] else Coders(q[..|q| - 1]) + [q[|q| - 1].coder]
  }

  lemma {:induction false} CodersPush(q: seq<Job>, j: Job)
    ensures Coders(q + [j]) == Coders(q) + [j.coder]
  {
    assert (q + [j])[..|q|] == q;
  }

  lemma {:induction false} CodersAt(q: seq<Job>, k: nat)
    requires k < |q|
    ensures Coders(q)[k] == q[k].coder
  {
    if k < |q| - 1 {
      CodersAt(q[..|q| - 1], k);
    }
  }

  /** Encoder and decoder stand at the same offset with the same pointers deferred. */
  predicate Synced(e: Enc, d: Dec) {
    d.w.off == e.w.off && d.q == Coders(e.q)
  }

  /** `cell` is decoded memory for `v`, its pointers being jobs of `q` from `lo` on. */
  predicate Stands(cell: Cell, v: Value, q: seq<Job>, lo: nat)
    decreases cell, 0
  {
    match cell
    case NumCell(n) => v == Num(n)
    case TextCell(u) => v == Text(u)
    case NullCell => v == Null
    case Slot(k) => lo <= k < |q| && v == Pointee(q[k].value)
    case Direct(t) => v.Pointee? && Stands(t, v.v, q, lo)
    case ItemCells(cs) => v.Items? && StandsAll(cs, v.elems, q, lo)
    case TaggedCell(t, a) => v.Tagged? && v.tag == t && Stands(a, v.arm, q, lo)
    case UnitCell => v == Unit
    case BothCells(a, b) => v.Both? && Stands(a, v.first, q, lo) && Stands(b, v.rest, q, lo)
  }

  predicate StandsAll(cells: seq<Cell>, vs: seq<Value>, q: seq<Job>, lo: nat)
    decreases cells, 1
  {
    if cells == [] then vs == []
    else vs != [] && Stands(cells[0], vs[0], q, lo) && StandsAll(cells[1..], vs[1..], q, lo)
  }

  lemma {:induction false} StandsLonger(cell: Cell, v: Value, q: seq<Job>, lo: nat, q2: seq<Job>, lo2: nat)
    requires Stands(cell, v, q, lo) && q <= q2 && lo2 <= lo
    ensures Stands(cell, v, q2, lo2)
    decreases cell, 0
  {
    match cell
    case Direct(t) => StandsLonger(t, v.v, q, lo, q2, lo2);
    case ItemCells(cs) => StandsLongerAll(cs, v.elems, q, lo, q2, lo2);
    case TaggedCell(_, a) => StandsLonger(a, v.arm, q, lo, q2, lo2);
    case BothCells(a, b) =>
      StandsLonger(a, v.first, q, lo, q2, lo2);
      StandsLonger(b, v.rest, q, lo, q2, lo2);
    case _ =>
  }

  lemma {:induction false} StandsLongerAll(cells: seq<Cell>, vs: seq<Value>, q: seq<Job>, lo: nat, q2: seq<Job>, lo2: nat)
    requires StandsAll(cells, vs, q, lo) && q <= q2 && lo2 <= lo
    ensures StandsAll(cells, vs, q2, lo2)
    decreases cells, 1
  {
    if cells != [] {
      StandsLonger(cells[0], vs[0], q, lo, q2, lo2);
      StandsLongerAll(cells[1..], vs[1..], q, lo, q2, lo2);
    }
  }

  lemma {:induction false} PutUnitsKeeps(s: Syntax, w: Wire, units: seq<nat>)
    requires PutUnits(s, w, units).Some?
    ensures Keeps(w, PutUnits(s, w, units).value)
    decreases |units|
  {
    if units == [] {
      KeepsSelf(w, w);
    } else {
      var w1 := Put(s, w, 2, units[0]).value;
      PutKeeps(s, w, 2, units[0]);
      PutUnitsKeeps(s, w1, units[1..]);
      KeepsTrans(w, w1, PutUnits(s, w, units).value);
    }
  }

  lemma {:induction false} TwoOctets(b: seq<byte>)
    requires |b| == 2
    ensures LittleValue(b) == b[0] as nat + 256 * b[1] as nat
    ensures BigValue(b) == 256 * b[0] as nat + b[1] as nat
  {
    assert b[1..] == [b[1]] && b[..1] == [b[0]];
    assert LittleValue(b[1..]) == b[1] as nat + 256 * LittleValue(b[1..][1..]);
    assert BigValue(b[..1]) == 256 * BigValue(b[..1][..0]) + b[0] as nat;
  }

  lemma {:induction false} UnitRoundTrip(s: Syntax, w: Wire, u: nat, b: seq<byte>)
    requires u < 0x1_0000 && AlignUp(w.off, 2) == w.off && Put(s, w, 2, u).Some?
    requires var w' := Put(s, w, 2, u).value; Agrees(b, w'.buf, w.off, w'.off)
    ensures w.off + 2 <= |b| && (if s.little then LittleUnit(b, w.off) else BigUnit(b, w.off)) == u
  {
    FitsInBounds(u);
    PutGet(s, w, 2, u, b);
    TwoOctets(b[w.off..w.off + 2]);
  }

  lemma {:induction false} FirstUnit(s: Syntax, w: Wire, units: seq<nat>, b: seq<byte>)
    requires units != [] && CodeUnits(units) && Even(w.off) && PutUnits(s, w, units).Some?
    requires var w' := PutUnits(s, w, units).value; Agrees(b, w'.buf, w.off, w'.off)
    ensures AlignUp(w.off, 2) == w.off && w.off + 2 <= |b|
    ensures (if s.little then LittleUnit(b, w.off) else BigUnit(b, w.off)) == units[0]
    ensures var w1 := Put(s, w, 2, units[0]).value;
            var w' := PutUnits(s, w, units).value;
            w1.off == w.off + 2 && Even(w1.off) && Agrees(b, w'.buf, w1.off, w'.off)
  {
    var w1 := Put(s, w, 2, units[0]).value;
    EvenIsAligned(w.off);
    PutUnitsKeeps(s, w1, units[1..]);
    AgreesEarlier(b, w1, PutUnits(s, w, units).value, w.off);
    UnitRoundTrip(s, w, units[0], b);
  }

  lemma {:induction false} LittleUnitsRoundTrip(s: Syntax, w: Wire, units: seq<nat>, b: seq<byte>)
    requires s.little && PutUnits(s, w, units).Some? && Even(w.off) && CodeUnits(units)
    requires var w' := PutUnits(s, w, units).value; Agrees(b, w'.buf, w.off, w'.off)
    ensures PutUnits(s, w, units).value.off == w.off + 2 * |units|
    ensures LittleUnits(b, w.off, |units|) == units
    decreases |units|
  {
    if units != [] {
      FirstUnit(s, w, units, b);
      LittleUnitsRoundTrip(s, Put(s, w, 2, units[0]).value, units[1..], b);
      LittleUnitsCons(b, w.off, units);
    }
  }

  lemma {:induction false} LittleUnitsCons(buf: seq<byte>, off: nat, units: seq<nat>)
    requires units != [] && off + 2 * |units| <= |buf|
    requires LittleUnit(buf, off) == units[0]
    requires LittleUnits(buf, off + 2, |units| - 1) == units[1..]
    ensures LittleUnits(buf, off, |units|) == units
  {
    assert units == [units[0]] + units[1..];
  }

  lemma {:induction false} BigUnitsRoundTrip(s: Syntax, w: Wire, units: seq<nat>, b: seq<byte>)
    requires !s.little && PutUnits(s, w, units).Some? && Even(w.off) && CodeUnits(units)
    requires var w' := PutUnits(s, w, units).value; Agrees(b, w'.buf, w.off, w'.off)
    ensures PutUnits(s, w, units).value.off == w.off + 2 * |units|
    ensures BigUnits(b, w.off, |units|) == Some(units)
    decreases |units|
  {
    if units != [] {
      FirstUnit(s, w, units, b);
      BigUnitsRoundTrip(s, Put(s, w, 2, units[0]).value, units[1..], b);
      BigUnitsCons(b, w.off, units);
    }
  }

  lemma {:induction false} BigUnitsCons(buf: seq<byte>, off: nat, units: seq<nat>)
    requires units != [] && AlignUp(off, 2) == off && off + 2 <= |buf|
    requires BigUnit(buf, off) == units[0]
    requires BigUnits(buf, off + 2, |units| - 1) == Some(units[1..])
    ensures BigUnits(buf, off, |units|) == Some(units)
  {
    assert units == [units[0]] + units[1..];
  }

  lemma {:induction false} UpToNulAll(units: seq<nat>)
    requires ValidText(units)
    ensures UpToNul(units) == units && UpToNul(units + [0]) == units
    ensures CodeUnits(units) && CodeUnits(units + [0])
  {
    if units != [] {
      UpToNulAll(units[1..]);
      assert (units + [0])[1..] == units[1..] + [0];
      assert units == [units[0]] + units[1..];
    } else {
      assert [] + [0] == [0];
    }
  }

  lemma {:induction false} TextRoundTrip(s: Syntax, nul: bool, units: seq<nat>, w: Wire, b: seq<byte>)
    requires ValidText(units) && PutUnits(s, w, TextUnits(nul, units)).Some? && Even(w.off)
    requires var w' := PutUnits(s, w, TextUnits(nul, units)).value; Agrees(b, w'.buf, w.off, w'.off)
    ensures var w' := PutUnits(s, w, TextUnits(nul, units)).value;
            var r := DecText(s, |TextUnits(nul, units)|, Wire(b, w.off));
            r.Some? && r.value.0 == TextCell(units) && r.value.1.off == w'.off == w.off + 2 * |TextUnits(nul, units)|
  {
    var all := TextUnits(nul, units);
    UpToNulAll(units);
    if s.little {
      LittleUnitsRoundTrip(s, w, all, b);
    } else {
      BigUnitsRoundTrip(s, w, all, b);
    }
  }

  lemma {:induction false} WordRoundTrip(s: Syntax, w: Wire, n: nat, b: seq<byte>)
    requires n < 0x1_0000_0000 || (s.ndr64 && n < 0x1_0000_0000_0000_0000)
    requires Put(s, w, WordSize(s), n).Some?
    requires var w' := Put(s, w, WordSize(s), n).value; Agrees(b, w'.buf, w.off, w'.off)
    ensures var w' := Put(s, w, WordSize(s), n).value;
            Get(s, Wire(b, w.off), WordSize(s)) == Some((n, Wire(b, w'.off))) && Even(w'.off)
  {
    FitsWord(s, n);
    PutGet(s, w, WordSize(s), n, b);
    AlignedIsEven(w.off, WordSize(s));
  }

  lemma {:induction false} NullRoundTrip(s: Syntax, t: Coder, v: Value, e: Enc, d: Dec)
    requires v.Null? && Ready(s, e.q) && Synced(e, d) && EncEmbedded(s, Unique, t, v, e).Some?
    requires var w' := EncEmbedded(s, Unique, t, v, e).value.w; Agrees(d.w.buf, w'.buf, e.w.off, w'.off)
    ensures var e' := EncEmbedded(s, Unique, t, v, e).value;
            DecEmbedded(s, Unique, t, d) == Some((NullCell, d.(w := Wire(d.w.buf, e'.w.off)))) &&
            e'.q == e.q && Even(e'.w.off)
  {
    WordRoundTrip(s, e.w, 0, d.w.buf);
  }

  lemma {:induction false} SetRoundTrip(s: Syntax, kind: PtrKind, t: Coder, v: Value, e: Enc, d: Dec)
    requires v.Pointee? && Typed(s, t, v.v) && Ready(s, e.q) && Synced(e, d) && EncEmbedded(s, kind, t, v, e).Some?
    requires var w' := EncEmbedded(s, kind, t, v, e).value.w; Agrees(d.w.buf, w'.buf, e.w.off, w'.off)
    ensures var e' := EncEmbedded(s, kind, t, v, e).value;
            DecEmbedded(s, kind, t, d) == Some((Slot(|e.q|), Dec(Wire(d.w.buf, e'.w.off), d.q + [t]))) &&
            e'.q == e.q + [Job(t, v.v)] && Even(e'.w.off)
  {
    WordRoundTrip(s, e.w, Referent(s, kind), d.w.buf);
  }

  /** An embedded pointer is null on both sides or queued on both sides. */
  lemma {:induction false} EmbeddedRoundTrip(s: Syntax, kind: PtrKind, t: Coder, v: Value, e: Enc, d: Dec)
    requires (v.Null? && kind == Unique) || (v.Pointee? && Typed(s, t, v.v))
    requires Ready(s, e.q) && EncEmbedded(s, kind, t, v, e).Some? && Synced(e, d)
    requires var w' := EncEmbedded(s, kind, t, v, e).value.w; Agrees(d.w.buf, w'.buf, e.w.off, w'.off)
    ensures var e' := EncEmbedded(s, kind, t, v, e).value;
            var r := DecEmbedded(s, kind, t, d);
            && r.Some? && Synced(e', r.value.1) && r.value.1.w.buf == d.w.buf
            && Stands(r.value.0, v, e'.q, |e.q|) && Even(e'.w.off)
  {
    if v.Null? {
      NullRoundTrip(s, t, v, e, d);
    } else {
      SetRoundTrip(s, kind, t, v, e, d);
      CodersPush(e.q, Job(t, v.v));
    }
  }

  lemma {:induction false} EvenFlips(n: nat)
    ensures Even(n + 1) <==> !Even(n)
  {
    if n >= 2 {
      EvenFlips(n - 2);
    }
  }
}
