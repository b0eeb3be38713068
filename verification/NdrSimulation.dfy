/** The simulation between the encoder's and the decoder's queue of deferred pointers, from one data
    visit to a whole message. */
module NdrSimulation {
  import opened Octet
  import opened Bytes
  import opened Ndr
  import opened NdrEncode
  import opened NdrDecode
  import opened NdrRoundTrip

  // ---- the data visit ------------------------------------------------------------------------------

  lemma {:induction false} PutIntKeeps(s: Syntax, e: Enc, size: nat, n: nat)
    requires IsAlignment(size) && Ready(s, e.q) && PutInt(s, e, size, n).Some?
    ensures Keeps(e.w, PutInt(s, e, size, n).value.w)
  {
    PutKeeps(s, e.w, size, n);
  }

  lemma {:induction false} EmbeddedKeeps(s: Syntax, kind: PtrKind, t: Coder, v: Value, e: Enc)
    requires v.Null? || (v.Pointee? && Typed(s, t, v.v))
    requires Ready(s, e.q) && EncEmbedded(s, kind, t, v, e).Some?
    ensures Keeps(e.w, EncEmbedded(s, kind, t, v, e).value.w)
  {
    PutIntKeeps(s, e, WordSize(s), if v.Null? then 0 else Referent(s, kind));
  }

  lemma {:induction false} DataKeeps(s: Syntax, c: Coder, v: Value, e: Enc)
    requires Typed(s, c, v) && Ready(s, e.q) && EncData(s, c, v, e).Some?
    ensures Keeps(e.w, EncData(s, c, v, e).value.w)
    decreases c, 0
  {
    match c
    case U8 => PutIntKeeps(s, e, 1, v.n);
    case U16 => PutIntKeeps(s, e, 2, v.n);
    case U32 => PutIntKeeps(s, e, 4, v.n);
    case U3264 => PutIntKeeps(s, e, WordSize(s), v.n);
    case Utf16(nul) => PutUnitsKeeps(s, e.w, TextUnits(nul, v.units));
    case Pointer(kind, t) => EmbeddedKeeps(s, kind, t, v, e);
    case Array(elem) => DataKeepsAll(s, elem, v.elems, e);
    case Union(arms) =>
      var e1 := PutInt(s, e, WordSize(s), v.tag).value;
      PutIntKeeps(s, e, WordSize(s), v.tag);
      if ArmCoder(c, v.tag).Some? {
        EmbeddedKeeps(s, Unique, ArmCoder(c, v.tag).value, v.arm, e1);
        KeepsTrans(e.w, e1.w, EncData(s, c, v, e).value.w);
      }
    case Nothing => KeepsSelf(e.w, e.w);
    case Then(a, b) =>
      var e1 := EncData(s, a, v.first, e).value;
      DataKeeps(s, a, v.first, e);
      DataKeeps(s, b, v.rest, e1);
      KeepsTrans(e.w, e1.w, EncData(s, c, v, e).value.w);
  }

  lemma {:induction false} DataKeepsAll(s: Syntax, c: Coder, vs: seq<Value>, e: Enc)
    requires TypedAll(s, c, vs) && Ready(s, e.q) && EncDataAll(s, c, vs, e).Some?
    ensures Keeps(e.w, EncDataAll(s, c, vs, e).value.w)
    decreases c, 1, |vs|
  {
    if vs == [] {
      KeepsSelf(e.w, e.w);
    } else {
      var e1 := EncData(s, c, vs[0], e).value;
      DataKeeps(s, c, vs[0], e);
      DataKeepsAll(s, c, vs[1..], e1);
      KeepsTrans(e.w, e1.w, EncDataAll(s, c, vs, e).value.w);
    }
  }

  /** The decoder's own swaps do not reach what it has still to read. */
  predicate Untouched(w: Wire, w2: Wire) {
    |w.buf| == |w2.buf| && w.off <= w2.off && Same(w.buf, w2.buf, w2.off, |w.buf|)
  }

  lemma {:induction false} UntouchedTrans(w: Wire, w1: Wire, w2: Wire)
    requires Untouched(w, w1) && Untouched(w1, w2)
    ensures Untouched(w, w2)
  {
    SamePart(w.buf, w1.buf, w1.off, |w.buf|, w2.off, |w.buf|);
    SameTrans(w.buf, w1.buf, w2.buf, w2.off, |w.buf|);
  }

  lemma {:induction false} UntouchedSelf(w: Wire, w1: Wire)
    requires w.buf == w1.buf && w.off <= w1.off
    ensures Untouched(w, w1)
  {
    SameSelf(w.buf, w1.off, |w.buf|);
  }

  lemma {:induction false} AgreesAfter(w: Wire, w1: Wire, buf: seq<byte>, lo: nat, hi: nat)
    requires lo <= w1.off <= hi && Agrees(w.buf, buf, lo, hi) && Untouched(w, w1)
    ensures Agrees(w1.buf, buf, w1.off, hi)
  {
    SamePart(w.buf, buf, lo, hi, w1.off, hi);
    SamePart(w.buf, w1.buf, w1.off, |w.buf|, w1.off, hi);
    SameSymmetric(w.buf, w1.buf, w1.off, hi);
    SameTrans(w1.buf, w.buf, buf, w1.off, hi);
  }

  lemma {:induction false} TextUntouched(s: Syntax, n: nat, w: Wire)
    requires DecText(s, n, w).Some?
    ensures Untouched(w, DecText(s, n, w).value.1)
  {
    if s.little {
      UntouchedSelf(w, DecText(s, n, w).value.1);
    } else {
      var octets := LittleOctets(BigUnits(w.buf, w.off, n).value);
      StoreKeeps(w.buf, w.off, octets);
    }
  }

  /** Encoder and decoder agree after the same value: offset, queue, decoded memory, and whether the
      offset is odd. */
  predicate Matched(v: Value, odd: bool, e: Enc, e': Enc, d: Dec, d': Dec, cell: Cell) {
    && Synced(e', d')
    && Untouched(d.w, d'.w)
    && Stands(cell, v, e'.q, |e.q|)
    && (odd <==> !Even(e'.w.off))
  }

  lemma {:induction false} IntMatched(s: Syntax, size: nat, n: nat, e: Enc, d: Dec)
    requires IsAlignment(size) && Ready(s, e.q) && FitsIn(n, size) && PutInt(s, e, size, n).Some? && Synced(e, d)
    requires var w' := PutInt(s, e, size, n).value.w; Agrees(d.w.buf, w'.buf, e.w.off, w'.off)
    ensures var e' := PutInt(s, e, size, n).value;
            var r := GetInt(s, d, size);
            r.Some? && r.value.0 == n && Matched(Num(n), size == 1 && Even(e.w.off), e, e', d, r.value.1, NumCell(n))
  {
    var e' := PutInt(s, e, size, n).value;
    PutGet(s, e.w, size, n, d.w.buf);
    UntouchedSelf(d.w, Wire(d.w.buf, e'.w.off));
    if size == 1 {
      EvenFlips(e.w.off);
      OctetAligned(e.w.off);
    } else {
      AlignedIsEven(e.w.off, size);
    }
  }

  lemma {:induction false} OctetAligned(off: nat)
    ensures AlignUp(off, 1) == off
  {
    if off > 1 {
      OctetAligned(off - 1);
    }
  }

  lemma {:induction false} TextMatched(s: Syntax, nul: bool, v: Value, e: Enc, d: Dec)
    requires Typed(s, Utf16(nul), v) && Ready(s, e.q) && EncData(s, Utf16(nul), v, e).Some? && Synced(e, d)
    requires TextEven(Utf16(nul), v, !Even(e.w.off))
    requires var w' := EncData(s, Utf16(nul), v, e).value.w; Agrees(d.w.buf, w'.buf, e.w.off, w'.off)
    ensures var e' := EncData(s, Utf16(nul), v, e).value;
            var r := DecData(s, Utf16(nul), ShapeOf(s, Utf16(nul), v), d);
            r.Some? && Matched(v, OddAfter(Utf16(nul), v, !Even(e.w.off)), e, e', d, r.value.1, r.value.0)
  {
    var n := |TextUnits(nul, v.units)|;
    PlacedText(s, nul, v.units, e.w, d.w.buf);
    TextUntouched(s, n, d.w);
  }

  /** A string at an even offset, or one without data, is read back with the same end. */
  lemma {:induction false} PlacedText(s: Syntax, nul: bool, units: seq<nat>, w: Wire, b: seq<byte>)
    requires ValidText(units) && PutUnits(s, w, TextUnits(nul, units)).Some?
    requires Even(w.off) || |TextUnits(nul, units)| == 0
    requires var w' := PutUnits(s, w, TextUnits(nul, units)).value; Agrees(b, w'.buf, w.off, w'.off)
    ensures var w' := PutUnits(s, w, TextUnits(nul, units)).value;
            var r := DecText(s, |TextUnits(nul, units)|, Wire(b, w.off));
            r.Some? && r.value.0 == TextCell(units) && r.value.1.off == w'.off && (Even(w'.off) <==> Even(w.off))
  {
    if Even(w.off) {
      TextRoundTrip(s, nul, units, w, b);
      EvenPlusTwice(w.off, |TextUnits(nul, units)|);
    } else {
      EmptyText(s, Wire(b, w.off));
      assert TextUnits(nul, units) == [] && units == [];
    }
  }

  lemma {:induction false} EmptyText(s: Syntax, w: Wire)
    requires w.off <= |w.buf|
    ensures DecText(s, 0, w).Some? && DecText(s, 0, w).value.0 == TextCell([]) && DecText(s, 0, w).value.1.off == w.off
  {
  }

  lemma {:induction false} EmbeddedMatched(s: Syntax, kind: PtrKind, t: Coder, v: Value, e: Enc, d: Dec)
    requires (v.Null? && kind == Unique) || (v.Pointee? && Typed(s, t, v.v))
    requires Ready(s, e.q) && EncEmbedded(s, kind, t, v, e).Some? && Synced(e, d)
    requires var w' := EncEmbedded(s, kind, t, v, e).value.w; Agrees(d.w.buf, w'.buf, e.w.off, w'.off)
    ensures var e' := EncEmbedded(s, kind, t, v, e).value;
            var r := DecEmbedded(s, kind, t, d);
            r.Some? && Matched(v, false, e, e', d, r.value.1, r.value.0)
  {
    EmbeddedRoundTrip(s, kind, t, v, e, d);
    UntouchedSelf(d.w, DecEmbedded(s, kind, t, d).value.1.w);
  }

  lemma {:induction false} UnionMatched(s: Syntax, c: Coder, v: Value, e: Enc, d: Dec)
    requires c.Union? && Typed(s, c, v) && Ready(s, e.q) && EncData(s, c, v, e).Some? && Synced(e, d)
    requires var w' := EncData(s, c, v, e).value.w; Agrees(d.w.buf, w'.buf, e.w.off, w'.off)
    ensures var e' := EncData(s, c, v, e).value;
            var r := DecData(s, c, NoShape, d);
            r.Some? && Matched(v, false, e, e', d, r.value.1, r.value.0)
  {
    var e1 := PutInt(s, e, WordSize(s), v.tag).value;
    var e' := EncData(s, c, v, e).value;
    var arm := ArmCoder(c, v.tag);
    if arm.Some? {
      EmbeddedKeeps(s, Unique, arm.value, v.arm, e1);
    } else {
      KeepsSelf(e1.w, e1.w);
    }
    AgreesEarlier(d.w.buf, e1.w, e'.w, e.w.off);
    FitsWord(s, v.tag);
    IntMatched(s, WordSize(s), v.tag, e, d);
    Fits32(v.tag);
    if arm.Some? {
      var d1 := GetInt(s, d, WordSize(s)).value.1;
      AgreesAfter(d.w, d1.w, e'.w.buf, e.w.off, e'.w.off);
      EmbeddedMatched(s, Unique, arm.value, v.arm, e1, d1);
      UntouchedTrans(d.w, d1.w, DecEmbedded(s, Unique, arm.value, d1).value.1.w);
    }
  }

  /** The data visits of encoder and decoder match, on every buffer that holds the encoder's octets. */
  lemma {:induction false} DataRoundTrip(s: Syntax, c: Coder, v: Value, e: Enc, d: Dec)
    requires Typed(s, c, v) && Ready(s, e.q) && EncData(s, c, v, e).Some? && Synced(e, d)
    requires TextEven(c, v, !Even(e.w.off))
    requires var w' := EncData(s, c, v, e).value.w; Agrees(d.w.buf, w'.buf, e.w.off, w'.off)
    ensures var e' := EncData(s, c, v, e).value;
            var r := DecData(s, c, ShapeOf(s, c, v), d);
            r.Some? && Matched(v, OddAfter(c, v, !Even(e.w.off)), e, e', d, r.value.1, r.value.0)
    decreases c, 0
  {
    match c
    case U8 =>
      FitsInBounds(v.n);
      IntMatched(s, 1, v.n, e, d);
    case U16 =>
      FitsInBounds(v.n);
      IntMatched(s, 2, v.n, e, d);
    case U32 =>
      FitsInBounds(v.n);
      IntMatched(s, 4, v.n, e, d);
    case U3264 =>
      FitsWord(s, v.n);
      IntMatched(s, WordSize(s), v.n, e, d);
    case Utf16(nul) => TextMatched(s, nul, v, e, d);
    case Pointer(kind, t) => EmbeddedMatched(s, kind, t, v, e, d);
    case Array(elem) =>
      DataRoundTripAll(s, elem, v.elems, e, d);
      Fits32(|v.elems|);
    case Union(_) => UnionMatched(s, c, v, e, d);
    case Nothing => UntouchedSelf(d.w, d.w);
    case Then(a, b) => ThenMatched(s, a, b, v, e, d);
  }

  lemma {:induction false} ThenMatched(s: Syntax, a: Coder, b: Coder, v: Value, e: Enc, d: Dec)
    requires Typed(s, Then(a, b), v) && Ready(s, e.q) && EncData(s, Then(a, b), v, e).Some? && Synced(e, d)
    requires TextEven(Then(a, b), v, !Even(e.w.off))
    requires var w' := EncData(s, Then(a, b), v, e).value.w; Agrees(d.w.buf, w'.buf, e.w.off, w'.off)
    ensures var e' := EncData(s, Then(a, b), v, e).value;
            var r := DecData(s, Then(a, b), ShapeOf(s, Then(a, b), v), d);
            r.Some? && Matched(v, OddAfter(Then(a, b), v, !Even(e.w.off)), e, e', d, r.value.1, r.value.0)
    decreases Then(a, b), -1
  {
    var e1 := EncData(s, a, v.first, e).value;
    var e' := EncData(s, b, v.rest, e1).value;
    DataKeeps(s, b, v.rest, e1);
    AgreesEarlier(d.w.buf, e1.w, e'.w, e.w.off);
    DataRoundTrip(s, a, v.first, e, d);
    var (ca, d1) := DecData(s, a, ShapeOf(s, a, v.first), d).value;
    AgreesAfter(d.w, d1.w, e'.w.buf, e.w.off, e'.w.off);
    DataRoundTrip(s, b, v.rest, e1, d1);
    var (cb, d2) := DecData(s, b, ShapeOf(s, b, v.rest), d1).value;
    BothMatched(v, OddAfter(a, v.first, !Even(e.w.off)), OddAfter(b, v.rest, !Even(e1.w.off)), e, e1, e', d, d1, d2, ca, cb);
  }

  lemma {:induction false} BothMatched(v: Value, odd1: bool, odd2: bool, e: Enc, e1: Enc, e2: Enc,
                                       d: Dec, d1: Dec, d2: Dec, ca: Cell, cb: Cell)
    requires v.Both? && e.q <= e1.q <= e2.q
    requires Matched(v.first, odd1, e, e1, d, d1, ca) && Matched(v.rest, odd2, e1, e2, d1, d2, cb)
    ensures Matched(v, odd2, e, e2, d, d2, BothCells(ca, cb))
  {
    UntouchedTrans(d.w, d1.w, d2.w);
    StandsLonger(ca, v.first, e1.q, |e.q|, e2.q, |e.q|);
    StandsLonger(cb, v.rest, e2.q, |e1.q|, e2.q, |e.q|);
  }

  lemma {:induction false} DataRoundTripAll(s: Syntax, c: Coder, vs: seq<Value>, e: Enc, d: Dec)
    requires TypedAll(s, c, vs) && Ready(s, e.q) && EncDataAll(s, c, vs, e).Some? && Synced(e, d)
    requires TextEvenAll(c, vs, !Even(e.w.off))
    requires var w' := EncDataAll(s, c, vs, e).value.w; Agrees(d.w.buf, w'.buf, e.w.off, w'.off)
    ensures var e' := EncDataAll(s, c, vs, e).value;
            var r := DecDataAll(s, c, ShapesOf(s, c, vs), |vs|, d);
            r.Some? && Matched(Items(vs), OddAfterAll(c, vs, !Even(e.w.off)), e, e', d, r.value.1, ItemCells(r.value.0))
    decreases c, 1, |vs|, 1
  {
    if vs == [] {
      UntouchedSelf(d.w, d.w);
    } else {
      ItemsMatched(s, c, vs, e, EncData(s, c, vs[0], e).value, EncDataAll(s, c, vs, e).value, d);
    }
  }

  lemma {:induction false} ItemsMatched(s: Syntax, c: Coder, vs: seq<Value>, e: Enc, e1: Enc, e': Enc, d: Dec)
    requires vs != [] && TypedAll(s, c, vs) && Ready(s, e.q) && Synced(e, d) && TextEvenAll(c, vs, !Even(e.w.off))
    requires EncData(s, c, vs[0], e) == Some(e1) && EncDataAll(s, c, vs[1..], e1) == Some(e')
    requires Agrees(d.w.buf, e'.w.buf, e.w.off, e'.w.off)
    ensures var r := DecDataAll(s, c, ShapesOf(s, c, vs), |vs|, d);
            r.Some? && Matched(Items(vs), OddAfterAll(c, vs, !Even(e.w.off)), e, e', d, r.value.1, ItemCells(r.value.0))
    decreases c, 1, |vs|, 0
  {
    var tail := vs[1..];
    DataKeepsAll(s, c, tail, e1);
    AgreesEarlier(d.w.buf, e1.w, e'.w, e.w.off);
    DataRoundTrip(s, c, vs[0], e, d);
    var head := DecData(s, c, ShapeOf(s, c, vs[0]), d);
    var d1 := head.value.1;
    AgreesAfter(d.w, d1.w, e'.w.buf, e.w.off, e'.w.off);
    DataRoundTripAll(s, c, tail, e1, d1);
    var rest := DecDataAll(s, c, ShapesOf(s, c, tail), |tail|, d1);
    ConsDecodes(s, c, vs, d, head.value.0, d1, rest.value.0, rest.value.1);
    ConsMatched(vs, OddAfter(c, vs[0], !Even(e.w.off)), OddAfterAll(c, tail, !Even(e1.w.off)),
                e, e1, e', d, d1, rest.value.1, head.value.0, rest.value.0);
  }

  lemma {:induction false} ConsDecodes(s: Syntax, c: Coder, vs: seq<Value>, d: Dec, cell: Cell, d1: Dec, cells: seq<Cell>, d2: Dec)
    requires TypedAll(s, c, vs) && vs != [] && |d.q| <= MAX_DEFERRED && |d1.q| <= MAX_DEFERRED
    requires DecData(s, c, ShapeOf(s, c, vs[0]), d) == Some((cell, d1))
    requires DecDataAll(s, c, ShapesOf(s, c, vs[1..]), |vs[1..]|, d1) == Some((cells, d2))
    ensures DecDataAll(s, c, ShapesOf(s, c, vs), |vs|, d) == Some(([cell] + cells, d2))
  {
    assert ShapesOf(s, c, vs)[1..] == ShapesOf(s, c, vs[1..]);
  }

  lemma {:induction false} ConsMatched(vs: seq<Value>, odd1: bool, odd2: bool, e: Enc, e1: Enc, e2: Enc,
                                       d: Dec, d1: Dec, d2: Dec, cell: Cell, cells: seq<Cell>)
    requires vs != [] && e.q <= e1.q <= e2.q
    requires Matched(vs[0], odd1, e, e1, d, d1, cell) && Matched(Items(vs[1..]), odd2, e1, e2, d1, d2, ItemCells(cells))
    ensures Matched(Items(vs), odd2, e, e2, d, d2, ItemCells([cell] + cells))
  {
    UntouchedTrans(d.w, d1.w, d2.w);
    StandsLonger(cell, vs[0], e1.q, |e.q|, e2.q, |e.q|);
    StandsLongerAll(cells, vs[1..], e2.q, |e1.q|, e2.q, |e.q|);
    assert ([cell] + cells)[1..] == cells;
  }

  // ---- one pointee ---------------------------------------------------------------------------------

  lemma {:induction false} OneKeeps(s: Syntax, c: Coder, v: Value, e: Enc)
    requires Typed(s, c, v) && Ready(s, e.q) && EncOne(s, c, v, e).Some?
    ensures var w1 := EncConf(s, c, v, e.w).value;
            var w2 := w1.(off := AlignUp(w1.off, MaxAlign(s, c, v, 1)));
            Keeps(e.w, w1) && Keeps(w1, w2) && Keeps(w2, EncOne(s, c, v, e).value.w)
    ensures Keeps(e.w, EncOne(s, c, v, e).value.w)
  {
    var w1 := EncConf(s, c, v, e.w).value;
    var w2 := w1.(off := AlignUp(w1.off, MaxAlign(s, c, v, 1)));
    var w3 := EncOne(s, c, v, e).value.w;
    ConfKeeps(s, c, v, e.w);
    KeepsSelf(w1, w2);
    DataKeeps(s, c, v, e.(w := w2));
    KeepsTrans(w1, w2, w3);
    KeepsTrans(e.w, w1, w3);
  }

  lemma {:induction false} DataStartsPlaced(s: Syntax, c: Coder, v: Value, off: nat)
    requires Typed(s, c, v) && TextEven(c, v, false)
    ensures TextEven(c, v, !Even(AlignUp(off, MaxAlign(s, c, v, 1))))
  {
    if HasText(c, v) {
      TextAligns(s, c, v, 1);
      AlignedIsEven(off, MaxAlign(s, c, v, 1));
    } else {
      NoTextAnywhere(s, c, v, !Even(AlignUp(off, MaxAlign(s, c, v, 1))));
    }
  }

  lemma {:induction false} OneRoundTrip(s: Syntax, c: Coder, v: Value, e: Enc, d: Dec)
    requires Typed(s, c, v) && Ready(s, e.q) && EncOne(s, c, v, e).Some? && Synced(e, d) && TextEven(c, v, false)
    requires var w' := EncOne(s, c, v, e).value.w; Agrees(d.w.buf, w'.buf, e.w.off, w'.off)
    ensures var e' := EncOne(s, c, v, e).value;
            var r := DecOne(s, c, d);
            r.Some? && Matched(v, !Even(e'.w.off), e, e', d, r.value.1, r.value.0)
  {
    var w1 := EncConf(s, c, v, e.w).value;
    var w2 := w1.(off := AlignUp(w1.off, MaxAlign(s, c, v, 1)));
    var w' := EncOne(s, c, v, e).value.w;
    OneKeeps(s, c, v, e);
    AgreesEarlier(d.w.buf, w2, w', e.w.off);
    AgreesEarlier(d.w.buf, w1, w2, e.w.off);
    ConfRoundTrip(s, c, v, e.w, d.w.buf);
    SameAlignment(s, c, v, 1);
    DataStartsPlaced(s, c, v, w1.off);
    var d2 := d.(w := Wire(d.w.buf, w2.off));
    DataRoundTrip(s, c, v, e.(w := w2), d2);
    UntouchedSelf(d.w, d2.w);
    UntouchedTrans(d.w, d2.w, DecData(s, c, ShapeOf(s, c, v), d2).value.1.w);
  }

  // ---- the queue -----------------------------------------------------------------------------------

  /** Slot `k` is decoded memory for job `k`, its pointers being later jobs. */
  predicate SlotsStand(slots: seq<Cell>, q: seq<Job>)
    decreases |slots|
  {
    var n := |slots|;
    n == 0 || (n <= |q| && Stands(slots[n - 1], q[n - 1].value, q, n) && SlotsStand(slots[..n - 1], q))
  }

  lemma {:induction false} SlotsStandLonger(slots: seq<Cell>, q: seq<Job>, q2: seq<Job>)
    requires SlotsStand(slots, q) && q <= q2
    ensures SlotsStand(slots, q2)
    decreases |slots|
  {
    var n := |slots|;
    if n > 0 {
      StandsLonger(slots[n - 1], q[n - 1].value, q, n, q2, n);
      SlotsStandLonger(slots[..n - 1], q, q2);
    }
  }

  lemma {:induction false} SlotsStandAt(slots: seq<Cell>, q: seq<Job>, k: nat)
    requires SlotsStand(slots, q) && k < |slots|
    ensures k < |q| && Stands(slots[k], q[k].value, q, k + 1)
    decreases |slots|
  {
    if k < |slots| - 1 {
      SlotsStandAt(slots[..|slots| - 1], q, k);
    }
  }

  predicate AllPlaced(q: seq<Job>)
    decreases |q|
  {
    var n := |q|;
    n == 0 || (TextEven(q[n - 1].coder, q[n - 1].value, false) && TextPlaced(q[n - 1].coder, q[n - 1].value) && AllPlaced(q[..n - 1]))
  }

  lemma {:induction false} AllPlacedAt(q: seq<Job>, k: nat)
    requires AllPlaced(q) && k < |q|
    ensures TextEven(q[k].coder, q[k].value, false) && TextPlaced(q[k].coder, q[k].value)
    decreases |q|
  {
    if k < |q| - 1 {
      AllPlacedAt(q[..|q| - 1], k);
    }
  }

  lemma {:induction false} EmbeddedPlaces(s: Syntax, kind: PtrKind, t: Coder, v: Value, e: Enc)
    requires v.Null? || (v.Pointee? && Typed(s, t, v.v) && TextEven(t, v.v, false) && TextPlaced(t, v.v))
    requires Ready(s, e.q) && AllPlaced(e.q) && EncEmbedded(s, kind, t, v, e).Some?
    ensures AllPlaced(EncEmbedded(s, kind, t, v, e).value.q)
  {
    if v.Pointee? {
      assert (e.q + [Job(t, v.v)])[..|e.q|] == e.q;
    }
  }

  lemma {:induction false} DataPlaces(s: Syntax, c: Coder, v: Value, e: Enc)
    requires Typed(s, c, v) && Ready(s, e.q) && AllPlaced(e.q) && TextPlaced(c, v) && EncData(s, c, v, e).Some?
    ensures AllPlaced(EncData(s, c, v, e).value.q)
    decreases c, 0
  {
    match c
    case Pointer(kind, t) => EmbeddedPlaces(s, kind, t, v, e);
    case Array(elem) => DataPlacesAll(s, elem, v.elems, e);
    case Union(_) =>
      var e1 := PutInt(s, e, WordSize(s), v.tag).value;
      if ArmCoder(c, v.tag).Some? {
        EmbeddedPlaces(s, Unique, ArmCoder(c, v.tag).value, v.arm, e1);
      }
    case Then(a, b) =>
      DataPlaces(s, a, v.first, e);
      DataPlaces(s, b, v.rest, EncData(s, a, v.first, e).value);
    case _ =>
  }

  lemma {:induction false} DataPlacesAll(s: Syntax, c: Coder, vs: seq<Value>, e: Enc)
    requires TypedAll(s, c, vs) && Ready(s, e.q) && AllPlaced(e.q) && TextPlacedAll(c, vs) && EncDataAll(s, c, vs, e).Some?
    ensures AllPlaced(EncDataAll(s, c, vs, e).value.q)
    decreases c, 1, |vs|
  {
    if vs != [] {
      DataPlaces(s, c, vs[0], e);
      DataPlacesAll(s, c, vs[1..], EncData(s, c, vs[0], e).value);
    }
  }

  lemma {:induction false} DrainKeeps(s: Syntax, e: Enc, cur: nat)
    requires Ready(s, e.q) && cur <= |e.q| && EncDrain(s, e, cur).Some?
    ensures Keeps(e.w, EncDrain(s, e, cur).value.w)
    decreases MAX_DEFERRED - cur
  {
    if cur == |e.q| {
      KeepsSelf(e.w, e.w);
    } else {
      AllTypedAt(s, e.q, cur);
      var e1 := EncOne(s, e.q[cur].coder, e.q[cur].value, e).value;
      OneKeeps(s, e.q[cur].coder, e.q[cur].value, e);
      DrainKeeps(s, e1, cur + 1);
      KeepsTrans(e.w, e1.w, EncDrain(s, e, cur).value.w);
    }
  }

  /** The state shared by encoder and decoder between two pointees. */
  predicate InStep(e: Enc, d: Dec, slots: seq<Cell>) {
    Synced(e, d) && AllPlaced(e.q) && SlotsStand(slots, e.q) && |slots| <= |e.q|
  }

  /** Draining both queues from the same point ends with every job decoded. */
  lemma {:induction false} DrainRoundTrip(s: Syntax, e: Enc, d: Dec, slots: seq<Cell>)
    requires Ready(s, e.q) && InStep(e, d, slots) && EncDrain(s, e, |slots|).Some?
    requires var w' := EncDrain(s, e, |slots|).value.w; Agrees(d.w.buf, w'.buf, e.w.off, w'.off)
    ensures var e' := EncDrain(s, e, |slots|).value;
            var r := DecDrain(s, d, slots);
            r.Some? && InStep(e', r.value.1, r.value.0) && |r.value.0| == |e'.q| && Untouched(d.w, r.value.1.w)
    decreases MAX_DEFERRED - |slots|
  {
    hide TextEven;
    hide TextPlaced;
    hide AllPlaced;
    hide Stands;
    hide SlotsStand;
    hide EncOne;
    hide DecOne;
    hide Agrees;
    hide Untouched;
    var cur := |slots|;
    if cur == |e.q| {
      UntouchedSelf(d.w, d.w);
    } else {
      var e' := EncDrain(s, e, cur).value;
      var job := e.q[cur];
      AllTypedAt(s, e.q, cur);
      var e1 := EncOne(s, job.coder, job.value, e).value;
      CodersAt(e.q, cur);
      AllPlacedAt(e.q, cur);
      DrainKeeps(s, e1, cur + 1);
      AgreesEarlier(d.w.buf, e1.w, e'.w, e.w.off);
      OneRoundTrip(s, job.coder, job.value, e, d);
      var (cell, d1) := DecOne(s, job.coder, d).value;
      AgreesAfter(d.w, d1.w, e'.w.buf, e.w.off, e'.w.off);
      StepOne(s, job, e, d, slots, e1, d1, cell);
      DrainRoundTrip(s, e1, d1, slots + [cell]);
      UntouchedTrans(d.w, d1.w, DecDrain(s, d1, slots + [cell]).value.1.w);
    }
  }

  lemma {:induction false} OnePlaces(s: Syntax, c: Coder, v: Value, e: Enc)
    requires Typed(s, c, v) && Ready(s, e.q) && AllPlaced(e.q) && TextPlaced(c, v) && EncOne(s, c, v, e).Some?
    ensures AllPlaced(EncOne(s, c, v, e).value.q)
  {
    var w1 := EncConf(s, c, v, e.w).value;
    DataPlaces(s, c, v, e.(w := w1.(off := AlignUp(w1.off, MaxAlign(s, c, v, 1)))));
  }

  lemma {:induction false} StepOne(s: Syntax, job: Job, e: Enc, d: Dec, slots: seq<Cell>, e1: Enc, d1: Dec, cell: Cell)
    requires Ready(s, e.q) && InStep(e, d, slots) && |slots| < |e.q| && job == e.q[|slots|]
    requires Typed(s, job.coder, job.value)
    requires EncOne(s, job.coder, job.value, e) == Some(e1) && Synced(e1, d1)
    requires Stands(cell, job.value, e1.q, |e.q|)
    ensures InStep(e1, d1, slots + [cell])
  {
    var n := |slots|;
    AllPlacedAt(e.q, n);
    OnePlaces(s, job.coder, job.value, e);
    SlotsStandLonger(slots, e.q, e1.q);
    StandsLonger(cell, job.value, e1.q, |e.q|, e1.q, n + 1);
    assert (slots + [cell])[..n] == slots;
  }
}
