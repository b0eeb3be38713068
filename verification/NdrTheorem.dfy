/** The marshalling law: decoding the encoder's octets gives back the tree and the end offset. */
module NdrTheorem {
  import opened Octet
  import opened Bytes
  import opened Ndr
  import opened NdrEncode
  import opened NdrDecode
  import opened NdrRoundTrip
  import opened NdrSimulation

  lemma {:induction false} InlineKeeps(s: Syntax, t: Coder, v: Value, e: Enc)
    requires Typed(s, t, v) && Ready(s, e.q) && EncInline(s, t, v, e).Some?
    ensures Keeps(e.w, EncInline(s, t, v, e).value.w)
  {
    var e1 := EncOne(s, t, v, e).value;
    OneKeeps(s, t, v, e);
    DrainKeeps(s, e1, |e.q|);
    KeepsTrans(e.w, e1.w, EncInline(s, t, v, e).value.w);
  }

  lemma {:induction false} TopPtrKeeps(s: Syntax, kind: PtrKind, t: Coder, v: Value, e: Enc)
    requires (v.Null? && kind == Unique) || (v.Pointee? && Typed(s, t, v.v))
    requires Ready(s, e.q) && EncTopPtr(s, kind, t, v, e).Some?
    ensures Keeps(e.w, EncTopPtr(s, kind, t, v, e).value.w)
  {
    if v.Null? {
      PutIntKeeps(s, e, WordSize(s), 0);
    } else if kind == Ref {
      InlineKeeps(s, t, v.v, e);
    } else {
      var e1 := PutInt(s, e, WordSize(s), Referent(s, kind)).value;
      PutIntKeeps(s, e, WordSize(s), Referent(s, kind));
      InlineKeeps(s, t, v.v, e1);
      KeepsTrans(e.w, e1.w, EncTopPtr(s, kind, t, v, e).value.w);
    }
  }

  lemma {:induction false} TopKeeps(s: Syntax, c: Coder, v: Value, e: Enc)
    requires Typed(s, c, v) && TopLevel(c) && Ready(s, e.q) && EncTop(s, c, v, e).Some?
    ensures Keeps(e.w, EncTop(s, c, v, e).value.w)
    decreases c
  {
    if c.Pointer? {
      TopPtrKeeps(s, c.kind, c.target, v, e);
    } else if c.Union? {
      var e1 := PutInt(s, e, WordSize(s), v.tag).value;
      PutIntKeeps(s, e, WordSize(s), v.tag);
      if ArmCoder(c, v.tag).Some? {
        TopPtrKeeps(s, Unique, ArmCoder(c, v.tag).value, v.arm, e1);
        KeepsTrans(e.w, e1.w, EncTop(s, c, v, e).value.w);
      }
    } else if c.Then? {
      var e1 := EncTop(s, c.first, v.first, e).value;
      TopKeeps(s, c.first, v.first, e);
      TopKeeps(s, c.rest, v.rest, e1);
      KeepsTrans(e.w, e1.w, EncTop(s, c, v, e).value.w);
    } else {
      DataKeeps(s, c, v, e);
    }
  }

  /** Between top-level items both queues are drained: every job has its slot. */
  predicate Drained(e: Enc, d: Dec, slots: seq<Cell>) {
    InStep(e, d, slots) && |slots| == |e.q|
  }

  predicate TopMatched(v: Value, e: Enc, e': Enc, d: Dec, r: Option<Memory>) {
    && r.Some?
    && Drained(e', r.value.d, r.value.slots)
    && Untouched(d.w, r.value.d.w)
    && Stands(r.value.cell, v, e'.q, |e.q|)
  }

  lemma {:induction false} InlineRoundTrip(s: Syntax, t: Coder, v: Value, e: Enc, d: Dec, slots: seq<Cell>)
    requires Typed(s, t, v) && TextEven(t, v, false) && TextPlaced(t, v)
    requires Ready(s, e.q) && Drained(e, d, slots) && EncInline(s, t, v, e).Some?
    requires var w' := EncInline(s, t, v, e).value.w; Agrees(d.w.buf, w'.buf, e.w.off, w'.off)
    ensures var e' := EncInline(s, t, v, e).value;
            TopMatched(Pointee(v), e, e', d, DecInline(s, t, d, slots))
  {
    var e1 := EncOne(s, t, v, e).value;
    var e' := EncInline(s, t, v, e).value;
    DrainKeeps(s, e1, |e.q|);
    AgreesEarlier(d.w.buf, e1.w, e'.w, e.w.off);
    OneRoundTrip(s, t, v, e, d);
    var (cell, d1) := DecOne(s, t, d).value;
    AgreesAfter(d.w, d1.w, e'.w.buf, e.w.off, e'.w.off);
    OnePlaces(s, t, v, e);
    SlotsStandLonger(slots, e.q, e1.q);
    DrainRoundTrip(s, e1, d1, slots);
    UntouchedTrans(d.w, d1.w, DecDrain(s, d1, slots).value.1.w);
    StandsLonger(cell, v, e1.q, |e.q|, e'.q, |e.q|);
  }

  lemma {:induction false} TopWord(s: Syntax, n: nat, e: Enc, d: Dec, slots: seq<Cell>)
    requires n < 0x1_0000_0000 || (s.ndr64 && n < 0x1_0000_0000_0000_0000)
    requires Ready(s, e.q) && Drained(e, d, slots) && PutInt(s, e, WordSize(s), n).Some?
    requires var w' := PutInt(s, e, WordSize(s), n).value.w; Agrees(d.w.buf, w'.buf, e.w.off, w'.off)
    ensures var e' := PutInt(s, e, WordSize(s), n).value;
            var d' := d.(w := Wire(d.w.buf, e'.w.off));
            GetInt(s, d, WordSize(s)) == Some((n, d')) && Drained(e', d', slots) && Untouched(d.w, d'.w)
  {
    WordRoundTrip(s, e.w, n, d.w.buf);
    UntouchedSelf(d.w, Wire(d.w.buf, PutInt(s, e, WordSize(s), n).value.w.off));
  }

  lemma {:induction false} TopPtrRoundTrip(s: Syntax, kind: PtrKind, t: Coder, v: Value, e: Enc, d: Dec, slots: seq<Cell>)
    requires (v.Null? && kind == Unique) || (v.Pointee? && Typed(s, t, v.v) && TextEven(t, v.v, false) && TextPlaced(t, v.v))
    requires Ready(s, e.q) && Drained(e, d, slots) && EncTopPtr(s, kind, t, v, e).Some?
    requires var w' := EncTopPtr(s, kind, t, v, e).value.w; Agrees(d.w.buf, w'.buf, e.w.off, w'.off)
    ensures TopMatched(v, e, EncTopPtr(s, kind, t, v, e).value, d, DecTopPtr(s, kind, t, d, slots))
  {
    if v.Null? {
      TopWord(s, 0, e, d, slots);
    } else if kind == Ref {
      InlineRoundTrip(s, t, v.v, e, d, slots);
    } else {
      var id := Referent(s, kind);
      var e1 := PutInt(s, e, WordSize(s), id).value;
      var e' := EncTopPtr(s, kind, t, v, e).value;
      InlineKeeps(s, t, v.v, e1);
      AgreesEarlier(d.w.buf, e1.w, e'.w, e.w.off);
      TopWord(s, id, e, d, slots);
      var d1 := d.(w := Wire(d.w.buf, e1.w.off));
      InlineRoundTrip(s, t, v.v, e1, d1, slots);
      UntouchedTrans(d.w, d1.w, DecInline(s, t, d1, slots).value.d.w);
    }
  }

  lemma {:induction false} BareUnionRoundTrip(s: Syntax, c: Coder, v: Value, e: Enc, d: Dec, slots: seq<Cell>)
    requires c.Union? && Typed(s, c, v) && TextPlaced(c, v) && ArmCoder(c, v.tag).None?
    requires Ready(s, e.q) && Drained(e, d, slots) && EncTop(s, c, v, e).Some?
    requires var w' := EncTop(s, c, v, e).value.w; Agrees(d.w.buf, w'.buf, e.w.off, w'.off)
    ensures TopMatched(v, e, EncTop(s, c, v, e).value, d, DecTop(s, c, d, slots))
  {
    TopWord(s, v.tag, e, d, slots);
    Fits32(v.tag);
  }

  lemma {:induction false} ArmRoundTrip(s: Syntax, c: Coder, v: Value, e: Enc, d: Dec, slots: seq<Cell>)
    requires c.Union? && Typed(s, c, v) && TextPlaced(c, v) && ArmCoder(c, v.tag).Some?
    requires Ready(s, e.q) && Drained(e, d, slots) && EncTop(s, c, v, e).Some?
    requires var w' := EncTop(s, c, v, e).value.w; Agrees(d.w.buf, w'.buf, e.w.off, w'.off)
    ensures TopMatched(v, e, EncTop(s, c, v, e).value, d, DecTop(s, c, d, slots))
  {
    var t := ArmCoder(c, v.tag).value;
    var e1 := PutInt(s, e, WordSize(s), v.tag).value;
    var e' := EncTopPtr(s, Unique, t, v.arm, e1).value;
    TopPtrKeeps(s, Unique, t, v.arm, e1);
    AgreesEarlier(d.w.buf, e1.w, e'.w, e.w.off);
    TopWord(s, v.tag, e, d, slots);
    Fits32(v.tag);
    var d1 := d.(w := Wire(d.w.buf, e1.w.off));
    TopPtrRoundTrip(s, Unique, t, v.arm, e1, d1, slots);
    var m := DecTopPtr(s, Unique, t, d1, slots);
    UntouchedTrans(d.w, d1.w, m.value.d.w);
    ArmDecodes(s, c, v.tag, t, d, d1, slots, m);
  }

  lemma {:induction false} ArmDecodes(s: Syntax, c: Coder, tag: nat, t: Coder, d: Dec, d1: Dec, slots: seq<Cell>, m: Option<Memory>)
    requires c.Union? && ArmCoder(c, tag) == Some(t) && |slots| == |d.q| <= MAX_DEFERRED && d1.q == d.q
    requires GetInt(s, d, WordSize(s)) == Some((tag, d1)) && tag % 0x1_0000_0000 == tag
    requires m.Some? && m == DecTopPtr(s, Unique, t, d1, slots)
    ensures DecTop(s, c, d, slots) == Some(m.value.(cell := TaggedCell(tag, m.value.cell)))
  {
  }

  lemma {:induction false} TopNumber(s: Syntax, c: Coder, v: Value, e: Enc, d: Dec, slots: seq<Cell>)
    requires (c.U8? || c.U16? || c.U32? || c.U3264?) && Typed(s, c, v)
    requires Ready(s, e.q) && Drained(e, d, slots) && EncTop(s, c, v, e).Some?
    requires var w' := EncTop(s, c, v, e).value.w; Agrees(d.w.buf, w'.buf, e.w.off, w'.off)
    ensures TopMatched(v, e, EncTop(s, c, v, e).value, d, DecTop(s, c, d, slots))
  {
    FitsInBounds(v.n);
    FitsWord(s, if c.U3264? then v.n else 0);
    IntMatched(s, if c.U8? then 1 else if c.U16? then 2 else if c.U32? then 4 else WordSize(s), v.n, e, d);
  }

  lemma {:induction false} TopRoundTrip(s: Syntax, c: Coder, v: Value, e: Enc, d: Dec, slots: seq<Cell>)
    requires Typed(s, c, v) && TopLevel(c) && TextPlaced(c, v)
    requires Ready(s, e.q) && Drained(e, d, slots) && EncTop(s, c, v, e).Some?
    requires var w' := EncTop(s, c, v, e).value.w; Agrees(d.w.buf, w'.buf, e.w.off, w'.off)
    ensures TopMatched(v, e, EncTop(s, c, v, e).value, d, DecTop(s, c, d, slots))
    decreases c
  {
    if c.Pointer? {
      TopPtrRoundTrip(s, c.kind, c.target, v, e, d, slots);
    } else if c.Union? {
      if ArmCoder(c, v.tag).Some? {
        ArmRoundTrip(s, c, v, e, d, slots);
      } else {
        BareUnionRoundTrip(s, c, v, e, d, slots);
      }
    } else if c.Then? {
      var e1 := EncTop(s, c.first, v.first, e).value;
      var e' := EncTop(s, c, v, e).value;
      TopKeeps(s, c.rest, v.rest, e1);
      AgreesEarlier(d.w.buf, e1.w, e'.w, e.w.off);
      TopRoundTrip(s, c.first, v.first, e, d, slots);
      var m1 := DecTop(s, c.first, d, slots).value;
      AgreesAfter(d.w, m1.d.w, e'.w.buf, e.w.off, e'.w.off);
      TopRoundTrip(s, c.rest, v.rest, e1, m1.d, m1.slots);
      var m2 := DecTop(s, c.rest, m1.d, m1.slots).value;
      UntouchedTrans(d.w, m1.d.w, m2.d.w);
      StandsLonger(m1.cell, v.first, e1.q, |e.q|, e'.q, |e.q|);
      StandsLonger(m2.cell, v.rest, e'.q, |e1.q|, e'.q, |e.q|);
    } else if c.Nothing? {
      UntouchedSelf(d.w, d.w);
    } else {
      TopNumber(s, c, v, e, d, slots);
    }
  }

  /** Following the decoded pointers gives the encoded tree. */
  lemma {:induction false} FollowStands(cell: Cell, v: Value, slots: seq<Cell>, q: seq<Job>, lo: nat)
    requires SlotsStand(slots, q) && |slots| == |q| && Stands(cell, v, q, lo)
    ensures Follow(cell, slots, lo) == v
    decreases |slots| - lo, cell, 0
  {
    match cell
    case Slot(k) =>
      SlotsStandAt(slots, q, k);
      FollowStands(slots[k], q[k].value, slots, q, k + 1);
    case Direct(t) => FollowStands(t, v.v, slots, q, lo);
    case ItemCells(cs) => FollowStandsAll(cs, v.elems, slots, q, lo);
    case TaggedCell(_, a) => FollowStands(a, v.arm, slots, q, lo);
    case BothCells(a, b) =>
      FollowStands(a, v.first, slots, q, lo);
      FollowStands(b, v.rest, slots, q, lo);
    case _ =>
  }

  lemma {:induction false} FollowStandsAll(cells: seq<Cell>, vs: seq<Value>, slots: seq<Cell>, q: seq<Job>, lo: nat)
    requires SlotsStand(slots, q) && |slots| == |q| && StandsAll(cells, vs, q, lo)
    ensures FollowAll(cells, slots, lo) == vs
    decreases |slots| - lo, cells, 1
  {
    if cells != [] {
      FollowStands(cells[0], vs[0], slots, q, lo);
      FollowStandsAll(cells[1..], vs[1..], slots, q, lo);
      assert vs == [vs[0]] + vs[1..];
    }
  }

  /** For every coder, syntax, byte order and well-placed value: if encoding at `off` succeeds, then
      decoding any buffer that holds the encoder's octets, from the same offset, succeeds, ends at the
      same offset, and leaves memory in which the encoded tree is found. */
  lemma {:induction false} RoundTrip(s: Syntax, c: Coder, v: Value, buf: seq<byte>, off: nat, b: seq<byte>)
    requires Typed(s, c, v) && TopLevel(c) && TextPlaced(c, v)
    ensures var r := EncTop(s, c, v, Enc(Wire(buf, off), []));
            r.Some? && Agrees(b, r.value.w.buf, off, r.value.w.off) ==>
              var m := DecTop(s, c, Dec(Wire(b, off), []), []);
              m.Some? && m.value.d.w.off == r.value.w.off && Follow(m.value.cell, m.value.slots, 0) == v
  {
    var e, d := Enc(Wire(buf, off), []), Dec(Wire(b, off), []);
    var r := EncTop(s, c, v, e);
    if r.Some? && Agrees(b, r.value.w.buf, off, r.value.w.off) {
      TopRoundTrip(s, c, v, e, d, []);
      var m := DecTop(s, c, d, []).value;
      FollowStands(m.cell, v, m.slots, r.value.q, 0);
    }
  }

  // ---- where the law fails -----------------------------------------------------------------------

  lemma {:induction false} OddAligned(off: nat)
    requires !Even(off)
    ensures AlignUp(off, 2) == off + 1 && Even(off + 1)
  {
    if off > 2 {
      OddAligned(off - 2);
    }
  }

  lemma {:induction false} UnitsEnd(s: Syntax, units: seq<nat>, w: Wire)
    requires PutUnits(s, w, units).Some?
    ensures PutUnits(s, w, units).value.off ==
            w.off + 2 * |units| + (if Even(w.off) || units == [] then 0 else 1)
    decreases |units|
  {
    if units != [] {
      if Even(w.off) {
        EvenIsAligned(w.off);
      } else {
        OddAligned(w.off);
        EvenPlusTwice(w.off + 1, 1);
      }
      UnitsEnd(s, units[1..], Put(s, w, 2, units[0]).value);
    }
  }

  /** The decoder finds the end of a string exactly when the string stands at an even offset or has no
      data: only the encoder aligns. */
  lemma {:induction false} TextEndsTogether(s: Syntax, nul: bool, units: seq<nat>, w: Wire, b: seq<byte>)
    ensures var n := |TextUnits(nul, units)|;
            var enc, dec := PutUnits(s, w, TextUnits(nul, units)), DecText(s, n, Wire(b, w.off));
            enc.Some? && dec.Some? ==> (dec.value.1.off == enc.value.off <==> Even(w.off) || n == 0)
  {
    if PutUnits(s, w, TextUnits(nul, units)).Some? {
      UnitsEnd(s, TextUnits(nul, units), w);
    }
  }
}
