/** The exact condition of the marshalling law for little-endian data. The encoder aligns the data of a string
    and the decoder does not, so a string after an odd number of octets is read one octet early: its first
    unit takes in the octet skipped for alignment, which nobody has written. */
module NdrMisplaced {
  import opened Octet
  import opened Bytes
  import opened Ndr
  import opened NdrEncode
  import opened NdrDecode
  import opened NdrRoundTrip
  import opened NdrSimulation
  import opened NdrTheorem
  import opened NdrPlan

  // ---- which octet would hide the difference -------------------------------------------------------

  /** The low octet of the first unit of the first misplaced string: the one value of the skipped octet with
      which that unit reads the same. */
  function Clash(c: Coder, v: Value, odd: bool): Option<nat>
    decreases c, 0
  {
    match c
    case Utf16(nul) =>
      if v.Text? && odd && TextUnits(nul, v.units) != [] then Some(TextUnits(nul, v.units)[0] % 256) else None
    case Array(e) => if v.Items? then ClashAll(e, v.elems, odd) else None
    case Then(a, b) =>
      if !v.Both? then None
      else if !TextEven(a, v.first, odd) then Clash(a, v.first, odd)
      else Clash(b, v.rest, OddAfter(a, v.first, odd))
    case _ => None
  }

  function ClashAll(c: Coder, vs: seq<Value>, odd: bool): Option<nat>
    decreases c, 1, |vs|
  {
    if vs == [] then None
    else if !TextEven(c, vs[0], odd) then Clash(c, vs[0], odd)
    else ClashAll(c, vs[1..], OddAfter(c, vs[0], odd))
  }

  /** The same for the first job, from `cur` on, that holds a misplaced string. */
  function JobsClash(q: seq<Job>, cur: nat): Option<nat>
    decreases |q| - cur
  {
    if cur >= |q| then None
    else if !TextEven(q[cur].coder, q[cur].value, false) then Clash(q[cur].coder, q[cur].value, false)
    else JobsClash(q, cur + 1)
  }

  // ---- decoded memory that cannot be right -----------------------------------------------------------

  predicate Differs(cell: Cell, v: Value)
    decreases cell, 0
  {
    match cell
    case TextCell(u) => v != Text(u)
    case BothCells(a, b) => v.Both? && (Differs(a, v.first) || Differs(b, v.rest))
    case ItemCells(cs) => v.Items? && DiffersAll(cs, v.elems)
    case _ => false
  }

  predicate DiffersAll(cs: seq<Cell>, vs: seq<Value>)
    decreases cs, 1
  {
    cs != [] && vs != [] && (Differs(cs[0], vs[0]) || DiffersAll(cs[1..], vs[1..]))
  }

  lemma {:induction false} DiffersFollows(cell: Cell, v: Value, slots: seq<Cell>, lo: nat)
    requires Differs(cell, v)
    ensures Follow(cell, slots, lo) != v
    decreases cell, 0
  {
    match cell
    case BothCells(a, b) =>
      if Differs(a, v.first) {
        DiffersFollows(a, v.first, slots, lo);
      } else {
        DiffersFollows(b, v.rest, slots, lo);
      }
    case ItemCells(cs) => DiffersFollowsAll(cs, v.elems, slots, lo);
    case _ =>
  }

  lemma {:induction false} DiffersFollowsAll(cs: seq<Cell>, vs: seq<Value>, slots: seq<Cell>, lo: nat)
    requires DiffersAll(cs, vs)
    ensures FollowAll(cs, slots, lo) != vs
    decreases cs, 1
  {
    var r := FollowAll(cs, slots, lo);
    assert r[0] == Follow(cs[0], slots, lo) && r[1..] == FollowAll(cs[1..], slots, lo);
    if Differs(cs[0], vs[0]) {
      DiffersFollows(cs[0], vs[0], slots, lo);
    } else {
      DiffersFollowsAll(cs[1..], vs[1..], slots, lo);
    }
  }

  // ---- one string --------------------------------------------------------------------------------------

  /** Nothing but `p` from the offset on. */
  predicate Filled(w: Wire, p: byte) {
    forall i :: w.off <= i < |w.buf| ==> w.buf[i] == p
  }

  lemma {:induction false} FilledLater(w: Wire, w2: Wire, p: byte)
    requires Filled(w, p) && Untouched(w, w2)
    ensures Filled(w2, p)
  {
    forall i | w2.off <= i < |w2.buf| ensures w2.buf[i] == p {
      SameAt(w.buf, w2.buf, w2.off, |w.buf|, i);
    }
  }

  lemma {:induction false} UpToNulDiffers(nul: bool, units: seq<nat>, read: seq<nat>)
    requires ValidText(units) && TextUnits(nul, units) != [] && |read| > 0 && read[0] != TextUnits(nul, units)[0]
    ensures UpToNul(read) != units
  {
  }

  /** What encoding a misplaced string leaves around its start. */
  lemma {:induction false} SkippedOctet(s: Syntax, units: seq<nat>, w: Wire, p: byte)
    requires s.little && units != [] && units[0] < 0x1_0000 && !Even(w.off) && Filled(w, p) && PutUnits(s, w, units).Some?
    ensures var w' := PutUnits(s, w, units).value;
            w.off + 2 * |units| < w'.off <= |w'.buf| && w'.buf[w.off] == p && w'.buf[w.off + 1] as nat == units[0] % 256
  {
    var w1 := Put(s, w, 2, units[0]).value;
    var o, data := w.off + 1, Octets(s, units[0], 2);
    OddAligned(w.off);
    StoreKeeps(w.buf, o, data);
    StoreIs(w.buf, o, data);
    LittleOfTwo(units[0]);
    ByteOfNat(units[0] % 256);
    PutUnitsKeeps(s, w1, units[1..]);
    var w' := PutUnits(s, w, units).value;
    SameAt(w1.buf, w'.buf, 0, Min(w1.off, |w1.buf|), w.off);
    SameAt(w1.buf, w'.buf, 0, Min(w1.off, |w1.buf|), w.off + 1);
    SameAt(w.buf, w1.buf, 0, o, w.off);
    UnitsEnd(s, units, w);
    UnitsInside(s, units, w);
  }

  lemma {:induction false} UnitsInside(s: Syntax, units: seq<nat>, w: Wire)
    requires PutUnits(s, w, units).Some? && units != []
    ensures PutUnits(s, w, units).value.off <= |w.buf|
    decreases |units|
  {
    if |units| > 1 {
      UnitsInside(s, units[1..], Put(s, w, 2, units[0]).value);
    }
  }

  /** A misplaced string is read back as another one, unless the skipped octet happens to be the low octet of
      its first unit. */
  lemma {:induction false} TextDiverges(s: Syntax, nul: bool, v: Value, e: Enc, d: Dec, p: byte)
    requires s.little && Typed(s, Utf16(nul), v) && Ready(s, e.q) && EncData(s, Utf16(nul), v, e).Some? && Synced(e, d)
    requires !Even(e.w.off) && TextUnits(nul, v.units) != [] && Filled(e.w, p) && TextUnits(nul, v.units)[0] % 256 != p as nat
    requires var w' := EncData(s, Utf16(nul), v, e).value.w; Agrees(d.w.buf, w'.buf, e.w.off, w'.off)
    ensures var r := DecData(s, Utf16(nul), ShapeOf(s, Utf16(nul), v), d);
            r.Some? && Differs(r.value.0, v)
  {
    var units := TextUnits(nul, v.units);
    var b, off := d.w.buf, e.w.off;
    var w' := EncData(s, Utf16(nul), v, e).value.w;
    assert units[0] < 0x1_0000;
    SkippedOctet(s, units, e.w, p);
    SameAt(b, w'.buf, off, w'.off, off);
    SameAt(b, w'.buf, off, w'.off, off + 1);
    FirstRead(b, off, |units|, units[0], p);
    UpToNulDiffers(nul, v.units, LittleUnits(b, off, |units|));
  }

  lemma {:induction false} FirstRead(b: seq<byte>, off: nat, n: nat, u: nat, p: byte)
    requires n > 0 && off + 2 * n <= |b| && u < 0x1_0000 && b[off] == p && b[off + 1] as nat == u % 256 && u % 256 != p as nat
    ensures LittleUnits(b, off, n)[0] != u
  {
    assert LittleUnits(b, off, n)[0] == LittleUnit(b, off);
    LowOctet(p as nat, b[off + 1] as nat);
  }

  lemma {:induction false} LowOctet(low: nat, high: nat)
    requires low < 256
    ensures (low + 256 * high) % 256 == low
  {
  }

  // ---- one pointee -------------------------------------------------------------------------------------

  lemma {:induction false} DataDiverges(s: Syntax, c: Coder, v: Value, e: Enc, d: Dec, p: byte)
    requires s.little && Typed(s, c, v) && Ready(s, e.q) && EncData(s, c, v, e).Some? && Synced(e, d)
    requires !TextEven(c, v, !Even(e.w.off)) && Filled(e.w, p) && Clash(c, v, !Even(e.w.off)) != Some(p as nat)
    requires var w' := EncData(s, c, v, e).value.w; Agrees(d.w.buf, w'.buf, e.w.off, w'.off)
    ensures var r := DecData(s, c, ShapeOf(s, c, v), d);
            r.Some? ==> Differs(r.value.0, v)
    decreases c, 0
  {
    match c
    case Utf16(nul) => TextDiverges(s, nul, v, e, d, p);
    case Array(elem) =>
      DataDivergesAll(s, elem, v.elems, e, d, p);
      Fits32(|v.elems|);
    case Then(a, b) => ThenDiverges(s, a, b, v, e, d, p);
    case _ =>
  }

  lemma {:induction false} ThenDiverges(s: Syntax, a: Coder, b: Coder, v: Value, e: Enc, d: Dec, p: byte)
    requires s.little && Typed(s, Then(a, b), v) && Ready(s, e.q) && EncData(s, Then(a, b), v, e).Some? && Synced(e, d)
    requires !TextEven(Then(a, b), v, !Even(e.w.off)) && Filled(e.w, p) && Clash(Then(a, b), v, !Even(e.w.off)) != Some(p as nat)
    requires var w' := EncData(s, Then(a, b), v, e).value.w; Agrees(d.w.buf, w'.buf, e.w.off, w'.off)
    ensures var r := DecData(s, Then(a, b), ShapeOf(s, Then(a, b), v), d);
            r.Some? ==> Differs(r.value.0, v)
    decreases Then(a, b), -1
  {
    var odd := !Even(e.w.off);
    ThenParts(s, a, b, v, e, d, odd);
    hide EncData;
    hide DecData;
    hide TextEven;
    hide OddAfter;
    hide Clash;
    hide Filled;
    hide Differs;
    hide Agrees;
    hide Untouched;
    hide Stands;
    var e1 := EncData(s, a, v.first, e).value;
    var e' := EncData(s, b, v.rest, e1).value;
    DataKeeps(s, b, v.rest, e1);
    AgreesEarlier(d.w.buf, e1.w, e'.w, e.w.off);
    if !TextEven(a, v.first, odd) {
      DataDiverges(s, a, v.first, e, d, p);
    } else {
      DataRoundTrip(s, a, v.first, e, d);
      var (ca, d1) := DecData(s, a, ShapeOf(s, a, v.first), d).value;
      AgreesAfter(d.w, d1.w, e'.w.buf, e.w.off, e'.w.off);
      DataFilled(s, a, v.first, e, p);
      DataDiverges(s, b, v.rest, e1, d1, p);
    }
    var r := DecData(s, Then(a, b), ShapeOf(s, Then(a, b), v), d);
    if r.Some? {
      BothDiffers(r.value.0, v);
    }
  }

  lemma {:induction false} BothDiffers(cell: Cell, v: Value)
    requires cell.BothCells? && v.Both? && (Differs(cell.first, v.first) || Differs(cell.rest, v.rest))
    ensures Differs(cell, v)
  {
  }

  lemma {:induction false} ThenParts(s: Syntax, a: Coder, b: Coder, v: Value, e: Enc, d: Dec, odd: bool)
    requires Typed(s, Then(a, b), v) && Ready(s, e.q) && EncData(s, Then(a, b), v, e).Some? && |d.q| <= MAX_DEFERRED
    ensures EncData(s, a, v.first, e).Some? && EncData(s, b, v.rest, EncData(s, a, v.first, e).value) == EncData(s, Then(a, b), v, e)
    ensures var even, r := TextEven(a, v.first, odd), OddAfter(a, v.first, odd);
            (TextEven(Then(a, b), v, odd) <==> even && TextEven(b, v.rest, r)) &&
            Clash(Then(a, b), v, odd) == if even then Clash(b, v.rest, r) else Clash(a, v.first, odd)
    ensures v.Both? && Typed(s, a, v.first) && Typed(s, b, v.rest)
    ensures ShapeOf(s, Then(a, b), v) == BothShapes(ShapeOf(s, a, v.first), ShapeOf(s, b, v.rest))
    ensures var r := DecData(s, Then(a, b), ShapeOf(s, Then(a, b), v), d);
            var r1 := DecData(s, a, ShapeOf(s, a, v.first), d);
            r.Some? ==>
              (r1.Some? &&
               var r2 := DecData(s, b, ShapeOf(s, b, v.rest), r1.value.1);
               r2.Some? && r.value.0 == BothCells(r1.value.0, r2.value.0))
  {
  }

  lemma {:induction false} DataFilled(s: Syntax, c: Coder, v: Value, e: Enc, p: byte)
    requires Typed(s, c, v) && Ready(s, e.q) && EncData(s, c, v, e).Some? && Filled(e.w, p)
    ensures Filled(EncData(s, c, v, e).value.w, p)
  {
    DataPlanned(s, c, v, e, Plan(e.w.off, e.q, 0));
    FilledLater(e.w, EncData(s, c, v, e).value.w, p);
  }

  lemma {:induction false} DataDivergesAll(s: Syntax, c: Coder, vs: seq<Value>, e: Enc, d: Dec, p: byte)
    requires s.little && TypedAll(s, c, vs) && Ready(s, e.q) && EncDataAll(s, c, vs, e).Some? && Synced(e, d)
    requires !TextEvenAll(c, vs, !Even(e.w.off)) && Filled(e.w, p) && ClashAll(c, vs, !Even(e.w.off)) != Some(p as nat)
    requires var w' := EncDataAll(s, c, vs, e).value.w; Agrees(d.w.buf, w'.buf, e.w.off, w'.off)
    ensures var r := DecDataAll(s, c, ShapesOf(s, c, vs), |vs|, d);
            r.Some? ==> DiffersAll(r.value.0, vs)
    decreases c, 1, |vs|
  {
    var tail := vs[1..];
    var e1 := EncData(s, c, vs[0], e).value;
    var e' := EncDataAll(s, c, tail, e1).value;
    DataKeepsAll(s, c, tail, e1);
    AgreesEarlier(d.w.buf, e1.w, e'.w, e.w.off);
    assert ShapesOf(s, c, vs)[0] == ShapeOf(s, c, vs[0]) && ShapesOf(s, c, vs)[1..] == ShapesOf(s, c, tail);
    if !TextEven(c, vs[0], !Even(e.w.off)) {
      DataDiverges(s, c, vs[0], e, d, p);
    } else {
      DataRoundTrip(s, c, vs[0], e, d);
      var d1 := DecData(s, c, ShapeOf(s, c, vs[0]), d).value.1;
      AgreesAfter(d.w, d1.w, e'.w.buf, e.w.off, e'.w.off);
      DataFilled(s, c, vs[0], e, p);
      DataDivergesAll(s, c, tail, e1, d1, p);
    }
    ConsDiffers(s, c, vs, d);
  }

  lemma {:induction false} ConsDiffers(s: Syntax, c: Coder, vs: seq<Value>, d: Dec)
    requires vs != [] && TypedAll(s, c, vs) && |d.q| <= MAX_DEFERRED
    ensures var r := DecDataAll(s, c, ShapesOf(s, c, vs), |vs|, d);
            var r1 := DecData(s, c, ShapeOf(s, c, vs[0]), d);
            r.Some? ==>
              (r1.Some? &&
               var r2 := DecDataAll(s, c, ShapesOf(s, c, vs[1..]), |vs[1..]|, r1.value.1);
               r2.Some? && r.value.0 != [] && r.value.0[0] == r1.value.0 && r.value.0[1..] == r2.value.0)
  {
    assert ShapesOf(s, c, vs)[0] == ShapeOf(s, c, vs[0]) && ShapesOf(s, c, vs)[1..] == ShapesOf(s, c, vs[1..]);
    hide DecData;
    hide ShapeOf;
    hide ShapesOf;
    hide Typed;
    hide FitsAll;
  }

  lemma {:induction false} OneDiverges(s: Syntax, c: Coder, v: Value, e: Enc, d: Dec, p: byte)
    requires s.little && Typed(s, c, v) && Ready(s, e.q) && EncOne(s, c, v, e).Some? && Synced(e, d)
    requires !TextEven(c, v, false) && Filled(e.w, p) && Clash(c, v, false) != Some(p as nat)
    requires var w' := EncOne(s, c, v, e).value.w; Agrees(d.w.buf, w'.buf, e.w.off, w'.off)
    ensures var r := DecOne(s, c, d);
            r.Some? ==> Differs(r.value.0, v)
  {
    hide Clash;
    hide TextEven;
    hide Filled;
    hide Differs;
    hide EncData;
    hide DecData;
    var w1 := EncConf(s, c, v, e.w).value;
    var w2 := w1.(off := AlignUp(w1.off, MaxAlign(s, c, v, 1)));
    var w' := EncOne(s, c, v, e).value.w;
    OneKeeps(s, c, v, e);
    AgreesEarlier(d.w.buf, w2, w', e.w.off);
    AgreesEarlier(d.w.buf, w1, w2, e.w.off);
    ConfRoundTrip(s, c, v, e.w, d.w.buf);
    SameAlignment(s, c, v, 1);
    StartsEven(s, c, v, w1.off);
    ConfFilled(s, c, v, e, p);
    DataDiverges(s, c, v, e.(w := w2), d.(w := Wire(d.w.buf, w2.off)), p);
  }

  lemma {:induction false} StartsEven(s: Syntax, c: Coder, v: Value, off: nat)
    requires Typed(s, c, v) && !TextEven(c, v, false)
    ensures Even(AlignUp(off, MaxAlign(s, c, v, 1)))
  {
    if HasText(c, v) {
      TextAligns(s, c, v, 1);
      AlignedIsEven(off, MaxAlign(s, c, v, 1));
    } else {
      NoTextAnywhere(s, c, v, false);
    }
  }

  lemma {:induction false} ConfFilled(s: Syntax, c: Coder, v: Value, e: Enc, p: byte)
    requires Typed(s, c, v) && Ready(s, e.q) && EncConf(s, c, v, e.w).Some? && Filled(e.w, p)
    ensures var w1 := EncConf(s, c, v, e.w).value; Filled(w1.(off := AlignUp(w1.off, MaxAlign(s, c, v, 1))), p)
  {
    ConfPlanned(s, c, v, e, Plan(e.w.off, e.q, 0));
    FilledLater(e.w, EncConf(s, c, v, e.w).value, p);
  }

  lemma {:induction false} OneFilled(s: Syntax, c: Coder, v: Value, e: Enc, p: byte)
    requires Typed(s, c, v) && Ready(s, e.q) && EncOne(s, c, v, e).Some? && Filled(e.w, p)
    ensures Filled(EncOne(s, c, v, e).value.w, p)
  {
    OnePlanned(s, c, v, e, Plan(e.w.off, e.q, 0));
    FilledLater(e.w, EncOne(s, c, v, e).value.w, p);
  }

  // ---- the queue: every job is found from the cell that deferred it --------------------------------------

  predicate Has(cell: Cell, k: nat)
    decreases cell, 0
  {
    match cell
    case Slot(j) => j == k
    case Direct(t) => Has(t, k)
    case ItemCells(cs) => HasAll(cs, k)
    case TaggedCell(_, a) => Has(a, k)
    case BothCells(a, b) => Has(a, k) || Has(b, k)
    case _ => false
  }

  predicate HasAll(cs: seq<Cell>, k: nat)
    decreases cs, 1
  {
    cs != [] && (Has(cs[0], k) || HasAll(cs[1..], k))
  }

  /** Whoever finds a wrong pointee finds a wrong tree. */
  lemma {:induction false} HasFollows(cell: Cell, v: Value, q: seq<Job>, slots: seq<Cell>, lo: nat, k: nat)
    requires Stands(cell, v, q, lo) && Has(cell, k) && lo <= k < |slots| && k < |q|
    requires Follow(slots[k], slots, k + 1) != q[k].value
    ensures Follow(cell, slots, lo) != v
    decreases cell, 0
  {
    match cell
    case Direct(t) => HasFollows(t, v.v, q, slots, lo, k);
    case ItemCells(cs) => HasFollowsAll(cs, v.elems, q, slots, lo, k);
    case TaggedCell(_, a) => HasFollows(a, v.arm, q, slots, lo, k);
    case BothCells(a, b) =>
      if Has(a, k) {
        HasFollows(a, v.first, q, slots, lo, k);
      } else {
        HasFollows(b, v.rest, q, slots, lo, k);
      }
    case _ =>
  }

  lemma {:induction false} HasFollowsAll(cs: seq<Cell>, vs: seq<Value>, q: seq<Job>, slots: seq<Cell>, lo: nat, k: nat)
    requires StandsAll(cs, vs, q, lo) && HasAll(cs, k) && lo <= k < |slots| && k < |q|
    requires Follow(slots[k], slots, k + 1) != q[k].value
    ensures FollowAll(cs, slots, lo) != vs
    decreases cs, 1
  {
    var r := FollowAll(cs, slots, lo);
    assert r[0] == Follow(cs[0], slots, lo) && r[1..] == FollowAll(cs[1..], slots, lo);
    if Has(cs[0], k) {
      HasFollows(cs[0], vs[0], q, slots, lo, k);
    } else {
      HasFollowsAll(cs[1..], vs[1..], q, slots, lo, k);
    }
  }

  lemma {:induction false} EmbeddedCovers(s: Syntax, kind: PtrKind, t: Coder, v: Value, e: Enc, d: Dec, k: nat)
    requires (v.Null? && kind == Unique) || (v.Pointee? && Typed(s, t, v.v))
    requires Ready(s, e.q) && EncEmbedded(s, kind, t, v, e).Some? && Synced(e, d)
    requires var w' := EncEmbedded(s, kind, t, v, e).value.w; Agrees(d.w.buf, w'.buf, e.w.off, w'.off)
    requires |e.q| <= k < |EncEmbedded(s, kind, t, v, e).value.q|
    ensures var r := DecEmbedded(s, kind, t, d); r.Some? && Has(r.value.0, k)
  {
    EmbeddedMatched(s, kind, t, v, e, d);
  }

  lemma {:induction false} DataCovers(s: Syntax, c: Coder, v: Value, e: Enc, d: Dec, k: nat)
    requires Typed(s, c, v) && Ready(s, e.q) && EncData(s, c, v, e).Some? && Synced(e, d)
    requires TextEven(c, v, !Even(e.w.off))
    requires var w' := EncData(s, c, v, e).value.w; Agrees(d.w.buf, w'.buf, e.w.off, w'.off)
    requires |e.q| <= k < |EncData(s, c, v, e).value.q|
    ensures var r := DecData(s, c, ShapeOf(s, c, v), d); r.Some? && Has(r.value.0, k)
    decreases c, 0
  {
    match c
    case Pointer(kind, t) => EmbeddedCovers(s, kind, t, v, e, d, k);
    case Array(elem) =>
      DataCoversAll(s, elem, v.elems, e, d, k);
      Fits32(|v.elems|);
    case Union(_) => UnionCovers(s, c, v, e, d, k);
    case Then(a, b) => ThenCovers(s, a, b, v, e, d, k);
    case _ =>
  }

  lemma {:induction false} UnionCovers(s: Syntax, c: Coder, v: Value, e: Enc, d: Dec, k: nat)
    requires c.Union? && Typed(s, c, v) && Ready(s, e.q) && EncData(s, c, v, e).Some? && Synced(e, d)
    requires var w' := EncData(s, c, v, e).value.w; Agrees(d.w.buf, w'.buf, e.w.off, w'.off)
    requires |e.q| <= k < |EncData(s, c, v, e).value.q|
    ensures var r := DecData(s, c, NoShape, d); r.Some? && Has(r.value.0, k)
  {
    var e1 := PutInt(s, e, WordSize(s), v.tag).value;
    var e' := EncData(s, c, v, e).value;
    var arm := ArmCoder(c, v.tag);
    EmbeddedKeeps(s, Unique, arm.value, v.arm, e1);
    AgreesEarlier(d.w.buf, e1.w, e'.w, e.w.off);
    FitsWord(s, v.tag);
    IntMatched(s, WordSize(s), v.tag, e, d);
    Fits32(v.tag);
    var d1 := GetInt(s, d, WordSize(s)).value.1;
    AgreesAfter(d.w, d1.w, e'.w.buf, e.w.off, e'.w.off);
    EmbeddedCovers(s, Unique, arm.value, v.arm, e1, d1, k);
  }

  lemma {:induction false} ThenCovers(s: Syntax, a: Coder, b: Coder, v: Value, e: Enc, d: Dec, k: nat)
    requires Typed(s, Then(a, b), v) && Ready(s, e.q) && EncData(s, Then(a, b), v, e).Some? && Synced(e, d)
    requires TextEven(Then(a, b), v, !Even(e.w.off))
    requires var w' := EncData(s, Then(a, b), v, e).value.w; Agrees(d.w.buf, w'.buf, e.w.off, w'.off)
    requires |e.q| <= k < |EncData(s, Then(a, b), v, e).value.q|
    ensures var r := DecData(s, Then(a, b), ShapeOf(s, Then(a, b), v), d); r.Some? && Has(r.value.0, k)
    decreases Then(a, b), -1
  {
    hide EncData;
    hide DecData;
    hide TextEven;
    hide OddAfter;
    hide Clash;
    hide Agrees;
    hide Untouched;
    hide Stands;
    hide Typed;
    ThenMatched(s, a, b, v, e, d);
    ThenParts(s, a, b, v, e, d, !Even(e.w.off));
    var e1 := EncData(s, a, v.first, e).value;
    var e' := EncData(s, b, v.rest, e1).value;
    DataKeeps(s, b, v.rest, e1);
    AgreesEarlier(d.w.buf, e1.w, e'.w, e.w.off);
    DataRoundTrip(s, a, v.first, e, d);
    var d1 := DecData(s, a, ShapeOf(s, a, v.first), d).value.1;
    AgreesAfter(d.w, d1.w, e'.w.buf, e.w.off, e'.w.off);
    if k < |e1.q| {
      DataCovers(s, a, v.first, e, d, k);
    } else {
      DataCovers(s, b, v.rest, e1, d1, k);
    }
  }

  lemma {:induction false} DataCoversAll(s: Syntax, c: Coder, vs: seq<Value>, e: Enc, d: Dec, k: nat)
    requires TypedAll(s, c, vs) && Ready(s, e.q) && EncDataAll(s, c, vs, e).Some? && Synced(e, d)
    requires TextEvenAll(c, vs, !Even(e.w.off))
    requires var w' := EncDataAll(s, c, vs, e).value.w; Agrees(d.w.buf, w'.buf, e.w.off, w'.off)
    requires |e.q| <= k < |EncDataAll(s, c, vs, e).value.q|
    ensures var r := DecDataAll(s, c, ShapesOf(s, c, vs), |vs|, d); r.Some? && HasAll(r.value.0, k)
    decreases c, 1, |vs|
  {
    var tail := vs[1..];
    var e1 := EncData(s, c, vs[0], e).value;
    var e' := EncDataAll(s, c, tail, e1).value;
    DataRoundTripAll(s, c, vs, e, d);
    ConsDiffers(s, c, vs, d);
    hide DecDataAll;
    hide DecData;
    DataKeepsAll(s, c, tail, e1);
    AgreesEarlier(d.w.buf, e1.w, e'.w, e.w.off);
    DataRoundTrip(s, c, vs[0], e, d);
    var d1 := DecData(s, c, ShapeOf(s, c, vs[0]), d).value.1;
    AgreesAfter(d.w, d1.w, e'.w.buf, e.w.off, e'.w.off);
    if k < |e1.q| {
      DataCovers(s, c, vs[0], e, d, k);
    } else {
      DataCoversAll(s, c, tail, e1, d1, k);
    }
  }

  lemma {:induction false} OneCovers(s: Syntax, c: Coder, v: Value, e: Enc, d: Dec, k: nat)
    requires Typed(s, c, v) && Ready(s, e.q) && EncOne(s, c, v, e).Some? && Synced(e, d) && TextEven(c, v, false)
    requires var w' := EncOne(s, c, v, e).value.w; Agrees(d.w.buf, w'.buf, e.w.off, w'.off)
    requires |e.q| <= k < |EncOne(s, c, v, e).value.q|
    ensures var r := DecOne(s, c, d); r.Some? && Has(r.value.0, k)
  {
    hide TextEven;
    hide EncData;
    hide DecData;
    hide Has;
    var w1 := EncConf(s, c, v, e.w).value;
    var w2 := w1.(off := AlignUp(w1.off, MaxAlign(s, c, v, 1)));
    var w' := EncOne(s, c, v, e).value.w;
    OneKeeps(s, c, v, e);
    AgreesEarlier(d.w.buf, w2, w', e.w.off);
    AgreesEarlier(d.w.buf, w1, w2, e.w.off);
    ConfRoundTrip(s, c, v, e.w, d.w.buf);
    SameAlignment(s, c, v, 1);
    DataStartsPlaced(s, c, v, w1.off);
    DataCovers(s, c, v, e.(w := w2), d.(w := Wire(d.w.buf, w2.off)), k);
  }

  // ---- a tree with a misplaced string somewhere defers a job with one ---------------------------------------

  predicate PlacedJob(j: Job) {
    TextEven(j.coder, j.value, false) && TextPlaced(j.coder, j.value)
  }

  lemma {:induction false} DataUnplaced(s: Syntax, c: Coder, v: Value, e: Enc) returns (j: nat)
    requires Typed(s, c, v) && Ready(s, e.q) && EncData(s, c, v, e).Some? && !TextPlaced(c, v)
    ensures var q := EncData(s, c, v, e).value.q; |e.q| <= j < |q| && !PlacedJob(q[j])
    decreases c, 0
  {
    hide TextEven;
    hide Typed;
    hide PutInt;
    j := |e.q|;
    match c
    case Pointer(_, _) => EmbeddedUnplaced(s, c, v, e);
    case Union(_) => EmbeddedUnplaced(s, c, v, e);
    case Array(elem) => j := DataUnplacedAll(s, elem, v.elems, e) by { ArrayTyped(s, c, v); }
    case Then(a, b) => j := ThenUnplaced(s, a, b, v, e);
    case _ =>
  }

  lemma {:induction false} ArrayTyped(s: Syntax, c: Coder, v: Value)
    requires c.Array? && Typed(s, c, v)
    ensures v.Items? && TypedAll(s, c.elem, v.elems)
  {
  }

  lemma {:induction false} EmbeddedUnplaced(s: Syntax, c: Coder, v: Value, e: Enc)
    requires (c.Pointer? || c.Union?) && Typed(s, c, v) && Ready(s, e.q) && EncData(s, c, v, e).Some? && !TextPlaced(c, v)
    ensures var q := EncData(s, c, v, e).value.q; |e.q| < |q| && !PlacedJob(q[|e.q|])
  {
    hide TextEven;
  }

  lemma {:induction false} ThenUnplaced(s: Syntax, a: Coder, b: Coder, v: Value, e: Enc) returns (j: nat)
    requires Typed(s, Then(a, b), v) && Ready(s, e.q) && EncData(s, Then(a, b), v, e).Some? && !TextPlaced(Then(a, b), v)
    ensures var q := EncData(s, Then(a, b), v, e).value.q; |e.q| <= j < |q| && !PlacedJob(q[j])
    decreases Then(a, b), -1
  {
    hide TextEven;
    var e1 := EncData(s, a, v.first, e).value;
    if !TextPlaced(a, v.first) {
      j := DataUnplaced(s, a, v.first, e);
    } else {
      j := DataUnplaced(s, b, v.rest, e1);
    }
  }

  lemma {:induction false} DataUnplacedAll(s: Syntax, c: Coder, vs: seq<Value>, e: Enc) returns (j: nat)
    requires TypedAll(s, c, vs) && Ready(s, e.q) && EncDataAll(s, c, vs, e).Some? && !TextPlacedAll(c, vs)
    ensures var q := EncDataAll(s, c, vs, e).value.q; |e.q| <= j < |q| && !PlacedJob(q[j])
    decreases c, 1, |vs|
  {
    if !TextPlaced(c, vs[0]) {
      j := DataUnplaced(s, c, vs[0], e);
    } else {
      j := DataUnplacedAll(s, c, vs[1..], EncData(s, c, vs[0], e).value);
    }
  }

  lemma {:induction false} OneUnplaced(s: Syntax, c: Coder, v: Value, e: Enc) returns (j: nat)
    requires Typed(s, c, v) && Ready(s, e.q) && EncOne(s, c, v, e).Some? && !TextPlaced(c, v)
    ensures var q := EncOne(s, c, v, e).value.q; |e.q| <= j < |q| && !PlacedJob(q[j])
  {
    var w1 := EncConf(s, c, v, e.w).value;
    j := DataUnplaced(s, c, v, e.(w := w1.(off := AlignUp(w1.off, MaxAlign(s, c, v, 1)))));
  }

  // ---- whole messages -----------------------------------------------------------------------------------

  /** What is decoded for some job queued at this point is not what was encoded for it, whatever slots come
      later. */
  lemma {:induction false} DrainDiverges(s: Syntax, e: Enc, d: Dec, slots: seq<Cell>, p: byte, j: nat, more: seq<Cell>) returns (k: nat)
    requires s.little && Ready(s, e.q) && Synced(e, d) && |slots| <= j < |e.q| == |d.q| && !PlacedJob(e.q[j])
    requires EncDrain(s, e, |slots|).Some? && DecDrain(s, d, slots).Some? && Filled(e.w, p)
    requires JobsClash(EncDrain(s, e, |slots|).value.q, |slots|) != Some(p as nat)
    requires var w' := EncDrain(s, e, |slots|).value.w; Agrees(d.w.buf, w'.buf, e.w.off, w'.off)
    ensures var final := DecDrain(s, d, slots).value.0 + more;
            |slots| <= k < |e.q| && k < |final| && Follow(final[k], final, k + 1) != e.q[k].value
    decreases MAX_DEFERRED - |slots|, 1
  {
    hide TextEven;
    hide TextPlaced;
    hide Clash;
    hide Agrees;
    hide Untouched;
    hide Filled;
    hide EncOne;
    hide DecOne;
    hide Stands;
    hide Has;
    hide Differs;
    hide Follow;
    hide AllTyped;
    DrainUnrolled(s, e, d, slots);
    var cur := |slots|;
    var job := e.q[cur];
    if TextEven(job.coder, job.value, false) {
      k := LaterDiverges(s, e, d, slots, p, j, more);
    } else {
      hide EncDrain;
      hide DecDrain;
      var e', e1 := EncDrain(s, e, cur).value, EncOne(s, job.coder, job.value, e).value;
      var final := DecDrain(s, d, slots).value.0 + more;
      DrainKeeps(s, e1, cur + 1);
      AgreesEarlier(d.w.buf, e1.w, e'.w, e.w.off);
      OneDiverges(s, job.coder, job.value, e, d, p);
      DiffersFollows(DecOne(s, job.coder, d).value.0, job.value, final, cur + 1);
      k := cur;
    }
  }

  lemma {:induction false} LaterDiverges(s: Syntax, e: Enc, d: Dec, slots: seq<Cell>, p: byte, j: nat, more: seq<Cell>) returns (k: nat)
    requires s.little && Ready(s, e.q) && Synced(e, d) && |slots| <= j < |e.q| == |d.q| && !PlacedJob(e.q[j])
    requires EncDrain(s, e, |slots|).Some? && DecDrain(s, d, slots).Some? && Filled(e.w, p)
    requires JobsClash(EncDrain(s, e, |slots|).value.q, |slots|) != Some(p as nat)
    requires var w' := EncDrain(s, e, |slots|).value.w; Agrees(d.w.buf, w'.buf, e.w.off, w'.off)
    requires TextEven(e.q[|slots|].coder, e.q[|slots|].value, false)
    ensures var final := DecDrain(s, d, slots).value.0 + more;
            |slots| <= k < |e.q| && k < |final| && Follow(final[k], final, k + 1) != e.q[k].value
    decreases MAX_DEFERRED - |slots|, 0
  {
    hide TextEven;
    hide TextPlaced;
    hide Clash;
    hide Agrees;
    hide Untouched;
    hide Filled;
    hide EncOne;
    hide DecOne;
    hide Stands;
    hide Has;
    hide Differs;
    hide Follow;
    hide AllTyped;
    hide Synced;
    hide Ready;
    DrainUnrolled(s, e, d, slots);
    hide EncDrain;
    hide DecDrain;
    var cur, e' := |slots|, EncDrain(s, e, |slots|).value;
    var job := e.q[cur];
    var e1 := EncOne(s, job.coder, job.value, e).value;
    var (cell, d1) := DecOne(s, job.coder, d).value;
    StaysInStep(s, e, d, slots);
    OneFilled(s, job.coder, job.value, e, p);
    var next := j;
    if j == cur {
      next := OneUnplaced(s, job.coder, job.value, e);
    }
    k := DrainDiverges(s, e1, d1, slots + [cell], p, next, more);
    if k >= |e.q| {
      FoundWrong(s, job.coder, job.value, e, d, DecDrain(s, d, slots).value.0 + more, cur + 1, k);
      k := cur;
    }
  }

  /** Past an evenly placed pointee both sides are in step, and still agree on what follows. */
  lemma {:induction false} StaysInStep(s: Syntax, e: Enc, d: Dec, slots: seq<Cell>)
    requires Ready(s, e.q) && Synced(e, d) && |slots| < |e.q| == |d.q|
    requires EncDrain(s, e, |slots|).Some? && DecDrain(s, d, slots).Some?
    requires var w' := EncDrain(s, e, |slots|).value.w; Agrees(d.w.buf, w'.buf, e.w.off, w'.off)
    requires TextEven(e.q[|slots|].coder, e.q[|slots|].value, false)
    ensures var job := e.q[|slots|];
            Typed(s, job.coder, job.value) &&
            var r1, r2 := EncOne(s, job.coder, job.value, e), DecOne(s, job.coder, d);
            r1.Some? && r2.Some? &&
            var e1, d1, w' := r1.value, r2.value.1, EncDrain(s, e, |slots|).value.w;
            && Ready(s, e1.q) && Synced(e1, d1) && |e.q| <= |e1.q| == |d1.q| && e1.q[..|e.q|] == e.q
            && Agrees(d.w.buf, e1.w.buf, e.w.off, e1.w.off) && Agrees(d1.w.buf, w'.buf, e1.w.off, w'.off)
  {
    hide TextEven;
    hide Agrees;
    hide Untouched;
    hide EncOne;
    hide DecOne;
    hide Stands;
    hide AllTyped;
    DrainUnrolled(s, e, d, slots);
    hide EncDrain;
    hide DecDrain;
    var cur, e' := |slots|, EncDrain(s, e, |slots|).value;
    var job := e.q[cur];
    var e1 := EncOne(s, job.coder, job.value, e).value;
    DrainKeeps(s, e1, cur + 1);
    AgreesEarlier(d.w.buf, e1.w, e'.w, e.w.off);
    OneRoundTrip(s, job.coder, job.value, e, d);
    AgreesAfter(d.w, DecOne(s, job.coder, d).value.1.w, e'.w.buf, e.w.off, e'.w.off);
  }

  /** The pointee that deferred a wrong one is wrong. */
  lemma {:induction false} FoundWrong(s: Syntax, c: Coder, v: Value, e: Enc, d: Dec, slots: seq<Cell>, lo: nat, k: nat)
    requires Typed(s, c, v) && Ready(s, e.q) && EncOne(s, c, v, e).Some? && Synced(e, d) && TextEven(c, v, false)
    requires var w' := EncOne(s, c, v, e).value.w; Agrees(d.w.buf, w'.buf, e.w.off, w'.off)
    requires lo <= |e.q| <= k < |EncOne(s, c, v, e).value.q| && k < |slots|
    requires Follow(slots[k], slots, k + 1) != EncOne(s, c, v, e).value.q[k].value
    ensures DecOne(s, c, d).Some? && Follow(DecOne(s, c, d).value.0, slots, lo) != v
  {
    hide TextEven;
    hide EncOne;
    hide DecOne;
    hide Agrees;
    hide Untouched;
    hide Stands;
    hide Has;
    hide Follow;
    var q := EncOne(s, c, v, e).value.q;
    OneRoundTrip(s, c, v, e, d);
    OneCovers(s, c, v, e, d, k);
    var cell := DecOne(s, c, d).value.0;
    StandsLonger(cell, v, q, |e.q|, q, lo);
    HasFollows(cell, v, q, slots, lo, k);
  }

  lemma {:induction false} DrainUnrolled(s: Syntax, e: Enc, d: Dec, slots: seq<Cell>)
    requires Ready(s, e.q) && Synced(e, d) && |slots| < |e.q| == |d.q|
    requires EncDrain(s, e, |slots|).Some? && DecDrain(s, d, slots).Some?
    ensures var cur := |slots|;
            var job := e.q[cur];
            Typed(s, job.coder, job.value) &&
            var r1, r2 := EncOne(s, job.coder, job.value, e), DecOne(s, job.coder, d);
            r1.Some? && EncDrain(s, r1.value, cur + 1) == EncDrain(s, e, cur) && EncDrain(s, e, cur).value.q[cur] == job &&
            r2.Some? && DecDrain(s, r2.value.1, slots + [r2.value.0]) == DecDrain(s, d, slots) &&
            cur < |DecDrain(s, d, slots).value.0| && DecDrain(s, d, slots).value.0[cur] == r2.value.0
  {
    hide EncOne;
    hide DecOne;
    AllTypedAt(s, e.q, |slots|);
    CodersAt(e.q, |slots|);
    var cell := DecOne(s, e.q[|slots|].coder, d).value.0;
    assert (slots + [cell])[|slots|] == cell;
  }

  function InlineClash(s: Syntax, t: Coder, v: Value, pl: Plan): Option<nat>
    requires Typed(s, t, v) && Ready(s, pl.q)
  {
    if !TextEven(t, v, false) then Clash(t, v, false)
    else
      var r := PlanInline(s, t, v, pl);
      if r.None? then None else JobsClash(r.value.q, |pl.q|)
  }

  /** The one value of the skipped octet that can hide the first misplaced string of the message. */
  function TopClash(s: Syntax, c: Coder, v: Value, pl: Plan): Option<nat>
    requires Typed(s, c, v) && TopLevel(c) && Ready(s, pl.q)
    decreases c
  {
    if c.Pointer? then
      if v.Null? then None
      else InlineClash(s, c.target, v.v, if c.kind == Ref then pl else PlanPut(pl, WordSize(s)))
    else if c.Union? then
      var arm := ArmCoder(c, v.tag);
      if arm.None? || v.arm.Null? then None
      else InlineClash(s, arm.value, v.arm.v, PlanPut(PlanPut(pl, WordSize(s)), WordSize(s)))
    else if c.Then? then
      if !TextPlaced(c.first, v.first) then TopClash(s, c.first, v.first, pl)
      else
        var p1 := PlanTop(s, c.first, v.first, pl);
        if p1.None? then None else TopClash(s, c.rest, v.rest, p1.value)
    else None
  }

  lemma {:induction false} InlineDiverges(s: Syntax, t: Coder, v: Value, e: Enc, d: Dec, slots: seq<Cell>, p: byte, more: seq<Cell>, pl: Plan, lo: nat)
    requires s.little && Typed(s, t, v) && !(TextEven(t, v, false) && TextPlaced(t, v)) && lo <= |e.q|
    requires Ready(s, e.q) && Drained(e, d, slots) && |d.q| == |e.q| && Planned(e, pl) && EncInline(s, t, v, e).Some?
    requires Filled(e.w, p) && InlineClash(s, t, v, pl) != Some(p as nat)
    requires var w' := EncInline(s, t, v, e).value.w; Agrees(d.w.buf, w'.buf, e.w.off, w'.off)
    ensures var r := DecInline(s, t, d, slots);
            r.Some? ==> Follow(r.value.cell, r.value.slots + more, lo) != Pointee(v)
  {
    hide TextEven;
    hide TextPlaced;
    hide Clash;
    hide JobsClash;
    hide Agrees;
    hide Untouched;
    hide Filled;
    hide EncOne;
    hide DecOne;
    hide Stands;
    hide Has;
    hide Differs;
    hide PlanOne;
    hide PlanDrain;
    hide EncDrain;
    hide DecDrain;
    hide SlotsStand;
    hide AllPlaced;
    var r := DecInline(s, t, d, slots);
    if r.Some? {
      var e1, e' := EncOne(s, t, v, e).value, EncInline(s, t, v, e).value;
      var (cell, d1) := DecOne(s, t, d).value;
      var final := r.value.slots + more;
      DrainKeeps(s, e1, |e.q|);
      AgreesEarlier(d.w.buf, e1.w, e'.w, e.w.off);
      if !TextEven(t, v, false) {
        OneDiverges(s, t, v, e, d, p);
        DiffersFollows(cell, v, final, lo);
      } else {
        InlinePlanned(s, t, v, e, pl);
        OneRoundTrip(s, t, v, e, d);
        AgreesAfter(d.w, d1.w, e'.w.buf, e.w.off, e'.w.off);
        OneFilled(s, t, v, e, p);
        var j := OneUnplaced(s, t, v, e);
        var k := DrainDiverges(s, e1, d1, slots, p, j, more);
        FoundWrong(s, t, v, e, d, final, lo, k);
      }
    }
  }

  lemma {:induction false} PutFilled(s: Syntax, size: nat, n: nat, e: Enc, p: byte, pl: Plan)
    requires IsAlignment(size) && Ready(s, e.q) && Planned(e, pl) && PutInt(s, e, size, n).Some? && Filled(e.w, p)
    ensures Filled(PutInt(s, e, size, n).value.w, p) && Planned(PutInt(s, e, size, n).value, PlanPut(pl, size))
  {
    PutIntPlanned(s, size, n, e, pl);
    FilledLater(e.w, PutInt(s, e, size, n).value.w, p);
  }

  lemma {:induction false} TopPtrDiverges(s: Syntax, kind: PtrKind, t: Coder, v: Value, e: Enc, d: Dec, slots: seq<Cell>, p: byte, more: seq<Cell>, pl: Plan, lo: nat)
    requires s.little && v.Pointee? && Typed(s, t, v.v) && !(TextEven(t, v.v, false) && TextPlaced(t, v.v)) && lo <= |e.q|
    requires Ready(s, e.q) && Drained(e, d, slots) && |d.q| == |e.q| && Planned(e, pl) && EncTopPtr(s, kind, t, v, e).Some?
    requires Filled(e.w, p) && InlineClash(s, t, v.v, if kind == Ref then pl else PlanPut(pl, WordSize(s))) != Some(p as nat)
    requires var w' := EncTopPtr(s, kind, t, v, e).value.w; Agrees(d.w.buf, w'.buf, e.w.off, w'.off)
    ensures var r := DecTopPtr(s, kind, t, d, slots);
            r.Some? ==> Follow(r.value.cell, r.value.slots + more, lo) != v
  {
    hide InlineClash;
    hide TextEven;
    hide TextPlaced;
    hide EncInline;
    hide DecInline;
    hide Filled;
    hide Agrees;
    hide Untouched;
    if kind == Ref {
      InlineDiverges(s, t, v.v, e, d, slots, p, more, pl, lo);
    } else {
      var id := Referent(s, kind);
      var e1 := PutInt(s, e, WordSize(s), id).value;
      var e' := EncTopPtr(s, kind, t, v, e).value;
      InlineKeeps(s, t, v.v, e1);
      AgreesEarlier(d.w.buf, e1.w, e'.w, e.w.off);
      TopWord(s, id, e, d, slots);
      var d1 := d.(w := Wire(d.w.buf, e1.w.off));
      PutFilled(s, WordSize(s), id, e, p, pl);
      InlineDiverges(s, t, v.v, e1, d1, slots, p, more, PlanPut(pl, WordSize(s)), lo);
    }
  }

  lemma {:induction false} UnionDiverges(s: Syntax, c: Coder, v: Value, e: Enc, d: Dec, slots: seq<Cell>, p: byte, more: seq<Cell>, pl: Plan, lo: nat)
    requires s.little && c.Union? && Typed(s, c, v) && !TextPlaced(c, v) && lo <= |e.q|
    requires Ready(s, e.q) && Drained(e, d, slots) && |d.q| == |e.q| && Planned(e, pl) && EncTop(s, c, v, e).Some?
    requires Filled(e.w, p) && TopClash(s, c, v, pl) != Some(p as nat)
    requires var w' := EncTop(s, c, v, e).value.w; Agrees(d.w.buf, w'.buf, e.w.off, w'.off)
    ensures var r := DecTop(s, c, d, slots);
            r.Some? ==> Follow(r.value.cell, r.value.slots + more, lo) != v
  {
    hide InlineClash;
    hide TextEven;
    hide EncTopPtr;
    hide DecTopPtr;
    hide Filled;
    hide Agrees;
    hide Untouched;
    var t := ArmCoder(c, v.tag).value;
    var e1 := PutInt(s, e, WordSize(s), v.tag).value;
    var e' := EncTopPtr(s, Unique, t, v.arm, e1).value;
    TopPtrKeeps(s, Unique, t, v.arm, e1);
    AgreesEarlier(d.w.buf, e1.w, e'.w, e.w.off);
    TopWord(s, v.tag, e, d, slots);
    Fits32(v.tag);
    var d1 := d.(w := Wire(d.w.buf, e1.w.off));
    PutFilled(s, WordSize(s), v.tag, e, p, pl);
    TopPtrDiverges(s, Unique, t, v.arm, e1, d1, slots, p, more, PlanPut(pl, WordSize(s)), lo);
    ArmDecodesTo(s, c, v.tag, t, d, d1, slots);
  }

  lemma {:induction false} ArmDecodesTo(s: Syntax, c: Coder, tag: nat, t: Coder, d: Dec, d1: Dec, slots: seq<Cell>)
    requires c.Union? && ArmCoder(c, tag) == Some(t) && |slots| == |d.q| <= MAX_DEFERRED && d1.q == d.q
    requires GetInt(s, d, WordSize(s)) == Some((tag, d1)) && tag % 0x1_0000_0000 == tag
    ensures var r, m := DecTop(s, c, d, slots), DecTopPtr(s, Unique, t, d1, slots);
            r.Some? ==> m.Some? && r.value == m.value.(cell := TaggedCell(tag, m.value.cell))
  {
    hide DecTopPtr;
    hide GetInt;
  }

  lemma {:induction false} TopDiverges(s: Syntax, c: Coder, v: Value, e: Enc, d: Dec, slots: seq<Cell>, p: byte, more: seq<Cell>, pl: Plan, lo: nat)
    requires s.little && Typed(s, c, v) && TopLevel(c) && !TextPlaced(c, v) && lo <= |e.q|
    requires Ready(s, e.q) && Drained(e, d, slots) && |d.q| == |e.q| && Planned(e, pl) && EncTop(s, c, v, e).Some?
    requires Filled(e.w, p) && TopClash(s, c, v, pl) != Some(p as nat)
    requires var w' := EncTop(s, c, v, e).value.w; Agrees(d.w.buf, w'.buf, e.w.off, w'.off)
    ensures var r := DecTop(s, c, d, slots);
            r.Some? ==> Follow(r.value.cell, r.value.slots + more, lo) != v
    decreases c, 2
  {
    hide InlineClash;
    hide TextEven;
    hide EncTopPtr;
    hide DecTopPtr;
    hide Filled;
    hide Agrees;
    hide Untouched;
    if c.Pointer? {
      TopPtrDiverges(s, c.kind, c.target, v, e, d, slots, p, more, pl, lo);
    } else if c.Union? {
      UnionDiverges(s, c, v, e, d, slots, p, more, pl, lo);
    } else if c.Then? {
      SequenceDiverges(s, c.first, c.rest, v, e, d, slots, p, more, pl, lo);
    }
  }

  lemma {:induction false} SequenceDiverges(s: Syntax, a: Coder, b: Coder, v: Value, e: Enc, d: Dec, slots: seq<Cell>, p: byte, more: seq<Cell>, pl: Plan, lo: nat)
    requires s.little && Typed(s, Then(a, b), v) && TopLevel(Then(a, b)) && !TextPlaced(Then(a, b), v) && lo <= |e.q|
    requires Ready(s, e.q) && Drained(e, d, slots) && |d.q| == |e.q| && Planned(e, pl) && EncTop(s, Then(a, b), v, e).Some?
    requires Filled(e.w, p) && TopClash(s, Then(a, b), v, pl) != Some(p as nat)
    requires var w' := EncTop(s, Then(a, b), v, e).value.w; Agrees(d.w.buf, w'.buf, e.w.off, w'.off)
    ensures var r := DecTop(s, Then(a, b), d, slots);
            r.Some? ==> Follow(r.value.cell, r.value.slots + more, lo) != v
    decreases Then(a, b), 1
  {
    hide TopClash;
    hide TextPlaced;
    hide EncTop;
    hide DecTop;
    hide PlanTop;
    hide Filled;
    hide Agrees;
    hide Untouched;
    hide AllPlaced;
    hide SlotsStand;
    hide Follow;
    hide Typed;
    hide TopLevel;
    if DecTop(s, Then(a, b), d, slots).Some? {
      SequenceParts(s, a, b, v, e, d, slots, pl);
      var e1 := EncTop(s, a, v.first, e).value;
      var m1 := DecTop(s, a, d, slots).value;
      var m2 := DecTop(s, b, m1.d, m1.slots).value;
      TopKeeps(s, b, v.rest, e1);
      AgreesEarlier(d.w.buf, e1.w, EncTop(s, b, v.rest, e1).value.w, e.w.off);
      BothFollow(m1.cell, m2.cell, m2.slots + more, lo);
      if !TextPlaced(a, v.first) {
        var later := m2.slots[|m1.slots|..] + more;
        assert m1.slots + later == m2.slots + more;
        TopDiverges(s, a, v.first, e, d, slots, p, later, pl, lo);
      } else {
        RestDiverges(s, a, b, v, e, d, slots, p, more, pl, lo);
      }
    }
  }

  lemma {:induction false} BothFollow(a: Cell, b: Cell, slots: seq<Cell>, lo: nat)
    ensures Follow(BothCells(a, b), slots, lo) == Both(Follow(a, slots, lo), Follow(b, slots, lo))
  {
  }

  lemma {:induction false} RestDiverges(s: Syntax, a: Coder, b: Coder, v: Value, e: Enc, d: Dec, slots: seq<Cell>, p: byte, more: seq<Cell>, pl: Plan, lo: nat)
    requires s.little && v.Both? && Typed(s, a, v.first) && Typed(s, b, v.rest) && TopLevel(a) && TopLevel(b) && lo <= |e.q|
    requires TextPlaced(a, v.first) && !TextPlaced(b, v.rest)
    requires Ready(s, e.q) && Drained(e, d, slots) && |d.q| == |e.q| && Planned(e, pl) && Filled(e.w, p)
    requires EncTop(s, a, v.first, e).Some? && EncTop(s, b, v.rest, EncTop(s, a, v.first, e).value).Some?
    requires PlanTop(s, a, v.first, pl).Some? ==> TopClash(s, b, v.rest, PlanTop(s, a, v.first, pl).value) != Some(p as nat)
    requires var e1 := EncTop(s, a, v.first, e).value;
             var e' := EncTop(s, b, v.rest, e1).value;
             Agrees(d.w.buf, e1.w.buf, e.w.off, e1.w.off) && Agrees(d.w.buf, e'.w.buf, e.w.off, e'.w.off)
    requires DecTop(s, a, d, slots).Some?
    ensures var m1 := DecTop(s, a, d, slots).value;
            var r := DecTop(s, b, m1.d, m1.slots);
            r.Some? ==> Follow(r.value.cell, r.value.slots + more, lo) != v.rest
    decreases Then(a, b), 0
  {
    hide TopClash;
    hide TextPlaced;
    hide EncTop;
    hide DecTop;
    hide PlanTop;
    hide Filled;
    hide Agrees;
    hide Untouched;
    hide AllPlaced;
    hide SlotsStand;
    hide Follow;
    hide Stands;
    hide Typed;
    var e1 := EncTop(s, a, v.first, e).value;
    var e' := EncTop(s, b, v.rest, e1).value;
    var m1 := DecTop(s, a, d, slots).value;
    TopRoundTrip(s, a, v.first, e, d, slots);
    AgreesAfter(d.w, m1.d.w, e'.w.buf, e.w.off, e'.w.off);
    TopPlanned(s, a, v.first, e, pl);
    FilledLater(e.w, e1.w, p);
    TopDiverges(s, b, v.rest, e1, m1.d, m1.slots, p, more, PlanTop(s, a, v.first, pl).value, lo);
  }

  lemma {:induction false} SequenceParts(s: Syntax, a: Coder, b: Coder, v: Value, e: Enc, d: Dec, slots: seq<Cell>, pl: Plan)
    requires Typed(s, Then(a, b), v) && TopLevel(Then(a, b)) && Ready(s, e.q) && |slots| == |d.q| <= MAX_DEFERRED && Ready(s, pl.q)
    requires EncTop(s, Then(a, b), v, e).Some? && DecTop(s, Then(a, b), d, slots).Some?
    ensures v.Both? && Typed(s, a, v.first) && Typed(s, b, v.rest) && TopLevel(a) && TopLevel(b)
    ensures TextPlaced(Then(a, b), v) <==> TextPlaced(a, v.first) && TextPlaced(b, v.rest)
    ensures var r1 := EncTop(s, a, v.first, e);
            r1.Some? && EncTop(s, b, v.rest, r1.value) == EncTop(s, Then(a, b), v, e)
    ensures var m1 := DecTop(s, a, d, slots);
            m1.Some? &&
            var m2 := DecTop(s, b, m1.value.d, m1.value.slots);
            m2.Some? && DecTop(s, Then(a, b), d, slots) == Some(m2.value.(cell := BothCells(m1.value.cell, m2.value.cell)))
    ensures TopClash(s, Then(a, b), v, pl) ==
            if !TextPlaced(a, v.first) then TopClash(s, a, v.first, pl)
            else
              var p1 := PlanTop(s, a, v.first, pl);
              if p1.None? then None else TopClash(s, b, v.rest, p1.value)
  {
  }

  // ---- the law -----------------------------------------------------------------------------------------

  /** If encoding at `off` succeeds, then decoding any buffer that holds the octets gives the end and the tree. */
  predicate Law(s: Syntax, c: Coder, v: Value, buf: seq<byte>, off: nat, b: seq<byte>)
    requires Typed(s, c, v) && TopLevel(c)
  {
    var r := EncTop(s, c, v, Enc(Wire(buf, off), []));
    r.Some? && Agrees(b, r.value.w.buf, off, r.value.w.off) ==>
      var m := DecTop(s, c, Dec(Wire(b, off), []), []);
      m.Some? && m.value.d.w.off == r.value.w.off && Follow(m.value.cell, m.value.slots, 0) == v
  }

  function Fill(n: nat, p: byte): (r: seq<byte>)
    ensures |r| == n
  {
    seq(n, i => p)
  }

  /** For a tree with a misplaced string some buffer breaks the law. */
  lemma {:induction false} MisplacedFails(s: Syntax, c: Coder, v: Value, off: nat) returns (buf: seq<byte>, b: seq<byte>)
    requires s.little && Typed(s, c, v) && TopLevel(c) && !TextPlaced(c, v)
    requires PlanTop(s, c, v, Plan(off, [], 0)).Some?
    ensures !Law(s, c, v, buf, off, b)
  {
    var pl := Plan(off, [], 0);
    var end := PlanTop(s, c, v, pl).value;
    var p: byte := if TopClash(s, c, v, pl) == Some(0) then 1 else 0;
    buf := Fill(Max(end.top, end.off), p);
    b := FillFails(s, c, v, buf, off, p);
  }

  lemma {:induction false} FillFails(s: Syntax, c: Coder, v: Value, buf: seq<byte>, off: nat, p: byte) returns (b: seq<byte>)
    requires s.little && Typed(s, c, v) && TopLevel(c) && !TextPlaced(c, v)
    requires var pl := PlanTop(s, c, v, Plan(off, [], 0)); pl.Some? && pl.value.top <= |buf| && pl.value.off <= |buf|
    requires Filled(Wire(buf, off), p) && TopClash(s, c, v, Plan(off, [], 0)) != Some(p as nat)
    ensures !Law(s, c, v, buf, off, b)
  {
    hide TopClash;
    hide TextPlaced;
    hide EncTop;
    hide DecTop;
    hide PlanTop;
    hide Filled;
    hide Follow;
    hide Typed;
    var pl, e := Plan(off, [], 0), Enc(Wire(buf, off), []);
    TopPlanned(s, c, v, e, pl);
    var r := EncTop(s, c, v, e);
    b := r.value.w.buf;
    SameSelf(b, off, r.value.w.off);
    NothingDrained(off, buf, b);
    TopDiverges(s, c, v, e, Dec(Wire(b, off), []), [], p, [], pl, 0);
    var m := DecTop(s, c, Dec(Wire(b, off), []), []);
    if m.Some? {
      assert m.value.slots + [] == m.value.slots;
    }
  }

  lemma {:induction false} NothingDrained(off: nat, buf: seq<byte>, b: seq<byte>)
    ensures Drained(Enc(Wire(buf, off), []), Dec(Wire(b, off), []), [])
  {
  }

  /** For little-endian data the law holds for every buffer if and only if every string is placed evenly; the
      tree must not have more pointers than the queue holds. */
  lemma {:induction false} LawIffPlaced(s: Syntax, c: Coder, v: Value, off: nat)
    requires s.little && Typed(s, c, v) && TopLevel(c) && PlanTop(s, c, v, Plan(off, [], 0)).Some?
    ensures (forall buf, b :: Law(s, c, v, buf, off, b)) <==> TextPlaced(c, v)
  {
    hide Law;
    if TextPlaced(c, v) {
      forall buf, b ensures Law(s, c, v, buf, off, b) {
        PlacedHolds(s, c, v, buf, off, b);
      }
    } else {
      var buf, b := MisplacedFails(s, c, v, off);
      assert !Law(s, c, v, buf, off, b);
    }
  }

  lemma {:induction false} PlacedHolds(s: Syntax, c: Coder, v: Value, buf: seq<byte>, off: nat, b: seq<byte>)
    requires Typed(s, c, v) && TopLevel(c) && TextPlaced(c, v)
    ensures Law(s, c, v, buf, off, b)
  {
    hide EncTop;
    hide DecTop;
    RoundTrip(s, c, v, buf, off, b);
  }

  // ---- one octet short ---------------------------------------------------------------------------------

  /** Whatever the byte order, a pointee whose last string is misplaced, and that defers nothing, is decoded one
      octet short. */
  lemma {:induction false} EndsShort(s: Syntax, a: Coder, nul: bool, v: Value, e: Enc, d: Dec)
    requires Typed(s, Then(a, Utf16(nul)), v) && Ready(s, e.q) && EncOne(s, Then(a, Utf16(nul)), v, e).Some? && Synced(e, d)
    requires TextEven(a, v.first, false) && OddAfter(a, v.first, false) && v.rest.Text? && TextUnits(nul, v.rest.units) != []
    requires var w' := EncOne(s, Then(a, Utf16(nul)), v, e).value.w; Agrees(d.w.buf, w'.buf, e.w.off, w'.off)
    ensures var r := DecOne(s, Then(a, Utf16(nul)), d);
            r.Some? && r.value.1.w.off + 1 == EncOne(s, Then(a, Utf16(nul)), v, e).value.w.off
  {
    hide EncData;
    hide DecData;
    hide EncConf;
    hide DecConf;
    hide TextEven;
    hide OddAfter;
    hide MaxAlign;
    hide ShapeAlign;
    var t := Then(a, Utf16(nul));
    var w1 := EncConf(s, t, v, e.w).value;
    var w2 := w1.(off := AlignUp(w1.off, MaxAlign(s, t, v, 1)));
    var w' := EncOne(s, t, v, e).value.w;
    OneKeeps(s, t, v, e);
    AgreesEarlier(d.w.buf, w2, w', e.w.off);
    AgreesEarlier(d.w.buf, w1, w2, e.w.off);
    ConfRoundTrip(s, t, v, e.w, d.w.buf);
    SameAlignment(s, t, v, 1);
    ThenStartsEven(s, a, nul, v, w1.off);
    DataEndsShort(s, a, nul, v, e.(w := w2), d.(w := Wire(d.w.buf, w2.off)));
  }

  lemma {:induction false} ThenStartsEven(s: Syntax, a: Coder, nul: bool, v: Value, off: nat)
    requires Typed(s, Then(a, Utf16(nul)), v)
    ensures Even(AlignUp(off, MaxAlign(s, Then(a, Utf16(nul)), v, 1)))
  {
    var t := Then(a, Utf16(nul));
    assert HasText(t, v);
    TextAligns(s, t, v, 1);
    AlignedIsEven(off, MaxAlign(s, t, v, 1));
  }

  lemma {:induction false} DataEndsShort(s: Syntax, a: Coder, nul: bool, v: Value, e: Enc, d: Dec)
    requires Typed(s, Then(a, Utf16(nul)), v) && Ready(s, e.q) && EncData(s, Then(a, Utf16(nul)), v, e).Some? && Synced(e, d)
    requires TextEven(a, v.first, !Even(e.w.off)) && OddAfter(a, v.first, !Even(e.w.off)) && v.rest.Text? && TextUnits(nul, v.rest.units) != []
    requires var w' := EncData(s, Then(a, Utf16(nul)), v, e).value.w; Agrees(d.w.buf, w'.buf, e.w.off, w'.off)
    ensures var r := DecData(s, Then(a, Utf16(nul)), ShapeOf(s, Then(a, Utf16(nul)), v), d);
            r.Some? && r.value.1.w.off + 1 == EncData(s, Then(a, Utf16(nul)), v, e).value.w.off
  {
    var t := Utf16(nul);
    var e1 := EncData(s, a, v.first, e).value;
    var e' := EncData(s, t, v.rest, e1).value;
    DataKeeps(s, t, v.rest, e1);
    AgreesEarlier(d.w.buf, e1.w, e'.w, e.w.off);
    DataRoundTrip(s, a, v.first, e, d);
    var d1 := DecData(s, a, ShapeOf(s, a, v.first), d).value.1;
    TextEndsShort(s, nul, v.rest.units, e1.w, d1.w.buf);
  }

  lemma {:induction false} TextEndsShort(s: Syntax, nul: bool, units: seq<nat>, w: Wire, b: seq<byte>)
    requires !Even(w.off) && TextUnits(nul, units) != [] && PutUnits(s, w, TextUnits(nul, units)).Some?
    requires PutUnits(s, w, TextUnits(nul, units)).value.off <= |b|
    ensures var r := DecText(s, |TextUnits(nul, units)|, Wire(b, w.off));
            r.Some? && r.value.1.off + 1 == PutUnits(s, w, TextUnits(nul, units)).value.off
  {
    UnitsEnd(s, TextUnits(nul, units), w);
    BigUnitsFitOdd(b, w.off, |TextUnits(nul, units)|);
  }

  lemma {:induction false} BigUnitsFitOdd(b: seq<byte>, off: nat, n: nat)
    requires !Even(off) && off + 1 + 2 * n <= |b|
    ensures BigUnits(b, off, n).Some?
    decreases n
  {
    OddAligned(off);
    if n > 0 {
      EvenPlusTwice(off, 1);
      BigUnitsFitOdd(b, off + 2, n - 1);
    }
  }

  /** The lost octet is made up for by the next item that is aligned to two or more. */
  lemma {:induction false} AlignmentRecovers(off: nat, a: nat)
    requires off > 0 && Even(off) && IsAlignment(a) && a != 1
    ensures AlignUp(off - 1, a) == AlignUp(off, a)
    decreases off
  {
    if off > a {
      EvenPlusTwice(0, a / 2);
      EvenMinus(off, a);
      AlignmentRecovers(off - a, a);
    }
  }

  lemma {:induction false} EvenMinus(off: nat, a: nat)
    requires Even(off) && Even(a) && a <= off
    ensures Even(off - a) && !Even(a + 1)
    decreases a
  {
    if a > 0 {
      EvenMinus(off - 2, a - 2);
    }
  }

  /** Little-endian, an empty terminated string that is misplaced reads as empty when the skipped octet is zero;
      only the offset is short then. */
  lemma {:induction false} EmptyStringHidden(s: Syntax, b: seq<byte>, off: nat)
    requires s.little && off + 2 <= |b| && b[off] == 0 && b[off + 1] == 0
    ensures DecText(s, 1, Wire(b, off)) == Some((TextCell([]), Wire(b, off + 2)))
  {
  }

  /** Big-endian, the units of a misplaced string come out right, because the decoder aligns each of them, but
      its end is still one octet short. */
  lemma {:induction false} BigTextShort(s: Syntax, nul: bool, units: seq<nat>, w: Wire, b: seq<byte>)
    requires !s.little && ValidText(units) && !Even(w.off) && TextUnits(nul, units) != []
    requires PutUnits(s, w, TextUnits(nul, units)).Some?
    requires var w' := PutUnits(s, w, TextUnits(nul, units)).value; Agrees(b, w'.buf, w.off, w'.off)
    ensures var r := DecText(s, |TextUnits(nul, units)|, Wire(b, w.off));
            r.Some? && r.value.0 == TextCell(units) && r.value.1.off + 1 == PutUnits(s, w, TextUnits(nul, units)).value.off
  {
    var all := TextUnits(nul, units);
    var even := w.(off := w.off + 1);
    OddAligned(w.off);
    EvenIsAligned(w.off + 1);
    assert PutUnits(s, even, all) == PutUnits(s, w, all);
    var w' := PutUnits(s, w, all).value;
    UnitsEnd(s, all, w);
    SamePart(b, w'.buf, w.off, w'.off, w.off + 1, w'.off);
    TextRoundTrip(s, nul, units, even, b);
    BigUnitsAlign(b, w.off, |all|);
  }

  lemma {:induction false} BigUnitsAlign(b: seq<byte>, off: nat, n: nat)
    requires !Even(off)
    ensures BigUnits(b, off, n) == BigUnits(b, off + 1, n)
    decreases n
  {
    OddAligned(off);
    EvenIsAligned(off + 1);
    if n > 0 {
      EvenPlusTwice(off, 1);
      BigUnitsAlign(b, off + 2, n - 1);
    }
  }

  const OCTET_AND_STRING: Coder := Then(U8, Utf16(true))

  function OctetAndString(): Value {
    Both(Num(0), Text([65]))
  }

  /** The smallest such message, a reference to an octet and a string, under NDR32: it is encoded in 18 octets,
      and the decoder ends at 17. */
  lemma {:induction false} OctetAndStringFails(s: Syntax, buf: seq<byte>)
    requires !s.ndr64 && |buf| >= 18
    ensures var c, v := Pointer(Ref, OCTET_AND_STRING), Pointee(OctetAndString());
            Typed(s, c, v) && !TextPlaced(c, v) &&
            var r := EncTop(s, c, v, Enc(Wire(buf, 0), []));
            r.Some? && r.value.w.off == 18 &&
            var m := DecTop(s, c, Dec(Wire(r.value.w.buf, 0), []), []);
            m.Some? && m.value.d.w.off == 17
  {
    hide EncOne;
    hide DecOne;
    hide TextEven;
    hide OddAfter;
    hide PlanOne;
    hide Agrees;
    hide Untouched;
    var t, v := OCTET_AND_STRING, OctetAndString();
    var e := Enc(Wire(buf, 0), []);
    OctetAndStringTyped(s);
    OctetAndStringPlan(s);
    OnePlanned(s, t, v, e, Plan(0, [], 0));
    var e1 := EncOne(s, t, v, e).value;
    var d := Dec(Wire(e1.w.buf, 0), []);
    OwnOctets(e1.w.buf, 18);
    EndsShort(s, U8, true, v, e, d);
    OneQueue(s, d);
    NothingToDrain(s, e1, DecOne(s, t, d).value.1);
  }

  lemma {:induction false} OwnOctets(b: seq<byte>, n: nat)
    requires n <= |b|
    ensures Agrees(b, b, 0, n)
  {
    SameSelf(b, 0, n);
  }

  lemma {:induction false} NothingToDrain(s: Syntax, e: Enc, d: Dec)
    requires e.q == [] && d.q == []
    ensures EncDrain(s, e, 0) == Some(e) && DecDrain(s, d, []) == Some(([], d))
  {
  }

  lemma {:induction false} OctetAndStringTyped(s: Syntax)
    ensures Typed(s, OCTET_AND_STRING, OctetAndString()) && !TextEven(OCTET_AND_STRING, OctetAndString(), false)
    ensures Typed(s, Pointer(Ref, OCTET_AND_STRING), Pointee(OctetAndString()))
    ensures TextEven(U8, Num(0), false) && OddAfter(U8, Num(0), false)
    ensures !TextPlaced(Pointer(Ref, OCTET_AND_STRING), Pointee(OctetAndString()))
  {
    StringTyped(s);
    StringMisplaced();
    hide TextEven;
    hide OddAfter;
    hide ValidText;
  }

  lemma {:induction false} StringTyped(s: Syntax)
    ensures Typed(s, Utf16(true), Text([65])) && Typed(s, U8, Num(0))
  {
    assert ValidText([65][1..]);
  }

  lemma {:induction false} StringMisplaced()
    ensures TextEven(U8, Num(0), false) && OddAfter(U8, Num(0), false) && !TextEven(OCTET_AND_STRING, OctetAndString(), false)
  {
    assert !TextEven(Utf16(true), Text([65]), true);
  }

  lemma {:induction false} OctetAndStringPlan(s: Syntax)
    requires !s.ndr64 && Typed(s, OCTET_AND_STRING, OctetAndString())
    ensures PlanOne(s, OCTET_AND_STRING, OctetAndString(), Plan(0, [], 0)) == Some(Plan(18, [], 18))
  {
    hide PlanData;
    hide PlanConf;
    hide MaxAlign;
    hide AlignUp;
    hide Typed;
    OctetAndStringCounts(s);
    OctetAndStringData(s);
  }

  lemma {:induction false} OctetAndStringCounts(s: Syntax)
    requires !s.ndr64 && Typed(s, OCTET_AND_STRING, OctetAndString())
    ensures PlanConf(s, OCTET_AND_STRING, OctetAndString(), Plan(0, [], 0)) == Plan(12, [], 12)
    ensures MaxAlign(s, OCTET_AND_STRING, OctetAndString(), 1) == 2 && AlignUp(12, 2) == 12
  {
    hide AlignUp;
    hide PlanPut;
    EvenTwelve();
    EvenIsAligned(12);
    ThreeCounts(s);
    assert PlanConf(s, U8, Num(0), Plan(0, [], 0)) == Plan(0, [], 0);
  }

  lemma {:induction false} ThreeCounts(s: Syntax)
    requires !s.ndr64
    ensures PlanPut(PlanPut(PlanPut(Plan(0, [], 0), WordSize(s)), WordSize(s)), WordSize(s)) == Plan(12, [], 12)
  {
    hide AlignUp;
    AlignUpRounds4(0);
    AlignUpRounds4(4);
    AlignUpRounds4(8);
  }

  lemma {:induction false} EvenTwelve()
    ensures Even(12) && Even(14) && Even(16)
  {
    EvenPlusTwice(0, 6);
    EvenPlusTwice(0, 7);
    EvenPlusTwice(0, 8);
  }

  lemma {:induction false} OctetAndStringData(s: Syntax)
    requires Typed(s, OCTET_AND_STRING, OctetAndString())
    ensures PlanData(s, OCTET_AND_STRING, OctetAndString(), Plan(12, [], 12)) == Some(Plan(18, [], 18))
  {
    hide AlignUp;
    OctetAligned(12);
    EvenTwelve();
    assert !Even(13);
    OddAligned(13);
    EvenIsAligned(16);
    assert PlanData(s, U8, Num(0), Plan(12, [], 12)) == Some(Plan(13, [], 13));
    assert PlanUnits(Plan(18, [], 18), 0) == Plan(18, [], 18);
    assert PlanUnits(Plan(16, [], 16), 1) == Plan(18, [], 18);
    assert PlanUnits(Plan(13, [], 13), 2) == Plan(18, [], 18);
  }

  /** Nothing is deferred. */
  lemma {:induction false} OneQueue(s: Syntax, d: Dec)
    requires d.q == [] && DecOne(s, OCTET_AND_STRING, d).Some?
    ensures DecOne(s, OCTET_AND_STRING, d).value.1.q == []
  {
  }
}
