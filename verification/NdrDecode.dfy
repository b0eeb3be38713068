/** What decoding reads from the buffer and stores in memory. The decoder visits a pointee twice: the
    first visit learns the counts (`Shape`), the second fills in the data. */
module NdrDecode {
  import opened Octet
  import opened Bytes
  import opened Ndr

  /** The counts the conformance visit leaves in the target structure. */
  datatype Shape =
    | NoShape
    | TextShape(count: nat)
    | ItemShapes(elems: seq<Shape>)
    | BothShapes(first: Shape, rest: Shape)

  /** Decoded memory. A pointer is the queue slot whose pointee fills its target later (`Slot`), or,
      at top level, the target itself (`Direct`). */
  datatype Cell =
    | NumCell(n: nat)
    | TextCell(units: seq<nat>)
    | NullCell
    | Slot(k: nat)
    | Direct(target: Cell)
    | ItemCells(elems: seq<Cell>)
    | TaggedCell(tag: nat, arm: Cell)
    | UnitCell
    | BothCells(first: Cell, rest: Cell)

  /** `q` holds the coders of the deferred pointers. */
  datatype Dec = Dec(w: Wire, q: seq<Coder>)

  /** Decoding moves forward in a buffer of fixed length, and the queue only grows. */
  predicate Advances(d: Dec, d2: Dec) {
    && |d2.w.buf| == |d.w.buf|
    && d.w.off <= d2.w.off
    && d.q <= d2.q
    && |d2.q| <= MAX_DEFERRED
  }

  function ValueOf(s: Syntax, bytes: seq<byte>): nat {
    if s.little then LittleValue(bytes) else BigValue(bytes)
  }

  function Get(s: Syntax, w: Wire, size: nat): (r: Option<(nat, Wire)>)
    requires IsAlignment(size)
    ensures r.Some? ==> w.off < r.value.1.off && r.value.1.buf == w.buf
  {
    var o := AlignUp(w.off, size);
    if o + size > |w.buf| then None
    else Some((ValueOf(s, w.buf[o..o + size]), w.(off := o + size)))
  }

  predicate Fits(c: Coder, sh: Shape)
    decreases c, 0
  {
    match c
    case Utf16(_) => sh.TextShape?
    case Array(e) => sh.ItemShapes? && FitsAll(e, sh.elems)
    case Then(a, b) => sh.BothShapes? && Fits(a, sh.first) && Fits(b, sh.rest)
    case _ => sh.NoShape?
  }

  predicate FitsAll(c: Coder, shs: seq<Shape>)
    decreases c, 1, |shs|
  {
    shs == [] || (Fits(c, shs[0]) && FitsAll(c, shs[1..]))
  }

  /** The first visit. Counts of strings are kept in 32 bits. */
  function DecConf(s: Syntax, c: Coder, w: Wire): (r: Option<(Shape, Wire)>)
    ensures r.Some? ==> Fits(c, r.value.0) && w.off <= r.value.1.off && r.value.1.buf == w.buf
    decreases c, 0, 0
  {
    match c
    case Utf16(_) =>
      var (_, w1) :- Get(s, w, WordSize(s));
      var (_, w2) :- Get(s, w1, WordSize(s));
      var (actual, w3) :- Get(s, w2, WordSize(s));
      Some((TextShape(actual % 0x1_0000_0000), w3))
    case Array(e) =>
      var (n, w1) :- Get(s, w, WordSize(s));
      var (shs, w2) :- DecConfAll(s, e, n, w1);
      Some((ItemShapes(shs), w2))
    case Then(a, b) =>
      var (sa, w1) :- DecConf(s, a, w);
      var (sb, w2) :- DecConf(s, b, w1);
      Some((BothShapes(sa, sb), w2))
    case _ => Some((NoShape, w))
  }

  function DecConfAll(s: Syntax, c: Coder, n: nat, w: Wire): (r: Option<(seq<Shape>, Wire)>)
    ensures r.Some? ==> FitsAll(c, r.value.0) && |r.value.0| == n && w.off <= r.value.1.off && r.value.1.buf == w.buf
    decreases c, 1, n
  {
    if n == 0 then Some(([], w))
    else
      var (sh, w1) :- DecConf(s, c, w);
      var (shs, w2) :- DecConfAll(s, c, n - 1, w1);
      Some(([sh] + shs, w2))
  }

  /** The alignment the first visit accumulates. */
  function ShapeAlign(s: Syntax, c: Coder, sh: Shape, m: nat): (r: nat)
    requires Fits(c, sh)
    requires IsAlignment(m)
    ensures m <= r && IsAlignment(r)
    decreases c, 0
  {
    match c
    case U8 => m
    case U16 => Max(m, 2)
    case U32 => Max(m, 4)
    case U3264 => Max(m, WordSize(s))
    case Utf16(_) => Max(m, 2)
    case Pointer(_, _) => Max(m, WordSize(s))
    case Array(e) => ShapeAlignAll(s, e, sh.elems, m)
    case Union(_) => Max(m, WordSize(s))
    case Nothing => m
    case Then(a, b) => ShapeAlign(s, b, sh.rest, ShapeAlign(s, a, sh.first, m))
  }

  function ShapeAlignAll(s: Syntax, c: Coder, shs: seq<Shape>, m: nat): (r: nat)
    requires FitsAll(c, shs)
    requires IsAlignment(m)
    ensures m <= r && IsAlignment(r)
    decreases c, 1, |shs|
  {
    if shs == [] then m else ShapeAlignAll(s, c, shs[1..], ShapeAlign(s, c, shs[0], m))
  }

  /** The units of a C string: everything before the first NUL. */
  function UpToNul(units: seq<nat>): (r: seq<nat>)
    ensures r <= units
  {
    if units == [] || units[0] == 0 then [] else [units[0]] + UpToNul(units[1..])
  }

  function BigUnit(buf: seq<byte>, off: nat): nat
    requires off + 2 <= |buf|
  {
    256 * buf[off] as nat + buf[off + 1] as nat
  }

  /** Big-endian code units go through the aligning integer reader. */
  function BigUnits(buf: seq<byte>, off: nat, n: nat): (r: Option<seq<nat>>)
    ensures r.Some? ==> |r.value| == n
    decreases n
  {
    var o := AlignUp(off, 2);
    if n == 0 then Some([])
    else if o + 2 > |buf| then None
    else
      var rest :- BigUnits(buf, off + 2, n - 1);
      Some([BigUnit(buf, o)] + rest)
  }

  /** Big-endian text is left swapped in the buffer, unit `i` at `off + 2 * i`. */
  function DecText(s: Syntax, n: nat, w: Wire): (r: Option<(Cell, Wire)>)
    ensures r.Some? ==> w.off <= r.value.1.off && |r.value.1.buf| == |w.buf|
  {
    var next := w.off + 2 * n;
    if next > |w.buf| then None
    else if s.little then Some((TextCell(UpToNul(LittleUnits(w.buf, w.off, n))), w.(off := next)))
    else
      var units :- BigUnits(w.buf, w.off, n);
      Some((TextCell(UpToNul(units)), Wire(Store(w.buf, w.off, LittleOctets(units)), next)))
  }

  function GetInt(s: Syntax, d: Dec, size: nat): (r: Option<(nat, Dec)>)
    requires IsAlignment(size) && |d.q| <= MAX_DEFERRED
    ensures r.Some? ==> Advances(d, r.value.1) && r.value.1.q == d.q
  {
    var (n, w1) :- Get(s, d.w, size);
    Some((n, d.(w := w1)))
  }

  function DecEmbedded(s: Syntax, kind: PtrKind, t: Coder, d: Dec): (r: Option<(Cell, Dec)>)
    requires |d.q| <= MAX_DEFERRED
    ensures r.Some? ==> Advances(d, r.value.1)
  {
    var (p, d1) :- GetInt(s, d, WordSize(s));
    if p == 0 && kind == Unique then Some((NullCell, d1))
    else if |d1.q| >= MAX_DEFERRED then None
    else Some((Slot(|d1.q|), d1.(q := d1.q + [t])))
  }

  /** The second visit. An array's count is kept in 32 bits between the visits. */
  function DecData(s: Syntax, c: Coder, sh: Shape, d: Dec): (r: Option<(Cell, Dec)>)
    requires Fits(c, sh) && |d.q| <= MAX_DEFERRED
    ensures r.Some? ==> Advances(d, r.value.1)
    decreases c, 0, 0
  {
    match c
    case U8 => var (n, d1) :- GetInt(s, d, 1); Some((NumCell(n), d1))
    case U16 => var (n, d1) :- GetInt(s, d, 2); Some((NumCell(n), d1))
    case U32 => var (n, d1) :- GetInt(s, d, 4); Some((NumCell(n), d1))
    case U3264 => var (n, d1) :- GetInt(s, d, WordSize(s)); Some((NumCell(n), d1))
    case Utf16(_) =>
      var (text, w1) :- DecText(s, sh.count, d.w);
      Some((text, d.(w := w1)))
    case Pointer(kind, t) => DecEmbedded(s, kind, t, d)
    case Array(e) =>
      var (cells, d1) :- DecDataAll(s, e, sh.elems, |sh.elems| % 0x1_0000_0000, d);
      Some((ItemCells(cells), d1))
    case Union(_) =>
      var (p, d1) :- GetInt(s, d, WordSize(s));
      var tag := p % 0x1_0000_0000;
      var arm := ArmCoder(c, tag);
      if arm.None? then Some((TaggedCell(tag, NullCell), d1))
      else
        var (ptr, d2) :- DecEmbedded(s, Unique, arm.value, d1);
        Some((TaggedCell(tag, ptr), d2))
    case Nothing => Some((UnitCell, d))
    case Then(a, b) =>
      var (ca, d1) :- DecData(s, a, sh.first, d);
      var (cb, d2) :- DecData(s, b, sh.rest, d1);
      Some((BothCells(ca, cb), d2))
  }

  function DecDataAll(s: Syntax, c: Coder, shs: seq<Shape>, n: nat, d: Dec): (r: Option<(seq<Cell>, Dec)>)
    requires FitsAll(c, shs) && n <= |shs| && |d.q| <= MAX_DEFERRED
    ensures r.Some? ==> Advances(d, r.value.1)
    decreases c, 1, n
  {
    if n == 0 then Some(([], d))
    else
      var (cell, d1) :- DecData(s, c, shs[0], d);
      var (cells, d2) :- DecDataAll(s, c, shs[1..], n - 1, d1);
      Some(([cell] + cells, d2))
  }

  function DecOne(s: Syntax, c: Coder, d: Dec): (r: Option<(Cell, Dec)>)
    requires |d.q| <= MAX_DEFERRED
    ensures r.Some? ==> Advances(d, r.value.1)
  {
    var (sh, w1) :- DecConf(s, c, d.w);
    DecData(s, c, sh, d.(w := w1.(off := AlignUp(w1.off, ShapeAlign(s, c, sh, 1)))))
  }

  /** `slots[k]` is what the pointee of slot `k` decoded to. */
  function DecDrain(s: Syntax, d: Dec, slots: seq<Cell>): (r: Option<(seq<Cell>, Dec)>)
    requires |slots| <= |d.q| <= MAX_DEFERRED
    ensures r.Some? ==> Advances(d, r.value.1)
    ensures r.Some? ==> slots <= r.value.0 && |r.value.0| == |r.value.1.q|
    decreases MAX_DEFERRED - |slots|
  {
    if |slots| == |d.q| then Some((slots, d))
    else
      var (cell, d1) :- DecOne(s, d.q[|slots|], d);
      DecDrain(s, d1, slots + [cell])
  }

  /** Decoded memory as a whole: the top-level cell, the slots, and the reader's state. */
  datatype Memory = Memory(cell: Cell, slots: seq<Cell>, d: Dec)

  function DecInline(s: Syntax, t: Coder, d: Dec, slots: seq<Cell>): (r: Option<Memory>)
    requires |slots| == |d.q| <= MAX_DEFERRED
    ensures r.Some? ==> Advances(d, r.value.d) && slots <= r.value.slots && |r.value.slots| == |r.value.d.q|
  {
    var (cell, d1) :- DecOne(s, t, d);
    var (slots', d2) :- DecDrain(s, d1, slots);
    Some(Memory(Direct(cell), slots', d2))
  }

  function DecTopPtr(s: Syntax, kind: PtrKind, t: Coder, d: Dec, slots: seq<Cell>): (r: Option<Memory>)
    requires |slots| == |d.q| <= MAX_DEFERRED
    ensures r.Some? ==> Advances(d, r.value.d) && slots <= r.value.slots && |r.value.slots| == |r.value.d.q|
  {
    if kind == Ref then DecInline(s, t, d, slots)
    else
      var (p, d1) :- GetInt(s, d, WordSize(s));
      if p == 0 then Some(Memory(NullCell, slots, d1)) else DecInline(s, t, d1, slots)
  }

  function DecTop(s: Syntax, c: Coder, d: Dec, slots: seq<Cell>): (r: Option<Memory>)
    requires TopLevel(c)
    requires |slots| == |d.q| <= MAX_DEFERRED
    ensures r.Some? ==> Advances(d, r.value.d) && slots <= r.value.slots && |r.value.slots| == |r.value.d.q|
    decreases c
  {
    match c
    case U8 => var (n, d1) :- GetInt(s, d, 1); Some(Memory(NumCell(n), slots, d1))
    case U16 => var (n, d1) :- GetInt(s, d, 2); Some(Memory(NumCell(n), slots, d1))
    case U32 => var (n, d1) :- GetInt(s, d, 4); Some(Memory(NumCell(n), slots, d1))
    case U3264 => var (n, d1) :- GetInt(s, d, WordSize(s)); Some(Memory(NumCell(n), slots, d1))
    case Pointer(kind, t) => DecTopPtr(s, kind, t, d, slots)
    case Union(_) =>
      var (p, d1) :- GetInt(s, d, WordSize(s));
      var tag := p % 0x1_0000_0000;
      var arm := ArmCoder(c, tag);
      if arm.None? then Some(Memory(TaggedCell(tag, NullCell), slots, d1))
      else
        var m :- DecTopPtr(s, Unique, arm.value, d1, slots);
        Some(m.(cell := TaggedCell(tag, m.cell)))
    case Nothing => Some(Memory(UnitCell, slots, d))
    case Then(a, b) =>
      var ma :- DecTop(s, a, d, slots);
      var mb :- DecTop(s, b, ma.d, ma.slots);
      Some(mb.(cell := BothCells(ma.cell, mb.cell)))
  }

  /** The tree a caller finds by following pointers from `cell`. A slot only ever refers to slots
      queued after it; `lo` bounds the walk. */
  function Follow(cell: Cell, slots: seq<Cell>, lo: nat): Value
    decreases |slots| - lo, cell, 0
  {
    match cell
    case NumCell(n) => Num(n)
    case TextCell(u) => Text(u)
    case NullCell => Null
    case Slot(k) => if lo <= k < |slots| then Pointee(Follow(slots[k], slots, k + 1)) else Null
    case Direct(t) => Pointee(Follow(t, slots, lo))
    case ItemCells(cs) => Items(FollowAll(cs, slots, lo))
    case TaggedCell(tag, a) => Tagged(tag, Follow(a, slots, lo))
    case UnitCell => Unit
    case BothCells(a, b) => Both(Follow(a, slots, lo), Follow(b, slots, lo))
  }

  function FollowAll(cs: seq<Cell>, slots: seq<Cell>, lo: nat): seq<Value>
    decreases |slots| - lo, cs, 1
  {
    if cs == [] then [] else [Follow(cs[0], slots, lo)] + FollowAll(cs[1..], slots, lo)
  }
}
