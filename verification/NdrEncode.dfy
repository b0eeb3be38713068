/** What encoding does to the buffer, the offset and the queue of deferred pointers. `None` is the
    coders' -1: the value does not fit the buffer, or the queue is full. */
module NdrEncode {
  import opened Octet
  import opened Bytes
  import opened Ndr

  /** The referent ids written for pointers; NDR32 keeps their low 32 bits. */
  const RPTR: nat := 0x5270747272747052
  const UPTR: nat := 0x5570747272747055
  const RPTR32: nat := 0x72747052
  const UPTR32: nat := 0x72747055

  /** The output so far and the queue of deferred pointees. */
  datatype Enc = Enc(w: Wire, q: seq<Job>)

  function Octets(s: Syntax, n: nat, size: nat): (r: seq<byte>)
    ensures |r| == size
  {
    if s.little then Little(n, size) else Big(n, size)
  }

  /** Align to the integer's own size, check the room left, store, advance. */
  function Put(s: Syntax, w: Wire, size: nat, n: nat): (r: Option<Wire>)
    requires IsAlignment(size)
    ensures r.Some? ==> w.off < r.value.off && |r.value.buf| == |w.buf|
  {
    var o := AlignUp(w.off, size);
    if o + size > |w.buf| then None else Some(Wire(Store(w.buf, o, Octets(s, n, size)), o + size))
  }

  function PutUnits(s: Syntax, w: Wire, units: seq<nat>): (r: Option<Wire>)
    ensures r.Some? ==> w.off <= r.value.off && |r.value.buf| == |w.buf|
    decreases |units|
  {
    if units == [] then Some(w)
    else
      var w1 :- Put(s, w, 2, units[0]);
      PutUnits(s, w1, units[1..])
  }

  function TextUnits(nul: bool, units: seq<nat>): seq<nat> {
    if nul then units + [0] else units
  }

  /** The element count announced for a string; a string without a terminator is rounded up to even. */
  function MaxCount(nul: bool, units: seq<nat>): nat {
    if nul then |units| + 1 else (|units| + 1) / 2 * 2
  }

  /** The first visit of a value: only counts are written. */
  function EncConf(s: Syntax, c: Coder, v: Value, w: Wire): (r: Option<Wire>)
    requires Typed(s, c, v)
    ensures r.Some? ==> w.off <= r.value.off && |r.value.buf| == |w.buf|
    decreases c, 0
  {
    match c
    case Utf16(nul) =>
      var w1 :- Put(s, w, WordSize(s), MaxCount(nul, v.units));
      var w2 :- Put(s, w1, WordSize(s), 0);
      Put(s, w2, WordSize(s), |TextUnits(nul, v.units)|)
    case Array(elem) =>
      var w1 :- Put(s, w, WordSize(s), |v.elems|);
      EncConfAll(s, elem, v.elems, w1)
    case Then(a, b) =>
      var w1 :- EncConf(s, a, v.first, w);
      EncConf(s, b, v.rest, w1)
    case _ => Some(w)
  }

  function EncConfAll(s: Syntax, c: Coder, vs: seq<Value>, w: Wire): (r: Option<Wire>)
    requires TypedAll(s, c, vs)
    ensures r.Some? ==> w.off <= r.value.off && |r.value.buf| == |w.buf|
    decreases c, 1, |vs|
  {
    if vs == [] then Some(w)
    else
      var w1 :- EncConf(s, c, vs[0], w);
      EncConfAll(s, c, vs[1..], w1)
  }

  predicate Ready(s: Syntax, q: seq<Job>) {
    |q| <= MAX_DEFERRED && AllTyped(s, q)
  }

  /** Encoding moves forward in a buffer of fixed length, and the queue only grows. */
  predicate Extends(s: Syntax, e: Enc, e2: Enc) {
    && |e2.w.buf| == |e.w.buf|
    && e.w.off <= e2.w.off
    && e.q <= e2.q
    && Ready(s, e2.q)
  }

  function PutInt(s: Syntax, e: Enc, size: nat, n: nat): (r: Option<Enc>)
    requires IsAlignment(size) && Ready(s, e.q)
    ensures r.Some? ==> Extends(s, e, r.value) && r.value.q == e.q
  {
    var w1 :- Put(s, e.w, size, n);
    Some(e.(w := w1))
  }

  /** Append a pointee to the queue. The C code has no bound check here: `None` stands for the
      write past the end of its 1024-slot array. */
  function Defer(s: Syntax, e: Enc, c: Coder, v: Value): (r: Option<Enc>)
    requires Ready(s, e.q) && Typed(s, c, v)
    ensures r.Some? ==> Extends(s, e, r.value) && r.value.q == e.q + [Job(c, v)]
  {
    if |e.q| >= MAX_DEFERRED then None
    else
      AllTypedPush(s, e.q, Job(c, v));
      Some(e.(q := e.q + [Job(c, v)]))
  }

  function Referent(s: Syntax, kind: PtrKind): nat {
    if s.ndr64 then (if kind == Ref then RPTR else UPTR) else (if kind == Ref then RPTR32 else UPTR32)
  }

  /** An embedded pointer: a referent id now, the pointee later. */
  function EncEmbedded(s: Syntax, kind: PtrKind, t: Coder, v: Value, e: Enc): (r: Option<Enc>)
    requires v.Null? || (v.Pointee? && Typed(s, t, v.v))
    requires Ready(s, e.q)
    ensures r.Some? ==> Extends(s, e, r.value)
  {
    if v.Null? then PutInt(s, e, WordSize(s), 0)
    else
      var e1 :- PutInt(s, e, WordSize(s), Referent(s, kind));
      Defer(s, e1, t, v.v)
  }

  /** The second visit of a value below a pointer: the data, with embedded pointers deferred. */
  function EncData(s: Syntax, c: Coder, v: Value, e: Enc): (r: Option<Enc>)
    requires Typed(s, c, v) && Ready(s, e.q)
    ensures r.Some? ==> Extends(s, e, r.value)
    decreases c, 0
  {
    match c
    case U8 => PutInt(s, e, 1, v.n)
    case U16 => PutInt(s, e, 2, v.n)
    case U32 => PutInt(s, e, 4, v.n)
    case U3264 => PutInt(s, e, WordSize(s), v.n)
    case Utf16(nul) =>
      var w1 :- PutUnits(s, e.w, TextUnits(nul, v.units));
      Some(e.(w := w1))
    case Pointer(kind, t) => EncEmbedded(s, kind, t, v, e)
    case Array(elem) => EncDataAll(s, elem, v.elems, e)
    case Union(arms) =>
      var e1 :- PutInt(s, e, WordSize(s), v.tag);
      var arm := ArmCoder(c, v.tag);
      if arm.None? then Some(e1) else EncEmbedded(s, Unique, arm.value, v.arm, e1)
    case Nothing => Some(e)
    case Then(a, b) =>
      var e1 :- EncData(s, a, v.first, e);
      EncData(s, b, v.rest, e1)
  }

  function EncDataAll(s: Syntax, c: Coder, vs: seq<Value>, e: Enc): (r: Option<Enc>)
    requires TypedAll(s, c, vs) && Ready(s, e.q)
    ensures r.Some? ==> Extends(s, e, r.value)
    decreases c, 1, |vs|
  {
    if vs == [] then Some(e)
    else
      var e1 :- EncData(s, c, vs[0], e);
      EncDataAll(s, c, vs[1..], e1)
  }

  /** One pointee: conformance visit, alignment to the largest member, data visit. */
  function EncOne(s: Syntax, c: Coder, v: Value, e: Enc): (r: Option<Enc>)
    requires Typed(s, c, v) && Ready(s, e.q)
    ensures r.Some? ==> Extends(s, e, r.value)
  {
    var w1 :- EncConf(s, c, v, e.w);
    EncData(s, c, v, e.(w := w1.(off := AlignUp(w1.off, MaxAlign(s, c, v, 1)))))
  }

  /** Process the queue from `cur` until it is empty. */
  function EncDrain(s: Syntax, e: Enc, cur: nat): (r: Option<Enc>)
    requires Ready(s, e.q) && cur <= |e.q|
    ensures r.Some? ==> Extends(s, e, r.value)
    decreases MAX_DEFERRED - cur
  {
    if cur == |e.q| then Some(e)
    else
      AllTypedAt(s, e.q, cur);
      var e1 :- EncOne(s, e.q[cur].coder, e.q[cur].value, e);
      EncDrain(s, e1, cur + 1)
  }

  /** A top-level pointee is marshalled in place, and everything it deferred right after it. */
  function EncInline(s: Syntax, t: Coder, v: Value, e: Enc): (r: Option<Enc>)
    requires Typed(s, t, v) && Ready(s, e.q)
    ensures r.Some? ==> Extends(s, e, r.value)
  {
    var e1 :- EncOne(s, t, v, e);
    EncDrain(s, e1, |e.q|)
  }

  function EncTopPtr(s: Syntax, kind: PtrKind, t: Coder, v: Value, e: Enc): (r: Option<Enc>)
    requires (v.Null? && kind == Unique) || (v.Pointee? && Typed(s, t, v.v))
    requires Ready(s, e.q)
    ensures r.Some? ==> Extends(s, e, r.value)
  {
    if v.Null? then PutInt(s, e, WordSize(s), 0)
    else if kind == Ref then EncInline(s, t, v.v, e)
    else
      var e1 :- PutInt(s, e, WordSize(s), Referent(s, kind));
      EncInline(s, t, v.v, e1)
  }

  /** The top-level coder of a request or reply. The queue is empty, up to entries already
      processed, whenever it starts and whenever it ends. */
  function EncTop(s: Syntax, c: Coder, v: Value, e: Enc): (r: Option<Enc>)
    requires Typed(s, c, v) && TopLevel(c) && Ready(s, e.q)
    ensures r.Some? ==> Extends(s, e, r.value)
    decreases c
  {
    if c.Pointer? then EncTopPtr(s, c.kind, c.target, v, e)
    else if c.Union? then
      var e1 :- PutInt(s, e, WordSize(s), v.tag);
      var arm := ArmCoder(c, v.tag);
      if arm.None? then Some(e1) else EncTopPtr(s, Unique, arm.value, v.arm, e1)
    else if c.Then? then
      var e1 :- EncTop(s, c.first, v.first, e);
      EncTop(s, c.rest, v.rest, e1)
    else EncData(s, c, v, e)
  }
}
