/** Byte-swapping a text where it lies in the receive buffer. */
module NdrSwap {
  import opened Octet
  import opened Bytes
  import opened Sequences
  import opened Ndr
  import opened NdrDecode

  lemma {:induction false} BigUnitFits(buf: seq<byte>, off: nat)
    requires off + 2 <= |buf|
    ensures BigUnit(buf, off) < 0x1_0000
  {
  }

  lemma {:induction false} BigUnitsFit(buf: seq<byte>, off: nat, n: nat)
    requires BigUnits(buf, off, n).Some?
    ensures CodeUnits(BigUnits(buf, off, n).value)
    decreases n
  {
    if n > 0 {
      BigUnitFits(buf, AlignUp(off, 2));
      BigUnitsFit(buf, off + 2, n - 1);
    }
  }

  lemma {:induction false} LittleOctetsPush(units: seq<nat>, u: nat)
    ensures LittleOctets(units + [u]) == LittleOctets(units) + Little(u, 2)
    decreases |units|
  {
    if units == [] {
      assert ([] + [u])[1..] == [];
    } else {
      LittleOctetsPush(units[1..], u);
      TailOfJoined(units, [u]);
      Assoc(Little(units[0], 2), LittleOctets(units[1..]), Little(u, 2));
    }
  }

  /** Reading little-endian where `units` was stored little-endian gives `units`, at any offset. */
  lemma {:induction false} SwappedReads(buf: seq<byte>, off: nat, units: seq<nat>)
    requires off + 2 * |units| <= |buf| && CodeUnits(units)
    ensures LittleUnits(Store(buf, off, LittleOctets(units)), off, |units|) == units
    decreases |units|
  {
    if units != [] {
      var head, rest := Little(units[0], 2), LittleOctets(units[1..]);
      var b1 := Store(buf, off, head);
      StoreJoin(buf, off, head, rest);
      SwappedReads(b1, off + 2, units[1..]);
      StoreKeeps(buf, off, head);
      StoreKeeps(b1, off + 2, rest);
      var r := Store(b1, off + 2, rest);
      SameAt(b1, r, 0, off + 2, off);
      SameAt(b1, r, 0, off + 2, off + 1);
      assert b1[off..off + 2][0] == head[0] && b1[off..off + 2][1] == head[1];
      LittlePair(units[0]);
      assert LittleUnit(r, off) == units[0];
    }
  }

  function Units(done: seq<nat>, rest: Option<seq<nat>>): Option<seq<nat>> {
    if rest.None? then None else Some(done + rest.value)
  }

  lemma {:induction false} UnitsNone(rest: Option<seq<nat>>)
    ensures Units([], rest) == rest
  {
    if rest.Some? {
      EmptyUnit(rest.value);
    }
  }

  /** Part way through a swap: `units` are done, `n` are left to do from `at` on, and the buffer `was`
      has become `now`. `goal` is what the whole swap reads. */
  predicate Swapping(was: seq<byte>, now: seq<byte>, off: nat, units: seq<nat>, at: nat, n: nat, goal: Option<seq<nat>>)
  {
    && at == off + 2 * |units| && at + 2 * n <= |was|
    && now == Store(was, off, LittleOctets(units))
    && Same(now, was, at, |was|)
    && Units(units, BigUnits(was, at, n)) == goal
  }

  lemma {:induction false} SwapStart(was: seq<byte>, off: nat, count: nat)
    requires off + 2 * count <= |was|
    ensures Swapping(was, was, off, [], off, count, BigUnits(was, off, count))
  {
    SameSelf(was, off, |was|);
    UnitsNone(BigUnits(was, off, count));
  }

  /** The unit at the aligned place is stored at or before that place, so what is still to be read
      stays as it was. */
  lemma {:induction false} SwapRound(was: seq<byte>, now: seq<byte>, off: nat, units: seq<nat>, at: nat, n: nat, goal: Option<seq<nat>>)
    requires Swapping(was, now, off, units, at, n, goal) && n > 0
    ensures var o := AlignUp(at, 2);
            if o + 2 > |was| then goal.None?
            else Swapping(was, Store(now, at, Little(BigUnit(now, o), 2)), off, units + [BigUnit(now, o)], at + 2, n - 1, goal)
  {
    var o := AlignUp(at, 2);
    if o + 2 <= |was| {
      var v := BigUnit(now, o);
      SameAt(now, was, at, |was|, o);
      SameAt(now, was, at, |was|, o + 1);
      LittleOctetsPush(units, v);
      StoreJoin(was, off, LittleOctets(units), Little(v, 2));
      SwapSame(was, now, at, Little(v, 2));
      SwapRest(was, at, units, n);
    }
  }

  lemma {:induction false} SwapSame(was: seq<byte>, now: seq<byte>, at: nat, octets: seq<byte>)
    requires |was| == |now| && |octets| == 2 && at + 2 <= |was| && Same(now, was, at, |was|)
    ensures Same(Store(now, at, octets), was, at + 2, |was|)
  {
    var next := Store(now, at, octets);
    StoreKeeps(now, at, octets);
    SameSymmetric(now, next, at + 2, |was|);
    SamePart(now, was, at, |was|, at + 2, |was|);
    SameTrans(next, now, was, at + 2, |was|);
  }

  lemma {:induction false} SwapRest(was: seq<byte>, at: nat, units: seq<nat>, n: nat)
    requires n > 0 && AlignUp(at, 2) + 2 <= |was|
    ensures Units(units, BigUnits(was, at, n)) ==
            Units(units + [BigUnit(was, AlignUp(at, 2))], BigUnits(was, at + 2, n - 1))
  {
    var rest := BigUnits(was, at + 2, n - 1);
    if rest.Some? {
      Assoc(units, [BigUnit(was, AlignUp(at, 2))], rest.value);
    }
  }

  lemma {:induction false} SwapEnd(was: seq<byte>, now: seq<byte>, off: nat, units: seq<nat>)
    requires Swapping(was, now, off, units, off + 2 * |units|, 0, BigUnits(was, off, |units|))
    ensures BigUnits(was, off, |units|) == Some(units)
    ensures now == Store(was, off, LittleOctets(units)) && LittleUnits(now, off, |units|) == units
  {
    EmptyUnit(units);
    BigUnitsFit(was, off, |units|);
    SwappedReads(was, off, units);
  }

  /** Each round reads the unit at the aligned place and stores it in host order at its own place. */
  method SwapUnits(buf: array<byte>, off: nat, count: nat) returns (ok: bool)
    requires off + 2 * count <= buf.Length
    modifies buf
    ensures ok <==> BigUnits(old(buf[..]), off, count).Some?
    ensures ok ==> buf[..] == Store(old(buf[..]), off, LittleOctets(BigUnits(old(buf[..]), off, count).value))
    ensures ok ==> LittleUnits(buf[..], off, count) == BigUnits(old(buf[..]), off, count).value
  {
    hide Swapping;
    hide Store;
    hide BigUnits;
    hide LittleUnits;
    ghost var was := buf[..];
    ghost var units: seq<nat> := [];
    ghost var goal := BigUnits(was, off, count);
    SwapStart(was, off, count);
    var i := 0;
    while i < count
      invariant 0 <= i == |units| <= count
      invariant Swapping(was, buf[..], off, units, off + 2 * i, count - i, goal)
    {
      var at := off + 2 * i;
      SwapRound(was, buf[..], off, units, at, count - i, goal);
      var o := AlignUp(at, 2);
      if o + 2 > buf.Length {
        return false;
      }
      var v := BigUnit(buf[..], o);
      Blit(buf, at, Little(v, 2));
      ghost var next := units + [v];
      assert Swapping(was, buf[..], off, next, at + 2, count - i - 1, goal);
      units := next;
      i := i + 1;
    }
    SwapEnd(was, buf[..], off, units);
    ok := true;
  }

  const WORD: nat := 0x1_0000_0000

  /** The program's test that a text lies inside the buffer adds and doubles in 32 bits. */
  predicate RoomTest(off: nat, count: nat, size: nat) {
    (off + 2 * count) % WORD <= size
  }

  /** The test lets a text pass that does not lie inside if and only if its end comes round to the buffer
      again, once or twice. It does for a count of 2^31 at every place. */
  lemma {:induction false} RoomTestWraps(off: nat, count: nat, size: nat)
    requires off <= size < WORD / 2 && count < WORD
    ensures RoomTest(off, count, size) && off + 2 * count > size <==>
            WORD <= off + 2 * count <= WORD + size || 2 * WORD <= off + 2 * count <= 2 * WORD + size
    ensures RoomTest(off, WORD / 2, size)
  {
  }

  /** A text that does not lie inside is refused, or is read past the buffer when the test does not notice:
      neither has room. */
  method HasRoom(off: nat, count: nat, size: nat) returns (ok: bool)
    ensures ok <==> off + 2 * count <= size
  {
    if !RoomTest(off, count, size) {
      return false;
    }
    ok := off + 2 * count <= size;
  }

  /** A text: swapped in place when the integers of the PDU are big-endian, then used where it lies. */
  method ReadText(s: Syntax, buf: array<byte>, off: nat, count: nat) returns (ok: bool, cell: Cell)
    modifies buf
    ensures ok <==> DecText(s, count, Wire(old(buf[..]), off)).Some?
    ensures ok ==> DecText(s, count, Wire(old(buf[..]), off)).value == (cell, Wire(buf[..], off + 2 * count))
  {
    cell := UnitCell;
    ok := HasRoom(off, count, buf.Length);
    if !ok { return; }
    if !s.little {
      ok := SwapUnits(buf, off, count);
      if !ok { return; }
    }
    ok, cell := true, TextCell(UpToNul(LittleUnits(buf[..], off, count)));
  }
}

/** Loops that decode elements one by one, against the recursive definitions. */
module NdrElements {
  import opened Bytes
  import opened Sequences
  import opened Ndr
  import opened NdrDecode

  function JoinShapes(done: seq<Shape>, rest: Option<(seq<Shape>, Wire)>): Option<(seq<Shape>, Wire)> {
    if rest.None? then None else Some((done + rest.value.0, rest.value.1))
  }

  lemma {:induction false} JoinShapesNone(rest: Option<(seq<Shape>, Wire)>)
    ensures JoinShapes([], rest) == rest
  {
    if rest.Some? {
      EmptyUnit(rest.value.0);
    }
  }

  lemma {:induction false} JoinShapesOne(done: seq<Shape>, x: Shape, rest: Option<(seq<Shape>, Wire)>)
    ensures JoinShapes(done, JoinShapes([x], rest)) == JoinShapes(done + [x], rest)
  {
    if rest.Some? {
      Assoc(done, [x], rest.value.0);
    }
  }

  function JoinCells(done: seq<Cell>, rest: Option<(seq<Cell>, Dec)>): Option<(seq<Cell>, Dec)> {
    if rest.None? then None else Some((done + rest.value.0, rest.value.1))
  }

  lemma {:induction false} JoinCellsNone(rest: Option<(seq<Cell>, Dec)>)
    ensures JoinCells([], rest) == rest
  {
    if rest.Some? {
      EmptyUnit(rest.value.0);
    }
  }

  lemma {:induction false} JoinCellsOne(done: seq<Cell>, x: Cell, rest: Option<(seq<Cell>, Dec)>)
    ensures JoinCells(done, JoinCells([x], rest)) == JoinCells(done + [x], rest)
  {
    if rest.Some? {
      Assoc(done, [x], rest.value.0);
    }
  }

  /** The rest of the first visit's loop over an array, `done` being the elements it has behind it. */
  function ConfFrom(s: Syntax, c: Coder, n: nat, done: seq<Shape>, w: Wire): Option<(seq<Shape>, Wire)>
    decreases n
  {
    if n == 0 then Some((done, w))
    else
      var (sh, w1) :- DecConf(s, c, w);
      ConfFrom(s, c, n - 1, done + [sh], w1)
  }

  /** The rest of the second visit's loop. */
  function DataFrom(s: Syntax, c: Coder, shs: seq<Shape>, n: nat, done: seq<Cell>, d: Dec): Option<(seq<Cell>, Dec)>
    requires FitsAll(c, shs) && n <= |shs| && |d.q| <= MAX_DEFERRED
    decreases n
  {
    if n == 0 then Some((done, d))
    else
      var (cell, d1) :- DecData(s, c, shs[0], d);
      DataFrom(s, c, shs[1..], n - 1, done + [cell], d1)
  }

  lemma {:induction false} ConfFromJoins(s: Syntax, c: Coder, n: nat, done: seq<Shape>, w: Wire)
    ensures ConfFrom(s, c, n, done, w) == JoinShapes(done, DecConfAll(s, c, n, w))
    decreases n
  {
    if n == 0 {
      EmptyUnit(done);
    } else if DecConf(s, c, w).Some? {
      var (sh, w1) := DecConf(s, c, w).value;
      ConfFromJoins(s, c, n - 1, done + [sh], w1);
      JoinShapesOne(done, sh, DecConfAll(s, c, n - 1, w1));
    }
  }

  lemma {:induction false} DataSplits(s: Syntax, c: Coder, shs: seq<Shape>, n: nat, d: Dec)
    requires FitsAll(c, shs) && 0 < n <= |shs| && |d.q| <= MAX_DEFERRED
    ensures DecDataAll(s, c, shs, n, d) ==
            var r := DecData(s, c, shs[0], d);
            if r.None? then None else JoinCells([r.value.0], DecDataAll(s, c, shs[1..], n - 1, r.value.1))
  {
  }

  lemma {:induction false} DataFromJoins(s: Syntax, c: Coder, shs: seq<Shape>, n: nat, done: seq<Cell>, d: Dec)
    requires FitsAll(c, shs) && n <= |shs| && |d.q| <= MAX_DEFERRED
    ensures DataFrom(s, c, shs, n, done, d) == JoinCells(done, DecDataAll(s, c, shs, n, d))
    decreases n
  {
    if n == 0 {
      EmptyUnit(done);
    } else {
      DataSplits(s, c, shs, n, d);
      var r := DecData(s, c, shs[0], d);
      if r.Some? {
        DataFromJoins(s, c, shs[1..], n - 1, done + [r.value.0], r.value.1);
        JoinCellsOne(done, r.value.0, DecDataAll(s, c, shs[1..], n - 1, r.value.1));
      }
    }
  }

  lemma {:induction false} ThenCounts(s: Syntax, a: Coder, b: Coder, w: Wire)
    ensures DecConf(s, Then(a, b), w) ==
            var r1 := DecConf(s, a, w);
            if r1.None? then None
            else
              var r2 := DecConf(s, b, r1.value.1);
              if r2.None? then None else Some((BothShapes(r1.value.0, r2.value.0), r2.value.1))
  {
  }

  lemma {:induction false} ThenShapes(s: Syntax, a: Coder, b: Coder, first: Shape, rest: Shape, m: nat)
    requires Fits(a, first) && Fits(b, rest) && IsAlignment(m)
    ensures Fits(Then(a, b), BothShapes(first, rest))
    ensures ShapeAlign(s, Then(a, b), BothShapes(first, rest), m) == ShapeAlign(s, b, rest, ShapeAlign(s, a, first, m))
  {
  }

  lemma {:induction false} ConfFromStart(s: Syntax, c: Coder, n: nat, w: Wire)
    ensures ConfFrom(s, c, n, [], w) == DecConfAll(s, c, n, w)
  {
    ConfFromJoins(s, c, n, [], w);
    JoinShapesNone(DecConfAll(s, c, n, w));
  }

  lemma {:induction false} DataFromStart(s: Syntax, c: Coder, shs: seq<Shape>, n: nat, d: Dec)
    requires FitsAll(c, shs) && n <= |shs| && |d.q| <= MAX_DEFERRED
    ensures DataFrom(s, c, shs, n, [], d) == DecDataAll(s, c, shs, n, d)
  {
    DataFromJoins(s, c, shs, n, [], d);
    JoinCellsNone(DecDataAll(s, c, shs, n, d));
  }

  lemma {:induction false} ShapeAlignPush(s: Syntax, c: Coder, shs: seq<Shape>, sh: Shape, m: nat)
    requires FitsAll(c, shs) && Fits(c, sh) && IsAlignment(m)
    ensures FitsAll(c, shs + [sh]) && ShapeAlignAll(s, c, shs + [sh], m) == ShapeAlign(s, c, sh, ShapeAlignAll(s, c, shs, m))
    decreases |shs|
  {
    if shs == [] {
      assert ([] + [sh])[1..] == [];
    } else {
      TailOfJoined(shs, [sh]);
      ShapeAlignPush(s, c, shs[1..], sh, ShapeAlign(s, c, shs[0], m));
    }
  }
}

/** The decoding half of the PDU. The coders of the source test the direction and the visit; here the
    decoding half is one method for each of the three visits. A method returns false where the C function
    returns -1; the state is then not used again. */
module NdrDecoder {
  import opened Octet
  import opened Bytes
  import opened Ndr
  import opened NdrDecode
  import opened NdrElements
  import opened NdrSwap

  /** What a coder returns, with the reader's state after it. */
  function Outcome<A, B>(ok: bool, result: A, state: B): Option<(A, B)> {
    if ok then Some((result, state)) else None
  }

  class DecodePdu {
    const syntax: Syntax
    const buf: array<byte>
    const ptrs: array<Coder>
    var offset: nat
    var topLevel: bool
    var curPtr: nat
    var maxPtr: nat
    var maxAlignment: nat
    /** The memory that deferred pointers point to, in queue order. */
    var slots: seq<Cell>
    /** The buffer and the queue, as values. */
    ghost var dec: Dec
    /** Set while a pointee is being coded; the pointee coder is never re-entered. */
    ghost var coding: bool

    ghost predicate Valid()
      reads this, ptrs, buf
    {
      && ptrs.Length == MAX_DEFERRED && (buf as object) != ptrs
      && curPtr <= maxPtr <= MAX_DEFERRED
      && dec == Dec(Wire(buf[..], offset), ptrs[..maxPtr])
      && IsAlignment(maxAlignment)
      && (topLevel ==> !coding && |slots| == curPtr == maxPtr)
    }

    constructor (syntax: Syntax, message: seq<byte>)
      ensures Valid() && fresh(buf) && fresh(ptrs)
      ensures this.syntax == syntax && topLevel && dec == Dec(Wire(message, 0), []) && slots == []
    {
      this.syntax := syntax;
      var room := new byte[|message|](i requires 0 <= i < |message| => message[i]);
      buf := room;
      ptrs := new Coder[MAX_DEFERRED](_ => Nothing);
      offset, curPtr, maxPtr, maxAlignment := 0, 0, 0, 1;
      topLevel, coding, slots := true, false, [];
      dec := Dec(Wire(message, 0), []);
      new;
      assert ptrs[..0] == [] && room[..] == message;
    }

    /** Read an integer of `size` octets, aligned to `size`. */
    method GetUint(size: nat) returns (ok: bool, n: nat)
      requires Valid() && IsAlignment(size)
      modifies this`offset, this`dec
      ensures Valid()
      ensures Outcome(ok, n, dec) == GetInt(syntax, old(dec), size)
    {
      var o := AlignUp(offset, size);
      if o + size > buf.Length {
        return false, 0;
      }
      n := ValueOf(syntax, buf[o..o + size]);
      assert buf[o..o + size] == buf[..][o..o + size];
      offset := o + size;
      dec := dec.(w := dec.w.(off := offset));
      return true, n;
    }

    /** First visit of a value: counts are read and remembered, alignment is accumulated. */
    method CountCoder(c: Coder) returns (ok: bool, shape: Shape)
      requires Valid()
      modifies this`offset, this`dec, this`maxAlignment
      ensures Valid() && dec.q == old(dec.q)
      ensures Outcome(ok, shape, dec.w) == DecConf(syntax, c, old(dec.w))
      ensures ok ==> Fits(c, shape) && maxAlignment == ShapeAlign(syntax, c, shape, old(maxAlignment))
      decreases c, 1
    {
      ok, shape := true, NoShape;
      if c.Utf16? {
        ok, shape := CountText();
        Raise(2);
      } else if c.Array? {
        ok, shape := CountArray(c.elem);
      } else if c.Then? {
        ok, shape := CountStruct(c.first, c.rest);
      } else if c.U16? {
        Raise(2);
      } else if c.U32? {
        Raise(4);
      } else if c.U3264? || c.Pointer? || c.Union? {
        Raise(WordSize(syntax));
      }
    }

    method Raise(size: nat)
      requires Valid() && IsAlignment(size)
      modifies this`maxAlignment
      ensures Valid() && maxAlignment == Max(old(maxAlignment), size)
    {
      if maxAlignment < size {
        maxAlignment := size;
      }
    }

    /** Three counts; only the last one is used, in 32 bits. */
    method CountText() returns (ok: bool, shape: Shape)
      requires Valid()
      modifies this`offset, this`dec
      ensures Valid() && dec.q == old(dec.q)
      ensures forall nul :: Outcome(ok, shape, dec.w) == DecConf(syntax, Utf16(nul), old(dec.w))
    {
      var n;
      shape := NoShape;
      ok, n := GetUint(WordSize(syntax));
      if !ok { return; }
      ok, n := GetUint(WordSize(syntax));
      if !ok { return; }
      ok, n := GetUint(WordSize(syntax));
      shape := TextShape(n % 0x1_0000_0000);
    }

    method CountStruct(a: Coder, b: Coder) returns (ok: bool, shape: Shape)
      requires Valid()
      modifies this`offset, this`dec, this`maxAlignment
      ensures Valid() && dec.q == old(dec.q)
      ensures Outcome(ok, shape, dec.w) == DecConf(syntax, Then(a, b), old(dec.w))
      ensures ok ==> Fits(Then(a, b), shape) && maxAlignment == ShapeAlign(syntax, Then(a, b), shape, old(maxAlignment))
      decreases Then(a, b), 0
    {
      hide DecConf;
      hide Fits;
      hide ShapeAlign;
      var first, rest;
      ThenCounts(syntax, a, b, dec.w);
      ok, first := CountCoder(a);
      shape := NoShape;
      if !ok { return; }
      ok, rest := CountCoder(b);
      shape := BothShapes(first, rest);
      if ok {
        ThenShapes(syntax, a, b, first, rest, old(maxAlignment));
      }
    }

    /** The count of an array, then the counts of its elements. */
    method CountArray(elem: Coder) returns (ok: bool, shape: Shape)
      requires Valid()
      modifies this`offset, this`dec, this`maxAlignment
      ensures Valid() && dec.q == old(dec.q)
      ensures Outcome(ok, shape, dec.w) == DecConf(syntax, Array(elem), old(dec.w))
      ensures ok ==> Fits(Array(elem), shape) && maxAlignment == ShapeAlign(syntax, Array(elem), shape, old(maxAlignment))
      decreases elem, 3
    {
      shape := NoShape;
      var n;
      ok, n := GetUint(WordSize(syntax));
      if !ok { return; }
      var shapes;
      ok, shapes := CountElements(elem, n);
      shape := ItemShapes(shapes);
    }

    method CountElements(elem: Coder, n: nat) returns (ok: bool, shapes: seq<Shape>)
      requires Valid()
      modifies this`offset, this`dec, this`maxAlignment
      ensures Valid() && dec.q == old(dec.q)
      ensures Outcome(ok, shapes, dec.w) == DecConfAll(syntax, elem, n, old(dec.w))
      ensures ok ==> FitsAll(elem, shapes) && maxAlignment == ShapeAlignAll(syntax, elem, shapes, old(maxAlignment))
      decreases elem, 2
    {
      shapes := [];
      ConfFromStart(syntax, elem, n, dec.w);
      ghost var goal := ConfFrom(syntax, elem, n, [], dec.w);
      var left: nat := n;
      while left > 0
        invariant Valid() && dec.q == old(dec.q)
        invariant FitsAll(elem, shapes) && maxAlignment == ShapeAlignAll(syntax, elem, shapes, old(maxAlignment))
        invariant ConfFrom(syntax, elem, left, shapes, dec.w) == goal
      {
        var sh;
        ok, sh := CountCoder(elem);
        if !ok { return; }
        ShapeAlignPush(syntax, elem, shapes, sh, old(maxAlignment));
        shapes := shapes + [sh];
        left := left - 1;
      }
      ok := true;
    }

    method GetText(count: nat) returns (ok: bool, cell: Cell)
      requires Valid()
      modifies this`offset, this`dec, buf
      ensures Valid() && dec.q == old(dec.q)
      ensures Outcome(ok, cell, dec.w) == DecText(syntax, count, old(dec.w))
    {
      ok, cell := ReadText(syntax, buf, offset, count);
      if ok {
        offset := offset + 2 * count;
      }
      dec := dec.(w := Wire(buf[..], offset));
    }

    /** An embedded pointer: its pointee is read later, into the next slot. */
    method PtrCoder(kind: PtrKind, t: Coder) returns (ok: bool, cell: Cell)
      requires Valid() && !topLevel
      modifies this`offset, this`dec, this`maxPtr, ptrs
      ensures Valid()
      ensures Outcome(ok, cell, dec) == DecEmbedded(syntax, kind, t, old(dec))
    {
      var p;
      cell := NullCell;
      ok, p := GetUint(WordSize(syntax));
      if !ok || (p == 0 && kind == Unique) {
        return;
      }
      cell := Slot(maxPtr);
      ok := AddDeferredPointer(t);
    }

    method AddDeferredPointer(t: Coder) returns (ok: bool)
      requires Valid() && !topLevel
      modifies this`dec, this`maxPtr, ptrs
      ensures Valid()
      ensures ok <==> |old(dec.q)| < MAX_DEFERRED
      ensures ok ==> dec == old(dec).(q := old(dec.q) + [t])
    {
      if maxPtr >= MAX_DEFERRED {
        return false;
      }
      ptrs[maxPtr] := t;
      maxPtr := maxPtr + 1;
      assert ptrs[..maxPtr] == old(ptrs[..maxPtr]) + [t];
      dec := dec.(q := ptrs[..maxPtr]);
      return true;
    }

    /** Second visit of a value, with the counts of the first. */
    method DataCoder(c: Coder, shape: Shape) returns (ok: bool, cell: Cell)
      requires Valid() && !topLevel && Fits(c, shape)
      modifies this`offset, this`dec, this`maxPtr, buf, ptrs
      ensures Valid()
      ensures Outcome(ok, cell, dec) == DecData(syntax, c, shape, old(dec))
      decreases c, 1
    {
      if c.Utf16? {
        ok, cell := GetText(shape.count);
      } else if c.Pointer? {
        ok, cell := PtrCoder(c.kind, c.target);
      } else if c.Array? {
        ok, cell := ArrayData(c.elem, shape.elems);
      } else if c.Then? {
        ok, cell := StructData(c.first, c.rest, shape);
      } else if c.Union? {
        ok, cell := UnionData(c);
      } else if c.Nothing? {
        ok, cell := true, UnitCell;
      } else {
        ok, cell := IntData(c);
      }
    }

    method IntData(c: Coder) returns (ok: bool, cell: Cell)
      requires Valid() && (c.U8? || c.U16? || c.U32? || c.U3264?)
      modifies this`offset, this`dec
      ensures Valid()
      ensures Outcome(ok, cell, dec) == DecData(syntax, c, NoShape, old(dec))
    {
      var n;
      ok, n := GetUint(if c.U8? then 1 else if c.U16? then 2 else if c.U32? then 4 else WordSize(syntax));
      cell := NumCell(n);
    }

    method StructData(a: Coder, b: Coder, shape: Shape) returns (ok: bool, cell: Cell)
      requires Valid() && !topLevel && Fits(Then(a, b), shape)
      modifies this`offset, this`dec, this`maxPtr, buf, ptrs
      ensures Valid()
      ensures Outcome(ok, cell, dec) == DecData(syntax, Then(a, b), shape, old(dec))
      decreases Then(a, b), 0
    {
      var first, rest;
      ok, first := DataCoder(a, shape.first);
      cell := UnitCell;
      if !ok { return; }
      ok, rest := DataCoder(b, shape.rest);
      cell := BothCells(first, rest);
    }

    method UnionData(c: Coder) returns (ok: bool, cell: Cell)
      requires Valid() && !topLevel && c.Union?
      modifies this`offset, this`dec, this`maxPtr, ptrs
      ensures Valid()
      ensures Outcome(ok, cell, dec) == DecData(syntax, c, NoShape, old(dec))
    {
      var p;
      cell := UnitCell;
      ok, p := GetUint(WordSize(syntax));
      if !ok { return; }
      var tag := p % 0x1_0000_0000;
      var arm := NullCell;
      if ArmCoder(c, tag).Some? {
        ok, arm := PtrCoder(Unique, ArmCoder(c, tag).value);
      }
      cell := TaggedCell(tag, arm);
    }

    /** The elements, as many as the 32-bit count the first visit left behind. */
    method ArrayData(elem: Coder, shapes: seq<Shape>) returns (ok: bool, cell: Cell)
      requires Valid() && !topLevel && FitsAll(elem, shapes)
      modifies this`offset, this`dec, this`maxPtr, buf, ptrs
      ensures Valid()
      ensures Outcome(ok, cell, dec) == DecData(syntax, Array(elem), ItemShapes(shapes), old(dec))
      decreases elem, 3
    {
      var cells;
      ok, cells := ElementsData(elem, shapes, |shapes| % 0x1_0000_0000);
      cell := ItemCells(cells);
    }

    method ElementsData(elem: Coder, shapes: seq<Shape>, n: nat) returns (ok: bool, cells: seq<Cell>)
      requires Valid() && !topLevel && FitsAll(elem, shapes) && n <= |shapes|
      modifies this`offset, this`dec, this`maxPtr, buf, ptrs
      ensures Valid()
      ensures Outcome(ok, cells, dec) == DecDataAll(syntax, elem, shapes, n, old(dec))
      decreases elem, 2
    {
      cells := [];
      DataFromStart(syntax, elem, shapes, n, dec);
      ghost var goal := DataFrom(syntax, elem, shapes, n, [], dec);
      var todo := shapes;
      var left: nat := n;
      while left > 0
        invariant Valid() && !topLevel && FitsAll(elem, todo) && left <= |todo|
        invariant DataFrom(syntax, elem, todo, left, cells, dec) == goal
      {
        var cell;
        ok, cell := DataCoder(elem, todo[0]);
        if !ok { return; }
        cells := cells + [cell];
        todo, left := todo[1..], left - 1;
      }
      ok := true;
    }

    /** One pointee, in two visits. */
    method DoCoder(t: Coder) returns (ok: bool, cell: Cell)
      requires Valid() && !topLevel && !coding
      modifies this`offset, this`dec, this`maxPtr, this`maxAlignment, this`coding, buf, ptrs
      ensures Valid()
      ensures ok ==> !coding
      ensures Outcome(ok, cell, dec) == DecOne(syntax, t, old(dec))
    {
      var shape;
      cell := UnitCell;
      coding := true;
      maxAlignment := 1;
      ok, shape := CountCoder(t);
      if !ok { return; }
      offset := AlignUp(offset, maxAlignment);
      dec := dec.(w := dec.w.(off := offset));
      ok, cell := DataCoder(t, shape);
      if ok {
        coding := false;
      }
    }

    /** Drain the queue in order, including what it gains on the way, each pointee into its slot. */
    method ProcessDeferredPointers() returns (ok: bool)
      requires Valid() && !topLevel && !coding && |slots| == curPtr
      modifies this, buf, ptrs
      ensures ok ==> Valid() && !topLevel && !coding && |slots| == curPtr == maxPtr
      ensures Outcome(ok, slots, dec) == DecDrain(syntax, old(dec), old(slots))
    {
      while curPtr != maxPtr
        invariant Valid() && !topLevel && !coding && |slots| == curPtr
        invariant DecDrain(syntax, dec, slots) == DecDrain(syntax, old(dec), old(slots))
        decreases MAX_DEFERRED - curPtr
      {
        var t := ptrs[curPtr];
        curPtr := curPtr + 1;
        var cell;
        ok, cell := DoCoder(t);
        if !ok { return; }
        slots := slots + [cell];
      }
      ok := true;
    }

    /** The coder of a request or reply, at top level. */
    method TopCoder(c: Coder) returns (ok: bool, cell: Cell)
      requires Valid() && topLevel && TopLevel(c)
      modifies this, buf, ptrs
      ensures ok ==> Valid() && topLevel
      ensures (if ok then Some(Memory(cell, slots, dec)) else None) == DecTop(syntax, c, old(dec), old(slots))
      decreases c, 1
    {
      if c.Pointer? {
        ok, cell := TopPtrCoder(c.kind, c.target);
      } else if c.Then? {
        ok, cell := TopStruct(c.first, c.rest);
      } else if c.Union? {
        ok, cell := TopUnion(c);
      } else if c.Nothing? {
        ok, cell := true, UnitCell;
      } else {
        ok, cell := IntData(c);
      }
    }

    method TopStruct(a: Coder, b: Coder) returns (ok: bool, cell: Cell)
      requires Valid() && topLevel && TopLevel(Then(a, b))
      modifies this, buf, ptrs
      ensures ok ==> Valid() && topLevel
      ensures (if ok then Some(Memory(cell, slots, dec)) else None) == DecTop(syntax, Then(a, b), old(dec), old(slots))
      decreases Then(a, b), 0
    {
      var first, rest;
      cell := UnitCell;
      ok, first := TopCoder(a);
      if !ok { return; }
      ok, rest := TopCoder(b);
      cell := BothCells(first, rest);
    }

    method TopUnion(c: Coder) returns (ok: bool, cell: Cell)
      requires Valid() && topLevel && c.Union?
      modifies this, buf, ptrs
      ensures ok ==> Valid() && topLevel
      ensures (if ok then Some(Memory(cell, slots, dec)) else None) == DecTop(syntax, c, old(dec), old(slots))
    {
      var p;
      cell := UnitCell;
      ok, p := GetUint(WordSize(syntax));
      if !ok { return; }
      var tag := p % 0x1_0000_0000;
      var arm := NullCell;
      if ArmCoder(c, tag).Some? {
        ok, arm := TopPtrCoder(Unique, ArmCoder(c, tag).value);
      }
      cell := TaggedCell(tag, arm);
    }

    /** A top-level pointer: its pointee is read in place, then the queue is drained. */
    method TopPtrCoder(kind: PtrKind, t: Coder) returns (ok: bool, cell: Cell)
      requires Valid() && topLevel
      modifies this, buf, ptrs
      ensures ok ==> Valid() && topLevel
      ensures (if ok then Some(Memory(cell, slots, dec)) else None) == DecTopPtr(syntax, kind, t, old(dec), old(slots))
    {
      cell := NullCell;
      if kind == Unique {
        var p;
        ok, p := GetUint(WordSize(syntax));
        if !ok || p == 0 {
          return;
        }
      }
      ok, cell := Inline(t);
    }

    method Inline(t: Coder) returns (ok: bool, cell: Cell)
      requires Valid() && topLevel
      modifies this, buf, ptrs
      ensures ok ==> Valid() && topLevel
      ensures (if ok then Some(Memory(cell, slots, dec)) else None) == DecInline(syntax, t, old(dec), old(slots))
    {
      topLevel := false;
      ok, cell := DoCoder(t);
      if !ok { return; }
      cell := Direct(cell);
      ok := ProcessDeferredPointers();
      if ok {
        topLevel := true;
      }
    }
  }
}
