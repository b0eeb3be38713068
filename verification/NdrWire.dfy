/** What is on the wire, octet by octet and number by number, whatever reads it. */
module NdrWire {
  import opened Octet
  import opened Bytes
  import opened Ndr
  import opened NdrEncode
  import opened NdrDecode
  import opened NdrRoundTrip

  // ---- integers and pointers ---------------------------------------------------------------------------

  /** The octet of weight 256 to the power of `k`. */
  function Digit(n: nat, k: nat): nat {
    if k == 0 then n % 256 else Digit(n / 256, k - 1)
  }

  lemma {:induction false} LittleAt(n: nat, size: nat, k: nat)
    requires k < size
    ensures Little(n, size)[k] as nat == Digit(n, k)
  {
    if k == 0 {
      ByteOfNat(n % 256);
    } else {
      LittleAt(n / 256, size - 1, k - 1);
    }
  }

  lemma {:induction false} BigAt(n: nat, size: nat, k: nat)
    requires k < size
    ensures Big(n, size)[size - 1 - k] as nat == Digit(n, k)
  {
    if k == 0 {
      ByteOfNat(n % 256);
    } else {
      BigAt(n / 256, size - 1, k - 1);
    }
  }

  lemma {:induction false} AlignUpDivides(off: nat, a: nat)
    requires IsAlignment(a)
    ensures AlignUp(off, a) % a == 0
    decreases off
  {
    if off > a {
      AlignUpDivides(off - a, a);
    }
  }

  /** An integer goes to the next multiple of its size, its lowest octet first in a little-endian PDU and last
      in a big-endian one; no other octet of the buffer changes. */
  lemma {:induction false} PutOctets(s: Syntax, w: Wire, size: nat, n: nat)
    requires IsAlignment(size) && Put(s, w, size, n).Some?
    ensures var w' := Put(s, w, size, n).value; var o := w'.off - size;
            && o % size == 0 && w.off <= o < w.off + size && w'.off <= |w'.buf| == |w.buf|
            && w'.buf[..o] == w.buf[..o] && w'.buf[w'.off..] == w.buf[w'.off..]
            && forall k :: 0 <= k < size ==> w'.buf[if s.little then o + k else w'.off - 1 - k] as nat == Digit(n, k)
  {
    hide AlignUp;
    hide Little;
    hide Big;
    hide Store;
    hide Digit;
    AlignUpDivides(w.off, size);
    StoreIs(w.buf, AlignUp(w.off, size), Octets(s, n, size));
    forall k | 0 <= k < size
      ensures Octets(s, n, size)[if s.little then k else size - 1 - k] as nat == Digit(n, k)
    {
      LittleAt(n, size, k);
      BigAt(n, size, k);
    }
  }

  /** An embedded pointer is one word: zero for a null pointer, else the referent of its kind; the pointee is
      what the queue gains. */
  lemma {:induction false} PointerWord(s: Syntax, kind: PtrKind, t: Coder, v: Value, e: Enc, b: seq<byte>)
    requires (v.Null? || (v.Pointee? && Typed(s, t, v.v))) && Ready(s, e.q) && EncEmbedded(s, kind, t, v, e).Some?
    requires var w' := EncEmbedded(s, kind, t, v, e).value.w; Agrees(b, w'.buf, e.w.off, w'.off)
    ensures var e' := EncEmbedded(s, kind, t, v, e).value;
            && Get(s, Wire(b, e.w.off), WordSize(s)) == Some((if v.Null? then 0 else Referent(s, kind), Wire(b, e'.w.off)))
            && e'.q == if v.Null? then e.q else e.q + [Job(t, v.v)]
  {
    hide Get;
    hide Put;
    hide Agrees;
    hide Ready;
    var n := if v.Null? then 0 else Referent(s, kind);
    FitsWord(s, n);
    PutGet(s, e.w, WordSize(s), n, b);
  }

  // ---- strings -----------------------------------------------------------------------------------------

  /** The next words of the buffer are `numbers`, and the last of them ends at `end`. */
  predicate Reads(s: Syntax, w: Wire, numbers: seq<nat>, end: nat)
    decreases |numbers|
  {
    if numbers == [] then w.off == end
    else
      var r := Get(s, w, WordSize(s));
      r.Some? && r.value.0 == numbers[0] && Reads(s, r.value.1, numbers[1..], end)
  }

  lemma {:induction false} ReadsThree(s: Syntax, w: Wire, first: (nat, Wire), second: (nat, Wire), third: (nat, Wire))
    requires Get(s, w, WordSize(s)) == Some(first) && Get(s, first.1, WordSize(s)) == Some(second)
    requires Get(s, second.1, WordSize(s)) == Some(third)
    ensures Reads(s, w, [first.0, second.0, third.0], third.1.off)
  {
    hide Get;
    var last := [third.0];
    var later := [second.0, third.0];
    assert last[1..] == [] && later[1..] == last && [first.0, second.0, third.0][1..] == later;
    assert Reads(s, third.1, [], third.1.off);
    assert Reads(s, second.1, last, third.1.off);
    assert Reads(s, first.1, later, third.1.off);
  }

  /** Three words written one after the other. */
  function PutThree(s: Syntax, w: Wire, first: nat, second: nat, third: nat): Option<Wire> {
    var w1 :- Put(s, w, WordSize(s), first);
    var w2 :- Put(s, w1, WordSize(s), second);
    Put(s, w2, WordSize(s), third)
  }

  lemma {:induction false} ThreeRead(s: Syntax, w: Wire, first: nat, second: nat, third: nat, b: seq<byte>)
    requires FitsIn(first, WordSize(s)) && FitsIn(second, WordSize(s)) && FitsIn(third, WordSize(s))
    requires PutThree(s, w, first, second, third).Some?
    requires var w' := PutThree(s, w, first, second, third).value; Agrees(b, w'.buf, w.off, w'.off)
    ensures Reads(s, Wire(b, w.off), [first, second, third], PutThree(s, w, first, second, third).value.off)
  {
    hide Get;
    hide Put;
    hide Agrees;
    hide FitsIn;
    hide Reads;
    var size := WordSize(s);
    var w1 := Put(s, w, size, first).value;
    var w2 := Put(s, w1, size, second).value;
    var w3 := Put(s, w2, size, third).value;
    PutKeeps(s, w1, size, second);
    PutKeeps(s, w2, size, third);
    AgreesEarlier(b, w2, w3, w.off);
    AgreesEarlier(b, w1, w2, w.off);
    PutGet(s, w, size, first, b);
    PutGet(s, w1, size, second, b);
    PutGet(s, w2, size, third, b);
    ReadsThree(s, Wire(b, w.off), (first, Wire(b, w1.off)), (second, Wire(b, w2.off)), (third, Wire(b, w3.off)));
  }

  /** The first visit of a string leaves three numbers: the announced count, the offset zero, and the number
      of units that follow in the second visit. A terminated string announces what follows; any other one
      announces the next even number. */
  lemma {:induction false} TextCounts(s: Syntax, nul: bool, v: Value, w: Wire, b: seq<byte>)
    requires Typed(s, Utf16(nul), v) && EncConf(s, Utf16(nul), v, w).Some?
    requires var w' := EncConf(s, Utf16(nul), v, w).value; Agrees(b, w'.buf, w.off, w'.off)
    ensures var end, n := EncConf(s, Utf16(nul), v, w).value.off, |v.units|;
            var announced := if nul then n + 1 else if n % 2 == 0 then n else n + 1;
            Reads(s, Wire(b, w.off), [announced, 0, if nul then n + 1 else n], end)
  {
    hide Get;
    hide Put;
    hide Agrees;
    hide Reads;
    hide WordSize;
    var n := |TextUnits(nul, v.units)|;
    FitsWord(s, n);
    FitsWord(s, MaxCount(nul, v.units));
    FitsWord(s, 0);
    NextEven(|v.units|);
    assert EncConf(s, Utf16(nul), v, w) == PutThree(s, w, MaxCount(nul, v.units), 0, n);
    ThreeRead(s, w, MaxCount(nul, v.units), 0, n, b);
  }

  lemma {:induction false} NextEven(n: nat)
    ensures (n + 1) / 2 * 2 == if n % 2 == 0 then n else n + 1
  {
  }

  /** The last of the three numbers is the number of units that the second visit writes, wherever it starts. */
  lemma {:induction false} TextData(s: Syntax, nul: bool, v: Value, e: Enc)
    requires Typed(s, Utf16(nul), v) && Ready(s, e.q) && EncData(s, Utf16(nul), v, e).Some?
    ensures var n := if nul then |v.units| + 1 else |v.units|;
            EncData(s, Utf16(nul), v, e).value.w.off == if n == 0 then e.w.off else AlignUp(e.w.off, 2) + 2 * n
  {
    hide AlignUp;
    hide Ready;
    if |TextUnits(nul, v.units)| > 0 {
      UnitsEnd(s, e.w, TextUnits(nul, v.units));
    }
  }

  lemma {:induction false} UnitsEnd(s: Syntax, w: Wire, units: seq<nat>)
    requires units != [] && PutUnits(s, w, units).Some?
    ensures PutUnits(s, w, units).value.off == AlignUp(w.off, 2) + 2 * |units|
    decreases |units|
  {
    var w1 := Put(s, w, 2, units[0]).value;
    if |units| > 1 {
      AlignedIsEven(w.off, 2);
      EvenPlusTwice(AlignUp(w.off, 2), 1);
      EvenIsAligned(w1.off);
      UnitsEnd(s, w1, units[1..]);
    } else {
      assert units[1..] == [];
    }
  }
}
