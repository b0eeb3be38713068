/** How much room an encoding takes: offsets and deferred pointers alone, without a buffer. */
module NdrPlan {
  import opened Octet
  import opened Bytes
  import opened Ndr
  import opened NdrEncode
  import opened NdrSimulation

  /** The offset and the queue reached, and the end of the furthest octet written. */
  datatype Plan = Plan(off: nat, q: seq<Job>, top: nat)

  predicate Grows(s: Syntax, p: Plan, r: Plan) {
    p.off <= r.off && p.top <= r.top && p.q <= r.q && Ready(s, r.q)
  }

  function PlanPut(p: Plan, size: nat): (r: Plan)
    requires IsAlignment(size)
    ensures p.off < r.off && p.top <= r.top && r.q == p.q
  {
    var o := AlignUp(p.off, size);
    p.(off := o + size, top := Max(p.top, o + size))
  }

  function PlanUnits(p: Plan, n: nat): (r: Plan)
    ensures p.off <= r.off && p.top <= r.top && r.q == p.q
    decreases n
  {
    if n == 0 then p else PlanUnits(PlanPut(p, 2), n - 1)
  }

  function PlanConf(s: Syntax, c: Coder, v: Value, p: Plan): (r: Plan)
    requires Typed(s, c, v)
    ensures p.off <= r.off && p.top <= r.top && r.q == p.q
    decreases c, 0
  {
    match c
    case Utf16(_) => PlanPut(PlanPut(PlanPut(p, WordSize(s)), WordSize(s)), WordSize(s))
    case Array(elem) => PlanConfAll(s, elem, v.elems, PlanPut(p, WordSize(s)))
    case Then(a, b) => PlanConf(s, b, v.rest, PlanConf(s, a, v.first, p))
    case _ => p
  }

  function PlanConfAll(s: Syntax, c: Coder, vs: seq<Value>, p: Plan): (r: Plan)
    requires TypedAll(s, c, vs)
    ensures p.off <= r.off && p.top <= r.top && r.q == p.q
    decreases c, 1, |vs|
  {
    if vs == [] then p else PlanConfAll(s, c, vs[1..], PlanConf(s, c, vs[0], p))
  }

  /** `None` is one pointer too many for the queue. */
  function PlanEmbedded(s: Syntax, t: Coder, v: Value, p: Plan): (r: Option<Plan>)
    requires v.Null? || (v.Pointee? && Typed(s, t, v.v))
    requires Ready(s, p.q)
    ensures r.Some? ==> Grows(s, p, r.value)
  {
    var p1 := PlanPut(p, WordSize(s));
    if v.Null? then Some(p1)
    else if |p.q| >= MAX_DEFERRED then None
    else
      AllTypedPush(s, p.q, Job(t, v.v));
      Some(p1.(q := p.q + [Job(t, v.v)]))
  }

  function PlanData(s: Syntax, c: Coder, v: Value, p: Plan): (r: Option<Plan>)
    requires Typed(s, c, v) && Ready(s, p.q)
    ensures r.Some? ==> Grows(s, p, r.value)
    decreases c, 0
  {
    match c
    case U8 => Some(PlanPut(p, 1))
    case U16 => Some(PlanPut(p, 2))
    case U32 => Some(PlanPut(p, 4))
    case U3264 => Some(PlanPut(p, WordSize(s)))
    case Utf16(nul) => Some(PlanUnits(p, |TextUnits(nul, v.units)|))
    case Pointer(_, t) => PlanEmbedded(s, t, v, p)
    case Array(elem) => PlanDataAll(s, elem, v.elems, p)
    case Union(_) =>
      var p1 := PlanPut(p, WordSize(s));
      var arm := ArmCoder(c, v.tag);
      if arm.None? then Some(p1) else PlanEmbedded(s, arm.value, v.arm, p1)
    case Nothing => Some(p)
    case Then(a, b) =>
      var p1 :- PlanData(s, a, v.first, p);
      PlanData(s, b, v.rest, p1)
  }

  function PlanDataAll(s: Syntax, c: Coder, vs: seq<Value>, p: Plan): (r: Option<Plan>)
    requires TypedAll(s, c, vs) && Ready(s, p.q)
    ensures r.Some? ==> Grows(s, p, r.value)
    decreases c, 1, |vs|
  {
    if vs == [] then Some(p)
    else
      var p1 :- PlanData(s, c, vs[0], p);
      PlanDataAll(s, c, vs[1..], p1)
  }

  function PlanOne(s: Syntax, c: Coder, v: Value, p: Plan): (r: Option<Plan>)
    requires Typed(s, c, v) && Ready(s, p.q)
    ensures r.Some? ==> Grows(s, p, r.value)
  {
    var p1 := PlanConf(s, c, v, p);
    PlanData(s, c, v, p1.(off := AlignUp(p1.off, MaxAlign(s, c, v, 1))))
  }

  function PlanDrain(s: Syntax, p: Plan, cur: nat): (r: Option<Plan>)
    requires Ready(s, p.q) && cur <= |p.q|
    ensures r.Some? ==> Grows(s, p, r.value)
    decreases MAX_DEFERRED - cur
  {
    if cur == |p.q| then Some(p)
    else
      AllTypedAt(s, p.q, cur);
      var p1 :- PlanOne(s, p.q[cur].coder, p.q[cur].value, p);
      PlanDrain(s, p1, cur + 1)
  }

  function PlanInline(s: Syntax, t: Coder, v: Value, p: Plan): (r: Option<Plan>)
    requires Typed(s, t, v) && Ready(s, p.q)
    ensures r.Some? ==> Grows(s, p, r.value)
  {
    var p1 :- PlanOne(s, t, v, p);
    PlanDrain(s, p1, |p.q|)
  }

  function PlanTopPtr(s: Syntax, kind: PtrKind, t: Coder, v: Value, p: Plan): (r: Option<Plan>)
    requires (v.Null? && kind == Unique) || (v.Pointee? && Typed(s, t, v.v))
    requires Ready(s, p.q)
    ensures r.Some? ==> Grows(s, p, r.value)
  {
    if v.Null? then Some(PlanPut(p, WordSize(s)))
    else PlanInline(s, t, v.v, if kind == Ref then p else PlanPut(p, WordSize(s)))
  }

  function PlanTop(s: Syntax, c: Coder, v: Value, p: Plan): (r: Option<Plan>)
    requires Typed(s, c, v) && TopLevel(c) && Ready(s, p.q)
    ensures r.Some? ==> Grows(s, p, r.value)
    decreases c
  {
    if c.Pointer? then PlanTopPtr(s, c.kind, c.target, v, p)
    else if c.Union? then
      var p1 := PlanPut(p, WordSize(s));
      var arm := ArmCoder(c, v.tag);
      if arm.None? then Some(p1) else PlanTopPtr(s, Unique, arm.value, v.arm, p1)
    else if c.Then? then
      var p1 :- PlanTop(s, c.first, v.first, p);
      PlanTop(s, c.rest, v.rest, p1)
    else PlanData(s, c, v, p)
  }

  // ---- the encoder keeps to the plan ---------------------------------------------------------------

  predicate Planned(e: Enc, p: Plan) {
    e.w.off == p.off && e.q == p.q && p.top <= |e.w.buf|
  }

  /** A step succeeds exactly when its plan does and fits; then it is at the planned place, and has left the
      rest of the buffer alone. */
  predicate Keeping(e: Enc, r: Option<Enc>, p: Option<Plan>) {
    (r.Some? <==> p.Some? && p.value.top <= |e.w.buf|) && (r.Some? ==> Planned(r.value, p.value) && Untouched(e.w, r.value.w))
  }

  lemma {:induction false} KeepingThen(e: Enc, r1: Option<Enc>, p1: Option<Plan>, r2: Option<Enc>, p2: Option<Plan>)
    requires Keeping(e, r1, p1) && (r1.Some? ==> Keeping(r1.value, r2, p2))
    requires (r1.None? ==> r2.None?) && (p1.None? ==> p2.None?) && (p1.Some? && p2.Some? ==> p1.value.top <= p2.value.top)
    ensures Keeping(e, r2, p2)
  {
    if r2.Some? {
      UntouchedTrans(e.w, r1.value.w, r2.value.w);
    }
  }

  lemma {:induction false} PutIntPlanned(s: Syntax, size: nat, n: nat, e: Enc, p: Plan)
    requires IsAlignment(size) && Ready(s, e.q) && Planned(e, p)
    ensures Keeping(e, PutInt(s, e, size, n), Some(PlanPut(p, size)))
  {
    var r := PutInt(s, e, size, n);
    if r.Some? {
      var o := AlignUp(e.w.off, size);
      StoreKeeps(e.w.buf, o, Octets(s, n, size));
    }
  }

  lemma {:induction false} UnitsPlanned(s: Syntax, units: seq<nat>, e: Enc, p: Plan)
    requires Ready(s, e.q) && Planned(e, p)
    ensures var w := PutUnits(s, e.w, units);
            Keeping(e, if w.Some? then Some(e.(w := w.value)) else None, Some(PlanUnits(p, |units|)))
    decreases |units|
  {
    if units == [] {
      UntouchedSelf(e.w, e.w);
    } else {
      var r1 := PutInt(s, e, 2, units[0]);
      PutIntPlanned(s, 2, units[0], e, p);
      if r1.Some? {
        UnitsPlanned(s, units[1..], r1.value, PlanPut(p, 2));
      }
      var w := PutUnits(s, e.w, units);
      KeepingThen(e, r1, Some(PlanPut(p, 2)), if w.Some? then Some(e.(w := w.value)) else None, Some(PlanUnits(p, |units|)));
    }
  }

  function Conf(s: Syntax, c: Coder, v: Value, e: Enc): Option<Enc>
    requires Typed(s, c, v)
  {
    var w := EncConf(s, c, v, e.w);
    if w.Some? then Some(e.(w := w.value)) else None
  }

  function ConfAll(s: Syntax, c: Coder, vs: seq<Value>, e: Enc): Option<Enc>
    requires TypedAll(s, c, vs)
  {
    var w := EncConfAll(s, c, vs, e.w);
    if w.Some? then Some(e.(w := w.value)) else None
  }

  lemma {:induction false} ConfPlanned(s: Syntax, c: Coder, v: Value, e: Enc, p: Plan)
    requires Typed(s, c, v) && Ready(s, e.q) && Planned(e, p)
    ensures Keeping(e, Conf(s, c, v, e), Some(PlanConf(s, c, v, p)))
    decreases c, 0
  {
    match c
    case Utf16(nul) => TextConfPlanned(s, nul, v, e, p);
    case Array(elem) =>
      var r1, p1 := PutInt(s, e, WordSize(s), |v.elems|), PlanPut(p, WordSize(s));
      PutIntPlanned(s, WordSize(s), |v.elems|, e, p);
      if r1.Some? {
        ConfPlannedAll(s, elem, v.elems, r1.value, p1);
      }
      KeepingThen(e, r1, Some(p1), Conf(s, c, v, e), Some(PlanConf(s, c, v, p)));
    case Then(a, b) =>
      var r1, p1 := Conf(s, a, v.first, e), PlanConf(s, a, v.first, p);
      ConfPlanned(s, a, v.first, e, p);
      if r1.Some? {
        ConfPlanned(s, b, v.rest, r1.value, p1);
      }
      KeepingThen(e, r1, Some(p1), Conf(s, c, v, e), Some(PlanConf(s, c, v, p)));
    case _ => UntouchedSelf(e.w, e.w);
  }

  lemma {:induction false} TextConfPlanned(s: Syntax, nul: bool, v: Value, e: Enc, p: Plan)
    requires Typed(s, Utf16(nul), v) && Ready(s, e.q) && Planned(e, p)
    ensures Keeping(e, Conf(s, Utf16(nul), v, e), Some(PlanConf(s, Utf16(nul), v, p)))
  {
    hide Untouched;
    hide PlanPut;
    hide Octets;
    var size := WordSize(s);
    var r1, p1 := PutInt(s, e, size, MaxCount(nul, v.units)), PlanPut(p, size);
    PutIntPlanned(s, size, MaxCount(nul, v.units), e, p);
    var p2, p3 := PlanPut(p1, size), PlanPut(PlanPut(p1, size), size);
    if r1.Some? {
      var r2 := PutInt(s, r1.value, size, 0);
      PutIntPlanned(s, size, 0, r1.value, p1);
      if r2.Some? {
        PutIntPlanned(s, size, |TextUnits(nul, v.units)|, r2.value, p2);
      }
      KeepingThen(r1.value, r2, Some(p2), Conf(s, Utf16(nul), v, e), Some(p3));
    }
    KeepingThen(e, r1, Some(p1), Conf(s, Utf16(nul), v, e), Some(p3));
  }

  lemma {:induction false} ConfPlannedAll(s: Syntax, c: Coder, vs: seq<Value>, e: Enc, p: Plan)
    requires TypedAll(s, c, vs) && Ready(s, e.q) && Planned(e, p)
    ensures Keeping(e, ConfAll(s, c, vs, e), Some(PlanConfAll(s, c, vs, p)))
    decreases c, 1, |vs|
  {
    if vs == [] {
      UntouchedSelf(e.w, e.w);
    } else {
      var r1, p1 := Conf(s, c, vs[0], e), PlanConf(s, c, vs[0], p);
      ConfPlanned(s, c, vs[0], e, p);
      if r1.Some? {
        ConfPlannedAll(s, c, vs[1..], r1.value, p1);
      }
      KeepingThen(e, r1, Some(p1), ConfAll(s, c, vs, e), Some(PlanConfAll(s, c, vs, p)));
    }
  }

  lemma {:induction false} EmbeddedPlanned(s: Syntax, kind: PtrKind, t: Coder, v: Value, e: Enc, p: Plan)
    requires v.Null? || (v.Pointee? && Typed(s, t, v.v))
    requires Ready(s, e.q) && Planned(e, p)
    ensures Keeping(e, EncEmbedded(s, kind, t, v, e), PlanEmbedded(s, t, v, p))
  {
    PutIntPlanned(s, WordSize(s), if v.Null? then 0 else Referent(s, kind), e, p);
  }

  lemma {:induction false} DataPlanned(s: Syntax, c: Coder, v: Value, e: Enc, p: Plan)
    requires Typed(s, c, v) && Ready(s, e.q) && Planned(e, p)
    ensures Keeping(e, EncData(s, c, v, e), PlanData(s, c, v, p))
    decreases c, 0
  {
    match c
    case U8 => PutIntPlanned(s, 1, v.n, e, p);
    case U16 => PutIntPlanned(s, 2, v.n, e, p);
    case U32 => PutIntPlanned(s, 4, v.n, e, p);
    case U3264 => PutIntPlanned(s, WordSize(s), v.n, e, p);
    case Utf16(nul) => UnitsPlanned(s, TextUnits(nul, v.units), e, p);
    case Pointer(kind, t) => EmbeddedPlanned(s, kind, t, v, e, p);
    case Array(elem) => DataPlannedAll(s, elem, v.elems, e, p);
    case Union(_) => UnionPlanned(s, c, v, e, p);
    case Nothing => UntouchedSelf(e.w, e.w);
    case Then(a, b) =>
      var r1, p1 := EncData(s, a, v.first, e), PlanData(s, a, v.first, p);
      DataPlanned(s, a, v.first, e, p);
      if r1.Some? {
        DataPlanned(s, b, v.rest, r1.value, p1.value);
      }
      KeepingThen(e, r1, p1, EncData(s, c, v, e), PlanData(s, c, v, p));
  }

  lemma {:induction false} UnionPlanned(s: Syntax, c: Coder, v: Value, e: Enc, p: Plan)
    requires c.Union? && Typed(s, c, v) && Ready(s, e.q) && Planned(e, p)
    ensures Keeping(e, EncData(s, c, v, e), PlanData(s, c, v, p))
  {
    var r1, p1 := PutInt(s, e, WordSize(s), v.tag), PlanPut(p, WordSize(s));
    PutIntPlanned(s, WordSize(s), v.tag, e, p);
    var arm := ArmCoder(c, v.tag);
    if arm.Some? {
      if r1.Some? {
        EmbeddedPlanned(s, Unique, arm.value, v.arm, r1.value, p1);
      }
      KeepingThen(e, r1, Some(p1), EncData(s, c, v, e), PlanData(s, c, v, p));
    }
  }

  lemma {:induction false} DataPlannedAll(s: Syntax, c: Coder, vs: seq<Value>, e: Enc, p: Plan)
    requires TypedAll(s, c, vs) && Ready(s, e.q) && Planned(e, p)
    ensures Keeping(e, EncDataAll(s, c, vs, e), PlanDataAll(s, c, vs, p))
    decreases c, 1, |vs|
  {
    if vs == [] {
      UntouchedSelf(e.w, e.w);
    } else {
      var r1, p1 := EncData(s, c, vs[0], e), PlanData(s, c, vs[0], p);
      DataPlanned(s, c, vs[0], e, p);
      if r1.Some? {
        DataPlannedAll(s, c, vs[1..], r1.value, p1.value);
      }
      KeepingThen(e, r1, p1, EncDataAll(s, c, vs, e), PlanDataAll(s, c, vs, p));
    }
  }

  lemma {:induction false} OnePlanned(s: Syntax, c: Coder, v: Value, e: Enc, p: Plan)
    requires Typed(s, c, v) && Ready(s, e.q) && Planned(e, p)
    ensures Keeping(e, EncOne(s, c, v, e), PlanOne(s, c, v, p))
  {
    var r1, p1 := Conf(s, c, v, e), PlanConf(s, c, v, p);
    ConfPlanned(s, c, v, e, p);
    if r1.Some? {
      var e2 := r1.value.(w := r1.value.w.(off := AlignUp(r1.value.w.off, MaxAlign(s, c, v, 1))));
      var p2 := p1.(off := AlignUp(p1.off, MaxAlign(s, c, v, 1)));
      UntouchedSelf(r1.value.w, e2.w);
      DataPlanned(s, c, v, e2, p2);
      KeepingThen(r1.value, Some(e2), Some(p2), EncOne(s, c, v, e), PlanOne(s, c, v, p));
    }
    KeepingThen(e, r1, Some(p1), EncOne(s, c, v, e), PlanOne(s, c, v, p));
  }

  lemma {:induction false} DrainPlanned(s: Syntax, e: Enc, p: Plan, cur: nat)
    requires Ready(s, e.q) && cur <= |e.q| && Planned(e, p)
    ensures Keeping(e, EncDrain(s, e, cur), PlanDrain(s, p, cur))
    decreases MAX_DEFERRED - cur
  {
    if cur == |e.q| {
      UntouchedSelf(e.w, e.w);
    } else {
      AllTypedAt(s, e.q, cur);
      var r1, p1 := EncOne(s, e.q[cur].coder, e.q[cur].value, e), PlanOne(s, e.q[cur].coder, e.q[cur].value, p);
      OnePlanned(s, e.q[cur].coder, e.q[cur].value, e, p);
      if r1.Some? {
        DrainPlanned(s, r1.value, p1.value, cur + 1);
      }
      KeepingThen(e, r1, p1, EncDrain(s, e, cur), PlanDrain(s, p, cur));
    }
  }

  lemma {:induction false} InlinePlanned(s: Syntax, t: Coder, v: Value, e: Enc, p: Plan)
    requires Typed(s, t, v) && Ready(s, e.q) && Planned(e, p)
    ensures Keeping(e, EncInline(s, t, v, e), PlanInline(s, t, v, p))
  {
    var r1, p1 := EncOne(s, t, v, e), PlanOne(s, t, v, p);
    OnePlanned(s, t, v, e, p);
    if r1.Some? {
      DrainPlanned(s, r1.value, p1.value, |e.q|);
    }
    KeepingThen(e, r1, p1, EncInline(s, t, v, e), PlanInline(s, t, v, p));
  }

  lemma {:induction false} TopPtrPlanned(s: Syntax, kind: PtrKind, t: Coder, v: Value, e: Enc, p: Plan)
    requires (v.Null? && kind == Unique) || (v.Pointee? && Typed(s, t, v.v))
    requires Ready(s, e.q) && Planned(e, p)
    ensures Keeping(e, EncTopPtr(s, kind, t, v, e), PlanTopPtr(s, kind, t, v, p))
  {
    if v.Null? {
      PutIntPlanned(s, WordSize(s), 0, e, p);
    } else if kind == Ref {
      InlinePlanned(s, t, v.v, e, p);
    } else {
      var r1, p1 := PutInt(s, e, WordSize(s), Referent(s, kind)), PlanPut(p, WordSize(s));
      PutIntPlanned(s, WordSize(s), Referent(s, kind), e, p);
      if r1.Some? {
        InlinePlanned(s, t, v.v, r1.value, p1);
      }
      KeepingThen(e, r1, Some(p1), EncTopPtr(s, kind, t, v, e), PlanTopPtr(s, kind, t, v, p));
    }
  }

  lemma {:induction false} TopPlanned(s: Syntax, c: Coder, v: Value, e: Enc, p: Plan)
    requires Typed(s, c, v) && TopLevel(c) && Ready(s, e.q) && Planned(e, p)
    ensures Keeping(e, EncTop(s, c, v, e), PlanTop(s, c, v, p))
    decreases c
  {
    if c.Pointer? {
      TopPtrPlanned(s, c.kind, c.target, v, e, p);
    } else if c.Union? {
      var r1, p1 := PutInt(s, e, WordSize(s), v.tag), PlanPut(p, WordSize(s));
      PutIntPlanned(s, WordSize(s), v.tag, e, p);
      var arm := ArmCoder(c, v.tag);
      if arm.Some? {
        if r1.Some? {
          TopPtrPlanned(s, Unique, arm.value, v.arm, r1.value, p1);
        }
        KeepingThen(e, r1, Some(p1), EncTop(s, c, v, e), PlanTop(s, c, v, p));
      }
    } else if c.Then? {
      var r1, p1 := EncTop(s, c.first, v.first, e), PlanTop(s, c.first, v.first, p);
      TopPlanned(s, c.first, v.first, e, p);
      if r1.Some? {
        TopPlanned(s, c.rest, v.rest, r1.value, p1.value);
      }
      KeepingThen(e, r1, p1, EncTop(s, c, v, e), PlanTop(s, c, v, p));
    } else {
      DataPlanned(s, c, v, e, p);
    }
  }

  /** Encoding succeeds exactly when the plan finds room for every deferred pointer and its furthest octet
      lies in the buffer; whether it does depends on the length of the buffer alone. */
  lemma {:induction false} EncodesIf(s: Syntax, c: Coder, v: Value, buf: seq<byte>, off: nat)
    requires Typed(s, c, v) && TopLevel(c)
    ensures var p, r := PlanTop(s, c, v, Plan(off, [], 0)), EncTop(s, c, v, Enc(Wire(buf, off), []));
            (r.Some? <==> p.Some? && p.value.top <= |buf|) && (r.Some? ==> r.value.w.off == p.value.off && r.value.q == p.value.q)
  {
    TopPlanned(s, c, v, Enc(Wire(buf, off), []), Plan(off, [], 0));
  }
}
