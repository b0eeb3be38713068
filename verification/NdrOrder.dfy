/** The order of the referents: the queue of deferred pointers is the breadth-first order of the tree. */
module NdrOrder {
  import opened Sequences
  import opened Ndr
  import opened NdrEncode

  /** The pointees directly below a value, left to right. */
  function Children(c: Coder, v: Value): seq<Job>
    decreases c, 0
  {
    match c
    case Pointer(_, t) => if v.Pointee? then [Job(t, v.v)] else []
    case Union(_) =>
      if v.Tagged? && v.arm.Pointee? && ArmCoder(c, v.tag).Some? then [Job(ArmCoder(c, v.tag).value, v.arm.v)] else []
    case Array(e) => if v.Items? then ChildrenOfItems(e, v.elems) else []
    case Then(a, b) => if v.Both? then Children(a, v.first) + Children(b, v.rest) else []
    case _ => []
  }

  function ChildrenOfItems(c: Coder, vs: seq<Value>): seq<Job>
    decreases c, 1, |vs|
  {
    if vs == [] then [] else Children(c, vs[0]) + ChildrenOfItems(c, vs[1..])
  }

  function ChildrenOfAll(js: seq<Job>): seq<Job> {
    if js == [] then [] else Children(js[0].coder, js[0].value) + ChildrenOfAll(js[1..])
  }

  function Size(v: Value): (n: nat)
    ensures n > 0
    decreases v, 0
  {
    match v
    case Pointee(x) => 1 + Size(x)
    case Items(vs) => 1 + SizeAll(vs)
    case Tagged(_, a) => 1 + Size(a)
    case Both(a, b) => 1 + Size(a) + Size(b)
    case _ => 1
  }

  function SizeAll(vs: seq<Value>): nat
    decreases vs, 1
  {
    if vs == [] then 0 else Size(vs[0]) + SizeAll(vs[1..])
  }

  function JobsSize(js: seq<Job>): nat {
    if js == [] then 0 else Size(js[0].value) + JobsSize(js[1..])
  }

  lemma {:induction false} JobsSizeJoins(a: seq<Job>, b: seq<Job>)
    ensures JobsSize(a + b) == JobsSize(a) + JobsSize(b)
  {
    if a == [] {
      assert a + b == b;
    } else {
      JobsSizeJoins(a[1..], b);
      assert (a + b)[1..] == a[1..] + b;
    }
  }

  lemma {:induction false} ChildrenSmaller(c: Coder, v: Value)
    ensures JobsSize(Children(c, v)) < Size(v)
    decreases c, 0
  {
    match c
    case Array(e) =>
      if v.Items? {
        ChildrenOfItemsSmaller(e, v.elems);
      }
    case Then(a, b) =>
      if v.Both? {
        ChildrenSmaller(a, v.first);
        ChildrenSmaller(b, v.rest);
        JobsSizeJoins(Children(a, v.first), Children(b, v.rest));
      }
    case _ =>
  }

  lemma {:induction false} ChildrenOfItemsSmaller(c: Coder, vs: seq<Value>)
    ensures JobsSize(ChildrenOfItems(c, vs)) <= SizeAll(vs)
    decreases c, 1, |vs|
  {
    if vs != [] {
      ChildrenSmaller(c, vs[0]);
      ChildrenOfItemsSmaller(c, vs[1..]);
      JobsSizeJoins(Children(c, vs[0]), ChildrenOfItems(c, vs[1..]));
    }
  }

  lemma {:induction false} NextLevelSmaller(js: seq<Job>)
    ensures JobsSize(ChildrenOfAll(js)) + |js| <= JobsSize(js)
  {
    if js != [] {
      ChildrenSmaller(js[0].coder, js[0].value);
      NextLevelSmaller(js[1..]);
      JobsSizeJoins(Children(js[0].coder, js[0].value), ChildrenOfAll(js[1..]));
    }
  }

  /** Breadth-first order: a level, then the level below it. */
  function Levels(js: seq<Job>): seq<Job>
    decreases JobsSize(js)
  {
    NextLevelSmaller(js);
    if js == [] then [] else js + Levels(ChildrenOfAll(js))
  }

  lemma {:induction false} ChildrenJoin(a: seq<Job>, b: seq<Job>)
    ensures ChildrenOfAll(a + b) == ChildrenOfAll(a) + ChildrenOfAll(b)
  {
    if a == [] {
      EmptyUnit(b);
      EmptyUnit(ChildrenOfAll(b));
    } else {
      TailOfJoined(a, b);
      ChildrenJoin(a[1..], b);
      Assoc(Children(a[0].coder, a[0].value), ChildrenOfAll(a[1..]), ChildrenOfAll(b));
    }
  }

  lemma {:induction false} LevelsUnfold(js: seq<Job>)
    ensures Levels(js) == js + Levels(ChildrenOfAll(js))
  {
    EmptyUnit(js + Levels(ChildrenOfAll(js)));
    if js == [] {
      EmptyUnit(js);
    }
  }

  /** Taking jobs from the front and appending their children at the back keeps the order. */
  lemma {:induction false} LevelsRotate(a: seq<Job>, b: seq<Job>)
    ensures Levels(a + b) == a + Levels(b + ChildrenOfAll(a))
    decreases JobsSize(a) + JobsSize(b)
  {
    var ca, cb := ChildrenOfAll(a), ChildrenOfAll(b);
    if a == [] {
      EmptyUnit(b);
      EmptyUnit(Levels(b));
    } else {
      NextLevelSmaller(a);
      NextLevelSmaller(b);
      LevelsRotate(ca, cb);
      LevelsUnfold(a + b);
      LevelsUnfold(b + ca);
      ChildrenJoin(a, b);
      ChildrenJoin(b, ca);
      Regroup(a, b, ca, Levels(cb + ChildrenOfAll(ca)));
    }
  }

  // ---- the encoder's queue -------------------------------------------------------------------------

  lemma {:induction false} EmbeddedQueues(s: Syntax, kind: PtrKind, t: Coder, v: Value, e: Enc)
    requires v.Null? || (v.Pointee? && Typed(s, t, v.v))
    requires Ready(s, e.q) && EncEmbedded(s, kind, t, v, e).Some?
    ensures EncEmbedded(s, kind, t, v, e).value.q == e.q + if v.Pointee? then [Job(t, v.v)] else []
  {
    EmptyUnit(e.q);
  }

  /** Coders without a pointer, an array or members leave the queue alone. */
  lemma {:induction false} LeafQueues(s: Syntax, c: Coder, v: Value, e: Enc)
    requires !c.Array? && !c.Then? && !c.Pointer? && !c.Union?
    requires Typed(s, c, v) && Ready(s, e.q) && EncData(s, c, v, e).Some?
    ensures EncData(s, c, v, e).value.q == e.q && Children(c, v) == []
  {
  }

  lemma {:induction false} DataQueues(s: Syntax, c: Coder, v: Value, e: Enc)
    requires Typed(s, c, v) && Ready(s, e.q) && EncData(s, c, v, e).Some?
    ensures EncData(s, c, v, e).value.q == e.q + Children(c, v)
    decreases c, 0
  {
    if c.Array? {
      DataQueuesAll(s, c.elem, v.elems, e);
    } else if c.Then? {
      DataQueues(s, c.first, v.first, e);
      DataQueues(s, c.rest, v.rest, EncData(s, c.first, v.first, e).value);
      Assoc(e.q, Children(c.first, v.first), Children(c.rest, v.rest));
    } else if c.Pointer? {
      EmbeddedQueues(s, c.kind, c.target, v, e);
    } else if c.Union? {
      UnionQueues(s, c, v, e);
    } else {
      LeafQueues(s, c, v, e);
      EmptyUnit(e.q);
    }
  }

  lemma {:induction false} UnionQueues(s: Syntax, c: Coder, v: Value, e: Enc)
    requires c.Union? && Typed(s, c, v) && Ready(s, e.q) && EncData(s, c, v, e).Some?
    ensures EncData(s, c, v, e).value.q == e.q + Children(c, v)
  {
    EmptyUnit(e.q);
    var arm := ArmCoder(c, v.tag);
    if arm.Some? {
      EmbeddedQueues(s, Unique, arm.value, v.arm, PutInt(s, e, WordSize(s), v.tag).value);
    }
  }

  lemma {:induction false} DataQueuesAll(s: Syntax, c: Coder, vs: seq<Value>, e: Enc)
    requires TypedAll(s, c, vs) && Ready(s, e.q) && EncDataAll(s, c, vs, e).Some?
    ensures EncDataAll(s, c, vs, e).value.q == e.q + ChildrenOfItems(c, vs)
    decreases c, 1, |vs|
  {
    if vs == [] {
      EmptyUnit(e.q);
    } else {
      DataQueues(s, c, vs[0], e);
      DataQueuesAll(s, c, vs[1..], EncData(s, c, vs[0], e).value);
      Assoc(e.q, Children(c, vs[0]), ChildrenOfItems(c, vs[1..]));
    }
  }

  lemma {:induction false} OneQueues(s: Syntax, c: Coder, v: Value, e: Enc)
    requires Typed(s, c, v) && Ready(s, e.q) && EncOne(s, c, v, e).Some?
    ensures EncOne(s, c, v, e).value.q == e.q + Children(c, v)
  {
    var w1 := EncConf(s, c, v, e.w).value;
    DataQueues(s, c, v, e.(w := w1.(off := AlignUp(w1.off, MaxAlign(s, c, v, 1)))));
  }

  /** Draining leaves the queue extended by everything below the jobs that were waiting, level by level. */
  lemma {:induction false} DrainOrder(s: Syntax, e: Enc, cur: nat)
    requires Ready(s, e.q) && cur <= |e.q| && EncDrain(s, e, cur).Some?
    ensures EncDrain(s, e, cur).value.q == e.q + Levels(ChildrenOfAll(e.q[cur..]))
    decreases MAX_DEFERRED - cur
  {
    if cur == |e.q| {
      EmptyUnit(e.q);
    } else {
      var job, rest := e.q[cur], e.q[cur + 1..];
      AllTypedAt(s, e.q, cur);
      var e1 := EncOne(s, job.coder, job.value, e).value;
      var kids := Children(job.coder, job.value);
      OneQueues(s, job.coder, job.value, e);
      DrainOrder(s, e1, cur + 1);
      DropJoined(e.q, kids, cur + 1);
      SplitAt(e.q, cur);
      QueueStep(e.q, job, kids, rest);
    }
  }

  lemma {:induction false} QueueStep(q: seq<Job>, job: Job, kids: seq<Job>, rest: seq<Job>)
    requires kids == Children(job.coder, job.value)
    ensures (q + kids) + Levels(ChildrenOfAll(rest + kids)) == q + Levels(ChildrenOfAll([job] + rest))
  {
    ChildrenJoin(rest, kids);
    LevelsRotate(kids, ChildrenOfAll(rest));
    TailOfJoined([job], rest);
    EmptyUnit(rest);
    Assoc(q, kids, Levels(ChildrenOfAll(rest) + ChildrenOfAll(kids)));
  }

  /** The referents of a top-level pointee appear on the wire in breadth-first order. */
  lemma {:induction false} BreadthFirst(s: Syntax, t: Coder, v: Value, e: Enc)
    requires Typed(s, t, v) && Ready(s, e.q)
    ensures var r := EncInline(s, t, v, e);
            r.Some? ==> r.value.q == e.q + Levels(Children(t, v))
  {
    if EncInline(s, t, v, e).Some? {
      var e1 := EncOne(s, t, v, e).value;
      var kids := Children(t, v);
      OneQueues(s, t, v, e);
      DrainOrder(s, e1, |e.q|);
      DropJoined(e.q, kids, |e.q|);
      EmptyUnit(kids);
      LevelsUnfold(kids);
      Assoc(e.q, kids, Levels(ChildrenOfAll(kids)));
    }
  }
}
