/** Joining the fragments of a DCE/RPC response in the receive buffer. */
module Defragment {
  import opened Octet
  import opened Bytes
  import opened Sequences

  /** A DCE/RPC header and the fields of a RESPONSE. */
  const HEADER: nat := 24
  const PFC_LAST_FRAG: byte := 0x02
  const PDU_TYPE_RESPONSE: byte := 2

  /** How the chain of fragments ends: at a fragment marked last, at fewer octets than a header, or at a
      fragment length the buffer cannot hold, where the C code leaves the buffer. */
  datatype End = Complete | Short | Outside

  datatype Outcome = Untouched | Stopped | Joined(len: nat) | Overrun

  /** The octets of a header up to and including the fragment length and what follows it. */
  const FIELDS: nat := 16

  function FragLength(little: bool, h: seq<byte>): nat
    requires |h| == FIELDS
  {
    if little then h[8] as nat + 256 * h[9] as nat else 256 * h[8] as nat + h[9] as nat
  }

  predicate IsLast(h: seq<byte>)
    requires |h| == FIELDS
  {
    h[3] & PFC_LAST_FRAG != 0
  }

  /** A version 5.0 response that is not the only fragment. */
  predicate Starts(h: seq<byte>)
    requires |h| == FIELDS
  {
    h[0] == 5 && h[1] == 0 && h[2] == PDU_TYPE_RESPONSE && !IsLast(h)
  }

  /** What one fragment header says about the chain. */
  datatype Frag = Frag(stub: seq<byte>, next: nat, last: bool) | Stop(end: End)

  function FragAt(little: bool, b: seq<byte>, at: nat): (f: Frag)
    ensures f.Frag? ==> at + HEADER + |f.stub| == f.next <= |b| && f.stub == b[at + HEADER..f.next]
    ensures f.Stop? ==> f.end != Complete
  {
    if at > |b| then Stop(Outside)
    else if |b| - at < HEADER then Stop(Short)
    else
      var h := b[at..at + FIELDS];
      var n := FragLength(little, h);
      if n < HEADER || at + n > |b| then Stop(Outside) else Frag(b[at + HEADER..at + n], at + n, IsLast(h))
  }

  /** The stubs of the fragments from `at` on, joined, and how their chain ends. */
  function Stubs(little: bool, b: seq<byte>, at: nat): (r: (seq<byte>, End))
    ensures r.0 == [] || at + |r.0| <= |b|
    decreases |b| - at
  {
    var f := FragAt(little, b, at);
    if f.Stop? then ([], f.end)
    else if f.last then (f.stub, Complete)
    else (f.stub + Stubs(little, b, f.next).0, Stubs(little, b, f.next).1)
  }

  /** `b` with the stubs moved down to follow the first `first` octets, and nothing else changed. */
  function Compacted(b: seq<byte>, first: nat, stubs: seq<byte>): (r: seq<byte>)
    ensures |r| == |b|
  {
    if first + |stubs| <= |b| then b[..first] + stubs + b[first + |stubs|..] else b
  }

  function Verdict(first: nat, stubs: seq<byte>, end: End): Outcome {
    match end
    case Complete => Joined(first + |stubs|)
    case Short => Stopped
    case Outside => Overrun
  }

  // ---- the loop ------------------------------------------------------------------------------------

  /** Octets that have not been passed yet are as they came. */
  lemma {:induction false} Unread(was: seq<byte>, first: nat, done: seq<byte>, k: nat)
    requires first + |done| <= k < |was|
    ensures Compacted(was, first, done)[k] == was[k]
  {
  }

  /** The header of the next fragment is read as it came. */
  lemma {:induction false} UnreadFrag(little: bool, was: seq<byte>, first: nat, done: seq<byte>, at: nat)
    requires first + |done| <= at
    ensures FragAt(little, Compacted(was, first, done), at) == FragAt(little, was, at)
  {
    var now := Compacted(was, first, done);
    forall k | at <= k < |was| ensures now[k] == was[k] {
      Unread(was, first, done, k);
    }
    if at + HEADER <= |was| {
      assert now[at..at + FIELDS] == was[at..at + FIELDS];
      var n := FragLength(little, was[at..at + FIELDS]);
      if n >= HEADER && at + n <= |was| {
        assert now[at + HEADER..at + n] == was[at + HEADER..at + n];
      }
    }
  }

  /** Moving one more stub down. */
  lemma {:induction false} MoveStep(was: seq<byte>, first: nat, done: seq<byte>, src: nat, stub: seq<byte>)
    requires first + |done| <= src && src + |stub| <= |was| && stub == was[src..src + |stub|]
    ensures Moved(Compacted(was, first, done), first + |done|, src, |stub|) == Compacted(was, first, done + stub)
  {
    var u := first + |done|;
    var now := Compacted(was, first, done);
    forall k | u <= k < |was| ensures now[k] == was[k] {
      Unread(was, first, done, k);
    }
    assert now[..u] == was[..first] + done;
    assert now[src..src + |stub|] == stub;
    assert now[u + |stub|..] == was[u + |stub|..];
    Assoc(was[..first], done, stub);
  }

  /** The loop has moved the stubs `done` and goes on at `offset`. */
  predicate Moving(little: bool, was: seq<byte>, first: nat, done: seq<byte>, offset: nat, last: bool) {
    && first + |done| <= offset
    && Stubs(little, was, first) ==
       if last then (done, Complete)
       else (done + Stubs(little, was, offset).0, Stubs(little, was, offset).1)
  }

  lemma {:induction false} RoundEnds(little: bool, was: seq<byte>, first: nat, done: seq<byte>, at: nat)
    requires Moving(little, was, first, done, at, false) && FragAt(little, was, at).Stop?
    ensures Stubs(little, was, first) == (done, FragAt(little, was, at).end)
  {
    EmptyUnit(done);
  }

  lemma {:induction false} RoundMoves(little: bool, was: seq<byte>, first: nat, done: seq<byte>, at: nat)
    requires Moving(little, was, first, done, at, false) && FragAt(little, was, at).Frag?
    ensures var f := FragAt(little, was, at);
            Moving(little, was, first, done + f.stub, f.next, f.last)
  {
    var f := FragAt(little, was, at);
    if !f.last {
      Assoc(done, f.stub, Stubs(little, was, f.next).0);
    }
  }

  lemma {:induction false} MovingStarts(little: bool, was: seq<byte>, first: nat)
    ensures Moving(little, was, first, [], first, false) && Compacted(was, first, []) == was
  {
    EmptyUnit(Stubs(little, was, first).0);
    if first <= |was| {
      assert was == was[..first] + [] + was[first..];
    }
  }

  /** Join the fragments in place. */
  method Unfragment(little: bool, buf: array<byte>) returns (r: Outcome)
    modifies buf
    ensures var b := old(buf[..]);
            if |b| < FIELDS || !Starts(b[..FIELDS]) then r == Untouched && buf[..] == b
            else
              var first := FragLength(little, b[..FIELDS]);
              var (stubs, end) := Stubs(little, b, first);
              r == Verdict(first, stubs, end) && buf[..] == Compacted(b, first, stubs)
  {
    if buf.Length < FIELDS || !Starts(buf[..][..FIELDS]) {
      return Untouched;
    }
    r := MoveStubs(little, buf, FragLength(little, buf[..][..FIELDS]));
  }

  /** `now` is the buffer with the stubs `done` moved. */
  ghost predicate HasMoved(now: seq<byte>, was: seq<byte>, first: nat, done: seq<byte>) {
    now == Compacted(was, first, done)
  }

  method MoveStub(buf: array<byte>, dst: nat, src: nat, n: nat, ghost was: seq<byte>, ghost first: nat, ghost done: seq<byte>, ghost stub: seq<byte>)
    requires dst == first + |done| <= src && src + n <= buf.Length == |was| && stub == was[src..src + n]
    requires HasMoved(buf[..], was, first, done)
    modifies buf
    ensures HasMoved(buf[..], was, first, done + stub)
  {
    MoveStep(was, first, done, src, stub);
    Memmove(buf, dst, src, n);
  }

  /** One round: read the header at `offset` and move the stub behind it down. */
  method NextStub(little: bool, buf: array<byte>, unfragmentLen: nat, offset: nat, ghost was: seq<byte>, ghost first: nat, ghost done: seq<byte>)
    returns (f: Frag)
    requires unfragmentLen == first + |done| && HasMoved(buf[..], was, first, done)
    requires Moving(little, was, first, done, offset, false)
    modifies buf
    ensures f == FragAt(little, was, offset)
    ensures f.Stop? ==> HasMoved(buf[..], was, first, done) && Stubs(little, was, first) == (done, f.end)
    ensures f.Frag? ==> HasMoved(buf[..], was, first, done + f.stub) && Moving(little, was, first, done + f.stub, f.next, f.last)
  {
    UnreadFrag(little, was, first, done, offset);
    f := FragAt(little, buf[..], offset);
    if f.Stop? {
      RoundEnds(little, was, first, done, offset);
      return;
    }
    RoundMoves(little, was, first, done, offset);
    MoveStub(buf, unfragmentLen, offset + HEADER, |f.stub|, was, first, done, f.stub);
  }

  /** The loop over the fragments after the first. The source re-reads the first header on every
      round, into fields it does not use. */
  method MoveStubs(little: bool, buf: array<byte>, first: nat) returns (r: Outcome)
    modifies buf
    ensures var (stubs, end) := Stubs(little, old(buf[..]), first);
            r == Verdict(first, stubs, end) && HasMoved(buf[..], old(buf[..]), first, stubs)
  {
    ghost var was := buf[..];
    ghost var done: seq<byte> := [];
    var offset, unfragmentLen, last := first, first, false;
    MovingStarts(little, was, first);
    while !last
      invariant unfragmentLen == first + |done| && HasMoved(buf[..], was, first, done)
      invariant Moving(little, was, first, done, offset, last)
      decreases |was| - offset, !last
    {
      var f := NextStub(little, buf, unfragmentLen, offset, was, first, done);
      if f.Stop? {
        return if f.end == Short then Stopped else Overrun;
      }
      done := done + f.stub;
      unfragmentLen := unfragmentLen + |f.stub|;
      offset, last := f.next, f.last;
    }
    r := Joined(unfragmentLen);
  }

  // ---- what a server sends ---------------------------------------------------------------------------

  /** One fragment: the DCE/RPC and response headers, and a part of the stub data. */
  datatype Fragment = Fragment(header: seq<byte>, stub: seq<byte>)

  predicate WellFormed(little: bool, f: Fragment, last: bool) {
    && |f.header| == HEADER
    && FragLength(little, f.header[..FIELDS]) == HEADER + |f.stub|
    && IsLast(f.header[..FIELDS]) == last
  }

  /** Only the last fragment is marked last. */
  predicate Chain(little: bool, fs: seq<Fragment>) {
    fs != [] && WellFormed(little, fs[0], |fs| == 1) && (|fs| > 1 ==> Chain(little, fs[1..]))
  }

  function Sent(fs: seq<Fragment>): seq<byte> {
    if fs == [] then [] else fs[0].header + fs[0].stub + Sent(fs[1..])
  }

  function AllStubs(fs: seq<Fragment>): seq<byte> {
    if fs == [] then [] else fs[0].stub + AllStubs(fs[1..])
  }

  lemma {:induction false} FirstFrag(little: bool, pre: seq<byte>, f: Fragment, last: bool, post: seq<byte>)
    requires WellFormed(little, f, last)
    ensures FragAt(little, pre + ((f.header + f.stub) + post), |pre|) == Frag(f.stub, |pre| + HEADER + |f.stub|, last)
  {
    hide FragLength;
    hide IsLast;
    var x := f.header + f.stub;
    var b, at := pre + (x + post), |pre|;
    MiddleOf(pre, x, post);
    SliceOfSlice(b, at, at + |x|, 0, FIELDS);
    SliceOfHead(f.header, f.stub, 0, FIELDS);
    SliceOfSlice(b, at, at + |x|, HEADER, |x|);
    EndOf(f.header, f.stub);
  }

  lemma {:induction false} ChainStubs(little: bool, pre: seq<byte>, fs: seq<Fragment>, rest: seq<byte>)
    requires Chain(little, fs)
    ensures Stubs(little, pre + (Sent(fs) + rest), |pre|) == (AllStubs(fs), Complete)
    decreases |fs|
  {
    var f := fs[0];
    var octets := f.header + f.stub;
    var post := Sent(fs[1..]) + rest;
    FirstFrag(little, pre, f, |fs| == 1, post);
    Assoc(octets, Sent(fs[1..]), rest);
    if |fs| > 1 {
      ChainStubs(little, pre + octets, fs[1..], rest);
      Assoc(pre, octets, post);
    } else {
      EmptyUnit(f.stub);
    }
  }

  lemma {:induction false} SentStarts(fs: seq<Fragment>, rest: seq<byte>)
    requires fs != [] && |fs[0].header| == HEADER
    ensures var b := Sent(fs) + rest;
            var octets := fs[0].header + fs[0].stub;
            && b == octets + (Sent(fs[1..]) + rest)
            && b[..|octets|] == octets && b[..FIELDS] == fs[0].header[..FIELDS]
  {
    Assoc(fs[0].header + fs[0].stub, Sent(fs[1..]), rest);
  }

  lemma {:induction false} CompactedStarts(b: seq<byte>, first: nat, stubs: seq<byte>)
    requires first + |stubs| <= |b|
    ensures Compacted(b, first, stubs)[..first + |stubs|] == b[..first] + stubs
  {
  }

  /** Whatever the number of fragments and the sizes of their stubs, a response that arrives in
      fragments is left as one: the first header, then the stub data of all fragments in order. */
  lemma {:induction false} Reassembles(little: bool, fs: seq<Fragment>, rest: seq<byte>)
    requires Chain(little, fs) && Starts(fs[0].header[..FIELDS])
    ensures var b := Sent(fs) + rest;
            var whole := fs[0].header + AllStubs(fs);
            && |b| >= FIELDS && Starts(b[..FIELDS])
            && var first := FragLength(little, b[..FIELDS]);
               var (stubs, end) := Stubs(little, b, first);
               && Verdict(first, stubs, end) == Joined(|whole|)
               && |whole| <= |b| && Compacted(b, first, stubs)[..|whole|] == whole
  {
    var f := fs[0];
    var octets, later := f.header + f.stub, AllStubs(fs[1..]);
    var b := Sent(fs) + rest;
    SentStarts(fs, rest);
    ChainStubs(little, octets, fs[1..], rest);
    StubsFit(fs[1..]);
    CompactedStarts(b, |octets|, later);
    Assoc(f.header, f.stub, later);
  }

  lemma {:induction false} StubsFit(fs: seq<Fragment>)
    ensures |AllStubs(fs)| <= |Sent(fs)|
  {
    if fs != [] {
      StubsFit(fs[1..]);
    }
  }

  // ---- section 12.6 of C706 ----------------------------------------------------------------------------

  /** What a server puts into a fragment: its flags, data representation, what follows the length, and stub
      data. */
  datatype Part = Part(flags: byte, drep: seq<byte>, tail: seq<byte>, stub: seq<byte>)

  /** The version, 5.0, the type of a response, the flags, the data representation, the length of the fragment in
      the byte order of the server, and the rest of the header. */
  function HeaderOf(little: bool, p: Part): seq<byte> {
    var n := HEADER + |p.stub|;
    [5, 0, 2, p.flags] + p.drep + (if little then Little(n, 2) else Big(n, 2)) + p.tail
  }

  predicate ValidPart(p: Part, last: bool) {
    |p.drep| == 4 && |p.tail| == 14 && HEADER + |p.stub| < 0x1_0000 && (p.flags & 2 != 0 <==> last)
  }

  /** Only the last part has the flag of the last fragment. */
  predicate ValidParts(ps: seq<Part>) {
    ps != [] && ValidPart(ps[0], |ps| == 1) && (|ps| > 1 ==> ValidParts(ps[1..]))
  }

  function Fragments(little: bool, ps: seq<Part>): seq<Fragment> {
    if ps == [] then [] else [Fragment(HeaderOf(little, ps[0]), ps[0].stub)] + Fragments(little, ps[1..])
  }

  function PartStubs(ps: seq<Part>): seq<byte> {
    if ps == [] then [] else ps[0].stub + PartStubs(ps[1..])
  }

  lemma {:induction false} HeaderReads(little: bool, p: Part, last: bool)
    requires ValidPart(p, last)
    ensures var h := HeaderOf(little, p);
            && |h| == HEADER && FragLength(little, h[..FIELDS]) == HEADER + |p.stub|
            && IsLast(h[..FIELDS]) == last && (Starts(h[..FIELDS]) <==> !last)
  {
    var n := HEADER + |p.stub|;
    var h := HeaderOf(little, p);
    TwoOctets(n);
    assert h[..FIELDS][8] == h[8] && h[..FIELDS][9] == h[9];
  }

  lemma {:induction false} TwoOctets(n: nat)
    requires n < 0x1_0000
    ensures var l, b := Little(n, 2), Big(n, 2);
            l[0] as nat + 256 * l[1] as nat == n && 256 * b[0] as nat + b[1] as nat == n
  {
    LittlePair(n);
    assert Big(n / 256, 1) == [(n / 256 % 256) as byte];
    ByteOfNat(n / 256);
    ByteOfNat(n % 256);
  }

  lemma {:induction false} FragmentsAre(little: bool, ps: seq<Part>)
    requires ValidParts(ps)
    ensures var fs := Fragments(little, ps);
            |fs| == |ps| && Chain(little, fs) && AllStubs(fs) == PartStubs(ps)
    decreases |ps|
  {
    hide HeaderOf;
    hide FragLength;
    hide IsLast;
    HeaderReads(little, ps[0], |ps| == 1);
    var fs := Fragments(little, ps);
    assert fs[1..] == Fragments(little, ps[1..]);
    if |ps| > 1 {
      FragmentsAre(little, ps[1..]);
    } else {
      assert ps[1..] == [] && Fragments(little, []) == [];
    }
  }

  /** A response that a server sends in two parts or more, in either byte order: what is left in the buffer is the
      header of the first part and the stub data of all of them in order, and that is the length reported. */
  lemma {:induction false} PartsReassemble(little: bool, ps: seq<Part>, rest: seq<byte>)
    requires ValidParts(ps) && |ps| > 1
    ensures var b := Sent(Fragments(little, ps)) + rest;
            var whole := HeaderOf(little, ps[0]) + PartStubs(ps);
            && |b| >= FIELDS && Starts(b[..FIELDS])
            && var first := FragLength(little, b[..FIELDS]);
               var (stubs, end) := Stubs(little, b, first);
               && Verdict(first, stubs, end) == Joined(|whole|)
               && |whole| <= |b| && Compacted(b, first, stubs)[..|whole|] == whole
  {
    hide HeaderOf;
    hide FragLength;
    hide Starts;
    hide Stubs;
    hide Compacted;
    FragmentsAre(little, ps);
    HeaderReads(little, ps[0], false);
    Reassembles(little, Fragments(little, ps), rest);
  }
}
