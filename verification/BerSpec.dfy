/** The Basic Encoding Rules, sections 8.1.3 and 8.19 of X.690: lengths, unsigned numbers, octet strings and
    object identifiers as octets, and what their decoders return. */
module BerSpec {
  import opened Octet
  import opened Bytes
  import opened Sequences

  const WORD: nat := 0x1_0000_0000
  const MAX_OID_ELEMENTS: nat := 32
  const OBJECT_ID: byte := 6
  const OCTET_STRING: byte := 4

  datatype Error = Ended | WrongType | TooBig

  /** A value, or the reason why there is none, and the octets used up. */
  datatype Read<T> = Got(value: T, used: nat) | Failed(error: Error, used: nat)

  predicate Marked(b: byte) {
    b & 0x80 != 0
  }

  function LowBits(b: byte): nat {
    (b & 0x7F) as nat
  }

  lemma {:induction false} PlainOctet(n: nat)
    requires n < 128
    ensures !Marked(n as byte) && LowBits(n as byte) == n && (n as byte) as nat == n
  {
    ByteOfNat(n);
    PlainBits(n as byte);
  }

  lemma {:induction false} PlainBits(b: byte)
    ensures b < 0x80 ==> b & 0x80 == 0 && b & 0x7F == b
    ensures b >= 0x80 ==> b & 0x80 == 0x80 && b & 0x7F == b - 0x80
  {
  }

  lemma {:induction false} MarkedOctet(n: nat)
    requires n < 128
    ensures Marked((128 + n) as byte) && LowBits((128 + n) as byte) == n
  {
    ByteOfNat(128 + n);
    PlainBits((128 + n) as byte);
    var b := (128 + n) as byte;
    assert (b - 0x80) as nat == n;
  }

  // ---- lengths -------------------------------------------------------------------------------------------

  /** The least number of octets that hold `n`. */
  function Octets(n: nat): nat {
    if n == 0 then 0 else 1 + Octets(n / 256)
  }

  lemma {:induction false} OctetsFit(n: nat)
    ensures FitsIn(n, Octets(n))
  {
    if n != 0 {
      OctetsFit(n / 256);
    }
  }

  lemma {:induction false} OctetsLeast(n: nat, m: nat)
    requires FitsIn(n, m)
    ensures Octets(n) <= m
  {
    if n != 0 {
      OctetsLeast(n / 256, m - 1);
    }
  }

  lemma {:induction false} WordOctets(n: nat)
    requires n < WORD
    ensures Octets(n) <= 4
  {
    FitsInBounds(n);
    OctetsLeast(n, 4);
  }

  /** Short form below 128, long form with the least number of octets above. */
  function Length(n: nat): seq<byte>
    requires n < WORD
  {
    WordOctets(n);
    if n < 128 then [n as byte] else [(128 + Octets(n)) as byte] + Big(n, Octets(n))
  }

  function DecodeLength(s: seq<byte>): Read<nat> {
    if s == [] then Failed(Ended, 0)
    else if !Marked(s[0]) then Got(s[0] as nat, 1)
    else if LowBits(s[0]) > 4 then Failed(TooBig, 1)
    else if |s| < 1 + LowBits(s[0]) then Failed(Ended, |s|)
    else Got(BigValue(s[1..1 + LowBits(s[0])]), 1 + LowBits(s[0]))
  }

  /** Every length decodes to itself, whatever follows. */
  lemma {:induction false} LengthRoundTrip(n: nat, rest: seq<byte>)
    requires n < WORD
    ensures DecodeLength(Length(n) + rest) == Got(n, |Length(n)|)
  {
    WordOctets(n);
    if n < 128 {
      PlainOctet(n);
    } else {
      var k := Octets(n);
      MarkedOctet(k);
      var head: seq<byte> := [(128 + k) as byte];
      Assoc(head, Big(n, k), rest);
      MiddleOf(head, Big(n, k), rest);
      OctetsFit(n);
      BigInverts(n, k);
    }
  }

  /** No other length field that the decoder accepts is shorter. */
  lemma {:induction false} LengthShortest(s: seq<byte>)
    requires DecodeLength(s).Got?
    ensures DecodeLength(s).value < WORD && |Length(DecodeLength(s).value)| <= DecodeLength(s).used
  {
    var n := DecodeLength(s).value;
    if !Marked(s[0]) {
      PlainBits(s[0]);
      assert s[0] < 0x80;
      assert n < 128;
    } else {
      var k := LowBits(s[0]);
      ValueFits(s[1..1 + k]);
      FitsBelow(n, k, 4);
      OctetsLeast(n, k);
      if n < 128 {
      } else if k == 0 {
        assert false;
      }
    }
  }

  lemma {:induction false} ValueFits(s: seq<byte>)
    ensures FitsIn(BigValue(s), |s|)
  {
    if s != [] {
      ValueFits(s[..|s| - 1]);
      assert BigValue(s) / 256 == BigValue(s[..|s| - 1]);
    }
  }

  lemma {:induction false} SmallValue(s: seq<byte>)
    requires |s| <= 3
    ensures BigValue(s) * 256 + 255 < WORD
  {
    var n := BigValue(s);
    ValueFits(s);
    FitsBelow(n, |s|, 3);
    assert FitsIn(n / 256, 2) && FitsIn(n / 256 / 256, 1);
    assert FitsIn(n / 256 / 256 / 256, 0);
  }

  lemma {:induction false} FitsBelow(n: nat, k: nat, m: nat)
    requires FitsIn(n, k) && k <= m
    ensures FitsIn(n, m) && (m == 4 ==> n < WORD)
  {
    if k == 0 {
      if m > 0 {
        FitsBelow(0, 0, m - 1);
      }
    } else {
      FitsBelow(n / 256, k - 1, m - 1);
    }
    if m == 4 {
      assert FitsIn(n / 256, 3) && FitsIn(n / 256 / 256, 2) && FitsIn(n / 256 / 256 / 256, 1);
      assert FitsIn(n / 256 / 256 / 256 / 256, 0);
    }
  }

  // ---- numbers and octet strings -------------------------------------------------------------------------

  /** The types that the decoder of unsigned numbers takes. */
  predicate Unsigned(t: byte) {
    t in {0x01, 0x40, 0x41, 0x42, 0x43, 0x45, 0x47, 0x0A}
  }

  /** Four octets for zero, otherwise as few as possible. */
  function Body(n: nat): seq<byte> {
    if n == 0 then Zeros(4) else Big(n, Octets(n))
  }

  function Uint32(t: byte, n: nat): seq<byte>
    requires n < WORD
  {
    WordOctets(n);
    [t] + Length(|Body(n)|) + Body(n)
  }

  function DecodeUint32(s: seq<byte>): Read<nat> {
    if s == [] then Failed(Ended, 0)
    else if !Unsigned(s[0]) then Failed(WrongType, 1)
    else if |s| == 1 then Failed(Ended, 1)
    else
      var n := s[1] as nat;
      if n > 4 || n == 0 then Failed(TooBig, 2)
      else if |s| < 2 + n then Failed(Ended, |s|)
      else Got(BigValue(s[2..2 + n]), 2 + n)
  }

  lemma {:induction false} BodyLength(n: nat)
    requires n < WORD
    ensures 1 <= |Body(n)| <= 4 && BigValue(Body(n)) == n && |Body(n)| == if n == 0 then 4 else Octets(n)
  {
    WordOctets(n);
    if n == 0 {
      assert Zeros(4) == Big(0, 4);
      FitsInBounds(0);
      BigInverts(0, 4);
    } else {
      OctetsFit(n);
      BigInverts(n, Octets(n));
    }
  }

  /** Zero takes four octets instead of one; every number decodes to itself. */
  lemma {:induction false} Uint32RoundTrip(t: byte, n: nat, rest: seq<byte>)
    requires n < WORD && Unsigned(t)
    ensures DecodeUint32(Uint32(t, n) + rest) == Got(n, |Uint32(t, n)|)
    ensures |Uint32(t, n)| == 2 + if n == 0 then 4 else Octets(n)
  {
    BodyLength(n);
    var k := |Body(n)|;
    PlainOctet(k);
    WordOctets(n);
    hide Body;
    hide BigValue;
    var head: seq<byte> := [t, k as byte];
    assert [t] + Length(k) == head;
    Assoc(head, Body(n), rest);
    MiddleOf(head, Body(n), rest);
    var s := Uint32(t, n) + rest;
    assert s[0] == t && s[1] == k as byte;
  }

  function OctetString(t: byte, val: seq<byte>): seq<byte>
    requires |val| < WORD
  {
    [t] + Length(|val|) + val
  }

  function DecodeOctets(s: seq<byte>, maxLen: nat): Read<seq<byte>> {
    if s == [] then Failed(Ended, 0)
    else if s[0] != OCTET_STRING then Failed(WrongType, 1)
    else
      match DecodeLength(s[1..])
      case Failed(e, used) => Failed(e, 1 + used)
      case Got(n, used) =>
        if n > maxLen then Failed(TooBig, 1 + used)
        else if |s| < 1 + used + n then Failed(Ended, |s|)
        else Got(s[1 + used..1 + used + n], 1 + used + n)
  }

  /** An octet string decodes to itself exactly when the receiver has room for it. */
  lemma {:induction false} OctetStringRoundTrip(val: seq<byte>, rest: seq<byte>, maxLen: nat)
    requires |val| < WORD
    ensures var s := OctetString(OCTET_STRING, val);
            DecodeOctets(s + rest, maxLen) ==
            if |val| <= maxLen then Got(val, |s|) else Failed(TooBig, |s| - |val|)
  {
    hide Length;
    hide DecodeLength;
    var n := Length(|val|);
    var head: seq<byte> := [OCTET_STRING];
    Assoc(head, n, val);
    Assoc(head, n + val, rest);
    Assoc(n, val, rest);
    var s := OctetString(OCTET_STRING, val) + rest;
    assert s == head + (n + (val + rest));
    TailOfJoined(head, n + (val + rest));
    EmptyUnit(n + (val + rest));
    LengthRoundTrip(|val|, val + rest);
    Assoc(head, n, val + rest);
    MiddleOf(head + n, val, rest);
  }

  // ---- object identifiers --------------------------------------------------------------------------------

  /** Seven bits an octet, all but the last marked. */
  function Arc(n: nat): seq<byte> {
    (if n < 128 then [] else ArcHigh(n / 128)) + [(n % 128) as byte]
  }

  function ArcHigh(n: nat): seq<byte> {
    (if n < 128 then [] else ArcHigh(n / 128)) + [(128 + n % 128) as byte]
  }

  function Arcs(e: seq<nat>): seq<byte> {
    if e == [] then [] else Arc(e[0]) + Arcs(e[1..])
  }

  predicate Words(e: seq<nat>) {
    e == [] || (e[0] < WORD && Words(e[1..]))
  }

  /** The first two arcs share a number when the first is below 40. */
  function OidBody(e: seq<nat>): seq<byte> {
    if |e| > 1 && e[0] < 40 then Arc((e[0] * 40 + e[1]) % WORD) + Arcs(e[2..]) else Arcs(e)
  }

  /** One length octet is reserved. A body that needs two loses its first octet to the length, and `stale`,
      the octet that lay behind it, becomes its last. */
  function Oid(e: seq<nat>, stale: byte): seq<byte>
    requires |OidBody(e)| < 256
  {
    var b := OidBody(e);
    [OBJECT_ID] + Length(|b|) + if |b| < 128 then b else b[1..] + [stale]
  }

  /** The rest of an arc: at most `left` octets of it. */
  function DecodeArc(s: seq<byte>, left: nat, high: nat): Read<nat> {
    if left == 0 then Got(high, 0)
    else if s == [] then Failed(Ended, 0)
    else
      var value := (high * 128) % WORD + LowBits(s[0]);
      if !Marked(s[0]) then Got(value, 1) else Later(DecodeArc(s[1..], left - 1, value), 1)
  }

  lemma {:induction false} ArcUnrolled(s: seq<byte>, left: nat, high: nat)
    ensures DecodeArc(s, left, high) ==
            if left == 0 then Got(high, 0)
            else if s == [] then Failed(Ended, 0)
            else if !Marked(s[0]) then Got((high * 128) % WORD + LowBits(s[0]), 1)
            else Later(DecodeArc(s[1..], left - 1, (high * 128) % WORD + LowBits(s[0])), 1)
  {
  }

  function Later<T>(r: Read<T>, n: nat): Read<T> {
    match r
    case Got(v, used) => Got(v, n + used)
    case Failed(e, used) => Failed(e, n + used)
  }

  /** Arcs up to `left` octets, behind those in `e`; no more than MAX_OID_ELEMENTS in all. */
  function DecodeArcs(s: seq<byte>, left: nat, e: seq<nat>): Read<seq<nat>>
    decreases left
  {
    if left == 0 then Got(e, 0)
    else if |e| >= MAX_OID_ELEMENTS then Failed(TooBig, 0)
    else
      match DecodeArc(s, left, 0)
      case Failed(error, used) => Failed(error, used)
      case Got(value, used) =>
        ArcUsed(s, left, 0);
        Later(DecodeArcs(s[used..], left - used, e + [value]), used)
  }

  lemma {:induction false} ArcUsed(s: seq<byte>, left: nat, high: nat)
    ensures DecodeArc(s, left, high).used <= left && DecodeArc(s, left, high).used <= |s|
    ensures DecodeArc(s, left, high).Got? && left > 0 ==> DecodeArc(s, left, high).used > 0
    decreases left
  {
    if left > 0 && s != [] {
      ArcUsed(s[1..], left - 1, (high * 128) % WORD + LowBits(s[0]));
    }
  }

  function DecodeOid(s: seq<byte>): Read<seq<nat>> {
    if s == [] then Failed(Ended, 0)
    else if s[0] != OBJECT_ID then Failed(WrongType, 1)
    else
      match DecodeLength(s[1..])
      case Failed(e, used) => Failed(e, 1 + used)
      case Got(n, used) =>
        if n > MAX_OID_ELEMENTS || n == 0 then Failed(TooBig, 1 + used)
        else if |s| < 1 + used + 1 then Failed(Ended, |s|)
        else
          var b := s[1 + used] as nat;
          Later(DecodeArcs(s[1 + used + 1..], n - 1, [b / 40, b % 40]), 1 + used + 1)
  }

  lemma {:induction false} ArcHighIs(n: nat)
    ensures ArcHigh(n) == (if n < 128 then [] else ArcHigh(n / 128)) + [(128 + n % 128) as byte]
    ensures Marked((128 + n % 128) as byte) && LowBits((128 + n % 128) as byte) == n % 128
    ensures n / 128 * 128 + n % 128 == n
  {
    MarkedOctet(n % 128);
  }

  lemma {:induction false} ArcHighDecodes(n: nat, t: seq<byte>, left: nat)
    requires n < WORD && |ArcHigh(n)| <= left
    ensures DecodeArc(ArcHigh(n) + t, left, 0) == Later(DecodeArc(t, left - |ArcHigh(n)|, n), |ArcHigh(n)|)
  {
    ArcHighIs(n);
    hide Marked;
    hide LowBits;
    hide DecodeArc;
    hide ArcHigh;
    hide Later;
    var x := (128 + n % 128) as byte;
    if n < 128 {
      EmptyUnit([x]);
      ArcStep(x, t, left, 0);
    } else {
      var h := ArcHigh(n / 128);
      Assoc(h, [x], t);
      ArcHighDecodes(n / 128, [x] + t, left);
      ArcStep(x, t, left - |h|, n / 128);
      LaterTwice(DecodeArc(t, left - |h| - 1, n), 1, |h|);
    }
  }

  lemma {:induction false} ArcStep(x: byte, t: seq<byte>, left: nat, high: nat)
    requires left > 0 && high * 128 < WORD
    ensures DecodeArc([x] + t, left, high) ==
            if Marked(x) then Later(DecodeArc(t, left - 1, high * 128 + LowBits(x)), 1)
            else Got(high * 128 + LowBits(x), 1)
  {
    assert ([x] + t)[1..] == t;
    assert (high * 128) % WORD == high * 128;
  }

  lemma {:induction false} LaterTwice<T>(r: Read<T>, a: nat, b: nat)
    ensures Later(Later(r, a), b) == Later(r, a + b)
  {
  }

  /** An arc decodes to itself, whatever follows. */
  lemma {:induction false} ArcDecodes(n: nat, t: seq<byte>, left: nat)
    requires n < WORD && |Arc(n)| <= left
    ensures DecodeArc(Arc(n) + t, left, 0) == Got(n, |Arc(n)|)
  {
    var x := (n % 128) as byte;
    PlainOctet(n % 128);
    hide Marked;
    hide LowBits;
    if n < 128 {
      EmptyUnit([x]);
      ArcStep(x, t, left, 0);
    } else {
      var h := ArcHigh(n / 128);
      Assoc(h, [x], t);
      ArcHighDecodes(n / 128, [x] + t, left);
      ArcStep(x, t, left - |h|, n / 128);
    }
  }

  lemma {:induction false} ArcsDecode(e: seq<nat>, t: seq<byte>, acc: seq<nat>)
    requires Words(e) && |acc| + |e| <= MAX_OID_ELEMENTS
    ensures DecodeArcs(Arcs(e) + t, |Arcs(e)|, acc) == Got(acc + e, |Arcs(e)|)
    decreases |e|
  {
    hide DecodeArc;
    hide Arc;
    if e == [] {
      EmptyUnit(acc);
    } else {
      hide Arcs;
      var a, b := Arc(e[0]), Arcs(e[1..]);
      ArcsIs(e);
      ArcDecodes(e[0], b + t, |a| + |b|);
      Assoc(a, b, t);
      DropJoined(a, b + t, |a|);
      EmptyUnit(b + t);
      ArcsDecode(e[1..], t, acc + [e[0]]);
      SplitAt(e, 0);
      Assoc(acc, [e[0]], e[1..]);
    }
  }

  lemma {:induction false} ArcsIs(e: seq<nat>)
    requires e != []
    ensures Arcs(e) == Arc(e[0]) + Arcs(e[1..]) && |Arc(e[0])| > 0 && e[0..] == e
  {
    ArcEnds(e[0], [], 0);
  }

  // ---- how many arcs a body decodes to -------------------------------------------------------------------

  /** How many of the first `n` octets end an arc. */
  function Ends(s: seq<byte>, n: nat): nat
    requires n <= |s|
  {
    if n == 0 then 0 else (if Marked(s[0]) then 0 else 1) + Ends(s[1..], n - 1)
  }

  lemma {:induction false} ArcHighEnds(n: nat, t: seq<byte>, m: nat)
    requires m <= |t|
    ensures Ends(ArcHigh(n) + t, |ArcHigh(n)| + m) == Ends(t, m)
    ensures |ArcHigh(n)| > 0 && Marked(ArcHigh(n)[0])
  {
    var x := (128 + n % 128) as byte;
    MarkedOctet(n % 128);
    hide Marked;
    assert ([x] + t)[1..] == t;
    if n < 128 {
      EmptyUnit([x]);
    } else {
      Assoc(ArcHigh(n / 128), [x], t);
      ArcHighEnds(n / 128, [x] + t, m + 1);
    }
  }

  lemma {:induction false} ArcEnds(n: nat, t: seq<byte>, m: nat)
    requires m <= |t|
    ensures Ends(Arc(n) + t, |Arc(n)| + m) == 1 + Ends(t, m)
    ensures |Arc(n)| > 0 && (Marked(Arc(n)[0]) <==> n >= 128) && !Marked(Arc(n)[|Arc(n)| - 1])
  {
    var x := (n % 128) as byte;
    PlainOctet(n % 128);
    hide Marked;
    assert ([x] + t)[1..] == t;
    if n < 128 {
      EmptyUnit([x]);
    } else {
      Assoc(ArcHigh(n / 128), [x], t);
      ArcHighEnds(n / 128, [x] + t, m + 1);
    }
  }

  lemma {:induction false} ArcsEnds(e: seq<nat>, t: seq<byte>)
    ensures Ends(Arcs(e) + t, |Arcs(e)|) == |e| && |Arcs(e)| >= |e|
    ensures e != [] ==> !Marked(Arcs(e)[|Arcs(e)| - 1])
    decreases |e|
  {
    hide Marked;
    if e != [] {
      Assoc(Arc(e[0]), Arcs(e[1..]), t);
      ArcsEnds(e[1..], t);
      ArcEnds(e[0], Arcs(e[1..]) + t, |Arcs(e[1..])|);
    }
  }

  lemma {:induction false} ArcConsumes(s: seq<byte>, left: nat, high: nat)
    requires 0 < left <= |s| && !Marked(s[left - 1])
    ensures var r := DecodeArc(s, left, high);
            r.Got? && 0 < r.used <= left && Ends(s, left) == 1 + Ends(s[r.used..], left - r.used)
    decreases left
  {
    hide Marked;
    hide LowBits;
    if Marked(s[0]) {
      var next := (high * 128) % WORD + LowBits(s[0]);
      ArcConsumes(s[1..], left - 1, next);
      var r := DecodeArc(s[1..], left - 1, next);
      assert s[1..][r.used..] == s[1 + r.used..];
    }
  }

  lemma {:induction false} ArcsCount(s: seq<byte>, left: nat, acc: seq<nat>)
    requires left <= |s| && (left > 0 ==> !Marked(s[left - 1]))
    ensures var r := DecodeArcs(s, left, acc);
            r.Got? ==> |r.value| == |acc| + Ends(s, left) && acc <= r.value
    decreases left
  {
    hide Marked;
    hide DecodeArc;
    if left > 0 && |acc| < MAX_OID_ELEMENTS {
      ArcConsumes(s, left, 0);
      var r := DecodeArc(s, left, 0);
      ArcsCount(s[r.used..], left - r.used, acc + [r.value]);
    }
  }

  /** The identifiers that survive: at least two arcs, the first two small enough for one octet, and a body
      of at most 32 octets. */
  predicate Portable(e: seq<nat>) {
    |e| >= 2 && e[0] < 40 && e[1] < 40 && e[0] * 40 + e[1] < 128 && |OidBody(e)| <= MAX_OID_ELEMENTS
  }

  /** What the decoder makes of a body of up to 32 octets. */
  lemma {:induction false} OidDecodes(body: seq<byte>, rest: seq<byte>)
    requires 0 < |body| <= MAX_OID_ELEMENTS
    ensures var b := body[0] as nat;
            DecodeOid([OBJECT_ID] + Length(|body|) + body + rest) ==
            Later(DecodeArcs(body[1..] + rest, |body| - 1, [b / 40, b % 40]), 3)
  {
    hide DecodeArcs;
    hide DecodeLength;
    var len := Length(|body|);
    LengthRoundTrip(|body|, body + rest);
    var head: seq<byte> := [OBJECT_ID];
    Assoc(head, len, body);
    Assoc(head, len + body, rest);
    Assoc(len, body, rest);
    var s := head + (len + (body + rest));
    assert s == [OBJECT_ID] + Length(|body|) + body + rest;
    TailOfJoined(head, len + (body + rest));
    EmptyUnit(len + (body + rest));
    assert |len| == 1;
    assert s[2] == (body + rest)[0] == body[0];
    TailOfJoined(body, rest);
    assert s[3..] == (body + rest)[1..];
  }

  lemma {:induction false} OidRefused(e: seq<nat>, stale: byte, rest: seq<byte>)
    requires |OidBody(e)| < 256 && (OidBody(e) == [] || |OidBody(e)| > MAX_OID_ELEMENTS)
    ensures DecodeOid(Oid(e, stale) + rest).Failed?
  {
    hide DecodeArcs;
    hide DecodeLength;
    hide OidBody;
    hide Length;
    var b := OidBody(e);
    var tail := (if |b| < 128 then b else b[1..] + [stale]);
    var head: seq<byte> := [OBJECT_ID];
    LengthRoundTrip(|b|, tail + rest);
    Assoc(head, Length(|b|), tail);
    Assoc(head, Length(|b|) + tail, rest);
    Assoc(Length(|b|), tail, rest);
    TailOfJoined(head, Length(|b|) + (tail + rest));
    EmptyUnit(Length(|b|) + (tail + rest));
  }

  lemma {:induction false} WordsTail(e: seq<nat>, k: nat)
    requires Words(e) && k <= |e|
    ensures Words(e[k..]) && (k < |e| ==> e[k] < WORD)
  {
    if k > 0 {
      assert e[k..] == e[1..][k - 1..];
      WordsTail(e[1..], k - 1);
    }
  }

  lemma {:induction false} FirstPair(a: nat, b: nat)
    requires a * 40 + b < 128 && b < 40
    ensures ((a * 40 + b) as byte) as nat == a * 40 + b && (a * 40 + b) / 40 == a && (a * 40 + b) % 40 == b
  {
    PlainOctet(a * 40 + b);
  }

  lemma {:induction false} BodyIs(e: seq<nat>, v: nat)
    requires |e| >= 2 && e[0] < 40 && v == e[0] * 40 + e[1] && v < WORD
    ensures OidBody(e) == Arc(v) + Arcs(e[2..])
  {
    hide Arc;
    hide Arcs;
    assert v % WORD == v;
  }

  lemma {:induction false} PortableDecodes(e: seq<nat>, rest: seq<byte>)
    requires Words(e) && |e| < MAX_OID_ELEMENTS && Portable(e)
    ensures var body := OidBody(e);
            |body| > 0 &&
            DecodeArcs(body[1..] + rest, |body| - 1, [body[0] as nat / 40, body[0] as nat % 40]) == Got(e, |body| - 1)
  {
    FirstPair(e[0], e[1]);
    BodyIs(e, e[0] * 40 + e[1]);
    ArcSmall(e[0] * 40 + e[1]);
    hide Arc;
    hide DecodeArcs;
    hide Arcs;
    hide Words;
    hide OidBody;
    var head, t: seq<byte> := [(e[0] * 40 + e[1]) as byte], Arcs(e[2..]);
    TailOfJoined(head, t);
    EmptyUnit(t);
    WordsTail(e, 2);
    ArcsDecode(e[2..], rest, [e[0], e[1]]);
    assert [e[0], e[1]] + e[2..] == e;
  }

  lemma {:induction false} OthersDiffer(e: seq<nat>, rest: seq<byte>)
    requires Words(e) && !Portable(e) && 0 < |OidBody(e)| <= MAX_OID_ELEMENTS
    ensures var body := OidBody(e);
            var b := body[0] as nat;
            var r := DecodeArcs(body[1..] + rest, |body| - 1, [b / 40, b % 40]);
            r.Got? ==> r.value != e
  {
    hide DecodeArcs;
    hide Arc;
    hide Marked;
    var body := OidBody(e);
    var b := body[0] as nat;
    var merged := |e| > 1 && e[0] < 40;
    var v := if merged then (e[0] * 40 + e[1]) % WORD else e[0];
    BodyEnds(e, rest);
    TailOfJoined(body, rest);
    ArcsCount(body[1..] + rest, |body| - 1, [b / 40, b % 40]);
    if merged && v < 128 {
      PlainOctet(v);
    }
  }

  /** The arcs of a body, and whether its first octet ends one. */
  lemma {:induction false} BodyEnds(e: seq<nat>, rest: seq<byte>)
    requires Words(e) && OidBody(e) != []
    ensures var body, merged := OidBody(e), |e| > 1 && e[0] < 40;
            var v := if merged then (e[0] * 40 + e[1]) % WORD else e[0];
            Ends(body + rest, |body|) == (if merged then |e| - 1 else |e|) && (Marked(body[0]) <==> v >= 128) &&
            !Marked(body[|body| - 1]) && (v < 128 ==> body[0] == v as byte)
  {
    hide Arc;
    hide Marked;
    if |e| > 1 && e[0] < 40 {
      var v, t := (e[0] * 40 + e[1]) % WORD, Arcs(e[2..]);
      ArcEnds(v, t + rest, |t|);
      ArcsEnds(e[2..], rest);
      Assoc(Arc(v), t, rest);
      ArcSmall(v);
    } else {
      ArcsEnds(e, rest);
      ArcEnds(e[0], [], 0);
      ArcSmall(e[0]);
    }
  }

  lemma {:induction false} BodyOfTwo(e: seq<nat>)
    requires |e| >= 2
    ensures OidBody(e) != []
  {
    ArcEnds((e[0] * 40 + e[1]) % WORD, [], 0);
    ArcEnds(e[0], [], 0);
  }

  lemma {:induction false} ArcSmall(v: nat)
    ensures v < 128 ==> Arc(v) == [v as byte]
  {
  }

  /** An identifier of up to 31 arcs decodes to itself if and only if it is portable; the decoder refuses
      the others or returns other arcs. */
  lemma {:induction false} OidRoundTrip(e: seq<nat>, stale: byte, rest: seq<byte>)
    requires Words(e) && |e| < MAX_OID_ELEMENTS && |OidBody(e)| < 256
    ensures DecodeOid(Oid(e, stale) + rest) == Got(e, |Oid(e, stale)|) <==> Portable(e)
  {
    hide DecodeOid;
    hide Arcs;
    hide OidBody;
    var body := OidBody(e);
    if body == [] || |body| > MAX_OID_ELEMENTS {
      OidRefused(e, stale, rest);
      if |e| >= 2 {
        BodyOfTwo(e);
      }
    } else {
      OidDecodes(body, rest);
      if Portable(e) {
        PortableDecodes(e, rest);
      } else {
        OthersDiffer(e, rest);
      }
    }
  }
}
