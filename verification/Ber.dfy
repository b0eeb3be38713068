/** The cursors and loops of asn1-ber.c over their buffers, proved against BerSpec. */
module Ber {
  import opened Octet
  import opened Bytes
  import opened Sequences
  import opened BerSpec
  import opened BlockHash

  /** How much of `x` fits into `buf` from `h` on. */
  function Room(buf: seq<byte>, h: nat, x: seq<byte>): nat
    requires h <= |buf|
  {
    if h + |x| <= |buf| then |x| else |buf| - h
  }

  /** `n` shifted down by `k` octets. */
  function Shift(n: nat, k: nat): nat {
    if k == 0 then n else Shift(n / 256, k - 1)
  }

  lemma {:induction false} ShiftNone(n: nat)
    ensures Shift(n, 0) == n
  {
  }

  lemma {:induction false} ShiftNext(n: nat, k: nat)
    requires k > 0
    ensures Shift(n, k) == Shift(n, k - 1) / 256
  {
    if k > 1 {
      ShiftNext(n / 256, k - 1);
    }
  }

  /** The high octets of a number begin its octets. */
  lemma {:induction false} BigPrefix(n: nat, k: nat, total: nat) returns (y: seq<byte>)
    requires k <= total
    ensures Big(n, total) == Big(Shift(n, k), total - k) + y
  {
    if k == 0 {
      y := [];
      EmptyUnit(Big(n, total));
    } else {
      var z := BigPrefix(n / 256, k - 1, total - 1);
      y := z + [(n % 256) as byte];
      Assoc(Big(Shift(n, k), total - k), z, [(n % 256) as byte]);
    }
  }

  lemma {:induction false} ZerosAreBig(n: nat)
    ensures Zeros(n) == Big(0, n)
  {
    if n > 0 {
      ZerosAreBig(n - 1);
      ZerosPush(n - 1);
    }
  }

  lemma {:induction false} OctetsAre(n: nat)
    requires 0 < n < WORD
    ensures Octets(n) == if n < 0x100 then 1 else if n < 0x1_0000 then 2 else if n < 0x100_0000 then 3 else 4
  {
    assert n / 256 / 256 == n / 0x1_0000;
    assert n / 256 / 256 / 256 == n / 0x100_0000;
    assert Octets(n / 256 / 256 / 256) == if n < 0x100_0000 then 0 else 1;
    assert Octets(n / 256 / 256) == if n < 0x1_0000 then 0 else 1 + Octets(n / 256 / 256 / 256);
  }

  /** A length in front of content that lies behind `reserved` octets at `o`; content is moved only down. */
  function Annotated(buf: seq<byte>, o: nat, reserved: nat, made: nat): seq<byte>
    requires o + reserved + made < |buf| && made < WORD
  {
    var len := Length(made);
    LengthSize(made);
    var s := Store(buf, o, len);
    if reserved > |len| then Moved(s, o + |len|, o + reserved, made) else s
  }

  lemma {:induction false} LengthSize(n: nat)
    requires n < WORD
    ensures 1 <= |Length(n)| <= 5 && |Length(n)| <= 1 + n
  {
    WordOctets(n);
  }

  /** When the reservation suffices, the octets are those of a direct encoding: the shortest length, then
      the content. */
  lemma {:induction false} AnnotatedIsDirect(buf: seq<byte>, o: nat, reserved: nat, content: seq<byte>)
    requires o + reserved + |content| < |buf| && |content| < WORD && |Length(|content|)| <= reserved
    requires buf[o + reserved..o + reserved + |content|] == content
    ensures var len := Length(|content|);
            var r := Annotated(buf, o, reserved, |content|);
            |r| == |buf| && r[..o + |len| + |content|] == buf[..o] + len + content
  {
    hide Length;
    var len := Length(|content|);
    var s := Store(buf, o, len);
    StoreIs(buf, o, len);
    if reserved > |len| {
      assert s[o + reserved..o + reserved + |content|] == content;
      assert s[..o + |len|] == buf[..o] + len;
    } else {
      assert s == buf[..o] + len + buf[o + |len|..];
    }
  }

  /** When it does not, the length runs over the first octets of the content, and the octets behind the
      content become part of it. */
  lemma {:induction false} AnnotatedOverruns(buf: seq<byte>, o: nat, reserved: nat, made: nat)
    requires o + reserved + made < |buf| && made < WORD && |Length(made)| > reserved
    requires o + |Length(made)| + made <= |buf|
    ensures var len := Length(made);
            var r := Annotated(buf, o, reserved, made);
            |r| == |buf| && r[..o + |len| + made] == buf[..o] + len + buf[o + |len|..o + |len| + made]
  {
    hide Length;
    StoreIs(buf, o, Length(made));
  }

  function Opt(c: bool, b: byte): seq<byte> {
    if c then [b] else []
  }

  function High(n: nat): seq<byte> {
    if n == 0 then [] else ArcHigh(n)
  }

  lemma {:induction false} HighStep(n: nat)
    ensures High(n) == High(n / 128) + Opt(n != 0, (128 + n % 128) as byte)
  {
    EmptyUnit(High(n / 128));
  }

  /** Groups of seven bits, the last one first; those before the first that is not zero are left out. */
  function Groups(a: byte, b: byte, c: byte, d: byte, e: byte): seq<byte> {
    Opt(e != 0, 128 + e) + Opt(d != 0 || e != 0, 128 + d) + Opt(c != 0 || d != 0 || e != 0, 128 + c) +
    Opt(b != 0 || c != 0 || d != 0 || e != 0, 128 + b) + [a]
  }

  function Group(n: nat): byte {
    (n % 128) as byte
  }

  lemma {:induction false} GroupIs(n: nat)
    ensures (Group(n) == 0 <==> n % 128 == 0) && (128 + n % 128) as byte == 128 + Group(n)
  {
    PlainOctet(n % 128);
    ByteOfNat(128 + n % 128);
    PlainBits((128 + n % 128) as byte);
    assert ((128 + n % 128) as byte - 128) as nat == n % 128;
  }

  /** The five groups of seven bits that the encoder looks at. */
  lemma {:induction false} ArcGroups(n: nat)
    requires n < WORD
    ensures var n1 := n / 128; var n2 := n1 / 128; var n3 := n2 / 128; var n4 := n3 / 128;
            Arc(n) == Groups(Group(n), Group(n1), Group(n2), Group(n3), Group(n4))
  {
    hide Opt;
    hide Groups;
    hide Group;
    hide High;
    hide ArcHigh;
    var n1 := n / 128;
    var n2 := n1 / 128;
    var n3 := n2 / 128;
    var n4 := n3 / 128;
    ArcIs(n);
    HighIs(n1);
    HighIs(n2);
    HighIs(n3);
    HighIs(n4);
    assert n4 / 128 == 0;
    FromGroups(Group(n), Group(n1), Group(n2), Group(n3), Group(n4), High(n1), High(n2), High(n3), High(n4),
               n1 != 0, n2 != 0, n3 != 0, n4 != 0);
  }

  lemma {:induction false} FromGroups(a: byte, b: byte, c: byte, d: byte, e: byte,
                                      h1: seq<byte>, h2: seq<byte>, h3: seq<byte>, h4: seq<byte>,
                                      b1: bool, b2: bool, b3: bool, b4: bool)
    requires h4 == Opt(b4, 128 + e) && (b4 <==> e != 0)
    requires h3 == h4 + Opt(b3, 128 + d) && (b3 <==> d != 0 || b4)
    requires h2 == h3 + Opt(b2, 128 + c) && (b2 <==> c != 0 || b3)
    requires h1 == h2 + Opt(b1, 128 + b) && (b1 <==> b != 0 || b2)
    ensures h1 + [a] == Groups(a, b, c, d, e)
  {
    hide Opt;
  }

  lemma {:induction false} ArcIs(n: nat)
    ensures Arc(n) == High(n / 128) + [Group(n)]
  {
    hide ArcHigh;
  }

  lemma {:induction false} HighIs(n: nat)
    ensures High(n) == High(n / 128) + Opt(n != 0, 128 + Group(n))
    ensures n / 128 == 0 ==> High(n) == Opt(n != 0, 128 + Group(n))
    ensures n != 0 <==> (Group(n) != 0 || n / 128 != 0)
  {
    HighStep(n);
    GroupIs(n);
    hide Opt;
    hide Group;
    hide ArcHigh;
    EmptyUnit(Opt(n != 0, 128 + Group(n)));
  }

  lemma {:induction false} Pieces(o: seq<byte>, a: seq<byte>, b: seq<byte>, c: seq<byte>, d: seq<byte>, e: seq<byte>)
    ensures o + a + (b + c + d + e) == o + (a + b + c + d + e)
    ensures o + a + b + (c + d + e) == o + (a + b + c + d + e)
    ensures o + a + b + c + (d + e) == o + (a + b + c + d + e)
    ensures o + a + b + c + d + e == o + (a + b + c + d + e)
  {
  }

  lemma {:induction false} NoArcs(e: seq<nat>)
    ensures Arcs(e[|e|..]) == []
  {
  }

  lemma {:induction false} ArcSize(n: nat)
    requires n < WORD
    ensures |Arc(n)| <= 5
  {
    ArcGroups(n);
    hide Arc;
  }

  lemma {:induction false} ArcsSize(e: seq<nat>)
    requires Words(e)
    ensures |Arcs(e)| <= 5 * |e|
  {
    hide Arc;
    if e != [] {
      ArcSize(e[0]);
      ArcsSize(e[1..]);
    }
  }

  lemma {:induction false} BodySize(e: seq<nat>)
    requires Words(e) && |e| < MAX_OID_ELEMENTS
    ensures |OidBody(e)| <= 155
  {
    hide Arc;
    hide Arcs;
    ArcsSize(e);
    if |e| > 1 && e[0] < 40 {
      WordsTail(e, 2);
      ArcsSize(e[2..]);
      ArcSize((e[0] * 40 + e[1]) % WORD);
    }
  }

  lemma {:induction false} OidParts(buf: seq<byte>, h: nat, body: seq<byte>)
    requires h + 2 + |body| < |buf|
    ensures var was, n := Store(buf, h, [OBJECT_ID, 0] + body), |body|;
            was[..h + 1] == buf[..h] + [OBJECT_ID] && was[h + 2..h + 2 + n] == body &&
            (n > 0 ==> was[h + 3..h + 3 + n] == body[1..] + [buf[h + 2 + n]])
  {
    var x := [OBJECT_ID, 0] + body;
    var was, n := Store(buf, h, x), |body|;
    StoreIs(buf, h, x);
    hide Store;
    assert forall k :: h <= k < h + |x| ==> was[k] == x[k - h];
  }

  /** What the length makes of the octets put down before it. */
  lemma {:induction false} OidAnnotated(buf: seq<byte>, h: nat, e: seq<nat>)
    requires |OidBody(e)| < 256 && h + 2 + |OidBody(e)| < |buf|
    ensures var n := |OidBody(e)|;
            var o := Oid(e, buf[h + 2 + n]);
            var r := Annotated(Store(buf, h, [OBJECT_ID, 0] + OidBody(e)), h + 1, 1, n);
            |o| == 1 + |Length(n)| + n && h + |o| <= |buf| == |r| && r[..h + |o|] == buf[..h] + o
  {
    hide OidBody;
    hide Annotated;
    hide Length;
    hide Store;
    var body := OidBody(e);
    var n := |body|;
    var was := Store(buf, h, [OBJECT_ID, 0] + body);
    OidParts(buf, h, body);
    ShortLengths(n);
    var len := Length(n);
    Assoc(buf[..h], [OBJECT_ID], len);
    if n < 128 {
      AnnotatedIsDirect(was, h + 1, 1, body);
      Assoc(buf[..h], [OBJECT_ID] + len, body);
    } else {
      AnnotatedOverruns(was, h + 1, 1, n);
      Assoc(buf[..h], [OBJECT_ID] + len, body[1..] + [buf[h + 2 + n]]);
    }
  }

  lemma {:induction false} ShortLengths(n: nat)
    requires n < 256
    ensures |Length(n)| == if n < 128 then 1 else 2
  {
    if n != 0 {
      OctetsAre(n);
    }
  }

  class Asn1BerContext {
    const src: seq<byte>
    var srcTail: nat
    const dst: array<byte>
    var dstHead: nat
    var lastError: Option<Error>

    ghost predicate Valid()
      reads this
    {
      srcTail <= |src|
    }

    ghost function Unread(): seq<byte>
      requires Valid()
      reads this
    {
      src[srcTail..]
    }

    constructor (src: seq<byte>, dst: array<byte>)
      ensures Valid() && this.src == src && this.dst == dst && srcTail == 0 && dstHead == 0 && lastError.None?
    {
      this.src, this.dst, srcTail, dstHead, lastError := src, dst, 0, 0, None;
    }

    // ---- reading -------------------------------------------------------------------------------------------

    method NextByte() returns (result: int, b: byte)
      requires Valid()
      modifies this`srcTail
      ensures Valid() && (result == 0 <==> old(srcTail) < |src|)
      ensures result == 0 ==> srcTail == old(srcTail) + 1 && b == src[old(srcTail)]
      ensures result != 0 ==> srcTail == old(srcTail)
    {
      b := 0;
      if srcTail >= |src| {
        return -1, b;
      }
      srcTail := srcTail + 1;
      b := src[srcTail - 1];
      result := 0;
    }

    /** The octets from `from` on have been read as `r` says. */
    ghost predicate Answers<T>(from: nat, r: Read<T>, before: Option<Error>, result: int)
      reads this
    {
      srcTail == from + r.used && (result == 0 <==> r.Got?) &&
      lastError == if r.Failed? && !r.error.Ended? then Some(r.error) else before
    }

    /** The loops that gather a number of up to four octets. */
    method ReadBig(count: nat) returns (result: int, val: nat)
      requires Valid() && count <= 4
      modifies this`srcTail
      ensures Valid() && (result == 0 <==> count <= |old(Unread())|)
      ensures result == 0 ==> srcTail == old(srcTail) + count && val == BigValue(old(Unread())[..count])
      ensures result != 0 ==> srcTail == |src|
    {
      ghost var s := Unread();
      val := 0;
      var left := count;
      while left > 0
        invariant 0 <= left <= count && srcTail == old(srcTail) + (count - left) <= |src|
        invariant val == BigValue(s[..count - left])
      {
        ghost var i := count - left;
        var b;
        result, b := NextByte();
        if result != 0 {
          return;
        }
        assert s[..i + 1][..i] == s[..i] && s[..i + 1][i] == b;
        SmallValue(s[..i]);
        val := (val * 256) % WORD + b as nat;
        left := left - 1;
      }
      result := 0;
    }

    method LengthFromBer() returns (result: int, len: nat)
      requires Valid()
      modifies this`srcTail, this`lastError
      ensures Valid() && Answers(old(srcTail), DecodeLength(old(Unread())), old(lastError), result)
      ensures result == 0 ==> len == DecodeLength(old(Unread())).value
    {
      hide BigValue;
      hide Marked;
      hide LowBits;
      ghost var s := Unread();
      len := 0;
      var b;
      result, b := NextByte();
      if result != 0 {
        return;
      }
      if Marked(b) {
        var vallen := LowBits(b);
        if vallen > 4 {
          lastError := Some(TooBig);
          return -1, len;
        }
        assert Unread() == s[1..];
        if |s| >= 1 + vallen {
          assert s[1..1 + vallen] == s[1..][..vallen];
        }
        result, len := ReadBig(vallen);
      } else {
        len := b as nat;
      }
    }

    method Uint32FromBer() returns (result: int, val: nat)
      requires Valid()
      modifies this`srcTail, this`lastError
      ensures Valid() && Answers(old(srcTail), DecodeUint32(old(Unread())), old(lastError), result)
      ensures result == 0 ==> val == DecodeUint32(old(Unread())).value
    {
      hide BigValue;
      hide Unsigned;
      ghost var s := Unread();
      val := 0;
      var b;
      result, b := NextByte();
      if result != 0 {
        return;
      }
      if !Unsigned(b) {
        lastError := Some(WrongType);
        return -1, val;
      }
      result, b := NextByte();
      if result != 0 {
        return;
      }
      var vallen := b as nat;
      if vallen > 4 {
        lastError := Some(TooBig);
        return -1, val;
      }
      if vallen == 0 {
        lastError := Some(TooBig);
        return -1, val;
      }
      assert Unread() == s[2..];
      if |s| >= 2 + vallen {
        assert s[2..2 + vallen] == s[2..][..vallen];
      }
      result, val := ReadBig(vallen);
    }

    /** The octets go to `val`, which a zero closes if there is room. */
    method BytesFromBer(val: array<byte>, maxLen: nat) returns (result: int, lenOut: nat)
      requires Valid() && maxLen <= val.Length && 0 < val.Length
      modifies this`srcTail, this`lastError, val
      ensures Valid() && Answers(old(srcTail), DecodeOctets(old(Unread()), maxLen), old(lastError), result)
      ensures result == 0 ==> lenOut <= maxLen && val[..lenOut] == DecodeOctets(old(Unread()), maxLen).value
      ensures result == 0 && (lenOut < maxLen || lenOut == 0) ==> val[lenOut] == 0
    {
      hide DecodeLength;
      ghost var s := Unread();
      lenOut := 0;
      var b;
      result, b := NextByte();
      if result != 0 {
        return;
      }
      if b != OCTET_STRING {
        lastError := Some(WrongType);
        return -1, lenOut;
      }
      assert Unread() == s[1..];
      var vallen;
      result, vallen := LengthFromBer();
      if result != 0 {
        return;
      }
      if vallen > maxLen {
        lastError := Some(TooBig);
        return -1, lenOut;
      }
      if vallen == 0 {
        val[0] := 0;
        assert val[..0] == [];
        return;
      }
      ghost var from, used := srcTail, DecodeLength(s[1..]).used;
      var i: nat, n := 0, vallen;
      while vallen > 0
        invariant 0 <= vallen && i + vallen == n <= maxLen && from + i == srcTail <= |src|
        invariant val[..i] == src[from..from + i] && lastError == old(lastError)
      {
        result, b := NextByte();
        if result != 0 {
          assert |s| < 1 + used + n;
          return;
        }
        val[i] := b;
        i := i + 1;
        vallen := vallen - 1;
      }
      assert s[1 + used..1 + used + n] == src[from..from + n];
      if i < maxLen {
        val[i] := 0;
      }
      lenOut := i;
      result := 0;
      assert DecodeOctets(s, maxLen) == Got(src[from..from + n], 1 + used + n);
    }

    /** The arcs that follow the first two. */
    method ArcsFromBer(count: nat, first: seq<nat>) returns (result: int, e: seq<nat>)
      requires Valid() && |first| == 2
      modifies this`srcTail, this`lastError
      ensures Valid() && Answers(old(srcTail), DecodeArcs(old(Unread()), count, first), old(lastError), result)
      ensures result == 0 ==> e == DecodeArcs(old(Unread()), count, first).value
    {
      hide DecodeArc;
      ghost var s, from := Unread(), srcTail;
      e := first;
      var vallen := count;
      while vallen > 0 && |e| < MAX_OID_ELEMENTS
        invariant 0 <= vallen <= count && from + (count - vallen) == srcTail <= |src|
        invariant DecodeArcs(s, count, first) == Later(DecodeArcs(Unread(), vallen, e), count - vallen)
        invariant |e| <= MAX_OID_ELEMENTS && lastError == old(lastError)
      {
        ghost var rest, left, so := Unread(), vallen, e;
        ArcUsed(rest, left, 0);
        var value;
        result, value, vallen := ArcFromBer(vallen);
        if result != 0 {
          return;
        }
        e := e + [value];
        ghost var used := left - vallen;
        assert Unread() == rest[used..];
        LaterTwice(DecodeArcs(Unread(), vallen, e), used, count - left);
      }
      if vallen != 0 {
        lastError := Some(TooBig);
        return -1, e;
      }
      result := 0;
    }

    /** One arc: octets up to one without the mark, or up to the end of the body. */
    method ArcFromBer(count: nat) returns (result: int, oval: nat, vallen: nat)
      requires Valid() && count > 0
      modifies this`srcTail
      ensures Valid() && (result == 0 <==> DecodeArc(old(Unread()), count, 0).Got?)
      ensures srcTail == old(srcTail) + DecodeArc(old(Unread()), count, 0).used
      ensures DecodeArc(old(Unread()), count, 0).Failed? ==> DecodeArc(old(Unread()), count, 0).error.Ended?
      ensures result == 0 ==> oval == DecodeArc(old(Unread()), count, 0).value
      ensures result == 0 ==> vallen == count - DecodeArc(old(Unread()), count, 0).used
    {
      hide Marked;
      hide LowBits;
      hide DecodeArc;
      ghost var s, from := Unread(), srcTail;
      var b;
      oval, vallen := 0, count;
      ArcUnrolled(s, count, 0);
      result, b := NextByte();
      if result != 0 {
        return;
      }
      oval := LowBits(b);
      vallen := vallen - 1;
      assert Unread() == s[1..];
      while Marked(b) && vallen > 0
        invariant 0 <= vallen < count && from + (count - vallen) == srcTail <= |src|
        invariant DecodeArc(s, count, 0) ==
                  if Marked(b) then Later(DecodeArc(Unread(), vallen, oval), count - vallen) else Got(oval, count - vallen)
      {
        ghost var rest := Unread();
        ArcUnrolled(rest, vallen, oval);
        result, b := NextByte();
        if result != 0 {
          return;
        }
        oval := (oval * 128) % WORD + LowBits(b);
        vallen := vallen - 1;
        assert Unread() == rest[1..];
        LaterTwice(DecodeArc(Unread(), vallen, oval), 1, count - vallen - 1);
      }
      if vallen == 0 {
        ArcUnrolled(Unread(), 0, oval);
      }
      result := 0;
    }

    method OidFromBer() returns (result: int, oid: seq<nat>)
      requires Valid()
      modifies this`srcTail, this`lastError
      ensures Valid() && Answers(old(srcTail), DecodeOid(old(Unread())), old(lastError), result)
      ensures oid == if result == 0 then DecodeOid(old(Unread())).value else []
    {
      hide DecodeLength;
      hide DecodeArcs;
      ghost var s := Unread();
      oid := [];
      var b;
      result, b := NextByte();
      if result != 0 {
        return;
      }
      if b != OBJECT_ID {
        lastError := Some(WrongType);
        return -1, oid;
      }
      assert Unread() == s[1..];
      var vallen;
      result, vallen := LengthFromBer();
      if result != 0 {
        return;
      }
      if vallen > MAX_OID_ELEMENTS {
        lastError := Some(TooBig);
        return -1, oid;
      }
      if vallen == 0 {
        lastError := Some(TooBig);
        return -1, oid;
      }
      ghost var used := DecodeLength(s[1..]).used;
      result, b := NextByte();
      if result != 0 {
        return;
      }
      assert Unread() == s[1 + used + 1..];
      var oval := b as nat;
      var e;
      result, e := ArcsFromBer(vallen - 1, [oval / 40, oval - oval / 40 * 40]);
      assert oval - oval / 40 * 40 == oval % 40;
      if result == 0 {
        oid := e;
      }
    }

    // ---- writing -------------------------------------------------------------------------------------------

    /** `x` has been put into `buf` from `h` on, as far as there is room. */
    ghost predicate Wrote(buf: seq<byte>, h: nat, x: seq<byte>, result: int)
      reads this, dst
    {
      h <= |buf| == dst.Length && dstHead == h + Room(buf, h, x) && (result == 0 <==> h + |x| <= |buf|) &&
      dst[..] == Store(buf, h, x[..Room(buf, h, x)])
    }

    /** One octet behind `done`. */
    method OutByte(inb: byte, ghost buf: seq<byte>, ghost h: nat, ghost done: seq<byte>) returns (result: int)
      requires Wrote(buf, h, done, 0)
      modifies this`dstHead, dst
      ensures Wrote(buf, h, done + [inb], result)
    {
      if dstHead >= dst.Length {
        assert (done + [inb])[..|done|] == done[..|done|];
        return -1;
      }
      StoreJoin(buf, h, done, [inb]);
      assert done[..|done|] == done && (done + [inb])[..|done| + 1] == done + [inb];
      assert Store(dst[..], dstHead, [inb]) == dst[..][dstHead := inb];
      dst[dstHead] := inb;
      dstHead := dstHead + 1;
      result := 0;
    }

    /** Nothing has been put there yet. */
    lemma {:induction false} WroteNothing()
      requires dstHead <= dst.Length
      ensures Wrote(dst[..], dstHead, [], 0)
    {
    }

    lemma {:induction false} WroteHead(buf: seq<byte>, h: nat, x: seq<byte>)
      requires Wrote(buf, h, x, 0)
      ensures dstHead == h + |x| <= dst.Length
    {
    }

    /** What has failed to fit would not fit with more behind it. */
    lemma {:induction false} WroteMore(buf: seq<byte>, h: nat, x: seq<byte>, y: seq<byte>, result: int)
      requires Wrote(buf, h, x, result) && result != 0
      ensures Wrote(buf, h, x + y, result)
    {
      assert (x + y)[..Room(buf, h, x)] == x[..Room(buf, h, x)];
    }

    /** The loops that put the `total` low octets of a number, the most significant first. */
    method OutBig(n: nat, total: nat, ghost buf: seq<byte>, ghost h: nat, ghost done: seq<byte>) returns (result: int)
      requires Wrote(buf, h, done, 0)
      modifies this`dstHead, dst
      ensures Wrote(buf, h, done + Big(n, total), result)
    {
      hide Wrote;
      hide Shift;
      var k := total;
      EmptyUnit(done);
      result := 0;
      while k > 0
        invariant 0 <= k <= total && Wrote(buf, h, done + Big(Shift(n, k), total - k), 0)
      {
        ghost var x := Big(Shift(n, k), total - k);
        ShiftNext(n, k);
        var b := (Shift(n, k - 1) % 256) as byte;
        Assoc(done, x, [b]);
        assert Big(Shift(n, k - 1), total - k + 1) == x + [b];
        result := OutByte(b, buf, h, done + x);
        if result != 0 {
          ghost var y := BigPrefix(n, k - 1, total);
          WroteMore(buf, h, done + (x + [b]), y, result);
          Assoc(done, x + [b], y);
          return;
        }
        k := k - 1;
      }
      ShiftNone(n);
    }

    method BerFromLength(n: nat, ghost buf: seq<byte>, ghost h: nat, ghost done: seq<byte>) returns (result: int, lenOut: nat)
      requires Wrote(buf, h, done, 0) && n < WORD
      modifies this`dstHead, dst
      ensures Wrote(buf, h, done + Length(n), result)
      ensures result == 0 ==> lenOut == |Length(n)|
    {
      hide Wrote;
      lenOut := 0;
      if n < 128 {
        result := OutByte(n as byte, buf, h, done);
        if result != 0 {
          return;
        }
        lenOut := lenOut + 1;
      } else {
        WordOctets(n);
        var needed, lenBytes := 0, n;
        while lenBytes != 0
          invariant 0 <= needed && Octets(n) == needed + Octets(lenBytes)
        {
          lenBytes := lenBytes / 256;
          needed := needed + 1;
        }
        var mark := (128 + needed) as byte;
        result := OutByte(mark, buf, h, done);
        Assoc(done, [mark], Big(n, needed));
        if result != 0 {
          WroteMore(buf, h, done + [mark], Big(n, needed), result);
          return;
        }
        result := OutBig(n, needed, buf, h, done + [mark]);
        lenOut := 1 + needed;
      }
    }

    method ReserveLength(n: nat, ghost buf: seq<byte>, ghost h: nat, ghost done: seq<byte>) returns (result: int)
      requires Wrote(buf, h, done, 0)
      modifies this`dstHead, dst
      ensures Wrote(buf, h, done + Zeros(n), result)
    {
      hide Wrote;
      var left := n;
      EmptyUnit(done);
      result := 0;
      while left > 0
        invariant 0 <= left <= n && Wrote(buf, h, done + Zeros(n - left), 0)
      {
        ghost var x := Zeros(n - left);
        left := left - 1;
        ZerosPush(n - left - 1);
        Assoc(done, x, [0]);
        result := OutByte(0, buf, h, done + x);
        if result != 0 {
          ZerosSum(n - left, left);
          WroteMore(buf, h, done + Zeros(n - left), Zeros(left), result);
          Assoc(done, Zeros(n - left), Zeros(left));
          return;
        }
      }
    }

    method BerFromTypeLen(t: byte, n: nat, ghost buf: seq<byte>, ghost h: nat, ghost done: seq<byte>) returns (result: int, lenOut: nat)
      requires Wrote(buf, h, done, 0) && n < WORD
      modifies this`dstHead, dst
      ensures Wrote(buf, h, done + ([t] + Length(n)), result)
      ensures result == 0 ==> lenOut == 1 + |Length(n)|
    {
      hide Wrote;
      hide Length;
      lenOut := 0;
      Assoc(done, [t], Length(n));
      result := OutByte(t, buf, h, done);
      if result != 0 {
        WroteMore(buf, h, done + [t], Length(n), result);
        return;
      }
      var outLen;
      result, outLen := BerFromLength(n, buf, h, done + [t]);
      lenOut := outLen + 1;
    }

    method BerFromUint32(t: byte, val: nat, ghost buf: seq<byte>, ghost h: nat, ghost done: seq<byte>) returns (result: int)
      requires Wrote(buf, h, done, 0) && val < WORD
      modifies this`dstHead, dst
      ensures Wrote(buf, h, done + Uint32(t, val), result)
    {
      hide Wrote;
      var needed := OctetsNeeded(val);
      BodyLength(val);
      assert Body(val) == Big(val, needed) by { ZerosAreBig(4); }
      hide Body;
      hide Length;
      ghost var head, body := [t] + Length(needed), Body(val);
      Assoc(done, head, body);
      var outLen;
      result, outLen := BerFromTypeLen(t, needed, buf, h, done);
      if result != 0 {
        WroteMore(buf, h, done + head, body, result);
        return;
      }
      result := OutBig(val, needed, buf, h, done + head);
    }

    /** The loop that shifts the number up until its first octet is not zero. */
    method OctetsNeeded(val: nat) returns (needed: nat)
      requires val < WORD
      ensures needed == if val == 0 then 4 else Octets(val)
    {
      needed := 4;
      var bytes := val;
      while bytes != 0
        invariant needed == 4 ==> bytes == val
        invariant needed == 3 ==> bytes == val * 0x100 < WORD
        invariant needed == 2 ==> bytes == val * 0x1_0000 < WORD
        invariant needed == 1 ==> bytes == val * 0x100_0000 < WORD
        invariant 1 <= needed <= 4 && (val == 0 ==> needed == 4)
        decreases needed
      {
        if bytes / 0x100_0000 % 256 != 0 {
          break;
        }
        bytes := bytes * 256 % WORD;
        needed := needed - 1;
      }
      if val != 0 {
        OctetsAre(val);
      }
    }

    method BerFromBytes(t: byte, val: seq<byte>, ghost buf: seq<byte>, ghost h: nat, ghost done: seq<byte>) returns (result: int)
      requires Wrote(buf, h, done, 0) && |val| < WORD
      modifies this`dstHead, dst
      ensures Wrote(buf, h, done + OctetString(t, val), result)
    {
      hide Wrote;
      hide Length;
      ghost var head := [t] + Length(|val|);
      Assoc(done, head, val);
      var outLen;
      result, outLen := BerFromTypeLen(t, |val|, buf, h, done);
      if result != 0 {
        WroteMore(buf, h, done + head, val, result);
        return;
      }
      var i := 0;
      EmptyUnit(done + head);
      while i < |val|
        invariant 0 <= i <= |val| && result == 0 && Wrote(buf, h, done + head + val[..i], 0)
      {
        Assoc(done + head, val[..i], [val[i]]);
        assert val[..i] + [val[i]] == val[..i + 1];
        result := OutByte(val[i], buf, h, done + head + val[..i]);
        if result != 0 {
          WroteMore(buf, h, done + head + val[..i + 1], val[i + 1..], result);
          Assoc(done + head, val[..i + 1], val[i + 1..]);
          assert val[..i + 1] + val[i + 1..] == val;
          return;
        }
        i := i + 1;
      }
      assert val[..i] == val;
    }

    method SaveOutState() returns (result: int, outPos: nat)
      ensures result == (if dstHead >= dst.Length then -1 else 0)
      ensures result == 0 ==> outPos == dstHead
    {
      outPos := 0;
      if dstHead >= dst.Length {
        return -1, outPos;
      }
      outPos := dstHead;
      result := 0;
    }

    /** The length of what lies behind the reservation; nothing is done when the buffer is full. */
    method AnnotateLength(outPos: nat, reserved: nat) returns (result: int)
      requires outPos + reserved <= dstHead <= dst.Length && dstHead - outPos - reserved < WORD
      modifies this`dstHead, dst
      ensures old(dstHead) == dst.Length ==> result == -1 && dstHead == old(dstHead) && dst[..] == old(dst[..])
      ensures old(dstHead) < dst.Length ==>
                var made := old(dstHead) - outPos - reserved;
                result == 0 && dstHead == outPos + |Length(made)| + made &&
                dst[..] == Annotated(old(dst[..]), outPos, reserved, made)
    {
      hide Length;
      if dstHead >= dst.Length {
        return -1;
      }
      ghost var buf := dst[..];
      var bytesMade := dstHead - outPos;
      bytesMade := bytesMade - reserved;
      dstHead := outPos;
      var lenBytes;
      LengthSize(bytesMade);
      WroteNothing();
      EmptyUnit(Length(bytesMade));
      result, lenBytes := BerFromLength(bytesMade, buf, outPos, []);
      ghost var len := Length(bytesMade);
      assert len[..|len|] == len;
      if reserved > lenBytes {
        Memmove(dst, dstHead, outPos + reserved, bytesMade);
      }
      dstHead := dstHead + bytesMade;
    }

    method OutIf(c: bool, inb: byte, ghost buf: seq<byte>, ghost h: nat, ghost done: seq<byte>) returns (result: int)
      requires Wrote(buf, h, done, 0)
      modifies this`dstHead, dst
      ensures Wrote(buf, h, done + Opt(c, inb), result)
    {
      hide Wrote;
      EmptyUnit(done);
      if c {
        result := OutByte(inb, buf, h, done);
        if result != 0 {
          return;
        }
      }
      result := 0;
    }

    /** The five groups, without those that begin with zeros. */
    method OutGroups(a: byte, b: byte, c: byte, d: byte, e: byte, ghost buf: seq<byte>, ghost h: nat, ghost done: seq<byte>)
      returns (result: int)
      requires Wrote(buf, h, done, 0)
      modifies this`dstHead, dst
      ensures Wrote(buf, h, done + Groups(a, b, c, d, e), result)
    {
      hide Wrote;
      hide Opt;
      ghost var p4, p3 := Opt(e != 0, 128 + e), Opt(d != 0 || e != 0, 128 + d);
      ghost var p2, p1 := Opt(c != 0 || d != 0 || e != 0, 128 + c), Opt(b != 0 || c != 0 || d != 0 || e != 0, 128 + b);
      Pieces(done, p4, p3, p2, p1, [a]);
      result := OutIf(e != 0, 128 + e, buf, h, done);
      if result != 0 {
        WroteMore(buf, h, done + p4, p3 + p2 + p1 + [a], result);
        return;
      }
      result := OutIf(d != 0 || e != 0, 128 + d, buf, h, done + p4);
      if result != 0 {
        WroteMore(buf, h, done + p4 + p3, p2 + p1 + [a], result);
        return;
      }
      result := OutIf(c != 0 || d != 0 || e != 0, 128 + c, buf, h, done + p4 + p3);
      if result != 0 {
        WroteMore(buf, h, done + p4 + p3 + p2, p1 + [a], result);
        return;
      }
      result := OutIf(b != 0 || c != 0 || d != 0 || e != 0, 128 + b, buf, h, done + p4 + p3 + p2);
      if result != 0 {
        WroteMore(buf, h, done + p4 + p3 + p2 + p1, [a], result);
        return;
      }
      result := OutByte(a, buf, h, done + p4 + p3 + p2 + p1);
    }

    method BerFromSingleOid(oidb: nat, ghost buf: seq<byte>, ghost h: nat, ghost done: seq<byte>) returns (result: int)
      requires Wrote(buf, h, done, 0) && oidb < WORD
      modifies this`dstHead, dst
      ensures Wrote(buf, h, done + Arc(oidb), result)
    {
      hide Wrote;
      hide Arc;
      hide Groups;
      var rest := oidb;
      var a := Group(rest);
      rest := rest / 128;
      var b := Group(rest);
      rest := rest / 128;
      var c := Group(rest);
      rest := rest / 128;
      var d := Group(rest);
      rest := rest / 128;
      var e := Group(rest);
      ArcGroups(oidb);
      result := OutGroups(a, b, c, d, e, buf, h, done);
    }

    /** The loop over the arcs from `from` on. */
    method ArcsOut(e: seq<nat>, from: nat, ghost buf: seq<byte>, ghost h: nat, ghost done: seq<byte>) returns (result: int)
      requires Wrote(buf, h, done, 0) && Words(e) && from <= |e|
      modifies this`dstHead, dst
      ensures Wrote(buf, h, done + Arcs(e[from..]), result)
    {
      hide Wrote;
      hide Arc;
      hide Arcs;
      result := 0;
      var i := from;
      ghost var x: seq<byte> := [];
      EmptyUnit(done);
      EmptyUnit(Arcs(e[from..]));
      while i < |e|
        invariant from <= i <= |e| && result == 0 && Wrote(buf, h, done + x, 0)
        invariant Arcs(e[from..]) == x + Arcs(e[i..])
      {
        WordsTail(e, i);
        SplitAt(e, i);
        TailOfDrop(e, i);
        ArcsIs(e[i..]);
        ghost var y, rest := Arc(e[i]), Arcs(e[i + 1..]);
        Assoc(x, y, rest);
        Assoc(done, x, y);
        result := BerFromSingleOid(e[i], buf, h, done + x);
        x := x + y;
        i := i + 1;
        if result != 0 {
          WroteMore(buf, h, done + x, rest, result);
          Assoc(done, x, rest);
          return;
        }
      }
      NoArcs(e);
      EmptyUnit(x);
    }

    /** The whole identifier is in the buffer, or the buffer is full; one octet of room stays unused. */
    ghost predicate WroteOid(buf: seq<byte>, h: nat, e: seq<nat>, result: int)
      requires |OidBody(e)| < 256
      reads this, dst
    {
      var x := [OBJECT_ID, 0] + OidBody(e);
      h <= |buf| == dst.Length && (result == 0 <==> h + |x| < |buf|) &&
      if result == 0 then
        var o := Oid(e, buf[h + |x|]);
        dstHead == h + |o| <= dst.Length && dst[..dstHead] == buf[..h] + o
      else
        dstHead == |buf| && dst[..] == Store(buf, h, x[..Room(buf, h, x)])
    }

    /** Type, a reserved length octet, the arcs, and then the length; no more than 31 arcs. */
    method BerFromOid(oid: seq<nat>) returns (result: int)
      requires Words(oid) && dstHead <= dst.Length
      modifies this`dstHead, this`lastError, dst
      ensures |oid| >= MAX_OID_ELEMENTS ==>
                result == 1 && lastError == Some(TooBig) && dstHead == old(dstHead) && dst[..] == old(dst[..])
      ensures |oid| < MAX_OID_ELEMENTS ==>
                |OidBody(oid)| < 256 && WroteOid(old(dst[..]), old(dstHead), oid, result) && lastError == old(lastError)
    {
      hide OidBody;
      if |oid| >= MAX_OID_ELEMENTS {
        lastError := Some(TooBig);
        return 1;
      }
      BodySize(oid);
      result := OidOutAndLength(oid);
    }

    method OidOutAndLength(oid: seq<nat>) returns (result: int)
      requires Words(oid) && dstHead <= dst.Length && |OidBody(oid)| <= 155
      modifies this`dstHead, dst
      ensures WroteOid(old(dst[..]), old(dstHead), oid, result)
    {
      hide OidBody;
      hide Oid;
      hide Annotated;
      hide Length;
      ghost var buf, h, body := dst[..], dstHead, OidBody(oid);
      ghost var x := [OBJECT_ID, 0] + body;
      WroteNothing();
      var lenPos;
      result, lenPos := OidOut(oid, buf, h);
      assert x[..|x|] == x;
      if result != 0 {
        return;
      }
      result := AnnotateLength(lenPos, 1);
      if result == 0 {
        OidAnnotated(buf, h, oid);
      }
    }

    /** Everything but the length. */
    method OidOut(oid: seq<nat>, ghost buf: seq<byte>, ghost h: nat) returns (result: int, lenPos: nat)
      requires Words(oid) && Wrote(buf, h, [], 0)
      modifies this`dstHead, dst
      ensures result == 0 ==> lenPos == h + 1
      ensures Wrote(buf, h, [OBJECT_ID, 0] + OidBody(oid), result)
    {
      hide Wrote;
      hide Arc;
      hide Arcs;
      ghost var head: seq<byte> := [OBJECT_ID, 0];
      ghost var body := OidBody(oid);
      assert [] + [OBJECT_ID] == [OBJECT_ID] && [OBJECT_ID] + Zeros(1) == head && [OBJECT_ID] + [0] == head;
      lenPos := 0;
      result := OutByte(OBJECT_ID, buf, h, []);
      if result != 0 {
        WroteMore(buf, h, [OBJECT_ID], [0] + body, result);
        Assoc([OBJECT_ID], [0], body);
        return;
      }
      WroteHead(buf, h, [OBJECT_ID]);
      var saved;
      saved, lenPos := SaveOutState();
      result := ReserveLength(1, buf, h, [OBJECT_ID]);
      if result != 0 {
        WroteMore(buf, h, head, body, result);
        return;
      }
      WroteHead(buf, h, head);
      var from := 0;
      ghost var first: seq<byte> := [];
      EmptyUnit(head);
      if |oid| > 1 && oid[0] < 40 {
        from := 2;
        first := Arc((oid[0] * 40 + oid[1]) % WORD);
        result := BerFromSingleOid((oid[0] * 40 + oid[1]) % WORD, buf, h, head);
        if result != 0 {
          WroteMore(buf, h, head + first, Arcs(oid[2..]), result);
          Assoc(head, first, Arcs(oid[2..]));
          return;
        }
      }
      EmptyUnit(body);
      assert oid[0..] == oid;
      assert body == first + Arcs(oid[from..]);
      Assoc(head, first, Arcs(oid[from..]));
      result := ArcsOut(oid, from, buf, h, head + first);
    }
  }
}
