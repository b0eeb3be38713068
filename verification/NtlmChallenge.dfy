/** The CHALLENGE message: its list of attribute-value pairs, and how the client rewrites it. */
module NtlmChallenge {
  import opened Octet
  import opened Bytes
  import opened Sequences
  import opened NtlmSpec

  // ---- section 2.2.2.1 of MS-NLMP: AV_PAIR ------------------------------------------------------------

  datatype AvPair = AvPair(id: nat, value: seq<byte>)

  const MSV_AV_TARGET_NAME: nat := 9

  function PairOctets(p: AvPair): (r: seq<byte>)
    ensures |r| == 4 + |p.value|
  {
    Little(p.id, 2) + Little(|p.value|, 2) + p.value
  }

  function AvOctets(l: seq<AvPair>): seq<byte> {
    if l == [] then [] else PairOctets(l[0]) + AvOctets(l[1..])
  }

  /** MsvAvEOL. */
  const EOL: seq<byte> := [0, 0, 0, 0]

  function AvList(l: seq<AvPair>): seq<byte> {
    AvOctets(l) + EOL
  }

  predicate PairOk(p: AvPair) {
    0 < p.id < SHORT && |p.value| < SHORT
  }

  predicate AvOk(l: seq<AvPair>) {
    l == [] || (PairOk(l[0]) && AvOk(l[1..]))
  }

  /** The pairs of a list that ends, exactly, in MsvAvEOL. */
  function ParseAv(b: seq<byte>): Option<seq<AvPair>>
    decreases |b|
  {
    if |b| < 4 then None
    else
      var id, n := LittleValue(b[..2]), LittleValue(b[2..4]);
      if id == 0 then (if n == 0 && |b| == 4 then Some([]) else None)
      else if 4 + n > |b| then None
      else
        var rest :- ParseAv(b[4 + n..]);
        Some([AvPair(id, b[4..4 + n])] + rest)
  }

  lemma {:induction false} ShortReads(n: nat)
    requires n < SHORT
    ensures LittleValue(Little(n, 2)) == n
  {
    FitsInBounds(n);
    LittleInverts(n, 2);
  }

  /** The parts of a list that starts with a pair. */
  lemma {:induction false} PairParts(p: AvPair, rest: seq<byte>)
    ensures var b := PairOctets(p) + rest;
            && b[..2] == Little(p.id, 2) && b[2..4] == Little(|p.value|, 2)
            && b[4..4 + |p.value|] == p.value && b[4 + |p.value|..] == rest
  {
    hide Little;
  }

  /** Two octets hold a number modulo 2^16. */
  lemma {:induction false} LowTwo(n: nat)
    ensures LittleValue(Little(n, 2)) == n % SHORT
  {
    hide LittleValue;
    LowOctets(n);
    assert Little(n / 256, 1) == Little(n % SHORT / 256, 1) by {
      assert Little(n / 256 / 256, 0) == Little(n % SHORT / 256 / 256, 0) == [];
    }
    ShortReads(n % SHORT);
  }

  lemma {:induction false} LowOctets(n: nat)
    ensures n % 256 == n % SHORT % 256 && n / 256 % 256 == n % SHORT / 256 % 256
  {
  }

  lemma {:induction false} EolReads()
    ensures LittleValue(EOL[..2]) == 0 && LittleValue(EOL[2..4]) == 0
  {
    ShortReads(0);
    assert Little(0, 2) == [0, 0] by {
      LittleOfTwo(0);
    }
    assert EOL[..2] == [0, 0] && EOL[2..4] == [0, 0];
  }

  lemma {:induction false} ParseInverts(l: seq<AvPair>)
    requires AvOk(l)
    ensures ParseAv(AvList(l)) == Some(l)
    decreases |l|
  {
    hide Little;
    hide LittleValue;
    hide PairOctets;
    if l == [] {
      EmptyUnit(EOL);
      EolReads();
    } else {
      var p, rest := l[0], AvList(l[1..]);
      Assoc(PairOctets(p), AvOctets(l[1..]), EOL);
      PairParts(p, rest);
      ShortReads(p.id);
      ShortReads(|p.value|);
      ParseInverts(l[1..]);
      assert l == [p] + l[1..];
    }
  }

  lemma {:induction false} AvJoin(a: seq<AvPair>, b: seq<AvPair>)
    ensures AvOctets(a + b) == AvOctets(a) + AvOctets(b)
  {
    if a == [] {
      EmptyUnit(b);
      EmptyUnit(AvOctets(b));
    } else {
      TailOfJoined(a, b);
      AvJoin(a[1..], b);
      Assoc(PairOctets(a[0]), AvOctets(a[1..]), AvOctets(b));
    }
  }

  lemma {:induction false} AvPush(a: seq<AvPair>, p: AvPair)
    ensures AvOctets(a + [p]) == AvOctets(a) + PairOctets(p)
  {
    AvJoin(a, [p]);
    EmptyUnit(PairOctets(p));
    assert [p][1..] == [];
  }

  lemma {:induction false} AvOkPush(a: seq<AvPair>, p: AvPair)
    requires AvOk(a) && PairOk(p)
    ensures AvOk(a + [p])
  {
    if a == [] {
      assert ([] + [p])[1..] == [];
    } else {
      TailOfJoined(a, [p]);
      AvOkPush(a[1..], p);
    }
  }

  lemma {:induction false} AvOkAt(l: seq<AvPair>, k: nat)
    requires AvOk(l) && k < |l|
    ensures PairOk(l[k])
  {
    if k > 0 {
      AvOkAt(l[1..], k - 1);
    }
  }

  // ---- the message ------------------------------------------------------------------------------------

  const CHALLENGE_HEADER: nat := 56

  function GetLength(b: seq<byte>, o: nat): nat
    requires o + 2 <= |b|
  {
    LittleValue(b[o..o + 2])
  }

  function GetOffset(b: seq<byte>, o: nat): nat
    requires o + 4 <= |b|
  {
    LittleValue(b[o..o + 4])
  }

  /** `b` is a challenge with the target name `name` and the target information `pairs`. Both lie behind
      the header and apart from each other. */
  ghost predicate IsChallenge(b: seq<byte>, name: seq<byte>, pairs: seq<AvPair>) {
    && |b| >= CHALLENGE_HEADER + |name| + |AvList(pairs)| && AvOk(pairs) && |b| < LONG
    && GetLength(b, 12) == |name|
    && (name != [] ==> HasPart(b, GetOffset(b, 16), name))
    && GetLength(b, 40) == |AvList(pairs)| && HasPart(b, GetOffset(b, 44), AvList(pairs))
  }

  predicate HasPart(b: seq<byte>, o: nat, part: seq<byte>) {
    CHALLENGE_HEADER <= o && o + |part| <= |b| && b[o..o + |part|] == part
  }

  /** "cifs/" and the server's name. */
  function Spn(server: Text): Text {
    [99, 105, 102, 115, 47] + server
  }

  /** As many octets as the sixteen bits of an attribute's length say. */
  function Clipped(value: seq<byte>): (r: seq<byte>)
    ensures |r| == |value| % SHORT
  {
    value[..|value| % SHORT]
  }

  function TargetName(server: Text): AvPair {
    AvPair(MSV_AV_TARGET_NAME, Clipped(LittleOctets(Spn(server))))
  }

  /** How much larger the client's buffer is than the challenge. */
  const EXTRA: nat := 400

  /** The rewritten challenge stays in the client's buffer. The program does not check it: when it does not
      hold, the name of the target is written past the end. */
  predicate InBounds(b: seq<byte>, name: seq<byte>, pairs: seq<AvPair>, server: Text)
    requires |b| >= CHALLENGE_HEADER
  {
    |Rewritten(b, name, pairs, server)| <= |b| + EXTRA
  }

  /** The header with the places of the two parts written in. */
  function NewHeader(b: seq<byte>, nameLength: nat, infoLength: nat): (r: seq<byte>)
    requires |b| >= CHALLENGE_HEADER
    ensures |r| == CHALLENGE_HEADER
  {
    b[..16] + Little(CHALLENGE_HEADER, 4) + b[20..40] + Little(infoLength, 2) + Little(infoLength, 2) +
    Little(CHALLENGE_HEADER + nameLength, 4) + b[48..CHALLENGE_HEADER]
  }

  /** What the client keeps of a challenge: the parts one after the other, and the pairs with the name
      of the target added behind them. */
  function Rewritten(b: seq<byte>, name: seq<byte>, pairs: seq<AvPair>, server: Text): seq<byte>
    requires |b| >= CHALLENGE_HEADER
  {
    var info := AvList(pairs + [TargetName(server)]);
    NewHeader(b, |name|, |info|) + (name + info)
  }

  lemma {:induction false} NewHeaderParts(b: seq<byte>, nameLength: nat, infoLength: nat)
    requires |b| >= CHALLENGE_HEADER
    ensures var h := NewHeader(b, nameLength, infoLength);
            && h[0..16] == b[..16] && h[16..20] == Little(CHALLENGE_HEADER, 4) && h[20..40] == b[20..40]
            && h[40..42] == Little(infoLength, 2) && h[42..44] == Little(infoLength, 2)
            && h[44..48] == Little(CHALLENGE_HEADER + nameLength, 4)
  {
    hide Little;
    var p1, p2 := b[..16], b[..16] + Little(CHALLENGE_HEADER, 4);
    var p3 := p2 + b[20..40];
    var n, off := Little(infoLength, 2), Little(CHALLENGE_HEADER + nameLength, 4);
    var h := p3 + n + n + off + b[48..CHALLENGE_HEADER];
    FieldSlice(p3 + n + n, off, b[48..CHALLENGE_HEADER]);
    Assoc(p3 + n + n, off, b[48..CHALLENGE_HEADER]);
    SliceOfHead(p3 + n + n, off + b[48..CHALLENGE_HEADER], 42, 44);
    EndOf(p3 + n, n);
    SliceOfHead(p3 + n + n, off + b[48..CHALLENGE_HEADER], 40, 42);
    FieldSlice(p3, n, n);
    SliceOfHead(p3 + n + n, off + b[48..CHALLENGE_HEADER], 20, 40);
    Assoc(p3, n, n);
    SliceOfHead(p3, n + n, 20, 40);
    EndOf(p2, b[20..40]);
    SliceOfHead(p3 + n + n, off + b[48..CHALLENGE_HEADER], 16, 20);
    SliceOfHead(p3, n + n, 16, 20);
    FieldSlice(p1, Little(CHALLENGE_HEADER, 4), b[20..40]);
    SliceOfHead(p3 + n + n, off + b[48..CHALLENGE_HEADER], 0, 16);
    SliceOfHead(p3, n + n, 0, 16);
    Assoc(p1, Little(CHALLENGE_HEADER, 4), b[20..40]);
    SliceOfHead(p1, Little(CHALLENGE_HEADER, 4) + b[20..40], 0, 16);
  }

  lemma {:induction false} RewrittenFields(b: seq<byte>, name: seq<byte>, pairs: seq<AvPair>, server: Text)
    requires |b| >= CHALLENGE_HEADER && |name| < SHORT
    ensures var m, n := Rewritten(b, name, pairs, server), |AvList(pairs + [TargetName(server)])|;
            && |m| == CHALLENGE_HEADER + |name| + n && m[..16] == b[..16] && m[20..40] == b[20..40]
            && GetOffset(m, 16) == CHALLENGE_HEADER && GetLength(m, 40) == n % SHORT == GetLength(m, 42)
            && GetOffset(m, 44) == CHALLENGE_HEADER + |name|
  {
    hide Little;
    hide LittleValue;
    hide NewHeader;
    hide AvList;
    var info := AvList(pairs + [TargetName(server)]);
    var h := NewHeader(b, |name|, |info|);
    var m := h + (name + info);
    NewHeaderParts(b, |name|, |info|);
    HeadOf(m, h, 0, 16);
    assert m[..16] == m[0..16];
    HeadOf(m, h, 16, 20);
    HeadOf(m, h, 20, 40);
    HeadOf(m, h, 40, 42);
    HeadOf(m, h, 42, 44);
    HeadOf(m, h, 44, 48);
    LowTwo(|info|);
    FitsInBounds(CHALLENGE_HEADER);
    FitsInBounds(CHALLENGE_HEADER + |name|);
    LittleInverts(CHALLENGE_HEADER, 4);
    LittleInverts(CHALLENGE_HEADER + |name|, 4);
  }

  /** The name of the target as it is, not cut to the sixteen bits of a length. */
  function FullName(server: Text): AvPair {
    AvPair(MSV_AV_TARGET_NAME, LittleOctets(Spn(server)))
  }

  /** The list with the name added still has a length of sixteen bits. */
  predicate ListFits(pairs: seq<AvPair>, server: Text) {
    |AvList(pairs)| + 4 + 2 * |Spn(server)| < SHORT
  }

  /** The rewritten message is a challenge again, with the list that came followed by the full name of the
      target, if and only if that list still has a length of sixteen bits. Then it parses to that list and
      lengths and offsets are exact. Flags and server challenge are kept in any case. */
  lemma {:induction false} RewriteIsChallenge(b: seq<byte>, name: seq<byte>, pairs: seq<AvPair>, server: Text)
    requires IsChallenge(b, name, pairs)
    ensures var m, full := Rewritten(b, name, pairs, server), pairs + [FullName(server)];
            && m[20..40] == b[20..40] && (IsChallenge(m, name, full) <==> ListFits(pairs, server))
            && (ListFits(pairs, server) ==>
                  && GetLength(m, 42) == |AvList(full)| && GetOffset(m, 44) + |AvList(full)| == |m|
                  && ParseAv(m[GetOffset(m, 44)..]) == Some(full))
  {
    hide GetLength;
    hide IsChallenge;
    hide Rewritten;
    hide ParseAv;
    hide AvList;
    hide Spn;
    Listed(b, name, pairs);
    var m, full := Rewritten(b, name, pairs, server), pairs + [FullName(server)];
    NameGrows(pairs, server);
    if ListFits(pairs, server) {
      FullIsClipped(pairs, server);
      FittingRewrite(b, name, pairs, server);
    } else if IsChallenge(m, name, full) {
      Listed(m, name, full);
    }
    RewrittenFields(b, name, pairs, server);
  }

  /** The list of a challenge has a length of sixteen bits. */
  lemma {:induction false} Listed(b: seq<byte>, name: seq<byte>, pairs: seq<AvPair>)
    requires IsChallenge(b, name, pairs)
    ensures |AvList(pairs)| < SHORT && |name| < SHORT && |b| >= CHALLENGE_HEADER && AvOk(pairs)
  {
    hide LittleValue;
    hide AvList;
    LittleBound(b[12..14]);
    LittleBound(b[40..42]);
  }

  lemma {:induction false} NameGrows(pairs: seq<AvPair>, server: Text)
    ensures |AvList(pairs + [FullName(server)])| == |AvList(pairs)| + 4 + 2 * |Spn(server)|
  {
    hide AvList;
    hide Spn;
    ListGrows(pairs, FullName(server));
  }

  lemma {:induction false} FullIsClipped(pairs: seq<AvPair>, server: Text)
    requires ListFits(pairs, server)
    ensures FullName(server) == TargetName(server) && PairOk(FullName(server))
  {
    hide AvList;
    hide Spn;
  }

  lemma {:induction false} FittingRewrite(b: seq<byte>, name: seq<byte>, pairs: seq<AvPair>, server: Text)
    requires IsChallenge(b, name, pairs) && ListFits(pairs, server) && FullName(server) == TargetName(server)
    ensures var m, full := Rewritten(b, name, pairs, server), pairs + [FullName(server)];
            && IsChallenge(m, name, full)
            && GetLength(m, 42) == |AvList(full)| && GetOffset(m, 44) + |AvList(full)| == |m|
            && ParseAv(m[GetOffset(m, 44)..]) == Some(full)
  {
    hide LittleValue;
    hide NewHeader;
    hide AvList;
    hide ParseAv;
    hide Spn;
    hide Clipped;
    hide LittleOctets;
    var full := pairs + [FullName(server)];
    var m := Rewritten(b, name, pairs, server);
    LittleBound(b[12..14]);
    RewrittenFields(b, name, pairs, server);
    NameGrows(pairs, server);
    FullIsClipped(pairs, server);
    AvOkPush(pairs, FullName(server));
    ParseInverts(full);
    HeadOf(m[..16], b[..16], 12, 14);
    SliceOfSlice(m, 0, 16, 12, 14);
    SliceOfSlice(b, 0, 16, 12, 14);
    RewrittenParts(b, name, pairs, server);
    assert m[GetOffset(m, 44)..] == m[GetOffset(m, 44)..|m|];
  }

  lemma {:induction false} RewrittenParts(b: seq<byte>, name: seq<byte>, pairs: seq<AvPair>, server: Text)
    requires |b| >= CHALLENGE_HEADER
    ensures var m, info := Rewritten(b, name, pairs, server), AvList(pairs + [TargetName(server)]);
            && m[CHALLENGE_HEADER..CHALLENGE_HEADER + |name|] == name
            && m[CHALLENGE_HEADER + |name|..|m|] == info
  {
    hide NewHeader;
    hide AvList;
  }

  /** Two octets hold less than 2^16. */
  lemma {:induction false} LittleBound(s: seq<byte>)
    requires |s| == 2
    ensures LittleValue(s) < SHORT
  {
    assert s[1..][1..] == [];
    assert LittleValue(s[1..]) == s[1] as nat;
  }

  /** A list is as long as its pairs, so each of them fits if the list does. */
  lemma {:induction false} AvSize(l: seq<AvPair>)
    ensures |AvList(l)| == |AvOctets(l)| + 4
    ensures l != [] ==> |AvOctets(l)| >= 4 + |l[|l| - 1].value|
  {
    if l != [] {
      var k := |l| - 1;
      assert l == l[..k] + [l[k]];
      AvPush(l[..k], l[k]);
    }
  }

  // ---- the server's challenge -------------------------------------------------------------------------

  const CHALLENGE_FLAGS: nat := 0x22888037

  /** The names come from the workstation; the time stamp is always there. */
  function ServerPairs(workstation: Option<Text>, time: seq<byte>): seq<AvPair> {
    if workstation.None? then [AvPair(7, time)]
    else
      var upper, name := LittleOctets(Upper(workstation.value)), LittleOctets(workstation.value);
      [AvPair(2, upper), AvPair(1, upper), AvPair(4, []), AvPair(3, name), AvPair(7, time)]
  }

  function ServerName(workstation: Option<Text>): seq<byte> {
    LittleOctets(Upper(OrEmpty(workstation)))
  }

  function ChallengeHeader(name: Field, serverChallenge: seq<byte>, info: Field): (r: seq<byte>)
    requires |serverChallenge| == 8
    ensures |r| == CHALLENGE_HEADER
  {
    SIGNATURE + Little(CHALLENGE_MESSAGE, 4) + FieldOctets(name) + Little(CHALLENGE_FLAGS, 4) + serverChallenge + Zeros(8) +
    FieldOctets(info) + (Little(0x106, 4) + Little(0x0F000000, 4))
  }

  /** A challenge with its parts one after the other. */
  function Plain(name: seq<byte>, nameOff: nat, pairs: seq<AvPair>, serverChallenge: seq<byte>): (m: seq<byte>)
    requires |serverChallenge| == 8
    ensures |m| == CHALLENGE_HEADER + |name| + |AvList(pairs)|
  {
    var info := AvList(pairs);
    ChallengeHeader(Field(|name|, nameOff), serverChallenge, Field(|info|, CHALLENGE_HEADER + |name|)) + (name + info)
  }

  function ServerChallenge(workstation: Option<Text>, serverChallenge: seq<byte>, time: seq<byte>): seq<byte>
    requires |serverChallenge| == 8
  {
    Plain(ServerName(workstation), if workstation.Some? then CHALLENGE_HEADER else 0, ServerPairs(workstation, time),
          serverChallenge)
  }

  lemma {:induction false} ChallengeHeaderParts(name: Field, serverChallenge: seq<byte>, info: Field)
    requires |serverChallenge| == 8
    ensures var h := ChallengeHeader(name, serverChallenge, info);
            && h[12..14] == Little(name.len, 2) && h[16..20] == Little(name.off, 4) && h[24..32] == serverChallenge
            && h[40..42] == Little(info.len, 2) && h[44..48] == Little(info.off, 4)
  {
    hide Little;
    hide Zeros;
    hide FieldOctets;
    var p2 := SIGNATURE + Little(CHALLENGE_MESSAGE, 4);
    var p4 := p2 + FieldOctets(name) + Little(CHALLENGE_FLAGS, 4);
    var p6 := p4 + serverChallenge + Zeros(8);
    var version := Little(0x106, 4) + Little(0x0F000000, 4);
    var h := p6 + FieldOctets(info) + version;
    FieldSlice(p6, FieldOctets(info), version);
    SliceOfHead(p6, FieldOctets(info) + version, 12, 32);
    Assoc(p6, FieldOctets(info), version);
    FieldSlice(p4, serverChallenge, Zeros(8));
    SliceOfHead(p4, serverChallenge + Zeros(8), 12, 20);
    Assoc(p4, serverChallenge, Zeros(8));
    FieldSlice(p2, FieldOctets(name), Little(CHALLENGE_FLAGS, 4));
    SliceOfSlice(h, 12, 32, 12, 20);
    SliceOfSlice(p6, 12, 32, 12, 20);
    SliceOfSlice(h, 12, 32, 0, 8);
    SliceOfSlice(p6, 12, 32, 0, 8);
    FieldSlices(h, 12, name);
    FieldSlices(h, 40, info);
  }

  /** The parts of a field. */
  lemma {:induction false} FieldSlices(b: seq<byte>, o: nat, f: Field)
    requires o + 8 <= |b| && b[o..o + 8] == FieldOctets(f)
    ensures b[o..o + 2] == Little(f.len, 2) && b[o + 4..o + 8] == Little(f.off, 4)
  {
    hide Little;
    SliceOfSlice(b, o, o + 8, 0, 2);
    SliceOfSlice(b, o, o + 8, 4, 8);
    SliceOfHead(Little(f.len, 2) + Little(f.len, 2), Little(f.off, 4), 0, 2);
    SliceOfHead(Little(f.len, 2), Little(f.len, 2), 0, 2);
    EndOf(Little(f.len, 2) + Little(f.len, 2), Little(f.off, 4));
  }

  lemma {:induction false} ServerPairsOk(workstation: Option<Text>, time: seq<byte>)
    requires |time| == 8 && |OrEmpty(workstation)| < 0x1000
    ensures AvOk(ServerPairs(workstation, time))
    ensures |AvList(ServerPairs(workstation, time))| == (if workstation.Some? then 16 + 6 * |workstation.value| else 0) + 16
  {
    var last := AvPair(7, time);
    assert AvOctets([last]) == PairOctets(last) by {
      assert [last][1..] == [];
      EmptyUnit(PairOctets(last));
    }
    assert AvOk([last]);
    if workstation.Some? {
      var upper, name := LittleOctets(Upper(workstation.value)), LittleOctets(workstation.value);
      var l4 := [AvPair(3, name), last];
      var l3 := [AvPair(4, []), AvPair(3, name), last];
      var l2 := [AvPair(1, upper), AvPair(4, []), AvPair(3, name), last];
      assert l4[1..] == [last] && l3[1..] == l4 && l2[1..] == l3;
      assert ServerPairs(workstation, time)[1..] == l2;
      assert AvOk(l4) && |AvOctets(l4)| == 16 + |name|;
      assert AvOk(l3) && |AvOctets(l3)| == 20 + |name|;
      assert AvOk(l2) && |AvOctets(l2)| == 24 + |name| + |upper|;
    }
  }

  lemma {:induction false} PlainIsChallenge(name: seq<byte>, nameOff: nat, pairs: seq<AvPair>, serverChallenge: seq<byte>)
    requires |serverChallenge| == 8 && |name| < SHORT && AvOk(pairs) && |AvList(pairs)| < SHORT
    requires nameOff <= CHALLENGE_HEADER && (name != [] ==> nameOff == CHALLENGE_HEADER)
    ensures var m := Plain(name, nameOff, pairs, serverChallenge);
            && IsChallenge(m, name, pairs) && m[24..32] == serverChallenge
            && GetOffset(m, 44) == CHALLENGE_HEADER + |name|
  {
    hide Little;
    hide LittleValue;
    hide ChallengeHeader;
    hide AvList;
    var info := AvList(pairs);
    var nf := Field(|name|, nameOff);
    var tf := Field(|info|, CHALLENGE_HEADER + |name|);
    var h := ChallengeHeader(nf, serverChallenge, tf);
    var m := h + (name + info);
    ChallengeHeaderParts(nf, serverChallenge, tf);
    HeadOf(m, h, 12, 14);
    HeadOf(m, h, 16, 20);
    HeadOf(m, h, 24, 32);
    HeadOf(m, h, 40, 42);
    HeadOf(m, h, 44, 48);
    ShortReads(nf.len);
    ShortReads(tf.len);
    FitsInBounds(nf.off);
    FitsInBounds(tf.off);
    LittleInverts(nf.off, 4);
    LittleInverts(tf.off, 4);
    assert m[CHALLENGE_HEADER..CHALLENGE_HEADER + |name|] == name;
    assert m[CHALLENGE_HEADER + |name|..CHALLENGE_HEADER + |name| + |info|] == info;
  }

  /** The server's message is a challenge with its name and its pairs, and carries its challenge. */
  lemma {:induction false} ServerSendsChallenge(workstation: Option<Text>, serverChallenge: seq<byte>, time: seq<byte>)
    requires |serverChallenge| == |time| == 8 && |OrEmpty(workstation)| < 0x1000
    ensures var m := ServerChallenge(workstation, serverChallenge, time);
            IsChallenge(m, ServerName(workstation), ServerPairs(workstation, time)) && m[24..32] == serverChallenge
  {
    hide AvList;
    hide ServerPairs;
    hide ChallengeHeader;
    hide IsChallenge;
    ServerPairsOk(workstation, time);
    PlainIsChallenge(ServerName(workstation), if workstation.Some? then CHALLENGE_HEADER else 0, ServerPairs(workstation, time),
                     serverChallenge);
  }

  /** The server's challenge has no gaps, so the room is what is added: a name of up to 193 units fits, or one
      so long that its length wraps around. */
  lemma {:induction false} ServerRoom(serverName: Option<Text>, serverChallenge: seq<byte>, time: seq<byte>, host: Text)
    requires |serverChallenge| == |time| == 8
    ensures var sent := ServerChallenge(serverName, serverChallenge, time);
            InBounds(sent, ServerName(serverName), ServerPairs(serverName, time), host) <==> 2 * |Spn(host)| % SHORT <= EXTRA - 4
    ensures |host| < 0x1000 ==> (2 * |Spn(host)| % SHORT <= EXTRA - 4 <==> |host| <= 193)
  {
    hide AvList;
    hide ServerPairs;
    hide ServerName;
    hide NewHeader;
    hide ChallengeHeader;
    hide Spn;
    hide LittleOctets;
    hide Clipped;
    ListGrows(ServerPairs(serverName, time), TargetName(host));
    ShortNames(|Spn(host)|, |host|) by {
      SpnLength(host);
    }
  }

  lemma {:induction false} SpnLength(host: Text)
    ensures |Spn(host)| == |host| + 5
  {
  }

  lemma {:induction false} ShortNames(n: nat, host: nat)
    requires n == host + 5
    ensures host < 0x1000 ==> (2 * n % SHORT <= EXTRA - 4 <==> host <= 193)
  {
  }

  /** A name of 194 units is the shortest that does not fit. */
  lemma {:induction false} OverrunAt194(serverChallenge: seq<byte>, time: seq<byte>)
    requires |serverChallenge| == |time| == 8
    ensures var sent := ServerChallenge(None, serverChallenge, time);
            |Repeated(97, 194)| == 194 && !InBounds(sent, ServerName(None), ServerPairs(None, time), Repeated(97, 194)) &&
            InBounds(sent, ServerName(None), ServerPairs(None, time), Repeated(97, 193))
  {
    hide InBounds;
    hide ServerChallenge;
    hide ServerPairs;
    hide ServerName;
    ServerRoom(None, serverChallenge, time, Repeated(97, 194));
    ServerRoom(None, serverChallenge, time, Repeated(97, 193));
  }

  function Repeated(unit: nat, n: nat): (t: Text)
    ensures |t| == n
  {
    if n == 0 then [] else [unit] + Repeated(unit, n - 1)
  }

  /** A list of one pair of 65392 octets. */
  function LargeList(): (pairs: seq<AvPair>) {
    [AvPair(1, Zeros(65392))]
  }

  /** A list that grows past sixteen bits: the challenge is in order, all of it stays in the buffer, and the
      length written over it is 78. The list does not parse at that length. */
  lemma {:induction false} ListWraps(serverChallenge: seq<byte>)
    requires |serverChallenge| == 8
    ensures var b, host := Plain([], 0, LargeList(), serverChallenge), Repeated(97, 100);
            && IsChallenge(b, [], LargeList()) && |b| == 65456 && InBounds(b, [], LargeList(), host) && !ListFits(LargeList(), host)
            && WrappedTo(Rewritten(b, [], LargeList(), host), 78)
  {
    hide IsChallenge;
    hide Plain;
    hide AvList;
    hide Rewritten;
    hide ParseAv;
    hide LargeList;
    hide LittleOctets;
    hide WrappedTo;
    hide LittleValue;
    LargeSize();
    PlainIsChallenge([], 0, LargeList(), serverChallenge);
    var b, host := Plain([], 0, LargeList(), serverChallenge), Repeated(97, 100);
    SpnLength(host);
    ListGrows(LargeList(), TargetName(host));
    RewrittenFields(b, [], LargeList(), host);
    RewrittenParts(b, [], LargeList(), host);
    LargeParse(Rewritten(b, [], LargeList(), host), TargetName(host));
  }

  /** The length of the list is written as `n`, and so many octets are no list. */
  predicate WrappedTo(m: seq<byte>, n: nat) {
    && |m| >= CHALLENGE_HEADER && GetLength(m, 40) == n && GetOffset(m, 44) + n <= |m|
    && ParseAv(m[GetOffset(m, 44)..GetOffset(m, 44) + n]) == None
  }

  lemma {:induction false} LargeSize()
    ensures |AvList(LargeList())| == 65400 && AvOk(LargeList())
  {
    hide Zeros;
    ListGrows([], LargeList()[0]);
    assert [] + LargeList() == LargeList();
  }

  lemma {:induction false} LargeParse(m: seq<byte>, last: AvPair)
    requires |m| >= CHALLENGE_HEADER + 78 && GetOffset(m, 44) == CHALLENGE_HEADER && GetLength(m, 40) == 78
    requires m[CHALLENGE_HEADER..|m|] == AvList(LargeList() + [last])
    ensures WrappedTo(m, 78)
  {
    hide Zeros;
    hide Little;
    hide LittleValue;
    var p, rest := LargeList()[0], AvList([last]);
    var list := AvList(LargeList() + [last]);
    assert (LargeList() + [last])[1..] == [last];
    Assoc(PairOctets(p), AvOctets([last]), EOL);
    PairParts(p, rest);
    ShortReads(1);
    ShortReads(65392);
    var cut := m[CHALLENGE_HEADER..CHALLENGE_HEADER + 78];
    assert cut == list[..78];
    assert cut[..2] == list[..2] && cut[2..4] == list[2..4];
  }

  /** The whole exchange: when the name of the server's host fits, the client that rewrites the server's
      challenge and answers it with the right password is accepted, and both sides hold the same session
      key. */
  lemma {:induction false} ExchangeAgrees(server: Server, serverName: Option<Text>, serverTime: seq<byte>, host: Text,
                                          user: Text, domain: Option<Text>, workstation: Option<Text>, password: Text,
                                          time: seq<byte>, clientChallenge: seq<byte>)
    requires |server.challenge| == |serverTime| == |time| == |clientChallenge| == 8
    requires |OrEmpty(serverName)| < 0x1000 && Sizes(user, domain, workstation, [])
    requires InBounds(ServerChallenge(serverName, server.challenge, serverTime), ServerName(serverName),
                      ServerPairs(serverName, serverTime), host)
    requires user != [] && password != []
    requires server.authorize(Some(user), Normal(domain), Normal(workstation)) == Granted(Some(password))
    ensures var sent := ServerChallenge(serverName, server.challenge, serverTime);
            var name, pairs := ServerName(serverName), ServerPairs(serverName, serverTime);
            var kept := Rewritten(sent, name, pairs, host);
            var info := AvList(pairs + [TargetName(host)]);
            var temp := Temp(time, clientChallenge, info);
            var key := ResponseKey(user, password, domain);
            && kept[24..32] == server.challenge && kept[CHALLENGE_HEADER + |name|..] == info
            && Authenticate(AuthMessage(user, domain, workstation, Response(key, kept[24..32], temp)), server) ==
               Accepted(SessionKey(key, kept[24..32], temp))
  {
    hide AuthMessage;
    hide Authenticate;
    hide Temp;
    hide Response;
    hide ResponseKey;
    hide SessionKey;
    hide ServerChallenge;
    hide ServerPairs;
    hide ServerName;
    hide LittleValue;
    hide AvList;
    hide InBounds;
    hide Clipped;
    var sent := ServerChallenge(serverName, server.challenge, serverTime);
    var name, pairs := ServerName(serverName), ServerPairs(serverName, serverTime);
    var all := pairs + [TargetName(host)];
    ServerSendsChallenge(serverName, server.challenge, serverTime);
    ServerRoom(serverName, server.challenge, serverTime, host);
    var kept := Rewritten(sent, name, pairs, host);
    ServerPairsOk(serverName, serverTime);
    ListGrows(pairs, TargetName(host));
    RewrittenFields(sent, name, pairs, host) by {
      LittleBound(sent[12..14]);
    }
    RewrittenParts(sent, name, pairs, host);
    SliceOfSlice(kept, 20, 40, 4, 12);
    SliceOfSlice(sent, 20, 40, 4, 12);
    assert kept[CHALLENGE_HEADER + |name|..|kept|] == kept[CHALLENGE_HEADER + |name|..];
    Agreement(server, user, domain, workstation, password, time, clientChallenge, AvList(all));
  }

  lemma {:induction false} ListGrows(l: seq<AvPair>, p: AvPair)
    ensures |AvList(l + [p])| == |AvList(l)| + 4 + |p.value|
  {
    AvPush(l, p);
  }
}
