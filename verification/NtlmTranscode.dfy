/** The client's rewriting of a challenge: pair by pair into a buffer of its own. */
module NtlmTranscode {
  import opened Octet
  import opened Bytes
  import opened Sequences
  import opened NtlmSpec
  import opened NtlmChallenge
  import BlockHash
  import MdBlocks

  /** Append a pair at `at`. */
  method PutPair(out: array<byte>, at: nat, id: nat, value: seq<byte>)
    requires at + 4 + |value| <= out.Length
    modifies out
    ensures out[..at + 4 + |value|] == old(out[..at]) + PairOctets(AvPair(id, value))
  {
    hide Little;
    hide Store;
    ghost var head := out[..at];
    PutAt(out, at, Little(id, 2));
    PutAt(out, at + 2, Little(|value|, 2));
    PutAt(out, at + 4, value);
    assert out[..at + 4 + |value|] == head + (Little(id, 2) + Little(|value|, 2) + value);
  }

  method PutAt(out: array<byte>, at: nat, data: seq<byte>)
    requires at + |data| <= out.Length
    modifies out
    ensures out[..at + |data|] == old(out[..at]) + data
  {
    StoreIs(out[..], at, data);
    ghost var head := out[..at];
    Blit(out, at, data);
    assert out[..at + |data|] == head + data;
  }

  /** The loop has written the pairs `done` and is at the rest of the list. */
  ghost predicate Copying(b: seq<byte>, inoff: nat, inlen: nat, rest: seq<AvPair>) {
    AvOk(rest) && inlen == |AvList(rest)| && inoff + inlen <= |b| && b[inoff..inoff + inlen] == AvList(rest)
  }

  /** What is read at the front of the rest of a list. */
  lemma {:induction false} ReadsPair(b: seq<byte>, inoff: nat, inlen: nat, rest: seq<AvPair>)
    requires Copying(b, inoff, inlen, rest)
    ensures inlen >= 4 && inoff + inlen <= |b|
    ensures rest == [] ==> GetLength(b, inoff) == 0 && GetLength(b, inoff + 2) == 0 && inlen == 4
    ensures rest != [] ==>
              var p := rest[0];
              var n := 4 + |p.value|;
              && PairOk(p) && GetLength(b, inoff) == p.id && GetLength(b, inoff + 2) == |p.value|
              && n + 4 <= inlen && b[inoff + 4..inoff + n] == p.value && Copying(b, inoff + n, inlen - n, rest[1..])
  {
    hide Little;
    hide LittleValue;
    hide PairOctets;
    var l := AvList(rest);
    SliceOfSlice(b, inoff, inoff + inlen, 0, 2);
    SliceOfSlice(b, inoff, inoff + inlen, 2, 4);
    if rest == [] {
      EmptyUnit(EOL);
      EolReads();
    } else {
      var p := rest[0];
      var n := 4 + |p.value|;
      Assoc(PairOctets(p), AvOctets(rest[1..]), EOL);
      PairParts(p, AvList(rest[1..]));
      ShortReads(p.id);
      ShortReads(|p.value|);
      SliceOfSlice(b, inoff, inoff + inlen, 4, n);
      SliceOfSlice(b, inoff, inoff + inlen, n, inlen);
      assert l[n..inlen] == l[n..];
    }
  }

  /** Copy the pairs; before the end marker, add the name of the target. The outcome is false when the name
      does not fit; the length is counted in sixteen bits. */
  method Transcode(b: seq<byte>, from: nat, length: nat, spn: Text, out: array<byte>, to: nat, ghost pairs: seq<AvPair>)
    returns (fits: bool, infolen: nat, outoff: nat)
    requires Copying(b, from, length, pairs) && to + |AvList(pairs)| <= out.Length
    modifies out
    ensures var all := AvList(pairs + [AvPair(MSV_AV_TARGET_NAME, Clipped(LittleOctets(spn)))]);
            && (fits <==> to + |all| <= out.Length)
            && (fits ==> infolen == |all| % SHORT && outoff == to + |all| && out[..outoff] == old(out[..to]) + all)
  {
    hide Going;
    hide Finished;
    hide Clipped;
    ghost var target := AvPair(MSV_AV_TARGET_NAME, Clipped(LittleOctets(spn)));
    ghost var head := out[..to];
    ghost var rest, done: seq<AvPair> := pairs, [];
    var inoff, inlen := from, length;
    fits, infolen, outoff := true, 0, to;
    ghost var count: nat := 0;
    Starting(b, inoff, inlen, head, pairs, out.Length);
    while inlen > 0
      invariant fits && infolen == count % SHORT && count + to == outoff <= out.Length
      invariant inlen > 0 ==> Going(b, inoff, inlen, out[..outoff], out.Length, head, pairs, done, rest)
      invariant inlen == 0 ==> Finished(out[..outoff], head, pairs, target)
      decreases inlen
    {
      var n;
      fits, inoff, inlen, n, done, rest := Round(b, inoff, inlen, out, outoff, spn, head, pairs, done, rest);
      if !fits {
        return;
      }
      CountOn(count, n);
      count := count + n;
      outoff, infolen := outoff + n, (infolen + n) % SHORT;
    }
    FinishedIs(out[..outoff], head, pairs, target);
  }

  lemma {:induction false} CountOn(count: nat, n: nat)
    ensures (count % SHORT + n) % SHORT == (count + n) % SHORT
  {
  }

  /** Part way through: `done` is written behind `head`, and `rest` is still to be read. */
  ghost predicate Going(b: seq<byte>, inoff: nat, inlen: nat, o: seq<byte>, room: nat, head: seq<byte>,
                        pairs: seq<AvPair>, done: seq<AvPair>, rest: seq<AvPair>)
  {
    && Copying(b, inoff, inlen, rest) && pairs == done + rest && o == head + AvOctets(done)
    && |head| + |AvList(pairs)| <= room
  }

  ghost predicate Finished(o: seq<byte>, head: seq<byte>, pairs: seq<AvPair>, target: AvPair) {
    o == head + AvList(pairs + [target])
  }

  lemma {:induction false} FinishedIs(o: seq<byte>, head: seq<byte>, pairs: seq<AvPair>, target: AvPair)
    requires Finished(o, head, pairs, target)
    ensures o == head + AvList(pairs + [target]) && |o| == |head| + |AvList(pairs + [target])|
  {
  }

  lemma {:induction false} Starting(b: seq<byte>, inoff: nat, inlen: nat, head: seq<byte>, pairs: seq<AvPair>, room: nat)
    requires Copying(b, inoff, inlen, pairs) && |head| + |AvList(pairs)| <= room
    ensures inlen > 0 && Going(b, inoff, inlen, head, room, head, pairs, [], pairs)
  {
    EmptyUnit(head);
    EmptyUnit(pairs);
    AvSize(pairs);
  }

  /** The sizes of what is written, and of what is left. */
  lemma {:induction false} Rooms(target: AvPair, pairs: seq<AvPair>, done: seq<AvPair>, rest: seq<AvPair>)
    requires pairs == done + rest
    ensures |AvList(pairs)| == |AvOctets(done)| + |AvList(rest)|
    ensures |AvList(pairs + [target])| == |AvList(pairs)| + 4 + |target.value|
    ensures |AvList(rest)| >= 4 && (rest != [] ==> |AvList(rest)| >= 8 + |rest[0].value|)
  {
    ListGrows(pairs, target);
    SizesOfParts(done, rest);
    AvSize(rest);
  }

  /** One round: a pair is copied, or the end of the list is written, if it fits. */
  method Round(b: seq<byte>, inoff: nat, inlen: nat, out: array<byte>, outoff: nat, spn: Text,
               ghost head: seq<byte>, ghost pairs: seq<AvPair>, ghost done: seq<AvPair>, ghost rest: seq<AvPair>)
    returns (fits: bool, inoff': nat, inlen': nat, n: nat, ghost done': seq<AvPair>, ghost rest': seq<AvPair>)
    requires outoff <= out.Length && inlen > 0
    requires Going(b, inoff, inlen, out[..outoff], out.Length, head, pairs, done, rest)
    modifies out
    ensures inlen' < inlen
    ensures var target := AvPair(MSV_AV_TARGET_NAME, Clipped(LittleOctets(spn)));
            if !fits then |head| + |AvList(pairs + [target])| > out.Length
            else
              outoff + n <= out.Length &&
              if inlen' > 0 then Going(b, inoff', inlen', out[..outoff + n], out.Length, head, pairs, done', rest')
              else Finished(out[..outoff + n], head, pairs, target)
  {
    hide AvList;
    hide PairOctets;
    hide Copying;
    hide LittleValue;
    hide LittleOctets;
    hide Clipped;
    var value := Clipped(LittleOctets(spn));
    ghost var target := AvPair(MSV_AV_TARGET_NAME, value);
    ReadsPair(b, inoff, inlen, rest);
    Rooms(target, pairs, done, rest);
    fits, done', rest' := true, done, rest;
    var attrCode, attrLen := GetLength(b, inoff), GetLength(b, inoff + 2);
    if attrLen > inlen || outoff + attrLen > out.Length {
      assert false;
    }
    if attrCode == 0 {
      EmptyUnit(done);
      attrLen := 0;
      n := 4 + |value| + 4;
      if outoff + n > out.Length {
        fits := false;
      } else {
        AddTarget(out, outoff, value, head, pairs);
      }
    } else {
      CopyPair(out, outoff, attrCode, b[inoff + 4..inoff + 4 + attrLen], head, done, rest[0]);
      MoveOver(done, rest);
      done', rest' := done + [rest[0]], rest[1..];
      n := 4 + attrLen;
    }
    inoff' := inoff + 4 + attrLen;
    inlen' := inlen - (4 + attrLen);
  }

  method CopyPair(out: array<byte>, outoff: nat, attrCode: nat, value: seq<byte>, ghost head: seq<byte>, ghost done: seq<AvPair>, ghost p: AvPair)
    requires outoff + 4 + |value| <= out.Length && p == AvPair(attrCode, value) && out[..outoff] == head + AvOctets(done)
    modifies out
    ensures out[..outoff + 4 + |value|] == head + AvOctets(done + [p])
  {
    AvPush(done, p);
    Assoc(head, AvOctets(done), PairOctets(p));
    PutPair(out, outoff, attrCode, value);
  }

  /** At the end marker: the name of the target, then the marker. */
  method AddTarget(out: array<byte>, outoff: nat, value: seq<byte>, ghost head: seq<byte>, ghost pairs: seq<AvPair>)
    requires outoff + 8 + |value| <= out.Length && out[..outoff] == head + AvOctets(pairs)
    modifies out
    ensures out[..outoff + 8 + |value|] == head + AvList(pairs + [AvPair(MSV_AV_TARGET_NAME, value)])
  {
    hide PairOctets;
    FinishList(head, pairs, AvPair(MSV_AV_TARGET_NAME, value));
    PutPair(out, outoff, MSV_AV_TARGET_NAME, value);
    PutAt(out, outoff + 4 + |value|, EOL);
  }

  lemma {:induction false} MoveOver(done: seq<AvPair>, rest: seq<AvPair>)
    requires rest != []
    ensures done + rest == done + [rest[0]] + rest[1..]
  {
  }

  lemma {:induction false} SizesOfParts(done: seq<AvPair>, rest: seq<AvPair>)
    ensures |AvList(done + rest)| == |AvOctets(done)| + |AvList(rest)|
    ensures rest != [] ==> |AvList(rest)| >= 8 + |rest[0].value|
  {
    AvJoin(done, rest);
  }

  lemma {:induction false} FinishList(head: seq<byte>, done: seq<AvPair>, target: AvPair)
    ensures head + AvOctets(done) + PairOctets(target) + EOL == head + AvList(done + [target])
  {
    AvPush(done, target);
    Assoc(head, AvOctets(done), PairOctets(target));
    Assoc(head, AvOctets(done) + PairOctets(target), EOL);
  }

  // ---- the whole message ------------------------------------------------------------------------------

  /** Write inside what has been written already. */
  method PatchAt(out: array<byte>, o: nat, data: seq<byte>, k: nat)
    requires o + |data| <= k <= out.Length
    modifies out
    ensures out[..k] == Store(old(out[..k]), o, data)
  {
    hide Store;
    ghost var head, tail := out[..k], out[k..];
    assert out[..] == head + tail;
    PatchInHead(head, tail, o, data);
    Blit(out, o, data);
    assert out[..k] == out[..][..k];
  }

  function Patched(h: seq<byte>, nameLength: nat, infoLength: nat): seq<byte>
    requires |h| == CHALLENGE_HEADER
  {
    Store(Store(Store(Store(h, 16, Little(CHALLENGE_HEADER, 4)), 44, Little(CHALLENGE_HEADER + nameLength, 4)),
                40, Little(infoLength, 2)), 42, Little(infoLength, 2))
  }

  lemma {:induction false} PatchedIs(b: seq<byte>, nameLength: nat, infoLength: nat)
    requires |b| >= CHALLENGE_HEADER
    ensures Patched(b[..CHALLENGE_HEADER], nameLength, infoLength) == NewHeader(b, nameLength, infoLength)
  {
    hide Little;
    hide Store;
    var h := b[..CHALLENGE_HEADER];
    var x1 := Store(h, 16, Little(CHALLENGE_HEADER, 4));
    var x2 := Store(x1, 44, Little(CHALLENGE_HEADER + nameLength, 4));
    var x3 := Store(x2, 40, Little(infoLength, 2));
    StoreIs(h, 16, Little(CHALLENGE_HEADER, 4));
    StoreIs(x1, 44, Little(CHALLENGE_HEADER + nameLength, 4));
    StoreIs(x2, 40, Little(infoLength, 2));
    StoreIs(x3, 42, Little(infoLength, 2));
    assert x1 == b[..16] + Little(CHALLENGE_HEADER, 4) + b[20..CHALLENGE_HEADER];
    assert x2 == b[..16] + Little(CHALLENGE_HEADER, 4) + b[20..44] + Little(CHALLENGE_HEADER + nameLength, 4) + b[48..CHALLENGE_HEADER];
    assert x3[..42] == b[..16] + Little(CHALLENGE_HEADER, 4) + b[20..40] + Little(infoLength, 2);
    assert x3[44..] == Little(CHALLENGE_HEADER + nameLength, 4) + b[48..CHALLENGE_HEADER];
  }

  /** Patches of the header reach through whatever has been appended to it. */
  lemma {:induction false} PatchedThrough(b: seq<byte>, name: seq<byte>, info: seq<byte>)
    requires |b| >= CHALLENGE_HEADER
    ensures var h := b[..CHALLENGE_HEADER];
            var m1 := Store(h, 16, Little(CHALLENGE_HEADER, 4)) + name;
            var m2 := Store(m1, 44, Little(CHALLENGE_HEADER + |name|, 4)) + info;
            Store(Store(m2, 40, Little(|info|, 2)), 42, Little(|info|, 2)) == NewHeader(b, |name|, |info|) + (name + info)
  {
    hide Little;
    hide Store;
    hide NewHeader;
    var h := b[..CHALLENGE_HEADER];
    var h1 := Store(h, 16, Little(CHALLENGE_HEADER, 4));
    var h2 := Store(h1, 44, Little(CHALLENGE_HEADER + |name|, 4));
    PatchInHead(h1, name, 44, Little(CHALLENGE_HEADER + |name|, 4));
    Assoc(h2, name, info);
    PatchInHead(h2, name + info, 40, Little(|info|, 2));
    PatchInHead(Store(h2, 40, Little(|info|, 2)), name + info, 42, Little(|info|, 2));
    PatchedIs(b, |name|, |info|);
  }

  /** What the client makes of a challenge: the message with its parts moved together and the name of the
      target added, in a buffer with some room to spare, and the name of the server. The outcome is false
      exactly when the message does not fit into that buffer. */
  method DecodeChallenge(b: seq<byte>, server: Text, ghost name: seq<byte>, ghost pairs: seq<AvPair>)
    returns (fits: bool, out: array<byte>, outLen: nat, targetName: Option<Text>)
    requires IsChallenge(b, name, pairs)
    ensures fresh(out) && (fits <==> InBounds(b, name, pairs, server))
    ensures fits ==> outLen <= out.Length && out[..outLen] == Rewritten(b, name, pairs, server)
    ensures targetName == if name == [] then None else Some(LittleUnits(b, GetOffset(b, 16), |name| / 2))
  {
    hide AvList;
    hide Store;
    hide Little;
    hide LittleValue;
    hide LittleUnits;
    hide Clipped;
    out, targetName := CopyName(b, name, pairs);
    ghost var info := AvList(pairs + [TargetName(server)]);
    PatchedThrough(b, name, info);
    var outoff := CHALLENGE_HEADER + GetLength(b, 12);
    var infolen;
    PatchAt(out, 44, Little(outoff, 4), outoff);
    InfoIsCopying(b, name, pairs);
    fits, infolen, outLen := Transcode(b, GetOffset(b, 44), GetLength(b, 40), Spn(server), out, outoff, pairs);
    if fits {
      AvListNonempty(pairs + [TargetName(server)]);
      LittleWraps(|info|);
      PatchAt(out, 40, Little(infolen, 2), outLen);
      PatchAt(out, 42, Little(infolen, 2), outLen);
    }
  }

  lemma {:induction false} LittleWraps(n: nat)
    ensures Little(n % SHORT, 2) == Little(n, 2)
  {
    assert BlockHash.Pow256(2) == SHORT;
    MdBlocks.LittleDrops(n, 2);
  }

  lemma {:induction false} InfoIsCopying(b: seq<byte>, name: seq<byte>, pairs: seq<AvPair>)
    requires IsChallenge(b, name, pairs)
    ensures Copying(b, GetOffset(b, 44), GetLength(b, 40), pairs)
  {
  }

  /** The header and the server's name. */
  method CopyName(b: seq<byte>, ghost name: seq<byte>, ghost pairs: seq<AvPair>) returns (out: array<byte>, targetName: Option<Text>)
    requires IsChallenge(b, name, pairs)
    ensures fresh(out) && out.Length == |b| + EXTRA
    ensures out[..CHALLENGE_HEADER + |name|] == Store(b[..CHALLENGE_HEADER], 16, Little(CHALLENGE_HEADER, 4)) + name
    ensures targetName == if name == [] then None else Some(LittleUnits(b, GetOffset(b, 16), |name| / 2))
  {
    hide AvList;
    hide Store;
    hide Little;
    hide LittleValue;
    hide LittleUnits;
    AvListNonempty(pairs);
    out := new byte[|b| + EXTRA];
    PutAt(out, 0, b[..CHALLENGE_HEADER]);
    assert out[..CHALLENGE_HEADER] == b[..CHALLENGE_HEADER];
    PatchAt(out, 16, Little(CHALLENGE_HEADER, 4), CHALLENGE_HEADER);
    targetName := None;
    var inlen, inoff := GetLength(b, 12), GetOffset(b, 16);
    if inlen > 0 && inlen < |b| && CHALLENGE_HEADER + inlen < out.Length {
      targetName := Some(LittleUnits(b, inoff, inlen / 2));
      PutAt(out, CHALLENGE_HEADER, b[inoff..inoff + inlen]);
    } else {
      EmptyUnit(out[..CHALLENGE_HEADER]);
    }
  }

  lemma {:induction false} AvListNonempty(l: seq<AvPair>)
    ensures |AvList(l)| >= 4
  {
  }
}
