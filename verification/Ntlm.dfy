/** Client and server of NTLMSSP: messages are appended to a growing buffer, and lengths and offsets are
    written over zeros once they are known. */
module Ntlm {
  import opened Octet
  import opened Bytes
  import opened Sequences
  import opened NtlmSpec
  import opened NtlmChallenge
  import Hmac
  import Md4

  class AuthData {
    var buf: array<byte>
    var len: nat
    var user: Option<Text>
    var domain: Option<Text>
    var workstation: Option<Text>
    var clientChallenge: seq<byte>
    var serverChallenge: seq<byte>
    var exportedSessionKey: seq<byte>

    ghost predicate Valid()
      reads this, buf
    {
      len <= buf.Length && |clientChallenge| == 8 && |serverChallenge| == 8
    }

    ghost function Contents(): seq<byte>
      reads this, buf
      requires len <= buf.Length
    {
      buf[..len]
    }

    constructor (user: Option<Text>, domain: Option<Text>, workstation: Option<Text>, clientChallenge: seq<byte>)
      requires |clientChallenge| == 8
      ensures Valid() && Contents() == [] && fresh(buf)
      ensures this.user == user && this.domain == domain && this.workstation == workstation && this.clientChallenge == clientChallenge
    {
      buf := new byte[0];
      len, this.user, this.domain, this.workstation := 0, user, domain, workstation;
      this.clientChallenge, serverChallenge, exportedSessionKey := clientChallenge, Zeros(8), Zeros(16);
    }

    /** Append, in a larger buffer if this one is full. */
    method Encoder(data: seq<byte>)
      requires Valid()
      modifies this`buf, this`len, buf
      ensures Valid() && (buf == old(buf) || fresh(buf))
      ensures Contents() == old(Contents()) + data
    {
      ghost var was := Contents();
      if |data| + len > buf.Length {
        var tmp := buf;
        buf := new byte[2 * ((|data| + tmp.Length + 256) / 256 * 256)];
        StoreIs(buf[..], 0, tmp[..len]);
        Blit(buf, 0, tmp[..len]);
        assert buf[..len] == was;
      }
      StoreIs(buf[..], len, data);
      Blit(buf, len, data);
      len := len + |data|;
      assert buf[..len] == was + data;
    }

    /** Write over four octets that were appended before. */
    method Patch(o: nat, n: nat)
      requires Valid() && o + 4 <= len
      modifies buf
      ensures Valid() && Contents() == Store(old(Contents()), o, Little(n, 4))
    {
      hide Store;
      ghost var head, tail := buf[..len], buf[len..];
      assert buf[..] == head + tail;
      PatchInHead(head, tail, o, Little(n, 4));
      Blit(buf, o, Little(n, 4));
      assert buf[..len] == buf[..][..len];
    }

    method ResetBuffer()
      requires Valid()
      modifies this`buf, this`len
      ensures Valid() && Contents() == [] && fresh(buf)
    {
      buf := new byte[0];
      len := 0;
    }

    /** Eight zeros and the server's challenge, which the proof overwrites, and the rest of the response. */
    method EncodeTemp(time: seq<byte>, targetInfo: seq<byte>)
      requires Valid() && Contents() == [] && |time| == 8
      modifies this`buf, this`len, buf
      ensures Valid() && (buf == old(buf) || fresh(buf))
      ensures Contents() == Zeros(8) + serverChallenge + Temp(time, clientChallenge, targetInfo)
    {
      hide Zeros;
      Encoder(Zeros(8));
      EmptyUnit(Zeros(8));
      Encoder(serverChallenge);
      TempAppended(Contents(), time, clientChallenge, targetInfo);
      Encoder([1, 1] + Zeros(6));
      Encoder(time);
      Encoder(clientChallenge);
      Encoder(Zeros(4));
      Encoder(targetInfo);
      Encoder(Zeros(4));
    }

    /** The response: the proof is computed over the challenge and what follows it, then stored over the
        first sixteen octets. */
    method EncodeResponse(key: seq<byte>, time: seq<byte>, targetInfo: seq<byte>) returns (response: seq<byte>, proof: seq<byte>)
      requires Valid() && Contents() == [] && |time| == 8 && |key| == 16 && |targetInfo| < SHORT
      modifies this`buf, this`len, buf
      ensures Valid() && Contents() == [] && fresh(buf)
      ensures var temp := Temp(time, clientChallenge, targetInfo);
              response == Response(key, serverChallenge, temp) && proof == Proof(key, serverChallenge, temp)
    {
      hide Zeros;
      hide Temp;
      hide NtlmSpec.HmacMd5;
      EncodeTemp(time, targetInfo);
      ghost var temp := Temp(time, clientChallenge, targetInfo);
      ghost var was := Contents();
      assert was[8..] == serverChallenge + temp && was[16..] == temp;
      proof := MacOf(key, buf[..len][8..]);
      OverwriteHead(buf[..], len, proof, temp);
      Blit(buf, 0, proof);
      response := buf[..len];
      ResetBuffer();
    }

    // ---- the client's AUTHENTICATE message ------------------------------------------------------------

    /** The length of a part, twice, and zeros for its offset. */
    method EncodeField(n: nat)
      requires Valid() && n < SHORT
      modifies this`buf, this`len, buf
      ensures Valid() && (buf == old(buf) || fresh(buf))
      ensures Contents() == old(Contents()) + FieldOctets(Field(n, 0))
    {
      hide Little;
      ghost var was := Contents();
      Encoder(Little(n, 2) + Little(n, 2));
      Encoder(Little(0, 4));
      Assoc(was, Little(n, 2) + Little(n, 2), Little(0, 4));
    }

    method EncodeHeader(response: nat, domainLen: nat, userLen: nat, workstationLen: nat, flags: nat)
      requires Valid() && Contents() == [] && response < SHORT && domainLen < SHORT && userLen < SHORT && workstationLen < SHORT
      modifies this`buf, this`len, buf
      ensures Valid() && (buf == old(buf) || fresh(buf))
      ensures Contents() == Header(Field(response, 0), Field(domainLen, 0), Field(userLen, 0), Field(workstationLen, 0), flags)
    {
      hide Little;
      hide FieldOctets;
      hide Zeros;
      EmptyUnit(SIGNATURE);
      Encoder(SIGNATURE);
      Encoder(Little(AUTHENTICATION_MESSAGE, 4));
      Encoder(Zeros(8));
      EncodeField(response);
      EncodeField(domainLen);
      EncodeField(userLen);
      EncodeField(workstationLen);
      Encoder(Zeros(8));
      Encoder(Little(flags, 4));
      Encoder(Zeros(8));
    }

    /** Write the present length over the zeros of an offset, then append the part. */
    method Place(o: nat, part: seq<byte>)
      requires Valid() && o + 4 <= len
      modifies this`buf, this`len, buf
      ensures Valid() && (buf == old(buf) || fresh(buf))
      ensures Contents() == Placed(old(Contents()), o, part)
    {
      hide Little;
      hide Store;
      Patch(o, len);
      Encoder(part);
    }

    /** The AUTHENTICATE message. Without a password it is anonymous; otherwise the challenge must hold the
        target information its fields announce. `ntlmBuf` is the rewritten challenge, `ntlmLen` its length
        in a larger buffer. */
    method EncodeAuth(time: seq<byte>, password: Option<Text>, ntlmBuf: seq<byte>, ntlmLen: nat) returns (ok: bool)
      requires Valid() && Contents() == [] && |time| == 8 && ntlmLen + 1 <= |ntlmBuf|
      requires Sizes(OrEmpty(user), domain, workstation, []) && |OrEmpty(password)| < 0x4000_0000
      requires ntlmLen >= 47 ==> GetLength(ntlmBuf, 42) + 48 < SHORT
      modifies this`buf, this`len, this`serverChallenge, this`exportedSessionKey, buf
      ensures Valid()
      ensures password.None? ==> ok && Contents() == AnonymousMessage()
      ensures password.Some? ==>
                (ok <==> user.Some? && ntlmLen >= 47 && GetOffset(ntlmBuf, 44) < ntlmLen &&
                         GetOffset(ntlmBuf, 44) + GetLength(ntlmBuf, 42) <= ntlmLen)
      ensures password.Some? && ok ==>
                var off, n := GetOffset(ntlmBuf, 44), GetLength(ntlmBuf, 42);
                var key, temp := ResponseKey(user.value, password.value, domain), Temp(time, clientChallenge, ntlmBuf[off..off + n]);
                && Contents() == AuthMessage(user.value, domain, workstation, Response(key, ntlmBuf[24..32], temp))
                && exportedSessionKey == SessionKey(key, ntlmBuf[24..32], temp)
    {
      hide AuthMessage;
      hide Header;
      hide Temp;
      hide Response;
      hide ResponseKey;
      hide SessionKey;
      hide LittleValue;
      if password.None? {
        EncodeHeader(0, 0, 0, 0, ANONYMOUS_FLAGS);
        return true;
      }
      if user.None? || ntlmLen < 47 {
        return false;
      }
      var n, off := GetLength(ntlmBuf, 42), GetOffset(ntlmBuf, 44);
      if off >= ntlmLen || off + n > ntlmLen {
        return false;
      }
      serverChallenge := ntlmBuf[24..32];
      EncodeMessage(time, password.value, ntlmBuf[off..off + n]);
      ok := true;
    }

    /** The message of a user with a password, for the challenge in `serverChallenge`. */
    method EncodeMessage(time: seq<byte>, password: Text, targetInfo: seq<byte>)
      requires Valid() && Contents() == [] && |time| == 8 && user.Some?
      requires Sizes(user.value, domain, workstation, targetInfo) && |password| < 0x4000_0000
      modifies this`buf, this`len, this`exportedSessionKey, buf
      ensures Valid()
      ensures var key, temp := ResponseKey(user.value, password, domain), Temp(time, clientChallenge, targetInfo);
              && Contents() == AuthMessage(user.value, domain, workstation, Response(key, serverChallenge, temp))
              && exportedSessionKey == SessionKey(key, serverChallenge, temp)
    {
      hide Placed;
      hide Header;
      hide Temp;
      hide Response;
      hide Proof;
      hide ResponseKey;
      hide NtlmSpec.HmacMd5;
      hide LittleOctets;
      var key := ResponseKeyOf(user.value, password, domain);
      var response, proof := EncodeResponse(key, time, targetInfo);
      exportedSessionKey := MacOf(key, proof);
      var d, u, w := LittleOctets(OrEmpty(domain)), LittleOctets(user.value), LittleOctets(OrEmpty(workstation));
      EncodeHeader(|response|, |d|, |u|, |w|, FLAGS);
      EncodePayload(d, u, w, response);
    }

    /** Behind the header, each part at the place that is then written into its field. */
    method EncodePayload(d: seq<byte>, u: seq<byte>, w: seq<byte>, response: seq<byte>)
      requires Valid() && Contents() == Header(Field(|response|, 0), Field(|d|, 0), Field(|u|, 0), Field(|w|, 0), FLAGS)
      modifies this`buf, this`len, buf
      ensures Valid()
      ensures var uOff := HEADER + |d|;
              var wOff := uOff + |u|;
              var rOff := wOff + |w|;
              Contents() == Header(Field(|response|, rOff), Field(|d|, HEADER), Field(|u|, uOff), Field(|w|, wOff), FLAGS) + (d + (u + (w + response)))
    {
      hide Placed;
      hide Header;
      WrittenInPlace(d, u, w, response);
      PlacedLength(Contents(), 32, d);
      Place(32, d);
      PlacedLength(Contents(), 40, u);
      Place(40, u);
      PlacedLength(Contents(), 48, w);
      Place(48, w);
      Place(24, response);
    }

    // ---- the server -----------------------------------------------------------------------------------

    method EncodePair(id: nat, value: seq<byte>)
      requires Valid()
      modifies this`buf, this`len, buf
      ensures Valid() && (buf == old(buf) || fresh(buf))
      ensures Contents() == old(Contents()) + PairOctets(AvPair(id, value))
    {
      hide Little;
      ghost var was := Contents();
      Encoder(Little(id, 2));
      Encoder(Little(|value|, 2));
      Encoder(value);
      assert Contents() == was + (Little(id, 2) + Little(|value|, 2) + value);
    }

    /** The pairs with the server's names, the time stamp, and the end of the list. */
    method EncodePairs(time: seq<byte>)
      requires Valid()
      modifies this`buf, this`len, buf
      ensures Valid() && (buf == old(buf) || fresh(buf))
      ensures Contents() == old(Contents()) + AvList(ServerPairs(workstation, time))
    {
      hide PairOctets;
      hide LittleOctets;
      ghost var was := Contents();
      ghost var pairs := ServerPairs(workstation, time);
      ServerPairsAppended(was, workstation, time);
      if workstation.Some? {
        var upper, name := LittleOctets(Upper(workstation.value)), LittleOctets(workstation.value);
        EncodePair(2, upper);
        EncodePair(1, upper);
        EncodePair(4, []);
        EncodePair(3, name);
      }
      EncodePair(7, time);
      Encoder(EOL);
    }

    /** Write over octets that were appended before. */
    method PatchOctets(o: nat, data: seq<byte>)
      requires Valid() && o + |data| <= len
      modifies buf
      ensures Valid() && Contents() == Store(old(Contents()), o, data)
    {
      hide Store;
      ghost var head, tail := buf[..len], buf[len..];
      assert buf[..] == head + tail;
      PatchInHead(head, tail, o, data);
      Blit(buf, o, data);
      assert buf[..len] == buf[..][..len];
    }

    /** The header of a CHALLENGE message, with zeros for the two parts. */
    method EncodeChallengeHeader()
      requires Valid() && Contents() == []
      modifies this`buf, this`len, buf
      ensures Valid() && (buf == old(buf) || fresh(buf))
      ensures Contents() == ChallengeHeader(Field(0, 0), serverChallenge, Field(0, 0))
    {
      hide Little;
      hide FieldOctets;
      hide Zeros;
      EmptyUnit(SIGNATURE);
      Encoder(SIGNATURE);
      Encoder(Little(CHALLENGE_MESSAGE, 4));
      EncodeField(0);
      Encoder(Little(CHALLENGE_FLAGS, 4));
      Encoder(serverChallenge);
      Encoder(Zeros(8));
      EncodeField(0);
      Encoder(Little(0x106, 4) + Little(0x0F000000, 4));
    }

    /** The CHALLENGE message. The server's challenge is always 1, 2, ..., 8. */
    method EncodeChallenge(time: seq<byte>)
      requires Valid() && Contents() == [] && |time| == 8 && |OrEmpty(workstation)| < 0x1000
      modifies this`buf, this`len, this`serverChallenge, buf
      ensures Valid() && serverChallenge == [1, 2, 3, 4, 5, 6, 7, 8]
      ensures Contents() == ServerChallenge(workstation, serverChallenge, time)
    {
      hide WithName;
      hide WithInfo;
      hide ChallengeHeader;
      hide AvList;
      hide ServerPairs;
      hide ServerChallenge;
      hide LittleOctets;
      serverChallenge := [1, 2, 3, 4, 5, 6, 7, 8];
      EncodeChallengeHeader();
      ServerPairsOk(workstation, time);
      ChallengeWritten(workstation, serverChallenge, time);
      EncodeName(ServerName(workstation));
      EncodeInfo(time);
    }

    /** The name of the server behind the header, if it has one, and its field. */
    method EncodeName(name: seq<byte>)
      requires Valid() && len == CHALLENGE_HEADER && (workstation.None? ==> name == [])
      modifies this`buf, this`len, buf
      ensures Valid() && len == CHALLENGE_HEADER + |name| && (buf == old(buf) || fresh(buf))
      ensures Contents() == WithName(old(Contents()), workstation.Some?, name)
    {
      hide Little;
      hide Store;
      if workstation.Some? {
        PatchOctets(16, Little(len, 4));
        PatchOctets(12, Little(|name|, 2) + Little(|name|, 2));
        Encoder(name);
      } else {
        EmptyUnit(Contents());
      }
    }

    /** The list of pairs, and its field. */
    method EncodeInfo(time: seq<byte>)
      requires Valid() && len >= CHALLENGE_HEADER
      modifies this`buf, this`len, buf
      ensures Valid()
      ensures Contents() == WithInfo(old(Contents()), AvList(ServerPairs(workstation, time)))
    {
      hide Little;
      hide Store;
      hide AvList;
      hide ServerPairs;
      var targetInfoPos := len;
      EncodePairs(time);
      var n := len - targetInfoPos;
      PatchOctets(40, Little(n, 2));
      PatchOctets(42, Little(n, 2));
      PatchOctets(44, Little(targetInfoPos, 2));
    }

    /** A string from the message; the source reads past it where this returns false. */
    static method GetUtf16Field(b: seq<byte>, o: nat) returns (ok: bool, t: Option<Text>)
      ensures ok <==> ReadText(b, o).Some?
      ensures ok ==> t == ReadText(b, o).value
    {
      if o + 8 > |b| {
        return true, None;
      }
      var f := GetField(b, o);
      if f.len == 0 || f.off == 0 {
        return true, None;
      }
      if f.off + 2 * (f.len / 2) > |b| {
        return false, None;
      }
      return true, Some(LittleUnits(b, f.off, f.len / 2));
    }

    /** Check a response: append the challenge and what follows the proof, and compute the proof again. */
    method VerifyResponse(b: seq<byte>, key: seq<byte>) returns (verdict: Verdict)
      requires Valid() && |b| >= 64 && |key| == 16
      modifies this`buf, this`len, this`exportedSessionKey, this`clientChallenge, buf
      ensures Valid() && verdict == CheckResponse(b, serverChallenge, key)
      ensures verdict.Accepted? ==> exportedSessionKey == verdict.sessionKey
    {
      hide Proof;
      hide NtlmSpec.HmacMd5;
      var f := GetField(b, 20);
      if f.len == 0 || f.off == 0 || f.off > |b| || 16 <= f.len <= 52 {
        return Rejected;
      }
      if f.len < 16 || f.off + f.len > |b| {
        return Outside;
      }
      FieldLengthBound(b);
      var temp := b[f.off + 16..f.off + f.len];
      clientChallenge := b[f.off + 32..f.off + 40];
      len := 0;
      assert buf[..0] == [];
      EmptyUnit(serverChallenge);
      Encoder(serverChallenge);
      Encoder(temp);
      verdict := CompareProof(key, temp, b[f.off..f.off + 16]);
      ResetBuffer();
    }

    method CompareProof(key: seq<byte>, ghost temp: seq<byte>, response: seq<byte>) returns (verdict: Verdict)
      requires Valid() && |key| == 16 && Contents() == serverChallenge + temp && len < LONG
      modifies this`exportedSessionKey
      ensures verdict == if Proof(key, serverChallenge, temp) != response then Rejected else Accepted(SessionKey(key, serverChallenge, temp))
      ensures verdict.Accepted? ==> exportedSessionKey == verdict.sessionKey
    {
      hide NtlmSpec.HmacMd5;
      var proof := MacOf(key, buf[..len]);
      if proof != response {
        return Rejected;
      }
      exportedSessionKey := MacOf(key, proof);
      return Accepted(exportedSessionKey);
    }

    /** What the server makes of an AUTHENTICATE message. */
    method AuthenticateBlob(b: seq<byte>, server: Server) returns (verdict: Verdict)
      requires Valid() && server.challenge == serverChallenge && PasswordsFit(server)
      modifies this, buf
      ensures Valid() && verdict == Authenticate(b, server)
      ensures verdict.Accepted? ==> exportedSessionKey == verdict.sessionKey
    {
      hide ReadText;
      hide CheckResponse;
      hide ResponseKey;
      if |b| < 8 || b[..8] != SIGNATURE {
        return Rejected;
      }
      if |b| < 12 {
        return Outside;
      }
      if LittleValue(b[8..12]) != AUTHENTICATION_MESSAGE {
        return Rejected;
      }
      if |b| < 64 {
        return Outside;
      }
      var okDomain, okUser, okWorkstation;
      okDomain, domain := GetUtf16Field(b, 28);
      okUser, user := GetUtf16Field(b, 36);
      okWorkstation, workstation := GetUtf16Field(b, 44);
      if !okDomain || !okUser || !okWorkstation {
        return Outside;
      }
      var a := server.authorize(user, domain, workstation);
      if a.Denied? || (a.password.None? && !server.allowAnonymous) {
        return Rejected;
      }
      if OrEmpty(user) == [] || OrEmpty(a.password) == [] {
        return if server.allowAnonymous then Anonymous else Rejected;
      }
      TextBound(b, 28);
      TextBound(b, 36);
      verdict := Checked(b, a.password.value);
    }

    method Checked(b: seq<byte>, password: Text) returns (verdict: Verdict)
      requires Valid() && |b| >= 64 && user.Some? && |user.value| + |OrEmpty(domain)| < 0x4000_0000 && |password| < 0x4000_0000
      modifies this`buf, this`len, this`exportedSessionKey, this`clientChallenge, buf
      ensures Valid() && verdict == CheckResponse(b, serverChallenge, ResponseKey(user.value, password, domain))
      ensures verdict.Accepted? ==> exportedSessionKey == verdict.sessionKey
    {
      hide CheckResponse;
      hide ResponseKey;
      var key := ResponseKeyOf(user.value, password, domain);
      verdict := VerifyResponse(b, key);
    }
  }

  /** The server's passwords can be hashed. */
  ghost predicate PasswordsFit(server: Server) {
    forall u, d, w :: server.authorize(u, d, w).Granted? ==> |OrEmpty(server.authorize(u, d, w).password)| < 0x4000_0000
  }

  lemma {:induction false} TextBound(b: seq<byte>, o: nat)
    requires ReadText(b, o).Some?
    ensures |OrEmpty(ReadText(b, o).value)| < SHORT
  {
    hide LittleUnits;
    if o + 8 <= |b| {
      LittleBound(b[o + 2..o + 4]);
    }
  }

  lemma {:induction false} PlacedLength(m: seq<byte>, o: nat, part: seq<byte>)
    requires o + 4 <= |m|
    ensures |Placed(m, o, part)| == |m| + |part|
  {
  }

  lemma {:induction false} FieldLengthBound(b: seq<byte>)
    requires |b| >= 64
    ensures GetField(b, 20).len < SHORT
  {
    LittleBound(b[22..24]);
  }

  lemma {:induction false} ServerPairsAppended(was: seq<byte>, workstation: Option<Text>, time: seq<byte>)
    ensures var last := PairOctets(AvPair(7, time));
            was + AvList(ServerPairs(workstation, time)) ==
            if workstation.None? then was + last + EOL
            else
              var upper, name := LittleOctets(Upper(workstation.value)), LittleOctets(workstation.value);
              was + PairOctets(AvPair(2, upper)) + PairOctets(AvPair(1, upper)) + PairOctets(AvPair(4, [])) +
              PairOctets(AvPair(3, name)) + last + EOL
  {
    hide PairOctets;
    hide LittleOctets;
    var last := AvPair(7, time);
    assert [last][1..] == [];
    assert AvOctets([last]) == PairOctets(last) + [];
    if workstation.Some? {
      var upper, name := LittleOctets(Upper(workstation.value)), LittleOctets(workstation.value);
      var l4 := [AvPair(3, name), last];
      var l3 := [AvPair(4, []), AvPair(3, name), last];
      var l2 := [AvPair(1, upper), AvPair(4, []), AvPair(3, name), last];
      var a, b, c, d, e := PairOctets(AvPair(2, upper)), PairOctets(AvPair(1, upper)), PairOctets(AvPair(4, [])),
                           PairOctets(AvPair(3, name)), PairOctets(last);
      assert l4[1..] == [last] && l3[1..] == l4 && l2[1..] == l3;
      assert ServerPairs(workstation, time)[1..] == l2;
      assert AvOctets(l4) == d + e;
      assert AvOctets(l3) == c + (d + e);
      assert AvOctets(l2) == b + (c + (d + e));
      SixInOrder(was, a, b, c, d, e, EOL);
    } else {
      Assoc(was, PairOctets(last), EOL);
    }
  }

  lemma {:induction false} SixInOrder(was: seq<byte>, a: seq<byte>, b: seq<byte>, c: seq<byte>, d: seq<byte>, e: seq<byte>, f: seq<byte>)
    ensures was + ((a + (b + (c + (d + e)))) + f) == was + a + b + c + d + e + f
  {
  }

  function WithName(m: seq<byte>, named: bool, name: seq<byte>): (r: seq<byte>)
    requires |m| >= CHALLENGE_HEADER
    ensures |r| >= CHALLENGE_HEADER
  {
    if named then Store(Store(m, 16, Little(CHALLENGE_HEADER, 4)), 12, Little(|name|, 2) + Little(|name|, 2)) + name else m
  }

  function WithInfo(m: seq<byte>, info: seq<byte>): seq<byte>
    requires |m| >= CHALLENGE_HEADER
  {
    Store(Store(Store(m + info, 40, Little(|info|, 2)), 42, Little(|info|, 2)), 44, Little(|m|, 2))
  }

  /** Lengths and offsets written over the zeros of the header make the server's challenge. */
  lemma {:induction false} ChallengeWritten(workstation: Option<Text>, challenge: seq<byte>, time: seq<byte>)
    requires |challenge| == |time| == 8 && |OrEmpty(workstation)| < 0x1000
    ensures WithInfo(WithName(ChallengeHeader(Field(0, 0), challenge, Field(0, 0)), workstation.Some?, ServerName(workstation)),
                     AvList(ServerPairs(workstation, time))) == ServerChallenge(workstation, challenge, time)
  {
    hide Little;
    hide Store;
    hide ChallengeHeader;
    hide AvList;
    hide ServerPairs;
    var name, info := ServerName(workstation), AvList(ServerPairs(workstation, time));
    var nf := Field(|name|, if workstation.Some? then CHALLENGE_HEADER else 0);
    var h1 := ChallengeHeader(nf, challenge, Field(0, 0));
    NameField(challenge, nf);
    if workstation.None? {
      EmptyUnit(h1);
    }
    assert WithName(ChallengeHeader(Field(0, 0), challenge, Field(0, 0)), workstation.Some?, name) == h1 + name;
    InfoField(nf, challenge, name, info);
  }

  lemma {:induction false} NameField(challenge: seq<byte>, f: Field)
    requires |challenge| == 8
    ensures var h := ChallengeHeader(Field(0, 0), challenge, Field(0, 0));
            Store(Store(h, 16, Little(f.off, 4)), 12, Little(f.len, 2) + Little(f.len, 2)) == ChallengeHeader(f, challenge, Field(0, 0))
  {
    hide Little;
    hide Store;
    hide Zeros;
    var h := ChallengeHeader(Field(0, 0), challenge, Field(0, 0));
    var x := Store(h, 16, Little(f.off, 4));
    StoreIs(h, 16, Little(f.off, 4));
    StoreIs(x, 12, Little(f.len, 2) + Little(f.len, 2));
    assert x[..12] == h[..12] && x[16..] == Little(f.off, 4) + h[20..];
    var h2 := ChallengeHeader(f, challenge, Field(0, 0));
    assert h2[..12] == h[..12] && h2[20..] == h[20..];
    assert h2 == h2[..12] + (Little(f.len, 2) + Little(f.len, 2)) + (Little(f.off, 4) + h2[20..]);
  }

  lemma {:induction false} InfoField(nf: Field, challenge: seq<byte>, name: seq<byte>, info: seq<byte>)
    requires |challenge| == 8 && CHALLENGE_HEADER + |name| < SHORT
    ensures WithInfo(ChallengeHeader(nf, challenge, Field(0, 0)) + name, info) ==
            ChallengeHeader(nf, challenge, Field(|info|, CHALLENGE_HEADER + |name|)) + (name + info)
  {
    hide Little;
    hide Store;
    hide ChallengeHeader;
    var h := ChallengeHeader(nf, challenge, Field(0, 0));
    var n, off := |info|, CHALLENGE_HEADER + |name|;
    Assoc(h, name, info);
    PatchInHead(h, name + info, 40, Little(n, 2));
    PatchInHead(Store(h, 40, Little(n, 2)), name + info, 42, Little(n, 2));
    PatchInHead(Store(Store(h, 40, Little(n, 2)), 42, Little(n, 2)), name + info, 44, Little(off, 2));
    InfoPatch(nf, challenge, n, off);
  }

  lemma {:induction false} InfoPatch(nf: Field, challenge: seq<byte>, n: nat, off: nat)
    requires |challenge| == 8 && off < SHORT
    ensures var h := ChallengeHeader(nf, challenge, Field(0, 0));
            Store(Store(Store(h, 40, Little(n, 2)), 42, Little(n, 2)), 44, Little(off, 2)) == ChallengeHeader(nf, challenge, Field(n, off))
  {
    hide Little;
    hide Store;
    hide Zeros;
    var h := ChallengeHeader(nf, challenge, Field(0, 0));
    var x1 := Store(h, 40, Little(n, 2));
    var x2 := Store(x1, 42, Little(n, 2));
    StoreIs(h, 40, Little(n, 2));
    StoreIs(x1, 42, Little(n, 2));
    StoreIs(x2, 44, Little(off, 2));
    var h2 := ChallengeHeader(nf, challenge, Field(n, off));
    ShortIsLong(0);
    ShortIsLong(off);
    assert h[44..48] == Little(0, 4) && h[46..48] == Zeros(2);
    assert x1[..42] == h[..40] + Little(n, 2) && x1[44..] == h[44..];
    assert x2[..44] == h[..40] + Little(n, 2) + Little(n, 2) && x2[46..] == h[46..];
    assert h2[..40] == h[..40] && h2[48..] == h[48..];
    assert h2 == h2[..40] + (Little(n, 2) + Little(n, 2) + Little(off, 4)) + h2[48..];
    assert h[46..] == Zeros(2) + h[48..];
  }

  /** A small number in four octets: two, and two zeros. */
  lemma {:induction false} ShortIsLong(n: nat)
    requires n < SHORT
    ensures Little(n, 4) == Little(n, 2) + Zeros(2)
  {
    assert n / 256 / 256 == 0;
    assert Little(0, 2) == [0, 0] && Zeros(2) == [0, 0] by {
      LittleOfTwo(0);
      assert Zeros(1) == [0];
    }
    assert Little(n, 4) == [(n % 256) as byte] + Little(n / 256, 3);
    assert Little(n / 256, 3) == [(n / 256 % 256) as byte] + Little(0, 2);
    assert Little(n, 2) == [(n % 256) as byte] + Little(n / 256, 1);
    assert Little(n / 256, 1) == [(n / 256 % 256) as byte] + Little(0, 0);
  }

  lemma {:induction false} TempAppended(head: seq<byte>, time: seq<byte>, clientChallenge: seq<byte>, targetInfo: seq<byte>)
    requires |time| == |clientChallenge| == 8
    ensures head + ([1, 1] + Zeros(6)) + time + clientChallenge + Zeros(4) + targetInfo + Zeros(4) ==
            head + Temp(time, clientChallenge, targetInfo)
  {
    hide Zeros;
  }

  lemma {:induction false} OverwriteHead(b: seq<byte>, n: nat, proof: seq<byte>, temp: seq<byte>)
    requires |proof| == 16 <= n <= |b| && b[..n][16..] == temp
    ensures Store(b, 0, proof)[..n] == proof + temp
  {
    StoreIs(b, 0, proof);
    assert Store(b, 0, proof)[..n] == proof + b[..n][16..];
  }

  method MacOf(key: seq<byte>, text: seq<byte>) returns (digest: seq<byte>)
    requires |key| == 16 && |text| < LONG
    ensures digest == NtlmSpec.HmacMd5(key, text) && |digest| == 16
  {
    hide Hmac.Mac;
    digest := Hmac.HmacMd5(text, key);
  }

  /** NTOWFv2. */
  method ResponseKeyOf(user: Text, password: Text, domain: Option<Text>) returns (key: seq<byte>)
    requires |user| + |OrEmpty(domain)| < 0x4000_0000 && |password| < 0x4000_0000
    ensures key == ResponseKey(user, password, domain)
  {
    hide Hmac.Mac;
    hide Md4.Digest;
    var context := new Md4.Context();
    var octets := LittleOctets(password);
    EmptyUnit(octets);
    var _ := context.Update(octets);
    var hash := context.Final();
    key := Hmac.HmacMd5(LittleOctets(Upper(user) + OrEmpty(domain)), hash);
  }
}
