/** What the keys and responses of NTLMv2 are computed from: sections 2.2.2.7 and 3.3.2 of MS-NLMP. */
module NtlmKeys {
  import opened Octet
  import opened Bytes
  import opened Sequences
  import opened NtlmSpec
  import Hmac
  import Md4
  import Md5

  // ---- the response key --------------------------------------------------------------------------------

  /** Letters of ASCII become capitals, all other units stay. */
  lemma {:induction false} UpperAt(t: Text, i: nat)
    requires i < |t|
    ensures Upper(t)[i] == if 'a' as nat <= t[i] <= 'z' as nat then 'A' as nat + (t[i] - 'a' as nat) else t[i]
  {
    if i > 0 {
      UpperAt(t[1..], i - 1);
    }
  }

  lemma {:induction false} UpperTwice(t: Text)
    ensures Upper(Upper(t)) == Upper(t)
  {
    if t != [] {
      UpperTwice(t[1..]);
      assert Upper(t)[1..] == Upper(t[1..]);
    }
  }

  lemma {:induction false} UpperJoins(a: Text, b: Text)
    ensures Upper(a + b) == Upper(a) + Upper(b)
  {
    if a == [] {
      EmptyUnit(b);
      EmptyUnit(Upper(b));
    } else {
      TailOfJoined(a, b);
      UpperJoins(a[1..], b);
      Assoc([Upper(a)[0]], Upper(a[1..]), Upper(b));
    }
  }

  /** The user name and the domain are hashed one behind the other, the user first: where one ends and the
      other begins leaves no trace. */
  lemma {:induction false} KeyMoves(user: Text, x: Text, password: Text, domain: Text)
    requires Upper(x) == x
    ensures ResponseKey(user + x, password, Some(domain)) == ResponseKey(user, password, Some(x + domain))
  {
    hide Upper;
    hide HmacMd5;
    hide NtHash;
    UpperJoins(user, x);
    Assoc(Upper(user), x, domain);
  }

  /** The case of the user name makes no difference. */
  lemma {:induction false} KeyIgnoresCase(user: Text, password: Text, domain: Option<Text>)
    ensures ResponseKey(user, password, domain) == ResponseKey(Upper(user), password, domain)
  {
    hide HmacMd5;
    hide NtHash;
    UpperTwice(user);
  }

  /** Without a domain the key is HMAC-MD5, under the MD4 of the password, of the user name in capitals; and no
      domain is the same as an empty one. */
  lemma {:induction false} KeyWithoutDomain(user: Text, password: Text)
    ensures ResponseKey(user, password, None) == Hmac.Mac(Md5.Digest, 64, Md4.Digest(LittleOctets(password)), LittleOctets(Upper(user)))
    ensures ResponseKey(user, password, Some([])) == ResponseKey(user, password, None)
  {
    hide Hmac.Mac;
    EmptyUnit(Upper(user));
  }

  /** The units of a text are hashed with the low octet first. */
  lemma {:induction false} OctetsOfText(t: Text, i: nat)
    requires i < |t| && t[i] < SHORT
    ensures LittleOctets(t)[2 * i] as nat == t[i] % 256 && LittleOctets(t)[2 * i + 1] as nat == t[i] / 256
  {
    var head, rest := Little(t[0], 2), LittleOctets(t[1..]);
    assert LittleOctets(t) == head + rest;
    if i == 0 {
      LittleOfTwo(t[0]);
      ByteOfNat(t[0] % 256);
      ByteOfNat(t[0] / 256);
    } else {
      hide Little;
      OctetsOfText(t[1..], i - 1);
      assert (head + rest)[2 * i] == rest[2 * (i - 1)] && (head + rest)[2 * i + 1] == rest[2 * (i - 1) + 1];
    }
  }

  // ---- the response ------------------------------------------------------------------------------------

  /** Section 2.2.2.7: two ones, the time, the client's challenge and the target information at their places,
      and zeros everywhere else. */
  lemma {:induction false} TempLayout(time: seq<byte>, clientChallenge: seq<byte>, targetInfo: seq<byte>, i: nat)
    requires |time| == |clientChallenge| == 8 && i < |Temp(time, clientChallenge, targetInfo)|
    ensures var temp := Temp(time, clientChallenge, targetInfo);
            |temp| == 32 + |targetInfo| &&
            temp[i] == if i < 2 then 1
                       else if 8 <= i < 16 then time[i - 8]
                       else if 16 <= i < 24 then clientChallenge[i - 16]
                       else if 28 <= i < 28 + |targetInfo| then targetInfo[i - 28]
                       else 0
  {
  }

  /** The proof is a code over the server's challenge and then the rest of the response: where one ends and the
      other begins leaves no trace. */
  lemma {:induction false} ProofMoves(key: seq<byte>, a: seq<byte>, b: seq<byte>, temp: seq<byte>)
    ensures Proof(key, a + b, temp) == Proof(key, a, b + temp)
  {
    hide HmacMd5;
    Assoc(a, b, temp);
  }

  /** The response starts with the code of everything behind it, and that code under the same key is the
      session key. */
  lemma {:induction false} ResponseProves(key: seq<byte>, serverChallenge: seq<byte>, temp: seq<byte>)
    ensures var r := Response(key, serverChallenge, temp);
            && |r| == 16 + |temp| && r[16..] == temp
            && r[..16] == Hmac.Mac(Md5.Digest, 64, key, serverChallenge + r[16..])
            && SessionKey(key, serverChallenge, temp) == Hmac.Mac(Md5.Digest, 64, key, r[..16])
  {
    hide Hmac.Mac;
  }
}
