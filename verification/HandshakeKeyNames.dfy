/** What each key of a joined connection is derived for. */
module HandshakeKeyNames {
  import opened Octet
  import opened Bytes
  import opened Handshake
  import opened HandshakeAnswer
  import opened HandshakeKeys
  import Hmac
  import Preauth

  /** The characters of a name. */
  function Characters(name: string): (r: seq<byte>)
    ensures |r| == |name|
  {
    if name == [] then [] else [(name[0] as int % 256) as byte] + Characters(name[1..])
  }

  /** `out` is what section 3.1.4.2 of MS-SMB2 derives from `key`: the first half of the HMAC-SHA-256, under the
      sixteen octets of the key, of the number 1, the name with a zero, another zero, the context, and the number of
      bits, 128. */
  predicate DerivedKey(out: seq<byte>, key: seq<byte>, name: string, context: seq<byte>) {
    var padded := if |key| >= 16 then key[..16] else key + Zeros(16 - |key|);
    var message := [0, 0, 0, 1] + (Characters(name) + [0]) + [0] + context + [0, 0, 0, 128];
    |out| == 16 && out == Hmac.Mac(Hmac.Sha, 64, padded, message)[..16]
  }

  lemma {:induction false} TextIs(name: string)
    ensures Preauth.Text(name) == Characters(name) + [0]
  {
    forall i | 0 <= i < |name| ensures Preauth.Text(name)[i] == Characters(name)[i] {
      CharacterAt(name, i);
    }
  }

  lemma {:induction false} CharacterAt(name: string, i: nat)
    requires i < |name|
    ensures Characters(name)[i] == (name[i] as int % 256) as byte
  {
    if i > 0 {
      CharacterAt(name[1..], i - 1);
    }
  }

  lemma {:induction false} KdfDerives(key: seq<byte>, name: string, context: seq<byte>)
    ensures DerivedKey(Preauth.Kdf(key, Preauth.Text(name), context), key, name, context)
  {
    hide Hmac.Mac;
    hide Preauth.Text;
    hide Characters;
    TextIs(name);
    OneOctet(1);
    OneOctet(128);
    hide Big;
  }

  lemma {:induction false} OneOctet(n: nat)
    requires n < 256
    ensures Big(n, 4) == [0, 0, 0, n as byte]
  {
    assert n / 256 == 0;
    assert Big(0, 0) == [];
    assert Big(0, 1) == [0];
    assert Big(0, 2) == [0, 0];
    assert Big(0, 3) == [0, 0, 0];
  }

  /** Every joined connection with keys, of dialect 3.0 or later: what each key is derived for. The client seals
      with the one for its direction, which the server calls incoming, and opens with the other. From 3.1.1 on the
      names are new and the context is the hash of the exchange. */
  lemma {:induction false} KeyDirections(c: Config, sign: bool, seal: bool, events: seq<Event>)
    requires Calm(c, sign, seal, events) && Joined(c, After(c, sign, seal, events))
    requires var t := After(c, sign, seal, events); (Protected(t) || t.dialect == V0311) && t.dialect >= V0300
    ensures var t := After(c, sign, seal, events);
            var key := Material(t.sessionKey);
            if t.dialect <= V0302 then
              && DerivedKey(t.keys.signing, key, "SMB2AESCMAC", Characters("SmbSign") + [0])
              && DerivedKey(t.keys.serverIn, key, "SMB2AESCCM", Characters("ServerIn ") + [0])
              && DerivedKey(t.keys.serverOut, key, "SMB2AESCCM", Characters("ServerOut") + [0])
            else
              && DerivedKey(t.keys.signing, key, "SMBSigningKey", t.hash)
              && DerivedKey(t.keys.serverIn, key, "SMBC2SCipherKey", t.hash)
              && DerivedKey(t.keys.serverOut, key, "SMBS2CCipherKey", t.hash)
  {
    hide After;
    hide DerivedKey;
    hide Preauth.Kdf;
    hide Preauth.Text;
    hide Preauth.Transcript;
    hide Characters;
    hide Exchange;
    var t := After(c, sign, seal, events);
    var key := Material(t.sessionKey);
    KeysFromTranscript(c, sign, seal, events);
    if t.dialect <= V0302 {
      TextIs("SmbSign");
      TextIs("ServerIn ");
      TextIs("ServerOut");
      KdfDerives(key, "SMB2AESCMAC", Preauth.Text("SmbSign"));
      KdfDerives(key, "SMB2AESCCM", Preauth.Text("ServerIn "));
      KdfDerives(key, "SMB2AESCCM", Preauth.Text("ServerOut"));
    } else {
      KdfDerives(key, "SMBSigningKey", t.hash);
      KdfDerives(key, "SMBC2SCipherKey", t.hash);
      KdfDerives(key, "SMBS2CCipherKey", t.hash);
    }
  }

  /** With an older dialect the signing key is the session key itself, filled up with zeros. */
  lemma {:induction false} SigningKeyBefore(c: Config, sign: bool, seal: bool, events: seq<Event>)
    requires Calm(c, sign, seal, events) && Joined(c, After(c, sign, seal, events))
    requires var t := After(c, sign, seal, events); Protected(t) && t.dialect in {V0202, V0210}
    ensures var t := After(c, sign, seal, events);
            var key := Material(t.sessionKey);
            t.keys.signing == if |key| >= 16 then key[..16] else key + Zeros(16 - |key|)
  {
    hide After;
    hide Preauth.Kdf;
    hide Preauth.Transcript;
    hide Exchange;
    hide OverHead;
    hide Zeros;
    KeysFromTranscript(c, sign, seal, events);
    var t := After(c, sign, seal, events);
    HeadFilled(Material(t.sessionKey));
    assert t.keys.signing == OverHead(NoKeys().signing, Material(t.sessionKey));
  }

  lemma {:induction false} HeadFilled(key: seq<byte>)
    ensures OverHead(NoKeys().signing, key) == if |key| >= 16 then key[..16] else key + Zeros(16 - |key|)
  {
    if |key| < 16 {
      ZerosTail(16, |key|);
    }
  }
}
