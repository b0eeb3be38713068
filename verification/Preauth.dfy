/** The pre-authentication hash of MS-SMB2 section 3.2.5 and the keys derived from it. */
module Preauth {
  import opened Octet
  import opened Bytes
  import opened Sequences
  import BlockHash
  import Hmac
  import ShaContext
  import Sha512

  const HASH_SIZE: nat := 64
  const KEY_SIZE: nat := 16

  /** The hash over a list of messages: every message is hashed behind the hash so far. */
  function Transcript(messages: seq<seq<byte>>): (r: seq<byte>)
    ensures |r| == HASH_SIZE
  {
    if messages == [] then Zeros(HASH_SIZE)
    else Sha512.Digest(Transcript(messages[..|messages| - 1]) + messages[|messages| - 1])
  }

  lemma {:induction false} TranscriptPush(messages: seq<seq<byte>>, m: seq<byte>)
    ensures Transcript(messages + [m]) == Sha512.Digest(Transcript(messages) + m)
  {
    var all := messages + [m];
    assert all[..|all| - 1] == messages;
  }

  /** Section 3.2.5.2 of MS-SMB2: from the value so far, each message in turn is hashed behind it. */
  function HashedOn(value: seq<byte>, messages: seq<seq<byte>>): seq<byte>
    decreases |messages|
  {
    if messages == [] then value else HashedOn(Sha512.Digest(value + messages[0]), messages[1..])
  }

  lemma {:induction false} HashedOnPush(value: seq<byte>, messages: seq<seq<byte>>, m: seq<byte>)
    ensures HashedOn(value, messages + [m]) == Sha512.Digest(HashedOn(value, messages) + m)
    decreases |messages|
  {
    hide Sha512.Digest;
    if messages == [] {
      EmptyUnit([m]);
      assert HashedOn(Sha512.Digest(value + m), [m][1..]) == Sha512.Digest(value + m);
    } else {
      TailOfJoined(messages, [m]);
      HashedOnPush(Sha512.Digest(value + messages[0]), messages[1..], m);
    }
  }

  /** The hash of a transcript starts from zeros and takes in the messages one after the other. */
  lemma {:induction false} TranscriptHashesOn(messages: seq<seq<byte>>)
    ensures Transcript(messages) == HashedOn(Zeros(64), messages)
  {
    hide Sha512.Digest;
    if messages != [] {
      var before, m := messages[..|messages| - 1], messages[|messages| - 1];
      TranscriptHashesOn(before);
      assert before + [m] == messages;
      HashedOnPush(Zeros(64), before, m);
    }
  }

  function Flatten(iov: seq<seq<byte>>): seq<byte> {
    BlockHash.Flatten(iov)
  }

  /** Messages are shorter than this; the hash takes far longer ones. */
  const MAX_MESSAGE: nat := 0x1_0000_0000_0000_0000

  lemma {:induction false} Sha512Room(n: nat)
    requires n < MAX_MESSAGE
    ensures Sha512.PARAMS.Valid() && 8 * (HASH_SIZE + n) < Sha512.PARAMS.MaxBits()
  {
    BlockHash.PowValues();
  }

  /** Hash the hash so far and the pieces of a message. */
  method UpdatePreauthHash(hash: seq<byte>, iov: seq<seq<byte>>) returns (r: seq<byte>)
    requires |hash| == HASH_SIZE && |Flatten(iov)| < MAX_MESSAGE
    ensures r == Sha512.Digest(hash + Flatten(iov))
  {
    hide Sha512.Digest;
    Sha512Room(|Flatten(iov)|);
    FlattenFront(hash, iov);
    DigestIs(hash + Flatten(iov));
    var code;
    code, r := ShaContext.HashPieces(Sha512.PARAMS, [hash] + iov);
  }

  lemma {:induction false} DigestIs(msg: seq<byte>)
    ensures Sha512.PARAMS.Valid() && Sha512.PARAMS.Digest(msg) == Sha512.Digest(msg)
  {
  }

  lemma {:induction false} FlattenFront(first: seq<byte>, rest: seq<seq<byte>>)
    ensures BlockHash.Flatten([first] + rest) == first + BlockHash.Flatten(rest)
  {
    var all := [first] + rest;
    if rest == [] {
      assert all == [first] && [first][..0] == [];
      EmptyUnit(first);
    } else {
      var k := |rest| - 1;
      assert all[..|all| - 1] == [first] + rest[..k];
      FlattenFront(first, rest[..k]);
      Assoc(first, BlockHash.Flatten(rest[..k]), rest[k]);
    }
  }

  // ---- key derivation ---------------------------------------------------------------------------------

  /** The key as HMAC gets it: sixteen octets, filled up with zeros. */
  function InputKey(key: seq<byte>): (r: seq<byte>)
    ensures |r| == KEY_SIZE
  {
    if |key| >= KEY_SIZE then key[..KEY_SIZE] else key + Zeros(KEY_SIZE - |key|)
  }

  /** Section 5.1 of SP 800-108, counter mode, one block: counter, label, a zero, context, length in bits. */
  function Kdf(key: seq<byte>, purpose: seq<byte>, context: seq<byte>): (r: seq<byte>)
    ensures |r| == KEY_SIZE
  {
    Hmac.MacLength(Hmac.Sha, Hmac.SHA_BLOCK, InputKey(key), KdfInput(purpose, context));
    Hmac.Mac(Hmac.Sha, Hmac.SHA_BLOCK, InputKey(key), KdfInput(purpose, context))[..KEY_SIZE]
  }

  /** A label of the C program: its characters and the closing zero. */
  function Text(name: string): (r: seq<byte>)
    ensures |r| == |name| + 1
  {
    seq(|name|, i requires 0 <= i < |name| => ((name[i] as int) % 256) as byte) + [0]
  }

  function KdfInput(purpose: seq<byte>, context: seq<byte>): seq<byte> {
    Big(1, 4) + purpose + [0] + context + Big(8 * KEY_SIZE, 4)
  }

  method DeriveKey(key: seq<byte>, purpose: seq<byte>, context: seq<byte>) returns (derived: seq<byte>)
    requires |purpose| <= 1024 && |context| <= 1024
    ensures derived == Kdf(key, purpose, context)
  {
    hide Hmac.Mac;
    hide Big;
    hide Hmac.Sha;
    hide Hmac.HmacContext.Running;
    Hmac.MacLength(Hmac.Sha, Hmac.SHA_BLOCK, InputKey(key), KdfInput(purpose, context));
    var ctx := new Hmac.HmacContext();
    EmptyUnit(Big(1, 4));
    var code := ctx.Reset(InputKey(key));
    code := ctx.Input(Big(1, 4));
    code := ctx.Input(purpose);
    code := ctx.Input([0]);
    code := ctx.Input(context);
    code := ctx.Input(Big(8 * KEY_SIZE, 4));
    var digest;
    code, digest := ctx.Result();
    derived := digest[..KEY_SIZE];
  }
}
