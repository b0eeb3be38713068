/** The handshake callbacks of libsmb2.c over the context they update, proved against Handshake. */
module Connect {
  import opened Octet
  import opened Bytes
  import opened Handshake
  import opened HandshakeEnd
  import Preauth
  import Sha512

  predicate Short(pieces: seq<seq<byte>>) {
    |Preauth.Flatten(pieces)| < Preauth.MAX_MESSAGE
  }

  predicate ShortRequest(next: Request) {
    next.Sent? ==> Short(next.pieces)
  }

  predicate ShortReply(r: Reply) {
    Short(r.message) && ShortRequest(r.next) && KeySized(r.key)
  }

  predicate KeySized(key: Option<seq<byte>>) {
    key.Some? ==> |key.value| == Preauth.KEY_SIZE
  }

  predicate ShortEvent(e: Event) {
    match e
    case Connected(_, request, _) => request.Some? ==> Short(request.value)
    case Delivered(r) => ShortReply(r)
    case ExpiredOut(_, message) => Short(message)
    case ExpiredWait(_, message) => Short(message)
    case Interim(_, _, _, message) => Short(message)
    case _ => true
  }

  class Smb2Context {
    const config: Config
    var connectCb: bool
    var connectData: bool
    var outqueue: seq<Command>
    var pdu: Option<Command>
    var waitqueue: seq<Command>
    var broken: bool
    var open: bool
    var sign: bool
    var seal: bool
    var dialect: nat
    var preauthHash: seq<byte>
    var sessionKey: Option<seq<byte>>
    var signingKey: seq<byte>
    var serverInKey: seq<byte>
    var serverOutKey: seq<byte>
    var answers: seq<Answer>
    ghost var released: nat
    ghost var wire: seq<seq<byte>>
    ghost var offer: Option<NegotiateReply>
    ghost var session: Option<Reply>
    ghost var tree: Option<Reply>

    ghost function View(): State
      reads this
    {
      State(connectCb, outqueue, pdu, waitqueue, connectData, answers, released, broken, open, sign, seal, dialect,
            preauthHash, sessionKey, Keys(signingKey, serverInKey, serverOutKey), wire, offer, session, tree)
    }

    /** The fixed sizes of the buffers. */
    ghost predicate Sized()
      reads this
    {
      |preauthHash| == Preauth.HASH_SIZE && |signingKey| == Preauth.KEY_SIZE && KeySized(sessionKey)
    }

    ghost predicate Valid()
      reads this
    {
      Sized() && Sound(View())
    }

    /** The context when smb2_connect_share_async returns zero. */
    constructor (config: Config, sign: bool, seal: bool)
      ensures Valid() && View() == Start(sign, seal) && this.config == config
    {
      this.config := config;
      connectCb, connectData, outqueue, pdu, waitqueue := true, true, [], None, [];
      broken, open, this.sign, this.seal, dialect := false, false, sign, seal, 0;
      preauthHash, sessionKey := Zeros(Preauth.HASH_SIZE), None;
      signingKey, serverInKey, serverOutKey := NoKey(), NoKey(), NoKey();
      answers, released, wire := [], 0, [];
      offer, session, tree := None, None, None;
      new;
      StartSound(sign, seal);
    }

    method CloseContext()
      modifies this`open, this`signingKey, this`sessionKey
      ensures View() == Closed(old(View())) && sessionKey.None? && |signingKey| == Preauth.KEY_SIZE
    {
      open := false;
      signingKey := NoKey();
      if sessionKey.Some? {
        sessionKey := None;
      }
    }

    /** free_c_data: the context does not point to what has been freed. */
    method FreeCData()
      modifies this`connectData, this`released
      ensures View() == FreeConnectData(old(View()))
    {
      if connectData {
        connectData := false;
      }
      released := released + 1;
    }

    /** The user's callback, then free_c_data. */
    method Complete(a: Answer)
      modifies this`answers, this`released, this`connectData
      ensures View() == Finish(old(View()), a)
    {
      answers := answers + [a];
      FreeCData();
    }

    method CloseAndComplete(a: Answer)
      requires Sized()
      modifies this
      ensures View() == Refuse(old(View()), a) && Sized()
    {
      CloseContext();
      Complete(a);
    }

    method UpdatePreauthHash(iov: seq<seq<byte>>)
      requires |preauthHash| == Preauth.HASH_SIZE && Short(iov)
      modifies this`preauthHash, this`wire
      ensures View() == Hashed(old(View()), iov) && |preauthHash| == Preauth.HASH_SIZE
    {
      hide Sha512.Digest;
      preauthHash := Preauth.UpdatePreauthHash(preauthHash, iov);
      wire := wire + [Preauth.Flatten(iov)];
    }

    /** smb2_queue_pdu of a command that gets the connect data. */
    method QueuePdu(cb: Callback)
      modifies this`outqueue
      ensures View() == Enqueued(old(View()), cb)
    {
      outqueue := outqueue + [Handing(cb)];
    }

    /** Zero when the request is queued; the caller completes otherwise. */
    method SendSessionSetupRequest(next: Request) returns (ret: Option<Errno>)
      requires Sized() && ShortRequest(next)
      modifies this
      ensures ret == if next.Sent? then None else Some(if next.NoBlob? then Unspecified else NoMemory)
      ensures View() == if next.Sent? then Requested(old(View()), next) else Closed(old(View()))
      ensures Sized()
    {
      match next
      case NoBlob =>
        CloseContext();
        ret := Some(Unspecified);
      case NoPdu =>
        CloseContext();
        ret := Some(NoMemory);
      case Sent(pieces) =>
        QueuePdu(SessionSetupCb);
        UpdatePreauthHash(pieces);
        ret := None;
    }

    method ConnectCb(status: int, request: Option<seq<seq<byte>>>)
      requires Sized() && (request.Some? ==> Short(request.value))
      modifies this
      ensures View() == OnSocket(old(View()), status, request) && Sized()
    {
      hide Preauth.Flatten;
      hide Sha512.Digest;
      if status != 0 {
        Complete(OfSocket(-status));
        return;
      }
      preauthHash := Zeros(Preauth.HASH_SIZE);
      if request.None? {
        Complete(Failed(NoMemory));
        return;
      }
      QueuePdu(NegotiateCb);
      UpdatePreauthHash(request.value);
    }

    method OnNegotiateReply(r: Reply)
      requires Sized() && ShortReply(r)
      modifies this
      ensures View() == OnNegotiate(old(View()), r) && Sized()
    {
      hide Preauth.Flatten;
      hide Sha512.Digest;
      hide Refuse;
      hide Requested;
      hide Short;
      UpdatePreauthHash(r.message);
      if r.status != SUCCESS {
        CloseAndComplete(OfStatus(r.status));
        return;
      }
      var ok := TakeOffer(r.negotiated);
      if !ok {
        CloseAndComplete(Failed(NoMemory));
        return;
      }
      if !r.auth {
        CloseAndComplete(Failed(NoMemory));
        return;
      }
      SendOrComplete(r.next);
    }

    /** The server's dialect, and whether what was asked for can be had with it. */
    method TakeOffer(rep: NegotiateReply) returns (ok: bool)
      modifies this`dialect, this`offer, this`sign
      ensures ok == !Unprotected(old(View()), rep)
      ensures dialect == rep.dialect && offer == Some(rep)
      ensures sign == if ok then !seal && (old(sign) || rep.signingRequired) else old(sign)
    {
      hide Lacking;
      dialect := rep.dialect;
      offer := Some(rep);
      ok := CheckOffer(rep);
      if ok {
        SettleSigning(rep);
      }
    }

    method SettleSigning(rep: NegotiateReply)
      modifies this`sign
      ensures sign == (!seal && (old(sign) || rep.signingRequired))
    {
      if rep.signingRequired {
        sign := true;
      }
      if seal {
        sign := false;
      }
    }

    method CheckOffer(rep: NegotiateReply) returns (ok: bool)
      requires dialect == rep.dialect
      ensures ok == !Lacking(sign, seal, rep)
    {
      if seal && (dialect == V0300 || dialect == V0302) {
        if !rep.encryption {
          return false;
        }
      }
      if sign && !rep.signingEnabled {
        return false;
      }
      ok := true;
    }

    method SendOrComplete(next: Request)
      requires Sized() && ShortRequest(next)
      modifies this
      ensures View() == Requested(old(View()), next) && Sized()
    {
      hide Preauth.Flatten;
      hide Sha512.Digest;
      var ret := SendSessionSetupRequest(next);
      if ret.Some? {
        CloseAndComplete(Failed(ret.value));
      }
    }

    /** smb2_create_signing_key. */
    method CreateSigningKey()
      requires |signingKey| == Preauth.KEY_SIZE && |preauthHash| == Preauth.HASH_SIZE
      modifies this`signingKey, this`serverInKey, this`serverOutKey
      ensures View() == old(View()).(keys := DialectKeys(old(View().keys), dialect, Material(sessionKey), preauthHash))
      ensures |signingKey| == Preauth.KEY_SIZE
    {
      hide Preauth.Kdf;
      var key := Material(sessionKey);
      if dialect == V0202 || dialect == V0210 {
        signingKey := OverHead(signingKey, key);
      } else if dialect <= V0302 {
        signingKey := Preauth.DeriveKey(key, Preauth.Text("SMB2AESCMAC"), Preauth.Text("SmbSign"));
        serverInKey := Preauth.DeriveKey(key, Preauth.Text("SMB2AESCCM"), Preauth.Text("ServerIn "));
        serverOutKey := Preauth.DeriveKey(key, Preauth.Text("SMB2AESCCM"), Preauth.Text("ServerOut"));
      } else if dialect > V0302 {
        signingKey := Preauth.DeriveKey(key, Preauth.Text("SMBSigningKey"), preauthHash);
        serverInKey := Preauth.DeriveKey(key, Preauth.Text("SMBC2SCipherKey"), preauthHash);
        serverOutKey := Preauth.DeriveKey(key, Preauth.Text("SMBS2CCipherKey"), preauthHash);
      }
    }

    method OnSessionSetupReply(r: Reply)
      requires Sized() && ShortReply(r)
      modifies this
      ensures View() == OnSetup(config, old(View()), r) && Sized()
    {
      hide Preauth.Flatten;
      hide Sha512.Digest;
      hide Refuse;
      hide Requested;
      hide Keyed;
      if r.status == MORE_PROCESSING_REQUIRED && r.setUp.hasToken {
        UpdatePreauthHash(r.message);
        SendOrComplete(r.next);
        return;
      }
      wire := wire + [Preauth.Flatten(r.message)];
      if r.status != SUCCESS {
        CloseAndComplete(OfStatus(r.status));
        return;
      }
      if config.signingRequired && (r.setUp.guest || r.setUp.nullUser) {
        CloseAndComplete(Failed(AccessDenied));
        return;
      }
      if r.setUp.encrypt {
        seal := true;
        sign := false;
      }
      KeysAndTree(r);
    }

    /** The session key that the authentication has made, and whether it can be used. */
    method TakeSessionKey(key: Option<seq<byte>>) returns (haveValidSessionKey: bool)
      requires Sized() && KeySized(key)
      modifies this`sessionKey
      ensures View() == (if key.Some? then old(View()).(sessionKey := key) else old(View())) && Sized()
      ensures haveValidSessionKey == ValidKey(key)
    {
      haveValidSessionKey := true;
      if key.Some? {
        sessionKey := key;
      } else {
        haveValidSessionKey := false;
      }
      if sessionKey.None? || sessionKey.value == NoKey() {
        haveValidSessionKey := false;
      }
    }

    method KeysAndTree(r: Reply)
      requires Sized() && ShortReply(r)
      modifies this
      ensures View() == Keyed(config, old(View()), r) && Sized()
    {
      hide DialectKeys;
      hide Refuse;
      hide Finish;
      hide TreeRequested;
      hide Short;
      hide ValidKey;
      if sign || seal || dialect == V0311 {
        var haveValidSessionKey := TakeSessionKey(r.key);
        if sign && !haveValidSessionKey {
          CloseAndComplete(Failed(AccessDenied));
          return;
        }
        CreateSigningKey();
        if !r.signature.Unsigned? {
          if r.signature.Incomputable? {
            Complete(Failed(Invalid));
            return;
          }
          if r.signature.Wrong? {
            Complete(Failed(Invalid));
            return;
          }
        }
      }
      RequestTree(r);
    }

    method RequestTree(r: Reply)
      requires Sized()
      modifies this
      ensures View() == TreeRequested(config, old(View()), r) && Sized()
    {
      session := Some(r);
      if !config.passthrough {
        if !r.treeRequest {
          CloseAndComplete(Failed(NoMemory));
          return;
        }
        QueuePdu(TreeConnectCb);
      } else {
        Complete(Fine);
      }
    }

    /** smb2_process_tree_connect_fixed, as far as it concerns the context. */
    method ProcessTreeConnect(r: Reply)
      modifies this`seal
      ensures View() == TreeParsed(old(View()), r)
    {
      if !ErrorStatus(r.status) {
        if !seal {
          seal := r.tree.encrypt;
        }
      }
    }

    /** tree_connect_cb, after the body of the reply has been read. */
    method OnTreeReply(r: Reply)
      requires Sized()
      modifies this
      ensures View() == TreeConnected(old(View()), r) && Sized()
    {
      hide Refuse;
      hide Finish;
      if r.status != SUCCESS {
        CloseAndComplete(OfStatus(r.status));
        return;
      }
      if (r.tree.dfs || r.tree.dfsRoot) || r.tree.dfsCapable {
        CloseAndComplete(Failed(NotSupported));
        return;
      }
      if r.tree.encrypt {
        if dialect < V0300 || sessionKey.None? {
          CloseAndComplete(Failed(AccessDenied));
          return;
        }
        seal := true;
        sign := false;
      }
      tree := Some(r);
      Complete(Fine);
    }

    /** pdu->cb of a command that has been taken out of its queue. The body of a tree reply has been read
        before; a command that ends locally has none. */
    method CallBack(p: Command, r: Reply)
      requires Sized() && ShortReply(r)
      requires p == Handing(TreeConnectCb) ==> TreeParsed(View(), r) == View()
      modifies this
      ensures View() == Perform(config, Handle(old(View()), p, r)) && Sized()
    {
      hide OnNegotiate;
      hide OnSetup;
      hide TreeConnected;
      hide TreeParsed;
      match p
      case Handing(NegotiateCb) => OnNegotiateReply(r);
      case Handing(SessionSetupCb) => OnSessionSetupReply(r);
      case Handing(TreeConnectCb) => OnTreeReply(r);
      case Other =>
    }

    method CallLocally(p: Command, status: nat, message: seq<seq<byte>>)
      requires Sized() && Short(message)
      modifies this
      ensures View() == Perform(config, Handle(old(View()), p, Local(status, message))) && Sized()
    {
      hide Handshake.CallBack;
      hide Short;
      NothingParsed(View(), status, message);
      CallBack(p, Local(status, message));
    }

    // ---- events ----------------------------------------------------------------------------------------

    /** The socket is connected, or fails: connect_cb runs, if it is set, and is reset then. The service fails
        with the socket, and also when the socket reports an error without a code. */
    method SocketReady(code: int, request: Option<seq<seq<byte>>>, usable: bool)
      requires Valid() && ShortEvent(Connected(code, request, usable))
      modifies this
      ensures Valid() && View() == Deliver(config, old(View()), Connected(code, request, usable))
    {
      hide Sound;
      hide OnSocket;
      hide Handshake.CallBack;
      hide Arrive;
      hide Deliver;
      DeliverSound(config, View(), Connected(code, request, usable));
      ServiceSocket(code, request, usable);
    }

    method ServiceSocket(code: int, request: Option<seq<seq<byte>>>, usable: bool)
      requires Sized() && (request.Some? ==> Short(request.value))
      modifies this
      ensures Sized() && View() == Deliver(config, old(View()), Connected(code, request, usable))
    {
      hide OnSocket;
      hide Handshake.CallBack;
      hide Arrive;
      hide Short;
      if connectCb && !broken {
        open := code == 0 && usable;
        BrokenLast(View().(hook := false), !(code == 0 && usable), code, request);
        RunHook(code, request);
        broken := !(code == 0 && usable);
      }
    }

    method RunHook(code: int, request: Option<seq<seq<byte>>>)
      requires Sized() && (request.Some? ==> Short(request.value))
      modifies this
      ensures View() == (if old(connectCb) then OnSocket(old(View()).(hook := false), code, request) else old(View())) && Sized()
    {
      hide OnSocket;
      if connectCb {
        HookLast(View(), code, request);
        ConnectCb(code, request);
        connectCb := false;
      }
    }

    /** Reading or writing fails. */
    method Fail()
      requires Valid()
      modifies this`broken
      ensures Valid() && View() == Deliver(config, old(View()), Broke)
    {
      DeliverSound(config, View(), Broke);
      hide Sound;
      broken := true;
    }

    /** Any other command is queued. */
    method QueueOther()
      requires Valid()
      modifies this`outqueue
      ensures Valid() && View() == Deliver(config, old(View()), Queued)
    {
      hide Sound;
      hide OnSocket;
      hide Handshake.CallBack;
      hide Preauth.Transcript;
      DeliverSound(config, View(), Queued);
      SoundLinear(View());
      outqueue := outqueue + [Other];
    }

    /** smb2_write_to_socket has written the first command. */
    method WriteToSocket()
      requires Valid()
      modifies this`outqueue, this`waitqueue
      ensures Valid() && View() == Deliver(config, old(View()), Written)
    {
      hide Sound;
      hide OnSocket;
      hide Handshake.CallBack;
      hide Preauth.Transcript;
      DeliverSound(config, View(), Written);
      SoundLinear(View());
      if !broken && |outqueue| > 0 {
        outqueue, waitqueue := outqueue[1..], waitqueue + [outqueue[0]];
      }
    }

    /** The header of a reply has been read: its command, if one waits for it, is the current one. */
    method ReceiveHeader(k: nat)
      requires Valid()
      modifies this`pdu, this`waitqueue
      ensures Valid() && View() == Deliver(config, old(View()), Received(k))
    {
      hide Sound;
      hide OnSocket;
      hide Handshake.CallBack;
      hide Preauth.Transcript;
      DeliverSound(config, View(), Received(k));
      SoundLinear(View());
      if !broken && pdu.None? && k < |waitqueue| {
        pdu, waitqueue := Some(waitqueue[k]), waitqueue[..k] + waitqueue[k + 1..];
      }
    }

    /** An interim reply has to be sealed too. It is dropped, except in passthrough mode; there a callback of
        the handshake would free what its command still holds. */
    method InterimReply(k: nat, sealed: bool, named: Named, message: seq<seq<byte>>)
      requires Valid() && Short(message)
      modifies this
      ensures Sized() && View() == Deliver(config, old(View()), Interim(k, sealed, named, message))
      ensures !Interrupts(config, old(View()), Interim(k, sealed, named, message)) ==> Valid()
    {
      hide Sound;
      hide OnSocket;
      hide Handshake.CallBack;
      SoundUnless(config, View(), Interim(k, sealed, named, message));
      if broken {
        return;
      }
      if !sealed && named != AsNegotiate && named != AsSessionSetup {
        if seal {
          broken := true;
          return;
        }
      }
      if config.passthrough && k < |waitqueue| {
        CallLocally(waitqueue[k], PENDING, message);
      }
    }

    /** The rest of the reply has been read: its body, the policy of what is received, and then the callback. */
    method DeliverReply(r: Reply)
      requires Valid() && ShortReply(r)
      modifies this
      ensures Valid() && View() == Deliver(config, old(View()), Delivered(r))
    {
      hide Sound;
      hide OnSocket;
      hide Handshake.CallBack;
      hide Short;
      DeliverSound(config, View(), Delivered(r));
      if broken || pdu.None? || r.status == PENDING {
        return;
      }
      Arrived(r);
    }

    method ParseBody(p: Command, r: Reply)
      modifies this`seal
      ensures View() == Parsed(old(View()), p, r)
    {
      hide TreeParsed;
      if p == Handing(TreeConnectCb) {
        ProcessTreeConnect(r);
      }
    }

    method Arrived(r: Reply)
      requires Sized() && ShortReply(r) && pdu.Some?
      modifies this
      ensures Sized() && View() == Perform(config, Arrive(old(View()), old(pdu).value, r))
    {
      hide Handshake.CallBack;
      hide Short;
      hide Parsed;
      hide Admitted;
      hide Handle;
      hide Perform;
      hide View;
      hide Sized;
      var admitted := ReadBody(r);
      if admitted {
        CallCurrent(r);
      } else {
        Break();
      }
    }

    method ReadBody(r: Reply) returns (admitted: bool)
      requires Sized() && pdu.Some?
      modifies this`seal
      ensures Sized() && Parsed(View(), pdu.value, r) == View()
      ensures Perform(config, Arrive(old(View()), pdu.value, r)) ==
              if admitted then Perform(config, Handle(View().(cur := None), pdu.value, r)) else View().(broken := true)
    {
      hide Parsed;
      hide Admitted;
      hide Handle;
      hide Arrive;
      hide Perform;
      ArriveIs(config, View(), pdu.value, r);
      ParsedIs(View(), View().(cur := None), pdu.value, r);
      ParseBody(pdu.value, r);
      admitted := Admit(r);
    }

    /** A failure after which the context can only be destroyed. */
    method Break()
      modifies this`broken
      ensures View() == old(View()).(broken := true) && Sized() == old(Sized())
    {
      broken := true;
    }

    method CallCurrent(r: Reply)
      requires Sized() && ShortReply(r) && pdu.Some? && Parsed(View(), pdu.value, r) == View()
      modifies this
      ensures Sized() && View() == Perform(config, Handle(old(View()).(cur := None), old(pdu).value, r))
    {
      hide Handshake.CallBack;
      hide Short;
      hide Handle;
      hide Perform;
      hide TreeParsed;
      var p := pdu.value;
      TreeParsedIs(View(), View().(cur := None), r);
      pdu := None;
      CallBack(p, r);
    }

    /** The checks between reading a reply and its callback. */
    method Admit(r: Reply) returns (ok: bool)
      ensures ok == Admitted(sign, seal, r)
    {
      if !r.sealed && r.named != AsNegotiate && r.named != AsSessionSetup {
        if seal {
          return false;
        }
        if sign && r.signature.Unsigned? {
          return false;
        }
      }
      if sign && !r.signature.Unsigned? && r.named != AsSessionSetup {
        if r.signature.Incomputable? {
          return false;
        }
        if r.signature.Wrong? {
          return false;
        }
      }
      ok := true;
    }

    /** smb2_timeout_pdus for one command that has not been written yet, or for one that waits. */
    method TimeoutOut(k: nat, message: seq<seq<byte>>)
      requires Valid() && Short(message)
      modifies this
      ensures Valid() && View() == Deliver(config, old(View()), ExpiredOut(k, message))
    {
      hide Sound;
      hide OnSocket;
      hide Handshake.CallBack;
      DeliverSound(config, View(), ExpiredOut(k, message));
      if k < |outqueue| {
        var p := outqueue[k];
        outqueue := outqueue[..k] + outqueue[k + 1..];
        CallLocally(p, IO_TIMEOUT, message);
      }
    }

    method TimeoutWait(k: nat, message: seq<seq<byte>>)
      requires Valid() && Short(message)
      modifies this
      ensures Valid() && View() == Deliver(config, old(View()), ExpiredWait(k, message))
    {
      hide Sound;
      hide OnSocket;
      hide Handshake.CallBack;
      DeliverSound(config, View(), ExpiredWait(k, message));
      if k < |waitqueue| {
        var p := waitqueue[k];
        waitqueue := waitqueue[..k] + waitqueue[k + 1..];
        CallLocally(p, IO_TIMEOUT, message);
      }
    }

    // ---- the end ---------------------------------------------------------------------------------------

    method DrainOutqueue(message: seq<seq<byte>>)
      requires Sized() && Short(message)
      modifies this
      ensures Sized() && View() == DrainOut(config, old(View()), message)
    {
      hide Handshake.CallBack;
      hide Short;
      while |outqueue| > 0
        invariant Sized() && DrainOut(config, View(), message) == DrainOut(config, old(View()), message)
        decreases |outqueue|
      {
        var p := outqueue[0];
        outqueue := outqueue[1..];
        EndedKeeps(config, View(), p, message);
        CallLocally(p, SHUTDOWN, message);
      }
    }

    method DrainWaitqueue(message: seq<seq<byte>>)
      requires Sized() && Short(message)
      modifies this
      ensures Sized() && View() == DrainWait(config, old(View()), message)
    {
      hide Handshake.CallBack;
      hide Short;
      while |waitqueue| > 0
        invariant Sized() && DrainWait(config, View(), message) == DrainWait(config, old(View()), message)
        decreases |waitqueue|
      {
        var p := waitqueue[0];
        waitqueue := waitqueue[1..];
        EndedKeeps(config, View(), p, message);
        CallLocally(p, SHUTDOWN, message);
      }
    }

    method DrainPdu(message: seq<seq<byte>>)
      requires Sized() && Short(message)
      modifies this
      ensures Sized() && View() == DrainCurrent(config, old(View()), message)
    {
      hide Handshake.CallBack;
      if pdu.Some? {
        var p := pdu.value;
        pdu := None;
        CallLocally(p, SHUTDOWN, message);
      }
    }

    /** The part of smb2_destroy_context that concerns the handshake. However many commands are queued, the
        connect data are freed once and the user's callback has run once, and the last test finds that the
        context points to no connect data any more. */
    method DestroyContext(message: seq<seq<byte>>)
      requires Valid() && Short(message)
      modifies this
      ensures View() == Destroyed(config, old(View()), message)
      ensures !connectCb && outqueue == [] && pdu.None? && waitqueue == [] && !connectData && |answers| == released == 1
    {
      hide Sound;
      hide Entries;
      hide Linear;
      hide DrainQueues;
      hide CancelHook;
      hide Short;
      SoundLinear(View());
      DestroyCompletes(config, View(), message);
      DestroyEmpties(config, View(), message);
      open := false;
      EndAll(message);
      FreeLeft();
    }

    /** Every queue in its turn, and then connect_cb. */
    method EndAll(message: seq<seq<byte>>)
      requires Sized() && Short(message)
      modifies this
      ensures Sized() && View() == CancelHook(DrainQueues(config, old(View()), message))
    {
      hide DrainOut;
      hide DrainWait;
      hide DrainCurrent;
      hide OnSocket;
      hide Short;
      DrainOutqueue(message);
      DrainPdu(message);
      DrainWaitqueue(message);
      RunHook(CANCELLED, None);
    }

    /** What the context still points to. */
    method FreeLeft()
      modifies this`connectData, this`released
      ensures View() == if old(connectData) then FreeConnectData(old(View())) else old(View())
    {
      if connectData {
        FreeCData();
      }
    }
  }

  /** Reading the body twice is reading it once, and it looks at nothing but `seal`. */
  lemma {:induction false} TreeParsedIs(s: State, t: State, r: Reply)
    requires t == s.(cur := t.cur)
    ensures TreeParsed(TreeParsed(t, r), r) == TreeParsed(t, r) && TreeParsed(t, r) == TreeParsed(s, r).(cur := t.cur)
  {
    hide ErrorStatus;
  }

  lemma {:induction false} ParsedIs(s: State, t: State, p: Command, r: Reply)
    requires t == s.(cur := t.cur)
    ensures Parsed(t, p, r) == Parsed(s, p, r).(cur := t.cur)
    ensures Parsed(s, p, r) == s.(seal := Parsed(s, p, r).seal)
    ensures Parsed(Parsed(s, p, r), p, r) == Parsed(s, p, r)
  {
    TreeParsedIs(s, t, r);
    TreeParsedIs(s, s, r);
    hide ErrorStatus;
  }

  /** What arrives, in the order in which it is done: read, check, call. */
  lemma {:induction false} ArriveIs(c: Config, s: State, p: Command, r: Reply)
    requires |s.keys.signing| == Preauth.KEY_SIZE
    ensures var u := Parsed(s, p, r);
            u == s.(seal := u.seal) &&
            Perform(c, Arrive(s, p, r)) ==
            if Admitted(s.sign, u.seal, r) then Perform(c, Handle(u.(cur := None), p, r)) else u.(broken := true)
  {
    hide Handshake.CallBack;
    hide Admitted;
    hide Parsed;
    ParsedIs(s, s.(cur := None), p, r);
    ParsedCalls(c, s.(cur := None), p, r);
  }

  /** The callback comes out the same for a body that has been read already. */
  lemma {:induction false} ParsedCalls(c: Config, s: State, p: Command, r: Reply)
    requires |s.keys.signing| == Preauth.KEY_SIZE
    ensures Parsed(s, p, r).keys == s.keys
    ensures Perform(c, Handle(Parsed(s, p, r), p, r)) == Perform(c, Handle(s, p, r))
  {
    hide OnNegotiate;
    hide OnSetup;
    hide TreeConnected;
    hide ErrorStatus;
    TreeParsedIs(s, s, r);
    assert TreeParsed(s, r).keys == s.keys;
  }

  lemma {:induction false} NothingParsed(s: State, status: nat, message: seq<seq<byte>>)
    ensures TreeParsed(s, Local(status, message)) == s
  {
    hide ErrorStatus;
  }

  /** It makes no difference that the service fails only after connect_cb has run. */
  lemma {:induction false} BrokenLast(s: State, b: bool, code: int, request: Option<seq<seq<byte>>>)
    ensures OnSocket(s.(broken := b), code, request) == OnSocket(s, code, request).(broken := b)
  {
    hide Sha512.Digest;
    if code == 0 && request.Some? {
      hide Hashed;
      HashedBroken(s.(hash := Zeros(Preauth.HASH_SIZE)), b, request.value);
    }
  }

  lemma {:induction false} HashedBroken(s: State, b: bool, pieces: seq<seq<byte>>)
    ensures Hashed(s.(broken := b), pieces) == Hashed(s, pieces).(broken := b)
  {
    hide Sha512.Digest;
  }

  lemma {:induction false} SoundUnless(c: Config, s: State, e: Event)
    requires Sound(s)
    ensures |s.keys.signing| == Preauth.KEY_SIZE
    ensures !Interrupts(c, s, e) ==> Sound(Deliver(c, s, e))
  {
    hide Sound;
    SoundLinear(s);
    if !Interrupts(c, s, e) {
      DeliverSound(c, s, e);
    }
  }

  /** It makes no difference that connect_cb is reset only after it has run. */
  lemma {:induction false} HookLast(s: State, code: int, request: Option<seq<seq<byte>>>)
    ensures OnSocket(s.(hook := false), code, request) == OnSocket(s, code, request).(hook := false)
  {
    hide Sha512.Digest;
    if code != 0 {
    } else if request.None? {
    } else {
      hide Hashed;
      HashedHook(s.(hash := Zeros(Preauth.HASH_SIZE)), request.value);
    }
  }

  lemma {:induction false} HashedHook(s: State, pieces: seq<seq<byte>>)
    ensures Hashed(s.(hook := false), pieces) == Hashed(s, pieces).(hook := false)
  {
    hide Sha512.Digest;
  }

  /** Which of the allocations of smb2_connect_share_async succeed, in the order in which they are made. */
  datatype Memory = Memory(server: bool, share: bool, user: bool, data: bool, dataServer: bool, dataShare: bool, dataUser: bool,
                           name: bool, wide: bool)

  /** The user name the context has after the caller's one, if any, was copied. */
  predicate UserKnown(user: bool, contextUser: bool, memory: Memory) {
    if user then memory.user else contextUser
  }

  /** smb2_connect_share_async: `held` counts the connect data that are allocated when it returns. A nonzero
      return frees them, except when no user name is known. */
  method ConnectShareAsync(server: bool, share: bool, user: bool, contextUser: bool, memory: Memory, socket: int)
    returns (ret: Option<Answer>, held: nat)
    ensures ret.None? <==>
            && server && share && UserKnown(user, contextUser, memory) && socket == 0 && memory.server && memory.share
            && memory.data && memory.dataServer && memory.dataShare && memory.dataUser && memory.name && memory.wide
    ensures held == 1 <==>
            || ret.None?
            || (server && share && memory.server && memory.share && memory.data && memory.dataServer && memory.dataShare &&
                !UserKnown(user, contextUser, memory))
    ensures held <= 1
  {
    held := 0;
    if !server || !share {
      return Some(Failed(Invalid)), held;
    }
    if !memory.server || !memory.share {
      return Some(Failed(NoMemory)), held;
    }
    var userKnown := contextUser;
    if user {
      userKnown := memory.user;
    }
    if !memory.data {
      return Some(Failed(NoMemory)), held;
    }
    held := held + 1;
    if !memory.dataServer || !memory.dataShare {
      held := held - 1;
      return Some(Failed(NoMemory)), held;
    }
    if !userKnown {
      return Some(Failed(NoMemory)), held;
    }
    if !memory.dataUser || !memory.name || !memory.wide {
      held := held - 1;
      return Some(Failed(NoMemory)), held;
    }
    if socket != 0 {
      held := held - 1;
      return Some(OfSocket(socket)), held;
    }
    ret := None;
  }
}
