/** Signing and sealing over every run of the handshake. */
module HandshakePolicy {
  import opened Octet
  import opened Bytes
  import opened Handshake
  import opened HandshakeAnswer
  import Preauth
  import Sha512

  lemma {:induction false} NegotiateProtected(s: State, r: Reply)
    requires Protected(s)
    ensures Protected(OnNegotiate(s, r))
  {
    hide Sha512.Digest;
    hide Refuse;
    hide Requested;
    var t := Hashed(s, r.message);
    var u := t.(dialect := r.negotiated.dialect, offer := Some(r.negotiated));
    var v := u.(sign := !s.seal && (s.sign || r.negotiated.signingRequired));
    FinishKeeps(t, OfStatus(r.status));
    FinishKeeps(u, Failed(NoMemory));
    FinishKeeps(v, Failed(NoMemory));
    RequestedKeeps(v, r.next);
  }

  lemma {:induction false} SetupProtected(c: Config, s: State, r: Reply)
    requires Protected(s) && |s.keys.signing| == Preauth.KEY_SIZE
    ensures Protected(OnSetup(c, s, r))
  {
    hide Sha512.Digest;
    hide Refuse;
    hide Requested;
    hide Keyed;
    var t := Heard(s, r.message);
    RequestedKeeps(Hashed(s, r.message), r.next);
    FinishKeeps(t, OfStatus(r.status));
    FinishKeeps(t, Failed(AccessDenied));
    KeyedKeeps(c, Encrypting(t, r.setUp.encrypt), r);
  }

  lemma {:induction false} TreeProtected(s: State, r: Reply)
    requires Protected(s)
    ensures Protected(OnTree(s, r))
  {
    hide Finish;
    hide Refuse;
    hide ErrorStatus;
    var t := TreeParsed(s, r);
    FinishKeeps(t, OfStatus(r.status));
    FinishKeeps(t, Failed(NotSupported));
    FinishKeeps(t, Failed(AccessDenied));
    FinishKeeps(Encrypting(t, r.tree.encrypt).(tree := Some(r)), Fine);
  }

  lemma {:induction false} DeliverProtected(c: Config, s: State, e: Event)
    requires Protected(s) && |s.keys.signing| == Preauth.KEY_SIZE
    ensures Protected(Deliver(c, s, e))
  {
    DispatchFrame(c, s, e);
    hide Admits;
    hide Parsed;
    hide Sha512.Digest;
    hide Outstanding;
    hide Dispatch;
    hide OnNegotiate;
    hide OnSetup;
    hide OnTree;
    match Dispatch(c, s, e)
    case Handed(t, NegotiateCb, r) => NegotiateProtected(t, r);
    case Handed(t, SessionSetupCb, r) => SetupProtected(c, t, r);
    case Handed(t, TreeConnectCb, r) => TreeProtected(t, r);
    case _ =>
  }

  /** Signing or sealing, once configured, stays on under every configuration and in every run. */
  lemma {:induction false} RunProtected(c: Config, sign: bool, seal: bool, events: seq<Event>)
    requires sign || seal
    ensures Protected(After(c, sign, seal, events))
  {
    AfterStep(c, sign, seal, events);
    hide Sound;
    hide Deliver;
    hide After;
    if events != [] {
      var s := After(c, sign, seal, events[..|events| - 1]);
      RunProtected(c, sign, seal, events[..|events| - 1]);
      DeliverProtected(c, s, events[|events| - 1]);
    }
  }

  /** What holds between events of a connection configured with `sign` and `seal`, signing required. */
  predicate Policed(s: State, sign: bool, seal: bool) {
    Guarded(s, sign, seal) && (s.session.None? && s.released == 0 ==> s.seal == seal)
  }

  predicate Guarded(s: State, sign: bool, seal: bool) {
    Protected(s) && (seal ==> s.seal) &&
    (s.offer.None? ==> s.sign == sign && s.seal == seal && s.session.None? && s.tree.None?) &&
    (s.offer.Some? && (s.released == 0 || s.session.Some?) ==>
      (s.sign && s.seal ==> Torn(s)) && Offered(s, sign, seal)) &&
    (s.session.Some? ==> s.offer.Some? && SessionPoliced(s, seal)) && (s.tree.Some? ==> TreePoliced(s))
  }

  /** A tree reply has turned sealing on without getting any further: the context is broken or closed. */
  predicate Torn(s: State) {
    s.session.Some? && s.tree.None? && (!s.open || (s.broken && s.released == 0))
  }

  /** The server's offer matches what was asked for. */
  predicate Offered(s: State, sign: bool, seal: bool)
    requires s.offer.Some?
  {
    s.dialect == s.offer.value.dialect && (sign ==> s.offer.value.signingEnabled) &&
    (seal && s.dialect in {V0300, V0302} ==> s.offer.value.encryption)
  }

  predicate SessionPoliced(s: State, seal: bool)
    requires s.session.Some?
  {
    var r := s.session.value;
    !r.setUp.guest && !r.setUp.nullUser && (r.setUp.encrypt ==> s.seal) &&
    (s.open ==> s.sessionKey == r.key) && (s.sign ==> ValidKey(r.key)) &&
    (!seal && !r.setUp.encrypt ==> ValidKey(r.key))
  }

  /** What a reply had to be to get past the policy of a connection that signs or seals. */
  predicate Shielded(r: Reply) {
    r.sealed || !r.named.AsOther? || (r.signature.Right? && !r.tree.encrypt)
  }

  predicate TreePoliced(s: State)
    requires s.tree.Some?
  {
    var r := s.tree.value;
    !r.tree.dfs && !r.tree.dfsRoot && !r.tree.dfsCapable && Shielded(r) &&
    (r.tree.encrypt ==> s.seal && s.dialect >= V0300 && s.sessionKey.Some?)
  }

  /** A handshake that ends without a session keeps the policy. */
  lemma {:induction false} RefusePoliced(s: State, a: Answer, sign: bool, seal: bool)
    requires Protected(s) && (seal ==> s.seal) && s.tree.None? && s.released == 0
    requires s.offer.None? ==> s.sign == sign && s.seal == seal && s.session.None?
    requires s.session.Some? ==> s.offer.Some? && Offered(s, sign, seal) && SessionPoliced(s, seal)
    ensures Policed(Refuse(s, a), sign, seal)
  {
    hide ValidKey;
  }

  lemma {:induction false} RequestedPoliced(s: State, next: Request, sign: bool, seal: bool)
    requires s.session.None? && s.tree.None? && s.released == 0 && s.offer.Some?
    requires Policed(s, sign, seal)
    ensures Policed(Requested(s, next), sign, seal)
  {
    hide Sha512.Digest;
    hide Refuse;
    RefusePoliced(s, Failed(Unspecified), sign, seal);
    RefusePoliced(s, Failed(NoMemory), sign, seal);
  }

  lemma {:induction false} NegotiatePoliced(s: State, r: Reply, sign: bool, seal: bool)
    requires Policed(s, sign, seal) && s.offer.None? && s.released == 0
    ensures Policed(OnNegotiate(s, r), sign, seal)
  {
    hide Sha512.Digest;
    hide Refuse;
    hide Requested;
    var t := Hashed(s, r.message);
    var u := t.(dialect := r.negotiated.dialect, offer := Some(r.negotiated));
    var v := u.(sign := !s.seal && (s.sign || r.negotiated.signingRequired));
    RefusePoliced(t, OfStatus(r.status), sign, seal);
    RefusePoliced(u, Failed(NoMemory), sign, seal);
    RefusePoliced(v, Failed(NoMemory), sign, seal);
    if !Unprotected(s, r.negotiated) {
      RequestedPoliced(v, r.next, sign, seal);
    }
  }

  /** The state in which a session is about to be accepted. */
  predicate Accepting(s: State, r: Reply, sign: bool, seal: bool) {
    Guarded(s, sign, seal) && s.released == 0 && s.offer.Some? && s.session.None? && s.tree.None? &&
    s.seal == (seal || r.setUp.encrypt) && !r.setUp.guest && !r.setUp.nullUser
  }

  lemma {:induction false} SessionIsPoliced(s: State, r: Reply, sign: bool, seal: bool)
    requires Accepting(s, r, sign, seal) && s.sessionKey == r.key && (s.sign ==> ValidKey(r.key))
    ensures Policed(s.(session := Some(r)), sign, seal)
  {
    hide ValidKey;
  }

  lemma {:induction false} TreeRequestedPoliced(c: Config, s: State, r: Reply, sign: bool, seal: bool)
    requires Accepting(s, r, sign, seal) && s.sessionKey == r.key && (s.sign ==> ValidKey(r.key))
    ensures Policed(TreeRequested(c, s, r), sign, seal)
  {
    hide ValidKey;
    hide Refuse;
    SessionIsPoliced(s, r, sign, seal);
    var t := s.(session := Some(r));
    FinishPoliced(t, Fine, sign, seal);
    hide Finish;
    RefusePoliced(t, Failed(NoMemory), sign, seal);
    QueuedPoliced(t, TreeConnectCb, sign, seal);
  }

  lemma {:induction false} QueuedPoliced(s: State, cb: Callback, sign: bool, seal: bool)
    requires Policed(s, sign, seal)
    ensures Policed(Enqueued(s, cb), sign, seal)
  {
    hide ValidKey;
  }

  lemma {:induction false} KeyPoliced(s: State, t: State, r: Reply, sign: bool, seal: bool)
    requires Accepting(s, r, sign, seal) && t == s.(sessionKey := t.sessionKey, keys := t.keys)
    ensures Accepting(t, r, sign, seal)
  {
    hide ValidKey;
  }

  /** Finishing without a session, or with one that signs or seals, keeps the policy. */
  lemma {:induction false} FinishPoliced(s: State, a: Answer, sign: bool, seal: bool)
    requires Guarded(s, sign, seal) && (s.session.None? || !(s.sign && s.seal) || !s.open)
    ensures Policed(Finish(s, a), sign, seal)
  {
    hide ValidKey;
  }

  lemma {:induction false} KeyedPoliced(c: Config, s: State, r: Reply, sign: bool, seal: bool)
    requires |s.keys.signing| == Preauth.KEY_SIZE && Accepting(s, r, sign, seal) && s.sessionKey.None?
    ensures Policed(Keyed(c, s, r), sign, seal)
  {
    hide DialectKeys;
    hide ValidKey;
    hide Finish;
    hide Refuse;
    hide TreeRequested;
    hide Accepting;
    hide Policed;
    AcceptingFacts(s, r, sign, seal);
    var t := if r.key.Some? then s.(sessionKey := r.key) else s;
    var u := t.(keys := DialectKeys(s.keys, s.dialect, Material(t.sessionKey), s.hash));
    KeyPoliced(s, t, r, sign, seal);
    KeyPoliced(s, u, r, sign, seal);
    AcceptingEnds(t, r, Failed(AccessDenied), sign, seal);
    AcceptingEnds(u, r, Failed(Invalid), sign, seal);
    if !s.sign || ValidKey(r.key) {
      TreeRequestedPoliced(c, u, r, sign, seal);
    }
  }

  lemma {:induction false} AcceptingFacts(s: State, r: Reply, sign: bool, seal: bool)
    requires Accepting(s, r, sign, seal)
    ensures Protected(s)
  {
  }

  lemma {:induction false} AcceptingEnds(s: State, r: Reply, a: Answer, sign: bool, seal: bool)
    requires Accepting(s, r, sign, seal)
    ensures Policed(Refuse(s, a), sign, seal) && Policed(Finish(s, a), sign, seal)
  {
    hide Refuse;
    RefusePoliced(s, a, sign, seal);
    FinishPoliced(s, a, sign, seal);
    hide Finish;
  }

  lemma {:induction false} PolicedProtected(s: State, sign: bool, seal: bool)
    requires Policed(s, sign, seal)
    ensures Protected(s) && (seal ==> s.seal)
  {
  }

  lemma {:induction false} EncryptingPoliced(s: State, r: Reply, sign: bool, seal: bool)
    requires Policed(s, sign, seal) && s.session.None? && s.tree.None? && s.offer.Some? && s.released == 0
    requires !r.setUp.guest && !r.setUp.nullUser
    ensures Accepting(Encrypting(s, r.setUp.encrypt), r, sign, seal)
  {
  }

  lemma {:induction false} HeardPoliced(s: State, message: seq<seq<byte>>, sign: bool, seal: bool)
    requires Policed(s, sign, seal)
    ensures Policed(Heard(s, message), sign, seal) && Policed(Hashed(s, message), sign, seal)
  {
    hide Sha512.Digest;
  }

  lemma {:induction false} SetupPoliced(c: Config, s: State, r: Reply, sign: bool, seal: bool)
    requires |s.keys.signing| == Preauth.KEY_SIZE && s.session.None? && s.tree.None? && s.released == 0 && s.offer.Some?
    requires Policed(s, sign, seal) && c.signingRequired && s.sessionKey.None?
    ensures Policed(OnSetup(c, s, r), sign, seal)
  {
    hide Sha512.Digest;
    hide Keyed;
    hide Policed;
    hide Refuse;
    hide Requested;
    HeardPoliced(s, r.message, sign, seal);
    RequestedPoliced(Hashed(s, r.message), r.next, sign, seal);
    var t := Heard(s, r.message);
    PolicedProtected(t, sign, seal);
    RefusePoliced(t, OfStatus(r.status), sign, seal);
    RefusePoliced(t, Failed(AccessDenied), sign, seal);
    if !(r.setUp.guest || r.setUp.nullUser) {
      EncryptingPoliced(t, r, sign, seal);
      KeyedPoliced(c, Encrypting(t, r.setUp.encrypt), r, sign, seal);
    }
  }

  /** What a state keeps in which a tree reply has been read. */
  lemma {:induction false} ParsedPoliced(s: State, r: Reply, sign: bool, seal: bool)
    requires s.tree.None? && s.session.Some? && s.released == 0 && Policed(s, sign, seal)
    ensures var t := TreeParsed(s, r);
            Protected(t) && (seal ==> t.seal) && t.offer.Some? && Offered(t, sign, seal) && SessionPoliced(t, seal)
  {
    hide ValidKey;
    hide ErrorStatus;
  }

  /** The policy of what is received lets a tree reply to a signing or sealing connection through only if it
      was sealed or correctly signed, or names another command. */
  lemma {:induction false} AdmitsShielded(s: State, r: Reply)
    requires Protected(s) && r.status == SUCCESS && Admits(TreeParsed(s, r), r)
    ensures Shielded(r)
  {
  }

  lemma {:induction false} JoinedPoliced(s: State, r: Reply, sign: bool, seal: bool)
    requires s.tree.None? && s.session.Some? && s.released == 0 && Policed(s, sign, seal) && s.open && !s.broken
    requires r.status == SUCCESS && !(r.tree.dfs || r.tree.dfsRoot || r.tree.dfsCapable) && Shielded(r)
    requires r.tree.encrypt ==> s.dialect >= V0300 && s.sessionKey.Some?
    ensures Policed(Finish(Encrypting(TreeParsed(s, r), r.tree.encrypt).(tree := Some(r)), Fine), sign, seal)
  {
    hide ValidKey;
    hide Shielded;
  }

  lemma {:induction false} TreeIsPoliced(s: State, r: Reply, sign: bool, seal: bool)
    requires s.tree.None? && s.session.Some? && s.released == 0 && Policed(s, sign, seal)
    requires GoesOn(r.status) ==> s.open && !s.broken && Admits(TreeParsed(s, r), r)
    ensures Policed(OnTree(s, r), sign, seal)
  {
    hide ValidKey;
    hide Finish;
    hide Refuse;
    hide Policed;
    hide Offered;
    hide SessionPoliced;
    hide TreeParsed;
    hide Admits;
    var t := TreeParsed(s, r);
    ParsedSame(s, r);
    ParsedPoliced(s, r, sign, seal);
    PolicedProtected(s, sign, seal);
    RefusePoliced(t, OfStatus(r.status), sign, seal);
    RefusePoliced(t, Failed(NotSupported), sign, seal);
    RefusePoliced(t, Failed(AccessDenied), sign, seal);
    if r.status == SUCCESS {
      AdmitsShielded(s, r);
      if !(r.tree.dfs || r.tree.dfsRoot || r.tree.dfsCapable) && (r.tree.encrypt ==> s.dialect >= V0300 && s.sessionKey.Some?) {
        JoinedPoliced(s, r, sign, seal);
      }
    }
  }

  lemma {:induction false} ParsedSame(s: State, r: Reply)
    ensures var t := TreeParsed(s, r); t == s.(seal := t.seal)
  {
    hide ErrorStatus;
  }

  lemma {:induction false} OpenedPoliced(s: State, t: State, sign: bool, seal: bool)
    requires Policed(s, sign, seal) && s.session.None?
    requires t == s.(hook := t.hook, open := t.open, broken := t.broken, hash := t.hash, wire := t.wire)
    ensures Policed(t, sign, seal)
  {
    hide Shielded;
  }

  lemma {:induction false} SocketPoliced(s: State, t: State, code: int, request: Option<seq<seq<byte>>>, sign: bool, seal: bool)
    requires Policed(s, sign, seal) && s.session.None? && Frame(s, Socket(t, code, request))
    ensures Policed(OnSocket(t, code, request), sign, seal)
  {
    hide Sha512.Digest;
    hide Policed;
    hide Finish;
    OpenedPoliced(s, t, sign, seal);
    PolicedGuarded(t, sign, seal);
    FinishPoliced(t, OfSocket(-code), sign, seal);
    var u := t.(hash := Zeros(Preauth.HASH_SIZE));
    OpenedPoliced(t, u, sign, seal);
    PolicedGuarded(u, sign, seal);
    FinishPoliced(u, Failed(NoMemory), sign, seal);
    if request.Some? {
      HeardPoliced(u, request.value, sign, seal);
      hide Hashed;
      QueuedPoliced(Hashed(u, request.value), NegotiateCb, sign, seal);
    }
  }

  lemma {:induction false} PolicedGuarded(s: State, sign: bool, seal: bool)
    requires Policed(s, sign, seal)
    ensures Guarded(s, sign, seal)
  {
  }

  lemma {:induction false} QuietPoliced(s: State, t: State, sign: bool, seal: bool)
    requires Policed(s, sign, seal) && Frame(s, Quiet(t))
    requires s.cur == Some(Handing(TreeConnectCb)) ==> s.released == 0 && s.session.Some? && s.tree.None?
    ensures Policed(t, sign, seal)
  {
    hide ValidKey;
    hide Shielded;
  }

  lemma {:induction false} MovedPoliced(s: State, t: State, sign: bool, seal: bool)
    requires Policed(s, sign, seal) && t == s.(out := t.out, cur := t.cur, wait := t.wait)
    ensures Policed(t, sign, seal)
  {
    hide ValidKey;
    hide Shielded;
  }

  lemma {:induction false} DeliverPoliced(c: Config, s: State, e: Event, sign: bool, seal: bool)
    requires Sound(s) && !Interrupts(c, s, e) && Policed(s, sign, seal) && c.signingRequired
    ensures Policed(Deliver(c, s, e), sign, seal)
  {
    hide Sound;
    hide Dispatch;
    hide Ready;
    hide OnSocket;
    hide CallBack;
    hide Policed;
    hide Frame;
    DispatchRipe(c, s, e);
    match Dispatch(c, s, e)
    case Quiet(t) => QuietPoliced(s, t, sign, seal);
    case Socket(t, code, request) => SocketPoliced(s, t, code, request, sign, seal);
    case Handed(t, cb, r) => HandedPoliced(c, s, t, cb, r, sign, seal);
  }

  lemma {:induction false} HandedPoliced(c: Config, s: State, t: State, cb: Callback, r: Reply, sign: bool, seal: bool)
    requires Policed(s, sign, seal) && c.signingRequired && |t.keys.signing| == Preauth.KEY_SIZE
    requires t.released == 0 && t.tree.None? && (cb.TreeConnectCb? <==> t.session.Some?)
    requires (cb.NegotiateCb? <==> t.offer.None?) && (!cb.TreeConnectCb? ==> t.sessionKey.None?)
    requires Frame(s, Handed(t, cb, r)) && (GoesOn(r.status) ==> t.open)
    ensures Policed(CallBack(c, t, cb, r), sign, seal)
  {
    hide OnNegotiate;
    hide OnSetup;
    hide OnTree;
    hide Policed;
    hide Admits;
    hide TreeParsed;
    MovedPoliced(s, t, sign, seal);
    match cb
    case NegotiateCb => NegotiatePoliced(t, r, sign, seal);
    case SessionSetupCb => SetupPoliced(c, t, r, sign, seal);
    case TreeConnectCb => TreeIsPoliced(t, r, sign, seal);
  }

  lemma {:induction false} StartPoliced(sign: bool, seal: bool)
    requires sign || seal
    ensures Policed(Start(sign, seal), sign, seal)
  {
  }

  /** In every run of a connection that requires signing, the policy holds after every event. */
  lemma {:induction false} RunPoliced(c: Config, sign: bool, seal: bool, events: seq<Event>)
    requires Calm(c, sign, seal, events) && c.signingRequired && (sign || seal)
    ensures Policed(After(c, sign, seal, events), sign, seal)
  {
    hide Policed;
    hide Sound;
    hide Deliver;
    hide After;
    AfterStep(c, sign, seal, events);
    if events == [] {
      StartPoliced(sign, seal);
    } else {
      RunPoliced(c, sign, seal, events[..|events| - 1]);
      AfterSound(c, sign, seal, events[..|events| - 1]);
      DeliverPoliced(c, After(c, sign, seal, events[..|events| - 1]), events[|events| - 1], sign, seal);
    }
  }

  /** What a caller has who required signing and joined the share. */
  lemma {:induction false} JoinedPolicy(c: Config, sign: bool, seal: bool, events: seq<Event>)
    requires Calm(c, sign, seal, events) && c.signingRequired && (sign || seal) && Joined(c, After(c, sign, seal, events))
    ensures var t := After(c, sign, seal, events);
            var setUp := t.session.value.setUp;
            t.sign != t.seal && (t.sign ==> ValidKey(t.sessionKey)) && (seal ==> t.seal) &&
            !setUp.guest && !setUp.nullUser && (setUp.encrypt ==> t.seal) &&
            t.offer.Some? && Offered(t, sign, seal) && (!c.passthrough ==> t.tree.Some? && TreePoliced(t))
  {
    hide After;
    hide Offered;
    hide TreePoliced;
    hide ValidKey;
    RunPoliced(c, sign, seal, events);
  }

  // ---- the session key ---------------------------------------------------------------------------------

  /** The key of a joined connection that requires signing is the one that came with the session, and it is
      valid if and only if the connection signs or that key is valid. It is, whatever the server does, when
      neither the caller nor the session asks for sealing; that the share asks for it does no harm. */
  lemma {:induction false} JoinedKey(c: Config, sign: bool, seal: bool, events: seq<Event>)
    requires Calm(c, sign, seal, events) && c.signingRequired && (sign || seal) && Joined(c, After(c, sign, seal, events))
    ensures var t := After(c, sign, seal, events);
            t.sessionKey == t.session.value.key &&
            (ValidKey(t.sessionKey) <==> t.sign || ValidKey(t.session.value.key)) &&
            (!seal && !t.session.value.setUp.encrypt ==> ValidKey(t.sessionKey))
  {
    hide After;
    hide Offered;
    hide TreePoliced;
    hide ValidKey;
    RunPoliced(c, sign, seal, events);
  }

  /** The session is accepted at the first SESSION_SETUP, with the key that no exchange has changed. */
  function EarlySession(encrypt: bool): Reply {
    Local(SUCCESS, []).(named := AsSessionSetup, setUp := SetupReply(false, false, encrypt, false), key := Some(NoKey()),
                        treeRequest := true)
  }

  function SealedTree(): Reply {
    Local(SUCCESS, []).(sealed := true)
  }

  lemma {:induction false} EarlyAccepted(c: Config, s: State, encrypt: bool)
    requires |s.keys.signing| == Preauth.KEY_SIZE && !c.passthrough && (s.seal || encrypt)
    requires s.seal ==> !s.sign
    ensures var t := CallBack(c, s, SessionSetupCb, EarlySession(encrypt));
            t.out == s.out + [Handing(TreeConnectCb)] && t.cur == s.cur && t.wait == s.wait && t.session.Some? &&
            t.seal && !t.sign && t.sessionKey == Some(NoKey()) && t.open == s.open && t.broken == s.broken &&
            t.answers == s.answers && t.released == s.released
  {
    hide Keyed;
    hide Refuse;
    hide Requested;
    hide Preauth.Flatten;
    EarlyKeyed(c, Encrypting(Heard(s, []), encrypt), EarlySession(encrypt));
  }

  lemma {:induction false} EarlyKeyed(c: Config, s: State, r: Reply)
    requires |s.keys.signing| == Preauth.KEY_SIZE && !c.passthrough && s.seal && !s.sign
    requires r.key == Some(NoKey()) && r.signature.Unsigned? && r.treeRequest
    ensures var t := Keyed(c, s, r);
            t == s.(sessionKey := r.key, keys := t.keys, session := Some(r), out := s.out + [Handing(TreeConnectCb)])
  {
    hide DialectKeys;
    hide Refuse;
    hide Finish;
    hide ValidKey;
  }

  lemma {:induction false} SealedJoins(c: Config, s: State)
    requires |s.keys.signing| == Preauth.KEY_SIZE
    ensures var t := CallBack(c, s, TreeConnectCb, SealedTree());
            t.tree.Some? && t.session == s.session && t.sign == s.sign && t.seal == s.seal &&
            t.sessionKey == s.sessionKey && t.open == s.open && t.answers == s.answers + [Fine] && t.released == s.released + 1
  {
  }

  /** The three rounds after the socket is connected. */
  lemma {:induction false} ThreeRounds(c: Config, s: State, encrypt: bool)
    requires Keyable(s) && !s.broken && s.out == [Handing(NegotiateCb)] && s.cur.None? && s.wait == [] && !c.passthrough
    requires s.open && s.answers == [] && s.released == 0 && (s.seal || encrypt)
    ensures var t := Run(c, s, Round(Offer()) + Round(EarlySession(encrypt)) + Round(SealedTree()));
            t.answers == [Fine] && t.released == 1 && t.session.Some? && t.tree.Some? && t.open && t.seal && !t.sign &&
            t.sessionKey == Some(NoKey())
  {
    hide Sha512.Digest;
    hide CallBack;
    hide Run;
    hide Round;
    hide EarlySession;
    RoundIs(c, s, NegotiateCb, Offer());
    OfferTaken(c, s.(out := []));
    var t := Run(c, s, Round(Offer()));
    EarlyAdmitted(t, encrypt);
    RoundIs(c, t, SessionSetupCb, EarlySession(encrypt));
    EarlyAccepted(c, t.(out := []), encrypt);
    var u := Run(c, t, Round(EarlySession(encrypt)));
    SealedAdmitted(u);
    RoundIs(c, u, TreeConnectCb, SealedTree());
    SealedJoins(c, u.(out := []));
    RunJoined(c, s, Round(Offer()), Round(EarlySession(encrypt)));
    RunJoined(c, s, Round(Offer()) + Round(EarlySession(encrypt)), Round(SealedTree()));
  }

  lemma {:induction false} EarlyAdmitted(s: State, encrypt: bool)
    ensures EarlySession(encrypt).status != PENDING && Admits(Parsed(s, Handing(SessionSetupCb), EarlySession(encrypt)), EarlySession(encrypt))
  {
  }

  lemma {:induction false} SealedAdmitted(s: State)
    ensures SealedTree().status != PENDING && Admits(Parsed(s, Handing(TreeConnectCb), SealedTree()), SealedTree())
  {
  }

  lemma {:induction false} OfferTaken(c: Config, s: State)
    requires |s.keys.signing| == Preauth.KEY_SIZE
    ensures var t := CallBack(c, s, NegotiateCb, Offer());
            t.out == s.out + [Handing(SessionSetupCb)] && t.cur == s.cur && t.wait == s.wait &&
            t.answers == s.answers && t.released == s.released && t.broken == s.broken && t.open == s.open &&
            t.seal == s.seal && (t.seal ==> !t.sign) && t.keys == s.keys
  {
    hide Sha512.Digest;
  }

  /** When either the caller or the session asks for sealing there is a run that joins the share under a key
      of zeros, although signing is required: the server accepts the first SESSION_SETUP. */
  lemma {:induction false} SealedWithoutKey(c: Config, seal: bool, encrypt: bool)
    requires !c.passthrough && (seal || encrypt)
    ensures exists events :: var t := After(c, true, seal, events);
              Joined(c, t) && t.answers == [Fine] && t.seal && !t.sign && !ValidKey(t.sessionKey)
  {
    hide Sha512.Digest;
    hide Entries;
    hide Round;
    hide CallBack;
    var e, s := [Connected(0, Some([]), true)], Start(true, seal);
    var rest := Round(Offer()) + Round(EarlySession(encrypt)) + Round(SealedTree());
    ConnectedIs(c, true, seal);
    ThreeRounds(c, Run(c, s, e), encrypt);
    RunJoined(c, s, e, rest);
    hide Run;
    var t := After(c, true, seal, e + rest);
  }

  // ---- what is received --------------------------------------------------------------------------------

  /** A tree reply that demands encryption reaches its callback if and only if it was itself sealed, or its
      header names NEGOTIATE or SESSION_SETUP, and a signature that is looked at is right. Otherwise sealing
      is on, the context is broken, and nobody is called. */
  lemma {:induction false} DemandingTreeReply(c: Config, s: State, r: Reply)
    requires !s.broken && s.cur == Some(Handing(TreeConnectCb))
    requires r.tree.encrypt && !ErrorStatus(r.status) && r.status != PENDING
    ensures Dispatch(c, s, Delivered(r)).Handed? <==>
              (r.sealed || !r.named.AsOther?) &&
              (s.sign && !r.signature.Unsigned? && !r.named.AsSessionSetup? ==> r.signature.Right?)
    ensures !Dispatch(c, s, Delivered(r)).Handed? ==>
              Dispatch(c, s, Delivered(r)) == Quiet(s.(seal := true, broken := true))
  {
  }
}
