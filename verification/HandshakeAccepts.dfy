/** Exactly when the replies of the handshake are accepted, and what is queued then. */
module HandshakeAccepts {
  import opened Octet
  import opened Bytes
  import opened Handshake
  import opened HandshakeAnswer
  import Preauth
  import Sha512

  // ---- the signature of the reply that accepts the session ---------------------------------------------
  // The policy of what is received does not ask for one when the header names SESSION_SETUP, so it is checked
  // where the keys are derived, and nowhere else.

  predicate Checked(r: Reply) {
    r.signature.Right? || r.signature.Unsigned?
  }

  /** A session was accepted without a look at the signature: the connection neither signs nor has a key. */
  predicate Unkeyed(c: Config, s: State) {
    s.dialect != V0311 && !s.sign && s.sessionKey.None? && (s.seal ==> !c.passthrough && s.tree.None?)
  }

  predicate Vetted(c: Config, s: State) {
    s.session.Some? ==>
      (c.passthrough ==> s.released == 1) &&
      (Checked(s.session.value) || (Unkeyed(c, s) && (s.seal ==> s.broken || s.released == 1)))
  }

  lemma {:induction false} FinishVetted(c: Config, s: State, a: Answer)
    requires s.session.Some? ==> s.released == 0 && (Checked(s.session.value) || Unkeyed(c, s))
    ensures Vetted(c, Finish(s, a)) && Vetted(c, Refuse(s, a))
  {
  }

  lemma {:induction false} TreeRequestedVetted(c: Config, s: State, r: Reply)
    requires s.session.None? && s.released == 0 && (Checked(r) || (Unkeyed(c, s) && !s.seal))
    ensures Vetted(c, TreeRequested(c, s, r))
  {
    hide Checked;
    hide Refuse;
    hide Finish;
    var t := s.(session := Some(r));
    FinishVetted(c, t, Fine);
    FinishVetted(c, t, Failed(NoMemory));
  }

  lemma {:induction false} KeyedVetted(c: Config, s: State, r: Reply)
    requires |s.keys.signing| == Preauth.KEY_SIZE && s.session.None? && s.released == 0 && s.sessionKey.None?
    ensures Vetted(c, Keyed(c, s, r))
  {
    hide DialectKeys;
    hide ValidKey;
    hide Finish;
    hide Refuse;
    hide TreeRequested;
    hide Vetted;
    var t := if r.key.Some? then s.(sessionKey := r.key) else s;
    var u := t.(keys := DialectKeys(s.keys, s.dialect, Material(t.sessionKey), s.hash));
    FinishVetted(c, t, Failed(AccessDenied));
    FinishVetted(c, u, Failed(Invalid));
    if !Protected(s) && s.dialect != V0311 {
      TreeRequestedVetted(c, s, r);
    } else if Checked(r) {
      TreeRequestedVetted(c, u, r);
    }
  }

  /** Without a session there is nothing to check. */
  lemma {:induction false} NoSession(c: Config, s: State)
    requires s.session.None?
    ensures Vetted(c, s)
  {
  }

  lemma {:induction false} SetupVetted(c: Config, s: State, r: Reply)
    requires |s.keys.signing| == Preauth.KEY_SIZE && s.session.None? && s.released == 0 && s.sessionKey.None?
    ensures Vetted(c, OnSetup(c, s, r))
  {
    hide Sha512.Digest;
    hide Keyed;
    hide Refuse;
    hide Requested;
    hide Vetted;
    var t := Heard(s, r.message);
    RequestedKeeps(Hashed(s, r.message), r.next);
    NoSession(c, Requested(Hashed(s, r.message), r.next));
    FinishVetted(c, t, OfStatus(r.status));
    FinishVetted(c, t, Failed(AccessDenied));
    KeyedVetted(c, Encrypting(t, r.setUp.encrypt), r);
  }

  lemma {:induction false} NegotiateNoSession(s: State, r: Reply)
    requires s.session.None?
    ensures OnNegotiate(s, r).session.None?
  {
    hide Sha512.Digest;
    hide Refuse;
    hide Requested;
    var t := Hashed(s, r.message);
    var u := t.(dialect := r.negotiated.dialect, offer := Some(r.negotiated));
    var v := u.(sign := !s.seal && (s.sign || r.negotiated.signingRequired));
    FinishKeeps(t, OfStatus(r.status));
    FinishKeeps(u, Failed(NoMemory));
    FinishKeeps(v, Failed(NoMemory));
    RequestedKeeps(v, r.next);
  }

  /** A share that demands encryption is not joined without a key, so sealing comes on only with one. */
  lemma {:induction false} TreeVetted(c: Config, s: State, r: Reply)
    requires s.session.Some? && s.released == 0 && s.tree.None? && Vetted(c, s) && (GoesOn(r.status) ==> !s.broken)
    ensures Vetted(c, OnTree(s, r))
  {
    hide Finish;
    hide Refuse;
    hide ErrorStatus;
    hide Checked;
    var t := TreeParsed(s, r);
    FinishVetted(c, t, OfStatus(r.status));
    FinishVetted(c, t, Failed(NotSupported));
    FinishVetted(c, t, Failed(AccessDenied));
    if r.status == SUCCESS && (r.tree.encrypt ==> s.sessionKey.Some?) {
      TreeUnsealed(s, r);
      FinishVetted(c, Encrypting(t, r.tree.encrypt).(tree := Some(r)), Fine);
    }
  }

  lemma {:induction false} TreeUnsealed(s: State, r: Reply)
    requires r.status == SUCCESS
    ensures TreeParsed(s, r).seal == (s.seal || r.tree.encrypt)
  {
  }

  lemma {:induction false} MovedVetted(c: Config, s: State, t: State)
    requires Vetted(c, s) && t == s.(out := t.out, cur := t.cur, wait := t.wait)
    ensures Vetted(c, t)
  {
    hide Checked;
  }

  lemma {:induction false} QuietVetted(c: Config, s: State, t: State)
    requires Vetted(c, s) && Frame(s, Quiet(t))
    requires s.cur == Some(Handing(TreeConnectCb)) ==> s.released == 0 && s.session.Some? && s.tree.None?
    ensures Vetted(c, t)
  {
    hide Checked;
  }

  lemma {:induction false} SocketVetted(c: Config, s: State, code: int, request: Option<seq<seq<byte>>>)
    requires s.session.None?
    ensures Vetted(c, OnSocket(s, code, request))
  {
    hide Sha512.Digest;
    hide Preauth.Flatten;
  }

  lemma {:induction false} DeliverVetted(c: Config, s: State, e: Event)
    requires Sound(s) && !Interrupts(c, s, e) && Vetted(c, s)
    ensures Vetted(c, Deliver(c, s, e))
  {
    hide Sound;
    hide Dispatch;
    hide OnSocket;
    hide CallBack;
    hide Vetted;
    hide Frame;
    DispatchRipe(c, s, e);
    match Dispatch(c, s, e)
    case Quiet(t) => QuietVetted(c, s, t);
    case Socket(t, code, request) => SocketVetted(c, t, code, request);
    case Handed(t, cb, r) => HandedVetted(c, s, t, cb, r);
  }

  lemma {:induction false} HandedVetted(c: Config, s: State, t: State, cb: Callback, r: Reply)
    requires Vetted(c, s) && |t.keys.signing| == Preauth.KEY_SIZE
    requires t.released == 0 && t.tree.None? && (cb.TreeConnectCb? <==> t.session.Some?)
    requires !cb.TreeConnectCb? ==> t.sessionKey.None?
    requires Frame(s, Handed(t, cb, r))
    ensures Vetted(c, CallBack(c, t, cb, r))
  {
    hide OnNegotiate;
    hide OnSetup;
    hide OnTree;
    hide Vetted;
    hide Admits;
    hide TreeParsed;
    MovedVetted(c, s, t);
    match cb
    case NegotiateCb =>
      NegotiateNoSession(t, r);
      NoSession(c, OnNegotiate(t, r));
    case SessionSetupCb => SetupVetted(c, t, r);
    case TreeConnectCb => TreeVetted(c, t, r);
  }

  lemma {:induction false} RunVetted(c: Config, sign: bool, seal: bool, events: seq<Event>)
    requires Calm(c, sign, seal, events)
    ensures Vetted(c, After(c, sign, seal, events))
  {
    hide Vetted;
    hide Sound;
    hide Deliver;
    hide After;
    AfterStep(c, sign, seal, events);
    if events == [] {
      NoSession(c, Start(sign, seal));
    } else {
      RunVetted(c, sign, seal, events[..|events| - 1]);
      AfterSound(c, sign, seal, events[..|events| - 1]);
      DeliverVetted(c, After(c, sign, seal, events[..|events| - 1]), events[|events| - 1]);
    }
  }

  /** In every joined connection that signs or seals, or speaks dialect 3.1.1, whatever it was configured for,
      the reply that accepted the session was not wrongly signed. */
  lemma {:induction false} JoinedSignature(c: Config, sign: bool, seal: bool, events: seq<Event>)
    requires Calm(c, sign, seal, events) && Joined(c, After(c, sign, seal, events))
    ensures var t := After(c, sign, seal, events);
            t.sign || t.seal || t.dialect == V0311 ==> t.session.value.signature in {Right, Unsigned}
  {
    hide After;
    RunVetted(c, sign, seal, events);
  }

  // ---- when a session is accepted ----------------------------------------------------------------------

  /** What the caller, the policy and the reply have to say about the session. The signature counts only where
      keys are derived. */
  predicate Acceptable(c: Config, s: State, r: Reply) {
    && (c.signingRequired ==> !r.setUp.guest && !r.setUp.nullUser)
    && (s.sign && !r.setUp.encrypt ==> ValidKey(r.key))
    && (s.sign || s.seal || r.setUp.encrypt || s.dialect == V0311 ==> r.signature in {Right, Unsigned})
  }

  lemma {:induction false} SetupAwaited(s: State)
    requires Sound(s) && s.cur == Some(Handing(SessionSetupCb))
    ensures s.session.None? && |s.keys.signing| == Preauth.KEY_SIZE
  {
    CurrentTakes(s);
    hide Preauth.Transcript;
    hide Entries;
    OnlyOne(Outstanding(s), Entries(s.hook, s.out, None, s.wait), SettingUp);
  }

  /** What became of the reply `r` to SESSION_SETUP in `s`. */
  predicate Settles(c: Config, s: State, r: Reply, admitted: bool, acceptable: bool, t: State) {
    && (t.session.Some? <==> admitted && acceptable) && (t.session.Some? ==> t.session == Some(r))
    && (t.out == s.out + [Handing(TreeConnectCb)] <==> t.session.Some? && !c.passthrough && r.treeRequest)
  }

  lemma {:induction false} TreeRequestedIff(c: Config, s: State, r: Reply)
    ensures Settles(c, s, r, true, true, TreeRequested(c, s, r))
  {
    hide Finish;
    hide Refuse;
    var t := s.(session := Some(r));
    EndsOut(t, Fine);
    EndsOut(t, Failed(NoMemory));
    Longer(s.out, Handing(TreeConnectCb));
  }

  lemma {:induction false} EndsOut(s: State, a: Answer)
    ensures Finish(s, a).out == Refuse(s, a).out == s.out && Finish(s, a).session == Refuse(s, a).session == s.session
  {
  }

  lemma {:induction false} Longer<T>(q: seq<T>, x: T)
    ensures q != q + [x]
  {
    assert |q + [x]| == |q| + 1;
  }

  lemma {:induction false} RefusedIff(c: Config, s: State, r: Reply, a: Answer)
    requires s.session.None?
    ensures Settles(c, s, r, true, false, Refuse(s, a)) && Settles(c, s, r, true, false, Finish(s, a))
    ensures Refuse(s, a).answers == Finish(s, a).answers == s.answers + [a]
  {
    Longer(s.out, Handing(TreeConnectCb));
  }

  lemma {:induction false} SettlesIn(c: Config, s: State, s': State, r: Reply, acceptable: bool, t: State)
    requires s'.out == s.out && Settles(c, s', r, true, acceptable, t)
    ensures Settles(c, s, r, true, acceptable, t)
  {
  }

  lemma {:induction false} KeyedIff(c: Config, s: State, r: Reply)
    requires |s.keys.signing| == Preauth.KEY_SIZE && s.session.None?
    ensures var t := Keyed(c, s, r);
            var named, checked := s.sign ==> ValidKey(r.key), Protected(s) || s.dialect == V0311 ==> Checked(r);
            Settles(c, s, r, true, named && checked, t) && (named && !checked ==> t.answers == s.answers + [Failed(Invalid)])
  {
    hide DialectKeys;
    hide ValidKey;
    hide Finish;
    hide Refuse;
    hide TreeRequested;
    hide Settles;
    var t := if r.key.Some? then s.(sessionKey := r.key) else s;
    var u := t.(keys := DialectKeys(s.keys, s.dialect, Material(t.sessionKey), s.hash));
    RefusedIff(c, t, r, Failed(AccessDenied));
    RefusedIff(c, u, r, Failed(Invalid));
    TreeRequestedIff(c, s, r);
    TreeRequestedIff(c, u, r);
    SettlesIn(c, s, t, r, false, Refuse(t, Failed(AccessDenied)));
    SettlesIn(c, s, u, r, false, Finish(u, Failed(Invalid)));
    SettlesIn(c, s, u, r, true, TreeRequested(c, u, r));
  }

  lemma {:induction false} SetupIff(c: Config, s: State, r: Reply)
    requires |s.keys.signing| == Preauth.KEY_SIZE && s.session.None? && r.status == SUCCESS
    ensures var t := OnSetup(c, s, r);
            Settles(c, s, r, true, Acceptable(c, s, r), t) &&
            (Acceptable(c, s, r.(signature := Right)) && !Acceptable(c, s, r) ==> t.answers == s.answers + [Failed(Invalid)])
  {
    hide Sha512.Digest;
    hide Keyed;
    hide Refuse;
    hide Requested;
    hide Settles;
    hide ValidKey;
    var t := Heard(s, r.message);
    var u := Encrypting(t, r.setUp.encrypt);
    if c.signingRequired && (r.setUp.guest || r.setUp.nullUser) {
      RefusedIff(c, t, r, Failed(AccessDenied));
      SettlesIn(c, s, t, r, false, Refuse(t, Failed(AccessDenied)));
    } else {
      KeyedIff(c, u, r);
      SettlesIn(c, s, u, r, Acceptable(c, s, r), Keyed(c, u, r));
    }
  }

  lemma {:induction false} DeliverIff(c: Config, s: State, r: Reply)
    requires |s.keys.signing| == Preauth.KEY_SIZE && s.session.None? && r.status == SUCCESS
    requires s.cur == Some(Handing(SessionSetupCb)) && !s.broken
    ensures var t := Deliver(c, s, Delivered(r));
            Settles(c, s, r, Admits(s, r), Acceptable(c, s, r), t) &&
            (Admits(s, r) && Acceptable(c, s, r.(signature := Right)) && !Acceptable(c, s, r) ==>
              t.answers == s.answers + [Failed(Invalid)])
  {
    hide OnSetup;
    hide Acceptable;
    hide Admits;
    Longer(s.out, Handing(TreeConnectCb));
    var u := s.(cur := None);
    SetupIff(c, u, r);
    assert Acceptable(c, u, r) == Acceptable(c, s, r) && Acceptable(c, u, r.(signature := Right)) == Acceptable(c, s, r.(signature := Right)) by {
      AcceptableSame(c, s, u, r);
    }
    assert Dispatch(c, s, Delivered(r)) == if Admits(s, r) then Handed(u, SessionSetupCb, r) else Quiet(s.(broken := true));
  }

  lemma {:induction false} AcceptableSame(c: Config, s: State, t: State, r: Reply)
    requires t == s.(cur := t.cur)
    ensures Acceptable(c, t, r) == Acceptable(c, s, r)
    ensures Acceptable(c, t, r.(signature := Right)) == Acceptable(c, s, r.(signature := Right))
  {
  }

  /** An outstanding SESSION_SETUP that the server answers with success: the session is accepted if and only if
      the reply gets past the policy of what is received and is acceptable; TREE_CONNECT is queued if and only
      if, besides, its request can be made and raw data are not asked for. When the signature alone is at
      fault, the number is EINVAL. */
  lemma {:induction false} AcceptedIff(c: Config, sign: bool, seal: bool, events: seq<Event>, r: Reply)
    requires Calm(c, sign, seal, events) && r.status == SUCCESS
    requires var s := After(c, sign, seal, events); s.cur == Some(Handing(SessionSetupCb)) && !s.broken
    ensures var s, t := After(c, sign, seal, events), After(c, sign, seal, events + [Delivered(r)]);
            var right := r.(signature := Right);
            && (t.session.Some? <==> Admits(s, r) && Acceptable(c, s, r))
            && (t.session.Some? ==> t.session == Some(r))
            && (t.out == s.out + [Handing(TreeConnectCb)] <==>
                t.session.Some? && !c.passthrough && r.treeRequest)
            && (Admits(s, r) && Acceptable(c, s, right) && !Acceptable(c, s, r) ==>
                t.answers == s.answers + [Failed(Invalid)])
  {
    hide Sound;
    hide Deliver;
    hide After;
    hide Acceptable;
    hide Admits;
    var s := After(c, sign, seal, events);
    assert (events + [Delivered(r)])[..|events|] == events;
    AfterStep(c, sign, seal, events + [Delivered(r)]);
    AfterSound(c, sign, seal, events);
    SetupAwaited(s);
    DeliverIff(c, s, r);
  }

  // ---- the policy of what is received ------------------------------------------------------------------

  /** A reply to an ordinary command is let through if and only if it is sealed where sealing is on, and where
      signing is on it is rightly signed, or sealed and not signed. One that names SESSION_SETUP is always let
      through, and one that names NEGOTIATE unless signing is on and it is wrongly signed. */
  lemma {:induction false} PolicyIs(s: State, r: Reply)
    ensures r.named.AsOther? ==>
              (Admits(s, r) <==>
                (s.seal ==> r.sealed) && (s.sign ==> r.signature.Right? || (r.sealed && r.signature.Unsigned?)))
    ensures r.named.AsSessionSetup? ==> Admits(s, r)
    ensures r.named.AsNegotiate? ==> (Admits(s, r) <==> (s.sign ==> r.signature in {Right, Unsigned}))
  {
  }

  // ---- when an offer is accepted -----------------------------------------------------------------------

  /** The server can do what was asked for. */
  predicate Suitable(s: State, r: Reply) {
    && (s.seal && r.negotiated.dialect in {V0300, V0302} ==> r.negotiated.encryption)
    && (s.sign ==> r.negotiated.signingEnabled)
  }

  /** What became of the reply `r` to NEGOTIATE in `s`. */
  predicate Opens(s: State, r: Reply, accepted: bool, t: State) {
    && (t.out == s.out + [Handing(SessionSetupCb)] <==> accepted)
    && (accepted ==> t.offer == Some(r.negotiated) && t.dialect == r.negotiated.dialect && t.seal == s.seal &&
                     (t.sign <==> !s.seal && (s.sign || r.negotiated.signingRequired)) && t.answers == s.answers)
    && (!accepted ==> |t.answers| == |s.answers| + 1)
  }

  lemma {:induction false} RefusedOpens(s: State, u: State, r: Reply, a: Answer)
    requires u.out == s.out && u.answers == s.answers
    ensures Opens(s, r, false, Refuse(u, a))
  {
    Longer(s.out, Handing(SessionSetupCb));
  }

  lemma {:induction false} RequestedOpens(s: State, u: State, r: Reply, next: Request)
    requires u == s.(hash := u.hash, wire := u.wire, dialect := r.negotiated.dialect, offer := Some(r.negotiated), sign := u.sign)
    requires u.sign <==> !s.seal && (s.sign || r.negotiated.signingRequired)
    ensures Opens(s, r, next.Sent?, Requested(u, next))
  {
    hide Refuse;
    hide Sha512.Digest;
    hide Preauth.Flatten;
    RefusedOpens(s, u, r, Failed(Unspecified));
    RefusedOpens(s, u, r, Failed(NoMemory));
  }

  lemma {:induction false} NegotiateOpens(s: State, r: Reply)
    requires r.status == SUCCESS
    ensures Opens(s, r, Suitable(s, r) && r.auth && r.next.Sent?, OnNegotiate(s, r))
  {
    hide Sha512.Digest;
    hide Preauth.Flatten;
    hide Refuse;
    hide Requested;
    hide Opens;
    var t := Hashed(s, r.message);
    var u := t.(dialect := r.negotiated.dialect, offer := Some(r.negotiated));
    var v := u.(sign := !s.seal && (s.sign || r.negotiated.signingRequired));
    RefusedOpens(s, u, r, Failed(NoMemory));
    RefusedOpens(s, v, r, Failed(NoMemory));
    RequestedOpens(s, v, r, r.next);
  }

  /** An outstanding NEGOTIATE that the server answers with success, in a reply that gets past the policy of
      what is received: SESSION_SETUP is queued if and only if the offer suits the configuration and the request
      can be made. Then signing is on if it was asked for on either side, unless sealing is; otherwise the
      caller is told. */
  lemma {:induction false} OpenedIff(c: Config, sign: bool, seal: bool, events: seq<Event>, r: Reply)
    requires Calm(c, sign, seal, events) && r.status == SUCCESS
    requires var s := After(c, sign, seal, events);
             s.cur == Some(Handing(NegotiateCb)) && !s.broken && Admits(s, r)
    ensures var s, t := After(c, sign, seal, events), After(c, sign, seal, events + [Delivered(r)]);
            Opens(s, r, Suitable(s, r) && r.auth && r.next.Sent?, t)
  {
    hide Deliver;
    hide After;
    hide Admits;
    hide Suitable;
    hide Opens;
    var s := After(c, sign, seal, events);
    assert (events + [Delivered(r)])[..|events|] == events;
    AfterStep(c, sign, seal, events + [Delivered(r)]);
    DeliverOpens(c, s, r);
  }

  lemma {:induction false} DeliverOpens(c: Config, s: State, r: Reply)
    requires |s.keys.signing| == Preauth.KEY_SIZE && r.status == SUCCESS
    requires s.cur == Some(Handing(NegotiateCb)) && !s.broken && Admits(s, r)
    ensures Opens(s, r, Suitable(s, r) && r.auth && r.next.Sent?, Deliver(c, s, Delivered(r)))
  {
    hide OnNegotiate;
    hide Admits;
    NegotiateOpens(s.(cur := None), r);
    assert Dispatch(c, s, Delivered(r)) == Handed(s.(cur := None), NegotiateCb, r);
  }

  // ---- when a share is joined --------------------------------------------------------------------------

  /** No DFS, and encryption only where it can be had. */
  predicate Joinable(s: State, r: Reply) {
    && !r.tree.dfs && !r.tree.dfsRoot && !r.tree.dfsCapable
    && (r.tree.encrypt ==> s.dialect >= V0300 && s.sessionKey.Some?)
  }

  /** What became of the reply `r` to TREE_CONNECT in `s`. */
  predicate Shared(s: State, r: Reply, joined: bool, t: State) {
    && (t.tree.Some? && t.open && t.released == 1 <==> joined)
    && (joined ==> t.tree == Some(r) && t.session == s.session && t.answers == s.answers + [Fine] &&
                   (t.seal <==> s.seal || r.tree.encrypt) && (t.sign <==> s.sign && !r.tree.encrypt))
  }

  lemma {:induction false} TreeShared(s: State, r: Reply)
    requires r.status == SUCCESS && s.tree.None? && s.open && s.released == 0
    ensures Shared(s, r, Joinable(s, r), OnTree(s, r))
  {
    hide Refuse;
    hide Finish;
    hide ErrorStatus;
    var t := TreeParsed(s, r);
    FinishKeeps(t, Failed(NotSupported));
    FinishKeeps(t, Failed(AccessDenied));
    TreeUnsealed(s, r);
    JoinedShared(s, Encrypting(t, r.tree.encrypt).(tree := Some(r)), r);
  }

  lemma {:induction false} JoinedShared(s: State, t: State, r: Reply)
    requires t == s.(seal := s.seal || r.tree.encrypt, sign := s.sign && !r.tree.encrypt, tree := Some(r))
    requires s.open && s.released == 0
    ensures Shared(s, r, true, Finish(t, Fine))
  {
  }

  /** An outstanding TREE_CONNECT that the server answers with success, in a reply that gets past the policy of
      what is received: the share is joined if and only if it is not a DFS share and asks for no encryption that
      cannot be had. */
  lemma {:induction false} SharedIff(c: Config, sign: bool, seal: bool, events: seq<Event>, r: Reply)
    requires Calm(c, sign, seal, events) && r.status == SUCCESS
    requires var s := After(c, sign, seal, events);
             s.cur == Some(Handing(TreeConnectCb)) && !s.broken && Admits(TreeParsed(s, r), r)
    ensures var s, t := After(c, sign, seal, events), After(c, sign, seal, events + [Delivered(r)]);
            Shared(s, r, Joinable(s, r), t)
  {
    hide Sound;
    hide Deliver;
    hide After;
    hide Admits;
    hide TreeParsed;
    hide Joinable;
    hide Shared;
    var s := After(c, sign, seal, events);
    assert (events + [Delivered(r)])[..|events|] == events;
    AfterStep(c, sign, seal, events + [Delivered(r)]);
    AfterSound(c, sign, seal, events);
    TreeDispatched(c, s, r);
    DispatchRipe(c, s, Delivered(r));
    DeliverShared(c, s, r);
  }

  lemma {:induction false} TreeDispatched(c: Config, s: State, r: Reply)
    requires s.cur == Some(Handing(TreeConnectCb)) && !s.broken && Admits(TreeParsed(s, r), r) && r.status == SUCCESS
    ensures Dispatch(c, s, Delivered(r)) == Handed(s.(cur := None), TreeConnectCb, r)
  {
    hide Admits;
    hide TreeParsed;
  }

  lemma {:induction false} DeliverShared(c: Config, s: State, r: Reply)
    requires |s.keys.signing| == Preauth.KEY_SIZE && r.status == SUCCESS && s.tree.None? && s.open && s.released == 0
    requires Dispatch(c, s, Delivered(r)) == Handed(s.(cur := None), TreeConnectCb, r)
    ensures Shared(s, r, Joinable(s, r), Deliver(c, s, Delivered(r)))
  {
    hide OnTree;
    hide Dispatch;
    TreeShared(s.(cur := None), r);
  }
}
