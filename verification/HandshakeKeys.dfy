/** The pre-authentication hash and the keys over every run of the handshake. */
module HandshakeKeys {
  import opened Octet
  import opened Bytes
  import opened Sequences
  import opened Handshake
  import opened HandshakeAnswer
  import Preauth
  import Sha512

  function NoKeys(): (k: Keys)
    ensures |k.signing| == Preauth.KEY_SIZE
  {
    Keys(NoKey(), NoKey(), NoKey())
  }

  predicate FromTranscript(s: State) {
    |s.wire| > 0 &&
    s.keys == DialectKeys(NoKeys(), s.dialect, Material(s.sessionKey), Preauth.Transcript(s.wire[..|s.wire| - 1]))
  }

  /** Nothing asked for keys; a tree reply that asks for sealing later breaks the context or is refused. */
  predicate Keyless(s: State) {
    s.sessionKey.None? && s.dialect != V0311 && !s.sign && (s.seal ==> s.broken && s.released == 0)
  }

  /** Until a session is accepted there are no keys; then they come from the hash over everything but the
      server's last message, if anything asked for them. */
  predicate Derived(s: State) {
    (s.session.None? && s.released == 0 ==> s.keys == NoKeys()) &&
    (s.open && s.session.Some? ==> FromTranscript(s) || Keyless(s))
  }

  lemma {:induction false} RefusedDerived(s: State, a: Answer)
    ensures Derived(Refuse(s, a))
  {
    hide DialectKeys;
    hide NoKeys;
    hide Preauth.Transcript;
  }

  lemma {:induction false} FinishDerived(s: State, a: Answer)
    requires s.session.None? || FromTranscript(s) || (Keyless(s) && !s.seal)
    ensures Derived(Finish(s, a))
  {
    hide DialectKeys;
    hide NoKeys;
    hide Preauth.Transcript;
  }

  lemma {:induction false} TreeRequestedDerived(c: Config, s: State, r: Reply)
    requires FromTranscript(s) || (Keyless(s) && !s.seal)
    ensures Derived(TreeRequested(c, s, r))
  {
    hide DialectKeys;
    hide NoKeys;
    hide Preauth.Transcript;
    hide Finish;
    hide Refuse;
    var u := s.(session := Some(r));
    FinishDerived(u, Fine);
    RefusedDerived(u, Failed(NoMemory));
  }

  lemma {:induction false} KeyedDerived(c: Config, s: State, r: Reply)
    requires Sizes(s) && |s.wire| > 0 && s.hash == Preauth.Transcript(s.wire[..|s.wire| - 1])
    requires s.session.None? && s.keys == NoKeys() && s.sessionKey.None?
    ensures Derived(Keyed(c, s, r))
  {
    hide DialectKeys;
    hide Preauth.Transcript;
    hide ValidKey;
    hide NoKeys;
    hide Derived;
    hide Refuse;
    hide Finish;
    hide TreeRequested;
    var t := if r.key.Some? then s.(sessionKey := r.key) else s;
    var u := t.(keys := DialectKeys(s.keys, s.dialect, Material(t.sessionKey), s.hash));
    RefusedDerived(t, Failed(AccessDenied));
    FinishDerived(u, Failed(Invalid));
    TreeRequestedDerived(c, u, r);
    if !(Protected(s) || s.dialect == V0311) {
      TreeRequestedDerived(c, s, r);
    }
  }

  lemma {:induction false} RequestedDerived(s: State, next: Request)
    requires s.session.None? && s.keys == NoKeys()
    ensures Derived(Requested(s, next))
  {
    hide Sha512.Digest;
    hide DialectKeys;
    hide NoKeys;
    hide Preauth.Transcript;
    hide Refuse;
    RefusedDerived(s, Failed(Unspecified));
    RefusedDerived(s, Failed(NoMemory));
  }

  lemma {:induction false} SetupDerived(c: Config, s: State, r: Reply)
    requires Ready(s, SettingUp) && Derived(s)
    ensures Derived(OnSetup(c, s, r))
  {
    hide Sha512.Digest;
    hide Preauth.Transcript;
    hide Keyed;
    hide DialectKeys;
    hide NoKeys;
    hide Entries;
    hide Refuse;
    hide Requested;
    var t := Heard(s, r.message);
    assert t.wire[..|t.wire| - 1] == s.wire;
    RequestedDerived(Hashed(s, r.message), r.next);
    RefusedDerived(t, OfStatus(r.status));
    RefusedDerived(t, Failed(AccessDenied));
    KeyedDerived(c, Encrypting(t, r.setUp.encrypt), r);
  }

  lemma {:induction false} NegotiateDerived(s: State, r: Reply)
    requires Ready(s, Negotiating) && Derived(s)
    ensures Derived(OnNegotiate(s, r))
  {
    hide Sha512.Digest;
    hide Preauth.Transcript;
    hide DialectKeys;
    hide NoKeys;
    hide Outstanding;
    hide Refuse;
    hide Requested;
    var t := Hashed(s, r.message);
    var u := t.(dialect := r.negotiated.dialect, offer := Some(r.negotiated));
    var v := u.(sign := !s.seal && (s.sign || r.negotiated.signingRequired));
    RefusedDerived(t, OfStatus(r.status));
    RefusedDerived(u, Failed(NoMemory));
    RefusedDerived(v, Failed(NoMemory));
    RequestedDerived(v, r.next);
  }

  lemma {:induction false} SocketDerived(s: State, t: State, code: int, request: Option<seq<seq<byte>>>)
    requires Frame(s, Socket(t, code, request)) && s.session.None? && Derived(s)
    ensures Derived(OnSocket(t, code, request))
  {
    hide Sha512.Digest;
    hide DialectKeys;
    hide NoKeys;
    hide Preauth.Transcript;
  }

  lemma {:induction false} JoinedDerived(s: State, r: Reply)
    requires s.session.Some? && Derived(s) && s.open && !s.broken && r.status == SUCCESS
    requires r.tree.encrypt ==> s.sessionKey.Some?
    ensures Derived(Finish(Encrypting(TreeParsed(s, r), r.tree.encrypt).(tree := Some(r)), Fine))
  {
    hide DialectKeys;
    hide NoKeys;
    hide Preauth.Transcript;
  }

  lemma {:induction false} TreeDerived(s: State, r: Reply)
    requires s.session.Some? && Derived(s) && (GoesOn(r.status) ==> s.open && !s.broken)
    ensures Derived(OnTree(s, r))
  {
    hide Derived;
    hide Finish;
    hide Refuse;
    hide ErrorStatus;
    var t := TreeParsed(s, r);
    RefusedDerived(t, OfStatus(r.status));
    RefusedDerived(t, Failed(NotSupported));
    RefusedDerived(t, Failed(AccessDenied));
    if r.status == SUCCESS && (r.tree.encrypt ==> s.sessionKey.Some?) {
      JoinedDerived(s, r);
    }
  }

  lemma {:induction false} QuietDerived(s: State, t: State)
    requires Derived(s) && Frame(s, Quiet(t)) && (s.cur == Some(Handing(TreeConnectCb)) ==> s.released == 0)
    ensures Derived(t)
  {
    hide DialectKeys;
    hide NoKeys;
    hide Preauth.Transcript;
  }

  lemma {:induction false} MovedDerived(s: State, t: State)
    requires Derived(s) && t == s.(out := t.out, cur := t.cur, wait := t.wait)
    ensures Derived(t)
  {
    hide DialectKeys;
    hide NoKeys;
    hide Preauth.Transcript;
  }

  lemma {:induction false} HandedFrame(s: State, t: State, cb: Callback, r: Reply)
    requires Frame(s, Handed(t, cb, r))
    ensures t == s.(out := t.out, cur := t.cur, wait := t.wait) && (GoesOn(r.status) ==> !t.broken)
  {
    hide Admits;
    hide Parsed;
  }

  lemma {:induction false} DeliverDerived(c: Config, s: State, e: Event)
    requires Sound(s) && !Interrupts(c, s, e) && Derived(s)
    ensures Derived(Deliver(c, s, e))
  {
    hide Sound;
    hide Dispatch;
    hide Ready;
    hide OnSocket;
    hide CallBack;
    hide Derived;
    hide Frame;
    DispatchRipe(c, s, e);
    match Dispatch(c, s, e)
    case Quiet(t) => QuietDerived(s, t);
    case Socket(t, code, request) => SocketDerived(s, t, code, request);
    case Handed(t, cb, r) =>
      HandedFrame(s, t, cb, r);
      MovedDerived(s, t);
      HandedDerived(c, t, cb, r);
  }

  lemma {:induction false} HandedDerived(c: Config, s: State, cb: Callback, r: Reply)
    requires Ready(s, Awaited(cb)) && Derived(s) && (GoesOn(r.status) ==> s.open && !s.broken) && Keyable(s)
    requires cb.TreeConnectCb? ==> s.session.Some?
    ensures Derived(CallBack(c, s, cb, r))
  {
    hide OnNegotiate;
    hide OnSetup;
    hide OnTree;
    hide Derived;
    hide Ready;
    match cb
    case NegotiateCb => NegotiateDerived(s, r);
    case SessionSetupCb => SetupDerived(c, s, r);
    case TreeConnectCb => TreeDerived(s, r);
  }

  function Outgoing(next: Request): seq<seq<byte>> {
    if next.Sent? then [Preauth.Flatten(next.pieces)] else []
  }

  /** The messages of the handshake that go over the wire around a call, if the handshake goes on. */
  function Exchanged(call: Call): seq<seq<byte>> {
    match call
    case Quiet(_) => []
    case Socket(_, _, request) => if request.Some? then [Preauth.Flatten(request.value)] else []
    case Handed(_, NegotiateCb, r) => [Preauth.Flatten(r.message)] + Outgoing(r.next)
    case Handed(_, SessionSetupCb, r) => [Preauth.Flatten(r.message)] + if r.status == SUCCESS then [] else Outgoing(r.next)
    case Handed(_, TreeConnectCb, _) => []
  }

  ghost function Exchange(c: Config, sign: bool, seal: bool, events: seq<Event>): seq<seq<byte>> {
    if events == [] then []
    else
      var before := events[..|events| - 1];
      Exchange(c, sign, seal, before) + Exchanged(Dispatch(c, After(c, sign, seal, before), events[|events| - 1]))
  }

  predicate Live(s: State) {
    s.released == 0 || s.session.Some?
  }

  lemma {:induction false} RefusedDead(s: State, a: Answer)
    requires s.session.None? && s.released == 0
    ensures !Live(Refuse(s, a))
  {
  }

  lemma {:induction false} RequestedWire(s: State, next: Request)
    requires s.session.None? && s.released == 0 && Live(Requested(s, next))
    ensures Requested(s, next).wire == s.wire + Outgoing(next)
  {
    hide Preauth.Flatten;
    hide Sha512.Digest;
    hide Refuse;
    RefusedDead(s, Failed(Unspecified));
    RefusedDead(s, Failed(NoMemory));
  }

  lemma {:induction false} NegotiateWire(s: State, r: Reply)
    requires s.session.None? && s.released == 0 && Live(OnNegotiate(s, r))
    ensures OnNegotiate(s, r).wire == s.wire + ([Preauth.Flatten(r.message)] + Outgoing(r.next))
  {
    hide Preauth.Flatten;
    hide Sha512.Digest;
    hide Refuse;
    hide Requested;
    hide Live;
    hide Outgoing;
    var t := Hashed(s, r.message);
    var u := t.(dialect := r.negotiated.dialect, offer := Some(r.negotiated));
    var v := u.(sign := !s.seal && (s.sign || r.negotiated.signingRequired));
    RefusedDead(t, OfStatus(r.status));
    RefusedDead(u, Failed(NoMemory));
    RefusedDead(v, Failed(NoMemory));
    RequestedWire(v, r.next);
    Assoc(s.wire, [Preauth.Flatten(r.message)], Outgoing(r.next));
  }

  lemma {:induction false} SetupWire(c: Config, s: State, r: Reply)
    requires Sizes(s) && s.session.None? && s.released == 0 && Live(OnSetup(c, s, r))
    ensures OnSetup(c, s, r).wire == s.wire + Exchanged(Handed(s, SessionSetupCb, r))
  {
    hide Preauth.Flatten;
    hide Sha512.Digest;
    hide Keyed;
    hide Refuse;
    hide Requested;
    hide Live;
    hide Outgoing;
    EmptyUnit([Preauth.Flatten(r.message)]);
    Assoc(s.wire, [Preauth.Flatten(r.message)], Outgoing(r.next));
    var t := Heard(s, r.message);
    RefusedDead(t, OfStatus(r.status));
    RefusedDead(t, Failed(AccessDenied));
    if r.status == MORE_PROCESSING_REQUIRED && r.setUp.hasToken {
      RequestedWire(Hashed(s, r.message), r.next);
    }
    KeyedKeeps(c, Encrypting(t, r.setUp.encrypt), r);
  }

  lemma {:induction false} TreeWire(s: State, r: Reply)
    ensures OnTree(s, r).wire == s.wire
  {
    hide Finish;
    hide Refuse;
    hide ErrorStatus;
    var t := TreeParsed(s, r);
    FinishKeeps(t, OfStatus(r.status));
    FinishKeeps(t, Failed(NotSupported));
    FinishKeeps(t, Failed(AccessDenied));
    FinishKeeps(Encrypting(t, r.tree.encrypt).(tree := Some(r)), Fine);
  }

  lemma {:induction false} FinishedDead(s: State, a: Answer)
    requires s.session.None? && s.released == 0
    ensures !Live(Finish(s, a))
  {
  }

  lemma {:induction false} SocketWire(s: State, code: int, request: Option<seq<seq<byte>>>)
    requires s.session.None? && s.released == 0 && Live(OnSocket(s, code, request))
    ensures OnSocket(s, code, request).wire == s.wire + Exchanged(Socket(s, code, request))
  {
    hide Preauth.Flatten;
    hide Sha512.Digest;
    hide Finish;
    hide Live;
    FinishedDead(s, OfSocket(-code));
    FinishedDead(s.(hash := Zeros(Preauth.HASH_SIZE)), Failed(NoMemory));
  }

  lemma {:induction false} DeliverWire(c: Config, s: State, e: Event)
    requires Sound(s) && !Interrupts(c, s, e) && Live(Deliver(c, s, e))
    ensures Deliver(c, s, e).wire == s.wire + Exchanged(Dispatch(c, s, e)) && Live(s)
  {
    DispatchApt(c, s, e);
    EmptyUnit(s.wire);
    hide Preauth.Flatten;
    hide Sound;
    hide Dispatch;
    hide Ready;
    hide StepAt;
    hide Outstanding;
    hide OnSocket;
    hide OnNegotiate;
    hide OnSetup;
    hide OnTree;
    match Dispatch(c, s, e)
    case Quiet(_) =>
    case Socket(t, code, request) =>
      ReadyFacts(t, Connecting);
      SocketWire(t, code, request);
    case Handed(t, NegotiateCb, r) =>
      ReadyFacts(t, Negotiating);
      NegotiateWire(t, r);
    case Handed(t, SessionSetupCb, r) =>
      ReadyFacts(t, SettingUp);
      SetupWire(c, t, r);
    case Handed(t, TreeConnectCb, r) =>
      ReadyFacts(t, TreeConnecting);
      TreeWire(t, r);
  }

  lemma {:induction false} WireIsExchange(c: Config, sign: bool, seal: bool, events: seq<Event>)
    requires Calm(c, sign, seal, events) && Live(After(c, sign, seal, events))
    ensures After(c, sign, seal, events).wire == Exchange(c, sign, seal, events)
  {
    hide Sound;
    hide Deliver;
    hide After;
    hide Live;
    hide Exchanged;
    hide Dispatch;
    AfterStep(c, sign, seal, events);
    if events != [] {
      var prefix, last := events[..|events| - 1], events[|events| - 1];
      AfterSound(c, sign, seal, prefix);
      DeliverWire(c, After(c, sign, seal, prefix), last);
      WireIsExchange(c, sign, seal, prefix);
    }
  }

  lemma {:induction false} StartDerived(sign: bool, seal: bool)
    ensures Derived(Start(sign, seal))
  {
  }

  lemma {:induction false} RunDerived(c: Config, sign: bool, seal: bool, events: seq<Event>)
    requires Calm(c, sign, seal, events)
    ensures Derived(After(c, sign, seal, events))
  {
    hide Derived;
    hide Sound;
    hide Deliver;
    hide After;
    AfterStep(c, sign, seal, events);
    if events == [] {
      StartDerived(sign, seal);
    } else {
      RunDerived(c, sign, seal, events[..|events| - 1]);
      AfterSound(c, sign, seal, events[..|events| - 1]);
      DeliverDerived(c, After(c, sign, seal, events[..|events| - 1]), events[|events| - 1]);
    }
  }

  /** The hash during the handshake is the fold over every message exchanged so far. */
  lemma {:induction false} HashIsTranscript(c: Config, sign: bool, seal: bool, events: seq<Event>)
    requires Calm(c, sign, seal, events)
    requires var t := After(c, sign, seal, events); StepAt(t) in {Negotiating, SettingUp}
    ensures After(c, sign, seal, events).hash == Preauth.Transcript(Exchange(c, sign, seal, events))
  {
    hide After;
    hide Exchange;
    hide Preauth.Transcript;
    hide Entries;
    StepIs(Completed);
    AfterSound(c, sign, seal, events);
    WireIsExchange(c, sign, seal, events);
  }

  /** The keys of a joined connection come from the session key and, from dialect 3.1.1 on, from the hash
      over NEGOTIATE and every SESSION_SETUP message but the final reply. */
  lemma {:induction false} KeysFromTranscript(c: Config, sign: bool, seal: bool, events: seq<Event>)
    requires Calm(c, sign, seal, events)
    requires Joined(c, After(c, sign, seal, events))
    ensures var t, all := After(c, sign, seal, events), Exchange(c, sign, seal, events);
            Protected(t) || t.dialect == V0311 ==>
              |all| > 0 && t.hash == Preauth.Transcript(all[..|all| - 1]) &&
              t.keys == DialectKeys(NoKeys(), t.dialect, Material(t.sessionKey), t.hash)
  {
    hide After;
    hide Exchange;
    hide DialectKeys;
    hide NoKeys;
    hide Preauth.Transcript;
    hide Outstanding;
    AfterSound(c, sign, seal, events);
    WireIsExchange(c, sign, seal, events);
    RunDerived(c, sign, seal, events);
  }
}
