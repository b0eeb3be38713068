/** What the number that the user's callback gets tells about the outcome of the handshake. */
module HandshakeAnswer {
  import opened Octet
  import opened Bytes
  import opened Sequences
  import opened Handshake
  import Preauth
  import Sha512

  predicate Joined(c: Config, s: State) {
    s.session.Some? && s.open && s.released == 1 && (c.passthrough || s.tree.Some?)
  }

  /** What the answer says about the outcome. */
  predicate Told(c: Config, s: State) {
    s.released == 1 ==> (|s.answers| == 1 && (Joined(c, s) ==> s.answers[0].Fine?) &&
      (Passing(s.answers[0]) && !Joined(c, s) ==> !s.open && (s.answers[0] == OfStatus(END_OF_FILE) || s.answers[0].OfSocket?)))
  }

  lemma {:induction false} RefusedTold(c: Config, s: State, a: Answer)
    requires s.answers == [] && (Passing(a) ==> a == OfStatus(END_OF_FILE))
    ensures Told(c, Refuse(s, a))
  {
  }

  lemma {:induction false} RequestedTold(c: Config, s: State, next: Request)
    requires s.answers == [] && s.released == 0
    ensures Told(c, Requested(s, next))
  {
    hide Sha512.Digest;
  }

  lemma {:induction false} FinishedTold(c: Config, s: State, a: Answer)
    requires s.answers == [] && (Passing(a) ==> a == Fine && s.session.Some? && s.open && (c.passthrough || s.tree.Some?))
    requires !Passing(a) ==> s.session.None? || (!c.passthrough && s.tree.None?) || !s.open
    ensures Told(c, Finish(s, a))
  {
  }

  lemma {:induction false} TreeRequestedTold(c: Config, s: State, r: Reply)
    requires s.answers == [] && s.released == 0 && s.open
    ensures Told(c, TreeRequested(c, s, r))
  {
    hide Told;
    hide Finish;
    hide Refuse;
    var u := s.(session := Some(r));
    RefusedTold(c, u, Failed(NoMemory));
    if c.passthrough {
      FinishedTold(c, u, Fine);
    } else if r.treeRequest {
      UnfinishedTold(c, Enqueued(u, TreeConnectCb));
    }
  }

  lemma {:induction false} UnfinishedTold(c: Config, s: State)
    requires s.released == 0
    ensures Told(c, s)
  {
  }

  lemma {:induction false} KeyedTold(c: Config, s: State, r: Reply)
    requires Sizes(s) && s.answers == [] && s.released == 0 && s.open && s.session.None? && s.tree.None?
    ensures Told(c, Keyed(c, s, r))
  {
    hide DialectKeys;
    hide ValidKey;
    hide Told;
    hide Finish;
    hide Refuse;
    hide TreeRequested;
    var t := if r.key.Some? then s.(sessionKey := r.key) else s;
    var u := t.(keys := DialectKeys(s.keys, s.dialect, Material(t.sessionKey), s.hash));
    RefusedTold(c, t, Failed(AccessDenied));
    FinishedTold(c, u, Failed(Invalid));
    TreeRequestedTold(c, u, r);
    TreeRequestedTold(c, s, r);
  }

  lemma {:induction false} SetupTold(c: Config, s: State, r: Reply)
    requires Ready(s, SettingUp) && (GoesOn(r.status) ==> s.open)
    ensures Told(c, OnSetup(c, s, r))
  {
    hide Sha512.Digest;
    hide Preauth.Transcript;
    hide Told;
    hide Refuse;
    hide Keyed;
    hide Requested;
    hide Outstanding;
    var t := Heard(s, r.message);
    RequestedTold(c, Hashed(s, r.message), r.next);
    if r.status == SUCCESS {
      KeyedTold(c, Encrypting(t, r.setUp.encrypt), r);
    }
    RefusedTold(c, t, Failed(AccessDenied));
    if r.status != SUCCESS {
      RefusedTold(c, t, OfStatus(r.status));
    }
  }

  lemma {:induction false} NegotiateTold(c: Config, s: State, r: Reply)
    requires Ready(s, Negotiating)
    ensures Told(c, OnNegotiate(s, r))
  {
    hide Sha512.Digest;
    hide Preauth.Transcript;
    hide Told;
    hide Refuse;
    hide Requested;
    hide Outstanding;
    var u := Hashed(s, r.message).(dialect := r.negotiated.dialect, offer := Some(r.negotiated));
    var v := u.(sign := !s.seal && (s.sign || r.negotiated.signingRequired));
    RefusedTold(c, u, Failed(NoMemory));
    RefusedTold(c, v, Failed(NoMemory));
    RequestedTold(c, v, r.next);
    if r.status != SUCCESS {
      RefusedTold(c, Hashed(s, r.message), OfStatus(r.status));
    }
  }

  lemma {:induction false} SocketTold(c: Config, s: State, code: int, request: Option<seq<seq<byte>>>)
    requires Ready(s, Connecting) && (code != 0 ==> !s.open)
    ensures Told(c, OnSocket(s, code, request))
  {
    hide Sha512.Digest;
    hide Preauth.Transcript;
    hide Outstanding;
  }

  lemma {:induction false} TreeTold(c: Config, s: State, r: Reply)
    requires Ready(s, TreeConnecting) && (GoesOn(r.status) ==> s.open)
    ensures Told(c, OnTree(s, r))
  {
    hide Preauth.Transcript;
    hide Outstanding;
    hide Told;
    hide Refuse;
    hide Finish;
    hide ErrorStatus;
    var t := TreeParsed(s, r);
    RefusedTold(c, t, Failed(NotSupported));
    RefusedTold(c, t, Failed(AccessDenied));
    if r.status == SUCCESS {
      FinishedTold(c, Encrypting(t, r.tree.encrypt).(tree := Some(r)), Fine);
    } else {
      RefusedTold(c, t, OfStatus(r.status));
    }
  }

  lemma {:induction false} QuietTold(c: Config, s: State, t: State)
    requires Told(c, s) && t == s.(out := t.out, cur := t.cur, wait := t.wait, broken := t.broken, seal := t.seal)
    ensures Told(c, t)
  {
  }

  lemma {:induction false} DeliverTold(c: Config, s: State, e: Event)
    requires Sound(s) && !Interrupts(c, s, e) && Told(c, s)
    ensures Told(c, Deliver(c, s, e))
  {
    DispatchApt(c, s, e);
    hide Admits;
    hide Parsed;
    hide Sound;
    hide Dispatch;
    hide Ready;
    hide StepAt;
    hide Outstanding;
    hide OnSocket;
    hide OnNegotiate;
    hide OnSetup;
    hide OnTree;
    hide Told;
    match Dispatch(c, s, e)
    case Quiet(t) => QuietTold(c, s, t);
    case Socket(t, code, request) => SocketTold(c, t, code, request);
    case Handed(t, NegotiateCb, r) => NegotiateTold(c, t, r);
    case Handed(t, SessionSetupCb, r) => SetupTold(c, t, r);
    case Handed(t, TreeConnectCb, r) => TreeTold(c, t, r);
  }

  lemma {:induction false} StartTold(c: Config, sign: bool, seal: bool)
    ensures Told(c, Start(sign, seal))
  {
  }

  /** The number is not negative in three kinds of run only: the share is joined and the socket open, the
      server answered a request with STATUS_END_OF_FILE, or no socket could be connected. */
  lemma {:induction false} AnswerTells(c: Config, sign: bool, seal: bool, events: seq<Event>)
    requires Calm(c, sign, seal, events)
    ensures Told(c, After(c, sign, seal, events))
  {
    hide Told;
    hide Sound;
    hide Deliver;
    hide After;
    AfterStep(c, sign, seal, events);
    if events == [] {
      StartTold(c, sign, seal);
    } else {
      AnswerTells(c, sign, seal, events[..|events| - 1]);
      AfterSound(c, sign, seal, events[..|events| - 1]);
      DeliverTold(c, After(c, sign, seal, events[..|events| - 1]), events[|events| - 1]);
    }
  }

  /** A caller who looks at the socket can tell: the share is joined if and only if the number is not
      negative and the socket is still open. */
  lemma {:induction false} PassingAndOpen(c: Config, sign: bool, seal: bool, events: seq<Event>)
    requires Calm(c, sign, seal, events)
    requires |After(c, sign, seal, events).answers| > 0
    ensures var t := After(c, sign, seal, events);
            |t.answers| == 1 && (Joined(c, t) <==> Passing(t.answers[0]) && t.open)
  {
    hide After;
    hide Entries;
    hide Preauth.Transcript;
    AfterSound(c, sign, seal, events);
    AnswerTells(c, sign, seal, events);
  }

  lemma {:induction false} RunJoined(c: Config, s: State, first: seq<Event>, later: seq<Event>)
    requires Keyable(s)
    ensures Run(c, s, first + later) == Run(c, Run(c, s, first), later)
  {
    hide Sound;
    hide Deliver;
    if later == [] {
      EmptyUnit(first);
    } else {
      var k := |later| - 1;
      var all := first + later;
      assert all[..|all| - 1] == first + later[..k];
      RunJoined(c, s, first, later[..k]);
    }
  }

  lemma {:induction false} RunStep(c: Config, s: State, events: seq<Event>, e: Event)
    requires Keyable(s)
    ensures Run(c, s, events + [e]) == Deliver(c, Run(c, s, events), e) && Run(c, s, []) == s
  {
    hide Sound;
    hide Deliver;
    var all := events + [e];
    assert all[..|all| - 1] == events;
  }

  lemma {:induction false} WrittenAlone(c: Config, s: State, p: Command)
    requires |s.keys.signing| == Preauth.KEY_SIZE && !s.broken && s.out == [p] && s.wait == []
    ensures Deliver(c, s, Written) == s.(out := [], wait := [p])
  {
    hide CallBack;
    hide Arrive;
    assert s.out[1..] == [] && s.wait + [p] == [p];
  }

  lemma {:induction false} ReceivedAlone(c: Config, s: State, p: Command)
    requires |s.keys.signing| == Preauth.KEY_SIZE && !s.broken && s.cur.None? && s.wait == [p]
    ensures Deliver(c, s, Received(0)) == s.(cur := Some(p), wait := [])
  {
    hide CallBack;
    hide Arrive;
    assert Removed([p], 0) == [];
  }

  lemma {:induction false} DeliveredAlone(c: Config, s: State, cb: Callback, r: Reply)
    requires |s.keys.signing| == Preauth.KEY_SIZE && !s.broken && s.cur == Some(Handing(cb))
    requires r.status != PENDING && Admits(Parsed(s, Handing(cb), r), r)
    ensures Deliver(c, s, Delivered(r)) == CallBack(c, s.(cur := None), cb, r)
  {
    hide CallBack;
    hide Admits;
    hide Parsed;
  }

  /** The only command is written out, and its reply delivered. */
  lemma {:induction false} RoundIs(c: Config, s: State, cb: Callback, r: Reply)
    requires Keyable(s) && !s.broken && s.out == [Handing(cb)] && s.cur.None? && s.wait == []
    requires r.status != PENDING && Admits(Parsed(s, Handing(cb), r), r)
    ensures Run(c, s, Round(r)) == CallBack(c, s.(out := []), cb, r)
  {
    hide CallBack;
    hide Run;
    hide Deliver;
    hide Admits;
    hide ErrorStatus;
    Spelled(r);
    RunStep(c, s, [], Written);
    RunStep(c, s, [Written], Received(0));
    RunStep(c, s, [Written, Received(0)], Delivered(r));
    hide Round;
    var p := Handing(cb);
    WrittenAlone(c, s, p);
    var t := s.(out := [], wait := [p]);
    ReceivedAlone(c, t, p);
    var u := t.(cur := Some(p), wait := []);
    AdmitsSame(s, u, p, r);
    DeliveredAlone(c, u, cb, r);
    assert u.(cur := None) == s.(out := []);
  }

  lemma {:induction false} Spelled(r: Reply)
    ensures [] + [Written] == [Written] && [Written] + [Received(0)] == [Written, Received(0)]
    ensures [Written, Received(0)] + [Delivered(r)] == Round(r)
  {
  }

  function Round(r: Reply): seq<Event> {
    [Written, Received(0), Delivered(r)]
  }

  /** An offer accepted, and then STATUS_END_OF_FILE. */
  lemma {:induction false} EndsInFile(c: Config, s: State, offer: Reply, last: Reply)
    requires Keyable(s) && !s.broken && s.out == [Handing(NegotiateCb)] && s.cur.None? && s.wait == []
    requires !s.seal && offer.status == SUCCESS && offer.auth && offer.next.Sent? && offer.negotiated.signingEnabled
    requires offer.named.AsNegotiate? && offer.signature.Unsigned? && last.named.AsSessionSetup? && last.signature.Unsigned?
    requires last.status == END_OF_FILE && !last.tree.encrypt
    requires s.answers == [] && s.released == 0 && s.session.None?
    ensures var t := Run(c, s, Round(offer) + Round(last));
            t.released == 1 && t.answers == [OfStatus(END_OF_FILE)] && t.session.None? && !t.open
  {
    hide Sha512.Digest;
    hide CallBack;
    hide Run;
    RoundIs(c, s, NegotiateCb, offer);
    OfferAccepted(c, s.(out := []), offer);
    var t := Run(c, s, Round(offer));
    RoundIs(c, t, SessionSetupCb, last);
    FailedIs(c, t.(out := []), SessionSetupCb, last);
    RunJoined(c, s, Round(offer), Round(last));
  }

  lemma {:induction false} ConnectedIs(c: Config, sign: bool, seal: bool)
    ensures var t := Run(c, Start(sign, seal), [Connected(0, Some([]), true)]);
            Keyable(t) && t.out == [Handing(NegotiateCb)] && t.cur.None? && t.wait == [] && !t.broken && t.open &&
            t.sign == sign && t.seal == seal && t.answers == [] && t.released == 0 && t.session.None?
  {
    hide Sha512.Digest;
    hide CallBack;
    var e := Connected(0, Some([]), true);
    RunStep(c, Start(sign, seal), [], e);
    assert [] + [e] == [e];
    hide Run;
  }

  /** The number alone does not tell: the server ends the session setup with STATUS_END_OF_FILE. */
  lemma {:induction false} PassingWithoutSession(c: Config)
    ensures exists events :: var t := After(c, true, false, events);
              t.released == |t.answers| == 1 && Passing(t.answers[0]) && t.session.None? && !t.open
  {
    hide Sha512.Digest;
    hide Entries;
    hide Round;
    var offer := Offer();
    var last := Local(END_OF_FILE, []).(named := AsSessionSetup);
    var e, s := [Connected(0, Some([]), true)], Start(true, false);
    ConnectedIs(c, true, false);
    EndsInFile(c, Run(c, s, e), offer, last);
    RunJoined(c, s, e, Round(offer) + Round(last));
    hide Run;
    var t := After(c, true, false, e + (Round(offer) + Round(last)));
  }

  /** A server that offers everything, to a client that goes on. */
  function Offer(): Reply {
    Local(SUCCESS, []).(named := AsNegotiate, negotiated := NegotiateReply(V0311, true, true, true), auth := true, next := Sent([]))
  }

  lemma {:induction false} OfferAccepted(c: Config, s: State, r: Reply)
    requires |s.keys.signing| == Preauth.KEY_SIZE && !s.seal && r.status == SUCCESS && r.auth && r.next.Sent?
    requires r.negotiated.signingEnabled
    ensures var t := CallBack(c, s, NegotiateCb, r);
            t.out == s.out + [Handing(SessionSetupCb)] && t.cur == s.cur && t.wait == s.wait && t.session == s.session &&
            t.keys == s.keys && t.answers == s.answers && t.released == s.released && t.broken == s.broken && t.open == s.open &&
            t.sign == (s.sign || r.negotiated.signingRequired) && !t.seal && t.dialect == r.negotiated.dialect && t.tree == s.tree
  {
    hide Sha512.Digest;
  }
}
