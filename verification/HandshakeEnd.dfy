/** The end of a context: smb2_destroy_context drains the queues, and the handshake completes wherever it
    stands. */
module HandshakeEnd {
  import opened Octet
  import opened Bytes
  import opened Handshake
  import Preauth
  import Sha512

  /** A command that has been taken out of its queue is told that the context ends. */
  function Ended(c: Config, s: State, p: Command, message: seq<seq<byte>>): (t: State)
    requires |s.keys.signing| == Preauth.KEY_SIZE
    ensures t.hook == s.hook && t.out == s.out && t.cur == s.cur && t.wait == s.wait
    ensures |t.keys.signing| == Preauth.KEY_SIZE
  {
    hide CallBack;
    EndedKeeps(c, s, p, message);
    Perform(c, Handle(s, p, Local(SHUTDOWN, message)))
  }

  lemma {:induction false} RefuseKeeps(s: State, a: Answer)
    ensures var t := Refuse(s, a);
            t.hook == s.hook && t.out == s.out && t.cur == s.cur && t.wait == s.wait && |t.keys.signing| == Preauth.KEY_SIZE
  {
  }

  lemma {:induction false} NotedKeeps(s: State, cb: Callback, message: seq<seq<byte>>)
    ensures var t := Noted(s, cb, message); t.hook == s.hook && t.out == s.out && t.cur == s.cur && t.wait == s.wait
  {
    hide Sha512.Digest;
  }

  lemma {:induction false} EndedKeeps(c: Config, s: State, p: Command, message: seq<seq<byte>>)
    requires |s.keys.signing| == Preauth.KEY_SIZE
    ensures var t := Perform(c, Handle(s, p, Local(SHUTDOWN, message)));
            t.hook == s.hook && t.out == s.out && t.cur == s.cur && t.wait == s.wait && |t.keys.signing| == Preauth.KEY_SIZE
  {
    hide Sha512.Digest;
    hide CallBack;
    hide Refuse;
    hide Noted;
    if p.Handing? {
      LocalIs(c, s, p.cb, SHUTDOWN, message);
      NotedKeeps(s, p.cb, message);
      RefuseKeeps(Noted(s, p.cb, message), OfStatus(SHUTDOWN));
    }
  }

  function DrainOut(c: Config, s: State, message: seq<seq<byte>>): (t: State)
    requires |s.keys.signing| == Preauth.KEY_SIZE
    ensures |t.keys.signing| == Preauth.KEY_SIZE
    decreases |s.out|
  {
    if s.out == [] then s else DrainOut(c, Ended(c, s.(out := s.out[1..]), s.out[0], message), message)
  }

  function DrainCurrent(c: Config, s: State, message: seq<seq<byte>>): (t: State)
    requires |s.keys.signing| == Preauth.KEY_SIZE
    ensures |t.keys.signing| == Preauth.KEY_SIZE
  {
    if s.cur.Some? then Ended(c, s.(cur := None), s.cur.value, message) else s
  }

  function DrainWait(c: Config, s: State, message: seq<seq<byte>>): (t: State)
    requires |s.keys.signing| == Preauth.KEY_SIZE
    ensures |t.keys.signing| == Preauth.KEY_SIZE
    decreases |s.wait|
  {
    if s.wait == [] then s else DrainWait(c, Ended(c, s.(wait := s.wait[1..]), s.wait[0], message), message)
  }

  function DrainQueues(c: Config, s: State, message: seq<seq<byte>>): State
    requires |s.keys.signing| == Preauth.KEY_SIZE
  {
    DrainWait(c, DrainCurrent(c, DrainOut(c, s, message), message), message)
  }

  function CancelHook(s: State): State {
    if s.hook then OnSocket(s.(hook := false), CANCELLED, None) else s
  }

  /** smb2_destroy_context closes the socket, ends every command, wherever it is, cancels the connect callback,
      and frees the connect data if the context still points to them. */
  function Destroyed(c: Config, s: State, message: seq<seq<byte>>): State
    requires |s.keys.signing| == Preauth.KEY_SIZE
  {
    var t := CancelHook(DrainQueues(c, s.(open := false), message));
    if t.connectData then FreeConnectData(t) else t
  }

  /** The number of a handshake that ends with the context. */
  predicate Ending(s: State) {
    s.answers == [OfStatus(SHUTDOWN)] && !s.hook
  }

  /** Part of the way through the queues of `was`. */
  ghost predicate Draining(s: State, was: State) {
    Linear(s) && s.hook == was.hook &&
    if s.released == was.released then s.answers == was.answers else Ending(s)
  }

  lemma {:induction false} ShutDown(c: Config, s: State, cb: Callback, message: seq<seq<byte>>)
    requires Running(s) && |s.keys.signing| == Preauth.KEY_SIZE
    ensures var t := CallBack(c, s, cb, Local(SHUTDOWN, message));
            Linear(t) && t.released == 1 && t.answers == [OfStatus(SHUTDOWN)]
  {
    hide Entries;
    hide Sha512.Digest;
    hide StepOf;
    hide CallBack;
    LocalIs(c, s, cb, SHUTDOWN, message);
    RefuseNext(Noted(s, cb, message), OfStatus(SHUTDOWN));
  }

  /** Ending one command of a context that is being drained. */
  lemma {:induction false} EndedDrains(c: Config, s: State, t: State, p: Command, was: State, message: seq<seq<byte>>)
    requires Draining(s, was) && t == s.(out := t.out, cur := t.cur, wait := t.wait) && |t.keys.signing| == Preauth.KEY_SIZE
    requires Outstanding(s) == Outstanding(t) + Holder(p)
    ensures Draining(Ended(c, t, p, message), was)
  {
    hide Entries;
    hide StepOf;
    hide CallBack;
    if p.Handing? {
      OnlyOne(Outstanding(s), Outstanding(t), Awaited(p.cb));
      HookHolds(t);
      ShutDown(c, t, p.cb, message);
    }
  }

  lemma {:induction false} HookHolds(s: State)
    requires Outstanding(s) == multiset{}
    ensures !s.hook
  {
    hide Holders;
    hide Holder;
    assert s.hook ==> Connecting in Outstanding(s);
  }

  lemma {:induction false} OutDrains(c: Config, s: State, was: State, message: seq<seq<byte>>)
    requires Draining(s, was) && |s.keys.signing| == Preauth.KEY_SIZE
    ensures var t := DrainOut(c, s, message); Draining(t, was) && t.out == [] && t.cur == s.cur && t.wait == s.wait
    decreases |s.out|
  {
    hide Draining;
    hide Ended;
    hide Holder;
    hide Entries;
    if s.out != [] {
      var t := s.(out := s.out[1..]);
      OutTakes(s, 0);
      assert Removed(s.out, 0) == s.out[1..];
      EndedDrains(c, s, t, s.out[0], was, message);
      OutDrains(c, Ended(c, t, s.out[0], message), was, message);
    }
  }

  lemma {:induction false} CurrentDrains(c: Config, s: State, was: State, message: seq<seq<byte>>)
    requires Draining(s, was) && |s.keys.signing| == Preauth.KEY_SIZE
    ensures var t := DrainCurrent(c, s, message); Draining(t, was) && t.out == s.out && t.cur == None && t.wait == s.wait
  {
    hide Draining;
    hide Ended;
    hide Holder;
    hide Entries;
    if s.cur.Some? {
      CurrentTakes(s);
      EndedDrains(c, s, s.(cur := None), s.cur.value, was, message);
    }
  }

  lemma {:induction false} WaitDrains(c: Config, s: State, was: State, message: seq<seq<byte>>)
    requires Draining(s, was) && |s.keys.signing| == Preauth.KEY_SIZE
    ensures var t := DrainWait(c, s, message); Draining(t, was) && t.out == s.out && t.cur == s.cur && t.wait == []
    decreases |s.wait|
  {
    hide Draining;
    hide Ended;
    hide Holder;
    hide Entries;
    if s.wait != [] {
      var t := s.(wait := s.wait[1..]);
      WaitTakes(s, 0);
      assert Removed(s.wait, 0) == s.wait[1..];
      EndedDrains(c, s, t, s.wait[0], was, message);
      WaitDrains(c, Ended(c, t, s.wait[0], message), was, message);
    }
  }

  lemma {:induction false} QueuesDrain(c: Config, s: State, message: seq<seq<byte>>)
    requires Linear(s) && |s.keys.signing| == Preauth.KEY_SIZE
    ensures var t := DrainQueues(c, s, message); Draining(t, s) && t.out == [] && t.cur == None && t.wait == []
  {
    OutDrains(c, s, s, message);
    var t := DrainOut(c, s, message);
    CurrentDrains(c, t, s, message);
    WaitDrains(c, DrainCurrent(c, t, message), s, message);
    hide Draining;
    hide DrainOut;
    hide DrainWait;
    hide DrainCurrent;
  }

  /** Destroying the context, at any point of any run: nothing holds the connect data any more, they have been
      freed once in all, the user's callback has run once in all, and the last free has nothing to do. A
      handshake still under way gets a negative number, unless its socket was still connecting: then it gets
      STATUS_CANCELLED, negated, which is positive. */
  lemma {:induction false} DestroyCompletes(c: Config, s: State, message: seq<seq<byte>>)
    requires Linear(s) && |s.keys.signing| == Preauth.KEY_SIZE
    ensures var t := Destroyed(c, s, message);
            Outstanding(t) == multiset{} && t.released == 1 && |t.answers| == 1 && !t.connectData &&
            t == CancelHook(DrainQueues(c, s.(open := false), message)) &&
            if s.released == 1 then t.answers == s.answers else Passing(t.answers[0]) <==> s.hook
  {
    var u := s.(open := false);
    assert Linear(u);
    QueuesDrain(c, u, message);
    var t := DrainQueues(c, u, message);
    CancelHookFinishes(t);
    hide DrainQueues;
  }

  lemma {:induction false} CancelHookFinishes(s: State)
    requires Linear(s) && s.out == [] && s.cur == None && s.wait == []
    ensures var t := CancelHook(s);
            Outstanding(t) == multiset{} && Linear(t) && t.released == 1 &&
            (s.hook ==> s.answers == [] && t.answers == [OfSocket(-CANCELLED)]) && (!s.hook ==> t.answers == s.answers)
  {
    assert Outstanding(s) == if s.hook then multiset{Connecting} else multiset{};
    assert Outstanding(CancelHook(s)) == multiset{};
  }

  lemma {:induction false} DestroyEmpties(c: Config, s: State, message: seq<seq<byte>>)
    requires Linear(s) && |s.keys.signing| == Preauth.KEY_SIZE
    ensures var t := Destroyed(c, s, message); !t.hook && t.out == [] && t.cur.None? && t.wait == []
  {
    var u := s.(open := false);
    assert Linear(u);
    QueuesDrain(c, u, message);
    hide DrainQueues;
  }

  /** A connection that is destroyed at any point of any run. */
  lemma {:induction false} RunThenDestroy(c: Config, sign: bool, seal: bool, events: seq<Event>, message: seq<seq<byte>>)
    requires Calm(c, sign, seal, events)
    ensures var t := Destroyed(c, After(c, sign, seal, events), message);
            Outstanding(t) == multiset{} && t.released == 1 && |t.answers| == 1 && !t.connectData
  {
    hide After;
    hide Linear;
    hide Sound;
    hide Destroyed;
    hide Entries;
    var s := After(c, sign, seal, events);
    AfterSound(c, sign, seal, events);
    SoundLinear(s);
    DestroyCompletes(c, s, message);
  }
}
