/** Commands and open files of a connection, and what becomes of them: every command is answered and freed
    once, every open file is freed once. */
module Teardown {
  import opened Bytes
  import opened Slist

  datatype File = File

  /** A command and the file that its callback uses. */
  datatype Pdu = Open(fh: Cell<File>) | Close(fh: Cell<File>) | Use(fh: Cell<File>) | Plain

  /** The queues, the command being received, the open files, and what has happened so far. */
  datatype State = State(
    out: seq<Cell<Pdu>>, cur: Option<Cell<Pdu>>, wait: seq<Cell<Pdu>>, handles: seq<Cell<File>>,
    called: seq<Cell<Pdu>>, freed: seq<Cell<Pdu>>, released: seq<Cell<File>>)

  /** The command being received, unless it is still queued, or has been freed and the pointer is stale. */
  ghost function Current(s: State): seq<Cell<Pdu>> {
    if s.cur.Some? && s.cur.value !in s.wait && s.cur.value !in s.freed then [s.cur.value] else []
  }

  ghost function Pending(s: State): multiset<Cell<Pdu>> {
    multiset(s.out) + multiset(Current(s)) + multiset(s.wait)
  }

  ghost function FileOf(p: Pdu): multiset<Cell<File>> {
    if p.Plain? then multiset{} else multiset{p.fh}
  }

  ghost function Files(s: seq<Cell<Pdu>>): multiset<Cell<File>> {
    if s == [] then multiset{} else FileOf(s[0].data) + Files(s[1..])
  }

  ghost function InUse(s: State): multiset<Cell<File>> {
    Files(s.out) + Files(Current(s)) + Files(s.wait)
  }

  ghost predicate Once<T>(m: multiset<T>) {
    forall x :: x in m ==> m[x] == 1
  }

  /** Of all commands ever queued, each is pending or has been called back and freed; of all files ever
      opened, each is open or has been freed; each pending command on a file uses a file that is open, and
      no other command uses it. */
  ghost predicate Conserved(s: State, pdus: multiset<Cell<Pdu>>, files: multiset<Cell<File>>) {
    multiset(s.called) + Pending(s) == pdus && multiset(s.freed) + Pending(s) == pdus &&
    multiset(s.released) + multiset(s.handles) == files &&
    InUse(s) <= multiset(s.handles)
  }

  /** open_cb frees the file when the open failed, close_cb in any case. */
  predicate Frees(p: Pdu, ok: bool) {
    p.Close? || (p.Open? && !ok)
  }

  ghost function CallBack(s: State, p: Cell<Pdu>, ok: bool): State {
    var t := s.(called := s.called + [p]);
    if Frees(p.data, ok) then t.(handles := Without(s.handles, p.data.fh), released := s.released + [p.data.fh]) else t
  }

  ghost function FreePdu(s: State, p: Cell<Pdu>): State {
    s.(out := Without(s.out, p), wait := Without(s.wait, p), freed := s.freed + [p])
  }

  ghost function Finish(s: State, p: Cell<Pdu>, ok: bool): State {
    FreePdu(CallBack(s, p, ok), p)
  }

  lemma {:induction false} FinishShorter(s: State, p: Cell<Pdu>, ok: bool)
    ensures |Finish(s, p, ok).out| <= |s.out| && |Finish(s, p, ok).wait| <= |s.wait|
  {
  }

  ghost function DrainOut(s: State): State
    decreases |s.out|
  {
    if s.out == [] then s else DrainOut(Finish(s.(out := s.out[1..]), s.out[0], false))
  }

  ghost function DrainCurrent(s: State): State {
    if s.cur.Some? then Finish(s, s.cur.value, false) else s
  }

  ghost function DrainWait(s: State): State
    decreases |s.wait|
  {
    if s.wait == [] then s
    else
      var p := s.wait[0];
      var t := s.(wait := s.wait[1..], cur := if s.cur == Some(p) then None else s.cur);
      DrainWait(Finish(t, p, false))
  }

  ghost function Destroyed(s: State): State {
    var t := DrainWait(DrainCurrent(DrainOut(s)));
    t.(handles := [], released := t.released + t.handles)
  }

  // ---- conservation --------------------------------------------------------------------------------------

  lemma {:induction false} FilesWithout(s: seq<Cell<Pdu>>, p: Cell<Pdu>)
    ensures p in s ==> Files(Without(s, p)) + FileOf(p.data) == Files(s)
    ensures p !in s ==> Without(s, p) == s
  {
    if s != [] {
      if s[0] != p {
        FilesWithout(s[1..], p);
        var r := Without(s, p);
        assert r[1..] == Without(s[1..], p);
      }
    }
  }

  lemma {:induction false} FilesAppend(s: seq<Cell<Pdu>>, p: Cell<Pdu>)
    ensures Files(s + [p]) == Files(s) + FileOf(p.data)
  {
    if s != [] {
      FilesAppend(s[1..], p);
      assert (s + [p])[1..] == s[1..] + [p];
    } else {
      assert [p][1..] == [];
    }
  }

  /** `p` is in no queue any more, but has not been called back yet. */
  ghost predicate Taken(s: State, p: Cell<Pdu>, pdus: multiset<Cell<Pdu>>, files: multiset<Cell<File>>) {
    p !in s.out && p !in s.wait && p !in s.freed &&
    multiset(s.called) + Rest(s, p) + multiset{p} == pdus && multiset(s.freed) + Rest(s, p) + multiset{p} == pdus &&
    multiset(s.released) + multiset(s.handles) == files &&
    RestInUse(s, p) + FileOf(p.data) <= multiset(s.handles)
  }

  lemma {:induction false} TakenApart(s: State, p: Cell<Pdu>, pdus: multiset<Cell<Pdu>>, files: multiset<Cell<File>>)
    requires Taken(s, p, pdus, files)
    ensures p !in s.out && p !in s.wait && p !in s.freed
  {
  }

  ghost function Others(s: State, p: Cell<Pdu>): seq<Cell<Pdu>> {
    if s.cur == Some(p) then [] else Current(s)
  }

  ghost function Rest(s: State, p: Cell<Pdu>): multiset<Cell<Pdu>> {
    multiset(s.out) + multiset(Others(s, p)) + multiset(s.wait)
  }

  ghost function RestInUse(s: State, p: Cell<Pdu>): multiset<Cell<File>> {
    Files(s.out) + Files(Others(s, p)) + Files(s.wait)
  }

  lemma {:induction false} BagPush<T>(s: seq<T>, x: T, rest: multiset<T>)
    ensures multiset(s + [x]) + rest == multiset(s) + rest + multiset{x}
  {
  }

  lemma {:induction false} BagLess<T>(use: multiset<T>, all: multiset<T>, rest: multiset<T>, x: T)
    requires use + multiset{x} <= all && rest + multiset{x} == all
    ensures use <= rest
  {
    assert use == (use + multiset{x}) - multiset{x};
    assert rest == all - multiset{x};
  }

  lemma {:induction false} BagTake<T>(s: seq<T>, x: T, t: seq<T>, use: multiset<T>)
    requires use + multiset{x} <= multiset(s)
    ensures multiset(t + [x]) + multiset(Without(s, x)) == multiset(t) + multiset(s)
    ensures use <= multiset(Without(s, x))
  {
    assert x in use + multiset{x};
    hide Without;
    WithoutIs(s, x);
    BagLess(use, multiset(s), multiset(Without(s, x)), x);
    BagPush(t, x, multiset(Without(s, x)));
  }

  lemma {:induction false} FinishQueues(s: State, p: Cell<Pdu>, ok: bool)
    requires p !in s.out && p !in s.wait && p !in s.freed
    ensures var t := Finish(s, p, ok);
            t.out == s.out && t.wait == s.wait && t.cur == s.cur && Current(t) == Others(s, p) &&
            t.called == s.called + [p] && t.freed == s.freed + [p]
  {
    WithoutIs(s.out, p);
    WithoutIs(s.wait, p);
  }

  /** Calling back and freeing it restores conservation. */
  lemma {:induction false} FinishConserves(s: State, p: Cell<Pdu>, ok: bool, pdus: multiset<Cell<Pdu>>, files: multiset<Cell<File>>)
    requires Taken(s, p, pdus, files)
    ensures Conserved(Finish(s, p, ok), pdus, files)
    ensures var t := Finish(s, p, ok); t.out == s.out && t.wait == s.wait && t.cur == s.cur && Current(t) == Others(s, p)
  {
    FinishQueues(s, p, ok);
    FinishFiles(s, p, ok);
    hide Files;
    hide Finish;
    hide Others;
    hide Current;
    hide FileOf;
    BagPush(s.called, p, Rest(s, p));
    BagPush(s.freed, p, Rest(s, p));
  }

  lemma {:induction false} FinishFiles(s: State, p: Cell<Pdu>, ok: bool)
    requires RestInUse(s, p) + FileOf(p.data) <= multiset(s.handles)
    ensures var t := Finish(s, p, ok);
            multiset(t.released) + multiset(t.handles) == multiset(s.released) + multiset(s.handles) &&
            RestInUse(s, p) <= multiset(t.handles)
  {
    hide RestInUse;
    if Frees(p.data, ok) {
      BagTake(s.handles, p.data.fh, s.released, RestInUse(s, p));
    }
  }

  lemma {:induction false} TakenFromOut(s: State, p: Cell<Pdu>, pdus: multiset<Cell<Pdu>>, files: multiset<Cell<File>>)
    requires Conserved(s, pdus, files) && Once(pdus) && p in s.out
    ensures Taken(s.(out := Without(s.out, p)), p, pdus, files)
  {
    hide Files;
    FilesWithout(s.out, p);
    WithoutIs(s.out, p);
    PendingOnce(s, p, pdus, files);
  }

  lemma {:induction false} TakenFromWait(s: State, p: Cell<Pdu>, pdus: multiset<Cell<Pdu>>, files: multiset<Cell<File>>)
    requires Conserved(s, pdus, files) && Once(pdus) && p in s.wait
    requires s.cur.Some? && s.cur.value in s.wait ==> s.cur.value == p
    ensures Taken(s.(wait := Without(s.wait, p)), p, pdus, files)
  {
    hide Files;
    FilesWithout(s.wait, p);
    WithoutIs(s.wait, p);
    PendingOnce(s, p, pdus, files);
  }

  lemma {:induction false} TakenFromCurrent(s: State, p: Cell<Pdu>, pdus: multiset<Cell<Pdu>>, files: multiset<Cell<File>>)
    requires Conserved(s, pdus, files) && Once(pdus) && Current(s) == [p]
    ensures Taken(s, p, pdus, files)
  {
    hide Files;
    FilesOne(p);
    PendingOnce(s, p, pdus, files);
  }

  lemma {:induction false} FilesOne(p: Cell<Pdu>)
    ensures Files([p]) == FileOf(p.data) && Files([]) == multiset{}
  {
    FilesAppend([], p);
  }

  /** A pending command is in one place only, and has neither been called back nor freed. */
  lemma {:induction false} PendingOnce(s: State, p: Cell<Pdu>, pdus: multiset<Cell<Pdu>>, files: multiset<Cell<File>>)
    requires Conserved(s, pdus, files) && Once(pdus) && p in Pending(s)
    ensures p !in s.freed && p !in s.called && pdus[p] == 1
    ensures multiset(s.out)[p] + multiset(Current(s))[p] + multiset(s.wait)[p] == 1
  {
    assert pdus[p] == multiset(s.freed)[p] + Pending(s)[p];
    assert pdus[p] == multiset(s.called)[p] + Pending(s)[p];
  }

  /** A new file, a command on a file that no other command uses, and a file freed that no command uses. */
  lemma {:induction false} OpenedConserves(s: State, fh: Cell<File>, pdus: multiset<Cell<Pdu>>, files: multiset<Cell<File>>)
    requires Conserved(s, pdus, files) && Once(files) && fh !in files
    ensures Conserved(s.(handles := [fh] + s.handles), pdus, files + multiset{fh}) && Once(files + multiset{fh})
    ensures fh !in s.handles && InUse(s.(handles := [fh] + s.handles)) + multiset{fh} <= multiset([fh] + s.handles)
  {
    hide Files;
    assert fh !in multiset(s.handles);
  }

  lemma {:induction false} QueuedConserves(s: State, p: Cell<Pdu>, pdus: multiset<Cell<Pdu>>, files: multiset<Cell<File>>)
    requires Conserved(s, pdus, files) && Once(pdus) && p !in pdus && InUse(s) + FileOf(p.data) <= multiset(s.handles)
    ensures Conserved(s.(out := s.out + [p]), pdus + multiset{p}, files) && Once(pdus + multiset{p})
    ensures p !in s.out && p !in s.wait && p !in s.freed
  {
    FilesAppend(s.out, p);
    hide Files;
    hide FileOf;
    var t := s.(out := s.out + [p]);
    assert p !in multiset(s.freed) && p !in Pending(s);
    assert Current(t) == Current(s);
    hide Current;
    BagPush(s.out, p, multiset(Current(s)) + multiset(s.wait));
    assert Pending(t) == Pending(s) + multiset{p};
    assert InUse(t) == InUse(s) + FileOf(p.data);
    hide Pending;
    hide InUse;
  }

  lemma {:induction false} ReleasedConserves(s: State, fh: Cell<File>, pdus: multiset<Cell<Pdu>>, files: multiset<Cell<File>>)
    requires Conserved(s, pdus, files) && InUse(s) + multiset{fh} <= multiset(s.handles)
    ensures Conserved(s.(handles := Without(s.handles, fh), released := s.released + [fh]), pdus, files)
  {
    BagTake(s.handles, fh, s.released, InUse(s));
  }

  /** A command is sent; its reply comes, in order or not; the reply is delivered. */
  lemma {:induction false} SentConserves(s: State, pdus: multiset<Cell<Pdu>>, files: multiset<Cell<File>>)
    requires Conserved(s, pdus, files) && Once(pdus) && s.out != [] && (s.cur.Some? ==> s.cur.value != s.out[0])
    ensures Conserved(s.(out := s.out[1..], wait := s.wait + [s.out[0]]), pdus, files)
    ensures s.out[0] !in s.out[1..] && s.out[0] !in s.wait
  {
    var p := s.out[0];
    PendingOnce(s, p, pdus, files);
    BagHead(s.out);
    SentPending(s);
    SentInUse(s);
    assert multiset(s.out)[p] == 1 + multiset(s.out[1..])[p];
    hide Pending;
    hide InUse;
  }

  lemma {:induction false} SentPending(s: State)
    requires s.out != [] && (s.cur.Some? ==> s.cur.value != s.out[0])
    ensures var t := s.(out := s.out[1..], wait := s.wait + [s.out[0]]);
            Current(t) == Current(s) && Pending(t) == Pending(s)
  {
    var p := s.out[0];
    var t := s.(out := s.out[1..], wait := s.wait + [p]);
    assert Current(t) == Current(s);
    hide Current;
    BagHead(s.out);
    BagPush(s.wait, p, multiset{});
  }

  lemma {:induction false} SentInUse(s: State)
    requires s.out != [] && (s.cur.Some? ==> s.cur.value != s.out[0])
    ensures InUse(s.(out := s.out[1..], wait := s.wait + [s.out[0]])) == InUse(s)
  {
    SentPending(s);
    hide Current;
    hide FileOf;
    FilesAppend(s.wait, s.out[0]);
  }

  lemma {:induction false} BagHead<T>(s: seq<T>)
    requires s != []
    ensures multiset(s) == multiset{s[0]} + multiset(s[1..])
  {
    assert s == [s[0]] + s[1..];
  }

  lemma {:induction false} ReceivedConserves(s: State, p: Cell<Pdu>, pdus: multiset<Cell<Pdu>>, files: multiset<Cell<File>>)
    requires Conserved(s, pdus, files) && Once(pdus) && p in s.wait && s.cur.None?
    ensures Conserved(s.(cur := Some(p)), pdus, files) && Conserved(s.(wait := Without(s.wait, p), cur := Some(p)), pdus, files)
    ensures p !in s.freed && p !in s.out && p !in Without(s.wait, p) && p in pdus
  {
    PendingOnce(s, p, pdus, files);
    FilesWithout(s.wait, p);
    FilesOne(p);
    WithoutIs(s.wait, p);
    hide Files;
    hide FileOf;
    var t, u := s.(cur := Some(p)), s.(wait := Without(s.wait, p), cur := Some(p));
    assert Current(s) == [] && Current(t) == [];
    assert multiset(u.wait)[p] + 1 == multiset(s.wait)[p];
    assert Current(u) == [p];
    hide Current;
    assert Pending(u) == Pending(s) && Pending(t) == Pending(s);
    assert InUse(u) == InUse(s) && InUse(t) == InUse(s);
    hide Pending;
    hide InUse;
  }

  lemma {:induction false} Forget(s: State, pdus: multiset<Cell<Pdu>>, files: multiset<Cell<File>>)
    requires Conserved(s, pdus, files) && Current(s) == []
    ensures Conserved(s.(cur := None), pdus, files)
  {
    var t := s.(cur := None);
    assert Current(t) == [];
    hide Files;
    hide Current;
    assert Pending(t) == Pending(s) && InUse(t) == InUse(s);
  }

  lemma {:induction false} DeliveredConserves(s: State, ok: bool, pdus: multiset<Cell<Pdu>>, files: multiset<Cell<File>>)
    requires Conserved(s, pdus, files) && Once(pdus) && s.cur.Some? && s.cur.value !in s.freed && s.cur.value !in s.wait
    ensures Conserved(Finish(s, s.cur.value, ok).(cur := None), pdus, files)
  {
    var p := s.cur.value;
    assert Current(s) == [p];
    hide Conserved;
    hide Finish;
    hide Taken;
    hide Files;
    TakenFromCurrent(s, p, pdus, files);
    FinishConserves(s, p, ok, pdus, files);
    Forget(Finish(s, p, ok), pdus, files);
  }

  // ---- timeouts ------------------------------------------------------------------------------------------

  /** The out queue is walked once; an expired command is taken out, called back and freed. */
  ghost function ExpireOut(s: State, todo: seq<Cell<Pdu>>, expired: set<Cell<Pdu>>): State
    decreases |todo|
  {
    if todo == [] then s
    else
      var p := todo[0];
      ExpireOut(if p in expired then Finish(s.(out := Without(s.out, p)), p, false) else s, todo[1..], expired)
  }

  ghost function ExpireWait(s: State, todo: seq<Cell<Pdu>>, expired: set<Cell<Pdu>>): State
    decreases |todo|
  {
    if todo == [] then s
    else
      var p := todo[0];
      ExpireWait(if p in expired then Finish(s.(wait := Without(s.wait, p)), p, false) else s, todo[1..], expired)
  }

  lemma {:induction false} ExpireStep(s: State, todo: seq<Cell<Pdu>>, expired: set<Cell<Pdu>>)
    requires todo != []
    ensures var p := todo[0];
            ExpireOut(s, todo, expired) ==
            ExpireOut(if p in expired then Finish(s.(out := Without(s.out, p)), p, false) else s, todo[1..], expired)
    ensures var p := todo[0];
            ExpireWait(s, todo, expired) ==
            ExpireWait(if p in expired then Finish(s.(wait := Without(s.wait, p)), p, false) else s, todo[1..], expired)
  {
    hide Finish;
    hide Without;
  }

  ghost predicate Within(todo: seq<Cell<Pdu>>, queue: seq<Cell<Pdu>>) {
    Distinct(todo) && forall p :: p in todo ==> p in queue
  }

  lemma {:induction false} WithinTail(todo: seq<Cell<Pdu>>, queue: seq<Cell<Pdu>>)
    requires Within(todo, queue) && todo != []
    ensures todo[0] in queue && Within(todo[1..], queue) && Within(todo[1..], Without(queue, todo[0]))
  {
    WithoutIs(queue, todo[0]);
    hide Without;
  }

  lemma {:induction false} ExpireOutConserves(s: State, todo: seq<Cell<Pdu>>, expired: set<Cell<Pdu>>, pdus: multiset<Cell<Pdu>>, files: multiset<Cell<File>>)
    requires Conserved(s, pdus, files) && Once(pdus) && Within(todo, s.out) && (s.cur.Some? ==> s.cur.value !in s.out + s.freed)
    ensures var t := ExpireOut(s, todo, expired);
            Conserved(t, pdus, files) && t.cur == s.cur && t.wait == s.wait && (t.cur.Some? ==> t.cur.value !in t.out + t.freed)
    decreases |todo|
  {
    if todo != [] {
      hide Conserved;
      hide Once;
      hide Taken;
      hide Within;
      hide Finish;
      hide Without;
      var p := todo[0];
      WithinTail(todo, s.out);
      if p in expired {
        TakenFromOut(s, p, pdus, files);
        var t := s.(out := Without(s.out, p));
        FinishConserves(t, p, false, pdus, files);
        TakenApart(t, p, pdus, files);
        FinishQueues(t, p, false);
        WithoutIs(s.out, p);
        ExpireOutConserves(Finish(t, p, false), todo[1..], expired, pdus, files);
      } else {
        ExpireOutConserves(s, todo[1..], expired, pdus, files);
      }
    }
  }

  lemma {:induction false} ExpireWaitConserves(s: State, todo: seq<Cell<Pdu>>, expired: set<Cell<Pdu>>, pdus: multiset<Cell<Pdu>>, files: multiset<Cell<File>>)
    requires Conserved(s, pdus, files) && Once(pdus) && Within(todo, s.wait)
    requires s.cur.Some? ==> s.cur.value !in s.wait && s.cur.value !in s.out + s.freed
    ensures var t := ExpireWait(s, todo, expired);
            Conserved(t, pdus, files) && t.cur == s.cur && t.out == s.out && (t.cur.Some? ==> t.cur.value !in t.out + t.freed)
    decreases |todo|
  {
    if todo != [] {
      hide Conserved;
      hide Once;
      hide Taken;
      hide Within;
      hide Finish;
      hide Without;
      var p := todo[0];
      WithinTail(todo, s.wait);
      if p in expired {
        TakenFromWait(s, p, pdus, files);
        var t := s.(wait := Without(s.wait, p));
        FinishConserves(t, p, false, pdus, files);
        TakenApart(t, p, pdus, files);
        FinishQueues(t, p, false);
        WithoutIs(s.wait, p);
        ExpireWaitConserves(Finish(t, p, false), todo[1..], expired, pdus, files);
      } else {
        ExpireWaitConserves(s, todo[1..], expired, pdus, files);
      }
    }
  }

  /** A command that is called back while it stays queued is called back once too often. */
  lemma {:induction false} InterimUnbalances(s: State, p: Cell<Pdu>, ok: bool, pdus: multiset<Cell<Pdu>>, files: multiset<Cell<File>>)
    requires Conserved(s, pdus, files)
    ensures !Conserved(CallBack(s, p, ok), pdus, files)
  {
    hide Files;
    hide Current;
    var t := CallBack(s, p, ok);
    assert Current(t) == Current(s) by {
      CurrentStays(s, t);
    }
    BagPush(s.called, p, Pending(s));
    TooMany(multiset(s.called) + Pending(s), p);
  }

  lemma {:induction false} CurrentStays(s: State, t: State)
    requires t.cur == s.cur && t.wait == s.wait && t.freed == s.freed
    ensures Current(t) == Current(s)
  {
  }

  lemma {:induction false} TooMany<T>(m: multiset<T>, x: T)
    ensures m + multiset{x} != m
  {
    assert |m + multiset{x}| == |m| + 1;
  }

  lemma {:induction false} NothingYet()
    ensures Conserved(State([], None, [], [], [], [], []), multiset{}, multiset{})
  {
  }

  // ---- destruction ---------------------------------------------------------------------------------------

  lemma {:induction false} HeadWithout<T>(s: seq<T>)
    requires s != []
    ensures s[1..] == Without(s, s[0])
  {
  }

  lemma {:induction false} OutStep(s: State, pdus: multiset<Cell<Pdu>>, files: multiset<Cell<File>>)
    requires Conserved(s, pdus, files) && Once(pdus) && s.out != []
    ensures var t := Finish(s.(out := s.out[1..]), s.out[0], false);
            Conserved(t, pdus, files) && t.out == s.out[1..] && t.cur == s.cur && t.wait == s.wait && Current(t) == Current(s)
  {
    var p := s.out[0];
    HeadWithout(s.out);
    TakenFromOut(s, p, pdus, files);
    PendingOnce(s, p, pdus, files);
    FinishConserves(s.(out := s.out[1..]), p, false, pdus, files);
    hide Conserved;
    hide Taken;
    hide Finish;
    hide Without;
  }

  lemma {:induction false} DrainOutConserves(s: State, pdus: multiset<Cell<Pdu>>, files: multiset<Cell<File>>)
    requires Conserved(s, pdus, files) && Once(pdus)
    ensures var t := DrainOut(s); Conserved(t, pdus, files) && t.out == [] && t.cur == s.cur && t.wait == s.wait
    ensures Current(s) == Current(DrainOut(s))
    decreases |s.out|
  {
    hide Conserved;
    hide Once;
    hide Finish;
    hide Current;
    if s.out != [] {
      OutStep(s, pdus, files);
      DrainOutConserves(Finish(s.(out := s.out[1..]), s.out[0], false), pdus, files);
    }
  }

  /** A stale pointer is in no queue. */
  lemma {:induction false} WaitStep(s: State, pdus: multiset<Cell<Pdu>>, files: multiset<Cell<File>>)
    requires Conserved(s, pdus, files) && Once(pdus) && s.wait != [] && Stale(s)
    ensures var t := Finish(s.(wait := s.wait[1..]), s.wait[0], false);
            s.cur != Some(s.wait[0]) && Conserved(t, pdus, files) && t.wait == s.wait[1..] && t.out == s.out &&
            t.cur == s.cur && Stale(t)
  {
    var p := s.wait[0];
    HeadWithout(s.wait);
    PendingOnce(s, p, pdus, files);
    if s.cur.Some? && s.cur.value in s.wait {
      PendingOnce(s, s.cur.value, pdus, files);
    }
    TakenFromWait(s, p, pdus, files);
    FinishConserves(s.(wait := s.wait[1..]), p, false, pdus, files);
    FinishQueues(s.(wait := s.wait[1..]), p, false);
    hide Conserved;
    hide Taken;
    hide Finish;
    hide Without;
  }

  ghost predicate Stale(s: State) {
    s.cur.Some? ==> s.cur.value in s.freed
  }

  /** After the first two drains the pointer to the command being received is stale or null. */
  lemma {:induction false} DrainWaitConserves(s: State, pdus: multiset<Cell<Pdu>>, files: multiset<Cell<File>>)
    requires Conserved(s, pdus, files) && Once(pdus) && s.out == [] && Stale(s)
    ensures var t := DrainWait(s); Conserved(t, pdus, files) && t.out == [] && t.wait == [] && Stale(t)
    decreases |s.wait|
  {
    hide Conserved;
    hide Once;
    hide Finish;
    hide Stale;
    if s.wait != [] {
      WaitStep(s, pdus, files);
      DrainWaitConserves(Finish(s.(wait := s.wait[1..]), s.wait[0], false), pdus, files);
    }
  }

  /** The command being received may still be queued, when its reply has come out of order. */
  lemma {:induction false} DrainCurrentConserves(s: State, pdus: multiset<Cell<Pdu>>, files: multiset<Cell<File>>)
    requires Conserved(s, pdus, files) && Once(pdus) && s.out == [] && (s.cur.Some? ==> s.cur.value !in s.freed)
    ensures var t := DrainCurrent(s);
            Conserved(t, pdus, files) && t.out == [] && t.cur == s.cur && Stale(t)
  {
    if s.cur.Some? {
      hide Conserved;
      hide Taken;
      var p := s.cur.value;
      if p in s.wait {
        TakenFromWait(s, p, pdus, files);
        var t := s.(wait := Without(s.wait, p));
        FinishConserves(t, p, false, pdus, files);
        TakenApart(t, p, pdus, files);
        WithoutIs(t.wait, p);
        assert Finish(s, p, false) == Finish(t, p, false);
      } else {
        TakenFromCurrent(s, p, pdus, files);
        FinishConserves(s, p, false, pdus, files);
      }
    }
  }

  /** Destroying the connection calls back and frees every pending command once, and frees every file that
      is still open; with what happened before, every command ever queued has been called back once and
      freed once, and every file ever opened has been freed once. */
  lemma {:induction false} DestroyedConserves(s: State, pdus: multiset<Cell<Pdu>>, files: multiset<Cell<File>>)
    requires Conserved(s, pdus, files) && Once(pdus) && (s.cur.Some? ==> s.cur.value !in s.freed + s.out)
    ensures var t := Destroyed(s);
            t.out == [] && t.wait == [] && t.handles == [] &&
            multiset(t.called) == pdus && multiset(t.freed) == pdus && multiset(t.released) == files
  {
    hide DrainOut;
    hide DrainCurrent;
    hide DrainWait;
    hide Conserved;
    hide Stale;
    var a := DrainOut(s);
    DrainOutConserves(s, pdus, files);
    assert a.cur.Some? ==> a.cur.value !in a.freed by {
      DrainOutFrees(s);
    }
    var b := DrainCurrent(a);
    DrainCurrentConserves(a, pdus, files);
    var c := DrainWait(b);
    DrainWaitConserves(b, pdus, files);
    NothingPending(c, pdus, files);
  }

  lemma {:induction false} NothingPending(s: State, pdus: multiset<Cell<Pdu>>, files: multiset<Cell<File>>)
    requires Conserved(s, pdus, files) && s.out == [] && s.wait == [] && Stale(s)
    ensures multiset(s.called) == pdus && multiset(s.freed) == pdus && multiset(s.released + s.handles) == files
  {
    assert Pending(s) == multiset{};
    assert multiset(s.released + s.handles) == multiset(s.released) + multiset(s.handles);
  }

  /** The first drain frees what was in the out queue and nothing else. */
  lemma {:induction false} DrainOutFrees(s: State)
    ensures forall p :: p in DrainOut(s).freed ==> p in s.freed + s.out
    decreases |s.out|
  {
    if s.out != [] {
      var p := s.out[0];
      var t := Finish(s.(out := s.out[1..]), p, false);
      WithoutIs(s.out[1..], p);
      DrainOutFrees(t);
      assert t.freed == s.freed + [p];
      forall q | q in DrainOut(s).freed ensures q in s.freed + s.out {
        assert q in t.freed + t.out;
      }
    }
  }
}
