/** The client's handshake as a state machine: what each reply does to the connection, who holds the connect
    data, and what holds over every run. MS-SMB2 sections 3.2.4.1, 3.2.5.2, 3.2.5.3 and 3.2.5.5. */
module Handshake {
  import opened Octet
  import opened Bytes
  import Preauth
  import Sha512

  const SUCCESS: nat := 0
  const MORE_PROCESSING_REQUIRED: nat := 0xC0000016
  const END_OF_FILE: nat := 0xC0000011
  const SHUTDOWN: nat := 0xFFFFFFFF
  /** As the int that the callback gets. */
  const CANCELLED: int := 0xC0000120 - 0x1_0000_0000
  const IO_TIMEOUT: nat := 0xC00000B5
  const PENDING: nat := 0x103
  const STOPPED_ON_SYMLINK: nat := 0x8000002D

  const V0202: nat := 0x0202
  const V0210: nat := 0x0210
  const V0300: nat := 0x0300
  const V0302: nat := 0x0302
  const V0311: nat := 0x0311

  datatype Errno = Invalid | NoMemory | AccessDenied | NotSupported | Unspecified

  /** The number the user's callback gets: zero, an errno, or one computed from a status. */
  datatype Answer = Fine | Failed(errno: Errno) | OfStatus(status: nat) | OfSocket(code: int)

  /** The number is not negative, which callers take for success. Two statuses have the errno zero
      (errors.c:1070-1072); a socket's code comes negated, and may be negative itself. */
  predicate Passing(a: Answer) {
    match a
    case Fine => true
    case Failed(_) => false
    case OfStatus(status) => status == SUCCESS || status == END_OF_FILE
    case OfSocket(code) => code >= 0
  }

  /** The callbacks of the handshake's commands; each gets the connect data. */
  datatype Callback = NegotiateCb | SessionSetupCb | TreeConnectCb

  /** A queued command: one of the handshake with its callback, or another. */
  datatype Command = Handing(cb: Callback) | Other

  /** What the handshake waits for. */
  datatype Step = Connecting | Negotiating | SettingUp | TreeConnecting | Completed

  datatype Config = Config(signingRequired: bool, passthrough: bool)

  datatype NegotiateReply = NegotiateReply(dialect: nat, encryption: bool, signingEnabled: bool, signingRequired: bool)

  datatype SetupReply = SetupReply(guest: bool, nullUser: bool, encrypt: bool, hasToken: bool)

  datatype TreeReply = TreeReply(dfs: bool, dfsRoot: bool, dfsCapable: bool, encrypt: bool)

  /** What became of the next SESSION_SETUP request. */
  datatype Request = NoBlob | NoPdu | Sent(pieces: seq<seq<byte>>)

  datatype Signature = Unsigned | Incomputable | Wrong | Right

  /** The command that the header of a reply names. */
  datatype Named = AsNegotiate | AsSessionSetup | AsOther

  /** All that may be learnt from outside: the reply, how it came, read as any of the three, and what became
      of what its callback asks for. */
  datatype Reply = Reply(
    status: nat, message: seq<seq<byte>>, sealed: bool, named: Named, signature: Signature,
    negotiated: NegotiateReply, setUp: SetupReply, tree: TreeReply,
    auth: bool, next: Request, key: Option<seq<byte>>, treeRequest: bool)

  /** A command that ends locally has a status only. */
  function Local(status: nat, message: seq<seq<byte>>): Reply {
    Reply(status, message, false, AsOther, Unsigned, NegotiateReply(0, false, false, false),
          SetupReply(false, false, false, false), TreeReply(false, false, false, false), false, NoBlob, None, false)
  }

  /** What can happen to a context: its socket is connected or fails, another command is queued, the first
      command is written out, an interim reply to a waiting command comes, the header of its reply comes, the
      rest of that reply comes, reading or writing fails, a queued or a waiting command times out. */
  datatype Event =
    | Connected(code: int, request: Option<seq<seq<byte>>>, usable: bool)
    | Queued
    | Written
    | Broke
    | Interim(k: nat, sealed: bool, named: Named, message: seq<seq<byte>>)
    | Received(k: nat)
    | Delivered(reply: Reply)
    | ExpiredOut(k: nat, message: seq<seq<byte>>)
    | ExpiredWait(k: nat, message: seq<seq<byte>>)

  datatype Keys = Keys(signing: seq<byte>, serverIn: seq<byte>, serverOut: seq<byte>)

  /** `hook` says that connect_cb is set, `connectData` that the context points to connect data, `released`
      counts the runs of free_c_data, and `broken` says that smb2_service has failed: the context can only be
      destroyed then. `session` and `tree` are the replies that were accepted. */
  datatype State = State(
    hook: bool, out: seq<Command>, cur: Option<Command>, wait: seq<Command>,
    connectData: bool, answers: seq<Answer>, released: nat,
    broken: bool, open: bool, sign: bool, seal: bool, dialect: nat,
    hash: seq<byte>, sessionKey: Option<seq<byte>>, keys: Keys, wire: seq<seq<byte>>,
    offer: Option<NegotiateReply>, session: Option<Reply>, tree: Option<Reply>)

  function Awaited(cb: Callback): Step {
    match cb
    case NegotiateCb => Negotiating
    case SessionSetupCb => SettingUp
    case TreeConnectCb => TreeConnecting
  }

  ghost function Holder(p: Command): multiset<Step> {
    if p.Handing? then multiset{Awaited(p.cb)} else multiset{}
  }

  ghost function Holders(queue: seq<Command>): multiset<Step> {
    if queue == [] then multiset{} else Holder(queue[0]) + Holders(queue[1..])
  }

  ghost function Entries(hook: bool, out: seq<Command>, cur: Option<Command>, wait: seq<Command>): multiset<Step> {
    (if hook then multiset{Connecting} else multiset{}) + Holders(out) +
    (if cur.Some? then Holder(cur.value) else multiset{}) + Holders(wait)
  }

  /** What is still going to get the connect data: the connect callback, and every command of the handshake
      wherever it is queued. */
  ghost function Outstanding(s: State): multiset<Step> {
    Entries(s.hook, s.out, s.cur, s.wait)
  }

  ghost function StepOf(holders: multiset<Step>): Step {
    if holders == multiset{} then Completed else var step :| step in holders; step
  }

  ghost function StepAt(s: State): Step {
    StepOf(Outstanding(s))
  }

  function NoKey(): (k: seq<byte>)
    ensures |k| == Preauth.KEY_SIZE
  {
    Zeros(Preauth.KEY_SIZE)
  }

  function Closed(s: State): State {
    s.(open := false, sessionKey := None, keys := s.keys.(signing := NoKey()))
  }

  /** The user's callback runs. */
  function Answered(s: State, a: Answer): State {
    s.(answers := s.answers + [a])
  }

  function FreeConnectData(s: State): State {
    s.(connectData := false, released := s.released + 1)
  }

  function Finish(s: State, a: Answer): State {
    FreeConnectData(Answered(s, a))
  }

  function Refuse(s: State, a: Answer): State {
    Finish(Closed(s), a)
  }

  /** A message goes out or comes in, and is hashed. */
  function Hashed(s: State, pieces: seq<seq<byte>>): State {
    var m := Preauth.Flatten(pieces);
    s.(hash := Sha512.Digest(s.hash + m), wire := s.wire + [m])
  }

  /** A message comes in and is not hashed. */
  function Heard(s: State, pieces: seq<seq<byte>>): State {
    s.(wire := s.wire + [Preauth.Flatten(pieces)])
  }

  /** A command whose callback gets the connect data is queued. */
  function Enqueued(s: State, cb: Callback): State {
    s.(out := s.out + [Handing(cb)])
  }

  function Requested(s: State, next: Request): State {
    match next
    case NoBlob => Refuse(s, Failed(Unspecified))
    case NoPdu => Refuse(s, Failed(NoMemory))
    case Sent(pieces) => Enqueued(Hashed(s, pieces), SessionSetupCb)
  }

  function OnSocket(s: State, code: int, request: Option<seq<seq<byte>>>): State {
    if code != 0 then Finish(s, OfSocket(-code))
    else
      var t := s.(hash := Zeros(Preauth.HASH_SIZE));
      if request.None? then Finish(t, Failed(NoMemory)) else Enqueued(Hashed(t, request.value), NegotiateCb)
  }

  /** The server's answer does not allow what was asked for. */
  predicate Unprotected(s: State, reply: NegotiateReply) {
    Lacking(s.sign, s.seal, reply)
  }

  predicate Lacking(sign: bool, seal: bool, reply: NegotiateReply) {
    (seal && reply.dialect in {V0300, V0302} && !reply.encryption) || (sign && !reply.signingEnabled)
  }

  function OnNegotiate(s: State, r: Reply): State {
    var t := Hashed(s, r.message);
    var u := t.(dialect := r.negotiated.dialect, offer := Some(r.negotiated));
    var v := u.(sign := !s.seal && (s.sign || r.negotiated.signingRequired));
    if r.status != SUCCESS then Refuse(t, OfStatus(r.status))
    else if Unprotected(s, r.negotiated) then Refuse(u, Failed(NoMemory))
    else if !r.auth then Refuse(v, Failed(NoMemory))
    else Requested(v, r.next)
  }

  /** The session key can be had and is not all zeros. */
  predicate ValidKey(key: Option<seq<byte>>) {
    key.Some? && key.value != NoKey()
  }

  /** The key material: a missing session key counts as no octets. */
  function Material(key: Option<seq<byte>>): seq<byte> {
    if key.Some? then key.value else []
  }

  function OverHead(prior: seq<byte>, key: seq<byte>): (r: seq<byte>)
    requires |prior| == Preauth.KEY_SIZE
    ensures |r| == Preauth.KEY_SIZE
  {
    if |key| >= Preauth.KEY_SIZE then key[..Preauth.KEY_SIZE] else key + prior[|key|..]
  }

  /** The keys by dialect. */
  function DialectKeys(prior: Keys, dialect: nat, key: seq<byte>, hash: seq<byte>): Keys
    requires |prior.signing| == Preauth.KEY_SIZE
  {
    if dialect == V0202 || dialect == V0210 then
      prior.(signing := OverHead(prior.signing, key))
    else if dialect <= V0302 then
      Keys(Preauth.Kdf(key, Preauth.Text("SMB2AESCMAC"), Preauth.Text("SmbSign")),
           Preauth.Kdf(key, Preauth.Text("SMB2AESCCM"), Preauth.Text("ServerIn ")),
           Preauth.Kdf(key, Preauth.Text("SMB2AESCCM"), Preauth.Text("ServerOut")))
    else
      Keys(Preauth.Kdf(key, Preauth.Text("SMBSigningKey"), hash),
           Preauth.Kdf(key, Preauth.Text("SMBC2SCipherKey"), hash),
           Preauth.Kdf(key, Preauth.Text("SMBS2CCipherKey"), hash))
  }

  predicate Protected(s: State) {
    s.sign || s.seal
  }

  /** Sealing takes the place of signing. */
  function Encrypting(s: State, encrypt: bool): State {
    s.(seal := s.seal || encrypt, sign := s.sign && !encrypt)
  }

  function OnSetup(c: Config, s: State, r: Reply): State
    requires |s.keys.signing| == Preauth.KEY_SIZE
  {
    var t := Heard(s, r.message);
    if r.status == MORE_PROCESSING_REQUIRED && r.setUp.hasToken then Requested(Hashed(s, r.message), r.next)
    else if r.status != SUCCESS then Refuse(t, OfStatus(r.status))
    else if c.signingRequired && (r.setUp.guest || r.setUp.nullUser) then Refuse(t, Failed(AccessDenied))
    else Keyed(c, Encrypting(t, r.setUp.encrypt), r)
  }

  /** Key derivation, and the request for the tree. */
  function Keyed(c: Config, s: State, r: Reply): State
    requires |s.keys.signing| == Preauth.KEY_SIZE
  {
    if Protected(s) || s.dialect == V0311 then
      var t := if r.key.Some? then s.(sessionKey := r.key) else s;
      if s.sign && !ValidKey(r.key) then Refuse(t, Failed(AccessDenied))
      else
        var u := t.(keys := DialectKeys(s.keys, s.dialect, Material(t.sessionKey), s.hash));
        if r.signature.Incomputable? || r.signature.Wrong? then Finish(u, Failed(Invalid))
        else TreeRequested(c, u, r)
    else TreeRequested(c, s, r)
  }

  function TreeRequested(c: Config, s: State, r: Reply): State {
    var t := s.(session := Some(r));
    if c.passthrough then Finish(t, Fine)
    else if !r.treeRequest then Refuse(t, Failed(NoMemory))
    else Enqueued(t, TreeConnectCb)
  }

  function TreeConnected(s: State, r: Reply): State {
    if r.status != SUCCESS then Refuse(s, OfStatus(r.status))
    else if r.tree.dfs || r.tree.dfsRoot || r.tree.dfsCapable then Refuse(s, Failed(NotSupported))
    else if r.tree.encrypt && (s.dialect < V0300 || s.sessionKey.None?) then Refuse(s, Failed(AccessDenied))
    else Finish(Encrypting(s, r.tree.encrypt).(tree := Some(r)), Fine)
  }

  /** The statuses whose reply has the body of an error. */
  predicate ErrorStatus(status: nat) {
    (status >= 0xC0000000 && status != MORE_PROCESSING_REQUIRED) || status == STOPPED_ON_SYMLINK
  }

  /** Reading the body of a tree reply turns sealing on, before anything else looks at the reply. */
  function TreeParsed(s: State, r: Reply): State {
    s.(seal := s.seal || (r.tree.encrypt && !ErrorStatus(r.status)))
  }

  /** The body is read, and then the callback runs. */
  function OnTree(s: State, r: Reply): State {
    TreeConnected(TreeParsed(s, r), r)
  }

  function Parsed(s: State, p: Command, r: Reply): State {
    if p == Handing(TreeConnectCb) then TreeParsed(s, r) else s
  }

  /** The policy for what is received. Sealing asks for sealed replies, signing for signed ones, and a
      signature must be right; replies that name NEGOTIATE or SESSION_SETUP are exempt. */
  predicate Admits(s: State, r: Reply) {
    Admitted(s.sign, s.seal, r)
  }

  predicate Admitted(sign: bool, seal: bool, r: Reply) {
    (r.sealed || !r.named.AsOther? || (!seal && (sign ==> !r.signature.Unsigned?))) &&
    (sign && !r.signature.Unsigned? && !r.named.AsSessionSetup? ==> r.signature.Right?)
  }

  function Removed<T>(queue: seq<T>, k: nat): seq<T>
    requires k < |queue|
  {
    queue[..k] + queue[k + 1..]
  }

  /** What an event makes run, and the state it runs in: no callback, connect_cb, or that of a command of the
      handshake. A callback has been taken out of its place when it runs. */
  datatype Call =
    | Quiet(state: State)
    | Socket(state: State, code: int, request: Option<seq<seq<byte>>>)
    | Handed(state: State, cb: Callback, reply: Reply)

  function Handle(s: State, p: Command, r: Reply): (call: Call)
    ensures call.state == s
  {
    match p
    case Handing(cb) => Handed(s, cb, r)
    case Other => Quiet(s)
  }

  /** The rest of the reply to `p` has come. A reply that the policy does not admit breaks the context; the
      command stays where it is. */
  function Arrive(s: State, p: Command, r: Reply): (call: Call)
    ensures call.state.keys == s.keys
  {
    if Admits(Parsed(s, p, r), r) then Handle(s.(cur := None), p, r) else Quiet(Parsed(s, p, r).(broken := true))
  }

  /** The socket's event goes to connect_cb if that is set; a reply goes to the callback of the command whose
      header came last. An interim reply is dropped, except in passthrough mode: then it goes to the callback
      of a command that stays where it is. A broken context reads and writes nothing any more. */
  function Dispatch(c: Config, s: State, e: Event): (call: Call)
    ensures call.state.keys == s.keys
  {
    match e
    case Connected(code, request, usable) =>
      var up := code == 0 && usable;
      if s.hook && !s.broken then Socket(s.(hook := false, open := up, broken := !up), code, request) else Quiet(s)
    case Queued => Quiet(s.(out := s.out + [Other]))
    case Written => Quiet(if s.broken || s.out == [] then s else s.(out := s.out[1..], wait := s.wait + [s.out[0]]))
    case Broke => Quiet(s.(broken := true))
    case Interim(k, sealed, named, message) =>
      if s.broken then Quiet(s)
      else if s.seal && !sealed && named.AsOther? then Quiet(s.(broken := true))
      else if c.passthrough && k < |s.wait| then Handle(s, s.wait[k], Local(PENDING, message))
      else Quiet(s)
    case Received(k) =>
      Quiet(if !s.broken && s.cur.None? && k < |s.wait| then s.(cur := Some(s.wait[k]), wait := Removed(s.wait, k)) else s)
    case Delivered(r) => if s.broken || s.cur.None? || r.status == PENDING then Quiet(s) else Arrive(s, s.cur.value, r)
    case ExpiredOut(k, message) =>
      if k < |s.out| then Handle(s.(out := Removed(s.out, k)), s.out[k], Local(IO_TIMEOUT, message)) else Quiet(s)
    case ExpiredWait(k, message) =>
      if k < |s.wait| then Handle(s.(wait := Removed(s.wait, k)), s.wait[k], Local(IO_TIMEOUT, message)) else Quiet(s)
  }

  function CallBack(c: Config, s: State, cb: Callback, r: Reply): State
    requires |s.keys.signing| == Preauth.KEY_SIZE
  {
    match cb
    case NegotiateCb => OnNegotiate(s, r)
    case SessionSetupCb => OnSetup(c, s, r)
    case TreeConnectCb => OnTree(s, r)
  }

  function Perform(c: Config, call: Call): State
    requires |call.state.keys.signing| == Preauth.KEY_SIZE
  {
    match call
    case Quiet(s) => s
    case Socket(s, code, request) => OnSocket(s, code, request)
    case Handed(s, cb, r) => CallBack(c, s, cb, r)
  }

  function Deliver(c: Config, s: State, e: Event): State
    requires |s.keys.signing| == Preauth.KEY_SIZE
  {
    Perform(c, Dispatch(c, s, e))
  }

  /** The context once smb2_connect_share_async has returned zero. */
  function Start(sign: bool, seal: bool): State {
    State(true, [], None, [], true, [], 0, false, false, sign, seal, 0,
          Zeros(Preauth.HASH_SIZE), None, Keys(NoKey(), NoKey(), NoKey()), [], None, None, None)
  }

  predicate Keyable(s: State) {
    |s.keys.signing| == Preauth.KEY_SIZE
  }

  ghost function Run(c: Config, s: State, events: seq<Event>): (t: State)
    requires Keyable(s)
    ensures Keyable(t)
  {
    if events == [] then s
    else
      var t := Run(c, s, events[..|events| - 1]);
      DeliverKeyable(c, t, events[|events| - 1]);
      Deliver(c, t, events[|events| - 1])
  }

  lemma {:induction false} FinishKeyable(s: State, a: Answer)
    ensures Keyable(Refuse(s, a)) && (Keyable(s) ==> Keyable(Finish(s, a)))
  {
  }

  lemma {:induction false} RequestedKeyable(s: State, next: Request)
    requires Keyable(s)
    ensures Keyable(Requested(s, next))
  {
    hide Sha512.Digest;
    hide Refuse;
    FinishKeyable(s, Failed(Unspecified));
    FinishKeyable(s, Failed(NoMemory));
  }

  lemma {:induction false} TreeRequestedKeyable(c: Config, s: State, r: Reply)
    requires Keyable(s)
    ensures Keyable(TreeRequested(c, s, r))
  {
    hide Refuse;
    hide Finish;
    var t := s.(session := Some(r));
    FinishKeyable(t, Fine);
    FinishKeyable(t, Failed(NoMemory));
  }

  lemma {:induction false} DialectSizes(prior: Keys, dialect: nat, key: seq<byte>, hash: seq<byte>)
    requires |prior.signing| == Preauth.KEY_SIZE
    ensures |DialectKeys(prior, dialect, key, hash).signing| == Preauth.KEY_SIZE
  {
    hide Preauth.Kdf;
  }

  lemma {:induction false} KeyedKeyable(c: Config, s: State, r: Reply)
    requires Keyable(s)
    ensures Keyable(Keyed(c, s, r))
  {
    hide DialectKeys;
    hide ValidKey;
    hide Refuse;
    hide Finish;
    hide TreeRequested;
    var t := if r.key.Some? then s.(sessionKey := r.key) else s;
    DialectSizes(s.keys, s.dialect, Material(t.sessionKey), s.hash);
    var u := t.(keys := DialectKeys(s.keys, s.dialect, Material(t.sessionKey), s.hash));
    FinishKeyable(t, Failed(AccessDenied));
    FinishKeyable(u, Failed(Invalid));
    TreeRequestedKeyable(c, u, r);
    TreeRequestedKeyable(c, s, r);
  }

  lemma {:induction false} NegotiateKeyable(s: State, r: Reply)
    requires Keyable(s)
    ensures Keyable(OnNegotiate(s, r))
  {
    hide Sha512.Digest;
    hide Refuse;
    hide Requested;
    var t := Hashed(s, r.message);
    var u := t.(dialect := r.negotiated.dialect, offer := Some(r.negotiated));
    var v := u.(sign := !s.seal && (s.sign || r.negotiated.signingRequired));
    FinishKeyable(t, OfStatus(r.status));
    FinishKeyable(u, Failed(NoMemory));
    FinishKeyable(v, Failed(NoMemory));
    RequestedKeyable(v, r.next);
  }

  lemma {:induction false} SetupKeyable(c: Config, s: State, r: Reply)
    requires Keyable(s)
    ensures Keyable(OnSetup(c, s, r))
  {
    hide Sha512.Digest;
    hide Refuse;
    hide Requested;
    hide Keyed;
    var t := Heard(s, r.message);
    FinishKeyable(t, OfStatus(r.status));
    FinishKeyable(t, Failed(AccessDenied));
    RequestedKeyable(Hashed(s, r.message), r.next);
    KeyedKeyable(c, Encrypting(t, r.setUp.encrypt), r);
  }

  lemma {:induction false} TreeKeyable(s: State, r: Reply)
    requires Keyable(s)
    ensures Keyable(OnTree(s, r))
  {
    hide Refuse;
    hide Finish;
    hide ErrorStatus;
    var t := TreeParsed(s, r);
    FinishKeyable(t, OfStatus(r.status));
    FinishKeyable(t, Failed(NotSupported));
    FinishKeyable(t, Failed(AccessDenied));
    FinishKeyable(Encrypting(t, r.tree.encrypt).(tree := Some(r)), Fine);
  }

  lemma {:induction false} SocketKeyable(s: State, code: int, request: Option<seq<seq<byte>>>)
    requires Keyable(s)
    ensures Keyable(OnSocket(s, code, request))
  {
    hide Sha512.Digest;
  }

  lemma {:induction false} DeliverKeyable(c: Config, s: State, e: Event)
    requires Keyable(s)
    ensures Keyable(Deliver(c, s, e))
  {
    hide Sha512.Digest;
    hide OnNegotiate;
    hide OnSetup;
    hide OnTree;
    hide OnSocket;
    hide Dispatch;
    match Dispatch(c, s, e)
    case Socket(t, code, request) => SocketKeyable(t, code, request);
    case Handed(t, NegotiateCb, r) => NegotiateKeyable(t, r);
    case Handed(t, SessionSetupCb, r) => SetupKeyable(c, t, r);
    case Handed(t, TreeConnectCb, r) => TreeKeyable(t, r);
    case _ =>
  }

  /** An interim reply that runs a callback of the handshake, whose command stays queued. */
  predicate Interrupts(c: Config, s: State, e: Event) {
    c.passthrough && e.Interim? && !s.broken && (s.seal ==> e.sealed || !e.named.AsOther?) &&
    e.k < |s.wait| && s.wait[e.k].Handing?
  }

  // ---- who holds the connect data ----------------------------------------------------------------------

  lemma {:induction false} HoldersPush(queue: seq<Command>, p: Command)
    ensures Holders(queue + [p]) == Holders(queue) + Holder(p)
  {
    hide Holder;
    if queue == [] {
      assert [p][1..] == [];
    } else {
      HoldersPush(queue[1..], p);
      assert (queue + [p])[1..] == queue[1..] + [p];
    }
  }

  lemma {:induction false} HoldersRemoved(queue: seq<Command>, k: nat)
    requires k < |queue|
    ensures Holders(queue) == Holders(Removed(queue, k)) + Holder(queue[k])
  {
    hide Holder;
    if k == 0 {
      assert Removed(queue, 0) == queue[1..];
    } else {
      var rest := queue[1..];
      assert Removed(queue, k)[1..] == Removed(rest, k - 1);
      HoldersRemoved(rest, k - 1);
    }
  }

  lemma {:induction false} StepIs(step: Step)
    ensures StepOf(multiset{step}) == step && StepOf(multiset{}) == Completed
  {
  }

  /** A callback runs: its command is in no queue any more, and it has the connect data. */
  ghost predicate Running(s: State) {
    Outstanding(s) == multiset{} && s.released == 0 && s.answers == [] && s.connectData
  }

  /** Of connect data and user's callback: each is still to be freed or called, by one holder, or has been
      freed or called once; only the former is pointed to. */
  ghost predicate Linear(s: State) {
    |Outstanding(s)| + s.released == 1 && |Outstanding(s)| + |s.answers| == 1 && (s.connectData <==> s.released == 0)
  }

  /** A callback that queues a command hands the connect data on. */
  lemma {:induction false} EnqueuedLinear(s: State, cb: Callback)
    requires Running(s)
    ensures Linear(Enqueued(s, cb)) && StepAt(Enqueued(s, cb)) == Awaited(cb)
  {
    HoldersPush(s.out, Handing(cb));
    hide Holders;
    StepIs(Awaited(cb));
    assert Outstanding(Enqueued(s, cb)) == Outstanding(s) + multiset{Awaited(cb)};
  }

  lemma {:induction false} FinishLinear(s: State, a: Answer)
    requires Running(s)
    ensures Linear(Finish(s, a)) && StepAt(Finish(s, a)) == Completed
  {
    hide Entries;
    StepIs(Completed);
  }

  lemma {:induction false} SocketNext(s: State, code: int, request: Option<seq<seq<byte>>>)
    requires Running(s)
    ensures var t := OnSocket(s, code, request);
            Linear(t) && StepAt(t) == if t.released == 1 then Completed else Negotiating
  {
    hide Entries;
    hide StepOf;
    hide Sha512.Digest;
    var u := s.(hash := Zeros(Preauth.HASH_SIZE));
    FinishLinear(s, OfSocket(-code));
    FinishLinear(u, Failed(NoMemory));
    if request.Some? {
      EnqueuedLinear(Hashed(u, request.value), NegotiateCb);
    }
  }

  lemma {:induction false} RefuseNext(s: State, a: Answer)
    requires Running(s)
    ensures Linear(Refuse(s, a)) && StepAt(Refuse(s, a)) == Completed && Refuse(s, a).released == 1
  {
    hide Entries;
    hide StepOf;
    FinishLinear(Closed(s), a);
  }

  lemma {:induction false} RequestedNext(s: State, next: Request)
    requires Running(s)
    ensures var t := Requested(s, next);
            Linear(t) && StepAt(t) == if t.released == 1 then Completed else SettingUp
  {
    hide Entries;
    hide StepOf;
    hide Sha512.Digest;
    hide Refuse;
    RefuseNext(s, Failed(Unspecified));
    RefuseNext(s, Failed(NoMemory));
    if next.Sent? {
      EnqueuedLinear(Hashed(s, next.pieces), SessionSetupCb);
    }
  }

  lemma {:induction false} TreeRequestedNext(c: Config, s: State, r: Reply)
    requires Running(s)
    ensures var t := TreeRequested(c, s, r);
            Linear(t) && StepAt(t) == if t.released == 1 then Completed else TreeConnecting
  {
    hide Entries;
    hide StepOf;
    hide Refuse;
    var u := s.(session := Some(r));
    FinishLinear(u, Fine);
    RefuseNext(u, Failed(NoMemory));
    EnqueuedLinear(u, TreeConnectCb);
  }

  lemma {:induction false} KeyedNext(c: Config, s: State, r: Reply)
    requires Running(s) && |s.keys.signing| == Preauth.KEY_SIZE
    ensures var t := Keyed(c, s, r);
            Linear(t) && StepAt(t) == if t.released == 1 then Completed else TreeConnecting
  {
    hide Entries;
    hide StepOf;
    hide Refuse;
    hide TreeRequested;
    hide DialectKeys;
    hide ValidKey;
    var t := if r.key.Some? then s.(sessionKey := r.key) else s;
    var u := t.(keys := DialectKeys(s.keys, s.dialect, Material(t.sessionKey), s.hash));
    RefuseNext(t, Failed(AccessDenied));
    FinishLinear(u, Failed(Invalid));
    TreeRequestedNext(c, u, r);
    TreeRequestedNext(c, s, r);
  }

  lemma {:induction false} SetupNext(c: Config, s: State, r: Reply)
    requires Running(s) && |s.keys.signing| == Preauth.KEY_SIZE
    ensures var t := OnSetup(c, s, r);
            Linear(t) && StepAt(t) == if t.released == 1 then Completed else if r.status == SUCCESS then TreeConnecting else SettingUp
  {
    hide Entries;
    hide StepOf;
    hide Sha512.Digest;
    hide Refuse;
    hide Requested;
    hide Keyed;
    var t := Heard(s, r.message);
    RequestedNext(Hashed(s, r.message), r.next);
    RefuseNext(t, OfStatus(r.status));
    RefuseNext(t, Failed(AccessDenied));
    KeyedNext(c, Encrypting(t, r.setUp.encrypt), r);
  }

  /** The statuses with which a callback goes on; no local end has one. */
  predicate GoesOn(status: nat) {
    status == SUCCESS || status == MORE_PROCESSING_REQUIRED
  }

  /** What an event changes besides the state in which a callback runs: the queues, and what the socket and
      the policy have to say. */
  predicate Frame(s: State, call: Call) {
    match call
    case Quiet(t) =>
      t == s.(out := t.out, cur := t.cur, wait := t.wait, broken := t.broken, seal := t.seal) && (s.seal ==> t.seal) &&
      (s.broken ==> t.broken) && (t.seal && !s.seal ==> t.broken && s.cur == Some(Handing(TreeConnectCb)))
    case Socket(t, code, _) =>
      t == s.(hook := t.hook, open := t.open, broken := t.broken) && t.open != t.broken && (code != 0 ==> !t.open)
    case Handed(t, cb, r) =>
      t == s.(out := t.out, cur := t.cur, wait := t.wait) &&
      (GoesOn(r.status) ==> !t.broken && Admits(Parsed(t, Handing(cb), r), r))
  }

  lemma {:induction false} HandleFrame(s: State, t: State, p: Command, r: Reply)
    requires t == s.(out := t.out, cur := t.cur, wait := t.wait)
    requires GoesOn(r.status) ==> !t.broken && Admits(Parsed(t, p, r), r)
    ensures Frame(s, Handle(t, p, r))
  {
    hide Admits;
    hide Parsed;
  }

  lemma {:induction false} ArriveFrame(s: State, p: Command, r: Reply)
    requires s.cur == Some(p) && !s.broken
    ensures Frame(s, Arrive(s, p, r))
  {
    hide ErrorStatus;
    hide Frame;
    if Admits(Parsed(s, p, r), r) {
      var t := s.(cur := None);
      AdmitsSame(s, t, p, r);
      HandleFrame(s, t, p, r);
    } else {
      RefusedFrame(s, p, r);
    }
  }

  lemma {:induction false} RefusedFrame(s: State, p: Command, r: Reply)
    requires s.cur == Some(p)
    ensures Frame(s, Quiet(Parsed(s, p, r).(broken := true)))
  {
    hide ErrorStatus;
  }

  lemma {:induction false} AdmitsSame(s: State, t: State, p: Command, r: Reply)
    requires t.seal == s.seal && t.sign == s.sign
    ensures Admits(Parsed(s, p, r), r) == Admits(Parsed(t, p, r), r)
  {
    hide ErrorStatus;
    hide Admitted;
  }

  lemma {:induction false} SocketSession(s: State, t: State, code: int, request: Option<seq<seq<byte>>>)
    requires Frame(s, Socket(t, code, request))
    ensures s.session == t.session
  {
  }

  lemma {:induction false} MovesFrame(c: Config, s: State, e: Event)
    requires e.Connected? || e.Queued? || e.Written? || e.Received? || e.Broke?
    ensures Frame(s, Dispatch(c, s, e))
  {
    hide Removed;
  }

  lemma {:induction false} QuietFrame(s: State)
    ensures Frame(s, Quiet(s)) && Frame(s, Quiet(s.(broken := true)))
  {
  }

  lemma {:induction false} DispatchFrame(c: Config, s: State, e: Event)
    ensures Frame(s, Dispatch(c, s, e))
  {
    hide Handle;
    hide Arrive;
    hide Removed;
    hide Admits;
    hide Parsed;
    hide Frame;
    QuietFrame(s);
    match e
    case Interim(k, _, _, message) =>
      if k < |s.wait| {
        HandleFrame(s, s, s.wait[k], Local(PENDING, message));
      }
    case Delivered(r) =>
      if s.cur.Some? && !s.broken {
        ArriveFrame(s, s.cur.value, r);
      }
    case ExpiredOut(k, message) =>
      if k < |s.out| {
        HandleFrame(s, s.(out := Removed(s.out, k)), s.out[k], Local(IO_TIMEOUT, message));
      }
    case ExpiredWait(k, message) =>
      if k < |s.wait| {
        HandleFrame(s, s.(wait := Removed(s.wait, k)), s.wait[k], Local(IO_TIMEOUT, message));
      }
    case _ => MovesFrame(c, s, e);
  }

  /** What runs has been taken out of where it was outstanding. */
  ghost predicate TakenFrom(s: State, call: Call) {
    match call
    case Quiet(t) => Outstanding(s) == Outstanding(t)
    case Socket(t, _, _) => Outstanding(s) == Outstanding(t) + multiset{Connecting}
    case Handed(t, cb, _) => Outstanding(s) == Outstanding(t) + multiset{Awaited(cb)}
  }

  lemma {:induction false} HandleTakes(s: State, t: State, p: Command, r: Reply)
    requires Outstanding(s) == Outstanding(t) + Holder(p)
    ensures TakenFrom(s, Handle(t, p, r))
  {
    hide Entries;
  }

  lemma {:induction false} WrittenTakes(s: State)
    requires s.out != []
    ensures Entries(s.hook, s.out[1..], s.cur, s.wait + [s.out[0]]) == Outstanding(s)
  {
    hide Holder;
    HoldersPush(s.wait, s.out[0]);
  }

  lemma {:induction false} ReceivedTakes(s: State, k: nat)
    requires s.cur.None? && k < |s.wait|
    ensures Entries(s.hook, s.out, Some(s.wait[k]), Removed(s.wait, k)) == Outstanding(s)
  {
    HoldersRemoved(s.wait, k);
    hide Holder;
    hide Holders;
    hide Removed;
  }

  lemma {:induction false} QueuedTakes(s: State)
    ensures Entries(s.hook, s.out + [Other], s.cur, s.wait) == Outstanding(s)
  {
    HoldersPush(s.out, Other);
    hide Holders;
  }

  lemma {:induction false} OutTakes(s: State, k: nat)
    requires k < |s.out|
    ensures Outstanding(s) == Entries(s.hook, Removed(s.out, k), s.cur, s.wait) + Holder(s.out[k])
  {
    HoldersRemoved(s.out, k);
    hide Holder;
    hide Holders;
    hide Removed;
  }

  lemma {:induction false} WaitTakes(s: State, k: nat)
    requires k < |s.wait|
    ensures Outstanding(s) == Entries(s.hook, s.out, s.cur, Removed(s.wait, k)) + Holder(s.wait[k])
  {
    HoldersRemoved(s.wait, k);
    hide Holder;
    hide Holders;
    hide Removed;
  }

  lemma {:induction false} CurrentTakes(s: State)
    requires s.cur.Some?
    ensures Outstanding(s) == Entries(s.hook, s.out, None, s.wait) + Holder(s.cur.value)
  {
    hide Holder;
    hide Holders;
  }

  lemma {:induction false} HookTakes(s: State)
    requires s.hook
    ensures Outstanding(s) == Entries(false, s.out, s.cur, s.wait) + multiset{Connecting}
  {
    hide Holder;
    hide Holders;
  }

  lemma {:induction false} MovesTake(c: Config, s: State, e: Event)
    requires e.Connected? || e.Queued? || e.Written? || e.Received? || e.Broke?
    ensures TakenFrom(s, Dispatch(c, s, e))
  {
    hide Removed;
    hide Entries;
    QueuedTakes(s);
    if s.hook {
      HookTakes(s);
    }
    if s.out != [] {
      WrittenTakes(s);
    }
    if s.cur.None? && e.Received? && e.k < |s.wait| {
      ReceivedTakes(s, e.k);
    }
  }

  lemma {:induction false} DispatchTakes(c: Config, s: State, e: Event)
    requires !Interrupts(c, s, e)
    ensures TakenFrom(s, Dispatch(c, s, e))
  {
    hide Handle;
    hide Arrive;
    hide Removed;
    hide Holder;
    hide Entries;
    hide TakenFrom;
    match e
    case Interim(k, _, _, message) =>
      QuietTakes(s, s);
      QuietTakes(s, s.(broken := true));
      if k < |s.wait| && s.wait[k].Other? {
        OtherIsQuiet(s, s.wait[k], Local(PENDING, message));
      }
    case Delivered(r) =>
      QuietTakes(s, s);
      if s.cur.Some? {
        ArriveTakes(s, s.cur.value, r);
      }
    case ExpiredOut(k, message) =>
      if k < |s.out| {
        OutTakes(s, k);
        HandleTakes(s, s.(out := Removed(s.out, k)), s.out[k], Local(IO_TIMEOUT, message));
      } else {
        QuietTakes(s, s);
      }
    case ExpiredWait(k, message) =>
      if k < |s.wait| {
        WaitTakes(s, k);
        HandleTakes(s, s.(wait := Removed(s.wait, k)), s.wait[k], Local(IO_TIMEOUT, message));
      } else {
        QuietTakes(s, s);
      }
    case _ => MovesTake(c, s, e);
  }

  lemma {:induction false} OtherIsQuiet(s: State, p: Command, r: Reply)
    requires p.Other?
    ensures Handle(s, p, r) == Quiet(s)
  {
  }

  lemma {:induction false} QuietTakes(s: State, t: State)
    requires t.hook == s.hook && t.out == s.out && t.cur == s.cur && t.wait == s.wait
    ensures TakenFrom(s, Quiet(t))
  {
  }

  lemma {:induction false} ArriveTakes(s: State, p: Command, r: Reply)
    requires s.cur == Some(p)
    ensures TakenFrom(s, Arrive(s, p, r))
  {
    hide Admits;
    hide ErrorStatus;
    hide TakenFrom;
    hide Handle;
    hide Entries;
    CurrentTakes(s);
    HandleTakes(s, s.(cur := None), p, r);
    QuietTakes(s, Parsed(s, p, r).(broken := true));
  }

  // ---- what every step keeps ---------------------------------------------------------------------------

  predicate Sizes(s: State) {
    |s.hash| == Preauth.HASH_SIZE && |s.keys.signing| == Preauth.KEY_SIZE
  }

  /** While the handshake is under way the hash covers every message so far, sent or received. */
  predicate Covered(s: State, at: Step) {
    (at.Connecting? ==> s.wire == []) &&
    (at.Negotiating? || at.SettingUp? ==> s.hash == Preauth.Transcript(s.wire))
  }

  /** Once the server has accepted the session the hash covers everything but its last message. */
  predicate Settled(s: State) {
    s.session.Some? ==> |s.wire| > 0 && s.hash == Preauth.Transcript(s.wire[..|s.wire| - 1])
  }

  predicate Ordered(s: State, at: Step) {
    (at in {Connecting, Negotiating, SettingUp} ==> s.session.None? && s.tree.None? && s.sessionKey.None?) &&
    (at in {Connecting, Negotiating} ==> s.offer.None?) && (at in {SettingUp, TreeConnecting} ==> s.offer.Some?) &&
    (at == TreeConnecting ==> s.session.Some? && s.tree.None?) &&
    (at in {Negotiating, SettingUp, TreeConnecting} ==> s.open || s.broken)
  }

  ghost predicate Sound(s: State) {
    Sizes(s) && Linear(s) && Covered(s, StepAt(s)) && Settled(s) && Ordered(s, StepAt(s))
  }

  /** A callback runs in a state that was sound while it was still outstanding. */
  ghost predicate Ready(s: State, at: Step) {
    at != Completed && Sizes(s) && Running(s) && Covered(s, at) && Settled(s) && Ordered(s, at)
  }

  lemma {:induction false} SoundLinear(s: State)
    requires Sound(s)
    ensures Linear(s) && |s.keys.signing| == Preauth.KEY_SIZE
  {
    hide Preauth.Transcript;
    hide Entries;
  }

  lemma {:induction false} StartSound(sign: bool, seal: bool)
    ensures Sound(Start(sign, seal)) && StepAt(Start(sign, seal)) == Connecting
  {
    StepIs(Connecting);
    assert Outstanding(Start(sign, seal)) == multiset{Connecting};
  }

  lemma {:induction false} OnlyOne(m: multiset<Step>, rest: multiset<Step>, step: Step)
    requires m == rest + multiset{step} && |m| <= 1
    ensures |m| == 1 && rest == multiset{} && m == multiset{step} && StepOf(m) == step
  {
    assert |m| == |rest| + 1;
    StepIs(step);
  }

  /** The callback that runs was what the handshake waited for. */
  ghost predicate Apt(s: State, call: Call) {
    match call
    case Quiet(t) => Sound(t) && StepAt(t) == StepAt(s)
    case Socket(t, _, _) => StepAt(s) == Connecting && Ready(t, Connecting) && (t.open || t.broken)
    case Handed(t, cb, r) => StepAt(s) == Awaited(cb) && Ready(t, Awaited(cb)) && (GoesOn(r.status) ==> t.open)
  }

  lemma {:induction false} DispatchApt(c: Config, s: State, e: Event)
    requires Sound(s) && !Interrupts(c, s, e)
    ensures Apt(s, Dispatch(c, s, e)) && TakenFrom(s, Dispatch(c, s, e)) && Frame(s, Dispatch(c, s, e))
  {
    hide Preauth.Transcript;
    hide Entries;
    hide StepOf;
    hide Dispatch;
    hide Admits;
    hide Parsed;
    DispatchTakes(c, s, e);
    DispatchFrame(c, s, e);
    match Dispatch(c, s, e)
    case Quiet(t) =>
    case Socket(t, _, _) => OnlyOne(Outstanding(s), Outstanding(t), Connecting);
    case Handed(t, cb, _) => OnlyOne(Outstanding(s), Outstanding(t), Awaited(cb));
  }

  lemma {:induction false} HashedCovered(s: State, pieces: seq<seq<byte>>)
    requires s.hash == Preauth.Transcript(s.wire)
    ensures Hashed(s, pieces).hash == Preauth.Transcript(Hashed(s, pieces).wire)
    ensures |Hashed(s, pieces).hash| == Preauth.HASH_SIZE
  {
    hide Preauth.Transcript;
    hide Sha512.Digest;
    Preauth.TranscriptPush(s.wire, Preauth.Flatten(pieces));
  }

  lemma {:induction false} RequestedSound(s: State, next: Request)
    requires Sizes(s) && Running(s) && s.hash == Preauth.Transcript(s.wire) && Ordered(s, SettingUp)
    ensures Sound(Requested(s, next))
  {
    hide Preauth.Transcript;
    hide Sha512.Digest;
    hide StepAt;
    hide Outstanding;
    RequestedNext(s, next);
    if next.Sent? {
      HashedCovered(s, next.pieces);
    }
  }

  lemma {:induction false} NoMessages()
    ensures Preauth.Transcript([]) == Zeros(Preauth.HASH_SIZE)
  {
  }

  lemma {:induction false} SocketSound(s: State, code: int, request: Option<seq<seq<byte>>>)
    requires Ready(s, Connecting) && (s.open || s.broken)
    ensures Sound(OnSocket(s, code, request))
  {
    hide Sha512.Digest;
    hide Preauth.Transcript;
    hide StepAt;
    hide Outstanding;
    hide Linear;
    hide Finish;
    SocketNext(s, code, request);
    FinishSound(s, OfSocket(-code));
    var t := s.(hash := Zeros(Preauth.HASH_SIZE));
    FreshHash(s);
    FinishSound(t, Failed(NoMemory));
    if request.Some? {
      NoMessages();
      HashedCovered(t, request.value);
    }
  }

  lemma {:induction false} FreshHash(s: State)
    requires Running(s)
    ensures Running(s.(hash := Zeros(Preauth.HASH_SIZE)))
  {
    hide Entries;
  }

  lemma {:induction false} NegotiateSound(s: State, r: Reply)
    requires Ready(s, Negotiating)
    ensures Sound(OnNegotiate(s, r))
  {
    hide Preauth.Transcript;
    hide Sha512.Digest;
    hide StepAt;
    hide Entries;
    hide Linear;
    hide Refuse;
    hide Requested;
    hide Sound;
    HashedCovered(s, r.message);
    var t := Hashed(s, r.message);
    var u := t.(dialect := r.negotiated.dialect, offer := Some(r.negotiated));
    var v := u.(sign := !s.seal && (s.sign || r.negotiated.signingRequired));
    FinishSound(t, OfStatus(r.status));
    FinishSound(u, Failed(NoMemory));
    FinishSound(v, Failed(NoMemory));
    RequestedSound(v, r.next);
  }

  /** The server has just accepted the session. */
  ghost predicate Accepted(s: State) {
    Sizes(s) && Running(s) && (s.open || s.broken) && s.offer.Some? &&
    |s.wire| > 0 && s.hash == Preauth.Transcript(s.wire[..|s.wire| - 1]) && s.session.None? && s.tree.None?
  }

  lemma {:induction false} FinishSound(s: State, a: Answer)
    requires Running(s) && Sizes(s) && Settled(s)
    ensures Sound(Finish(s, a)) && Sound(Refuse(s, a))
  {
    hide Preauth.Transcript;
    hide StepAt;
    hide Outstanding;
    FinishLinear(s, a);
    RefuseNext(s, a);
  }

  lemma {:induction false} TreeRequestedSound(c: Config, s: State, r: Reply)
    requires Accepted(s)
    ensures Sound(TreeRequested(c, s, r))
  {
    hide Preauth.Transcript;
    hide StepAt;
    hide Outstanding;
    TreeRequestedNext(c, s, r);
  }

  lemma {:induction false} KeyedSound(c: Config, s: State, r: Reply)
    requires Accepted(s)
    ensures Sound(Keyed(c, s, r))
  {
    hide Preauth.Transcript;
    hide DialectKeys;
    hide Entries;
    hide ValidKey;
    hide Refuse;
    hide Finish;
    hide TreeRequested;
    hide Sound;
    var t := if r.key.Some? then s.(sessionKey := r.key) else s;
    DialectSizes(s.keys, s.dialect, Material(t.sessionKey), s.hash);
    var u := t.(keys := DialectKeys(s.keys, s.dialect, Material(t.sessionKey), s.hash));
    FinishSound(t, Failed(AccessDenied));
    FinishSound(u, Failed(Invalid));
    TreeRequestedSound(c, u, r);
    TreeRequestedSound(c, s, r);
  }

  lemma {:induction false} SetupSound(c: Config, s: State, r: Reply)
    requires Ready(s, SettingUp)
    ensures Sound(OnSetup(c, s, r))
  {
    hide Preauth.Transcript;
    hide Sha512.Digest;
    hide Keyed;
    hide Requested;
    hide StepAt;
    hide Entries;
    hide Linear;
    SetupNext(c, s, r);
    HashedCovered(s, r.message);
    RequestedSound(Hashed(s, r.message), r.next);
    var t := Heard(s, r.message);
    assert t.wire[..|t.wire| - 1] == s.wire;
    KeyedSound(c, Encrypting(t, r.setUp.encrypt), r);
  }

  lemma {:induction false} ParsedRuns(s: State, r: Reply)
    requires Running(s)
    ensures Running(TreeParsed(s, r))
  {
    hide Entries;
  }

  lemma {:induction false} TreeSound(s: State, r: Reply)
    requires Ready(s, TreeConnecting)
    ensures Sound(OnTree(s, r))
  {
    hide Preauth.Transcript;
    hide Entries;
    hide Refuse;
    hide Finish;
    hide Sound;
    hide ErrorStatus;
    ParsedRuns(s, r);
    var t := TreeParsed(s, r);
    FinishSound(t, OfStatus(r.status));
    FinishSound(t, Failed(NotSupported));
    FinishSound(t, Failed(AccessDenied));
    FinishSound(Encrypting(t, r.tree.encrypt).(tree := Some(r)), Fine);
  }

  lemma {:induction false} DeliverSound(c: Config, s: State, e: Event)
    requires Sound(s) && !Interrupts(c, s, e)
    ensures Sound(Deliver(c, s, e))
  {
    DispatchApt(c, s, e);
    hide Sound;
    hide Dispatch;
    hide Ready;
    hide StepAt;
    hide TakenFrom;
    hide Frame;
    hide OnSocket;
    hide OnNegotiate;
    hide OnSetup;
    hide OnTree;
    match Dispatch(c, s, e)
    case Quiet(_) =>
    case Socket(t, code, request) => SocketSound(t, code, request);
    case Handed(t, NegotiateCb, r) => NegotiateSound(t, r);
    case Handed(t, SessionSetupCb, r) => SetupSound(c, t, r);
    case Handed(t, TreeConnectCb, r) => TreeSound(t, r);
  }

  /** A tree reply is being received while the handshake waits for it, and not later. */
  lemma {:induction false} TreeAwaited(s: State)
    requires Sound(s) && s.cur == Some(Handing(TreeConnectCb))
    ensures s.session.Some? && s.tree.None? && s.offer.Some? && s.released == 0
  {
    CurrentTakes(s);
    hide Preauth.Transcript;
    hide Entries;
    OnlyOne(Outstanding(s), Entries(s.hook, s.out, None, s.wait), TreeConnecting);
  }

  lemma {:induction false} ReadyFacts(s: State, at: Step)
    requires Ready(s, at)
    ensures Sizes(s) && s.released == 0 && s.tree.None? && (at == TreeConnecting <==> s.session.Some?)
    ensures (at in {Connecting, Negotiating} <==> s.offer.None?) && (at != TreeConnecting ==> s.sessionKey.None?)
  {
    hide Outstanding;
    hide Preauth.Transcript;
  }

  /** What neither closing nor finishing nor a request changes. */
  predicate Kept(s: State, t: State) {
    t.sign == s.sign && t.seal == s.seal && t.dialect == s.dialect && t.offer == s.offer && t.tree == s.tree
  }

  lemma {:induction false} FinishKeeps(s: State, a: Answer)
    ensures Kept(s, Finish(s, a)) && Finish(s, a).wire == s.wire && Finish(s, a).session == s.session
    ensures Kept(s, Refuse(s, a)) && Refuse(s, a).wire == s.wire && Refuse(s, a).session == s.session
  {
  }

  lemma {:induction false} TreeRequestedKeeps(c: Config, s: State, r: Reply)
    ensures var t := TreeRequested(c, s, r); Kept(s, t) && t.wire == s.wire && t.session == Some(r)
  {
    hide Finish;
    hide Refuse;
    hide Kept;
    var u := s.(session := Some(r));
    FinishKeeps(u, Fine);
    FinishKeeps(u, Failed(NoMemory));
    SameKept(s, u);
    SameKept(s, Enqueued(u, TreeConnectCb));
    KeptOn(s, u, Finish(u, Fine));
    KeptOn(s, u, Refuse(u, Failed(NoMemory)));
  }

  lemma {:induction false} SameKept(s: State, t: State)
    requires t.sign == s.sign && t.seal == s.seal && t.dialect == s.dialect && t.offer == s.offer && t.tree == s.tree
    ensures Kept(s, t)
  {
  }

  lemma {:induction false} KeptOn(s: State, t: State, u: State)
    ensures Kept(s, t) && Kept(t, u) ==> Kept(s, u)
  {
  }

  lemma {:induction false} KeyedKeeps(c: Config, s: State, r: Reply)
    requires |s.keys.signing| == Preauth.KEY_SIZE
    ensures Kept(s, Keyed(c, s, r)) && Keyed(c, s, r).wire == s.wire
  {
    hide DialectKeys;
    hide ValidKey;
    hide Finish;
    hide Refuse;
    hide TreeRequested;
    hide Kept;
    var t := if r.key.Some? then s.(sessionKey := r.key) else s;
    var u := t.(keys := DialectKeys(s.keys, s.dialect, Material(t.sessionKey), s.hash));
    SameKept(s, t);
    SameKept(s, u);
    FinishKeeps(t, Failed(AccessDenied));
    KeptOn(s, t, Refuse(t, Failed(AccessDenied)));
    FinishKeeps(u, Failed(Invalid));
    KeptOn(s, u, Finish(u, Failed(Invalid)));
    TreeRequestedKeeps(c, u, r);
    KeptOn(s, u, TreeRequested(c, u, r));
    TreeRequestedKeeps(c, s, r);
  }

  lemma {:induction false} RequestedKeeps(s: State, next: Request)
    ensures Kept(s, Requested(s, next)) && Requested(s, next).session == s.session
  {
    hide Sha512.Digest;
    hide Refuse;
    FinishKeeps(s, Failed(Unspecified));
    FinishKeeps(s, Failed(NoMemory));
  }

  /** What a callback has done before it looks at the status. */
  function Noted(s: State, cb: Callback, message: seq<seq<byte>>): State {
    match cb
    case NegotiateCb => Hashed(s, message)
    case SessionSetupCb => Heard(s, message)
    case TreeConnectCb => s
  }

  /** A command that fails refuses the handshake, whichever it is. */
  lemma {:induction false} FailedIs(c: Config, s: State, cb: Callback, r: Reply)
    requires |s.keys.signing| == Preauth.KEY_SIZE && !GoesOn(r.status) && !r.tree.encrypt
    ensures CallBack(c, s, cb, r) == Refuse(Noted(s, cb, r.message), OfStatus(r.status))
  {
    hide Sha512.Digest;
    hide Refuse;
    hide Keyed;
    hide Requested;
    hide Unprotected;
    hide ErrorStatus;
    assert TreeParsed(s, r) == s;
  }

  lemma {:induction false} LocalIs(c: Config, s: State, cb: Callback, status: nat, message: seq<seq<byte>>)
    requires |s.keys.signing| == Preauth.KEY_SIZE && !GoesOn(status)
    ensures CallBack(c, s, cb, Local(status, message)) == Refuse(Noted(s, cb, message), OfStatus(status))
  {
    FailedIs(c, s, cb, Local(status, message));
  }

  /** What is known of an event besides. */
  ghost predicate Ripe(s: State, call: Call) {
    Frame(s, call) && Keyable(call.state) &&
    match call
    case Quiet(_) => s.cur == Some(Handing(TreeConnectCb)) ==> s.released == 0 && s.session.Some? && s.tree.None?
    case Socket(t, _, _) => t.session.None? && s.session.None?
    case Handed(t, cb, r) =>
      Ready(t, Awaited(cb)) && t.released == 0 && t.tree.None? && (cb.TreeConnectCb? <==> t.session.Some?) &&
      (cb.NegotiateCb? <==> t.offer.None?) && (!cb.TreeConnectCb? ==> t.sessionKey.None?) && (GoesOn(r.status) ==> t.open)
  }

  lemma {:induction false} DispatchRipe(c: Config, s: State, e: Event)
    requires Sound(s) && !Interrupts(c, s, e)
    ensures Ripe(s, Dispatch(c, s, e))
  {
    hide Dispatch;
    hide Ready;
    hide Sound;
    hide Frame;
    hide StepAt;
    hide Outstanding;
    DispatchApt(c, s, e);
    SoundLinear(s);
    if s.cur == Some(Handing(TreeConnectCb)) {
      TreeAwaited(s);
    }
    match Dispatch(c, s, e)
    case Quiet(_) =>
    case Socket(t, code, request) =>
      ReadyFacts(t, Connecting);
      SocketSession(s, t, code, request);
    case Handed(t, cb, _) => ReadyFacts(t, Awaited(cb));
  }

  // ---- runs --------------------------------------------------------------------------------------------

  /** The state after the events of a run. */
  ghost function After(c: Config, sign: bool, seal: bool, events: seq<Event>): (t: State)
    ensures Keyable(t)
  {
    Run(c, Start(sign, seal), events)
  }

  lemma {:induction false} AfterStep(c: Config, sign: bool, seal: bool, events: seq<Event>)
    ensures events == [] ==> After(c, sign, seal, events) == Start(sign, seal)
    ensures events != [] ==>
              After(c, sign, seal, events) == Deliver(c, After(c, sign, seal, events[..|events| - 1]), events[|events| - 1])
  {
    hide Deliver;
    hide Start;
  }

  /** No interim reply runs a callback of the handshake. */
  ghost predicate Calm(c: Config, sign: bool, seal: bool, events: seq<Event>) {
    events == [] ||
    (Calm(c, sign, seal, events[..|events| - 1]) &&
     !Interrupts(c, After(c, sign, seal, events[..|events| - 1]), events[|events| - 1]))
  }

  lemma {:induction false} CalmOtherwise(c: Config, sign: bool, seal: bool, events: seq<Event>)
    requires !c.passthrough
    ensures Calm(c, sign, seal, events)
  {
    if events != [] {
      CalmOtherwise(c, sign, seal, events[..|events| - 1]);
    }
  }

  lemma {:induction false} AfterSound(c: Config, sign: bool, seal: bool, events: seq<Event>)
    requires Calm(c, sign, seal, events)
    ensures Sound(After(c, sign, seal, events))
  {
    hide Sound;
    hide Deliver;
    hide After;
    hide Interrupts;
    AfterStep(c, sign, seal, events);
    if events == [] {
      StartSound(sign, seal);
    } else {
      AfterSound(c, sign, seal, events[..|events| - 1]);
      DeliverSound(c, After(c, sign, seal, events[..|events| - 1]), events[|events| - 1]);
    }
  }

  /** In every calm run, whatever else the user queues, in whatever order replies and timeouts come: exactly
      one of the connect callback, the queued commands and the command being received holds the connect data,
      or they have been freed, once; and the user's callback has run in the second case only, once. */
  lemma {:induction false} HeldOnce(c: Config, sign: bool, seal: bool, events: seq<Event>)
    requires Calm(c, sign, seal, events)
    ensures var t := After(c, sign, seal, events);
            |Outstanding(t)| + t.released == 1 && t.released == |t.answers| && (t.connectData <==> t.released == 0)
  {
    hide After;
    hide Entries;
    hide Preauth.Transcript;
    AfterSound(c, sign, seal, events);
  }

  /** An interim reply that runs a callback of the handshake frees the connect data that its command holds. */
  lemma {:induction false} InterruptedBreaks(c: Config, s: State, e: Event)
    requires Sound(s) && Interrupts(c, s, e)
    ensures var t := Deliver(c, s, e); |Outstanding(t)| == t.released == 1 && !Linear(t)
  {
    HoldersRemoved(s.wait, e.k);
    WaitTakes(s, e.k);
    hide CallBack;
    hide Entries;
    hide Preauth.Transcript;
    hide Sha512.Digest;
    var p := s.wait[e.k];
    OnlyOne(Outstanding(s), Entries(s.hook, s.out, s.cur, Removed(s.wait, e.k)), Awaited(p.cb));
    LocalIs(c, s, p.cb, PENDING, e.message);
  }

  /** Exactly the calm runs keep the connect data with one holder all along. */
  lemma {:induction false} LinearIffCalm(c: Config, sign: bool, seal: bool, events: seq<Event>)
    ensures LinearThroughout(c, sign, seal, events) <==> Calm(c, sign, seal, events)
  {
    hide After;
    hide Deliver;
    hide Interrupts;
    AfterStep(c, sign, seal, events);
    if events == [] {
      StartSound(sign, seal);
      SoundLinear(Start(sign, seal));
      hide Linear;
    } else {
      var before, last := events[..|events| - 1], events[|events| - 1];
      var s := After(c, sign, seal, before);
      LinearIffCalm(c, sign, seal, before);
      if Calm(c, sign, seal, before) {
        AfterSound(c, sign, seal, before);
        if Interrupts(c, s, last) {
          InterruptedBreaks(c, s, last);
        } else {
          DeliverSound(c, s, last);
          SoundLinear(Deliver(c, s, last));
        }
      }
      hide Linear;
      hide Sound;
    }
  }

  ghost predicate LinearThroughout(c: Config, sign: bool, seal: bool, events: seq<Event>) {
    Linear(After(c, sign, seal, events)) && (events == [] || LinearThroughout(c, sign, seal, events[..|events| - 1]))
  }

  /** The socket is connected and the NEGOTIATE request written. */
  lemma {:induction false} RequestWritten(c: Config)
    ensures var t := After(c, true, false, [Connected(0, Some([]), true), Written]);
            t.wait == [Handing(NegotiateCb)] && t.released == 0 && t.answers == [] && !t.broken && !t.seal
  {
    hide CallBack;
    hide Sha512.Digest;
    hide Arrive;
    var e1, e2 := Connected(0, Some([]), true), Written;
    AfterStep(c, true, false, []);
    AfterStep(c, true, false, [e1]);
    AfterStep(c, true, false, [e1, e2]);
    assert [e1][..0] == [] && [e1, e2][..1] == [e1];
  }

  /** The shortest such run: the interim reply to NEGOTIATE frees what the command still holds. */
  lemma {:induction false} InterimFreesHeld(c: Config)
    requires c.passthrough
    ensures var t := After(c, true, false, [Connected(0, Some([]), true), Written, Interim(0, false, AsNegotiate, [])]);
            t.released == 1 && t.wait == [Handing(NegotiateCb)]
  {
    hide CallBack;
    hide Sha512.Digest;
    hide After;
    hide Arrive;
    var e1, e2, e3 := Connected(0, Some([]), true), Written, Interim(0, false, AsNegotiate, []);
    RequestWritten(c);
    AfterStep(c, true, false, [e1, e2, e3]);
    assert [e1, e2, e3][..2] == [e1, e2];
    LocalIs(c, After(c, true, false, [e1, e2]), NegotiateCb, PENDING, []);
  }

  /** Once the connect data are freed no reply reaches a callback of the handshake any more. */
  lemma {:induction false} FinishedStays(c: Config, s: State, events: seq<Event>)
    requires Keyable(s) && Linear(s) && s.released == 1
    ensures var t := Run(c, s, events);
            t == s.(out := t.out, cur := t.cur, wait := t.wait, broken := t.broken) && Outstanding(t) == multiset{}
  {
    hide Entries;
    if events == [] {
      NoneLeft(s);
    } else {
      var t, e := Run(c, s, events[..|events| - 1]), events[|events| - 1];
      FinishedStays(c, s, events[..|events| - 1]);
      NoneInterrupted(c, t, e);
      DispatchTakes(c, t, e);
      DispatchFrame(c, t, e);
      NotReceiving(t);
      hide Dispatch;
      hide CallBack;
      hide OnSocket;
      hide Admits;
      NoHolder(t, Dispatch(c, t, e));
    }
  }

  lemma {:induction false} NotReceiving(s: State)
    requires Outstanding(s) == multiset{}
    ensures s.cur != Some(Handing(TreeConnectCb))
  {
    if s.cur.Some? {
      CurrentTakes(s);
      hide Entries;
      if s.cur.value.Handing? {
        Grown(Entries(s.hook, s.out, None, s.wait), Awaited(s.cur.value.cb));
      }
    }
  }

  lemma {:induction false} NoneInterrupted(c: Config, s: State, e: Event)
    requires Outstanding(s) == multiset{}
    ensures !Interrupts(c, s, e)
  {
    if e.Interim? && e.k < |s.wait| && s.wait[e.k].Handing? {
      HeldThere(s, e.k);
    }
  }

  lemma {:induction false} HeldThere(s: State, k: nat)
    requires k < |s.wait| && s.wait[k].Handing?
    ensures Awaited(s.wait[k].cb) in Outstanding(s)
  {
    WaitTakes(s, k);
    hide Entries;
    hide Removed;
  }

  lemma {:induction false} NoneLeft(s: State)
    requires Linear(s) && s.released == 1
    ensures Outstanding(s) == multiset{}
  {
    hide Entries;
    assert |Outstanding(s)| == 0;
  }

  lemma {:induction false} NoHolder(s: State, call: Call)
    requires TakenFrom(s, call) && Outstanding(s) == multiset{}
    ensures call.Quiet? && Outstanding(call.state) == multiset{}
  {
    hide Entries;
    match call
    case Quiet(_) =>
    case Socket(t, _, _) => Grown(Outstanding(t), Connecting);
    case Handed(t, cb, _) => Grown(Outstanding(t), Awaited(cb));
  }

  lemma {:induction false} Grown(holders: multiset<Step>, step: Step)
    ensures holders + multiset{step} != multiset{}
  {
    assert step in holders + multiset{step};
  }
}
