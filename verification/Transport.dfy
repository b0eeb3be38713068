/** The decisions of SMBTransport.swift: which addresses are tried, what is transferred, what is removed.
    What the server, the caller and the clock do comes as a script. */
module Transport {
  import opened Octet
  import opened Bytes
  import Handshake
  import HandshakeAnswer
  import HandshakePolicy

  datatype Failure =
    Authentication | AccessDenied | Exists | Connection | Unsupported | Invalid | Host | Port | Timeout | Cancelled

  datatype Result<T> = Ok(value: T) | Err(failure: Failure)

  // ---- connecting ------------------------------------------------------------------------------------------

  /** The NT statuses with which a server rejects a login. */
  predicate LoginRejection(status: nat) {
    status in {0xC0000064, 0xC000006A, 0xC000006D, 0xC000006E, 0xC000006F, 0xC0000070,
               0xC0000071, 0xC0000072, 0xC000015B, 0xC0000193, 0xC0000224, 0xC0000234}
  }

  datatype Account = Account(guest: bool, requireEncryption: bool)

  /** One address: what is found before the attempt, how the connect command ends, and the context after it. */
  datatype Attempt = Attempt(
    cancelled: bool, late: bool, context: bool,
    failure: Option<Failure>, dialect: nat, status: nat, sign: bool, seal: bool)

  predicate Guarded(account: Account, dialect: nat, sign: bool, seal: bool) {
    dialect >= 0x0202 && (account.guest || sign || seal) && (!account.requireEncryption || (dialect >= 0x0300 && seal))
  }

  predicate Rejected(a: Attempt) {
    !a.cancelled && !a.late && a.context && a.failure.Some? && a.dialect != 0 && LoginRejection(a.status)
  }

  datatype Verdict = Connected | Stop(failure: Failure) | Fallback(failure: Failure)

  /** What an address comes to. */
  function Judged(account: Account, a: Attempt): Verdict {
    if a.cancelled then Stop(Cancelled)
    else if a.late then Stop(Timeout)
    else if !a.context then Stop(Connection)
    else if Rejected(a) then Stop(Authentication)
    else if a.failure.Some? then
      if a.failure.value in {Port, Timeout, Connection} then Fallback(a.failure.value) else Stop(a.failure.value)
    else if Guarded(account, a.dialect, a.sign, a.seal) then Connected
    else Stop(Authentication)
  }

  // Section 2.3.1 of MS-ERREF.
  const NO_SUCH_USER: nat := 0xC0000064
  const WRONG_PASSWORD: nat := 0xC000006A
  const LOGON_FAILURE: nat := 0xC000006D
  const ACCOUNT_RESTRICTION: nat := 0xC000006E
  const INVALID_LOGON_HOURS: nat := 0xC000006F
  const INVALID_WORKSTATION: nat := 0xC0000070
  const PASSWORD_EXPIRED: nat := 0xC0000071
  const ACCOUNT_DISABLED: nat := 0xC0000072
  const LOGON_TYPE_NOT_GRANTED: nat := 0xC000015B
  const ACCOUNT_EXPIRED: nat := 0xC0000193
  const PASSWORD_MUST_CHANGE: nat := 0xC0000224
  const ACCOUNT_LOCKED_OUT: nat := 0xC0000234
  const ACCESS_DENIED: nat := 0xC0000022

  /** A server that looked at the login and does not accept it, as opposed to one that refuses something else. */
  predicate LoginRefused(status: nat) {
    || status == NO_SUCH_USER || status == WRONG_PASSWORD || status == LOGON_FAILURE || status == ACCOUNT_RESTRICTION
    || status == INVALID_LOGON_HOURS || status == INVALID_WORKSTATION || status == PASSWORD_EXPIRED || status == ACCOUNT_DISABLED
    || status == LOGON_TYPE_NOT_GRANTED || status == ACCOUNT_EXPIRED || status == PASSWORD_MUST_CHANGE
    || status == ACCOUNT_LOCKED_OUT
  }

  /** The search goes on to the next address if and only if this one could not be reached: no port, no answer in
      time, or no connection. A server that answered and refused the login ends the search, whatever the number
      that came with its status; one that cannot give what the account asks for ends it, too. */
  lemma {:induction false} SearchGoesOn(account: Account, a: Attempt)
    ensures Judged(account, a).Fallback? <==>
              !a.cancelled && !a.late && a.context && a.failure in {Some(Port), Some(Timeout), Some(Connection)} &&
              !(a.dialect != 0 && LoginRefused(a.status))
    ensures Judged(account, a).Connected? <==>
              !a.cancelled && !a.late && a.context && a.failure.None? && a.dialect >= 0x0202 &&
              (!account.guest ==> a.sign || a.seal) && (account.requireEncryption ==> a.dialect >= 0x0300 && a.seal)
    ensures !a.cancelled && !a.late && a.context && a.failure.Some? && a.dialect != 0 && LoginRefused(a.status) ==>
              Judged(account, a) == Stop(Authentication)
    ensures !LoginRefused(ACCESS_DENIED)
  {
  }

  /** The last failure of the addresses before. */
  function LastFailure(account: Account, attempts: seq<Attempt>): Failure {
    if attempts == [] then Host
    else
      var v := Judged(account, attempts[|attempts| - 1]);
      if v.Fallback? then v.failure else Host
  }

  function Count(attempts: seq<Attempt>): nat {
    if attempts == [] then 0 else Count(attempts[..|attempts| - 1]) + if Rejected(attempts[|attempts| - 1]) then 1 else 0
  }

  /** The loop over the addresses. Every address but the last one tried fell back, the last one did not
      unless it was the last there is, and its verdict is the outcome; at most one login is rejected. */
  method Connect(account: Account, attempts: seq<Attempt>) returns (result: Result<()>, tried: nat)
    ensures tried <= |attempts| && (attempts != [] ==> tried > 0)
    ensures forall i :: 0 <= i < tried - 1 ==> Judged(account, attempts[i]).Fallback?
    ensures result.Ok? ==> tried > 0 && Judged(account, attempts[tried - 1]).Connected?
    ensures result.Err? && tried > 0 ==>
              var v := Judged(account, attempts[tried - 1]);
              !v.Connected? && result.failure == v.failure && (v.Fallback? ==> tried == |attempts|)
    ensures tried == 0 ==> result == Err(Host)
    ensures Count(attempts[..tried]) <= 1
    ensures Count(attempts[..tried]) == 1 ==> result == Err(Authentication)
  {
    var lastFailure := Host;
    tried := 0;
    while tried < |attempts|
      invariant tried <= |attempts| && lastFailure == LastFailure(account, attempts[..tried])
      invariant forall i :: 0 <= i < tried ==> Judged(account, attempts[i]).Fallback?
      invariant Count(attempts[..tried]) == 0
    {
      var a := attempts[tried];
      assert attempts[..tried + 1][..tried] == attempts[..tried];
      tried := tried + 1;
      if a.cancelled {
        return Err(Cancelled), tried;
      }
      if a.late {
        return Err(Timeout), tried;
      }
      if !a.context {
        return Err(Connection), tried;
      }
      var loginRejected := false;
      var failure := a.failure;
      if failure.Some? && a.dialect != 0 && LoginRejection(a.status) {
        loginRejected := true;
        failure := Some(Authentication);
      }
      if failure.None? {
        if Guarded(account, a.dialect, a.sign, a.seal) {
          return Ok(()), tried;
        }
        failure := Some(Authentication);
      }
      if loginRejected {
        return Err(failure.value), tried;
      }
      match failure.value
      case Port | Timeout | Connection => lastFailure := failure.value;
      case _ => return Err(failure.value), tried;
    }
    result := Err(lastFailure);
  }

  /** What the account asks of the C context. */
  function Config(account: Account): Handshake.Config {
    Handshake.Config(!account.guest, false)
  }

  /** For a share that was joined without a guest login the check after the connect comes down to the dialect:
      signing or sealing is on in any case. */
  lemma {:induction false} GuardIsDialect(account: Account, events: seq<Handshake.Event>)
    requires !account.guest
    requires HandshakeAnswer.Joined(Config(account), Handshake.After(Config(account), true, account.requireEncryption, events))
    ensures var t := Handshake.After(Config(account), true, account.requireEncryption, events);
            Guarded(account, t.dialect, t.sign, t.seal) <==>
            t.dialect >= (if account.requireEncryption then 0x0300 else 0x0202)
  {
    hide Handshake.After;
    Handshake.CalmOtherwise(Config(account), true, account.requireEncryption, events);
    HandshakePolicy.JoinedPolicy(Config(account), true, account.requireEncryption, events);
  }

  // ---- reading ---------------------------------------------------------------------------------------------

  const CHUNK: nat := 65536
  const MAX_RANGE: nat := 262144

  /** How a read ends: with some of the octets asked for, or with a failure. */
  datatype ReadFate = Sends(n: nat) | Fails(failure: Failure)

  /** The octets that a reply with `n` of `count` octets from `offset` on carries. */
  function Sent(file: seq<byte>, offset: nat, count: nat, n: nat): seq<byte> {
    var end := offset + (if n <= count then n else count);
    if offset >= |file| then [] else if end <= |file| then file[offset..end] else file[offset..]
  }

  method Read(file: seq<byte>, offset: nat, count: nat, fate: ReadFate) returns (r: Result<seq<byte>>)
    ensures r == match fate case Sends(n) => Ok(Sent(file, offset, count, n)) case Fails(f) => Err(f)
  {
    match fate
    case Fails(f) => r := Err(f);
    case Sends(n) => r := Ok(Sent(file, offset, count, n));
  }

  lemma {:induction false} SentJoins(file: seq<byte>, from: nat, got: nat, count: nat, n: nat)
    requires from + got <= |file| && Sent(file, from + got, count, n) != []
    ensures var more := Sent(file, from + got, count, n);
            |more| <= count && from + got + |more| <= |file| &&
            file[from..from + got] + more == file[from..from + got + |more|]
  {
  }

  /** Every reply brings something, and there is one for every octet. */
  predicate Plenty(replies: seq<ReadFate>, wanted: nat) {
    |replies| >= wanted && forall i :: 0 <= i < |replies| ==> replies[i].Sends? && replies[i].n > 0
  }

  /** The opened file as the server describes it. */
  datatype Info = Info(isFile: bool, size: nat, modified: int)

  const MAX_INT64: nat := 0x7FFF_FFFF_FFFF_FFFF

  predicate Valid(info: Info, size: Option<nat>, modified: Option<int>) {
    info.isFile && info.size <= MAX_INT64 && (size.None? || size.value == info.size) &&
    (modified.None? || modified.value == info.modified)
  }

  lemma {:induction false} SentInside(file: seq<byte>, at: nat, count: nat, n: nat)
    requires Sent(file, at, count, n) != []
    ensures at < |file|
  {
  }

  /** A reply of a plentiful script brings something from inside the file. */
  lemma {:induction false} Brings(file: seq<byte>, at: nat, count: nat, replies: seq<ReadFate>, turn: nat, wanted: nat)
    requires Plenty(replies, wanted) && turn < wanted && at < |file| && count > 0
    ensures turn < |replies| && replies[turn].Sends? && Sent(file, at, count, replies[turn].n) != []
  {
  }

  /** The loop over the reads of a range. */
  method ReadAll(file: seq<byte>, offset: nat, wanted: nat, replies: seq<ReadFate>) returns (r: Result<seq<byte>>)
    requires wanted > 0
    ensures r.Ok? ==> offset + wanted <= |file| && r.value == file[offset..offset + wanted]
    ensures Plenty(replies, wanted) && offset + wanted <= |file| ==> r.Ok?
  {
    hide Sent;
    hide Plenty;
    var result: seq<byte> := [];
    var turn := 0;
    while |result| < wanted
      invariant |result| <= wanted && (result != [] ==> offset + |result| <= |file|)
      invariant result != [] ==> result == file[offset..offset + |result|]
      invariant 0 <= turn && (Plenty(replies, wanted) && offset + wanted <= |file| ==> turn <= |result|)
      decreases wanted - |result|
    {
      var n := if CHUNK <= wanted - |result| then CHUNK else wanted - |result|;
      if Plenty(replies, wanted) && offset + wanted <= |file| {
        Brings(file, offset + |result|, n, replies, turn, wanted);
      }
      if turn >= |replies| {
        return Err(Timeout);
      }
      var chunk := Read(file, offset + |result|, n, replies[turn]);
      turn := turn + 1;
      if chunk.Err? {
        return Err(chunk.failure);
      }
      if chunk.value == [] {
        return Err(Connection);
      }
      SentInside(file, offset + |result|, n, replies[turn - 1].n);
      SentJoins(file, offset, |result|, n, replies[turn - 1].n);
      result := result + chunk.value;
    }
    r := Ok(result);
  }

  /** A range is exactly the file's octets there, however short the replies are. */
  method Range(handle: Result<Info>, file: seq<byte>, size: int, modified: int, offset: int, count: int,
               replies: seq<ReadFate>, closed: Option<Failure>) returns (r: Result<seq<byte>>)
    ensures r.Ok? ==> 0 <= offset < size && 0 < count <= MAX_RANGE && handle.Ok? &&
                      Valid(handle.value, Some(size), Some(modified))
    ensures r.Ok? ==> var wanted := if count <= size - offset then count else size - offset;
                      offset + wanted <= |file| && r.value == file[offset..offset + wanted]
    ensures (0 <= offset < size && 0 < count <= MAX_RANGE && handle.Ok? && Valid(handle.value, Some(size), Some(modified)) &&
             size <= |file| && Plenty(replies, count) && closed.None?) ==> r.Ok?
  {
    if !(size >= 0 && offset >= 0 && offset < size && count > 0 && count <= MAX_RANGE) {
      return Err(Invalid);
    }
    if handle.Err? {
      return Err(handle.failure);
    }
    if !Valid(handle.value, Some(size), Some(modified)) {
      return Err(Invalid);
    }
    var wanted := if count <= size - offset then count else size - offset;
    r := ReadAll(file, offset, wanted, replies);
    if r.Err? {
      return;
    }
    if closed.Some? {
      return Err(closed.value);
    }
  }

  predicate Accepts(writes: seq<Option<Failure>>, n: nat) {
    |writes| >= n && forall i :: 0 <= i < |writes| ==> writes[i].None?
  }

  /** A download hands over the file from its beginning, and all of it when it succeeds. */
  method Download(handle: Result<Info>, file: seq<byte>, expectedSize: Option<nat>, modified: Option<int>, maxBytes: int,
                  replies: seq<ReadFate>, writes: seq<Option<Failure>>, closed: Option<Failure>, cancelled: bool)
    returns (r: Result<nat>, written: seq<byte>)
    ensures written <= file
    ensures r.Ok? ==> handle.Ok? && Valid(handle.value, expectedSize, modified) && handle.value.size <= maxBytes &&
                      r.value == handle.value.size <= |file| && written == file[..r.value]
    ensures (maxBytes >= 0 && handle.Ok? && Valid(handle.value, expectedSize, modified) && handle.value.size <= maxBytes &&
             handle.value.size <= |file| && Plenty(replies, handle.value.size) && Accepts(writes, handle.value.size) &&
             closed.None? && !cancelled) ==> r.Ok?
  {
    written := [];
    if maxBytes < 0 {
      return Err(Invalid), written;
    }
    if handle.Err? {
      return Err(handle.failure), written;
    }
    if !Valid(handle.value, expectedSize, modified) {
      return Err(Invalid), written;
    }
    if handle.value.size > maxBytes {
      return Err(Invalid), written;
    }
    var size, offset, turn := handle.value.size, 0, 0;
    while offset < size
      invariant offset == |written| <= size && written <= file && 0 <= turn
      invariant Plenty(replies, size) && size <= |file| ==> turn <= offset
      decreases size - offset
    {
      if turn >= |replies| || turn >= |writes| {
        return Err(Timeout), written;
      }
      var n := if CHUNK <= size - offset then CHUNK else size - offset;
      var data := Read(file, offset, n, replies[turn]);
      if data.Err? {
        return Err(data.failure), written;
      }
      if data.value == [] {
        return Err(Connection), written;
      }
      if writes[turn].Some? {
        return Err(writes[turn].value), written;
      }
      SentJoins(file, 0, offset, n, replies[turn].n);
      written := written + data.value;
      offset := offset + |data.value|;
      turn := turn + 1;
    }
    if closed.Some? {
      return Err(closed.value), written;
    }
    if cancelled {
      return Err(Cancelled), written;
    }
    r := Ok(size);
  }

  // ---- uploading -------------------------------------------------------------------------------------------

  /** What becomes of a request that changes a file: it is carried out and answered, refused, or the
      connection breaks before or after it is carried out. */
  datatype Fate = Done | Refused(failure: Failure) | LostBefore(failure: Failure) | LostAfter(failure: Failure)

  /** One piece that the caller supplies, and the write of it; `count` is what the server's reply says. */
  datatype Piece = Piece(cancelled: bool, data: Result<seq<byte>>, fate: Fate, count: nat)

  /** What the removal after a failed upload meets: whether it gets to open the file at all, and in which
      tries; a try that finds the file in use is repeated until the time is up. */
  datatype Removal = Removal(reached: bool, tries: seq<Try>)

  datatype Try = Gone | Busy(late: bool) | Denied | Link | Opened(mark: Fate)

  /** The files of the server. */
  class Server {
    var files: map<string, seq<byte>>
    ghost var removals: nat

    constructor ()
    {
      files, removals := map[], 0;
    }

    /** Exclusive create: it fails when the name is taken. */
    method Create(path: string, fate: Fate) returns (failure: Option<Failure>)
      modifies this`files
      ensures failure.None? <==> path !in old(files) && fate.Done?
      ensures files == if path !in old(files) && (fate.Done? || fate.LostAfter?) then old(files)[path := []] else old(files)
    {
      failure := if fate.Done? then None else Some(fate.failure);
      if path in files {
        if fate.Done? {
          failure := Some(Exists);
        }
        return;
      }
      if fate.Done? || fate.LostAfter? {
        files := files[path := []];
      }
    }

    method Write(path: string, offset: nat, data: seq<byte>, fate: Fate) returns (failure: Option<Failure>)
      requires path in files && offset == |files[path]|
      modifies this`files
      ensures failure.None? <==> fate.Done?
      ensures files == if fate.Done? || fate.LostAfter? then old(files)[path := old(files)[path] + data] else old(files)
    {
      failure := if fate.Done? then None else Some(fate.failure);
      if fate.Done? || fate.LostAfter? {
        files := files[path := files[path] + data];
      }
    }

    /** The file marked for deletion goes when its handle closes. */
    method Remove(path: string, mark: Fate) returns (failure: Option<Failure>)
      modifies this
      ensures failure.None? <==> mark.Done?
      ensures files == if mark.Done? || mark.LostAfter? then old(files) - {path} else old(files)
      ensures removals == old(removals) + 1
    {
      removals := removals + 1;
      failure := if mark.Done? then None else Some(mark.failure);
      if mark.Done? || mark.LostAfter? {
        files := files - {path};
      }
    }
  }

  /** All other files are as they were. */
  twostate predicate OthersKept(server: Server, path: string)
    reads server
  {
    server.files - {path} == old(server.files) - {path}
  }

  /** The octets of the first `n` pieces. */
  function Supplied(pieces: seq<Piece>, n: nat): seq<byte>
    requires n <= |pieces|
  {
    if n == 0 then [] else Supplied(pieces, n - 1) + if pieces[n - 1].data.Ok? then pieces[n - 1].data.value else []
  }

  /** From piece `i` on all goes well until `left` octets are written. */
  predicate Feeds(pieces: seq<Piece>, i: nat, left: nat)
    decreases left
  {
    left == 0 ||
    (i < |pieces| && !pieces[i].cancelled && pieces[i].data.Ok? && pieces[i].fate.Done? &&
     var n := |pieces[i].data.value|;
     0 < n <= CHUNK && n <= left && pieces[i].count == n && Feeds(pieces, i + 1, left - n))
  }

  lemma {:induction false} MapIs(a: map<string, seq<byte>>, b: map<string, seq<byte>>, path: string)
    requires path in b && b - {path} == a - {path}
    ensures b == a[path := b[path]]
  {
    assert forall k :: k in b && k != path ==> k in b - {path};
    assert forall k :: k in a && k != path ==> k in a - {path};
    assert forall k :: k in b && k != path ==> k in a && b[k] == (b - {path})[k] && a[k] == (a - {path})[k];
  }

  /** The loop that writes the file, piece by piece. */
  method WritePieces(server: Server, path: string, size: nat, pieces: seq<Piece>) returns (failure: Option<Failure>, used: nat)
    requires path in server.files && server.files[path] == []
    modifies server`files
    ensures path in server.files && OthersKept(server, path)
    ensures used <= |pieces|
    ensures failure.None? ==> server.files[path] == Supplied(pieces, used) && |server.files[path]| == size
    ensures Feeds(pieces, 0, size) ==> failure.None?
  {
    used := 0;
    var offset := 0;
    while offset < size
      invariant path in server.files && OthersKept(server, path) && used <= |pieces|
      invariant server.files[path] == Supplied(pieces, used) && offset == |server.files[path]| <= size
      invariant Feeds(pieces, 0, size) ==> Feeds(pieces, used, size - offset)
      decreases size - offset
    {
      if used >= |pieces| {
        return Some(Timeout), used;
      }
      var piece := pieces[used];
      if piece.cancelled {
        return Some(Cancelled), used;
      }
      var count := if CHUNK <= size - offset then CHUNK else size - offset;
      if piece.data.Err? {
        return Some(piece.data.failure), used;
      }
      var data := piece.data.value;
      if data == [] || |data| > count {
        return Some(Connection), used;
      }
      var broken := server.Write(path, offset, data, piece.fate);
      if broken.Some? {
        return broken, used;
      }
      if piece.count != |data| {
        return Some(Connection), used;
      }
      used := used + 1;
      offset := offset + piece.count;
    }
    failure := None;
  }

  /** From try `i` on the file is at last opened and marked. */
  predicate Removes(tries: seq<Try>, i: nat)
    decreases |tries| - i
  {
    i < |tries| && ((tries[i].Busy? && !tries[i].late && Removes(tries, i + 1)) || (tries[i].Opened? && tries[i].mark.Done?))
  }

  /** removeInterruptedUpload: best effort. */
  method RemoveInterruptedUpload(server: Server, path: string, removal: Removal)
    modifies server
    ensures OthersKept(server, path)
    ensures path in server.files ==> path in old(server.files) && server.files[path] == old(server.files)[path]
    ensures removal.reached && Removes(removal.tries, 0) ==> path !in server.files
  {
    if !removal.reached {
      return;
    }
    var i := 0;
    while i < |removal.tries|
      invariant 0 <= i && server.files == old(server.files)
      invariant Removes(removal.tries, 0) ==> Removes(removal.tries, i)
      decreases |removal.tries| - i
    {
      match removal.tries[i]
      case Gone => return;
      case Denied => return;
      case Link => return;
      case Opened(mark) =>
        var failure := server.Remove(path, mark);
        return;
      case Busy(late) =>
        if late {
          return;
        }
      i := i + 1;
    }
  }

  /** A successful upload leaves exactly the octets supplied under a name that was free. A file that was
      there before is never changed, and nothing is removed unless this run's own create succeeded. */
  method Upload(server: Server, path: string, size: int, create: Fate, pieces: seq<Piece>, sync: Option<Failure>,
                closed: Option<Failure>, cancelled: bool, removal: Removal) returns (failure: Option<Failure>, used: nat)
    modifies server
    ensures OthersKept(server, path)
    ensures path in old(server.files) ==> server.files == old(server.files) && failure.Some?
    ensures path in old(server.files) || !create.Done? || size < 0 ==> server.removals == old(server.removals) && failure.Some?
    ensures failure.None? ==> used <= |pieces| && server.files == old(server.files)[path := Supplied(pieces, used)] &&
                              |server.files[path]| == size && server.removals == old(server.removals)
    ensures (path !in old(server.files) && size >= 0 && create.Done? && failure.Some? && removal.reached &&
             Removes(removal.tries, 0)) ==> server.files == old(server.files)
    ensures (path !in old(server.files) && size >= 0 && create.Done? && Feeds(pieces, 0, size) && sync.None? && closed.None? &&
             !cancelled) ==> failure.None?
  {
    used := 0;
    if size < 0 {
      return Some(Invalid), used;
    }
    failure := server.Create(path, create);
    if failure.Some? {
      return;
    }
    failure, used := WritePieces(server, path, size, pieces);
    if failure.None? && sync.Some? {
      failure := sync;
    }
    if failure.None? && closed.Some? {
      failure := closed;
    }
    if failure.None? && cancelled {
      failure := Some(Cancelled);
    }
    if failure.Some? {
      RemoveInterruptedUpload(server, path, removal);
      if path !in server.files && path !in old(server.files) {
        assert server.files == server.files - {path} && old(server.files) == old(server.files) - {path};
      }
    } else {
      MapIs(old(server.files), server.files, path);
    }
  }
}
