/** NTLMv2 as MS-NLMP describes it: keys, responses, and the AUTHENTICATE message. Strings are lists of
    UTF-16 code units. */
module NtlmSpec {
  import opened Octet
  import opened Bytes
  import opened Sequences
  import Hmac
  import Md4
  import Md5

  type Text = seq<nat>

  const SIGNATURE: seq<byte> := [78, 84, 76, 77, 83, 83, 80, 0]
  const CHALLENGE_MESSAGE: nat := 2
  const AUTHENTICATION_MESSAGE: nat := 3
  const SHORT: nat := 0x1_0000
  const LONG: nat := 0x1_0000_0000

  function OrEmpty(t: Option<Text>): Text {
    if t.Some? then t.value else []
  }

  /** An empty string and no string read back as no string. */
  function Normal(t: Option<Text>): Option<Text> {
    if OrEmpty(t) == [] then None else t
  }

  /** The C locale's `toupper`: letters of ASCII only. */
  function Upper(t: Text): (r: Text)
    ensures |r| == |t|
  {
    if t == [] then [] else [if 97 <= t[0] <= 122 then t[0] - 32 else t[0]] + Upper(t[1..])
  }

  // ---- section 3.3.2: NTLM v2 authentication ----------------------------------------------------------

  function HmacMd5(key: seq<byte>, text: seq<byte>): (r: seq<byte>)
    ensures |r| == 16
  {
    Hmac.Mac(Md5.Digest, 64, key, text)
  }

  function NtHash(password: Text): (r: seq<byte>)
    ensures |r| == 16
  {
    Md4.Digest(LittleOctets(password))
  }

  /** NTOWFv2: the response key. Only the user name is in upper case. */
  function ResponseKey(user: Text, password: Text, domain: Option<Text>): (r: seq<byte>)
    ensures |r| == 16
  {
    HmacMd5(NtHash(password), LittleOctets(Upper(user) + OrEmpty(domain)))
  }

  lemma {:induction false} KeyOfNormal(user: Text, password: Text, domain: Option<Text>)
    ensures ResponseKey(user, password, Normal(domain)) == ResponseKey(user, password, domain)
  {
  }

  function Temp(time: seq<byte>, clientChallenge: seq<byte>, targetInfo: seq<byte>): (r: seq<byte>)
    requires |time| == |clientChallenge| == 8
    ensures |r| == 32 + |targetInfo|
  {
    [1, 1] + Zeros(6) + time + clientChallenge + Zeros(4) + targetInfo + Zeros(4)
  }

  function Proof(key: seq<byte>, serverChallenge: seq<byte>, temp: seq<byte>): (r: seq<byte>)
    ensures |r| == 16
  {
    HmacMd5(key, serverChallenge + temp)
  }

  function Response(key: seq<byte>, serverChallenge: seq<byte>, temp: seq<byte>): (r: seq<byte>)
    ensures |r| == 16 + |temp|
  {
    Proof(key, serverChallenge, temp) + temp
  }

  function SessionKey(key: seq<byte>, serverChallenge: seq<byte>, temp: seq<byte>): seq<byte> {
    HmacMd5(key, Proof(key, serverChallenge, temp))
  }

  // ---- section 2.2.1.3: the AUTHENTICATE message --------------------------------------------------------

  /** Length and offset of a part of the payload. The length is stored twice. */
  datatype Field = Field(len: nat, off: nat)

  function FieldOctets(f: Field): (r: seq<byte>)
    ensures |r| == 8
  {
    Little(f.len, 2) + Little(f.len, 2) + Little(f.off, 4)
  }

  const HEADER: nat := 72

  /** Fields of the LAN Manager response and of the session key are empty, and so is the version. */
  function Header(nt: Field, domain: Field, user: Field, workstation: Field, flags: nat): (r: seq<byte>)
    ensures |r| == HEADER
  {
    SIGNATURE + Little(AUTHENTICATION_MESSAGE, 4) + Zeros(8) + FieldOctets(nt) + FieldOctets(domain) + FieldOctets(user) +
    FieldOctets(workstation) + Zeros(8) + Little(flags, 4) + Zeros(8)
  }

  const FLAGS: nat := 0x20088037
  const ANONYMOUS_FLAGS: nat := 0x20088817

  /** The message of a user with a password: domain, user, workstation and response follow the header. */
  function AuthMessage(user: Text, domain: Option<Text>, workstation: Option<Text>, response: seq<byte>): seq<byte> {
    var d, u, w := LittleOctets(OrEmpty(domain)), LittleOctets(user), LittleOctets(OrEmpty(workstation));
    var uOff := HEADER + |d|;
    var wOff := uOff + |u|;
    var rOff := wOff + |w|;
    Header(Field(|response|, rOff), Field(|d|, HEADER), Field(|u|, uOff), Field(|w|, wOff), FLAGS) + (d + (u + (w + response)))
  }

  function AnonymousMessage(): seq<byte> {
    var none := Field(0, 0);
    Header(none, none, none, none, ANONYMOUS_FLAGS)
  }

  // ---- reading fields ---------------------------------------------------------------------------------

  function GetField(b: seq<byte>, o: nat): Field
    requires o + 8 <= |b|
  {
    Field(LittleValue(b[o + 2..o + 4]), LittleValue(b[o + 4..o + 8]))
  }

  lemma {:induction false} FieldRead(b: seq<byte>, o: nat, f: Field)
    requires o + 8 <= |b| && b[o..o + 8] == FieldOctets(f) && f.len < SHORT && f.off < LONG
    ensures GetField(b, o) == f
  {
    hide Little;
    hide LittleValue;
    SliceOfSlice(b, o, o + 8, 2, 4);
    SliceOfSlice(b, o, o + 8, 4, 8);
    assert FieldOctets(f)[2..4] == Little(f.len, 2) && FieldOctets(f)[4..8] == Little(f.off, 4);
    FitsInBounds(f.len);
    FitsInBounds(f.off);
    LittleInverts(f.len, 2);
    LittleInverts(f.off, 4);
  }

  /** A text field: empty ones read as no string. `None` stands for reading past the message. */
  function ReadText(b: seq<byte>, o: nat): Option<Option<Text>> {
    if o + 8 > |b| then Some(None)
    else
      var f := GetField(b, o);
      if f.len == 0 || f.off == 0 then Some(None)
      else if f.off + 2 * (f.len / 2) > |b| then None
      else Some(Some(LittleUnits(b, f.off, f.len / 2)))
  }

  /** What the server's handler answers for a user: no entry, or an entry with or without a password. */
  datatype Authorization = Denied | Granted(password: Option<Text>)

  /** `Outside` stands for reading past the message. */
  datatype Verdict = Rejected | Anonymous | Accepted(sessionKey: seq<byte>) | Outside

  datatype Server = Server(challenge: seq<byte>, authorize: (Option<Text>, Option<Text>, Option<Text>) -> Authorization, allowAnonymous: bool)

  /** What the server makes of an AUTHENTICATE message. */
  function Authenticate(b: seq<byte>, server: Server): Verdict {
    if |b| < 8 || b[..8] != SIGNATURE then Rejected
    else if |b| < 12 then Outside
    else if LittleValue(b[8..12]) != AUTHENTICATION_MESSAGE then Rejected
    else if |b| < 64 then Outside
    else
      var domain, user, workstation := ReadText(b, 28), ReadText(b, 36), ReadText(b, 44);
      if domain.None? || user.None? || workstation.None? then Outside
      else Authorized(b, server, user.value, domain.value, server.authorize(user.value, domain.value, workstation.value))
  }

  function Authorized(b: seq<byte>, server: Server, user: Option<Text>, domain: Option<Text>, a: Authorization): Verdict
    requires |b| >= 64
  {
    if a.Denied? || (a.password.None? && !server.allowAnonymous) then Rejected
    else if OrEmpty(user) == [] || OrEmpty(a.password) == [] then (if server.allowAnonymous then Anonymous else Rejected)
    else CheckResponse(b, server.challenge, ResponseKey(user.value, a.password.value, domain))
  }

  /** The response must be longer than an empty list of target information makes it. */
  function CheckResponse(b: seq<byte>, challenge: seq<byte>, key: seq<byte>): Verdict
    requires |b| >= 64
  {
    var f := GetField(b, 20);
    if f.len == 0 || f.off == 0 || f.off > |b| then Rejected
    else if 16 <= f.len <= 52 then Rejected
    else if f.len < 16 || f.off + f.len > |b| then Outside
    else
      var temp := b[f.off + 16..f.off + f.len];
      if Proof(key, challenge, temp) != b[f.off..f.off + 16] then Rejected else Accepted(SessionKey(key, challenge, temp))
  }

  // ---- agreement --------------------------------------------------------------------------------------

  lemma {:induction false} HeaderParts(nt: Field, domain: Field, user: Field, workstation: Field, flags: nat)
    ensures var h := Header(nt, domain, user, workstation, flags);
            && h[0..8] == SIGNATURE && h[8..12] == Little(AUTHENTICATION_MESSAGE, 4)
            && h[20..28] == FieldOctets(nt) && h[28..36] == FieldOctets(domain)
            && h[36..44] == FieldOctets(user) && h[44..52] == FieldOctets(workstation)
  {
    hide FieldOctets;
    hide Little;
    hide Zeros;
    hide Header;
    var start, end := SIGNATURE + Little(AUTHENTICATION_MESSAGE, 4) + Zeros(8), Zeros(8) + Little(flags, 4) + Zeros(8);
    var n, d, u, w := FieldOctets(nt), FieldOctets(domain), FieldOctets(user), FieldOctets(workstation);
    HeaderSplits(nt, domain, user, workstation, flags);
    FieldSlice(start, n, d + u + w + end);
    FieldSlice(start + n, d, u + w + end);
    FieldSlice(start + n + d, u, w + end);
    FieldSlice(start + n + d + u, w, end);
    Assoc(start, n, d + u + w + end);
    SliceOfHead(start, n + (d + u + w + end), 0, 8);
    SliceOfHead(start, n + (d + u + w + end), 8, 12);
    SliceOfHead(SIGNATURE + Little(AUTHENTICATION_MESSAGE, 4), Zeros(8), 0, 8);
    SliceOfHead(SIGNATURE + Little(AUTHENTICATION_MESSAGE, 4), Zeros(8), 8, 12);
    SliceOfHead(SIGNATURE, Little(AUTHENTICATION_MESSAGE, 4), 0, 8);
    EndOf(SIGNATURE, Little(AUTHENTICATION_MESSAGE, 4));
  }

  lemma {:induction false} FieldSlice(p: seq<byte>, x: seq<byte>, q: seq<byte>)
    ensures (p + x + q)[|p|..|p| + |x|] == x
  {
    Assoc(p, x, q);
    MiddleOf(p, x, q);
  }

  /** A text of the payload reads back. */
  lemma {:induction false} TextReads(b: seq<byte>, o: nat, t: Option<Text>, off: nat)
    requires ValidText(OrEmpty(t)) && 2 * |OrEmpty(t)| < SHORT && 0 < off < LONG
    requires o + 8 <= |b| && off + 2 * |OrEmpty(t)| <= |b|
    requires b[o..o + 8] == FieldOctets(Field(2 * |OrEmpty(t)|, off))
    requires b[off..off + 2 * |OrEmpty(t)|] == LittleOctets(OrEmpty(t))
    ensures ReadText(b, o) == Some(Normal(t))
  {
    hide FieldOctets;
    hide LittleUnits;
    hide LittleOctets;
    var f := Field(2 * |OrEmpty(t)|, off);
    FieldRead(b, o, f);
    if OrEmpty(t) != [] {
      ValidIsCodeUnits(OrEmpty(t));
      UnitsRead(b, off, OrEmpty(t));
      assert f.len / 2 == |OrEmpty(t)|;
    }
  }

  /** The four parts of the payload, where the fields say they are. */
  lemma {:induction false} PayloadParts(h: seq<byte>, d: seq<byte>, u: seq<byte>, w: seq<byte>, r: seq<byte>)
    ensures var b := h + (d + (u + (w + r)));
            var uOff := |h| + |d|;
            var wOff := uOff + |u|;
            var rOff := wOff + |w|;
            && b[..|h|] == h && b[|h|..uOff] == d && b[uOff..wOff] == u && b[wOff..rOff] == w && b[rOff..rOff + |r|] == r
            && |b| == rOff + |r|
  {
    MiddleOf(h, d, u + (w + r));
    Assoc(h, d, u + (w + r));
    MiddleOf(h + d, u, w + r);
    Assoc(h + d, u, w + r);
    MiddleOf(h + d + u, w, r);
    Assoc(h + d + u, w, r);
    EndOf(h + d + u + w, r);
    SliceOfHead(h, d + (u + (w + r)), 0, |h|);
  }

  predicate Sizes(user: Text, domain: Option<Text>, workstation: Option<Text>, targetInfo: seq<byte>) {
    && ValidText(user) && ValidText(OrEmpty(domain)) && ValidText(OrEmpty(workstation))
    && 2 * |user| < SHORT && 2 * |OrEmpty(domain)| < SHORT && 2 * |OrEmpty(workstation)| < SHORT
    && 48 + |targetInfo| < SHORT
  }

  /** Offsets of user name, workstation and response. */
  function UserOff(domain: Option<Text>): nat {
    HEADER + 2 * |OrEmpty(domain)|
  }

  function WorkstationOff(user: Text, domain: Option<Text>): nat {
    UserOff(domain) + 2 * |user|
  }

  function ResponseOff(user: Text, domain: Option<Text>, workstation: Option<Text>): nat {
    WorkstationOff(user, domain) + 2 * |OrEmpty(workstation)|
  }

  /** The parts of a client's message. */
  lemma {:induction false} MessageParts(user: Text, domain: Option<Text>, workstation: Option<Text>, response: seq<byte>)
    ensures var b := AuthMessage(user, domain, workstation, response);
            var u, w, r := UserOff(domain), WorkstationOff(user, domain), ResponseOff(user, domain, workstation);
            && |b| == r + |response| && b[0..8] == SIGNATURE && b[8..12] == Little(AUTHENTICATION_MESSAGE, 4)
            && b[20..28] == FieldOctets(Field(|response|, r)) && b[28..36] == FieldOctets(Field(2 * |OrEmpty(domain)|, HEADER))
            && b[36..44] == FieldOctets(Field(2 * |user|, u)) && b[44..52] == FieldOctets(Field(2 * |OrEmpty(workstation)|, w))
            && b[HEADER..u] == LittleOctets(OrEmpty(domain)) && b[u..w] == LittleOctets(user)
            && b[w..r] == LittleOctets(OrEmpty(workstation)) && b[r..r + |response|] == response
  {
    hide FieldOctets;
    hide LittleOctets;
    hide Little;
    hide Header;
    var d, u, w := LittleOctets(OrEmpty(domain)), LittleOctets(user), LittleOctets(OrEmpty(workstation));
    var nt, df := Field(|response|, ResponseOff(user, domain, workstation)), Field(|d|, HEADER);
    var uf, wf := Field(|u|, UserOff(domain)), Field(|w|, WorkstationOff(user, domain));
    var h := Header(nt, df, uf, wf, FLAGS);
    var b := h + (d + (u + (w + response)));
    HeaderParts(nt, df, uf, wf, FLAGS);
    PayloadParts(h, d, u, w, response);
    HeadOf(b, h, 0, 8);
    HeadOf(b, h, 8, 12);
    HeadOf(b, h, 20, 28);
    HeadOf(b, h, 28, 36);
    HeadOf(b, h, 36, 44);
    HeadOf(b, h, 44, 52);
  }

  /** What the server reads in a client's message. */
  lemma {:induction false} MessageReads(user: Text, domain: Option<Text>, workstation: Option<Text>, response: seq<byte>)
    requires Sizes(user, domain, workstation, []) && |response| < SHORT && user != []
    ensures var b := AuthMessage(user, domain, workstation, response);
            var f := GetField(b, 20);
            && |b| >= 64 && b[..8] == SIGNATURE && LittleValue(b[8..12]) == AUTHENTICATION_MESSAGE
            && ReadText(b, 28) == Some(Normal(domain)) && ReadText(b, 36) == Some(Some(user))
            && ReadText(b, 44) == Some(Normal(workstation))
            && f.len == |response| && 0 < f.off && f.off + f.len == |b| && b[f.off..] == response
  {
    hide FieldOctets;
    hide LittleUnits;
    hide LittleOctets;
    hide Little;
    hide LittleValue;
    hide ReadText;
    hide AuthMessage;
    var b := AuthMessage(user, domain, workstation, response);
    MessageParts(user, domain, workstation, response);
    FitsInBounds(AUTHENTICATION_MESSAGE);
    LittleInverts(AUTHENTICATION_MESSAGE, 4);
    FieldRead(b, 20, Field(|response|, ResponseOff(user, domain, workstation)));
    TextReads(b, 28, domain, HEADER);
    TextReads(b, 36, Some(user), UserOff(domain));
    TextReads(b, 44, workstation, WorkstationOff(user, domain));
  }

  lemma {:induction false} HeadOf(b: seq<byte>, h: seq<byte>, i: nat, j: nat)
    requires i <= j <= |h| <= |b| && b[..|h|] == h
    ensures b[i..j] == h[i..j]
  {
    SliceOfSlice(b, 0, |h|, i, j);
  }

  /** The client's message, built for the server's challenge, is accepted, and both sides derive the same
      session key, if the target information is longer than the end marker alone; otherwise it is
      rejected, whatever the password. */
  lemma {:induction false} Agreement(server: Server, user: Text, domain: Option<Text>, workstation: Option<Text>, password: Text,
                                     time: seq<byte>, clientChallenge: seq<byte>, targetInfo: seq<byte>)
    requires |time| == |clientChallenge| == 8 && Sizes(user, domain, workstation, targetInfo)
    requires user != [] && password != []
    requires server.authorize(Some(user), Normal(domain), Normal(workstation)) == Granted(Some(password))
    ensures var key := ResponseKey(user, password, domain);
            var temp := Temp(time, clientChallenge, targetInfo);
            var message := AuthMessage(user, domain, workstation, Response(key, server.challenge, temp));
            Authenticate(message, server) ==
            if |targetInfo| > 4 then Accepted(SessionKey(key, server.challenge, temp)) else Rejected
  {
    hide ReadText;
    hide AuthMessage;
    hide Temp;
    hide Proof;
    hide ResponseKey;
    hide LittleValue;
    hide CheckResponse;
    hide Response;
    var key := ResponseKey(user, password, domain);
    var temp := Temp(time, clientChallenge, targetInfo);
    var response := Response(key, server.challenge, temp);
    MessageReads(user, domain, workstation, response);
    KeyOfNormal(user, password, domain);
    ResponseChecks(AuthMessage(user, domain, workstation, response), server.challenge, key, temp);
  }

  lemma {:induction false} ResponseChecks(b: seq<byte>, challenge: seq<byte>, key: seq<byte>, temp: seq<byte>)
    requires |b| >= 64 && |temp| >= 1
    requires var f := GetField(b, 20);
             f.len == 16 + |temp| && 0 < f.off && f.off + f.len == |b| && b[f.off..] == Response(key, challenge, temp)
    ensures CheckResponse(b, challenge, key) == if |temp| > 36 then Accepted(SessionKey(key, challenge, temp)) else Rejected
  {
    hide Proof;
    hide SessionKey;
    hide LittleValue;
    var response := Response(key, challenge, temp);
    var off := GetField(b, 20).off;
    SliceOfSlice(b, off, |b|, 0, 16);
    SliceOfSlice(b, off, |b|, 16, |response|);
    assert b[off..|b|] == b[off..];
    assert response[0..16] == Proof(key, challenge, temp) && response[16..|response|] == temp;
  }

  // ---- writing offsets over zeros ---------------------------------------------------------------------

  lemma {:induction false} PatchField(p: seq<byte>, f: Field, q: seq<byte>, off: nat)
    ensures |p| + 8 <= |p + FieldOctets(f) + q|
    ensures Store(p + FieldOctets(f) + q, |p| + 4, Little(off, 4)) == p + FieldOctets(Field(f.len, off)) + q
  {
    hide Little;
    hide Store;
    StoreIs(p + FieldOctets(f) + q, |p| + 4, Little(off, 4));
  }

  /** A field of the header, and what is before and behind it. */
  lemma {:induction false} HeaderSplits(nt: Field, d: Field, u: Field, w: Field, flags: nat)
    ensures var h := Header(nt, d, u, w, flags);
            var start, end := SIGNATURE + Little(AUTHENTICATION_MESSAGE, 4) + Zeros(8), Zeros(8) + Little(flags, 4) + Zeros(8);
            && |start| == 20
            && h == start + FieldOctets(nt) + (FieldOctets(d) + FieldOctets(u) + FieldOctets(w) + end)
            && h == start + FieldOctets(nt) + FieldOctets(d) + (FieldOctets(u) + FieldOctets(w) + end)
            && h == start + FieldOctets(nt) + FieldOctets(d) + FieldOctets(u) + (FieldOctets(w) + end)
            && h == start + FieldOctets(nt) + FieldOctets(d) + FieldOctets(u) + FieldOctets(w) + end
  {
    hide FieldOctets;
    hide Little;
    hide Zeros;
  }

  lemma {:induction false} PatchHeader(nt: Field, d: Field, u: Field, w: Field, flags: nat, off: nat)
    ensures var h := Header(nt, d, u, w, flags);
            && Store(h, 24, Little(off, 4)) == Header(nt.(off := off), d, u, w, flags)
            && Store(h, 32, Little(off, 4)) == Header(nt, d.(off := off), u, w, flags)
            && Store(h, 40, Little(off, 4)) == Header(nt, d, u.(off := off), w, flags)
            && Store(h, 48, Little(off, 4)) == Header(nt, d, u, w.(off := off), flags)
  {
    hide FieldOctets;
    hide Little;
    hide Zeros;
    hide Store;
    hide Header;
    var start, end := SIGNATURE + Little(AUTHENTICATION_MESSAGE, 4) + Zeros(8), Zeros(8) + Little(flags, 4) + Zeros(8);
    HeaderSplits(nt, d, u, w, flags);
    HeaderSplits(nt.(off := off), d, u, w, flags);
    HeaderSplits(nt, d.(off := off), u, w, flags);
    HeaderSplits(nt, d, u.(off := off), w, flags);
    HeaderSplits(nt, d, u, w.(off := off), flags);
    PatchField(start, nt, FieldOctets(d) + FieldOctets(u) + FieldOctets(w) + end, off);
    PatchField(start + FieldOctets(nt), d, FieldOctets(u) + FieldOctets(w) + end, off);
    PatchField(start + FieldOctets(nt) + FieldOctets(d), u, FieldOctets(w) + end, off);
    PatchField(start + FieldOctets(nt) + FieldOctets(d) + FieldOctets(u), w, end, off);
  }

  lemma {:induction false} PatchInHead(h: seq<byte>, x: seq<byte>, o: nat, data: seq<byte>)
    requires o + |data| <= |h|
    ensures Store(h + x, o, data) == Store(h, o, data) + x
  {
    hide Store;
    StoreIs(h, o, data);
    StoreIs(h + x, o, data);
    assert (h + x)[o + |data|..] == h[o + |data|..] + x;
    assert (h + x)[..o] == h[..o];
  }

  /** A part of the payload is appended, its place written at `o` first. */
  function Placed(m: seq<byte>, o: nat, part: seq<byte>): seq<byte>
    requires o + 4 <= |m|
  {
    Store(m, o, Little(|m|, 4)) + part
  }

  lemma {:induction false} PlacedIs(h: seq<byte>, x: seq<byte>, o: nat, part: seq<byte>)
    requires o + 4 <= |h|
    ensures Placed(h + x, o, part) == Store(h, o, Little(|h + x|, 4)) + (x + part)
  {
    hide Store;
    PatchInHead(h, x, o, Little(|h + x|, 4));
    Assoc(Store(h, o, Little(|h + x|, 4)), x, part);
  }

  /** The order in which the client writes: lengths first, then each part behind its offset. */
  lemma {:induction false} WrittenInPlace(d: seq<byte>, u: seq<byte>, w: seq<byte>, r: seq<byte>)
    ensures var h := Header(Field(|r|, 0), Field(|d|, 0), Field(|u|, 0), Field(|w|, 0), FLAGS);
            var uOff := HEADER + |d|;
            var wOff := uOff + |u|;
            var rOff := wOff + |w|;
            Placed(Placed(Placed(Placed(h, 32, d), 40, u), 48, w), 24, r) ==
            Header(Field(|r|, rOff), Field(|d|, HEADER), Field(|u|, uOff), Field(|w|, wOff), FLAGS) + (d + (u + (w + r)))
  {
    hide Header;
    hide Placed;
    hide Store;
    hide Little;
    var rf, df, uf, wf := Field(|r|, 0), Field(|d|, 0), Field(|u|, 0), Field(|w|, 0);
    var uOff := HEADER + |d|;
    var wOff := uOff + |u|;
    var rOff := wOff + |w|;
    var h0 := Header(rf, df, uf, wf, FLAGS);
    EmptyUnit(h0);
    EmptyUnit(d);
    PlacedIs(h0, [], 32, d);
    PatchHeader(rf, df, uf, wf, FLAGS, HEADER);
    var h1 := Header(rf, Field(|d|, HEADER), uf, wf, FLAGS);
    PlacedIs(h1, d, 40, u);
    PatchHeader(rf, Field(|d|, HEADER), uf, wf, FLAGS, uOff);
    var h2 := Header(rf, Field(|d|, HEADER), Field(|u|, uOff), wf, FLAGS);
    PlacedIs(h2, d + u, 48, w);
    PatchHeader(rf, Field(|d|, HEADER), Field(|u|, uOff), wf, FLAGS, wOff);
    var h3 := Header(rf, Field(|d|, HEADER), Field(|u|, uOff), Field(|w|, wOff), FLAGS);
    PlacedIs(h3, d + u + w, 24, r);
    PatchHeader(rf, Field(|d|, HEADER), Field(|u|, uOff), Field(|w|, wOff), FLAGS, rOff);
    assert d + u + w + r == d + (u + (w + r));
  }
}
