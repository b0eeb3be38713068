/** When a name lookup is complete and in which order its addresses are tried (section 4 of RFC 8305).
    Times are real seconds. */
module NameResolution {
  import opened Bytes
  import opened Sequences
  import opened Slist

  const MAXIMUM_ADDRESSES: nat := 16

  datatype Family = V4 | V6 | Other

  datatype Answer = Address(host: string) | Withdrawn(host: string) | Negative | Ignored

  datatype Step = Wait(until: real) | Resolved(addresses: seq<string>) | Failed

  datatype State = State(
    deadline: real, grace: real, ipv4: seq<string>, ipv6: seq<string>, settled: set<Family>,
    first: Option<Family>, firstAt: Option<real>)

  function Min(a: real, b: real): real {
    if a <= b then a else b
  }

  function Start(start: real, timeout: real, limit: real, grace: real): State {
    State(start + Min(timeout, limit), grace, [], [], {}, None, None)
  }

  function Added(list: seq<string>, host: string): seq<string> {
    if host !in list && |list| < MAXIMUM_ADDRESSES then list + [host] else list
  }

  function Removed(list: seq<string>, host: string): seq<string> {
    if list == [] then [] else (if list[0] == host then [] else [list[0]]) + Removed(list[1..], host)
  }

  function Listed(s: State, family: Family): seq<string> {
    if family.V4? then s.ipv4 else if family.V6? then s.ipv6 else []
  }

  function WithList(s: State, family: Family, list: seq<string>): State {
    if family.V4? then s.(ipv4 := list) else if family.V6? then s.(ipv6 := list) else s
  }

  function Received(s: State, answer: Answer, family: Family, now: real): State {
    if family.Other? then s
    else
      match answer
      case Address(host) =>
        var t := WithList(s, family, Added(Listed(s, family), host)).(settled := s.settled + {family});
        if s.firstAt.None? then t.(first := Some(family), firstAt := Some(now)) else t
      case Withdrawn(host) => WithList(s, family, Removed(Listed(s, family), host))
      case Negative => s.(settled := s.settled + {family})
      case Ignored => s
  }

  function Ended(s: State, family: Family): State {
    s.(settled := s.settled + {family})
  }

  /** Turn about, and the rest of the longer list. */
  function Interleaved(a: seq<string>, b: seq<string>): seq<string>
    decreases |a| + |b|
  {
    if a == [] then b else if b == [] then a else [a[0], b[0]] + Interleaved(a[1..], b[1..])
  }

  /** The list of the family that answered first, and the other one. */
  function First(s: State): seq<string> {
    if s.first == Some(V6) then s.ipv6 else s.ipv4
  }

  function Second(s: State): seq<string> {
    if s.first == Some(V6) then s.ipv4 else s.ipv6
  }

  function Prefix(list: seq<string>): seq<string> {
    if |list| <= MAXIMUM_ADDRESSES then list else list[..MAXIMUM_ADDRESSES]
  }

  function Addresses(s: State): seq<string> {
    Prefix(Interleaved(First(s), Second(s)))
  }

  predicate Complete(s: State) {
    V4 in s.settled && V6 in s.settled
  }

  function Next(s: State, now: real): Step {
    var usable := Addresses(s);
    if Complete(s) || now >= s.deadline then (if usable == [] then Failed else Resolved(usable))
    else if s.firstAt.None? || usable == [] then Wait(s.deadline)
    else
      var graceEnd := s.firstAt.value + s.grace;
      if now >= graceEnd then Resolved(usable) else Wait(Min(graceEnd, s.deadline))
  }

  // ---- the order of the addresses ------------------------------------------------------------------------

  lemma {:induction false} InterleavedLength(a: seq<string>, b: seq<string>)
    ensures |Interleaved(a, b)| == |a| + |b|
    decreases |a| + |b|
  {
    if a != [] && b != [] {
      InterleavedLength(a[1..], b[1..]);
    }
  }

  /** How many of the first `n` addresses come from the list that goes first. */
  function Share(n: nat, a: nat, b: nat): (k: nat)
    requires n <= a + b
    ensures k <= n && k <= a && n - k <= b
  {
    if (n + 1) / 2 <= a && n / 2 <= b then (n + 1) / 2 else if (n + 1) / 2 > a then a else n - b
  }

  /** Every prefix of the order interleaves prefixes of the two lists, which differ by at most one address
      while both lists last. */
  lemma {:induction false} PrefixAlternates(a: seq<string>, b: seq<string>, n: nat)
    requires n <= |a| + |b|
    ensures |Interleaved(a, b)| == |a| + |b|
    ensures var k := Share(n, |a|, |b|);
            Interleaved(a, b)[..n] == Interleaved(a[..k], b[..n - k]) &&
            (k == n - k || k == n - k + 1 || k == |a| || n - k == |b|)
    decreases |a| + |b|
  {
    InterleavedLength(a, b);
    var k := Share(n, |a|, |b|);
    if a == [] {
      assert a[..0] == [] && b[..n - 0] == b[..n];
    } else if b == [] {
      assert b[..0] == [] && a[..n] == Interleaved(a[..n], b[..0]);
    } else if n == 0 {
      assert Interleaved(a[..0], b[..0]) == [];
    } else if n == 1 {
      assert Interleaved(a[..1], b[..0]) == [a[0]];
      assert Interleaved(a, b)[..1] == [a[0]];
    } else {
      PrefixAlternates(a[1..], b[1..], n - 2);
      NextTurn(a, b, n);
    }
  }

  lemma {:induction false} NextTurn(a: seq<string>, b: seq<string>, n: nat)
    requires a != [] && b != [] && 2 <= n <= |a| + |b|
    requires |Interleaved(a[1..], b[1..])| == |a| + |b| - 2 && |Interleaved(a, b)| == |a| + |b|
    requires var k := Share(n - 2, |a| - 1, |b| - 1);
             Interleaved(a[1..], b[1..])[..n - 2] == Interleaved(a[1..][..k], b[1..][..n - 2 - k]) &&
             (k == n - 2 - k || k == n - 2 - k + 1 || k == |a| - 1 || n - 2 - k == |b| - 1)
    ensures var k := Share(n, |a|, |b|);
            Interleaved(a, b)[..n] == Interleaved(a[..k], b[..n - k]) &&
            (k == n - k || k == n - k + 1 || k == |a| || n - k == |b|)
  {
    var r, k := Interleaved(a[1..], b[1..]), Share(n, |a|, |b|);
    ShareNext(n, |a|, |b|);
    Turn(a, b, k, n - k);
    assert Interleaved(a, b) == [a[0], b[0]] + r;
    hide Interleaved;
    hide Share;
    assert ([a[0], b[0]] + r)[..n] == [a[0], b[0]] + r[..n - 2];
  }

  lemma {:induction false} Turn(a: seq<string>, b: seq<string>, i: nat, j: nat)
    requires 0 < i <= |a| && 0 < j <= |b|
    ensures Interleaved(a[..i], b[..j]) == [a[0], b[0]] + Interleaved(a[1..][..i - 1], b[1..][..j - 1])
  {
    assert a[..i][1..] == a[1..][..i - 1] && b[..j][1..] == b[1..][..j - 1];
  }

  lemma {:induction false} ShareNext(n: nat, a: nat, b: nat)
    requires 2 <= n <= a + b && a > 0 && b > 0
    ensures Share(n, a, b) == 1 + Share(n - 2, a - 1, b - 1) && 0 < n - Share(n, a, b)
  {
  }

  lemma {:induction false} InterleavedBoth(a: seq<string>, b: seq<string>, x: string, y: string)
    requires |a| == |b|
    ensures Interleaved(a + [x], b + [y]) == Interleaved(a, b) + [x, y]
    decreases |a|
  {
    if a == [] {
      assert Interleaved([x], [y]) == [x, y] + Interleaved([x][1..], [y][1..]);
      assert [] + [x] == [x] && [] + [y] == [y];
    } else {
      InterleavedBoth(a[1..], b[1..], x, y);
      assert (a + [x])[1..] == a[1..] + [x] && (b + [y])[1..] == b[1..] + [y];
    }
  }

  lemma {:induction false} InterleavedLonger(a: seq<string>, b: seq<string>, x: string)
    ensures |a| >= |b| ==> Interleaved(a + [x], b) == Interleaved(a, b) + [x]
    ensures |b| >= |a| ==> Interleaved(a, b + [x]) == Interleaved(a, b) + [x]
    decreases |a| + |b|
  {
    if a != [] && b != [] {
      InterleavedLonger(a[1..], b[1..], x);
      assert (a + [x])[1..] == a[1..] + [x] && (b + [x])[1..] == b[1..] + [x];
    } else {
      EmptyUnit(a + [x]);
      EmptyUnit(b + [x]);
    }
  }

  // ---- runs ------------------------------------------------------------------------------------------------

  datatype Event = Reply(family: Family, answer: Answer, at: real) | Gone(family: Family)

  function Applied(s: State, e: Event): State {
    match e
    case Reply(family, answer, at) => Received(s, answer, family, at)
    case Gone(family) => Ended(s, family)
  }

  function After(s: State, events: seq<Event>): State {
    if events == [] then s else Applied(After(s, events[..|events| - 1]), events[|events| - 1])
  }

  lemma {:induction false} AfterJoined(s: State, a: seq<Event>, b: seq<Event>)
    ensures After(s, a + b) == After(After(s, a), b)
  {
    hide Applied;
    if b == [] {
      EmptyUnit(a);
    } else {
      var k := |b| - 1;
      assert (a + b)[..|a + b| - 1] == a + b[..k];
      AfterJoined(s, a, b[..k]);
    }
  }

  predicate GoodList(list: seq<string>) {
    Distinct(list) && |list| <= MAXIMUM_ADDRESSES
  }

  /** The lists are free of duplicates and short, and empty until a first address has come. */
  predicate Good(s: State) {
    GoodList(s.ipv4) && GoodList(s.ipv6) && (s.first.None? <==> s.firstAt.None?) &&
    (s.firstAt.None? ==> s.ipv4 == [] && s.ipv6 == [])
  }

  lemma {:induction false} AddedGood(list: seq<string>, host: string)
    requires GoodList(list)
    ensures GoodList(Added(list, host))
  {
    if host !in list {
      DistinctAll(list);
      DistinctIf(list + [host]);
    }
  }

  lemma {:induction false} RemovedIs(list: seq<string>, host: string)
    ensures |Removed(list, host)| <= |list| && (Distinct(list) ==> Distinct(Removed(list, host)))
    ensures forall x :: x in Removed(list, host) <==> x in list && x != host
  {
    if list != [] {
      RemovedIs(list[1..], host);
      var r := Removed(list[1..], host);
      if list[0] != host {
        assert ([list[0]] + r)[1..] == r;
      } else {
        assert Removed(list, host) == r;
      }
      assert list == [list[0]] + list[1..];
    }
  }

  lemma {:induction false} NoneGood()
    ensures GoodList([])
  {
  }

  lemma {:induction false} RemovedGood(list: seq<string>, host: string)
    requires GoodList(list)
    ensures GoodList(Removed(list, host))
  {
    RemovedIs(list, host);
  }

  lemma {:induction false} AppliedGood(s: State, e: Event)
    requires Good(s)
    ensures Good(Applied(s, e))
  {
    hide GoodList;
    match e
    case Gone(_) =>
    case Reply(family, answer, at) =>
      var list := Listed(s, family);
      NoneGood();
      match answer
      case Address(host) => AddedGood(list, host);
      case Withdrawn(host) =>
        RemovedIs(list, host);
        RemovedGood(list, host);
      case _ =>
  }

  lemma {:induction false} RunGood(s: State, events: seq<Event>)
    requires Good(s)
    ensures Good(After(s, events))
  {
    hide Good;
    hide Applied;
    if events != [] {
      RunGood(s, events[..|events| - 1]);
      AppliedGood(After(s, events[..|events| - 1]), events[|events| - 1]);
    }
  }

  /** The deadline and the grace end are fixed; the latter as soon as there is one. */
  lemma {:induction false} EndsFixed(s: State, events: seq<Event>)
    ensures var t := After(s, events);
            t.deadline == s.deadline && t.grace == s.grace && s.settled <= t.settled &&
            (s.firstAt.Some? ==> t.firstAt == s.firstAt && t.first == s.first)
  {
    if events != [] {
      EndsFixed(s, events[..|events| - 1]);
      hide Added;
      hide Removed;
    }
  }

  /** The time of the first address of a run. */
  function FirstAddress(events: seq<Event>): Option<real> {
    if events == [] then None
    else
      var before, e := FirstAddress(events[..|events| - 1]), events[|events| - 1];
      if before.Some? then before
      else if e.Reply? && !e.family.Other? && e.answer.Address? then Some(e.at)
      else None
  }

  lemma {:induction false} FirstAtIs(s: State, events: seq<Event>)
    requires s.firstAt.None?
    ensures After(s, events).firstAt == FirstAddress(events)
  {
    if events != [] {
      FirstAtIs(s, events[..|events| - 1]);
      hide Added;
      hide Removed;
    }
  }

  // ---- decisions -------------------------------------------------------------------------------------------

  /** A wait ends later than now and not later than the deadline, and only while the answer can still get
      better. */
  lemma {:induction false} WaitIsShort(s: State, now: real)
    requires Next(s, now).Wait?
    ensures now < Next(s, now).until <= s.deadline && !Complete(s)
  {
  }

  /** Whatever has come, there is a decision from the deadline on, and a grace after the first address. */
  lemma {:induction false} DecidedInTime(start: real, timeout: real, limit: real, grace: real, events: seq<Event>, now: real)
    ensures var s := After(Start(start, timeout, limit, grace), events);
            (now >= start + Min(timeout, limit) || Complete(s) ==> !Next(s, now).Wait?) &&
            (FirstAddress(events).Some? && now >= FirstAddress(events).value + grace && Addresses(s) != [] ==>
              Next(s, now) == Resolved(Addresses(s)))
  {
    hide Addresses;
    EndsFixed(Start(start, timeout, limit, grace), events);
    FirstAtIs(Start(start, timeout, limit, grace), events);
  }

  /** The family has answered with an address or with none, or its query has ended. */
  function Answered(events: seq<Event>, family: Family): bool {
    if events == [] then false
    else
      var e := events[|events| - 1];
      Answered(events[..|events| - 1], family) ||
      (e.family == family && (e.Gone? || e.answer.Address? || e.answer.Negative?))
  }

  lemma {:induction false} SettledIff(s: State, events: seq<Event>, family: Family)
    requires s.settled == {} && !family.Other?
    ensures family in After(s, events).settled <==> Answered(events, family)
  {
    if events != [] {
      SettledIff(s, events[..|events| - 1], family);
      hide Added;
      hide Removed;
    }
  }

  /** A lookup waits if and only if a family has not answered, the deadline is not reached, and there is no
      address yet or the grace after the first one is not over. Otherwise it is resolved if and only if there is
      an address. */
  lemma {:induction false} WaitsIff(start: real, timeout: real, limit: real, grace: real, events: seq<Event>, now: real)
    ensures var s := After(Start(start, timeout, limit, grace), events);
            var step, first, usable := Next(s, now), FirstAddress(events), s.ipv4 != [] || s.ipv6 != [];
            (step.Wait? <==>
              !(Answered(events, V4) && Answered(events, V6)) && now < start + Min(timeout, limit) &&
              (first.Some? && usable ==> now < first.value + grace)) &&
            (!step.Wait? ==> if usable then step.Resolved? else step.Failed?)
  {
    var s0 := Start(start, timeout, limit, grace);
    var s := After(s0, events);
    hide After;
    hide Interleaved;
    EndsFixed(s0, events);
    FirstAtIs(s0, events);
    SettledIff(s0, events, V4);
    SettledIff(s0, events, V6);
    InterleavedLength(First(s), Second(s));
  }

  /** The end of the wait does not move while there are addresses: it is the same after more events. */
  lemma {:induction false} WaitStays(s: State, a: seq<Event>, b: seq<Event>, now: real, later: real)
    requires var t, u := After(s, a), After(s, a + b);
             Next(t, now).Wait? && Next(u, later).Wait? && Addresses(t) != [] && Addresses(u) != [] && t.firstAt.Some?
    ensures Next(After(s, a), now).until == Next(After(s, a + b), later).until
  {
    hide Addresses;
    AfterJoined(s, a, b);
    EndsFixed(After(s, a), b);
  }

  /** A resolved lookup has at least one address and at most 16: first parts of the two lists, each without
      duplicates, turn about, starting with the family that answered first. */
  lemma {:induction false} ResolvedShape(s: State, now: real)
    requires Good(s) && Next(s, now).Resolved?
    ensures var r, a, b := Next(s, now).addresses, First(s), Second(s);
            var n := |r|;
            0 < n <= MAXIMUM_ADDRESSES && n <= |a| + |b| && Distinct(a) && Distinct(b) &&
            var k := Share(n, |a|, |b|);
            r == Interleaved(a[..k], b[..n - k]) && (k == n - k || k == n - k + 1 || k == |a| || n - k == |b|) &&
            (n < MAXIMUM_ADDRESSES ==> n == |a| + |b|)
  {
    var r, a, b := Next(s, now).addresses, First(s), Second(s);
    InterleavedLength(a, b);
    PrefixAlternates(a, b, |r|);
    hide Interleaved;
    assert Interleaved(a, b)[..|Interleaved(a, b)|] == Interleaved(a, b);
  }

  /** The family of the first address of a run. */
  function FirstFamily(events: seq<Event>): Option<Family> {
    if events == [] then None
    else
      var e := events[0];
      if e.Reply? && e.answer.Address? && !e.family.Other? then Some(e.family) else FirstFamily(events[1..])
  }

  lemma {:induction false} FirstFamilyPush(events: seq<Event>, e: Event)
    ensures FirstFamily(events + [e]) == if FirstFamily(events).Some? then FirstFamily(events) else FirstFamily([e])
  {
    if events == [] {
      EmptyUnit([e]);
    } else {
      TailOfJoined(events, [e]);
      FirstFamilyPush(events[1..], e);
    }
  }

  lemma {:induction false} FirstIs(s: State, events: seq<Event>)
    requires s.first.None? && s.firstAt.None?
    ensures After(s, events).first == FirstFamily(events) && (After(s, events).firstAt.None? <==> FirstFamily(events).None?)
  {
    if events != [] {
      var before, e := events[..|events| - 1], events[|events| - 1];
      FirstIs(s, before);
      FirstFamilyPush(before, e);
      assert before + [e] == events && [e][1..] == [];
      hide Added;
      hide Removed;
    }
  }

  /** Whose turn it is at place `i`: each list in turn while both last, and then the longer one. */
  function Placed(a: seq<string>, b: seq<string>, i: nat): string
    requires i < |a| + |b|
  {
    var both := if |a| <= |b| then |a| else |b|;
    if i < 2 * both then (if i % 2 == 0 then a[i / 2] else b[i / 2])
    else if |a| > |b| then a[i - both] else b[i - both]
  }

  lemma {:induction false} InterleavedAt(a: seq<string>, b: seq<string>, i: nat)
    requires i < |a| + |b|
    ensures |Interleaved(a, b)| == |a| + |b| && Interleaved(a, b)[i] == Placed(a, b, i)
    decreases |a| + |b|
  {
    InterleavedLength(a, b);
    if a != [] && b != [] && i >= 2 {
      InterleavedAt(a[1..], b[1..], i - 2);
    }
  }

  /** What a resolved lookup lists, place by place: the addresses of the family whose address came first and
      those of the other one in turn, beginning with the former, and cut to sixteen. */
  lemma {:induction false} ResolvedOrder(start: real, timeout: real, limit: real, grace: real, events: seq<Event>, now: real, i: nat)
    requires var step := Next(After(Start(start, timeout, limit, grace), events), now);
             step.Resolved? && i < |step.addresses|
    ensures var s := After(Start(start, timeout, limit, grace), events);
            var r, f := Next(s, now).addresses, FirstFamily(events);
            (f == Some(V4) || f == Some(V6)) &&
            var a, b := Listed(s, f.value), Listed(s, if f.value.V4? then V6 else V4);
            && |r| == (if |a| + |b| < MAXIMUM_ADDRESSES then |a| + |b| else MAXIMUM_ADDRESSES)
            && r[i] == Placed(a, b, i)
  {
    hide After;
    hide Interleaved;
    hide Placed;
    var s0 := Start(start, timeout, limit, grace);
    var s := After(s0, events);
    FirstIs(s0, events);
    NoneGood();
    RunGood(s0, events);
    FamilyIs(events);
    InterleavedLength(First(s), Second(s));
    InterleavedAt(First(s), Second(s), i);
    assert s.ipv4 != [] || s.ipv6 != [];
    assert FirstFamily(events).Some?;
    match FirstFamily(events).value
    case V4 =>
    case V6 =>
    case Other => assert false;
  }

  lemma {:induction false} FamilyIs(events: seq<Event>)
    ensures FirstFamily(events) != Some(Other)
  {
    if events != [] {
      FamilyIs(events[1..]);
    }
  }

  // ---- which addresses ---------------------------------------------------------------------------------------

  /** The last word about a host: whether it was reported or withdrawn. */
  function LastWord(events: seq<Event>, family: Family, host: string): Option<bool> {
    if events == [] then None
    else
      var e := events[|events| - 1];
      if e.Reply? && e.family == family && e.answer == Address(host) then Some(true)
      else if e.Reply? && e.family == family && e.answer == Withdrawn(host) then Some(false)
      else LastWord(events[..|events| - 1], family, host)
  }

  /** Every host ever reported for the family. */
  function Hosts(events: seq<Event>, family: Family): set<string> {
    if events == [] then {}
    else
      var e := events[|events| - 1];
      Hosts(events[..|events| - 1], family) +
      if e.Reply? && e.family == family && e.answer.Address? then {e.answer.host} else {}
  }

  lemma {:induction false} AddedHas(list: seq<string>, host: string)
    ensures forall x :: x in Added(list, host) ==> x in list || x == host
    ensures forall x :: x in list ==> x in Added(list, host)
    ensures |list| < MAXIMUM_ADDRESSES ==> host in Added(list, host)
  {
  }

  lemma {:induction false} ListedHosts(s: State, events: seq<Event>, family: Family)
    requires s.ipv4 == [] && s.ipv6 == []
    ensures forall x :: x in Listed(After(s, events), family) ==> x in Hosts(events, family)
  {
    if events != [] {
      var e, before := events[|events| - 1], events[..|events| - 1];
      ListedHosts(s, before, family);
      if e.Reply? {
        match e.answer
        case Address(host) => AddedHas(Listed(After(s, before), e.family), host);
        case Withdrawn(host) => RemovedIs(Listed(After(s, before), e.family), host);
        case _ =>
      }
      hide Added;
      hide Removed;
    }
  }

  function Changed(list: seq<string>, answer: Answer): seq<string> {
    match answer
    case Address(host) => Added(list, host)
    case Withdrawn(host) => Removed(list, host)
    case _ => list
  }

  lemma {:induction false} AppliedListed(s: State, e: Event, family: Family)
    requires !family.Other?
    ensures Listed(Applied(s, e), family) ==
            if e.Reply? && e.family == family then Changed(Listed(s, family), e.answer) else Listed(s, family)
  {
    hide Added;
    hide Removed;
  }

  lemma {:induction false} ChangedHas(list: seq<string>, answer: Answer, host: string)
    ensures answer != Address(host) && answer != Withdrawn(host) ==> (host in Changed(list, answer) <==> host in list)
    ensures answer == Withdrawn(host) ==> host !in Changed(list, answer)
    ensures answer == Address(host) && (host in list || |list| < MAXIMUM_ADDRESSES) ==> host in Changed(list, answer)
  {
    match answer
    case Address(h) => AddedHas(list, h);
    case Withdrawn(h) => RemovedIs(list, h);
    case _ =>
  }

  /** A new host is listed last, a host that is listed already stays where it is, and one that is withdrawn is
      taken out from among the others, which keep their order. Nothing else touches a list. */
  lemma {:induction false} ListKeepsOrder(s: State, family: Family, host: string, at: real)
    requires Good(s) && !family.Other?
    ensures var list, more := Listed(s, family), Listed(Received(s, Address(host), family, at), family);
            more == if host in list || |list| == MAXIMUM_ADDRESSES then list else list + [host]
    ensures var list, fewer := Listed(s, family), Listed(Received(s, Withdrawn(host), family, at), family);
            if host in list then exists k :: 0 <= k < |list| && list[k] == host && fewer == list[..k] + list[k + 1..] else fewer == list
  {
    hide Removed;
    RemovedAt(Listed(s, family), host);
  }

  lemma {:induction false} RemovedAt(list: seq<string>, host: string)
    requires Distinct(list)
    ensures if host in list then exists k :: 0 <= k < |list| && list[k] == host && Removed(list, host) == list[..k] + list[k + 1..]
            else Removed(list, host) == list
  {
    if list != [] {
      RemovedAt(list[1..], host);
      if list[0] == host {
        assert Removed(list, host) == Removed(list[1..], host) == list[1..];
        assert list[..0] + list[1..] == list[1..];
      } else if host in list[1..] {
        var k :| 0 <= k < |list[1..]| && list[1..][k] == host && Removed(list[1..], host) == list[1..][..k] + list[1..][k + 1..];
        assert list[..k + 1] + list[k + 2..] == [list[0]] + (list[1..][..k] + list[1..][k + 1..]);
        assert list[k + 1] == host;
      }
    }
  }

  /** A listed host was reported and has not been withdrawn since; and such a host is listed, unless more
      than 16 hosts have been reported for its family. */
  lemma {:induction false} ListedIsLastWord(start: State, events: seq<Event>, family: Family, host: string)
    requires start.ipv4 == [] && start.ipv6 == [] && Good(start) && !family.Other?
    ensures host in Listed(After(start, events), family) ==> LastWord(events, family, host) == Some(true)
    ensures |Hosts(events, family)| <= MAXIMUM_ADDRESSES && LastWord(events, family, host) == Some(true) ==>
              host in Listed(After(start, events), family)
  {
    if events != [] {
      hide Applied;
      hide Changed;
      var e, before := events[|events| - 1], events[..|events| - 1];
      var s := After(start, before);
      AppliedListed(s, e, family);
      ListedIsLastWord(start, before, family, host);
      Fewer(Hosts(before, family), Hosts(events, family));
      if e.Reply? && e.family == family {
        ChangedHas(Listed(s, family), e.answer, host);
        if |Hosts(events, family)| <= MAXIMUM_ADDRESSES && e.answer == Address(host) && host !in Listed(s, family) {
          RoomFor(start, before, family, host, Hosts(events, family));
        }
      }
    }
  }

  lemma {:induction false} RoomFor(start: State, events: seq<Event>, family: Family, host: string, hosts: set<string>)
    requires start.ipv4 == [] && start.ipv6 == [] && Good(start) && !family.Other?
    requires Hosts(events, family) <= hosts && host in hosts && |hosts| <= MAXIMUM_ADDRESSES
    requires host !in Listed(After(start, events), family)
    ensures |Listed(After(start, events), family)| < MAXIMUM_ADDRESSES
  {
    RunGood(start, events);
    ListedHosts(start, events, family);
    hide After;
    RoomLeft(Listed(After(start, events), family), host, hosts);
  }

  lemma {:induction false} Fewer(a: set<string>, b: set<string>)
    requires a <= b
    ensures |a| <= |b|
  {
    assert b == a + (b - a);
  }

  /** A list of distinct hosts of which one is missing is shorter than their set. */
  lemma {:induction false} RoomLeft(list: seq<string>, host: string, hosts: set<string>)
    requires Distinct(list) && host !in list && host in hosts && forall x :: x in list ==> x in hosts
    ensures |list| < |hosts|
  {
    if list != [] {
      RoomLeft(list[1..], host, hosts - {list[0]});
    }
  }
}
