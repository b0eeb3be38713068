/** The struct of SMBNameResolution.swift and the loop around it. */
module Resolve {
  import opened Bytes
  import opened Sequences
  import opened NameResolution
  import Slist

  class SMBNameResolution {
    const deadline: real
    const grace: real
    var ipv4: seq<string>
    var ipv6: seq<string>
    var settled: set<Family>
    var firstFamily: Option<Family>
    var firstAddressAt: Option<real>

    ghost function View(): State
      reads this
    {
      State(deadline, grace, ipv4, ipv6, settled, firstFamily, firstAddressAt)
    }

    constructor (start: real, timeout: real, limit: real, grace: real)
      ensures View() == Start(start, timeout, limit, grace)
    {
      deadline := start + Min(timeout, limit);
      this.grace := grace;
      ipv4, ipv6, settled, firstFamily, firstAddressAt := [], [], {}, None, None;
    }

    /** The lists in turn, index by index. */
    method Addresses() returns (result: seq<string>)
      ensures result == NameResolution.Addresses(View())
    {
      var first, second := ipv4, ipv6;
      if firstFamily == Some(V6) {
        first, second := ipv6, ipv4;
      }
      result := [];
      var n := if |first| >= |second| then |first| else |second|;
      assert Upto(first, 0) == [] && Upto(second, 0) == [];
      for index := 0 to n
        invariant result == Interleaved(Upto(first, index), Upto(second, index))
      {
        Grown(first, second, index);
        if index < |first| {
          result := result + [first[index]];
        }
        if index < |second| {
          result := result + [second[index]];
        }
      }
      assert Upto(first, n) == first && Upto(second, n) == second;
      if |result| > MAXIMUM_ADDRESSES {
        result := result[..MAXIMUM_ADDRESSES];
      }
    }

    method Receive(answer: Answer, family: Family, now: real)
      modifies this
      ensures View() == Received(old(View()), answer, family, now)
    {
      if family != V4 && family != V6 {
        return;
      }
      match answer
      case Address(host) =>
        settled := settled + {family};
        if family == V4 {
          ipv4 := Added(ipv4, host);
        } else {
          ipv6 := Added(ipv6, host);
        }
        if firstAddressAt == None {
          firstAddressAt := Some(now);
          firstFamily := Some(family);
        }
      case Withdrawn(host) =>
        if family == V4 {
          ipv4 := Removed(ipv4, host);
        } else {
          ipv6 := Removed(ipv6, host);
        }
      case Negative => settled := settled + {family};
      case Ignored =>
    }

    method End(family: Family)
      modifies this
      ensures View() == Ended(old(View()), family)
    {
      settled := settled + {family};
    }

    method Next(now: real) returns (step: Step)
      ensures step == NameResolution.Next(View(), now)
    {
      hide NameResolution.Addresses;
      var usable := Addresses();
      var complete := V4 in settled && V6 in settled;
      if complete || now >= deadline {
        return if usable == [] then Failed else Resolved(usable);
      }
      if firstAddressAt == None || usable == [] {
        return Wait(deadline);
      }
      var graceEnd := firstAddressAt.value + grace;
      if now >= graceEnd {
        step := Resolved(usable);
      } else {
        step := Wait(Min(graceEnd, deadline));
      }
    }
  }

  function Upto(list: seq<string>, n: nat): seq<string> {
    if n <= |list| then list[..n] else list
  }

  lemma {:induction false} Grown(a: seq<string>, b: seq<string>, i: nat)
    ensures Interleaved(Upto(a, i + 1), Upto(b, i + 1)) ==
            Interleaved(Upto(a, i), Upto(b, i)) + (if i < |a| then [a[i]] else []) + (if i < |b| then [b[i]] else [])
  {
    var x, y := Upto(a, i), Upto(b, i);
    assert a[..|a|] == a && b[..|b|] == b;
    EmptyUnit(Interleaved(x, y));
    if i < |a| {
      assert Upto(a, i + 1) == x + [a[i]];
      if i < |b| {
        assert Upto(b, i + 1) == y + [b[i]];
        InterleavedBoth(x, y, a[i], b[i]);
      } else {
        InterleavedLonger(x, y, a[i]);
        EmptyUnit(Interleaved(x, y) + [a[i]]);
      }
    } else if i < |b| {
      assert Upto(b, i + 1) == y + [b[i]];
      InterleavedLonger(x, y, b[i]);
    }
  }

  // ---- the loop ------------------------------------------------------------------------------------------------

  /** What poll finds at one query: nothing, a query that has failed, or answers with the time of each. */
  datatype Reading = Quiet | Dead | Batch(answers: seq<(Answer, real)>)

  datatype Poll = Broken | Ready(v6: Reading, v4: Reading)

  /** What one turn of the loop learns from outside. */
  datatype Round = Round(cancelled: bool, now: real, poll: Poll)

  datatype Outcome = Found(addresses: seq<string>) | NoHost | Cancelled | StillWaiting

  /** The time to sleep, in whole milliseconds. */
  function Milliseconds(now: real, until: real): (ms: int)
    ensures 1 <= ms <= 50
    ensures now < until ==> ms as real < (until - now) * 1000.0 + 1.0
  {
    var up := -((-((until - now) * 1000.0)).Floor);
    if up < 1 then 1 else if up > 50 then 50 else up
  }

  function Replies(family: Family, answers: seq<(Answer, real)>): seq<Event> {
    if answers == [] then []
    else Replies(family, answers[..|answers| - 1]) + [Reply(family, answers[|answers| - 1].0, answers[|answers| - 1].1)]
  }

  function Reads(family: Family, r: Reading): seq<Event> {
    if r.Batch? then Replies(family, r.answers) else []
  }

  function Ends(family: Family, r: Reading): seq<Event> {
    if r.Dead? then [Gone(family)] else []
  }

  /** What a turn tells the resolution: the answers, IPv6 first, and then the queries that have failed; an
      unusable poll ends every query that is left. */
  function Told(queries: seq<Family>, poll: Poll): seq<Event> {
    if poll.Broken? then AllGone(queries)
    else
      (if V6 in queries then Reads(V6, poll.v6) else []) + (if V4 in queries then Reads(V4, poll.v4) else []) +
      (if V6 in queries then Ends(V6, poll.v6) else []) + (if V4 in queries then Ends(V4, poll.v4) else [])
  }

  function AllGone(queries: seq<Family>): seq<Event> {
    if queries == [] then [] else AllGone(queries[..|queries| - 1]) + [Gone(queries[|queries| - 1])]
  }

  function Left(queries: seq<Family>, poll: Poll): seq<Family> {
    if poll.Broken? then []
    else
      (if V6 in queries && !poll.v6.Dead? then [V6] else []) + (if V4 in queries && !poll.v4.Dead? then [V4] else [])
  }

  lemma {:induction false} AfterOne(s: State, events: seq<Event>, e: Event)
    ensures After(s, events + [e]) == Applied(After(s, events), e)
  {
    assert (events + [e])[..|events + [e]| - 1] == events;
  }

  lemma {:induction false} AfterNone(s: State)
    ensures After(s, []) == s
  {
  }

  /** One query's answers, in the order in which they are read. */
  method ReadBatch(resolution: SMBNameResolution, family: Family, answers: seq<(Answer, real)>)
    modifies resolution
    ensures resolution.View() == After(old(resolution.View()), Replies(family, answers))
  {
    hide Received;
    AfterNone(resolution.View());
    assert answers[..0] == [];
    for i := 0 to |answers|
      invariant resolution.View() == After(old(resolution.View()), Replies(family, answers[..i]))
    {
      var (answer, at) := answers[i];
      assert answers[..i + 1][..i] == answers[..i];
      AfterOne(old(resolution.View()), Replies(family, answers[..i]), Reply(family, answer, at));
      resolution.Receive(answer, family, at);
    }
    assert answers[..|answers|] == answers;
  }

  method EndAll(resolution: SMBNameResolution, queries: seq<Family>)
    modifies resolution
    ensures resolution.View() == After(old(resolution.View()), AllGone(queries))
  {
    AfterNone(resolution.View());
    assert queries[..0] == [];
    for i := 0 to |queries|
      invariant resolution.View() == After(old(resolution.View()), AllGone(queries[..i]))
    {
      assert queries[..i + 1][..i] == queries[..i];
      AfterOne(old(resolution.View()), AllGone(queries[..i]), Gone(queries[i]));
      resolution.End(queries[i]);
    }
    assert queries[..|queries|] == queries;
  }

  method ReadOne(resolution: SMBNameResolution, family: Family, live: bool, reading: Reading) returns (failed: bool)
    modifies resolution
    ensures failed == (live && reading.Dead?)
    ensures resolution.View() == After(old(resolution.View()), if live then Reads(family, reading) else [])
  {
    failed := false;
    AfterNone(resolution.View());
    if live {
      match reading
      case Quiet =>
      case Dead => failed := true;
      case Batch(answers) => ReadBatch(resolution, family, answers);
    }
  }

  method EndOne(resolution: SMBNameResolution, family: Family, failed: bool)
    modifies resolution
    ensures resolution.View() == After(old(resolution.View()), if failed then [Gone(family)] else [])
  {
    AfterNone(resolution.View());
    AfterOne(resolution.View(), [], Gone(family));
    assert [] + [Gone(family)] == [Gone(family)];
    if failed {
      resolution.End(family);
    }
  }

  /** One turn, after poll. */
  method Turn(resolution: SMBNameResolution, queries: seq<Family>, poll: Poll) returns (left: seq<Family>)
    modifies resolution
    ensures resolution.View() == After(old(resolution.View()), Told(queries, poll))
    ensures left == Left(queries, poll)
  {
    hide After;
    if poll.Broken? {
      EndAll(resolution, queries);
      return [];
    }
    ghost var s := resolution.View();
    var failed6 := ReadOne(resolution, V6, V6 in queries, poll.v6);
    ghost var a := if V6 in queries then Reads(V6, poll.v6) else [];
    var failed4 := ReadOne(resolution, V4, V4 in queries, poll.v4);
    ghost var b := if V4 in queries then Reads(V4, poll.v4) else [];
    AfterJoined(s, a, b);
    EndOne(resolution, V6, failed6);
    ghost var c := if V6 in queries then Ends(V6, poll.v6) else [];
    AfterJoined(s, a + b, c);
    EndOne(resolution, V4, failed4);
    ghost var d := if V4 in queries then Ends(V4, poll.v4) else [];
    AfterJoined(s, a + b + c, d);
    left := (if V6 in queries && !failed6 then [V6] else []) + (if V4 in queries && !failed4 then [V4] else []);
  }

  /** The queries that are left, and everything the resolution is told, after some turns. */
  function Queries(rounds: seq<Round>): seq<Family> {
    if rounds == [] then [V6, V4] else Left(Queries(rounds[..|rounds| - 1]), rounds[|rounds| - 1].poll)
  }

  function History(rounds: seq<Round>): seq<Event> {
    if rounds == [] then []
    else
      var before := rounds[..|rounds| - 1];
      History(before) + Told(Queries(before), rounds[|rounds| - 1].poll)
  }

  /** The resolution before turn `i`. */
  function Before(start: State, rounds: seq<Round>, i: nat): State
    requires i <= |rounds|
  {
    After(start, History(rounds[..i]))
  }

  predicate Waits(start: State, rounds: seq<Round>, i: nat)
    requires i < |rounds|
  {
    !rounds[i].cancelled && Next(Before(start, rounds, i), rounds[i].now).Wait?
  }

  /** No turn waits at or after the deadline, whatever has been answered. */
  lemma {:induction false} NoWaitAtDeadline(start: real, timeout: real, limit: real, grace: real, rounds: seq<Round>, i: nat)
    requires i < |rounds| && rounds[i].now >= start + Min(timeout, limit)
    ensures !Waits(Start(start, timeout, limit, grace), rounds, i)
  {
    hide Next;
    hide After;
    DecidedInTime(start, timeout, limit, grace, History(rounds[..i]), rounds[i].now);
  }

  /** A family without a query has been settled. */
  predicate Covered(queries: seq<Family>, settled: set<Family>) {
    (V6 in queries || V6 in settled) && (V4 in queries || V4 in settled)
  }

  lemma {:induction false} GoneSettles(s: State, events: seq<Event>, family: Family)
    requires Gone(family) in events
    ensures family in After(s, events).settled
  {
    var before, e := events[..|events| - 1], events[|events| - 1];
    assert events == before + [e];
    if e == Gone(family) {
    } else {
      GoneSettles(s, before, family);
      EndsFixed(After(s, before), [e]);
      AfterOne(After(s, before), [], e);
      AfterNone(After(s, before));
      assert [] + [e] == [e];
    }
  }

  lemma {:induction false} AllGoneHas(queries: seq<Family>, family: Family)
    requires family in queries
    ensures Gone(family) in AllGone(queries)
  {
    var k := |queries| - 1;
    if queries[k] != family {
      assert queries == queries[..k] + [queries[k]];
      AllGoneHas(queries[..k], family);
    }
  }

  lemma {:induction false} TurnCovered(s: State, queries: seq<Family>, poll: Poll)
    requires Covered(queries, s.settled)
    ensures Covered(Left(queries, poll), After(s, Told(queries, poll)).settled)
  {
    var events := Told(queries, poll);
    EndsFixed(s, events);
    hide After;
    if V6 in queries && V6 !in Left(queries, poll) {
      if poll.Broken? {
        AllGoneHas(queries, V6);
      }
      GoneSettles(s, events, V6);
    }
    if V4 in queries && V4 !in Left(queries, poll) {
      if poll.Broken? {
        AllGoneHas(queries, V4);
      }
      GoneSettles(s, events, V4);
    }
  }

  lemma {:induction false} RunCovered(s: State, rounds: seq<Round>)
    ensures Covered(Queries(rounds), After(s, History(rounds)).settled)
  {
    if rounds != [] {
      hide After;
      hide Told;
      hide Left;
      hide Covered;
      var before := rounds[..|rounds| - 1];
      RunCovered(s, before);
      AfterJoined(s, History(before), Told(Queries(before), rounds[|rounds| - 1].poll));
      TurnCovered(After(s, History(before)), Queries(before), rounds[|rounds| - 1].poll);
    }
  }

  /** The turn after an unusable poll does not wait: it settles with whatever has arrived. */
  lemma {:induction false} NoWaitAfterBroken(s: State, rounds: seq<Round>, i: nat)
    requires i + 1 < |rounds| && rounds[i].poll.Broken?
    ensures !Waits(s, rounds, i + 1)
  {
    hide After;
    RunCovered(s, rounds[..i + 1]);
    assert rounds[..i + 1][i] == rounds[i];
    if Next(Before(s, rounds, i + 1), rounds[i + 1].now).Wait? {
      WaitIsShort(Before(s, rounds, i + 1), rounds[i + 1].now);
    }
  }

  /** What a lookup returns, at whichever turn it is decided. */
  lemma {:induction false} FoundShape(start: real, timeout: real, limit: real, grace: real, rounds: seq<Round>, i: nat)
    requires i < |rounds| && Next(Before(Start(start, timeout, limit, grace), rounds, i), rounds[i].now).Resolved?
    ensures var s := Before(Start(start, timeout, limit, grace), rounds, i);
            var r, a, b := Next(s, rounds[i].now).addresses, First(s), Second(s);
            var n := |r|;
            0 < n <= MAXIMUM_ADDRESSES && n <= |a| + |b| && Slist.Distinct(a) && Slist.Distinct(b) &&
            var k := Share(n, |a|, |b|);
            r == Interleaved(a[..k], b[..n - k]) && (k == n - k || k == n - k + 1 || k == |a| || n - k == |b|)
  {
    hide After;
    hide Next;
    var s := Start(start, timeout, limit, grace);
    assert Good(s);
    RunGood(s, History(rounds[..i]));
    ResolvedShape(Before(s, rounds, i), rounds[i].now);
  }

  /** The loop ends at the first turn that does not have to wait, with that turn's decision; it sleeps at
      most 50 milliseconds a turn. `rounds` is what the turns would see. */
  method Resolve(start: real, timeout: real, limit: real, grace: real, rounds: seq<Round>) returns (outcome: Outcome, turns: nat)
    ensures turns <= |rounds| && forall i :: 0 <= i < turns ==> Waits(Start(start, timeout, limit, grace), rounds, i)
    ensures outcome.StillWaiting? <==> turns == |rounds|
    ensures turns < |rounds| ==>
              var step := Next(Before(Start(start, timeout, limit, grace), rounds, turns), rounds[turns].now);
              outcome == if rounds[turns].cancelled then Cancelled
                         else if step.Failed? then NoHost
                         else if step.Resolved? then Found(step.addresses) else StillWaiting
  {
    hide NameResolution.Next;
    hide Told;
    hide Left;
    hide After;
    var resolution := new SMBNameResolution(start, timeout, limit, grace);
    var queries := [V6, V4];
    ghost var s := resolution.View();
    assert rounds[..0] == [];
    assert After(s, []) == s by { AfterNone(s); }
    for i := 0 to |rounds|
      invariant fresh(resolution) && queries == Queries(rounds[..i]) && resolution.View() == Before(s, rounds, i)
      invariant forall j :: 0 <= j < i ==> Waits(s, rounds, j)
    {
      if rounds[i].cancelled {
        return Cancelled, i;
      }
      var step := resolution.Next(rounds[i].now);
      match step
      case Resolved(addresses) => return Found(addresses), i;
      case Failed => return NoHost, i;
      case Wait(until) =>
      var sleep := Milliseconds(rounds[i].now, until);
      assert 1 <= sleep <= 50;
      assert rounds[..i + 1][..i] == rounds[..i];
      AfterJoined(s, History(rounds[..i]), Told(queries, rounds[i].poll));
      queries := Turn(resolution, queries, rounds[i].poll);
    }
    outcome, turns := StillWaiting, |rounds|;
  }
}
