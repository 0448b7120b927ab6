/** The client's circuit breaker, one circuit an endpoint, and the failover between endpoints. */
module Breaker {
  import opened Arithmetic
  import opened Tables

  // ================================================================ one circuit

  /** The failures counted, and the deadline while the circuit is open. */
  datatype Circuit = Circuit(failures: nat, until: Option<int>)

  const CLOSED := Circuit(0, None)

  datatype Settings = Settings(threshold: nat, cooldown: nat)

  /** Three failures and five seconds, unless positive numbers are configured. */
  function Configured(failures: int, cooldown: int): Settings {
    Settings(if failures <= 0 then 3 else failures, if cooldown <= 0 then 5_000_000_000 else cooldown)
  }

  /** Open until the deadline has passed; looking at it later closes it and forgets its failures. */
  function Checked(c: Circuit, now: int): (Circuit, bool) {
    if c.until.None? then (c, false)
    else if now > c.until.value then (CLOSED, false)
    else (c, true)
  }

  function Noted(s: Settings, c: Circuit, now: int): Circuit {
    var n := c.failures + 1;
    Circuit(n, if n >= s.threshold then Some(now + s.cooldown) else c.until)
  }

  /** A circuit is open exactly when enough failures are counted. */
  ghost predicate OpenAtThreshold(s: Settings, c: Circuit) {
    c.until.Some? <==> c.failures >= s.threshold
  }

  // ================================================================ all runs of one circuit

  /** What happens to a circuit; requests in flight may note failures while it is open. */
  datatype Event = Check(now: int) | Failure(now: int)

  function Apply(s: Settings, c: Circuit, e: Event): Circuit {
    match e
    case Check(now) => Checked(c, now).0
    case Failure(now) => Noted(s, c, now)
  }

  function Play(s: Settings, events: seq<Event>): Circuit {
    if events == [] then CLOSED else Apply(s, Play(s, events[..|events| - 1]), events[|events| - 1])
  }

  ghost predicate InOrder(events: seq<Event>) {
    forall i, j :: 0 <= i < j < |events| ==> events[i].now <= events[j].now
  }

  /** In every run, whatever the interleaving: open exactly at the threshold, with a deadline one cooldown after some past event. */
  lemma {:induction false} OpenedExactlyAtThreshold(failures: int, cooldown: int, events: seq<Event>)
    requires InOrder(events)
    ensures var s := Configured(failures, cooldown);
            var c := Play(s, events);
            && OpenAtThreshold(s, c)
            && (c.until.Some? ==> events != [] && c.until.value <= events[|events| - 1].now + s.cooldown)
  {
    if events != [] {
      OpenedExactlyAtThreshold(failures, cooldown, events[..|events| - 1]);
    }
  }

  /** While a circuit stays open its deadline never moves back. */
  lemma DeadlinesGrow(failures: int, cooldown: int, events: seq<Event>, e: Event)
    requires InOrder(events + [e])
    ensures var s := Configured(failures, cooldown);
            var c, after := Play(s, events), Play(s, events + [e]);
            c.until.Some? && after.until.Some? ==> c.until.value <= after.until.value
  {
    assert (events + [e])[..|events|] == events;
    assert forall i :: 0 <= i < |events| ==> (events + [e])[i] == events[i];
    OpenedExactlyAtThreshold(failures, cooldown, events);
    if events != [] {
      assert events[|events| - 1].now <= e.now by {
        assert (events + [e])[|events| - 1].now <= (events + [e])[|events|].now;
      }
    }
  }

  /** The circuit is open for a look at that time. */
  predicate OpenAt(c: Circuit, now: int) {
    c.until.Some? && now <= c.until.value
  }

  /** A look changes only a circuit whose deadline has passed: it finds it closed, and leaves no failures and no deadline. */
  lemma LookCloses(failures: int, cooldown: int, events: seq<Event>, now: int)
    ensures var s := Configured(failures, cooldown);
            var c, after := Play(s, events), Play(s, events + [Check(now)]);
            && (Checked(c, now).1 <==> OpenAt(c, now))
            && (c.until.Some? && now > c.until.value ==> after.failures == 0 && after.until.None?)
            && (c.until.None? || now <= c.until.value ==> after == c)
  {
    assert (events + [Check(now)])[..|events|] == events;
  }

  function FailuresFrom(events: seq<Event>, from: nat): nat {
    if |events| <= from then 0
    else FailuresFrom(events[..|events| - 1], from) + if events[|events| - 1].Failure? then 1 else 0
  }

  ghost predicate IsLastFailure(events: seq<Event>, i: nat) {
    i < |events| && events[i].Failure? && forall j :: i < j < |events| ==> events[j].Check?
  }

  /** The i-th event is a look that came after the deadline, and so closed the circuit. */
  ghost predicate Closes(s: Settings, events: seq<Event>, i: nat) {
    i < |events| && events[i].Check? && Play(s, events[..i]).until.Some? && Play(s, events[..i]).until.value < events[i].now
  }

  /** Before `from` a look closed the circuit, unless that is the start; since then none did. */
  ghost predicate ClosedLast(s: Settings, events: seq<Event>, from: nat) {
    && from <= |events| && (from > 0 ==> Closes(s, events, from - 1))
    && forall i :: from <= i < |events| ==> !Closes(s, events, i)
  }

  lemma ClosedLastGrows(s: Settings, events: seq<Event>, from: nat, e: Event)
    requires ClosedLast(s, events, from)
    ensures Closes(s, events + [e], |events|) ==> ClosedLast(s, events + [e], |events| + 1)
    ensures !Closes(s, events + [e], |events|) ==> ClosedLast(s, events + [e], from)
  {
    forall i | 0 <= i < |events| ensures Closes(s, events + [e], i) <==> Closes(s, events, i) {
      assert (events + [e])[..i] == events[..i];
    }
  }

  /**
   What a circuit is after any run: its failures are those since a look last closed it; it has a deadline exactly
   when they reach the threshold, and that is one cooldown after the last of them.
   */
  lemma {:induction false} CircuitOfRun(failures: int, cooldown: int, events: seq<Event>) returns (from: nat)
    ensures var s := Configured(failures, cooldown);
            var c := Play(s, events);
            && ClosedLast(s, events, from) && c.failures == FailuresFrom(events, from)
            && (c.until.Some? <==> c.failures >= if failures <= 0 then 3 else failures)
            && (c.until.Some? ==> exists i: nat :: from <= i && IsLastFailure(events, i) && c.until.value ==
                                                  events[i].now + if cooldown <= 0 then 5_000_000_000 else cooldown)
  {
    if events == [] {
      from := 0;
    } else {
      var n := |events| - 1;
      var before, e := events[..n], events[n];
      from := CircuitOfRun(failures, cooldown, before);
      var s := Configured(failures, cooldown);
      ClosedLastGrows(s, before, from, e);
      assert before + [e] == events;
      if Closes(s, events, n) {
        from := n + 1;
      } else if e.Failure? {
        assert IsLastFailure(events, n);
      } else if i: nat :| from <= i && IsLastFailure(before, i) && Play(s, before).until == Some(before[i].now + s.cooldown) {
        assert IsLastFailure(events, i);
      }
    }
  }

  // ================================================================ calls one at a time

  /** One visit of an endpoint: looked at, and if closed, requested; a failure is noted when the answer is in. */
  datatype Visit = Visit(checkedAt: int, fails: bool, notedAt: int)

  function Visited(s: Settings, c: Circuit, v: Visit): Circuit {
    var (after, open) := Checked(c, v.checkedAt);
    if !open && v.fails then Noted(s, after, v.notedAt) else after
  }

  function PlayVisits(s: Settings, visits: seq<Visit>): Circuit {
    if visits == [] then CLOSED else Visited(s, PlayVisits(s, visits[..|visits| - 1]), visits[|visits| - 1])
  }

  /** How many requests were sent to the endpoint and failed. */
  function FailedRequests(s: Settings, visits: seq<Visit>): nat {
    if visits == [] then 0
    else
      var rest, v := visits[..|visits| - 1], visits[|visits| - 1];
      FailedRequests(s, rest) + if !Checked(PlayVisits(s, rest), v.checkedAt).1 && v.fails then 1 else 0
  }

  ghost predicate Sequential(start: int, visits: seq<Visit>) {
    && (forall i :: 0 <= i < |visits| ==> start <= visits[i].checkedAt <= visits[i].notedAt)
    && (forall i, j :: 0 <= i < j < |visits| ==> visits[i].notedAt <= visits[j].checkedAt)
  }

  /** After full rounds of failures: the counter's share of the total, and the time the rounds took. */
  ghost predicate Rounds(s: Settings, start: int, c: Circuit, total: nat, rounds: nat, now: int) {
    && OpenAtThreshold(s, c) && c.failures <= s.threshold
    && total == s.threshold * rounds + c.failures
    && start + s.cooldown * rounds <= now
    && (c.until.Some? ==> start + s.cooldown * (rounds + 1) <= c.until.value)
  }

  lemma VisitKeepsRounds(s: Settings, start: int, c: Circuit, total: nat, rounds: nat, now: int, v: Visit) returns (after: nat)
    requires s.threshold > 0 && Rounds(s, start, c, total, rounds, now)
    requires now <= v.checkedAt <= v.notedAt
    ensures Rounds(s, start, Visited(s, c, v), if !Checked(c, v.checkedAt).1 && v.fails then total + 1 else total, after, v.notedAt)
  {
    var (d, open) := Checked(c, v.checkedAt);
    if c.until.Some? && !open {
      after := rounds + 1;
      assert s.threshold * (rounds + 1) == s.threshold * rounds + s.threshold;
    } else {
      after := rounds;
    }
    assert s.cooldown * (after + 1) == s.cooldown * after + s.cooldown;
  }

  lemma {:induction false} VisitsInRounds(s: Settings, start: int, visits: seq<Visit>) returns (rounds: nat)
    requires s.threshold > 0 && Sequential(start, visits)
    ensures Rounds(s, start, PlayVisits(s, visits), FailedRequests(s, visits), rounds,
                   if visits == [] then start else visits[|visits| - 1].notedAt)
  {
    if visits == [] {
      rounds := 0;
    } else {
      var n := |visits| - 1;
      var before := VisitsInRounds(s, start, visits[..n]);
      rounds := VisitKeepsRounds(s, start, PlayVisits(s, visits[..n]), FailedRequests(s, visits[..n]), before,
                                 if n == 0 then start else visits[n - 1].notedAt, visits[n]);
    }
  }

  lemma RoundsBound(s: Settings, rounds: nat, elapsed: nat)
    requires s.cooldown > 0 && s.cooldown * rounds <= elapsed
    ensures s.threshold * (rounds + 1) <= s.threshold * (elapsed / s.cooldown + 1)
  {
    DivideBound(rounds, s.cooldown, elapsed);
    MulKeepsOrder(rounds + 1, elapsed / s.cooldown + 1, s.threshold);
  }

  /**
   With calls one at a time, the failing requests an endpoint sees within any time are at most one
   threshold for every cooldown begun.
   */
  lemma FailuresAreBounded(failures: int, cooldown: int, start: int, visits: seq<Visit>, t: int)
    requires Sequential(start, visits) && start <= t && (visits != [] ==> visits[|visits| - 1].notedAt <= t)
    ensures var s := Configured(failures, cooldown);
            FailedRequests(s, visits) <= s.threshold * ((t - start) / s.cooldown + 1)
  {
    var s := Configured(failures, cooldown);
    var rounds := VisitsInRounds(s, start, visits);
    assert s.threshold * (rounds + 1) == s.threshold * rounds + s.threshold;
    RoundsBound(s, rounds, t - start);
  }

  // ================================================================ failover

  datatype Body<V> = Unreadable | Undecodable | Decoded(value: V)

  /** What one endpoint makes of a request: it cannot even be built, gets no answer, or gets one. */
  datatype Answer<V> = BadRequest | Unreachable | Status(code: nat, body: Body<V>)

  predicate Good<V>(a: Answer<V>) {
    a.Status? && a.code < 300 && a.body.Decoded?
  }

  /** Only these count against the endpoint. */
  predicate Counts<V>(a: Answer<V>) {
    a.Unreachable? || (a.Status? && a.code >= 500)
  }

  datatype Try<V> = Try(checkedAt: int, answer: Answer<V>, notedAt: int)

  /** An error, or none and what was decoded; None then means that the result was never filled. */
  datatype Reply<V> = Failed | NoError(decoded: Option<V>)

  function AsVisit<V>(t: Try<V>): Visit {
    Visit(t.checkedAt, Counts(t.answer), t.notedAt)
  }

  /** Whether a circuit is open when it is its endpoint's turn. */
  predicate Skipped<V>(c: Circuit, t: Try<V>) {
    Checked(c, t.checkedAt).1
  }

  /** A failure is counted against an endpoint that was asked and gave no answer, or one from 500 on; for nothing else. */
  predicate Counted<V>(c: Circuit, t: Try<V>) {
    !OpenAt(c, t.checkedAt) && (t.answer.Unreachable? || (t.answer.Status? && t.answer.code >= 500))
  }

  /** The reply, and how many endpoints had their turn, from the i-th on. */
  function Failover<V>(circuits: seq<Circuit>, tries: seq<Try<V>>, i: nat, lastErr: bool): (r: (Reply<V>, nat))
    requires i <= |circuits| == |tries|
    ensures i <= r.1 <= |circuits|
    decreases |circuits| - i
  {
    if i == |circuits| then (if lastErr || circuits == [] then Failed else NoError(None), i)
    else if Skipped(circuits[i], tries[i]) then Failover(circuits, tries, i + 1, lastErr)
    else if tries[i].answer.BadRequest? then (Failed, i + 1)
    else if Good(tries[i].answer) then (NoError(Some(tries[i].answer.body.value)), i + 1)
    else Failover(circuits, tries, i + 1, true)
  }

  /** The circuits after the first n endpoints had their turn. */
  function AfterTurns<V>(s: Settings, circuits: seq<Circuit>, tries: seq<Try<V>>, n: nat): (r: seq<Circuit>)
    requires n <= |circuits| == |tries|
    ensures |r| == |circuits|
    ensures forall j :: 0 <= j < |r| ==> r[j] == if j < n then Visited(s, circuits[j], AsVisit(tries[j])) else circuits[j]
  {
    seq(|circuits|, j requires 0 <= j < |circuits| => if j < n then Visited(s, circuits[j], AsVisit(tries[j])) else circuits[j])
  }

  lemma NextTurn<V>(s: Settings, circuits: seq<Circuit>, tries: seq<Try<V>>, n: nat)
    requires n < |circuits| == |tries|
    ensures AfterTurns(s, circuits, tries, n)[n] == circuits[n]
    ensures AfterTurns(s, circuits, tries, n + 1) ==
            AfterTurns(s, circuits, tries, n)[n := Visited(s, circuits[n], AsVisit(tries[n]))]
  {
  }

  /** The endpoint is left alone, or asked without an end: it was possible to ask, and no answer below 300 could be decoded. */
  predicate MovesOn<V>(c: Circuit, t: Try<V>) {
    OpenAt(c, t.checkedAt) ||
    !(t.answer.BadRequest? || (t.answer.Status? && t.answer.code < 300 && t.answer.body.Decoded?))
  }

  /** The j-th endpoint is the first to end the call, and does so with a decoded answer. */
  ghost predicate Answers<V>(circuits: seq<Circuit>, tries: seq<Try<V>>, i: nat, j: nat)
    requires |circuits| == |tries|
  {
    && i <= j < |circuits| && !OpenAt(circuits[j], tries[j].checkedAt)
    && tries[j].answer.Status? && tries[j].answer.code < 300 && tries[j].answer.body.Decoded?
    && forall k :: i <= k < j ==> MovesOn(circuits[k], tries[k])
  }

  /** No error and no answer comes back exactly when there are endpoints, every circuit is open, and nothing was asked. */
  lemma {:induction false} NothingAsked<V>(circuits: seq<Circuit>, tries: seq<Try<V>>, i: nat, lastErr: bool)
    requires i <= |circuits| == |tries|
    ensures Failover(circuits, tries, i, lastErr).0 == NoError(None) <==>
            !lastErr && circuits != [] && forall j :: i <= j < |circuits| ==> OpenAt(circuits[j], tries[j].checkedAt)
    decreases |circuits| - i
  {
    if i < |circuits| && MovesOn(circuits[i], tries[i]) {
      NothingAsked(circuits, tries, i + 1, if Skipped(circuits[i], tries[i]) then lastErr else true);
    }
  }

  /** A decoded answer comes back exactly when some endpoint answers, and it is that endpoint's. */
  lemma {:induction false} FirstAnswerWins<V>(circuits: seq<Circuit>, tries: seq<Try<V>>, i: nat, lastErr: bool)
    requires i <= |circuits| == |tries|
    ensures var (r, visited) := Failover(circuits, tries, i, lastErr);
            if r.NoError? && r.decoded.Some?
            then i < visited && Answers(circuits, tries, i, visited - 1) && r.decoded.value == tries[visited - 1].answer.body.value
            else forall j :: !Answers(circuits, tries, i, j)
    decreases |circuits| - i
  {
    if i < |circuits| && MovesOn(circuits[i], tries[i]) {
      FirstAnswerWins(circuits, tries, i + 1, if Skipped(circuits[i], tries[i]) then lastErr else true);
      forall j ensures Answers(circuits, tries, i, j) <==> Answers(circuits, tries, i + 1, j) {
      }
    }
  }

  /** The places at which a string occurs first. */
  ghost predicate FirstAt(ss: seq<string>, i: nat) {
    i < |ss| && ss[i] !in ss[..i]
  }

  /** The elements of ss up to n, each where it occurs first. */
  ghost function Firsts(ss: seq<string>, n: nat): (r: seq<string>)
    requires n <= |ss|
  {
    if n == 0 then [] else Firsts(ss, n - 1) + if FirstAt(ss, n - 1) then [ss[n - 1]] else []
  }

  lemma {:induction false} FirstsMean(ss: seq<string>, n: nat)
    requires n <= |ss|
    ensures Distinct(Firsts(ss, n)) && forall s :: s in Firsts(ss, n) <==> s in ss[..n]
  {
    if n > 0 {
      FirstsMean(ss, n - 1);
      assert forall s :: s in ss[..n] <==> s in ss[..n - 1] || s == ss[n - 1];
    }
  }

  /** The endpoints without repetitions, in the order of their first occurrences. */
  method Dedup(ss: seq<string>) returns (result: seq<string>)
    ensures result == Firsts(ss, |ss|)
  {
    var seen: set<string> := {};
    result := [];
    for i := 0 to |ss|
      invariant result == Firsts(ss, i)
      invariant forall s :: s in seen <==> s in ss[..i]
    {
      assert forall s :: s in ss[..i + 1] <==> s in ss[..i] || s == ss[i];
      if ss[i] !in seen {
        seen := seen + {ss[i]};
        result := result + [ss[i]];
      }
    }
  }

  class Client {
    const endpoints: seq<string>
    const settings: Settings
    var failures: map<string, nat>
    var openUntil: map<string, int>

    ghost function Of(ep: string): Circuit
      reads this
    {
      Circuit(if ep in failures then failures[ep] else 0, if ep in openUntil then Some(openUntil[ep]) else None)
    }

    ghost predicate Valid()
      reads this
    {
      Distinct(endpoints) && settings.threshold > 0 && settings.cooldown > 0 && forall ep :: OpenAtThreshold(settings, Of(ep))
    }

    constructor (configured: seq<string>, breakerFailures: int, breakerCooldown: int)
      ensures Valid() && settings == Configured(breakerFailures, breakerCooldown)
      ensures settings.threshold == if breakerFailures <= 0 then 3 else breakerFailures
      ensures settings.cooldown == if breakerCooldown <= 0 then 5_000_000_000 else breakerCooldown
      ensures endpoints == Firsts(configured, |configured|)
      ensures forall ep :: Of(ep) == CLOSED
    {
      var distinct := Dedup(configured);
      FirstsMean(configured, |configured|);
      endpoints, settings := distinct, Configured(breakerFailures, breakerCooldown);
      failures, openUntil := map[], map[];
    }

    /** Changing one circuit, and keeping it consistent, keeps the client valid. */
    twostate lemma OthersUnchanged(ep: string)
      requires old(Valid()) && OpenAtThreshold(settings, Of(ep))
      requires forall other :: other != ep ==> Of(other) == old(Of(other))
      ensures Valid()
    {
      forall e: string ensures OpenAtThreshold(settings, Of(e)) {
        assert old(OpenAtThreshold(settings, Of(e)));
      }
    }

    method IsOpen(ep: string, now: int) returns (open: bool)
      requires Valid()
      modifies this
      ensures Valid() && (Of(ep), open) == Checked(old(Of(ep)), now)
      ensures open <==> ep in old(openUntil) && now <= old(openUntil)[ep]
      ensures if ep in old(openUntil) && now > old(openUntil)[ep]
              then openUntil == old(openUntil) - {ep} && failures == old(failures)[ep := 0]
              else openUntil == old(openUntil) && failures == old(failures)
      ensures forall other :: other != ep ==> Of(other) == old(Of(other))
    {
      if ep !in openUntil {
        return false;
      }
      if now > openUntil[ep] {
        openUntil := openUntil - {ep};
        failures := failures[ep := 0];
        OthersUnchanged(ep);
        return false;
      }
      open := true;
    }

    method NoteFailure(ep: string, now: int)
      requires Valid()
      modifies this
      ensures Valid() && Of(ep) == Noted(settings, old(Of(ep)), now)
      ensures failures == old(failures)[ep := (if ep in old(failures) then old(failures)[ep] else 0) + 1]
      ensures openUntil == if failures[ep] >= settings.threshold then old(openUntil)[ep := now + settings.cooldown] else old(openUntil)
      ensures forall other :: other != ep ==> Of(other) == old(Of(other))
    {
      assert OpenAtThreshold(settings, Of(ep));
      failures := failures[ep := (if ep in failures then failures[ep] else 0) + 1];
      if failures[ep] >= settings.threshold {
        openUntil := openUntil[ep := now + settings.cooldown];
      }
      OthersUnchanged(ep);
    }

    ghost function Circuits(): (r: seq<Circuit>)
      reads this
      ensures |r| == |endpoints| && forall i :: 0 <= i < |r| ==> r[i] == Of(endpoints[i])
    {
      seq(|endpoints|, i requires 0 <= i < |endpoints| reads this => Of(endpoints[i]))
    }

    /** One endpoint's turn changes its circuit and no other. */
    method Visit<V>(i: nat, t: Try<V>) returns (open: bool)
      requires Valid() && i < |endpoints|
      modifies this
      ensures Valid() && open == Skipped(old(Circuits())[i], t)
      ensures Circuits() == old(Circuits())[i := Visited(settings, old(Circuits())[i], AsVisit(t))]
      ensures var c, after := old(Circuits())[i], Circuits()[i];
              && (open <==> OpenAt(c, t.checkedAt))
              && after.failures == (if c.until.Some? && !open then 0 else c.failures) + (if Counted(c, t) then 1 else 0)
    {
      var ep := endpoints[i];
      open := IsOpen(ep, t.checkedAt);
      if !open && Counts(t.answer) {
        NoteFailure(ep, t.notedAt);
      }
      assert Of(ep) == Visited(settings, old(Of(ep)), AsVisit(t));
      assert forall j :: 0 <= j < |endpoints| && j != i ==> endpoints[j] != ep;
    }

    /**
     Tries the endpoints in turn, skipping open circuits, until one answer decodes. A request that cannot
     be built ends the call; anything else moves on to the next endpoint.
     */
    method Request<V>(tries: seq<Try<V>>) returns (r: Reply<V>, ghost visited: nat)
      requires Valid() && |tries| == |endpoints|
      modifies this
      ensures Valid() && visited <= |endpoints|
      ensures (r, visited) == Failover(old(Circuits()), tries, 0, false)
      ensures Circuits() == AfterTurns(settings, old(Circuits()), tries, visited)
    {
      if |endpoints| == 0 {
        return Failed, 0;
      }
      ghost var before := Circuits();
      var lastErr := false;
      for i := 0 to |endpoints|
        invariant Valid() && Circuits() == AfterTurns(settings, before, tries, i)
        invariant Failover(before, tries, 0, false) == Failover(before, tries, i, lastErr)
      {
        NextTurn(settings, before, tries, i);
        var open := Visit(i, tries[i]);
        if open {
          continue;
        }
        match tries[i].answer {
          case BadRequest =>
            return Failed, i + 1;
          case Unreachable =>
            lastErr := true;
          case Status(code, body) =>
            if code < 300 && body.Decoded? {
              return NoError(Some(body.value)), i + 1;
            }
            lastErr := true;
        }
      }
      r, visited := if lastErr then Failed else NoError(None), |endpoints|;
    }
  }
}
