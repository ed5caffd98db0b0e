/**
 The pairing loop: request a code, poll until it is confirmed, expires or runs out.

 A run is told against a script of what the server answers and what the clock reads; where the script ends the
 loop is still waiting.
 */
module Pairing {
  import opened Durations

  const INTERVAL := 3 * SECOND

  /** The sealed API key of a "paired" answer, and what opening it gives. */
  datatype Envelope = Missing | Unopenable | Undecodable | Opened(apiKey: string)

  datatype Reply = Unreachable | Status(status: string, envelope: Envelope)

  datatype Request = Refused | Granted(expiresIn: int)

  /** One turn of the inner loop: the clock at its guard and after its sleep, and the answer to its poll. */
  datatype Poll = Poll(checked: int, woke: int, reply: Reply)

  /** One turn of the outer loop. */
  datatype Round = Round(request: Request, issued: int, polls: seq<Poll>)

  datatype Error = RequestFailed | EnvelopeMissing | DecryptFailed | DecodeFailed | KeyMissing

  datatype Outcome = Key(apiKey: string) | Failed(error: Error) | Waiting

  datatype Event =
    | Requested(request: Request, issued: int)
    | Polled(poll: Poll, deadline: int)
    | DeadlinePassed(at: int, deadline: int)

  datatype Verdict = Again | Renew | Stop(outcome: Outcome)

  /** How long a code is polled; the product wraps at 64 bits. */
  function Lifetime(expiresIn: int): Duration {
    Wrap(expiresIn * SECOND)
  }

  function Opening(envelope: Envelope): Outcome {
    match envelope
    case Missing => Failed(EnvelopeMissing)
    case Unopenable => Failed(DecryptFailed)
    case Undecodable => Failed(DecodeFailed)
    case Opened(apiKey) => if apiKey == "" then Failed(KeyMissing) else Key(apiKey)
  }

  function Judge(reply: Reply): Verdict {
    match reply
    case Unreachable => Again
    case Status(status, envelope) =>
      if status == "paired" then Stop(Opening(envelope)) else if status == "expired" then Renew else Again
  }

  /** The inner loop from poll j on. */
  function Polling(deadline: int, polls: seq<Poll>, j: nat): (seq<Event>, Verdict)
    requires j <= |polls|
    decreases |polls| - j
  {
    if j == |polls| then ([], Stop(Waiting))
    else if polls[j].checked >= deadline then ([DeadlinePassed(polls[j].checked, deadline)], Renew)
    else if Judge(polls[j].reply) == Again then
      var rest := Polling(deadline, polls, j + 1);
      ([Polled(polls[j], deadline)] + rest.0, rest.1)
    else ([Polled(polls[j], deadline)], Judge(polls[j].reply))
  }

  /** The outer loop from round i on. */
  function Running(rounds: seq<Round>, i: nat): (seq<Event>, Outcome)
    requires i <= |rounds|
    decreases |rounds| - i
  {
    if i == |rounds| then ([], Waiting)
    else
      var request := Requested(rounds[i].request, rounds[i].issued);
      if rounds[i].request.Refused? then ([request], Failed(RequestFailed))
      else
        var polling := Polling(rounds[i].issued + Lifetime(rounds[i].request.expiresIn), rounds[i].polls, 0);
        if polling.1.Stop? then ([request] + polling.0, polling.1.outcome)
        else
          var rest := Running(rounds, i + 1);
          (([request] + polling.0) + rest.0, rest.1)
  }

  lemma Associative(a: seq<Event>, b: seq<Event>, c: seq<Event>)
    ensures (a + b) + c == a + (b + c)
  {
  }

  method PollCode(deadline: int, polls: seq<Poll>) returns (trace: seq<Event>, verdict: Verdict)
    ensures (trace, verdict) == Polling(deadline, polls, 0)
  {
    trace := [];
    var j := 0;
    while j < |polls| && polls[j].checked < deadline
      invariant 0 <= j <= |polls|
      invariant trace + Polling(deadline, polls, j).0 == Polling(deadline, polls, 0).0
      invariant Polling(deadline, polls, j).1 == Polling(deadline, polls, 0).1
    {
      Associative(trace, [Polled(polls[j], deadline)], Polling(deadline, polls, j + 1).0);
      trace := trace + [Polled(polls[j], deadline)];
      var reply := polls[j].reply;
      if reply.Unreachable? {
        j := j + 1;
        continue;
      }
      if reply.status == "paired" {
        if reply.envelope.Missing? {
          return trace, Stop(Failed(EnvelopeMissing));
        }
        if reply.envelope.Unopenable? {
          return trace, Stop(Failed(DecryptFailed));
        }
        if reply.envelope.Undecodable? {
          return trace, Stop(Failed(DecodeFailed));
        }
        if reply.envelope.apiKey == "" {
          return trace, Stop(Failed(KeyMissing));
        }
        return trace, Stop(Key(reply.envelope.apiKey));
      }
      if reply.status == "expired" {
        return trace, Renew;
      }
      j := j + 1;
    }
    if j < |polls| {
      return trace + [DeadlinePassed(polls[j].checked, deadline)], Renew;
    }
    assert trace + [] == trace;
    return trace, Stop(Waiting);
  }

  method RunPairing(rounds: seq<Round>) returns (trace: seq<Event>, outcome: Outcome)
    ensures (trace, outcome) == Running(rounds, 0)
  {
    trace := [];
    var i := 0;
    while i < |rounds|
      invariant 0 <= i <= |rounds|
      invariant trace + Running(rounds, i).0 == Running(rounds, 0).0
      invariant Running(rounds, i).1 == Running(rounds, 0).1
    {
      var round := rounds[i];
      var request := Requested(round.request, round.issued);
      if round.request.Refused? {
        return trace + [request], Failed(RequestFailed);
      }
      var events, verdict := PollCode(round.issued + Lifetime(round.request.expiresIn), round.polls);
      if verdict.Stop? {
        return trace + ([request] + events), verdict.outcome;
      }
      Associative(trace, [request] + events, Running(rounds, i + 1).0);
      trace := trace + ([request] + events);
      i := i + 1;
    }
    assert trace + [] == trace;
    return trace, Waiting;
  }

  /** The deadline in force after an event of a round that goes on. */
  function DeadlineOf(e: Event): int {
    match e
    case Requested(Granted(expiresIn), issued) => issued + Lifetime(expiresIn)
    case Requested(Refused, issued) => issued
    case Polled(_, deadline) => deadline
    case DeadlinePassed(_, deadline) => deadline
  }

  /** After this event the same code is still being polled. */
  predicate KeepsPolling(e: Event) {
    || (e.Requested? && e.request.Granted?)
    || (e.Polled? && e.poll.reply.Unreachable?)
    || (e.Polled? && e.poll.reply.Status? && e.poll.reply.status != "paired" && e.poll.reply.status != "expired")
  }

  /** A poll answered "expired", or a clock reading at or past the deadline. */
  predicate EndsTheCode(e: Event) {
    || (e.Polled? && e.poll.reply.Status? && e.poll.reply.status == "expired")
    || (e.DeadlinePassed? && e.at >= e.deadline)
  }

  /** What may come next: a poll only before the code's deadline, a new code only when the old one has ended. */
  predicate Follows(e: Event, next: Event) {
    match next
    case Requested(_, _) => EndsTheCode(e)
    case Polled(poll, deadline) => KeepsPolling(e) && deadline == DeadlineOf(e) && poll.checked < deadline
    case DeadlinePassed(at, deadline) => KeepsPolling(e) && deadline == DeadlineOf(e) && at >= deadline
  }

  ghost predicate Lawful(trace: seq<Event>) {
    forall k | 0 < k < |trace| :: Follows(trace[k - 1], trace[k])
  }

  predicate PairedWith(e: Event, envelope: Envelope) {
    e.Polled? && e.poll.reply == Status("paired", envelope)
  }

  /** The event on which a run ends with this outcome. */
  predicate EndsWith(e: Event, outcome: Outcome) {
    match outcome
    case Waiting => KeepsPolling(e) || EndsTheCode(e)
    case Failed(RequestFailed) => e.Requested? && e.request.Refused?
    case Failed(EnvelopeMissing) => PairedWith(e, Missing)
    case Failed(DecryptFailed) => PairedWith(e, Unopenable)
    case Failed(DecodeFailed) => PairedWith(e, Undecodable)
    case Failed(KeyMissing) => PairedWith(e, Opened(""))
    case Key(apiKey) => PairedWith(e, Opened(apiKey)) && apiKey != ""
  }

  lemma Prepend(e: Event, trace: seq<Event>)
    requires Lawful(trace) && (trace != [] ==> Follows(e, trace[0]))
    ensures Lawful([e] + trace)
  {
  }

  lemma Join(a: seq<Event>, b: seq<Event>)
    requires Lawful(a) && Lawful(b)
    requires a != [] && (b != [] ==> Follows(a[|a| - 1], b[0]))
    ensures Lawful(a + b)
  {
  }

  /** One code's events, after an event prev that leaves it pollable. */
  lemma {:induction false} PollingIsLawful(prev: Event, polls: seq<Poll>, j: nat, r: (seq<Event>, Verdict))
    requires j <= |polls| && KeepsPolling(prev) && r == Polling(DeadlineOf(prev), polls, j)
    ensures Lawful([prev] + r.0)
    ensures var last := ([prev] + r.0)[|r.0|];
      match r.1
      case Again => false
      case Renew => EndsTheCode(last)
      case Stop(outcome) => EndsWith(last, outcome)
    decreases |polls| - j
  {
    if j < |polls| && polls[j].checked < DeadlineOf(prev) {
      var e := Polled(polls[j], DeadlineOf(prev));
      if Judge(polls[j].reply) == Again {
        var rest := Polling(DeadlineOf(prev), polls, j + 1);
        PollingIsLawful(e, polls, j + 1, rest);
        Prepend(prev, [e] + rest.0);
      }
    }
  }

  /** Every run is lawful, starts with a request, and ends on the event that explains its outcome. */
  lemma {:induction false} RunsAreLawful(rounds: seq<Round>, i: nat, r: (seq<Event>, Outcome))
    requires i <= |rounds| && r == Running(rounds, i)
    ensures Lawful(r.0)
    ensures r.0 == [] ==> r.1 == Waiting
    ensures r.0 != [] ==> r.0[0].Requested? && EndsWith(r.0[|r.0| - 1], r.1)
    decreases |rounds| - i
  {
    if i < |rounds| && rounds[i].request.Granted? {
      var request := Requested(rounds[i].request, rounds[i].issued);
      var polling := Polling(DeadlineOf(request), rounds[i].polls, 0);
      PollingIsLawful(request, rounds[i].polls, 0, polling);
      if polling.1 == Renew {
        var rest := Running(rounds, i + 1);
        RunsAreLawful(rounds, i + 1, rest);
        Join([request] + polling.0, rest.0);
      }
    }
  }

  /** A key is returned exactly when the run ends on a "paired" poll whose envelope opened to that non-empty key. */
  lemma KeyOnlyFromAPairedPoll(rounds: seq<Round>, r: (seq<Event>, Outcome), apiKey: string)
    requires r == Running(rounds, 0)
    ensures r.1 == Key(apiKey) <==> apiKey != "" && r.0 != [] && PairedWith(r.0[|r.0| - 1], Opened(apiKey))
  {
    RunsAreLawful(rounds, 0, r);
  }

  /** The polls of a round from poll j on, all of them made. */
  function AllPolled(polls: seq<Poll>, j: nat, deadline: int): seq<Event>
    requires j <= |polls|
  {
    seq(|polls| - j, m requires 0 <= m < |polls| - j => Polled(polls[j + m], deadline))
  }

  lemma {:induction false} PollingWaits(deadline: int, polls: seq<Poll>, j: nat)
    requires j <= |polls| && Polling(deadline, polls, j).1 == Stop(Waiting)
    ensures Polling(deadline, polls, j).0 == AllPolled(polls, j, deadline)
    decreases |polls| - j
  {
    if j < |polls| {
      PollingWaits(deadline, polls, j + 1);
    }
  }

  /** A run ends with these events: a request that was granted, and every poll of its round. */
  ghost predicate EndsInRound(trace: seq<Event>, round: Round) {
    var granted := Requested(round.request, round.issued);
    && round.request.Granted?
    && exists before :: trace == before + ([granted] + AllPolled(round.polls, 0, DeadlineOf(granted)))
  }

  /** The loop goes on until the script ends: a run still waiting has made every poll of its last round, or used every round. */
  lemma {:induction false} WaitingUsesTheScript(rounds: seq<Round>, i: nat, r: (seq<Event>, Outcome)) returns (k: nat)
    requires i <= |rounds| && r == Running(rounds, i) && r.1 == Waiting
    ensures i <= k <= |rounds|
    ensures k < |rounds| ==> EndsInRound(r.0, rounds[k])
    ensures k == |rounds| ==> if i == |rounds| then r.0 == [] else r.0 != [] && EndsTheCode(r.0[|r.0| - 1])
    decreases |rounds| - i
  {
    k := i;
    if i < |rounds| {
      var request := Requested(rounds[i].request, rounds[i].issued);
      var polling := Polling(DeadlineOf(request), rounds[i].polls, 0);
      if polling.1.Stop? {
        PollingWaits(DeadlineOf(request), rounds[i].polls, 0);
        assert r.0 == [] + ([request] + AllPolled(rounds[i].polls, 0, DeadlineOf(request)));
      } else {
        var rest := Running(rounds, i + 1);
        k := WaitingUsesTheScript(rounds, i + 1, rest);
        assert r.0 == ([request] + polling.0) + rest.0;
        PollingIsLawful(request, rounds[i].polls, 0, polling);
        if k < |rounds| {
          var granted := Requested(rounds[k].request, rounds[k].issued);
          var tail := [granted] + AllPolled(rounds[k].polls, 0, DeadlineOf(granted));
          var before :| rest.0 == before + tail;
          Associative([request] + polling.0, before, tail);
        }
      }
    }
  }

  /** Between requests i and k, the deadline is that of request i. */
  lemma {:induction false} DeadlineIsTheCodes(trace: seq<Event>, i: nat, k: nat)
    requires Lawful(trace) && i <= k < |trace|
    requires forall m | i < m <= k :: !trace[m].Requested?
    ensures DeadlineOf(trace[k]) == DeadlineOf(trace[i])
  {
    if i < k {
      DeadlineIsTheCodes(trace, i, k - 1);
      assert Follows(trace[k - 1], trace[k]);
    }
  }

  /**
   A second request k, after request i, is made only after an "expired" poll, or after the clock read at least
   the issue time plus the lifetime of code i.
   */
  lemma NewCodeOnlyWhenTheOldEnded(rounds: seq<Round>, trace: seq<Event>, i: nat, k: nat)
    requires trace == Running(rounds, 0).0
    requires i < k < |trace| && trace[i].Requested? && trace[k].Requested?
    requires forall m | i < m < k :: !trace[m].Requested?
    ensures trace[i].request.Granted? && k > i + 1
    ensures var last := trace[k - 1];
      || (last.Polled? && last.poll.reply.Status? && last.poll.reply.status == "expired")
      || (last.DeadlinePassed? && last.at >= trace[i].issued + Lifetime(trace[i].request.expiresIn))
  {
    RunsAreLawful(rounds, 0, Running(rounds, 0));
    assert Follows(trace[k - 1], trace[k]);
    assert Follows(trace[i], trace[i + 1]);
    DeadlineIsTheCodes(trace, i, k - 1);
  }

  function Start(e: Event): int {
    match e
    case Requested(_, issued) => issued
    case Polled(poll, _) => poll.checked
    case DeadlinePassed(at, _) => at
  }

  function Finish(e: Event): int {
    if e.Polled? then e.poll.woke else Start(e)
  }

  /** A clock that never goes back, and sleeps of at least the poll interval. */
  ghost predicate ClockRuns(trace: seq<Event>) {
    && (forall k | 0 <= k < |trace| && trace[k].Polled? :: trace[k].poll.woke >= trace[k].poll.checked + INTERVAL)
    && (forall k | 0 < k < |trace| :: Start(trace[k]) >= Finish(trace[k - 1]))
  }

  lemma {:induction false} PollsAreSpaced(trace: seq<Event>, i: nat, n: nat)
    requires ClockRuns(trace) && i + n < |trace| && trace[i].Requested?
    requires forall m | i < m <= i + n :: trace[m].Polled?
    ensures n > 0 ==> Start(trace[i + n]) >= trace[i].issued + (n - 1) * INTERVAL
  {
    if n > 1 {
      PollsAreSpaced(trace, i, n - 1);
      assert trace[i + n - 1].Polled?;
      assert Start(trace[i + n]) >= Finish(trace[i + n - 1]) >= Start(trace[i + n - 1]) + INTERVAL;
    } else if n == 1 {
      assert Start(trace[i + 1]) >= Finish(trace[i]);
    }
  }

  /** Each code is polled at most its lifetime over the poll interval, rounded up: never with a lifetime of 0 or less. */
  lemma PollsPerCode(rounds: seq<Round>, trace: seq<Event>, i: nat, n: nat)
    requires trace == Running(rounds, 0).0 && ClockRuns(trace)
    requires i + n < |trace| && trace[i].Requested? && trace[i].request.Granted?
    requires forall m | i < m <= i + n :: trace[m].Polled?
    ensures n > 0 ==> (n - 1) * INTERVAL < Lifetime(trace[i].request.expiresIn)
  {
    if n > 0 {
      RunsAreLawful(rounds, 0, Running(rounds, 0));
      assert Follows(trace[i + n - 1], trace[i + n]);
      DeadlineIsTheCodes(trace, i, i + n);
      PollsAreSpaced(trace, i, n);
    }
  }

  /** The lifetime is the stated number of seconds exactly as long as its nanoseconds fit into 64 bits. */
  lemma LifetimeIsSeconds(expiresIn: int)
    ensures Lifetime(expiresIn) == expiresIn * 1_000_000_000 <==> -9_223_372_036 <= expiresIn <= 9_223_372_036
  {
  }

  /** Seconds over three, rounded up. */
  function PollBudget(expiresIn: int): nat {
    if expiresIn <= 0 then 0 else (expiresIn + 2) / 3
  }

  /** Event i of a well-timed run grants a code with this lifetime in seconds, and the next n events poll it. */
  ghost predicate PollsCode(rounds: seq<Round>, i: nat, n: nat, expiresIn: int) {
    var trace := Running(rounds, 0).0;
    && ClockRuns(trace) && i + n < |trace|
    && trace[i].Requested? && trace[i].request == Granted(expiresIn)
    && forall m | i < m <= i + n :: trace[m].Polled?
  }

  /** No run polls a code with this lifetime more often than its budget. */
  ghost predicate KeepsBudget(expiresIn: int) {
    forall rounds: seq<Round>, i: nat, n: nat | PollsCode(rounds, i, n, expiresIn) :: n <= PollBudget(expiresIn)
  }

  lemma PollsWithinBudget(rounds: seq<Round>, i: nat, n: nat, expiresIn: int)
    requires PollsCode(rounds, i, n, expiresIn)
    requires expiresIn >= 0 || Lifetime(expiresIn) <= 0
    ensures n <= PollBudget(expiresIn)
  {
    PollsPerCode(rounds, Running(rounds, 0).0, i, n);
  }

  /** A code that expired before it was issued, with a lifetime that wraps to a positive one, can be polled. */
  lemma ExpiredCodeIsPolled(expiresIn: int) returns (rounds: seq<Round>)
    requires Lifetime(expiresIn) > 0
    ensures PollsCode(rounds, 0, 1, expiresIn)
  {
    var poll := Poll(0, INTERVAL, Unreachable);
    rounds := [Round(Granted(expiresIn), 0, [poll])];
    var deadline := Lifetime(expiresIn);
    assert Polling(deadline, [poll], 1) == ([], Stop(Waiting));
    assert [Polled(poll, deadline)] + [] == [Polled(poll, deadline)];
    assert Judge(poll.reply) == Again;
    assert Polling(deadline, [poll], 0) == ([Polled(poll, deadline)], Stop(Waiting));
    assert Running(rounds, 0).0 == [Requested(Granted(expiresIn), 0), Polled(poll, deadline)];
  }

  /**
   Every run keeps the budget of ceil(expiresIn / 3) polls exactly for the lifetimes that are not negative, or
   whose nanoseconds are not positive after the wrap at 64 bits.
   */
  lemma BudgetKeptExactly(expiresIn: int)
    ensures KeepsBudget(expiresIn) <==> expiresIn >= 0 || Lifetime(expiresIn) <= 0
  {
    if expiresIn >= 0 || Lifetime(expiresIn) <= 0 {
      forall rounds: seq<Round>, i: nat, n: nat | PollsCode(rounds, i, n, expiresIn)
        ensures n <= PollBudget(expiresIn)
      {
        PollsWithinBudget(rounds, i, n, expiresIn);
      }
    } else {
      var rounds := ExpiredCodeIsPolled(expiresIn);
      assert PollsCode(rounds, 0, 1, expiresIn);
    }
  }

  /** For instance: -9223372037 seconds are the first to wrap. */
  lemma WrapExample()
    ensures !KeepsBudget(-9_223_372_037)
    ensures forall e | -9_223_372_036 <= e :: KeepsBudget(e)
  {
    BudgetKeptExactly(-9_223_372_037);
    forall e | -9_223_372_036 <= e ensures KeepsBudget(e) {
      BudgetKeptExactly(e);
    }
  }
}
