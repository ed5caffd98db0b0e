/**
 The heartbeat goroutine: when a beat carries extra data.  Times are nanoseconds on a clock that never goes
 back; what the collectors find is an input.
 */
module Heartbeat {
  import opened Wrappers
  import opened Durations

  const OPENCLAW_INTERVAL := 5
  const AGENTS_COOLDOWN := 30 * SECOND
  const MESSAGE_COOLDOWN := 120 * SECOND

  /** What a collection yields: the fingerprint of its agents ("" if none) and its hash; None if it cannot be encoded. */
  type Found = Option<(string, string)>

  /** CollectOpenClawInfo succeeds, or fails and leaves the agents-only fallback, which may be absent. */
  datatype Collected = Info(found: Found) | Fallback(agents: Option<Found>)

  /** The inputs of one beat, with the clock readings in the order the beat takes them. */
  datatype Beat = Beat(recentMessage: bool, fingerprint: string, collected: Collected,
                       agentsRead: int, messageRead: int, agentsStamp: int, messageStamp: int)

  predicate InOrder(b: Beat) {
    b.agentsRead <= b.messageRead <= b.agentsStamp <= b.messageStamp
  }

  datatype State = State(count: nat, lastHash: string, lastFingerprint: string,
                         agentsAt: Option<int>, messageAt: Option<int>)

  const START := State(0, "", "", None, None)

  predicate IntervalDue(count: nat) {
    count % OPENCLAW_INTERVAL == 1
  }

  /** The cooldown since the last trigger is over, or there was none. */
  predicate CooledDown(last: Option<int>, now: int, cooldown: int) {
    last.None? || now - last.value >= cooldown
  }

  predicate AgentsDue(s: State, b: Beat) {
    b.fingerprint != "" && b.fingerprint != s.lastFingerprint && CooledDown(s.agentsAt, b.agentsRead, AGENTS_COOLDOWN)
  }

  predicate MessageDue(s: State, b: Beat) {
    b.recentMessage && CooledDown(s.messageAt, b.messageRead, MESSAGE_COOLDOWN)
  }

  function Usable(c: Collected): Found {
    match c
    case Info(found) => found
    case Fallback(None) => None
    case Fallback(Some(agents)) => agents
  }

  /** A beat sends extra data exactly when it is due and something could be collected. */
  predicate Sends(s: State, b: Beat) {
    (IntervalDue(s.count + 1) || AgentsDue(s, b) || MessageDue(s, b)) && Usable(b.collected).Some?
  }

  function After(s: State, b: Beat): State {
    if !Sends(s, b) then s.(count := s.count + 1)
    else
      var (fp, hash) := Usable(b.collected).value;
      State(s.count + 1, hash,
        if fp != "" then fp else if b.fingerprint != "" then b.fingerprint else s.lastFingerprint,
        if AgentsDue(s, b) then Some(b.agentsStamp) else s.agentsAt,
        if MessageDue(s, b) then Some(b.messageStamp) else s.messageAt)
  }

  class HeartbeatLoop {
    var heartbeatCount: nat
    var lastExtraHash: string
    var lastAgentsFingerprint: string
    var lastAgentsTriggeredAt: Option<int>   // None for the zero time
    var lastMessageTriggeredAt: Option<int>

    function Model(): State
      reads this
    {
      State(heartbeatCount, lastExtraHash, lastAgentsFingerprint, lastAgentsTriggeredAt, lastMessageTriggeredAt)
    }

    constructor ()
      ensures Model() == START
    {
      heartbeatCount, lastExtraHash, lastAgentsFingerprint := 0, "", "";
      lastAgentsTriggeredAt, lastMessageTriggeredAt := None, None;
    }

    /**
     sendHeartbeat.  The comparison with the last hash never decides anything: by the time it is made, one of
     the three triggers is due.
     */
    method SendHeartbeat(b: Beat) returns (extraData: bool)
      modifies this
      ensures extraData == Sends(old(Model()), b)
      ensures Model() == After(old(Model()), b)
    {
      heartbeatCount := heartbeatCount + 1;
      extraData := false;
      var intervalDue := heartbeatCount % OPENCLAW_INTERVAL == 1;
      var agentsChanged := b.fingerprint != "" && b.fingerprint != lastAgentsFingerprint;
      var agentsDue := agentsChanged &&
        (lastAgentsTriggeredAt.None? || b.agentsRead - lastAgentsTriggeredAt.value >= AGENTS_COOLDOWN);
      var messageDue := b.recentMessage &&
        (lastMessageTriggeredAt.None? || b.messageRead - lastMessageTriggeredAt.value >= MESSAGE_COOLDOWN);
      assert agentsDue == AgentsDue(old(Model()), b) && messageDue == MessageDue(old(Model()), b);
      if intervalDue || agentsDue || messageDue {
        match b.collected {
          case Info(Some((fp, hash))) =>
            if intervalDue || agentsDue || messageDue || hash != lastExtraHash {
              extraData := true;
              lastExtraHash := hash;
            }
            Remember(fp, b, agentsDue, messageDue);
          case Info(None) =>
          case Fallback(Some(Some((fp, hash)))) =>
            if intervalDue || agentsDue || messageDue || hash != lastExtraHash {
              extraData := true;
              lastExtraHash := hash;
            }
            Remember(fp, b, agentsDue, messageDue);
          case Fallback(_) =>
        }
      }
    }

    /** What both paths record after a collection. */
    method Remember(fp: string, b: Beat, agentsDue: bool, messageDue: bool)
      modifies this`lastAgentsFingerprint, this`lastAgentsTriggeredAt, this`lastMessageTriggeredAt
      ensures lastAgentsFingerprint ==
        if fp != "" then fp else if b.fingerprint != "" then b.fingerprint else old(lastAgentsFingerprint)
      ensures lastAgentsTriggeredAt == if agentsDue then Some(b.agentsStamp) else old(lastAgentsTriggeredAt)
      ensures lastMessageTriggeredAt == if messageDue then Some(b.messageStamp) else old(lastMessageTriggeredAt)
    {
      if fp != "" {
        lastAgentsFingerprint := fp;
      } else if b.fingerprint != "" {
        lastAgentsFingerprint := b.fingerprint;
      }
      if agentsDue {
        lastAgentsTriggeredAt := Some(b.agentsStamp);
      }
      if messageDue {
        lastMessageTriggeredAt := Some(b.messageStamp);
      }
    }
  }

  // ----- What a beat must and must not do -----

  /** A beat sends, and then remembers the fingerprint it collected or else the one reported, or changes only its count. */
  lemma Remembers(s: State, b: Beat)
    ensures After(s, b).count == s.count + 1
    ensures !Sends(s, b) ==> After(s, b) == s.(count := s.count + 1)
    ensures Sends(s, b) ==>
      Usable(b.collected).Some? &&
      var (fp, hash) := Usable(b.collected).value;
      && After(s, b).lastHash == hash
      && (fp != "" ==> After(s, b).lastFingerprint == fp)
      && (fp == "" && b.fingerprint != "" ==> After(s, b).lastFingerprint == b.fingerprint)
      && (fp == "" && b.fingerprint == "" ==> After(s, b).lastFingerprint == s.lastFingerprint)
  {
  }

  /** At least this long has passed since the last time, if there was one. */
  predicate Passed(last: Option<int>, now: int, time: int) {
    last.None? || now >= last.value + time
  }

  /** A beat that reports no fingerprint, or the remembered one, records no agent trigger, and sends only for another reason. */
  lemma NoChangeNoTrigger(s: State, b: Beat)
    requires b.fingerprint == "" || b.fingerprint == s.lastFingerprint
    ensures After(s, b).agentsAt == s.agentsAt
    ensures Sends(s, b) ==> IntervalDue(s.count + 1) || (b.recentMessage && Passed(s.messageAt, b.messageRead, 120 * SECOND))
  {
  }

  /** Nor does a change before 30 s have passed. */
  lemma NoTriggerTooSoon(s: State, b: Beat)
    requires !Passed(s.agentsAt, b.agentsRead, 30 * SECOND)
    ensures After(s, b).agentsAt == s.agentsAt
    ensures Sends(s, b) ==> IntervalDue(s.count + 1) || (b.recentMessage && Passed(s.messageAt, b.messageRead, 120 * SECOND))
  {
  }

  /** A new fingerprint after the cooldown sends whatever could be collected, and is recorded. */
  lemma ChangeTriggers(s: State, b: Beat)
    requires b.fingerprint != "" && b.fingerprint != s.lastFingerprint && Passed(s.agentsAt, b.agentsRead, 30 * SECOND)
    requires Usable(b.collected).Some?
    ensures Sends(s, b) && After(s, b).agentsAt == Some(b.agentsStamp)
  {
  }

  /** Without a recent message, or before 120 s have passed, no message trigger is recorded. */
  lemma NoMessageNoTrigger(s: State, b: Beat)
    requires !b.recentMessage || !Passed(s.messageAt, b.messageRead, 120 * SECOND)
    ensures After(s, b).messageAt == s.messageAt
    ensures Sends(s, b) ==>
      || IntervalDue(s.count + 1)
      || (b.fingerprint != "" && b.fingerprint != s.lastFingerprint && Passed(s.agentsAt, b.agentsRead, 30 * SECOND))
  {
  }

  /** A recent message after the cooldown sends whatever could be collected, and is recorded. */
  lemma RecentMessageTriggers(s: State, b: Beat)
    requires b.recentMessage && Passed(s.messageAt, b.messageRead, 120 * SECOND) && Usable(b.collected).Some?
    ensures Sends(s, b) && After(s, b).messageAt == Some(b.messageStamp)
  {
  }

  /** What can be collected is the full information if that succeeds, and otherwise the agents-only fallback. */
  lemma UsableMeans(c: Collected, found: (string, string))
    ensures Usable(c) == Some(found) <==> c == Info(Some(found)) || c == Fallback(Some(Some(found)))
  {
  }

  // ----- Runs -----

  function Exec(s: State, beats: seq<Beat>): State {
    if beats == [] then s else After(Exec(s, beats[..|beats| - 1]), beats[|beats| - 1])
  }

  /** How many of the beats send extra data. */
  function Sent(s: State, beats: seq<Beat>): nat {
    if beats == [] then 0
    else
      var n := |beats| - 1;
      Sent(s, beats[..n]) + if Sends(Exec(s, beats[..n]), beats[n]) then 1 else 0
  }

  /** How many of them are due by count alone, and how many record an agent or a message trigger. */
  function Intervals(count: nat, n: nat): nat {
    if n == 0 then 0 else Intervals(count, n - 1) + if IntervalDue(count + n) then 1 else 0
  }

  function AgentTriggers(s: State, beats: seq<Beat>): seq<int> {
    if beats == [] then []
    else
      var n := |beats| - 1;
      var before := Exec(s, beats[..n]);
      AgentTriggers(s, beats[..n]) + if Sends(before, beats[n]) && AgentsDue(before, beats[n]) then [beats[n].agentsStamp] else []
  }

  function MessageTriggers(s: State, beats: seq<Beat>): seq<int> {
    if beats == [] then []
    else
      var n := |beats| - 1;
      var before := Exec(s, beats[..n]);
      MessageTriggers(s, beats[..n]) + if Sends(before, beats[n]) && MessageDue(before, beats[n]) then [beats[n].messageStamp] else []
  }

  /** A monotone clock between from and to. */
  ghost predicate Clocked(beats: seq<Beat>, from: int, to: int) {
    && from <= to
    && (forall i | 0 <= i < |beats| :: InOrder(beats[i]) && from <= beats[i].agentsRead && beats[i].messageStamp <= to)
    && (forall i | 0 < i < |beats| :: beats[i - 1].messageStamp <= beats[i].agentsRead)
  }

  ghost predicate Spaced(stamps: seq<int>, gap: int) {
    forall i | 0 < i < |stamps| :: stamps[i] - stamps[i - 1] >= gap
  }

  /** Five beats in a row include exactly one interval-due collection. */
  lemma IntervalsEveryFive(count: nat)
    ensures Intervals(count, 5) == 1
  {
    assert Intervals(count, 1) == if IntervalDue(count + 1) then 1 else 0;
    assert Intervals(count, 2) == Intervals(count, 1) + if IntervalDue(count + 2) then 1 else 0;
    assert Intervals(count, 3) == Intervals(count, 2) + if IntervalDue(count + 3) then 1 else 0;
    assert Intervals(count, 4) == Intervals(count, 3) + if IntervalDue(count + 4) then 1 else 0;
  }

  lemma {:induction false} IntervalsConcat(count: nat, m: nat, n: nat)
    ensures Intervals(count, m + n) == Intervals(count, m) + Intervals(count + m, n)
  {
    if n > 0 {
      IntervalsConcat(count, m, n - 1);
      assert count + (m + n) == (count + m) + n;
    }
  }

  lemma {:induction false} IntervalsBound(count: nat, n: nat)
    ensures Intervals(count, n) <= (n + 4) / 5
    decreases n
  {
    if n > 5 {
      IntervalsEveryFive(count);
      IntervalsConcat(count, 5, n - 5);
      IntervalsBound(count + 5, n - 5);
    } else if n > 0 {
      IntervalsConcat(count, n, 5 - n);
      IntervalsEveryFive(count);
    }
  }

  lemma {:induction false} ExecCount(s: State, beats: seq<Beat>)
    ensures Exec(s, beats).count == s.count + |beats|
  {
    if beats != [] {
      ExecCount(s, beats[..|beats| - 1]);
    }
  }

  /** Beat i of the run is due by count. */
  predicate DueByCount(s: State, beats: seq<Beat>, i: nat)
    requires i < |beats|
  {
    IntervalDue(Exec(s, beats[..i]).count + 1)
  }

  /** The first beat is due by count, and then every fifth. */
  lemma DueCounts(count: nat)
    ensures IntervalDue(1)
    ensures IntervalDue(count) <==> IntervalDue(count + 5)
  {
  }

  lemma DueWithinFive(count: nat) returns (r: nat)
    ensures r < 5 && IntervalDue(count + r + 1)
  {
    r := (5 - count % 5) % 5;
  }

  lemma DueOnceInFive(a: nat, b: nat)
    requires IntervalDue(a) && IntervalDue(b) && a < b + 5 && b < a + 5
    ensures a == b
  {
    assert a == 5 * (a / 5) + 1 && b == 5 * (b / 5) + 1;
  }

  /**
   Among any five beats in a row of any run, exactly one is due by count; it collects, and sends whenever
   something usable was collected.
   */
  lemma OneDueInFive(s: State, beats: seq<Beat>, k: nat) returns (i: nat)
    requires k + 5 <= |beats|
    ensures k <= i < k + 5 && DueByCount(s, beats, i)
    ensures forall j | k <= j < k + 5 && DueByCount(s, beats, j) :: j == i
    ensures Sends(Exec(s, beats[..i]), beats[i]) <==> Usable(beats[i].collected).Some?
  {
    var r := DueWithinFive(s.count + k);
    i := k + r;
    ExecCount(s, beats[..i]);
    forall j | k <= j < k + 5 && DueByCount(s, beats, j) ensures j == i {
      ExecCount(s, beats[..j]);
      DueOnceInFive(s.count + j + 1, s.count + i + 1);
    }
  }

  /** The beats report f, and what they collect does not contradict it. */
  ghost predicate Repeats(beats: seq<Beat>, f: string) {
    forall i | 0 <= i < |beats| :: beats[i].fingerprint == f &&
      (Usable(beats[i].collected).Some? ==> Usable(beats[i].collected).value.0 in {"", f})
  }

  /** While the agents stay as remembered, nothing is recorded for them, however long the run. */
  lemma {:induction false} QuietWhileUnchanged(s: State, beats: seq<Beat>)
    requires Repeats(beats, s.lastFingerprint)
    ensures Exec(s, beats).agentsAt == s.agentsAt && Exec(s, beats).lastFingerprint == s.lastFingerprint
  {
    if beats != [] {
      var init, b := beats[..|beats| - 1], beats[|beats| - 1];
      QuietWhileUnchanged(s, init);
      NoChangeNoTrigger(Exec(s, init), b);
      Remembers(Exec(s, init), b);
    }
  }

  /** So of two different records for agents, a beat between them reported something other than was remembered. */
  lemma {:induction false} RecordsNeedAChange(s: State, beats: seq<Beat>) returns (i: nat)
    requires Exec(s, beats).agentsAt != s.agentsAt
    ensures i < |beats| && beats[i].fingerprint != "" && beats[i].fingerprint != Exec(s, beats[..i]).lastFingerprint
    ensures Exec(s, beats[..i + 1]).agentsAt == Exec(s, beats).agentsAt == Some(beats[i].agentsStamp)
  {
    assert beats != [];
    var n := |beats| - 1;
    var before, b := Exec(s, beats[..n]), beats[n];
    assert beats[..n + 1] == beats;
    if After(before, b).agentsAt != before.agentsAt {
      i := n;
      if b.fingerprint == "" || b.fingerprint == before.lastFingerprint {
        NoChangeNoTrigger(before, b);
        assert false;
      }
    } else {
      i := RecordsNeedAChange(s, beats[..n]);
      assert beats[..n][..i] == beats[..i] && beats[..n][..i + 1] == beats[..i + 1];
    }
  }

  /** Every beat that sends has a trigger of its own. */
  lemma {:induction false} SentHaveTriggers(s: State, beats: seq<Beat>)
    ensures Sent(s, beats) <= Intervals(s.count, |beats|) + |AgentTriggers(s, beats)| + |MessageTriggers(s, beats)|
  {
    if beats != [] {
      var n := |beats| - 1;
      SentHaveTriggers(s, beats[..n]);
      ExecCount(s, beats[..n]);
    }
  }

  /** The stamps are spaced and in the interval, and the last of them is what is on record. */
  ghost predicate OnRecord(stamps: seq<int>, gap: int, from: int, to: int, first: Option<int>, last: Option<int>) {
    && Spaced(stamps, gap)
    && (forall i | 0 <= i < |stamps| :: from <= stamps[i] <= to)
    && last == if stamps == [] then first else Some(stamps[|stamps| - 1])
  }

  lemma RecordOneMore(stamps: seq<int>, gap: int, from: int, to: int, first: Option<int>, last: Option<int>, stamp: int)
    requires OnRecord(stamps, gap, from, to, first, last) && from <= stamp <= to
    requires last.Some? ==> stamp - last.value >= gap
    ensures OnRecord(stamps + [stamp], gap, from, to, first, Some(stamp))
  {
  }

  /** Recorded agent triggers are 30 seconds apart, whichever path recorded them. */
  lemma {:induction false} AgentTriggersSpaced(s: State, beats: seq<Beat>, from: int, to: int)
    requires Clocked(beats, from, to)
    ensures OnRecord(AgentTriggers(s, beats), AGENTS_COOLDOWN, from, to, s.agentsAt, Exec(s, beats).agentsAt)
  {
    if beats != [] {
      var init, b := beats[..|beats| - 1], beats[|beats| - 1];
      var before := Exec(s, init);
      AgentTriggersSpaced(s, init, from, to);
      assert AgentTriggers(s, init) + [] == AgentTriggers(s, init);
      if Sends(before, b) && AgentsDue(before, b) {
        RecordOneMore(AgentTriggers(s, init), AGENTS_COOLDOWN, from, to, s.agentsAt, before.agentsAt, b.agentsStamp);
      }
    }
  }

  /** Recorded message triggers are 120 seconds apart. */
  lemma {:induction false} MessageTriggersSpaced(s: State, beats: seq<Beat>, from: int, to: int)
    requires Clocked(beats, from, to)
    ensures OnRecord(MessageTriggers(s, beats), MESSAGE_COOLDOWN, from, to, s.messageAt, Exec(s, beats).messageAt)
  {
    if beats != [] {
      var init, b := beats[..|beats| - 1], beats[|beats| - 1];
      var before := Exec(s, init);
      MessageTriggersSpaced(s, init, from, to);
      assert MessageTriggers(s, init) + [] == MessageTriggers(s, init);
      if Sends(before, b) && MessageDue(before, b) {
        RecordOneMore(MessageTriggers(s, init), MESSAGE_COOLDOWN, from, to, s.messageAt, before.messageAt, b.messageStamp);
      }
    }
  }

  lemma {:induction false} SpacedSpan(stamps: seq<int>, gap: int)
    requires stamps != [] && Spaced(stamps, gap)
    ensures (|stamps| - 1) * gap <= stamps[|stamps| - 1] - stamps[0]
  {
    if |stamps| > 1 {
      var n := |stamps| - 1;
      SpacedSpan(stamps[..n], gap);
      assert n * gap == (n - 1) * gap + gap;
    }
  }

  lemma FitsWholeTimes(k: int, gap: int, t: int)
    requires gap > 0
    ensures k * gap <= t ==> k <= t / gap
  {
    var q := t / gap;
    assert t < (q + 1) * gap by {
      assert t == gap * q + t % gap;
    }
    if k > q {
      assert k * gap == (q + 1) * gap + (k - q - 1) * gap;
      assert (k - q - 1) * gap >= 0;
    }
  }

  /** Spaced stamps in an interval are few. */
  lemma SpacedAreFew(stamps: seq<int>, gap: int, from: int, to: int)
    requires gap > 0 && from <= to && Spaced(stamps, gap)
    requires forall i | 0 <= i < |stamps| :: from <= stamps[i] <= to
    ensures |stamps| <= (to - from) / gap + 1
  {
    if stamps == [] {
      FitsWholeTimes(0, gap, to - from);
    } else {
      SpacedSpan(stamps, gap);
      FitsWholeTimes(|stamps| - 1, gap, to - from);
    }
  }

  /**
   The rate bound.  Any window of n beats within T nanoseconds sends extra data at most
   ceil(n/5) + (floor(T/30s) + 1) + (floor(T/120s) + 1) times.
   */
  lemma RateBound(s: State, beats: seq<Beat>, from: int, to: int)
    requires Clocked(beats, from, to)
    ensures Sent(s, beats) <= (|beats| + 4) / 5 + ((to - from) / AGENTS_COOLDOWN + 1) + ((to - from) / MESSAGE_COOLDOWN + 1)
  {
    SentHaveTriggers(s, beats);
    IntervalsBound(s.count, |beats|);
    AgentTriggersSpaced(s, beats, from, to);
    SpacedAreFew(AgentTriggers(s, beats), AGENTS_COOLDOWN, from, to);
    MessageTriggersSpaced(s, beats, from, to);
    SpacedAreFew(MessageTriggers(s, beats), MESSAGE_COOLDOWN, from, to);
  }
}
