/**
 The life of a command: a bounded channel between the MQTT callback and the dispatcher, and one goroutine per
 delivery.  MQTT may deliver a command twice (QoS 1, section 4.3.2 of MQTT Version 3.1.1), so everything is
 stated per delivery, not per command id.

 Assumed: the acknowledger and the reporters do not panic.
 */
module Command {
  import opened Wrappers
  import opened Executor

  /** What a handler publishes: an acknowledgement, a result report, a progress report. */
  datatype Event = Ack | Report(status: int) | Progress(phase: Phase)
  datatype Phase = Running | Completed | Failed

  /** How the part before the first report goes: an encrypted command may fail in five ways. */
  datatype Opening = Plain | NoKey | BadEnvelope | CannotOpen | BadPlaintext | OpeningPanics | Opened

  /** How Execute ends: with a result that depends on the command and the world, or in a panic. */
  datatype Ending = Returns(commandType: string, message: string, world: World) | ExecutePanics {
    function Status(): FinalStatus {
      if ExecutePanics? || Fails(commandType, message, world) then 3 else 2
    }
  }

  /** One delivery, with all that decides what its handler does. */
  datatype Delivery = Delivery(acker: bool, opening: Opening, progress: bool, numericId: int, ending: Ending)

  predicate Opens(o: Opening) {
    o.Plain? || o.Opened?
  }

  /** Progress reports need a reporter and a command id that reads as a number other than 0. */
  predicate ReportsProgress(d: Delivery) {
    d.progress && d.numericId != 0
  }

  /** Everything the handler of d publishes, in order. */
  function Trace(d: Delivery): seq<Event> {
    (if d.acker then [Ack] else []) + (if Opens(d.opening) then Execution(d) else [Report(3)])
  }

  function Execution(d: Delivery): seq<Event> {
    [Report(1)] + (if ReportsProgress(d) then [Progress(Running)] else []) + TailOf(d)
  }

  /** What follows the execution. */
  function TailOf(d: Delivery): seq<Event> {
    match d.ending
    case ExecutePanics => [Report(3)]
    case Returns(_, _, _) =>
      var s := d.ending.Status();
      (if ReportsProgress(d) then [Progress(if s == 3 then Failed else Completed)] else []) + [Report(s)]
  }

  function Reports(t: seq<Event>): seq<int> {
    if t == [] then []
    else Reports(t[..|t| - 1]) + if t[|t| - 1].Report? then [t[|t| - 1].status] else []
  }

  /** handleCommand with its deferred recover. */
  class Handler {
    var published: seq<Event>

    constructor ()
      ensures published == []
    {
      published := [];
    }

    method Publish(e: Event)
      modifies this
      ensures published == old(published) + [e]
    {
      published := published + [e];
    }

    method SendProgress(d: Delivery, phase: Phase)
      modifies this
      ensures published == old(published) + if ReportsProgress(d) then [Progress(phase)] else []
    {
      if !d.progress {
        return;
      }
      if d.numericId == 0 {
        return;
      }
      Publish(Progress(phase));
    }

    /** handleCommand from the first report on; panicked says that Execute did. */
    method RunCommand(d: Delivery) returns (panicked: bool)
      modifies this
      ensures published + (if panicked then [Report(3)] else []) == old(published) + Execution(d)
    {
      Publish(Report(1));
      SendProgress(d, Running);
      if d.ending.ExecutePanics? {
        return true;
      }
      var result, _ := Execute(d.ending.commandType, d.ending.message, d.ending.world);
      var finalStatus := Completed;
      if result.status == 3 {
        finalStatus := Failed;
      }
      SendProgress(d, finalStatus);
      Publish(Report(result.status));
      return false;
    }

    /** The statements of handleCommand; panicked says that one of them did. */
    method Body(d: Delivery) returns (panicked: bool)
      modifies this
      ensures published + (if panicked then [Report(3)] else []) == old(published) + Trace(d)
    {
      if d.acker {
        Publish(Ack);
      }
      match d.opening {
        case NoKey => Publish(Report(3)); return false;
        case BadEnvelope => Publish(Report(3)); return false;
        case CannotOpen => Publish(Report(3)); return false;
        case BadPlaintext => Publish(Report(3)); return false;
        case OpeningPanics => return true;
        case Plain =>
        case Opened =>
      }
      panicked := RunCommand(d);
    }

    method HandleCommand(d: Delivery)
      modifies this
      ensures published == old(published) + Trace(d)
    {
      var panicked := Body(d);
      if panicked {
        Publish(Report(3));
      }
    }
  }

  // ----- The shape of one trace -----

  lemma {:induction false} ReportsConcat(a: seq<Event>, b: seq<Event>)
    ensures Reports(a + b) == Reports(a) + Reports(b)
  {
    if b == [] {
      assert a + b == a;
    } else {
      var n := |b| - 1;
      assert (a + b)[..|a + b| - 1] == a + b[..n];
      ReportsConcat(a, b[..n]);
    }
  }

  lemma ReportsOfOne(e: Event)
    ensures Reports([e]) == if e.Report? then [e.status] else []
  {
    assert [e][..0] == [];
  }

  /** The final report of d: what Execute returned, or 3 for a panic or a command that could not be opened. */
  function FinalReport(d: Delivery): (s: int)
    ensures s == 2 || s == 3
  {
    if Opens(d.opening) then d.ending.Status() else 3
  }

  function AllReports(d: Delivery): seq<int> {
    if Opens(d.opening) then [1, FinalReport(d)] else [3]
  }

  /** A command that cannot be opened reports [3]; any other reports [1, s], a panic in Execute included. */
  lemma ReportsOfTrace(d: Delivery)
    ensures Reports(Trace(d)) == AllReports(d)
  {
    var ack := if d.acker then [Ack] else [];
    ReportsOfOne(Ack);
    assert Reports(ack) == [];
    if Opens(d.opening) {
      ReportsConcat(ack, Execution(d));
      ReportsOfExecution(d);
    } else {
      ReportsConcat(ack, [Report(3)]);
      ReportsOfOne(Report(3));
    }
  }

  lemma ReportsOfExecution(d: Delivery)
    ensures Reports(Execution(d)) == [1, d.ending.Status() as int]
  {
    var run := if ReportsProgress(d) then [Progress(Running)] else [];
    ReportsOfOne(Report(1));
    ReportsOfOne(Progress(Running));
    assert Reports(run) == [];
    ReportsOfTail(d);
    ReportsConcat([Report(1)] + run, TailOf(d));
    ReportsConcat([Report(1)], run);
  }

  lemma ReportsOfTail(d: Delivery)
    ensures Reports(TailOf(d)) == [d.ending.Status() as int]
  {
    ReportsOfOne(Report(3));
    if d.ending.Returns? {
      var s := d.ending.Status();
      var p := Progress(if s == 3 then Failed else Completed);
      ReportsOfOne(p);
      ReportsOfOne(Report(s));
      ReportsConcat(if ReportsProgress(d) then [p] else [], [Report(s)]);
    }
  }

  /** Which reports there are, by how the command was opened: one failure, or a start and a final status. */
  lemma ReportsByOpening(d: Delivery)
    ensures d.opening in {NoKey, BadEnvelope, CannotOpen, BadPlaintext, OpeningPanics} ==> Reports(Trace(d)) == [3]
    ensures d.opening in {Plain, Opened} ==>
      && |Reports(Trace(d))| == 2 && Reports(Trace(d))[0] == 1
      && (Reports(Trace(d))[1] == 3 <==> d.ending.ExecutePanics? || Fails(d.ending.commandType, d.ending.message, d.ending.world))
      && (Reports(Trace(d))[1] == 2 <==> Reports(Trace(d))[1] != 3)
  {
    ReportsOfTrace(d);
  }

  /** An acknowledgement is sent exactly when there is an acknowledger, once, and before anything else. */
  lemma AckComesFirst(d: Delivery)
    ensures d.acker ==> Trace(d)[0] == Ack
    ensures forall i | 0 <= i < |Trace(d)| && Trace(d)[i] == Ack :: i == 0 && d.acker
  {
    assert Ack !in TailOf(d);
    assert Ack !in Execution(d);
  }

  /** The running progress directly follows the start report, exactly when execution starts and progress is reported. */
  lemma RunningFollowsTheStart(d: Delivery)
    ensures Progress(Running) in Trace(d) <==> d.opening in {Plain, Opened} && d.progress && d.numericId != 0
    ensures forall i | 0 <= i < |Trace(d)| && Trace(d)[i] == Progress(Running) :: i > 0 && Trace(d)[i - 1] == Report(1)
  {
    var ack := if d.acker then [Ack] else [];
    assert Progress(Running) !in TailOf(d);
    if Opens(d.opening) && ReportsProgress(d) {
      assert Trace(d) == ack + ([Report(1)] + [Progress(Running)] + TailOf(d));
      assert Trace(d)[|ack|] == Report(1) && Trace(d)[|ack| + 1] == Progress(Running);
    }
  }

  /** A final progress is sent exactly when Execute returned and progress is reported, and it says "failed" exactly when the final report is 3. */
  lemma FinalProgress(d: Delivery)
    ensures (exists p :: p != Running && Progress(p) in Trace(d))
       <==> d.opening in {Plain, Opened} && d.ending.Returns? && d.progress && d.numericId != 0
    ensures Progress(Failed) in Trace(d) ==> FinalReport(d) == 3
    ensures Progress(Completed) in Trace(d) ==> FinalReport(d) == 2
  {
    var p := if d.ending.Status() == 3 then Failed else Completed;
    if Opens(d.opening) && d.ending.Returns? && ReportsProgress(d) {
      assert Progress(p) in TailOf(d);
      assert Progress(p) in Trace(d);
    }
  }

  // ----- Many deliveries at once -----

  const CHANNEL_CAPACITY := 32

  /** progress[i] counts what the handler of dispatched[i] has published; log is what the server sees. */
  datatype System = System(
    channel: seq<Delivery>,
    received: seq<Delivery>,
    dispatched: seq<Delivery>,
    running: bool,
    done: seq<nat>,
    log: seq<(nat, Event)>)

  /** A message arrives; the dispatcher takes one; the context is cancelled; handler i publishes its next event. */
  datatype Action = Receive(d: Delivery) | Dispatch | Cancel | Step(i: nat)

  const IDLE := System([], [], [], true, [], [])

  function Next(s: System, a: Action): System {
    match a
    case Receive(d) =>  // the callback blocks while the channel is full
      if |s.channel| >= CHANNEL_CAPACITY then s else s.(channel := s.channel + [d], received := s.received + [d])
    case Dispatch =>
      if !s.running || s.channel == [] then s
      else s.(channel := s.channel[1..], dispatched := s.dispatched + [s.channel[0]], done := s.done + [0])
    case Cancel => s.(running := false)
    case Step(i) =>
      if i >= |s.dispatched| || i >= |s.done| || s.done[i] >= |Trace(s.dispatched[i])| then s
      else s.(done := s.done[i := s.done[i] + 1], log := s.log + [(i, Trace(s.dispatched[i])[s.done[i]])])
  }

  function Exec(actions: seq<Action>): System {
    if actions == [] then IDLE else Next(Exec(actions[..|actions| - 1]), actions[|actions| - 1])
  }

  /** The part of the log that delivery i wrote. */
  function Project(log: seq<(nat, Event)>, i: nat): seq<Event> {
    if log == [] then []
    else
      var n := |log| - 1;
      Project(log[..n], i) + if log[n].0 == i then [log[n].1] else []
  }

  /** Each handler has written a beginning of its own trace, and nobody else has written in its name. */
  ghost predicate LogMatches(traces: seq<seq<Event>>, done: seq<nat>, log: seq<(nat, Event)>) {
    && |done| == |traces|
    && (forall i | 0 <= i < |done| :: done[i] <= |traces[i]| && Project(log, i) == traces[i][..done[i]])
    && (forall i | i >= |done| :: Project(log, i) == [])
  }

  function Traces(ds: seq<Delivery>): seq<seq<Event>> {
    seq(|ds|, i requires 0 <= i < |ds| => Trace(ds[i]))
  }

  ghost predicate Inv(s: System) {
    && s.received == s.dispatched + s.channel
    && |s.channel| <= CHANNEL_CAPACITY
    && LogMatches(Traces(s.dispatched), s.done, s.log)
  }

  lemma ProjectAppend(log: seq<(nat, Event)>, i: nat, e: Event, j: nat)
    ensures Project(log + [(i, e)], j) == Project(log, j) + if j == i then [e] else []
  {
    var log' := log + [(i, e)];
    assert log'[..|log'| - 1] == log;
  }

  lemma StepKeepsLog(traces: seq<seq<Event>>, done: seq<nat>, log: seq<(nat, Event)>, i: nat)
    requires LogMatches(traces, done, log) && i < |done| && done[i] < |traces[i]|
    ensures LogMatches(traces, done[i := done[i] + 1], log + [(i, traces[i][done[i]])])
  {
    var t, k := traces[i], done[i];
    assert t[..k + 1] == t[..k] + [t[k]];
    forall j: nat ensures Project(log + [(i, t[k])], j) == Project(log, j) + if j == i then [t[k]] else [] {
      ProjectAppend(log, i, t[k], j);
    }
  }

  /** A new handler starts with an empty trace of its own. */
  lemma DispatchKeepsLog(traces: seq<seq<Event>>, done: seq<nat>, log: seq<(nat, Event)>, t: seq<Event>)
    requires LogMatches(traces, done, log)
    ensures LogMatches(traces + [t], done + [0], log)
  {
    assert (traces + [t])[|done|][..0] == [];
  }

  lemma TracesAppend(ds: seq<Delivery>, d: Delivery)
    ensures Traces(ds + [d]) == Traces(ds) + [Trace(d)]
  {
  }

  lemma DispatchKeepsInv(s: System)
    requires Inv(s) && s.running && s.channel != []
    ensures Inv(Next(s, Dispatch))
  {
    var d := s.channel[0];
    TracesAppend(s.dispatched, d);
    DispatchKeepsLog(Traces(s.dispatched), s.done, s.log, Trace(d));
    assert s.dispatched + s.channel == (s.dispatched + [d]) + s.channel[1..];
  }

  lemma StepKeepsInv(s: System, i: nat)
    requires Inv(s) && i < |s.done| && s.done[i] < |Trace(s.dispatched[i])|
    ensures Inv(Next(s, Step(i)))
  {
    StepKeepsLog(Traces(s.dispatched), s.done, s.log, i);
  }

  lemma NextKeepsInv(s: System, a: Action)
    requires Inv(s)
    ensures Inv(Next(s, a))
  {
    match a
    case Step(i) =>
      if i < |s.done| && s.done[i] < |Trace(s.dispatched[i])| {
        StepKeepsInv(s, i);
      }
    case Dispatch =>
      if s.running && s.channel != [] {
        DispatchKeepsInv(s);
      }
    case _ =>
  }

  lemma {:induction false} ReachableInv(actions: seq<Action>)
    ensures Inv(Exec(actions))
  {
    if actions != [] {
      ReachableInv(actions[..|actions| - 1]);
      NextKeepsInv(Exec(actions[..|actions| - 1]), actions[|actions| - 1]);
    }
  }

  /** A delivery is accepted unless 32 are waiting, the oldest is dispatched while the loop runs, and each handler gets on. */
  lemma NothingIsStuck(s: System, d: Delivery, i: nat)
    ensures |s.channel| < 32 ==> Next(s, Receive(d)).received == s.received + [d]
    ensures s.running && s.channel != [] ==> Next(s, Dispatch).dispatched == s.dispatched + [s.channel[0]]
    ensures i < |s.dispatched| == |s.done| && s.done[i] < |Trace(s.dispatched[i])| ==>
      Next(s, Step(i)).log == s.log + [(i, Trace(s.dispatched[i])[s.done[i]])]
    ensures !Next(s, Cancel).running && Next(s, Cancel) == s.(running := false)
  {
  }

  /** First in, first out: what was received is what was dispatched, then at most 32 deliveries still in the channel. */
  lemma DispatchedInOrder(actions: seq<Action>)
    ensures Exec(actions).received == Exec(actions).dispatched + Exec(actions).channel
    ensures |Exec(actions).channel| <= CHANNEL_CAPACITY
  {
    ReachableInv(actions);
  }

  /**
   However the handlers interleave, the reports of one delivery are a beginning of [3] or of [1, s] with s in
   {2, 3}; and once its handler has ended they are all of it, even if Execute panicked.
   */
  lemma ReportsOfDelivery(actions: seq<Action>, i: nat)
    requires i < |Exec(actions).dispatched|
    ensures |Exec(actions).done| == |Exec(actions).dispatched|
    ensures var s := Exec(actions);
      var d := s.dispatched[i];
      && Reports(Project(s.log, i)) <= AllReports(d)
      && (s.done[i] == |Trace(d)| ==> Reports(Project(s.log, i)) == AllReports(d))
  {
    ReachableInv(actions);
    var s := Exec(actions);
    ReportsOfTrace(s.dispatched[i]);
    ReportsSoFar(Trace(s.dispatched[i]), s.done[i], Project(s.log, i), AllReports(s.dispatched[i]));
  }

  /** Reports of a beginning of a trace are a beginning of its reports. */
  lemma ReportsSoFar(t: seq<Event>, n: nat, written: seq<Event>, all: seq<int>)
    requires n <= |t| && written == t[..n] && Reports(t) == all
    ensures Reports(written) <= all
    ensures n == |t| ==> Reports(written) == all
  {
    assert t == t[..n] + t[n..];
    ReportsConcat(t[..n], t[n..]);
    assert t[..|t|] == t;
  }
}
