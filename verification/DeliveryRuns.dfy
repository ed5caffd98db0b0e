/**
 What the goroutines of the pipeline get done: the start-up recovery from beginning to end, spilled batches,
 and what reaches the server and the store.
 */
module DeliveryRuns {
  import opened Wrappers
  import opened CacheSpec
  import opened Delivery
  import CacheRuns

  // ----- The start-up recovery, undisturbed -----

  /** An event of the recovery in which everything works: entries of the store decode, and uploads succeed. */
  predicate Smooth(e: Event, stored: set<Item>) {
    e.RecoveryPop? || (e.RecoveryDecode? && e.bad !! stored) || e == RecoveryUpload(true)
  }

  function StoredItems(st: Store): set<Item> {
    set x | x in Bodies(st.files)
  }

  /** The first 100 entries of one kind, and the files left when those are gone. */
  function FirstOf(files: seq<File>, k: Kind): seq<File> {
    Prefix(OfKind(files, k), 100)
  }

  function RestOf(files: seq<File>, k: Kind): seq<File> {
    Take(files, k, 100).1
  }

  /** How far the recovery has come, told by what is in the store and at the server. */
  ghost predicate Progress(st: Store, s: State) {
    var m, l := FirstOf(st.files, Metrics), FirstOf(st.files, Logs);
    var rest := RestOf(st.files, Metrics);
    s.cache.Some? &&
    match s.recovery
    case RPop(Metrics) => s.server == [] && s.cache.value.files == st.files
    case RDecoding(Metrics, items) => s.server == [] && s.cache.value.files == rest && items == Bodies(m)
    case RUploading(Metrics, items) => s.server == [] && s.cache.value.files == rest && items == Bodies(m)
    case RPop(Logs) => s.server == Bodies(m) && s.cache.value.files == rest
    case RDecoding(Logs, items) => s.server == Bodies(m) && s.cache.value.files == RestOf(rest, Logs) && items == Bodies(l)
    case RUploading(Logs, items) => s.server == Bodies(m) && s.cache.value.files == RestOf(rest, Logs) && items == Bodies(l)
    case RSpilling(_, _) => false
    case RStopped => s.server == Bodies(m) + Bodies(l) && s.cache.value.files == RestOf(rest, Logs)
  }

  lemma {:induction false} AllDecode(items: seq<Item>, bad: set<Item>)
    requires forall x | x in items :: x !in bad
    ensures Decoded(items, bad) == (items, [])
  {
    if items != [] {
      AllDecode(items[1..], bad);
      assert [items[0]] + items[1..] == items;
    }
  }

  lemma {:induction false} BodyOfFile(files: seq<File>, x: Item)
    ensures x in Bodies(files) <==> exists f :: f in files && f.body == x
  {
    if files != [] {
      BodyOfFile(files[1..], x);
    }
  }

  lemma FirstOfStored(st: Store, k: Kind)
    ensures forall x | x in Bodies(FirstOf(st.files, k)) :: x in StoredItems(st)
  {
    forall x | x in Bodies(FirstOf(st.files, k)) ensures x in StoredItems(st) {
      BodyOfFile(FirstOf(st.files, k), x);
      var f :| f in FirstOf(st.files, k) && f.body == x;
      assert f in OfKind(st.files, k);
      OfKindMember(st.files, k, f);
      BodyOfFile(st.files, x);
    }
  }

  lemma TakesFirst(files: seq<File>, k: Kind)
    ensures Take(files, k, RECOVERY_MAX) == (FirstOf(files, k), RestOf(files, k))
  {
    TakePopsTheHead(files, k, 100);
  }

  lemma LogsSpared(files: seq<File>)
    ensures FirstOf(RestOf(files, Metrics), Logs) == FirstOf(files, Logs)
  {
    TakeSparesTheOther(files, Metrics, 100, Logs);
  }

  lemma PopProgresses(cfg: Config, st: Store, s: State, indexOk: bool)
    requires Progress(st, s)
    ensures Progress(st, Next(cfg, s, RecoveryPop(indexOk)))
  {
    if s.recovery.RPop? {
      TakesFirst(s.cache.value.files, s.recovery.k);
      LogsSpared(st.files);
      assert Bodies([]) == [];
    }
  }

  lemma DecodeProgresses(cfg: Config, st: Store, s: State, bad: set<Item>)
    requires Progress(st, s) && bad !! StoredItems(st)
    ensures Progress(st, Next(cfg, s, RecoveryDecode(bad)))
  {
    if s.recovery.RDecoding? {
      FirstOfStored(st, s.recovery.k);
      AllDecode(s.recovery.items, bad);
    }
  }

  lemma UploadProgresses(cfg: Config, st: Store, s: State)
    requires Progress(st, s)
    ensures Progress(st, Next(cfg, s, RecoveryUpload(true)))
  {
  }

  lemma {:induction false} RecoveryProgresses(cfg: Config, st: Store, events: seq<Event>)
    requires forall i | 0 <= i < |events| :: Smooth(events[i], StoredItems(st))
    ensures Progress(st, Exec(cfg, Initial(Some(st)), events))
  {
    if events != [] {
      var init, e := events[..|events| - 1], events[|events| - 1];
      var s := Exec(cfg, Initial(Some(st)), init);
      RecoveryProgresses(cfg, st, init);
      match e
      case RecoveryPop(indexOk) => PopProgresses(cfg, st, s, indexOk);
      case RecoveryDecode(bad) => DecodeProgresses(cfg, st, s, bad);
      case RecoveryUpload(_) => UploadProgresses(cfg, st, s);
    }
  }

  /** What is left of a queue after its first 100 entries. */
  function AfterFirst(q: seq<File>): seq<File> {
    if |q| <= 100 then [] else q[100..]
  }

  lemma RestOfQueue(files: seq<File>, k: Kind)
    ensures OfKind(RestOf(files, k), k) == AfterFirst(OfKind(files, k))
  {
    TakeLeavesTheRest(files, k, 100);
    TakesFirst(files, k);
    var q := OfKind(files, k);
    assert q == FirstOf(files, k) + OfKind(RestOf(files, k), k);
  }

  /**
   The recovery on its own, with everything working, ends only when the first 100 cached metrics and then the
   first 100 cached log lines are at the server, in order, and the cache holds the rest of both queues.
   */
  lemma RecoveryDelivers(cfg: Config, st: Store, events: seq<Event>)
    requires forall i | 0 <= i < |events| :: Smooth(events[i], StoredItems(st))
    requires Exec(cfg, Initial(Some(st)), events).recovery.RStopped?
    ensures var s := Exec(cfg, Initial(Some(st)), events);
      && s.server == Bodies(Prefix(OfKind(st.files, Metrics), 100)) + Bodies(Prefix(OfKind(st.files, Logs), 100))
      && s.cache.Some?
      && OfKind(s.cache.value.files, Metrics) == AfterFirst(OfKind(st.files, Metrics))
      && OfKind(s.cache.value.files, Logs) == AfterFirst(OfKind(st.files, Logs))
  {
    var s := Exec(cfg, Initial(Some(st)), events);
    var rest := RestOf(st.files, Metrics);
    RecoveryProgresses(cfg, st, events);
    RestOfQueue(st.files, Metrics);
    RestOfQueue(rest, Logs);
    TakeSparesTheOther(st.files, Metrics, 100, Logs);
    TakeSparesTheOther(rest, Logs, 100, Metrics);
  }

  const WHOLE_RECOVERY := [RecoveryPop(true), RecoveryDecode({}), RecoveryUpload(true),
                           RecoveryPop(true), RecoveryDecode({}), RecoveryUpload(true)]

  lemma ExecStep(cfg: Config, s: State, events: seq<Event>, e: Event)
    ensures Exec(cfg, s, events + [e]) == Next(cfg, Exec(cfg, s, events), e)
  {
    assert (events + [e])[..|events|] == events;
  }

  lemma ThreeSteps(cfg: Config, s: State, k: Kind)
    requires s.recovery == RPop(k) && s.cache.Some?
    ensures var s' := Next(cfg, Next(cfg, Next(cfg, s, RecoveryPop(true)), RecoveryDecode({})), RecoveryUpload(true));
      s'.cache.Some? && s'.recovery == if k == Metrics then RPop(Logs) else RStopped
  {
    var s1 := Next(cfg, s, RecoveryPop(true));
    if s1.recovery.RDecoding? {
      AllDecode(s1.recovery.items, {});
    }
  }

  /** Pop, decode and upload get the recovery past one kind. */
  lemma OneKind(cfg: Config, s0: State, events: seq<Event>, k: Kind)
    requires var s := Exec(cfg, s0, events); s.recovery == RPop(k) && s.cache.Some?
    ensures var s := Exec(cfg, s0, events + [RecoveryPop(true)] + [RecoveryDecode({})] + [RecoveryUpload(true)]);
      s.cache.Some? && s.recovery == if k == Metrics then RPop(Logs) else RStopped
  {
    var e1, e2, e3 := RecoveryPop(true), RecoveryDecode({}), RecoveryUpload(true);
    ExecStep(cfg, s0, events, e1);
    ExecStep(cfg, s0, events + [e1], e2);
    ExecStep(cfg, s0, events + [e1] + [e2], e3);
    ThreeSteps(cfg, Exec(cfg, s0, events), k);
  }

  /** And it does end: two rounds of pop, decode and upload are enough. */
  lemma RecoveryEnds(cfg: Config, st: Store)
    ensures Exec(cfg, Initial(Some(st)), WHOLE_RECOVERY).recovery.RStopped?
  {
    var half := [] + [RecoveryPop(true)] + [RecoveryDecode({})] + [RecoveryUpload(true)];
    assert Exec(cfg, Initial(Some(st)), []) == Initial(Some(st));
    OneKind(cfg, Initial(Some(st)), [], Metrics);
    OneKind(cfg, Initial(Some(st)), half, Logs);
    assert WHOLE_RECOVERY == half + [RecoveryPop(true)] + [RecoveryDecode({})] + [RecoveryUpload(true)];
  }

  /** Event i popped cached log lines for the recovery. */
  ghost predicate PopsLogs(cfg: Config, cache: Option<Store>, events: seq<Event>, i: nat)
    requires i < |events|
  {
    events[i].RecoveryPop? && Exec(cfg, Initial(cache), events[..i]).recovery == RPop(Logs)
  }

  /** The recovery has stopped, or is dealing with log lines it popped. */
  predicate BeyondMetrics(r: RecoveryPhase) {
    r.RStopped? || (!r.RPop? && r.k == Logs)
  }

  lemma BeyondStep(cfg: Config, s: State, e: Event)
    requires s.cache.Some? && BeyondMetrics(Next(cfg, s, e).recovery) && !BeyondMetrics(s.recovery)
    ensures e.RecoveryPop? && s.recovery == RPop(Logs)
  {
  }

  lemma CacheStays(cfg: Config, s: State, e: Event)
    requires s.cache.Some?
    ensures Next(cfg, s, e).cache.Some?
  {
  }

  lemma {:induction false} KeepsItsCache(cfg: Config, st: Store, events: seq<Event>)
    ensures Exec(cfg, Initial(Some(st)), events).cache.Some?
  {
    if events != [] {
      KeepsItsCache(cfg, st, events[..|events| - 1]);
      CacheStays(cfg, Exec(cfg, Initial(Some(st)), events[..|events| - 1]), events[|events| - 1]);
    }
  }

  /** In any run at all, the recovery gets beyond the metrics only by popping the log lines. */
  lemma {:induction false} StopsOnlyAfterLogs(cfg: Config, st: Store, events: seq<Event>) returns (i: nat)
    requires BeyondMetrics(Exec(cfg, Initial(Some(st)), events).recovery)
    ensures i < |events| && PopsLogs(cfg, Some(st), events, i)
  {
    assert events != [];
    var n := |events| - 1;
    var init := events[..n];
    if BeyondMetrics(Exec(cfg, Initial(Some(st)), init).recovery) {
      i := StopsOnlyAfterLogs(cfg, st, init);
      assert init[..i] == events[..i];
    } else {
      i := n;
      KeepsItsCache(cfg, st, init);
      BeyondStep(cfg, Exec(cfg, Initial(Some(st)), init), events[n]);
    }
  }

  // ----- What reaches the server, and what is born -----

  /** The batch whose upload succeeds in this event. */
  function Uploaded(s: State, e: Event): seq<Item> {
    match e
    case MetricsUpload(true) => if s.metrics.MUploading? || s.metrics.MFlushing? then HeldByMetrics(s.metrics) else []
    case LogsUpload(true) => if s.logs.LUploading? || s.logs.LFlushing? then HeldByLogs(s.logs) else []
    case RecoveryUpload(true) => if s.recovery.RUploading? then HeldByRecovery(s.recovery) else []
    case _ => []
  }

  /** The server receives exactly the batches of successful uploads, whole and in order. */
  lemma ServerGetsSuccessfulUploads(cfg: Config, s: State, e: Event)
    ensures Next(cfg, s, e).server == s.server + Uploaded(s, e)
  {
  }

  /** Every new sample the metrics goroutine is ready for, and every new log line, is taken on. */
  lemma NewItemsAreTakenOn(cfg: Config, s: State, x: Item)
    ensures s.metrics.MIdle? ==> x in Next(cfg, s, Collect(Some(x))).born
    ensures x in Next(cfg, s, Log(x)).born
  {
  }

  /** A tick of the logs goroutine takes the oldest lines for upload, as many as its batch holds. */
  lemma TickTakesTheOldest(cfg: Config, s: State)
    requires s.logs.LIdle? && s.ring != []
    ensures var s' := Next(cfg, s, LogsTick);
      && s'.logs.LUploading? && s'.logs.batch + s'.ring == s.ring
      && |s'.logs.batch| == if 0 < cfg.drain < |s.ring| then cfg.drain else |s.ring|
  {
    var s' := Next(cfg, s, LogsTick);
    var n := |s'.logs.batch|;
    assert s.ring == s.ring[..n] + s.ring[n..];
  }

  // ----- Batches that could not be uploaded -----

  /** Spilling n items in order, each under a free name. */
  ghost predicate NamesFree(max: int, st: Store, k: Kind, items: seq<Item>, ios: seq<PushIO>)
    requires |ios| == |items|
    decreases |items|
  {
    items == [] ||
    (NameFree(st, k, items[0], ios[0]) && NamesFree(max, Push(st, max, EntryOf(k, items[0], ios[0])).0, k, items[1..], ios[1..]))
  }

  /** The store after pushing them one by one. */
  function Pushed(max: int, st: Store, k: Kind, items: seq<Item>, ios: seq<PushIO>): Store
    requires |ios| == |items|
    decreases |items|
  {
    if items == [] then st else Pushed(max, Push(st, max, EntryOf(k, items[0], ios[0])).0, k, items[1..], ios[1..])
  }

  /** The spill events of one goroutine: one for each item, and one that finds nothing left. */
  function MetricsSpills(ios: seq<PushIO>): seq<Event> {
    if ios == [] then [] else [MetricsSpill(ios[0])] + MetricsSpills(ios[1..])
  }

  function LogsSpills(ios: seq<PushIO>): seq<Event> {
    if ios == [] then [] else [LogsSpill(ios[0])] + LogsSpills(ios[1..])
  }

  ghost function Run(cfg: Config, s: State, events: seq<Event>): State
    decreases |events|
  {
    if events == [] then s else Run(cfg, Next(cfg, s, events[0]), events[1..])
  }

  /** A metrics batch that could not be uploaded goes into the store item by item, and the goroutine is idle again. */
  lemma {:induction false} MetricsBatchIsSpilled(cfg: Config, s: State, ios: seq<PushIO>, last: PushIO)
    requires s.metrics.MSpilling? && s.cache.Some? && |ios| == |s.metrics.queue|
    requires NamesFree(cfg.maxBytes, s.cache.value, Metrics, s.metrics.queue, ios)
    ensures var s' := Run(cfg, s, MetricsSpills(ios) + [MetricsSpill(last)]);
      s'.metrics == MIdle([]) && s'.cache == Some(Pushed(cfg.maxBytes, s.cache.value, Metrics, s.metrics.queue, ios))
    decreases |ios|
  {
    var events := MetricsSpills(ios) + [MetricsSpill(last)];
    if ios == [] {
      assert events == [MetricsSpill(last)] && events[1..] == [];
    } else {
      assert events[0] == MetricsSpill(ios[0]) && events[1..] == MetricsSpills(ios[1..]) + [MetricsSpill(last)];
      MetricsBatchIsSpilled(cfg, Next(cfg, s, events[0]), ios[1..], last);
    }
  }

  /** So does a batch of log lines. */
  lemma {:induction false} LogsBatchIsSpilled(cfg: Config, s: State, ios: seq<PushIO>, last: PushIO)
    requires s.logs.LSpilling? && s.cache.Some? && |ios| == |s.logs.batch|
    requires NamesFree(cfg.maxBytes, s.cache.value, Logs, s.logs.batch, ios)
    ensures var s' := Run(cfg, s, LogsSpills(ios) + [LogsSpill(last)]);
      s'.logs == LIdle && s'.cache == Some(Pushed(cfg.maxBytes, s.cache.value, Logs, s.logs.batch, ios))
    decreases |ios|
  {
    var events := LogsSpills(ios) + [LogsSpill(last)];
    if ios == [] {
      assert events == [LogsSpill(last)] && events[1..] == [];
    } else {
      assert events[0] == LogsSpill(ios[0]) && events[1..] == LogsSpills(ios[1..]) + [LogsSpill(last)];
      LogsBatchIsSpilled(cfg, Next(cfg, s, events[0]), ios[1..], last);
    }
  }

  function RecoverySpills(ios: seq<PushIO>): seq<Event> {
    if ios == [] then [] else [RecoverySpill(ios[0])] + RecoverySpills(ios[1..])
  }

  /** And so does a recovered batch, after which the recovery goes on. */
  lemma {:induction false} RecoveredBatchIsSpilled(cfg: Config, s: State, ios: seq<PushIO>, last: PushIO)
    requires s.recovery.RSpilling? && s.cache.Some? && |ios| == |s.recovery.items|
    requires NamesFree(cfg.maxBytes, s.cache.value, s.recovery.k, s.recovery.items, ios)
    ensures var s' := Run(cfg, s, RecoverySpills(ios) + [RecoverySpill(last)]);
      && s'.recovery == (if s.recovery.k == Metrics then RPop(Logs) else RStopped)
      && s'.cache == Some(Pushed(cfg.maxBytes, s.cache.value, s.recovery.k, s.recovery.items, ios))
    decreases |ios|
  {
    var events := RecoverySpills(ios) + [RecoverySpill(last)];
    if ios == [] {
      assert events == [RecoverySpill(last)] && events[1..] == [];
    } else {
      assert events[0] == RecoverySpill(ios[0]) && events[1..] == RecoverySpills(ios[1..]) + [RecoverySpill(last)];
      RecoveredBatchIsSpilled(cfg, Next(cfg, s, events[0]), ios[1..], last);
    }
  }

  /** With a store, a failed upload leaves the whole batch to be spilled; without one the goroutine is idle again. */
  lemma FailedUploadIsSpilled(cfg: Config, s: State)
    ensures s.metrics.MUploading? ==>
      Next(cfg, s, MetricsUpload(false)).metrics == if s.cache.Some? then MSpilling(s.metrics.queue) else MIdle([])
    ensures s.logs.LUploading? ==>
      Next(cfg, s, LogsUpload(false)).logs == if s.cache.Some? then LSpilling(s.logs.batch) else LIdle
    ensures s.recovery.RUploading? ==>
      Next(cfg, s, RecoveryUpload(false)).recovery == RSpilling(s.recovery.k, s.recovery.items)
  {
  }

  /** A successful upload leaves nothing in hand. */
  lemma SuccessfulUploadEmptiesTheHand(cfg: Config, s: State)
    ensures s.metrics.MUploading? ==> Next(cfg, s, MetricsUpload(true)).metrics == MIdle([])
    ensures s.logs.LUploading? ==> Next(cfg, s, LogsUpload(true)).logs == LIdle
  {
  }

  /** At shutdown each goroutine makes one last upload of what it holds, and ends whatever becomes of it. */
  lemma ShutdownFlushes(cfg: Config, s: State, ok: bool)
    ensures s.metrics.MIdle? ==>
      var s' := Next(cfg, s, MetricsStop);
      if s.metrics.queue == [] then s'.metrics.MStopped?
      else s'.metrics == MFlushing(s.metrics.queue) && Next(cfg, s', MetricsUpload(ok)).metrics.MStopped?
    ensures s.logs.LIdle? ==>
      var s' := Next(cfg, s, LogsStop);
      if s.ring == [] then s'.logs.LStopped?
      else s'.logs.LFlushing? && s'.logs.batch != [] && Next(cfg, s', LogsUpload(ok)).logs.LStopped?
  {
  }

  // ----- The store, whoever works on it -----

  /** The store changes by one push or one pop at a time. */
  lemma StoreStep(cfg: Config, s: State, e: Event) returns (ops: seq<CacheRuns.Op>)
    requires s.cache.Some?
    ensures Next(cfg, s, e).cache == Some(CacheRuns.Exec(s.cache.value, cfg.maxBytes, ops)) && |ops| <= 1
    ensures forall i | 0 <= i < |ops| :: !ops[i].Restart?
  {
    var s' := Next(cfg, s, e);
    ops := [];
    assert CacheRuns.Exec(s.cache.value, cfg.maxBytes, []) == s.cache.value;
    if s'.cache != s.cache {
      match e {
        case MetricsSpill(io) => ops := [CacheRuns.DoPush(EntryOf(Metrics, s.metrics.queue[0], io))];
        case LogsSpill(io) => ops := [CacheRuns.DoPush(EntryOf(Logs, s.logs.batch[0], io))];
        case RecoverySpill(io) => ops := [CacheRuns.DoPush(EntryOf(s.recovery.k, s.recovery.items[0], io))];
        case RecoveryPop(indexOk) => ops := [CacheRuns.DoPop(s.recovery.k, RECOVERY_MAX, indexOk)];
      }
      assert ops[..0] == [];
    }
  }

  lemma {:induction false} OpsConcat(st: Store, max: int, a: seq<CacheRuns.Op>, b: seq<CacheRuns.Op>)
    ensures CacheRuns.Exec(st, max, a + b) == CacheRuns.Exec(CacheRuns.Exec(st, max, a), max, b)
  {
    if b == [] {
      assert a + b == a;
    } else {
      assert (a + b)[..|a + b| - 1] == a + b[..|b| - 1];
      OpsConcat(st, max, a, b[..|b| - 1]);
    }
  }

  /** So all that is proved of runs of the store holds of the store within every run of the pipeline. */
  lemma {:induction false} StoreIsARun(cfg: Config, st: Store, events: seq<Event>) returns (ops: seq<CacheRuns.Op>)
    ensures Exec(cfg, Initial(Some(st)), events).cache == Some(CacheRuns.Exec(st, cfg.maxBytes, ops))
    ensures forall i | 0 <= i < |ops| :: !ops[i].Restart?
  {
    if events == [] {
      ops := [];
    } else {
      var init := events[..|events| - 1];
      ops := StoreIsARun(cfg, st, init);
      var more := StoreStep(cfg, Exec(cfg, Initial(Some(st)), init), events[|events| - 1]);
      OpsConcat(st, cfg.maxBytes, ops, more);
      ops := ops + more;
    }
  }
}
