/**
 The delivery pipeline: the metrics goroutine, the logs goroutine and the start-up recovery, interleaved in
 any order over the offline store, each upload one atomic success or failure.

 Assumed: every push names a file that does not exist yet; goroutines do not panic.
 */
module Delivery {
  import opened Wrappers
  import opened CacheSpec
  import opened Batching
  import Logger

  /** A metrics sample or a log line. */
  type Item = Body

  /** Each phase holds the items that the goroutine still has to place. */
  datatype MetricsPhase = MIdle(queue: seq<Item>) | MUploading(queue: seq<Item>) | MSpilling(queue: seq<Item>) | MFlushing(queue: seq<Item>) | MStopped
  datatype LogsPhase = LIdle | LUploading(batch: seq<Item>) | LSpilling(batch: seq<Item>) | LFlushing(batch: seq<Item>) | LStopped
  datatype RecoveryPhase = RPop(k: Kind) | RDecoding(k: Kind, items: seq<Item>) | RUploading(k: Kind, items: seq<Item>) | RSpilling(k: Kind, items: seq<Item>) | RStopped

  datatype Reason = Evicted | PushFailed | Undecodable | NoCache | FlushFailed | RingFull
  datatype Loss = Loss(item: Item, reason: Reason)

  /** batch and maxBytes as configured; drain is the configured size of a log batch. */
  datatype Config = Config(batch: nat, maxBytes: int, drain: int)

  datatype State = State(
    metrics: MetricsPhase,
    firstUploaded: bool,
    ring: seq<Item>,
    logs: LogsPhase,
    recovery: RecoveryPhase,
    cache: Option<Store>,
    server: seq<Item>,
    lost: seq<Loss>,
    born: set<Item>)

  /** What the clock and the file system contribute to one push. */
  datatype PushIO = PushIO(stamp: nat, mtime: int, size: nat, writeOk: bool, indexOk: bool)

  datatype Event =
    | Collect(sample: Option<Item>)
    | MetricsUpload(ok: bool)
    | MetricsSpill(io: PushIO)
    | MetricsStop
    | Log(line: Item)
    | LogsTick
    | LogsUpload(ok: bool)
    | LogsSpill(io: PushIO)
    | LogsStop
    | RecoveryPop(indexOk: bool)
    | RecoveryDecode(bad: set<Item>)
    | RecoveryUpload(ok: bool)
    | RecoverySpill(io: PushIO)

  const RECOVERY_MAX := 100

  function Bodies(files: seq<File>): seq<Item> {
    if files == [] then [] else [files[0].body] + Bodies(files[1..])
  }

  function Lose(items: seq<Item>, reason: Reason): seq<Loss> {
    if items == [] then [] else [Loss(items[0], reason)] + Lose(items[1..], reason)
  }

  function Items(lost: seq<Loss>): seq<Item> {
    if lost == [] then [] else [lost[0].item] + Items(lost[1..])
  }

  /** The items decoded, and those that were not. */
  function Decoded(items: seq<Item>, bad: set<Item>): (seq<Item>, seq<Item>) {
    if items == [] then ([], [])
    else
      var (good, rest) := Decoded(items[1..], bad);
      if items[0] in bad then (good, [items[0]] + rest) else ([items[0]] + good, rest)
  }

  function EntryOf(k: Kind, x: Item, io: PushIO): Entry {
    Entry(File(k, io.stamp, io.mtime, io.size, x), io.writeOk, io.indexOk)
  }

  /** Push's name for x is free. */
  ghost predicate NameFree(st: Store, k: Kind, x: Item, io: PushIO) {
    forall g | g in st.files :: !SameName(EntryOf(k, x, io).file, g)
  }

  /** One call of Push, whose error every caller ignores. */
  function PushItem(cfg: Config, s: State, k: Kind, x: Item, io: PushIO): State
    requires s.cache.Some?
  {
    var st := s.cache.value;
    var (st', r) := Push(st, cfg.maxBytes, EntryOf(k, x, io));
    var evicted := Bodies(MakeRoom(st.files, st.written, io.size, cfg.maxBytes).dropped);
    s.(cache := Some(st'), lost := s.lost + Lose(evicted, Evicted) + Lose(if r.Landed() then [] else [x], PushFailed))
  }

  ghost function NextMetrics(cfg: Config, s: State, e: Event): State {
    match (s.metrics, e)
    case (MIdle(queue), Collect(Some(x))) =>
      if x in s.born then s
      else
        var queue' := queue + [x];
        var s' := s.(born := s.born + {x});
        s'.(metrics := if ShouldUpload(|queue'|, cfg.batch, s.firstUploaded) then MUploading(queue') else MIdle(queue'))
    case (MUploading(queue), MetricsUpload(ok)) =>
      if ok then s.(metrics := MIdle([]), server := s.server + queue, firstUploaded := true)
      else if s.cache.None? then s.(metrics := MIdle([]), lost := s.lost + Lose(queue, NoCache))
      else s.(metrics := MSpilling(queue))
    case (MSpilling(queue), MetricsSpill(io)) =>
      if queue == [] then s.(metrics := MIdle([]))
      else if s.cache.None? || !NameFree(s.cache.value, Metrics, queue[0], io) then s
      else PushItem(cfg, s.(metrics := MSpilling(queue[1..])), Metrics, queue[0], io)
    case (MIdle(queue), MetricsStop) =>
      s.(metrics := if queue == [] then MStopped else MFlushing(queue))
    case (MFlushing(queue), MetricsUpload(ok)) =>
      if ok then s.(metrics := MStopped, server := s.server + queue)
      else s.(metrics := MStopped, lost := s.lost + Lose(queue, FlushFailed))
    case _ => s
  }

  ghost function NextLogs(cfg: Config, s: State, e: Event): State {
    match (s.logs, e)
    case (_, Log(x)) =>
      if x in s.born then s
      else if |s.ring| >= Logger.MAX_ENTRIES then
        s.(born := s.born + {x}, ring := s.ring[1..] + [x], lost := s.lost + [Loss(s.ring[0], RingFull)])
      else s.(born := s.born + {x}, ring := s.ring + [x])
    case (LIdle, LogsTick) =>
      var n := Logger.DrainCount(|s.ring|, cfg.drain);
      if n == 0 then s else s.(logs := LUploading(s.ring[..n]), ring := s.ring[n..])
    case (LUploading(batch), LogsUpload(ok)) =>
      if ok then s.(logs := LIdle, server := s.server + batch)
      else if s.cache.None? then s.(logs := LIdle, lost := s.lost + Lose(batch, NoCache))
      else s.(logs := LSpilling(batch))
    case (LSpilling(batch), LogsSpill(io)) =>
      if batch == [] then s.(logs := LIdle)
      else if s.cache.None? || !NameFree(s.cache.value, Logs, batch[0], io) then s
      else PushItem(cfg, s.(logs := LSpilling(batch[1..])), Logs, batch[0], io)
    case (LIdle, LogsStop) =>
      var n := Logger.DrainCount(|s.ring|, cfg.drain);
      if n == 0 then s.(logs := LStopped) else s.(logs := LFlushing(s.ring[..n]), ring := s.ring[n..])
    case (LFlushing(batch), LogsUpload(ok)) =>
      if ok then s.(logs := LStopped, server := s.server + batch)
      else s.(logs := LStopped, lost := s.lost + Lose(batch, FlushFailed))
    case _ => s
  }

  /** Recovery handles the cached metrics, then the cached logs. */
  function AfterKind(k: Kind): RecoveryPhase {
    if k == Metrics then RPop(Logs) else RStopped
  }

  ghost function NextRecovery(cfg: Config, s: State, e: Event): State {
    match (s.recovery, e)
    case (RPop(k), RecoveryPop(indexOk)) =>
      if s.cache.None? then s
      else
        var (st', out) := Pop(s.cache.value, k, RECOVERY_MAX, indexOk);
        s.(cache := Some(st'), recovery := if out == [] then AfterKind(k) else RDecoding(k, Bodies(out)))
    case (RDecoding(k, items), RecoveryDecode(bad)) =>
      var (good, rest) := Decoded(items, bad);
      s.(recovery := if good == [] then AfterKind(k) else RUploading(k, good), lost := s.lost + Lose(rest, Undecodable))
    case (RUploading(k, items), RecoveryUpload(ok)) =>
      if ok then s.(recovery := AfterKind(k), server := s.server + items) else s.(recovery := RSpilling(k, items))
    case (RSpilling(k, items), RecoverySpill(io)) =>
      if items == [] then s.(recovery := AfterKind(k))
      else if s.cache.None? || !NameFree(s.cache.value, k, items[0], io) then s
      else PushItem(cfg, s.(recovery := RSpilling(k, items[1..])), k, items[0], io)
    case _ => s
  }

  ghost function Next(cfg: Config, s: State, e: Event): State {
    if e.Collect? || e.MetricsUpload? || e.MetricsSpill? || e.MetricsStop? then NextMetrics(cfg, s, e)
    else if e.Log? || e.LogsTick? || e.LogsUpload? || e.LogsSpill? || e.LogsStop? then NextLogs(cfg, s, e)
    else NextRecovery(cfg, s, e)
  }

  ghost function Exec(cfg: Config, s: State, events: seq<Event>): State {
    if events == [] then s
    else Next(cfg, Exec(cfg, s, events[..|events| - 1]), events[|events| - 1])
  }

  /** The agent starts with whatever its cache holds, or without a cache. */
  function Initial(cache: Option<Store>): State {
    State(MIdle([]), false, [], LIdle, if cache.Some? then RPop(Metrics) else RStopped, cache, [], [],
      if cache.Some? then set x | x in Bodies(cache.value.files) else {})
  }

  // ----- Conservation -----

  function HeldByMetrics(m: MetricsPhase): seq<Item> { if m.MStopped? then [] else m.queue }
  function HeldByLogs(l: LogsPhase): seq<Item> { if l.LIdle? || l.LStopped? then [] else l.batch }
  function HeldByRecovery(r: RecoveryPhase): seq<Item> { if r.RPop? || r.RStopped? then [] else r.items }
  function Cached(c: Option<Store>): seq<Item> { if c.Some? then Bodies(c.value.files) else [] }

  function Count(items: seq<Item>, x: Item): nat {
    if items == [] then 0 else (if x == items[0] then 1 else 0) + Count(items[1..], x)
  }

  /** How often x is in the agent's memory. */
  function InHand(s: State, x: Item): nat {
    Count(HeldByMetrics(s.metrics), x) + Count(s.ring, x) + Count(HeldByLogs(s.logs), x) + Count(HeldByRecovery(s.recovery), x)
  }

  /** How often x is at rest. */
  function Placed(s: State, x: Item): nat {
    Count(s.server, x) + Count(Cached(s.cache), x) + Count(Items(s.lost), x)
  }

  /** Whatever was collected is in exactly one place, and nothing else is anywhere. */
  ghost predicate Conserved(s: State) {
    forall x :: InHand(s, x) + Placed(s, x) == if x in s.born then 1 else 0
  }

  lemma {:induction false} CountConcat(a: seq<Item>, b: seq<Item>, x: Item)
    ensures Count(a + b, x) == Count(a, x) + Count(b, x)
  {
    if a == [] {
      assert a + b == b;
    } else {
      assert (a + b)[1..] == a[1..] + b;
      CountConcat(a[1..], b, x);
    }
  }

  lemma {:induction false} CountIsMultiplicity(items: seq<Item>, x: Item)
    ensures Count(items, x) == multiset(items)[x]
    ensures x in items <==> Count(items, x) > 0
  {
    if items != [] {
      CountIsMultiplicity(items[1..], x);
      assert items == [items[0]] + items[1..];
    }
  }

  lemma {:induction false} BodiesSplit(files: seq<File>, i: nat)
    requires i < |files|
    ensures multiset(Bodies(files)) == multiset(Bodies(Without(files, i))) + multiset{files[i].body}
  {
    if i == 0 {
      assert Without(files, 0) == files[1..];
    } else {
      var rest := Without(files[1..], i - 1);
      assert Without(files, i) == [files[0]] + rest;
      assert ([files[0]] + rest)[1..] == rest;
      BodiesSplit(files[1..], i - 1);
    }
  }

  lemma {:induction false} BodiesConcat(a: seq<File>, b: seq<File>)
    ensures Bodies(a + b) == Bodies(a) + Bodies(b)
  {
    if a == [] {
      assert a + b == b;
    } else {
      assert (a + b)[1..] == a[1..] + b;
      BodiesConcat(a[1..], b);
    }
  }

  /** The same files in any order hold the same bodies. */
  lemma {:induction false} BodiesOfPermutation(a: seq<File>, b: seq<File>)
    requires multiset(a) == multiset(b)
    ensures multiset(Bodies(a)) == multiset(Bodies(b))
  {
    if a == [] {
      assert |multiset(b)| == 0;
    } else {
      assert a[0] in multiset(b);
      var i :| 0 <= i < |b| && b[i] == a[0];
      BodiesSplit(a, 0);
      BodiesSplit(b, i);
      RemovalAt(a, 0);
      RemovalAt(b, i);
      assert multiset(Without(a, 0)) == multiset(a) - multiset{a[0]};
      assert multiset(Without(b, i)) == multiset(b) - multiset{b[i]};
      BodiesOfPermutation(Without(a, 0), Without(b, i));
    }
  }

  lemma BodiesOfParts(files: seq<File>, a: seq<File>, b: seq<File>, x: Item)
    requires multiset(files) == multiset(a) + multiset(b)
    ensures Count(Bodies(files), x) == Count(Bodies(a), x) + Count(Bodies(b), x)
  {
    BodiesOfPermutation(files, a + b);
    CountIsMultiplicity(Bodies(files), x);
    CountIsMultiplicity(Bodies(a + b), x);
    BodiesConcat(a, b);
    CountConcat(Bodies(a), Bodies(b), x);
  }

  lemma {:induction false} ItemsConcat(a: seq<Loss>, b: seq<Loss>)
    ensures Items(a + b) == Items(a) + Items(b)
  {
    if a == [] {
      assert a + b == b;
    } else {
      assert (a + b)[1..] == a[1..] + b;
      ItemsConcat(a[1..], b);
    }
  }

  lemma {:induction false} ItemsOfLose(items: seq<Item>, r: Reason)
    ensures Items(Lose(items, r)) == items
    ensures forall l | l in Lose(items, r) :: l.reason == r && l.item in items
  {
    if items != [] {
      ItemsOfLose(items[1..], r);
      var l := Lose(items[1..], r);
      assert ([Loss(items[0], r)] + l)[1..] == l;
    }
  }

  lemma {:induction false} DecodedPartitions(items: seq<Item>, bad: set<Item>, x: Item)
    ensures Count(items, x) == Count(Decoded(items, bad).0, x) + Count(Decoded(items, bad).1, x)
  {
    if items != [] {
      DecodedPartitions(items[1..], bad, x);
      var (good, rest) := Decoded(items[1..], bad);
      assert ([items[0]] + good)[1..] == good && ([items[0]] + rest)[1..] == rest;
    }
  }

  lemma {:induction false} DecodedMembers(items: seq<Item>, bad: set<Item>)
    ensures forall x | x in Decoded(items, bad).1 :: x in bad && x in items
  {
    if items != [] {
      DecodedMembers(items[1..], bad);
    }
  }

  lemma LostCount(lost: seq<Loss>, items: seq<Item>, r: Reason, x: Item)
    ensures Count(Items(lost + Lose(items, r)), x) == Count(Items(lost), x) + Count(items, x)
  {
    ItemsConcat(lost, Lose(items, r));
    ItemsOfLose(items, r);
    CountConcat(Items(lost), items, x);
  }

  /** A push moves the evicted bodies out of the directory, and its own body in if it lands. */
  lemma PushMovesBodies(st: Store, max: int, e: Entry, room: Room, x: Item)
    requires forall g | g in st.files :: !SameName(e.file, g)
    requires room == MakeRoom(st.files, st.written, e.file.size, max)
    ensures Count(Bodies(Push(st, max, e).0.files), x) + Count(Bodies(room.dropped), x)
         == Count(Bodies(st.files), x) + Count(if Push(st, max, e).1.Landed() then [e.file.body] else [], x)
  {
    MakeRoomPartitions(st.files, st.written, e.file.size, max, room);
    BodiesOfParts(st.files, room.dropped, room.kept, x);
    if Push(st, max, e).1.Landed() {
      forall g | g in room.kept ensures !SameName(e.file, g) {
        assert g in multiset(st.files);
      }
      WriteAdds(room.kept, e.file);
      BodiesOfParts(Write(room.kept, e.file), room.kept, [e.file], x);
      assert Bodies([e.file]) == [e.file.body];
    }
  }

  /** What a push adds to the cache or to the losses is the item pushed; what it evicts moves between them. */
  lemma PushItemCounts(cfg: Config, s: State, k: Kind, y: Item, io: PushIO, x: Item)
    requires s.cache.Some? && NameFree(s.cache.value, k, y, io)
    ensures Placed(PushItem(cfg, s, k, y, io), x) == Placed(s, x) + Count([y], x)
    ensures InHand(PushItem(cfg, s, k, y, io), x) == InHand(s, x)
  {
    var st := s.cache.value;
    var e := EntryOf(k, y, io);
    var room := MakeRoom(st.files, st.written, io.size, cfg.maxBytes);
    var (st', r) := Push(st, cfg.maxBytes, e);
    var evicted, own := Bodies(room.dropped), if r.Landed() then [] else [y];
    PushMovesBodies(st, cfg.maxBytes, e, room, x);
    LostCount(s.lost, evicted, Evicted, x);
    LostCount(s.lost + Lose(evicted, Evicted), own, PushFailed, x);
  }

  /** One step moves an item from place to place, or brings a new one into being. */
  ghost predicate Moves(s: State, s': State, x: Item) {
    && s.born <= s'.born
    && InHand(s', x) + Placed(s', x) == InHand(s, x) + Placed(s, x) + if x in s'.born - s.born then 1 else 0
  }

  /** Taking the head of a spilling batch and pushing it. */
  lemma SpillMoves(cfg: Config, s: State, s1: State, k: Kind, items: seq<Item>, io: PushIO, x: Item)
    requires items != [] && s.cache.Some? && NameFree(s.cache.value, k, items[0], io)
    requires s1.cache == s.cache && s1.born == s.born && Placed(s1, x) == Placed(s, x)
    requires InHand(s1, x) + Count(items, x) == InHand(s, x) + Count(items[1..], x)
    ensures Moves(s, PushItem(cfg, s1, k, items[0], io), x)
  {
    PushItemCounts(cfg, s1, k, items[0], io, x);
  }

  /** An upload that succeeds moves the batch to the server; one that fails for good loses it. */
  lemma UploadCounts(s: State, batch: seq<Item>, r: Reason, x: Item)
    ensures Count(s.server + batch, x) == Count(s.server, x) + Count(batch, x)
    ensures Count(Items(s.lost + Lose(batch, r)), x) == Count(Items(s.lost), x) + Count(batch, x)
  {
    CountConcat(s.server, batch, x);
    LostCount(s.lost, batch, r, x);
  }

  lemma MetricsUploadMoves(cfg: Config, s: State, ok: bool, x: Item)
    ensures Moves(s, NextMetrics(cfg, s, MetricsUpload(ok)), x)
  {
    if s.metrics.MUploading? {
      UploadCounts(s, s.metrics.queue, NoCache, x);
    } else if s.metrics.MFlushing? {
      UploadCounts(s, s.metrics.queue, FlushFailed, x);
    }
  }

  lemma MetricsSpillMoves(cfg: Config, s: State, io: PushIO, x: Item)
    ensures Moves(s, NextMetrics(cfg, s, MetricsSpill(io)), x)
  {
    if s.metrics.MSpilling? && s.metrics.queue != [] && s.cache.Some? {
      var queue := s.metrics.queue;
      if NameFree(s.cache.value, Metrics, queue[0], io) {
        SpillMoves(cfg, s, s.(metrics := MSpilling(queue[1..])), Metrics, queue, io, x);
      }
    }
  }

  lemma CollectMoves(cfg: Config, s: State, y: Item, x: Item)
    ensures Moves(s, NextMetrics(cfg, s, Collect(Some(y))), x)
  {
    if s.metrics.MIdle? {
      CountConcat(s.metrics.queue, [y], x);
    }
  }

  lemma MetricsMoves(cfg: Config, s: State, e: Event, x: Item)
    ensures Moves(s, NextMetrics(cfg, s, e), x)
  {
    match e
    case Collect(Some(y)) => CollectMoves(cfg, s, y, x);
    case MetricsUpload(ok) => MetricsUploadMoves(cfg, s, ok, x);
    case MetricsSpill(io) => MetricsSpillMoves(cfg, s, io, x);
    case _ =>
  }

  lemma DrainCounts(ring: seq<Item>, n: nat, x: Item)
    requires n <= |ring|
    ensures Count(ring[..n], x) + Count(ring[n..], x) == Count(ring, x)
  {
    assert ring == ring[..n] + ring[n..];
    CountConcat(ring[..n], ring[n..], x);
  }

  lemma LogRingMoves(s: State, s': State, y: Item, x: Item)
    requires y !in s.born
    requires s' == if |s.ring| >= Logger.MAX_ENTRIES
      then s.(born := s.born + {y}, ring := s.ring[1..] + [y], lost := s.lost + [Loss(s.ring[0], RingFull)])
      else s.(born := s.born + {y}, ring := s.ring + [y])
    ensures Moves(s, s', x)
  {
    var dropped := if |s.ring| >= Logger.MAX_ENTRIES then [s.ring[0]] else [];
    var kept := s.ring[|dropped|..];
    assert s.ring == dropped + kept && s'.ring == kept + [y];
    assert s'.lost == s.lost + Lose(dropped, RingFull);
    CountConcat(dropped, kept, x);
    CountConcat(kept, [y], x);
    LostCount(s.lost, dropped, RingFull, x);
    assert InHand(s', x) + Count(dropped, x) == InHand(s, x) + Count([y], x);
  }

  lemma LogMoves(cfg: Config, s: State, y: Item, x: Item)
    ensures Moves(s, NextLogs(cfg, s, Log(y)), x)
  {
    if y !in s.born {
      LogRingMoves(s, NextLogs(cfg, s, Log(y)), y, x);
    }
  }

  lemma TickMoves(cfg: Config, s: State, x: Item)
    requires s.logs.LIdle?
    ensures Moves(s, NextLogs(cfg, s, LogsTick), x)
  {
    DrainCounts(s.ring, Logger.DrainCount(|s.ring|, cfg.drain), x);
  }

  lemma StopMoves(cfg: Config, s: State, x: Item)
    requires s.logs.LIdle?
    ensures Moves(s, NextLogs(cfg, s, LogsStop), x)
  {
    DrainCounts(s.ring, Logger.DrainCount(|s.ring|, cfg.drain), x);
  }

  lemma LogsFlushMoves(cfg: Config, s: State, ok: bool, x: Item)
    requires s.logs.LFlushing?
    ensures Moves(s, NextLogs(cfg, s, LogsUpload(ok)), x)
  {
    UploadCounts(s, s.logs.batch, FlushFailed, x);
  }

  lemma LogsUploadMoves(cfg: Config, s: State, ok: bool, x: Item)
    ensures Moves(s, NextLogs(cfg, s, LogsUpload(ok)), x)
  {
    if s.logs.LUploading? {
      UploadCounts(s, s.logs.batch, NoCache, x);
    } else if s.logs.LFlushing? {
      LogsFlushMoves(cfg, s, ok, x);
    }
  }

  lemma LogsSpillMoves(cfg: Config, s: State, io: PushIO, x: Item)
    ensures Moves(s, NextLogs(cfg, s, LogsSpill(io)), x)
  {
    if s.logs.LSpilling? && s.logs.batch != [] && s.cache.Some? {
      var batch := s.logs.batch;
      if NameFree(s.cache.value, Logs, batch[0], io) {
        SpillMoves(cfg, s, s.(logs := LSpilling(batch[1..])), Logs, batch, io, x);
      }
    }
  }

  lemma LogsMoves(cfg: Config, s: State, e: Event, x: Item)
    ensures Moves(s, NextLogs(cfg, s, e), x)
  {
    match e
    case Log(y) => LogMoves(cfg, s, y, x);
    case LogsTick => if s.logs.LIdle? { TickMoves(cfg, s, x); }
    case LogsStop => if s.logs.LIdle? { StopMoves(cfg, s, x); }
    case LogsUpload(ok) => LogsUploadMoves(cfg, s, ok, x);
    case LogsSpill(io) => LogsSpillMoves(cfg, s, io, x);
    case _ =>
  }

  lemma PopCounts(st: Store, k: Kind, indexOk: bool, st': Store, out: seq<File>, x: Item)
    requires (st', out) == Pop(st, k, RECOVERY_MAX, indexOk)
    ensures Count(Bodies(st.files), x) == Count(Bodies(out), x) + Count(Bodies(st'.files), x)
  {
    TakePartitions(st.files, k, RECOVERY_MAX);
    BodiesOfParts(st.files, out, st'.files, x);
  }

  lemma RecoveryPopMoves(cfg: Config, s: State, indexOk: bool, x: Item)
    ensures Moves(s, NextRecovery(cfg, s, RecoveryPop(indexOk)), x)
  {
    if s.recovery.RPop? && s.cache.Some? {
      var (st', out) := Pop(s.cache.value, s.recovery.k, RECOVERY_MAX, indexOk);
      PopCounts(s.cache.value, s.recovery.k, indexOk, st', out, x);
    }
  }

  lemma RecoveryDecodeMoves(cfg: Config, s: State, bad: set<Item>, x: Item)
    ensures Moves(s, NextRecovery(cfg, s, RecoveryDecode(bad)), x)
  {
    if s.recovery.RDecoding? {
      var (good, rest) := Decoded(s.recovery.items, bad);
      assert Count(s.recovery.items, x) == Count(good, x) + Count(rest, x) by {
        DecodedPartitions(s.recovery.items, bad, x);
      }
      LostCount(s.lost, rest, Undecodable, x);
    }
  }

  lemma RecoverySpillMoves(cfg: Config, s: State, io: PushIO, x: Item)
    ensures Moves(s, NextRecovery(cfg, s, RecoverySpill(io)), x)
  {
    if s.recovery.RSpilling? && s.recovery.items != [] && s.cache.Some? {
      var items, k := s.recovery.items, s.recovery.k;
      if NameFree(s.cache.value, k, items[0], io) {
        SpillMoves(cfg, s, s.(recovery := RSpilling(k, items[1..])), k, items, io, x);
      }
    }
  }

  lemma RecoveryMoves(cfg: Config, s: State, e: Event, x: Item)
    ensures Moves(s, NextRecovery(cfg, s, e), x)
  {
    match e
    case RecoveryPop(indexOk) => RecoveryPopMoves(cfg, s, indexOk, x);
    case RecoveryDecode(bad) => RecoveryDecodeMoves(cfg, s, bad, x);
    case RecoveryUpload(ok) =>
      if s.recovery.RUploading? {
        CountConcat(s.server, s.recovery.items, x);
      }
    case RecoverySpill(io) => RecoverySpillMoves(cfg, s, io, x);
    case _ =>
  }

  lemma NextConserves(cfg: Config, s: State, e: Event)
    requires Conserved(s)
    ensures Conserved(Next(cfg, s, e))
  {
    var s' := Next(cfg, s, e);
    forall x ensures InHand(s', x) + Placed(s', x) == if x in s'.born then 1 else 0 {
      assert Moves(s, s', x) by {
        MetricsMoves(cfg, s, e, x);
        LogsMoves(cfg, s, e, x);
        RecoveryMoves(cfg, s, e, x);
      }
      assert InHand(s, x) + Placed(s, x) == if x in s.born then 1 else 0;
    }
  }

  /** No item is cached twice at the start. */
  ghost predicate DistinctBodies(cache: Option<Store>) {
    cache.Some? ==> forall x :: Count(Bodies(cache.value.files), x) <= 1
  }

  /**
   Conservation.  In every interleaving, every sample and every log line is in exactly one place: in the
   agent's hands, at the server, in the cache, or lost.
   */
  lemma {:induction false} ConservationOverRuns(cfg: Config, cache: Option<Store>, events: seq<Event>)
    requires DistinctBodies(cache)
    ensures Conserved(Exec(cfg, Initial(cache), events))
  {
    if events == [] {
      var s := Initial(cache);
      forall x ensures InHand(s, x) + Placed(s, x) == if x in s.born then 1 else 0 {
        CountIsMultiplicity(Cached(cache), x);
      }
    } else {
      var n := |events| - 1;
      ConservationOverRuns(cfg, cache, events[..n]);
      NextConserves(cfg, Exec(cfg, Initial(cache), events[..n]), events[n]);
    }
  }

  /** Nothing is delivered twice, and nothing delivered is still in hand, in the cache or counted as lost. */
  lemma DeliveredOnce(cfg: Config, cache: Option<Store>, events: seq<Event>, x: Item)
    requires DistinctBodies(cache)
    requires x in Exec(cfg, Initial(cache), events).server
    ensures var s := Exec(cfg, Initial(cache), events);
      Count(s.server, x) == 1 && InHand(s, x) == 0 && x !in Cached(s.cache) && x !in Items(s.lost)
  {
    var s := Exec(cfg, Initial(cache), events);
    ConservationOverRuns(cfg, cache, events);
    assert InHand(s, x) + Placed(s, x) == if x in s.born then 1 else 0;
    CountIsMultiplicity(s.server, x);
    CountIsMultiplicity(Cached(s.cache), x);
    CountIsMultiplicity(Items(s.lost), x);
  }

  /** When every goroutine has ended, each item collected is at the server, cached, lost or still in the log ring. */
  lemma AfterShutdown(cfg: Config, cache: Option<Store>, events: seq<Event>, x: Item)
    requires DistinctBodies(cache)
    requires var s := Exec(cfg, Initial(cache), events);
      s.metrics.MStopped? && s.logs.LStopped? && s.recovery.RStopped? && x in s.born
    ensures var s := Exec(cfg, Initial(cache), events);
      Count(s.ring, x) + Count(s.server, x) + Count(Cached(s.cache), x) + Count(Items(s.lost), x) == 1
  {
    ConservationOverRuns(cfg, cache, events);
    var s := Exec(cfg, Initial(cache), events);
    assert InHand(s, x) + Placed(s, x) == if x in s.born then 1 else 0;
  }

  // ----- Every loss has one of six causes -----

  /** The event is a push of x, taken from the head of a spilling batch. */
  ghost predicate Spills(s: State, e: Event, k: Kind, x: Item, io: PushIO) {
    || (e == MetricsSpill(io) && k == Metrics && s.metrics.MSpilling? && [x] <= s.metrics.queue)
    || (e == LogsSpill(io) && k == Logs && s.logs.LSpilling? && [x] <= s.logs.batch)
    || (e == RecoverySpill(io) && s.recovery.RSpilling? && k == s.recovery.k && [x] <= s.recovery.items)
  }

  /** It pushes the item out: the entry does not fit, and the item is among the oldest ones that have to make room. */
  ghost predicate EvictingSpill(cfg: Config, s: State, e: Event, item: Item, k: Kind, x: Item, io: PushIO)
    requires s.cache.Some?
  {
    var st := s.cache.value;
    && Spills(s, e, k, x, io) && st.written + io.size > cfg.maxBytes
    && item in Bodies(MakeRoom(st.files, st.written, io.size, cfg.maxBytes).dropped)
  }

  ghost predicate FailingSpill(cfg: Config, s: State, e: Event, k: Kind, x: Item, io: PushIO)
    requires s.cache.Some?
  {
    Spills(s, e, k, x, io) && !Push(s.cache.value, cfg.maxBytes, EntryOf(k, x, io)).1.Landed()
  }

  ghost predicate Cause(cfg: Config, s: State, e: Event, l: Loss) {
    match l.reason
    case Evicted =>
      s.cache.Some? && l.item in Bodies(s.cache.value.files) && (exists k, x, io :: EvictingSpill(cfg, s, e, l.item, k, x, io))
    case PushFailed =>
      s.cache.Some? && (exists k, io :: FailingSpill(cfg, s, e, k, l.item, io))
    case Undecodable =>
      s.recovery.RDecoding? && l.item in s.recovery.items && e.RecoveryDecode? && l.item in e.bad
    case NoCache =>
      s.cache.None? &&
        ((e == MetricsUpload(false) && s.metrics.MUploading? && l.item in s.metrics.queue) ||
         (e == LogsUpload(false) && s.logs.LUploading? && l.item in s.logs.batch))
    case FlushFailed =>
      || (e == MetricsUpload(false) && s.metrics.MFlushing? && l.item in s.metrics.queue)
      || (e == LogsUpload(false) && s.logs.LFlushing? && l.item in s.logs.batch)
    case RingFull =>
      e.Log? && |s.ring| >= Logger.MAX_ENTRIES && l.item == s.ring[0]
  }

  lemma DroppedWereCached(st: Store, size: nat, max: int, y: Item)
    requires y in Bodies(MakeRoom(st.files, st.written, size, max).dropped)
    ensures y in Bodies(st.files) && st.written + size > max
  {
    var room := MakeRoom(st.files, st.written, size, max);
    MakeRoomPartitions(st.files, st.written, size, max, room);
    BodiesOfParts(st.files, room.dropped, room.kept, y);
    CountIsMultiplicity(Bodies(room.dropped), y);
    CountIsMultiplicity(Bodies(st.files), y);
  }

  lemma SpillCauses(cfg: Config, s: State, s1: State, e: Event, k: Kind, x: Item, io: PushIO) returns (more: seq<Loss>)
    requires s.cache.Some? && s1.cache == s.cache && s1.lost == s.lost && Spills(s, e, k, x, io)
    ensures PushItem(cfg, s1, k, x, io).lost == s.lost + more
    ensures forall l | l in more :: Cause(cfg, s, e, l)
  {
    var st := s.cache.value;
    var landed := Push(st, cfg.maxBytes, EntryOf(k, x, io)).1.Landed();
    var evicted := Bodies(MakeRoom(st.files, st.written, io.size, cfg.maxBytes).dropped);
    var own := if landed then [] else [x];
    more := Lose(evicted, Evicted) + Lose(own, PushFailed);
    ItemsOfLose(evicted, Evicted);
    ItemsOfLose(own, PushFailed);
    forall y | y in evicted ensures y in Bodies(st.files) && EvictingSpill(cfg, s, e, y, k, x, io) {
      DroppedWereCached(st, io.size, cfg.maxBytes, y);
    }
    assert !landed ==> FailingSpill(cfg, s, e, k, x, io);
  }

  /** The list of losses only grows, and each new loss is an eviction, a failed push, an undecodable entry, a
      missing cache, a failed flush at shutdown or an overfull log ring, as its reason says. */
  lemma LossesHaveCauses(cfg: Config, s: State, e: Event) returns (more: seq<Loss>)
    ensures Next(cfg, s, e).lost == s.lost + more
    ensures forall l | l in more :: Cause(cfg, s, e, l)
  {
    more := [];
    if e.MetricsSpill? && s.metrics.MSpilling? && s.metrics.queue != [] && s.cache.Some? {
      var q := s.metrics.queue;
      if NameFree(s.cache.value, Metrics, q[0], e.io) {
        more := SpillCauses(cfg, s, s.(metrics := MSpilling(q[1..])), e, Metrics, q[0], e.io);
      }
    } else if e.LogsSpill? && s.logs.LSpilling? && s.logs.batch != [] && s.cache.Some? {
      var q := s.logs.batch;
      if NameFree(s.cache.value, Logs, q[0], e.io) {
        more := SpillCauses(cfg, s, s.(logs := LSpilling(q[1..])), e, Logs, q[0], e.io);
      }
    } else if e.RecoverySpill? && s.recovery.RSpilling? && s.recovery.items != [] && s.cache.Some? {
      var q, k := s.recovery.items, s.recovery.k;
      if NameFree(s.cache.value, k, q[0], e.io) {
        more := SpillCauses(cfg, s, s.(recovery := RSpilling(k, q[1..])), e, k, q[0], e.io);
      }
    } else {
      more := OtherLosses(cfg, s, e);
    }
  }

  lemma MetricsLosses(cfg: Config, s: State, e: Event) returns (more: seq<Loss>)
    requires e == MetricsUpload(false) && (s.metrics.MFlushing? || (s.metrics.MUploading? && s.cache.None?))
    ensures Next(cfg, s, e).lost == s.lost + more
    ensures forall l | l in more :: Cause(cfg, s, e, l)
  {
    var r := if s.metrics.MFlushing? then FlushFailed else NoCache;
    more := Lose(s.metrics.queue, r);
    ItemsOfLose(s.metrics.queue, r);
  }

  lemma LogsLosses(cfg: Config, s: State, e: Event) returns (more: seq<Loss>)
    requires e == LogsUpload(false) && (s.logs.LFlushing? || (s.logs.LUploading? && s.cache.None?))
    ensures Next(cfg, s, e).lost == s.lost + more
    ensures forall l | l in more :: Cause(cfg, s, e, l)
  {
    var r := if s.logs.LFlushing? then FlushFailed else NoCache;
    more := Lose(s.logs.batch, r);
    ItemsOfLose(s.logs.batch, r);
  }

  lemma DecodeLosses(cfg: Config, s: State, e: Event) returns (more: seq<Loss>)
    requires e.RecoveryDecode? && s.recovery.RDecoding?
    ensures Next(cfg, s, e).lost == s.lost + more
    ensures forall l | l in more :: Cause(cfg, s, e, l)
  {
    var rest := Decoded(s.recovery.items, e.bad).1;
    more := Lose(rest, Undecodable);
    ItemsOfLose(rest, Undecodable);
    DecodedMembers(s.recovery.items, e.bad);
  }

  lemma OtherLosses(cfg: Config, s: State, e: Event) returns (more: seq<Loss>)
    requires !e.MetricsSpill? || !s.metrics.MSpilling? || s.metrics.queue == [] || s.cache.None?
    requires !e.LogsSpill? || !s.logs.LSpilling? || s.logs.batch == [] || s.cache.None?
    requires !e.RecoverySpill? || !s.recovery.RSpilling? || s.recovery.items == [] || s.cache.None?
    ensures Next(cfg, s, e).lost == s.lost + more
    ensures forall l | l in more :: Cause(cfg, s, e, l)
  {
    more := [];
    if e == MetricsUpload(false) && (s.metrics.MFlushing? || (s.metrics.MUploading? && s.cache.None?)) {
      more := MetricsLosses(cfg, s, e);
    } else if e == LogsUpload(false) && (s.logs.LFlushing? || (s.logs.LUploading? && s.cache.None?)) {
      more := LogsLosses(cfg, s, e);
    } else if e.Log? && e.line !in s.born && |s.ring| >= Logger.MAX_ENTRIES {
      more := [Loss(s.ring[0], RingFull)];
    } else if e.RecoveryDecode? && s.recovery.RDecoding? {
      more := DecodeLosses(cfg, s, e);
    } else {
      assert Next(cfg, s, e).lost == s.lost;
    }
  }

  // ----- Batches -----

  /** How much the metrics goroutine holds, by phase. */
  predicate BatchInv(cfg: Config, s: State) {
    match s.metrics
    case MIdle(queue) => |queue| < cfg.batch && (!s.firstUploaded ==> queue == [])
    case MUploading(queue) => |queue| == if s.firstUploaded then cfg.batch else 1
    case MFlushing(queue) => 0 < |queue| < cfg.batch && s.firstUploaded
    case _ => true
  }

  /** Amid all the other goroutines, ticked uploads carry one sample until the first success and a full batch after it. */
  lemma {:induction false} BatchesOverRuns(cfg: Config, cache: Option<Store>, events: seq<Event>)
    requires cfg.batch >= 1
    ensures BatchInv(cfg, Exec(cfg, Initial(cache), events))
  {
    if events != [] {
      var n := |events| - 1;
      BatchesOverRuns(cfg, cache, events[..n]);
      BatchStep(cfg, Exec(cfg, Initial(cache), events[..n]), events[n]);
    }
  }

  lemma BatchStep(cfg: Config, s: State, e: Event)
    requires cfg.batch >= 1 && BatchInv(cfg, s)
    ensures BatchInv(cfg, Next(cfg, s, e))
  {
  }
}
