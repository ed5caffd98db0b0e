/**
 The bytes of the offline store: what its files hold, what its running counter says, and what its index says,
 over whole runs.
 */
module CacheBytes {
  import opened CacheSpec
  import opened CacheRuns

  /** The three numbers that should agree. */
  datatype Books = Books(held: int, written: int, index: int)

  function BooksOf(st: Store): Books {
    Books(Sum(st.files), st.written, st.index)
  }

  /** The bytes that a push evicts. */
  function Evicted(st: Store, max: int, e: Entry): nat {
    Sum(MakeRoom(st.files, st.written, e.file.size, max).dropped)
  }

  /** The bytes that a pop takes. */
  function Taken(st: Store, k: Kind, n: int): nat {
    Sum(Take(st.files, k, n).0)
  }

  ghost predicate NewName(files: seq<File>, f: File) {
    forall g | g in files :: !SameName(f, g)
  }

  lemma NewestHasNewName(files: seq<File>, f: File)
    requires Newest(files, f)
    ensures NewName(files, f)
  {
  }

  /** What a push does to the books, given the bytes it evicts. */
  function Enter(b: Books, out: nat, size: nat, r: PushResult): Books {
    match r
    case Stored => Books(b.held - out + size, b.written - out + size, b.written - out + size)
    case IndexFailed => Books(b.held - out + size, b.written - out + size, b.index)
    case _ => Books(b.held - out, b.written - out, b.index)
  }

  lemma PlaceBooks(st: Store, fits: bool, e: Entry)
    requires NewName(st.files, e.file)
    ensures BooksOf(Place(st, fits, e).0) == Enter(BooksOf(st), 0, e.file.size, Place(st, fits, e).1)
  {
    WriteAdds(st.files, e.file);
  }

  lemma KeptHasNewName(files: seq<File>, room: Room, f: File)
    requires NewName(files, f) && SplitInTwo(files, room.dropped, room.kept)
    ensures NewName(room.kept, f)
  {
    forall g | g in room.kept ensures !SameName(f, g) {
      assert g in multiset(files);
    }
  }

  lemma RoomBooks(files: seq<File>, room: Room, f: File)
    requires SplitInTwo(files, room.dropped, room.kept) && NewName(files, f)
    ensures NewName(room.kept, f) && Sum(room.kept) == Sum(files) - Sum(room.dropped)
  {
    KeptHasNewName(files, room, f);
  }

  lemma RoomyBooks(st: Store, room: Room, e: Entry)
    requires SplitInTwo(st.files, room.dropped, room.kept) && NewName(st.files, e.file)
    ensures BooksOf(Place(Roomy(st, room), room.fits, e).0)
         == Enter(BooksOf(st), Sum(room.dropped), e.file.size, Place(Roomy(st, room), room.fits, e).1)
  {
    RoomBooks(st.files, room, e.file);
    PlaceBooks(Roomy(st, room), room.fits, e);
  }

  lemma PushBooks(st: Store, max: int, e: Entry)
    requires NewName(st.files, e.file)
    ensures BooksOf(Push(st, max, e).0) == Enter(BooksOf(st), Evicted(st, max, e), e.file.size, Push(st, max, e).1)
  {
    var room := MakeRoom(st.files, st.written, e.file.size, max);
    MakeRoomPartitions(st.files, st.written, e.file.size, max, room);
    PushIsPlace(st, max, e, room);
    RoomyBooks(st, room, e);
  }

  lemma PopBooks(st: Store, k: Kind, n: int, indexOk: bool)
    ensures var out := Taken(st, k, n);
      BooksOf(Pop(st, k, n, indexOk).0) ==
        Books(Sum(st.files) - out, st.written - out, if indexOk then st.written - out else st.index)
  {
    TakePartitions(st.files, k, n);
  }

  // ----- The order of the three -----

  lemma {:induction false} WriteSumBound(files: seq<File>, f: File)
    ensures Sum(Write(files, f)) <= Sum(files) + f.size
  {
    if files == [] || NameLess(f, files[0]) {
      ConsFacts(f, files, Logs);
    } else if SameName(f, files[0]) {
      ConsFacts(f, files[1..], Logs);
    } else {
      WriteSumBound(files[1..], f);
      ConsFacts(files[0], Write(files[1..], f), Logs);
    }
  }

  predicate Balanced(st: Store, max: int) {
    Sum(st.files) <= st.written <= st.index <= max
  }

  /** Every push that writes an entry also manages to save the index. */
  predicate SavesIndex(op: Op) {
    op.DoPush? ==> op.e.indexOk
  }

  lemma PlaceKeepsBalance(st: Store, max: int, fits: bool, e: Entry)
    requires Balanced(st, max) && e.indexOk && (fits ==> st.written + e.file.size <= max)
    ensures Balanced(Place(st, fits, e).0, max)
  {
    WriteSumBound(st.files, e.file);
  }

  lemma PushKeepsBalance(st: Store, max: int, e: Entry)
    requires Balanced(st, max) && e.indexOk
    ensures Balanced(Push(st, max, e).0, max)
  {
    var room := MakeRoom(st.files, st.written, e.file.size, max);
    MakeRoomPartitions(st.files, st.written, e.file.size, max, room);
    MakeRoomIsMinimal(st.files, st.written, e.file.size, max, room);
    PushIsPlace(st, max, e, room);
    PlaceKeepsBalance(Roomy(st, room), max, room.fits, e);
  }

  lemma ApplyKeepsBalance(st: Store, max: int, op: Op)
    requires Balanced(st, max) && SavesIndex(op)
    ensures Balanced(Apply(st, max, op), max)
  {
    match op
    case DoPush(e) => PushKeepsBalance(st, max, e);
    case DoPop(k, n, indexOk) => PopBooks(st, k, n, indexOk);
    case Restart =>
  }

  /** Files, counter and index stay in this order within the budget, over every run, even if names collide. */
  lemma {:induction false} BalanceOverRuns(st: Store, max: int, ops: seq<Op>)
    requires Balanced(st, max) && forall i | 0 <= i < |ops| :: SavesIndex(ops[i])
    ensures Balanced(Exec(st, max, ops), max)
  {
    if ops != [] {
      var n := |ops| - 1;
      BalanceOverRuns(st, max, ops[..n]);
      ApplyKeepsBalance(Exec(st, max, ops[..n]), max, ops[n]);
    }
  }

  // ----- When the three agree -----

  /** Counter bytes that no file accounts for. */
  function Drift(st: Store): int {
    st.written - Sum(st.files)
  }

  predicate Exact(st: Store) {
    Drift(st) == 0 && st.index == st.written
  }

  /**
   Without saved indexes the order can break: when a push cannot save the index, the next process starts from
   the old one, and that is still enough if and only if the push evicted as many bytes as it wrote.
   */
  lemma LostIndexBreaksBalance(st: Store, max: int, e: Entry)
    requires Exact(st) && Balanced(st, max) && NewName(st.files, e.file) && Push(st, max, e).1 == IndexFailed
    ensures Balanced(Reopen(Push(st, max, e).0), max) <==> e.file.size <= Evicted(st, max, e)
  {
    PushBooks(st, max, e);
  }

  /** For instance: the first push of a run writes its entry, fails to save the index, and the process restarts. */
  lemma LostIndexExample()
    ensures var st := Push(EMPTY, 10, Entry(File(Logs, 1, 0, 5, 0), true, false)).0;
      Balanced(EMPTY, 10) && Sum(st.files) == 5 && !Balanced(Reopen(st), 10)
  {
    var f := File(Logs, 1, 0, 5, 0);
    assert MakeRoom([], 0, 5, 10) == Room([], [], true);
    assert Write([], f) == [f];
    ConsFacts(f, [], Logs);
  }

  /** Only a restart can change the drift. */
  lemma ApplyKeepsDrift(st: Store, max: int, op: Op)
    requires (op.DoPush? ==> NewName(st.files, op.e.file)) && !op.Restart?
    ensures Drift(Apply(st, max, op)) == Drift(st)
  {
    match op
    case DoPush(e) => PushBooks(st, max, e);
    case DoPop(k, n, indexOk) => PopBooks(st, k, n, indexOk);
  }

  /** Whether a push that evicts out bytes, with this result, leaves the three equal. */
  predicate PushStaysExact(out: nat, size: nat, r: PushResult) {
    match r
    case Stored => true
    case IndexFailed => out == size
    case _ => out == 0
  }

  /** Exactly the operations that leave an exact store exact. */
  predicate KeepsExact(st: Store, max: int, op: Op) {
    match op
    case DoPush(e) => PushStaysExact(Evicted(st, max, e), e.file.size, Push(st, max, e).1)
    case DoPop(k, n, indexOk) => indexOk || Taken(st, k, n) == 0
    case Restart => true
  }

  predicate Agree(b: Books) {
    b.held == b.written == b.index
  }

  lemma EnterAgrees(b: Books, out: nat, size: nat, r: PushResult)
    requires Agree(b)
    ensures Agree(Enter(b, out, size, r)) <==> PushStaysExact(out, size, r)
  {
  }

  lemma PushKeepsExact(st: Store, max: int, e: Entry)
    requires Exact(st) && NewName(st.files, e.file)
    ensures Exact(Apply(st, max, DoPush(e))) <==> KeepsExact(st, max, DoPush(e))
  {
    var (st', r) := Push(st, max, e);
    var out := Evicted(st, max, e);
    PushBooks(st, max, e);
    EnterAgrees(BooksOf(st), out, e.file.size, r);
    assert Exact(st') <==> Agree(BooksOf(st'));
  }

  lemma PopAgrees(b: Books, out: nat, indexOk: bool)
    requires Agree(b)
    ensures Agree(Books(b.held - out, b.written - out, if indexOk then b.written - out else b.index)) <==> indexOk || out == 0
  {
  }

  lemma PopKeepsExact(st: Store, max: int, k: Kind, n: int, indexOk: bool)
    requires Exact(st)
    ensures Exact(Apply(st, max, DoPop(k, n, indexOk))) <==> KeepsExact(st, max, DoPop(k, n, indexOk))
  {
    var st' := Pop(st, k, n, indexOk).0;
    PopBooks(st, k, n, indexOk);
    PopAgrees(BooksOf(st), Taken(st, k, n), indexOk);
    assert Exact(st') <==> Agree(BooksOf(st'));
  }

  /** An exact store stays exact under an operation if and only if it is one of those. */
  lemma ApplyKeepsExact(st: Store, max: int, op: Op)
    requires Exact(st) && (op.DoPush? ==> NewName(st.files, op.e.file))
    ensures Exact(Apply(st, max, op)) <==> KeepsExact(st, max, op)
  {
    if op.DoPush? {
      PushKeepsExact(st, max, op.e);
    } else if op.DoPop? {
      PopKeepsExact(st, max, op.k, op.max, op.indexOk);
    }
  }

  /** Files, counter and index agree after every operation of the run. */
  predicate ExactThroughout(st: Store, max: int, ops: seq<Op>) {
    Exact(Exec(st, max, ops)) && (ops == [] || ExactThroughout(st, max, ops[..|ops| - 1]))
  }

  predicate AllKeepExact(st: Store, max: int, ops: seq<Op>) {
    ops == [] ||
    (AllKeepExact(st, max, ops[..|ops| - 1]) && KeepsExact(Exec(st, max, ops[..|ops| - 1]), max, ops[|ops| - 1]))
  }

  lemma LastPushHasNewName(st: Store, max: int, ops: seq<Op>)
    requires WellTimed(st, ops) && ops != [] && ops[|ops| - 1].DoPush?
    ensures NewName(Exec(st, max, ops[..|ops| - 1]).files, ops[|ops| - 1].e.file)
  {
    LastPushIsNewest(st, max, ops);
    NewestHasNewName(Exec(st, max, ops[..|ops| - 1]).files, ops[|ops| - 1].e.file);
  }

  /** The three agree after every operation of a run if and only if every operation keeps them so. */
  lemma {:induction false} ExactThroughoutExactly(st: Store, max: int, ops: seq<Op>)
    requires WellTimed(st, ops) && Exact(st)
    ensures ExactThroughout(st, max, ops) <==> AllKeepExact(st, max, ops)
  {
    if ops != [] {
      var init, op := ops[..|ops| - 1], ops[|ops| - 1];
      ExactThroughoutExactly(st, max, init);
      if AllKeepExact(st, max, init) {
        assert Exact(Exec(st, max, init));
        if op.DoPush? {
          LastPushHasNewName(st, max, ops);
        }
        ApplyKeepsExact(Exec(st, max, init), max, op);
      }
    }
  }

  /** The push reports success, and the pop saves the index. */
  predicate Succeeds(st: Store, max: int, op: Op) {
    match op
    case DoPush(e) => Push(st, max, e).1 == Stored
    case DoPop(_, _, indexOk) => indexOk
    case Restart => true
  }

  predicate AllSucceed(st: Store, max: int, ops: seq<Op>) {
    ops == [] ||
    (AllSucceed(st, max, ops[..|ops| - 1]) && Succeeds(Exec(st, max, ops[..|ops| - 1]), max, ops[|ops| - 1]))
  }

  lemma {:induction false} SuccessKeepsExact(st: Store, max: int, ops: seq<Op>)
    requires AllSucceed(st, max, ops)
    ensures AllKeepExact(st, max, ops)
  {
    if ops != [] {
      SuccessKeepsExact(st, max, ops[..|ops| - 1]);
    }
  }

  /** In particular they agree as long as every operation succeeds, restarts included. */
  lemma ExactWhileSucceeding(st: Store, max: int, ops: seq<Op>)
    requires WellTimed(st, ops) && Exact(st) && AllSucceed(st, max, ops)
    ensures ExactThroughout(st, max, ops)
  {
    SuccessKeepsExact(st, max, ops);
    ExactThroughoutExactly(st, max, ops);
  }

  /** For instance: the write of an entry of 6 bytes fails after it has evicted one of 5. */
  lemma FailedWriteExample()
    ensures var st := Store([File(Logs, 1, 0, 5, 0)], 5, 5);
      Exact(st) && Push(st, 10, Entry(File(Logs, 2, 0, 6, 1), false, true)) == (Store([], 0, 5), WriteFailed)
  {
    var f := File(Logs, 1, 0, 5, 0);
    ConsFacts(f, [], Logs);
    assert Oldest([f]) == 0 && Without([f], 0) == [];
    assert MakeRoom([], 0, 6, 10) == Room([], [], true);
    assert MakeRoom([f], 5, 6, 10) == Room([f], [], true);
  }

  // ----- Refused pushes and lost bytes -----

  /** Room is refused only after everything has gone. */
  lemma NoRoomDropsAll(files: seq<File>, written: int, size: nat, max: int, room: Room)
    requires room == MakeRoom(files, written, size, max)
    ensures !room.fits ==> room.kept == [] && Sum(room.dropped) == Sum(files)
    ensures !room.fits <==> written - Sum(files) + size > max
  {
    MakeRoomPartitions(files, written, size, max, room);
    MakeRoomIsMinimal(files, written, size, max, room);
  }

  /** A push is refused exactly when the entry does not fit beside the bytes that no file accounts for. */
  lemma FullExactly(st: Store, max: int, e: Entry)
    ensures Push(st, max, e).1 == Full <==> e.file.size + Drift(st) > max
    ensures Push(st, max, e).1 == Full ==> Push(st, max, e).0 == Store([], Drift(st), st.index)
  {
    var room := MakeRoom(st.files, st.written, e.file.size, max);
    NoRoomDropsAll(st.files, st.written, e.file.size, max, room);
  }

  /**
   Exactly when a refused push leaves the index behind: it evicts everything first and does not save the
   index, so the three still agree if and only if there were no bytes to evict.
   */
  lemma FullPushLeavesIndexBehind(st: Store, max: int, e: Entry)
    requires Exact(st) && Push(st, max, e).1 == Full
    ensures Push(st, max, e).0 == Store([], 0, Sum(st.files))
    ensures Exact(Push(st, max, e).0) <==> Sum(st.files) == 0
  {
    FullExactly(st, max, e);
  }

  /** For instance: an entry of 11 bytes meets a budget of 10 and one file of 5. */
  lemma FullPushExample()
    ensures var st := Store([File(Logs, 1, 0, 5, 0)], 5, 5);
      Exact(st) && Push(st, 10, Entry(File(Logs, 2, 0, 11, 1), true, true)) == (Store([], 0, 5), Full)
  {
    var f := File(Logs, 1, 0, 5, 0);
    ConsFacts(f, [], Logs);
    assert Oldest([f]) == 0 && Without([f], 0) == [];
    assert MakeRoom([], 0, 11, 10) == Room([], [], false);
    assert MakeRoom([f], 5, 11, 10) == Room([f], [], false);
  }

  lemma {:induction false} DriftOverRuns(st: Store, max: int, ops: seq<Op>)
    requires WellTimed(st, ops) && forall i | 0 <= i < |ops| :: !ops[i].Restart?
    ensures Drift(Exec(st, max, ops)) == Drift(st)
  {
    if ops != [] {
      var n := |ops| - 1;
      DriftOverRuns(st, max, ops[..n]);
      if ops[n].DoPush? {
        LastPushHasNewName(st, max, ops);
      }
      ApplyKeepsDrift(Exec(st, max, ops[..n]), max, ops[n]);
    }
  }

  /** With restarts, and pushes that save the index, the drift never shrinks. */
  lemma {:induction false} DriftNeverShrinks(st: Store, max: int, ops: seq<Op>)
    requires WellTimed(st, ops) && Balanced(st, max) && forall i | 0 <= i < |ops| :: SavesIndex(ops[i])
    ensures Drift(Exec(st, max, ops)) >= Drift(st)
  {
    if ops != [] {
      var n := |ops| - 1;
      var before := Exec(st, max, ops[..n]);
      DriftNeverShrinks(st, max, ops[..n]);
      if ops[n].Restart? {
        BalanceOverRuns(st, max, ops[..n]);
      } else {
        if ops[n].DoPush? {
          LastPushHasNewName(st, max, ops);
        }
        ApplyKeepsDrift(before, max, ops[n]);
      }
    }
  }

  /** The store that a process finds when it restarts after a refused push. */
  lemma AfterRefusal(st: Store, max: int, e: Entry)
    requires Exact(st) && Push(st, max, e).1 == Full
    ensures Reopen(Push(st, max, e).0) == Store([], Sum(st.files), Sum(st.files))
  {
    FullPushLeavesIndexBehind(st, max, e);
  }

  /**
   If the process restarts after a refused push, the evicted bytes count against the budget until the next
   restart, whatever is pushed and popped: that is exactly when later pushes are refused.
   */
  lemma EvictedBytesHauntTheBudget(st: Store, max: int, e: Entry, ops: seq<Op>, f: Entry)
    requires Exact(st) && Push(st, max, e).1 == Full
    requires WellTimed(EMPTY, ops) && forall i | 0 <= i < |ops| :: !ops[i].Restart?
    ensures var st' := Exec(Reopen(Push(st, max, e).0), max, ops);
      Push(st', max, f).1 == Full <==> f.file.size + Sum(st.files) > max
  {
    var start := Store([], Sum(st.files), Sum(st.files));
    AfterRefusal(st, max, e);
    DriftOverRuns(start, max, ops);
    FullExactly(Exec(start, max, ops), max, f);
  }

  /** Further restarts never give them back, if pushes save the index: what does not fit beside them is refused for good. */
  lemma EvictedBytesAreNeverRefunded(st: Store, max: int, e: Entry, ops: seq<Op>, f: Entry)
    requires Exact(st) && Balanced(st, max) && Push(st, max, e).1 == Full
    requires WellTimed(EMPTY, ops) && forall i | 0 <= i < |ops| :: SavesIndex(ops[i])
    requires f.file.size + Sum(st.files) > max
    ensures Push(Exec(Reopen(Push(st, max, e).0), max, ops), max, f).1 == Full
  {
    var start := Store([], Sum(st.files), Sum(st.files));
    AfterRefusal(st, max, e);
    DriftNeverShrinks(start, max, ops);
    FullExactly(Exec(start, max, ops), max, f);
  }
}
