/** The offline store over whole runs: pushes, pops and clean restarts, from an empty directory or any other. */
module CacheRuns {
  import opened CacheSpec

  datatype Op = DoPush(e: Entry) | DoPop(k: Kind, max: int, indexOk: bool) | Restart

  function Apply(st: Store, max: int, op: Op): Store {
    match op
    case DoPush(e) => Push(st, max, e).0
    case DoPop(k, n, indexOk) => Pop(st, k, n, indexOk).0
    case Restart => Reopen(st)
  }

  function Exec(st: Store, max: int, ops: seq<Op>): Store {
    if ops == [] then st
    else Apply(Exec(st, max, ops[..|ops| - 1]), max, ops[|ops| - 1])
  }

  const EMPTY := Store([], 0, 0)

  /** The files of kind k that pushes of this run have put on disk, first to last. */
  function Landed(st: Store, max: int, ops: seq<Op>, k: Kind): seq<File> {
    if ops == [] then OfKind(st.files, k)
    else
      var before := Exec(st, max, ops[..|ops| - 1]);
      var op := ops[|ops| - 1];
      Landed(st, max, ops[..|ops| - 1], k) +
        if op.DoPush? && op.e.file.kind == k && Push(before, max, op.e).1.Landed() then [op.e.file] else []
  }

  /** The clock that names files moves on, and the one that dates them never goes back. */
  ghost predicate WellTimed(st: Store, ops: seq<Op>) {
    && (forall i | 0 <= i < |ops| && ops[i].DoPush? :: Newest(st.files, ops[i].e.file))
    && (forall i, j | 0 <= i < j < |ops| && ops[i].DoPush? && ops[j].DoPush? ::
          ops[i].e.file.stamp < ops[j].e.file.stamp && ops[i].e.file.mtime <= ops[j].e.file.mtime)
  }

  /** Every file in the directory was there at first or was written by this run. */
  ghost predicate Accounted(st: Store, ops: seq<Op>, files: seq<File>) {
    forall g | g in files :: g in st.files || exists i :: 0 <= i < |ops| && ops[i].DoPush? && ops[i].e.file == g
  }

  lemma ApplyMembers(st: Store, max: int, op: Op, g: File)
    requires g in Apply(st, max, op).files
    ensures g in st.files || (op.DoPush? && op.e.file == g)
  {
    match op
    case DoPush(e) =>
      var room := MakeRoom(st.files, st.written, e.file.size, max);
      MakeRoomPartitions(st.files, st.written, e.file.size, max, room);
      WriteMembers(room.kept, e.file, g);
      if g in room.kept {
        assert g in multiset(st.files);
      }
    case DoPop(k, n, _) =>
      TakePartitions(st.files, k, n);
      assert g in multiset(st.files);
    case Restart =>
  }

  lemma {:induction false} ExecAccounted(st: Store, max: int, ops: seq<Op>)
    ensures Accounted(st, ops, Exec(st, max, ops).files)
  {
    if ops != [] {
      var n := |ops| - 1;
      var before := Exec(st, max, ops[..n]);
      ExecAccounted(st, max, ops[..n]);
      forall g | g in Exec(st, max, ops).files && g !in st.files
        ensures exists i :: 0 <= i < |ops| && ops[i].DoPush? && ops[i].e.file == g
      {
        ApplyMembers(before, max, ops[n], g);
        if g in before.files {
          var i :| 0 <= i < n && ops[..n][i].DoPush? && ops[..n][i].e.file == g;
          assert ops[i].e.file == g;
        }
      }
    }
  }

  lemma LastPushIsNewest(st: Store, max: int, ops: seq<Op>)
    requires ops != [] && WellTimed(st, ops)
    ensures ops[|ops| - 1].DoPush? ==> Newest(Exec(st, max, ops[..|ops| - 1]).files, ops[|ops| - 1].e.file)
  {
    var n := |ops| - 1;
    var files := Exec(st, max, ops[..n]).files;
    ExecAccounted(st, max, ops[..n]);
    if ops[n].DoPush? {
      forall g | g in files ensures g.stamp < ops[n].e.file.stamp && g.mtime <= ops[n].e.file.mtime {
        if g !in st.files {
          var i :| 0 <= i < n && ops[..n][i].DoPush? && ops[..n][i].e.file == g;
          assert ops[i].e.file == g;
        }
      }
    }
  }

  /** One step of the two queues: some heads go, and a file that lands joins the end of its own queue. */
  lemma ApplyRefinesQueues(st: Store, max: int, op: Op, k: Kind) returns (drop: nat)
    requires InOrder(st.files) && (op.DoPush? ==> Newest(st.files, op.e.file))
    ensures InOrder(Apply(st, max, op).files)
    ensures drop <= |OfKind(st.files, k)|
    ensures OfKind(Apply(st, max, op).files, k) == OfKind(st.files, k)[drop..] +
      if op.DoPush? && op.e.file.kind == k && Push(st, max, op.e).1.Landed() then [op.e.file] else []
    ensures op.DoPop? ==> drop == if op.k == k then |Pop(st, k, op.max, op.indexOk).1| else 0
  {
    match op
    case DoPush(e) =>
      var room := MakeRoom(st.files, st.written, e.file.size, max);
      MakeRoomDropsHeads(st.files, st.written, e.file.size, max, room, k);
      drop := |OfKind(room.dropped, k)|;
      forall g | g in room.kept ensures g in st.files {
        MakeRoomPartitions(st.files, st.written, e.file.size, max, room);
        assert g in multiset(st.files);
      }
      WriteAppends(room.kept, e.file, k);
    case DoPop(j, n, indexOk) =>
      TakeKeepsOrder(st.files, j, n);
      if j == k {
        TakeLeavesTheRest(st.files, k, n);
        drop := |Take(st.files, k, n).0|;
      } else {
        TakeSparesTheOther(st.files, j, n, k);
        drop := 0;
      }
    case Restart =>
      drop := 0;
  }

  lemma DropTwice(all: seq<File>, a: nat, b: nat, more: seq<File>)
    requires a <= |all| && b <= |all[a..]|
    ensures a + b <= |all + more| && all[a..][b..] + more == (all + more)[a + b..]
  {
  }

  /**
   Two queues.  After any run, the files of each kind are a suffix of the files that pushes of that kind
   have put on disk: only heads were ever lost, although one byte budget spans both kinds.
   */
  lemma {:induction false} FilesAreASuffix(st: Store, max: int, ops: seq<Op>, k: Kind) returns (gone: nat)
    requires InOrder(st.files) && WellTimed(st, ops)
    ensures InOrder(Exec(st, max, ops).files)
    ensures gone <= |Landed(st, max, ops, k)|
    ensures OfKind(Exec(st, max, ops).files, k) == Landed(st, max, ops, k)[gone..]
  {
    if ops == [] {
      gone := 0;
    } else {
      var init, op := ops[..|ops| - 1], ops[|ops| - 1];
      var before := Exec(st, max, init);
      var all := Landed(st, max, init, k);
      gone := FilesAreASuffix(st, max, init, k);
      LastPushIsNewest(st, max, ops);
      gone := SuffixStep(before, max, op, k, all, gone);
    }
  }

  lemma SuffixStep(before: Store, max: int, op: Op, k: Kind, all: seq<File>, gone: nat) returns (gone': nat)
    requires InOrder(before.files) && (op.DoPush? ==> Newest(before.files, op.e.file))
    requires gone <= |all| && OfKind(before.files, k) == all[gone..]
    ensures InOrder(Apply(before, max, op).files)
    ensures var all' := all + if op.DoPush? && op.e.file.kind == k && Push(before, max, op.e).1.Landed() then [op.e.file] else [];
      gone' <= |all'| && OfKind(Apply(before, max, op).files, k) == all'[gone'..]
  {
    var drop := ApplyRefinesQueues(before, max, op, k);
    gone' := gone + drop;
    DropTwice(all, gone, drop,
      if op.DoPush? && op.e.file.kind == k && Push(before, max, op.e).1.Landed() then [op.e.file] else []);
  }

  /** First in, first out: a pop returns the oldest survivors of its kind, in push order, and spares the other kind. */
  lemma PopIsFifo(st: Store, max: int, ops: seq<Op>, k: Kind, other: Kind, n: int, indexOk: bool) returns (gone: nat)
    requires InOrder(st.files) && WellTimed(st, ops) && other != k
    ensures var (after, out) := Pop(Exec(st, max, ops), k, n, indexOk);
      && gone <= |Landed(st, max, ops, k)|
      && out == Prefix(Landed(st, max, ops, k)[gone..], n)
      && OfKind(after.files, other) == OfKind(Exec(st, max, ops).files, other)
  {
    gone := FilesAreASuffix(st, max, ops, k);
    TakePopsTheHead(Exec(st, max, ops).files, k, n);
    TakeSparesTheOther(Exec(st, max, ops).files, k, n, other);
  }
}
