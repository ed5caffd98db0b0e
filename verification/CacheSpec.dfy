/**
 What the offline store does, as functions on its state: a directory of entry files in listing order, the
 running byte counter, and the counter value last saved to index.json.

 Assumed: entry files are readable and decode to what Push wrote; nobody else writes the directory.
 */
module CacheSpec {
  datatype Kind = Logs | Metrics

  /** The JSON text of an entry, of which only its identity matters here. */
  type Body = nat

  /** An entry file.  Its name is "<kind>_<stamp>.json"; see module FileNames for the order of names. */
  datatype File = File(kind: Kind, stamp: nat, mtime: int, size: nat, body: Body)

  predicate SameName(a: File, b: File) {
    a.kind == b.kind && a.stamp == b.stamp
  }

  predicate NameLess(a: File, b: File) {
    (a.kind == Logs && b.kind == Metrics) || (a.kind == b.kind && a.stamp < b.stamp)
  }

  /** Older first; files of one modification time in the order of their names. */
  predicate AgeLess(a: File, b: File) {
    a.mtime < b.mtime || (a.mtime == b.mtime && NameLess(a, b))
  }

  /** ReadDir lists a directory by name. */
  ghost predicate Listed(files: seq<File>) {
    forall i, j | 0 <= i < j < |files| :: NameLess(files[i], files[j])
  }

  function Sum(files: seq<File>): nat {
    if files == [] then 0 else files[0].size + Sum(files[1..])
  }

  /** The files of one kind, in listing order. */
  function OfKind(files: seq<File>, k: Kind): seq<File> {
    if files == [] then []
    else (if files[0].kind == k then [files[0]] else []) + OfKind(files[1..], k)
  }

  /** WriteFile: replaces a file of that name, or adds one. */
  function Write(files: seq<File>, f: File): seq<File> {
    if files == [] || NameLess(f, files[0]) then [f] + files
    else if SameName(f, files[0]) then [f] + files[1..]
    else [files[0]] + Write(files[1..], f)
  }

  /** os.Remove of the file with f's name. */
  function Remove(files: seq<File>, f: File): seq<File> {
    if files == [] then []
    else if SameName(f, files[0]) then files[1..]
    else [files[0]] + Remove(files[1..], f)
  }

  function Without(files: seq<File>, i: nat): seq<File>
    requires i < |files|
  {
    files[..i] + files[i + 1..]
  }

  /** The file dropOldest picks: the first in the listing with the least modification time. */
  function Oldest(files: seq<File>): (i: nat)
    requires files != []
    ensures i < |files|
    ensures forall j | 0 <= j < |files| :: files[i].mtime <= files[j].mtime
    ensures forall j | 0 <= j < i :: files[i].mtime < files[j].mtime
  {
    var n := |files| - 1;
    if n == 0 then 0
    else
      var o := Oldest(files[..n]);
      if files[n].mtime < files[o].mtime then n else o
  }

  /** The result of making room: the files dropped, in the order they went, those kept, and whether it fits. */
  datatype Room = Room(dropped: seq<File>, kept: seq<File>, fits: bool)

  function MakeRoom(files: seq<File>, written: int, size: nat, max: int): Room
    decreases |files|
  {
    if written + size <= max then Room([], files, true)
    else if files == [] then Room([], [], false)
    else
      var o := Oldest(files);
      var rest := MakeRoom(Without(files, o), written - files[o].size, size, max);
      Room([files[o]] + rest.dropped, rest.kept, rest.fits)
  }

  datatype Store = Store(files: seq<File>, written: int, index: int)

  datatype PushResult = Stored | Full | WriteFailed | IndexFailed {
    /** The entry is on disk, whatever Push reported. */
    predicate Landed() { Stored? || IndexFailed? }
  }

  /** Push of one entry, with the outcomes of its two file writes. */
  datatype Entry = Entry(file: File, writeOk: bool, indexOk: bool)

  /** The store after making room. */
  function Roomy(st: Store, room: Room): Store {
    st.(files := room.kept, written := st.written - Sum(room.dropped))
  }

  function Push(st: Store, max: int, e: Entry): (Store, PushResult) {
    var room := MakeRoom(st.files, st.written, e.file.size, max);
    Place(Roomy(st, room), room.fits, e)
  }

  /** The rest of Push, after making room. */
  function Place(st: Store, fits: bool, e: Entry): (Store, PushResult) {
    if !fits then (st, Full)
    else if !e.writeOk then (st, WriteFailed)
    else
      var written := st.written + e.file.size;
      var files := Write(st.files, e.file);
      if e.indexOk then (Store(files, written, written), Stored) else (Store(files, written, st.index), IndexFailed)
  }

  lemma PushIsPlace(st: Store, max: int, e: Entry, room: Room)
    requires room == MakeRoom(st.files, st.written, e.file.size, max)
    ensures Push(st, max, e) == Place(Roomy(st, room), room.fits, e)
  {
  }

  /** What popKind takes from a listing, and what it leaves. */
  function Take(files: seq<File>, k: Kind, max: int): (seq<File>, seq<File>) {
    if files == [] || max <= 0 then ([], files)
    else if files[0].kind == k then
      var (out, rest) := Take(files[1..], k, max - 1);
      ([files[0]] + out, rest)
    else
      var (out, rest) := Take(files[1..], k, max);
      (out, [files[0]] + rest)
  }

  function Pop(st: Store, k: Kind, max: int, indexOk: bool): (Store, seq<File>) {
    var (out, rest) := Take(st.files, k, max);
    var written := st.written - Sum(out);
    (Store(rest, written, if indexOk then written else st.index), out)
  }

  /** A new process reads the counter back from index.json. */
  function Reopen(st: Store): Store {
    st.(written := st.index)
  }

  // ----- Sums and kinds of sequences -----

  lemma {:induction false} SumConcat(a: seq<File>, b: seq<File>)
    ensures Sum(a + b) == Sum(a) + Sum(b)
  {
    if a == [] {
      assert a + b == b;
    } else {
      assert (a + b)[1..] == a[1..] + b;
      SumConcat(a[1..], b);
    }
  }

  lemma {:induction false} OfKindConcat(a: seq<File>, b: seq<File>, k: Kind)
    ensures OfKind(a + b, k) == OfKind(a, k) + OfKind(b, k)
  {
    if a == [] {
      assert a + b == b;
    } else {
      assert (a + b)[1..] == a[1..] + b;
      OfKindConcat(a[1..], b, k);
      Associative(if a[0].kind == k then [a[0]] else [], OfKind(a[1..], k), OfKind(b, k));
    }
  }

  lemma Associative(a: seq<File>, b: seq<File>, c: seq<File>)
    ensures (a + b) + c == a + (b + c)
  {
  }

  lemma ConsFacts(f: File, s: seq<File>, k: Kind)
    ensures Sum([f] + s) == f.size + Sum(s)
    ensures OfKind([f] + s, k) == (if f.kind == k then [f] else []) + OfKind(s, k)
    ensures multiset([f] + s) == multiset{f} + multiset(s)
  {
    assert ([f] + s)[1..] == s;
  }

  lemma {:induction false} OfKindNone(a: seq<File>, k: Kind)
    requires forall f | f in a :: f.kind != k
    ensures OfKind(a, k) == []
  {
    if a != [] {
      OfKindNone(a[1..], k);
    }
  }

  lemma {:induction false} OfKindMember(a: seq<File>, k: Kind, f: File)
    ensures f in OfKind(a, k) <==> f in a && f.kind == k
  {
    if a != [] {
      OfKindMember(a[1..], k, f);
    }
  }

  lemma SumBetween(l: seq<File>, f: File, r: seq<File>)
    ensures Sum(l + ([f] + r)) == Sum(l + r) + f.size
  {
    SumConcat(l, [f] + r);
    SumConcat(l, r);
    ConsFacts(f, r, Logs);
  }

  lemma MultisetBetween(l: seq<File>, f: File, r: seq<File>)
    ensures multiset(l + ([f] + r)) == multiset(l + r) + multiset{f}
  {
  }

  lemma Around(files: seq<File>, i: nat)
    requires i < |files|
    ensures files == files[..i] + ([files[i]] + files[i + 1..])
  {
  }

  lemma RemovalAt(files: seq<File>, i: nat)
    requires i < |files|
    ensures Sum(files) == Sum(Without(files, i)) + files[i].size
    ensures multiset(files) == multiset(Without(files, i)) + multiset{files[i]}
  {
    Around(files, i);
    SumBetween(files[..i], files[i], files[i + 1..]);
    MultisetBetween(files[..i], files[i], files[i + 1..]);
  }

  // ----- Eviction removes exactly the shortest prefix of the age order -----

  lemma OldestIsFirstByAge(files: seq<File>)
    requires files != [] && Listed(files)
    ensures forall g | g in Without(files, Oldest(files)) :: AgeLess(files[Oldest(files)], g)
    ensures Listed(Without(files, Oldest(files)))
  {
  }

  /** Nothing is lost or invented when files are split in two. */
  ghost predicate SplitInTwo(files: seq<File>, a: seq<File>, b: seq<File>) {
    multiset(files) == multiset(a) + multiset(b) && Sum(files) == Sum(a) + Sum(b)
  }

  lemma SplitFurther(v: File, all: seq<File>, rest: seq<File>, a: seq<File>, b: seq<File>)
    requires SplitInTwo(rest, a, b)
    requires multiset(all) == multiset(rest) + multiset{v} && Sum(all) == Sum(rest) + v.size
    ensures SplitInTwo(all, [v] + a, b)
  {
    ConsFacts(v, a, Logs);
  }

  lemma {:induction false} MakeRoomPartitions(files: seq<File>, written: int, size: nat, max: int, r: Room)
    requires r == MakeRoom(files, written, size, max)
    ensures SplitInTwo(files, r.dropped, r.kept)
    decreases |files|
  {
    if written + size > max && files != [] {
      var v := files[Oldest(files)];
      var rest := Without(files, Oldest(files));
      var r' := MakeRoom(rest, written - v.size, size, max);
      assert r == Room([v] + r'.dropped, r'.kept, r'.fits);
      MakeRoomPartitions(rest, written - v.size, size, max, r');
      RemovalAt(files, Oldest(files));
      SplitFurther(v, files, rest, r'.dropped, r'.kept);
    }
  }

  /** In age order. */
  ghost predicate Aged(files: seq<File>) {
    forall i, j | 0 <= i < j < |files| :: AgeLess(files[i], files[j])
  }

  ghost predicate AllOlder(a: seq<File>, b: seq<File>) {
    forall f, g | f in a && g in b :: AgeLess(f, g)
  }

  lemma OldestBeforeBoth(files: seq<File>, dropped: seq<File>, kept: seq<File>)
    requires files != [] && Listed(files)
    requires SplitInTwo(Without(files, Oldest(files)), dropped, kept)
    ensures forall g | g in dropped || g in kept :: AgeLess(files[Oldest(files)], g)
  {
    forall g | g in dropped || g in kept ensures AgeLess(files[Oldest(files)], g) {
      OldestIsFirstByAge(files);
      assert g in multiset(Without(files, Oldest(files)));
    }
  }

  /** The dropped files stand in age order, and before every kept one. */
  lemma {:induction false} MakeRoomDropsOldest(files: seq<File>, written: int, size: nat, max: int, r: Room)
    requires Listed(files) && r == MakeRoom(files, written, size, max)
    ensures Listed(r.kept) && Aged(r.dropped) && AllOlder(r.dropped, r.kept)
    decreases |files|
  {
    if written + size > max && files != [] {
      var v := files[Oldest(files)];
      var rest := Without(files, Oldest(files));
      var r' := MakeRoom(rest, written - v.size, size, max);
      assert r == Room([v] + r'.dropped, r'.kept, r'.fits);
      assert Listed(rest) by {
        OldestIsFirstByAge(files);
      }
      MakeRoomDropsOldest(rest, written - v.size, size, max, r');
      MakeRoomPartitions(rest, written - v.size, size, max, r');
      OldestBeforeBoth(files, r'.dropped, r'.kept);
    }
  }

  /** No shorter prefix would do, and room is refused only when the directory is empty and it still does not fit. */
  lemma {:induction false} MakeRoomIsMinimal(files: seq<File>, written: int, size: nat, max: int, r: Room)
    requires r == MakeRoom(files, written, size, max)
    ensures forall n | 0 <= n < |r.dropped| :: written - Sum(r.dropped[..n]) + size > max
    ensures r.fits <==> written - Sum(r.dropped) + size <= max
    ensures !r.fits ==> r.kept == []
    decreases |files|
  {
    if written + size > max && files != [] {
      var v := files[Oldest(files)];
      var rest := Without(files, Oldest(files));
      var r' := MakeRoom(rest, written - v.size, size, max);
      var dropped := [v] + r'.dropped;
      assert r == Room(dropped, r'.kept, r'.fits);
      MakeRoomIsMinimal(rest, written - v.size, size, max, r');
      ConsFacts(v, r'.dropped, Logs);
      forall n | 0 <= n < |dropped| ensures written - Sum(dropped[..n]) + size > max {
        if n > 0 {
          assert dropped[..n] == [v] + r'.dropped[..n - 1];
          ConsFacts(v, r'.dropped[..n - 1], Logs);
        }
      }
    }
  }

  /**
   Push drops the shortest prefix of the age order that makes the entry fit, and refuses exactly when the
   entry exceeds what is left of the budget after the bytes that the counter holds but no file does.
   */
  lemma PushEvictsMinimally(st: Store, max: int, e: Entry) returns (dropped: seq<File>, kept: seq<File>)
    requires Listed(st.files)
    ensures multiset(st.files) == multiset(dropped) + multiset(kept)
    ensures Aged(dropped) && AllOlder(dropped, kept)
    ensures forall n | 0 <= n < |dropped| :: st.written - Sum(dropped[..n]) + e.file.size > max
    ensures Push(st, max, e).1 != Full <==> st.written - Sum(dropped) + e.file.size <= max
    ensures Push(st, max, e).1 == Full <==> e.file.size + (st.written - Sum(st.files)) > max
    ensures Push(st, max, e).0.files == if Push(st, max, e).1.Landed() then Write(kept, e.file) else kept
  {
    var room := MakeRoom(st.files, st.written, e.file.size, max);
    MakeRoomPartitions(st.files, st.written, e.file.size, max, room);
    MakeRoomDropsOldest(st.files, st.written, e.file.size, max, room);
    MakeRoomIsMinimal(st.files, st.written, e.file.size, max, room);
    dropped, kept := room.dropped, room.kept;
  }

  // ----- Two queues -----

  /** Listing order, and within a kind modification times that do not decrease. */
  ghost predicate InOrder(files: seq<File>) {
    && Listed(files)
    && forall i, j | 0 <= i < j < |files| && files[i].kind == files[j].kind :: files[i].mtime <= files[j].mtime
  }

  /** f was written after everything in files. */
  ghost predicate Newest(files: seq<File>, f: File) {
    forall g | g in files :: g.stamp < f.stamp && g.mtime <= f.mtime
  }

  lemma RemovalFromKind(files: seq<File>, i: nat, k: Kind)
    requires i < |files|
    requires forall j | 0 <= j < i :: files[j].kind != files[i].kind
    ensures OfKind(files, k) == (if files[i].kind == k then [files[i]] else []) + OfKind(Without(files, i), k)
  {
    var l, r := files[..i], files[i + 1..];
    assert files == l + ([files[i]] + r);
    OfKindConcat(l, [files[i]] + r, k);
    OfKindConcat(l, r, k);
    ConsFacts(files[i], r, k);
    if files[i].kind == k {
      OfKindNone(l, k);
    }
  }

  lemma OldestIsAHead(files: seq<File>, o: nat)
    requires files != [] && InOrder(files) && o == Oldest(files)
    ensures forall j | 0 <= j < o :: files[j].kind != files[o].kind
  {
    forall j | 0 <= j < o ensures files[j].kind != files[o].kind {
      assert files[o].mtime < files[j].mtime;
    }
  }

  lemma InOrderWithout(files: seq<File>, o: nat)
    requires o < |files| && InOrder(files)
    ensures InOrder(Without(files, o))
  {
  }

  /** Eviction drops the head of one queue, although it compares files of both kinds. */
  lemma EvictionDropsAHead(files: seq<File>, k: Kind)
    requires files != [] && InOrder(files)
    ensures InOrder(Without(files, Oldest(files)))
    ensures OfKind(files, k) ==
      (if files[Oldest(files)].kind == k then [files[Oldest(files)]] else []) + OfKind(Without(files, Oldest(files)), k)
  {
    var o := Oldest(files);
    OldestIsAHead(files, o);
    InOrderWithout(files, o);
    RemovalFromKind(files, o, k);
  }

  lemma {:induction false} MakeRoomDropsHeads(files: seq<File>, written: int, size: nat, max: int, r: Room, k: Kind)
    requires InOrder(files) && r == MakeRoom(files, written, size, max)
    ensures InOrder(r.kept) && OfKind(files, k) == OfKind(r.dropped, k) + OfKind(r.kept, k)
    decreases |files|
  {
    if written + size > max && files != [] {
      var v := files[Oldest(files)];
      var rest := Without(files, Oldest(files));
      var r' := MakeRoom(rest, written - v.size, size, max);
      assert r == Room([v] + r'.dropped, r'.kept, r'.fits);
      assert InOrder(rest) by {
        EvictionDropsAHead(files, k);
      }
      MakeRoomDropsHeads(rest, written - v.size, size, max, r', k);
      ghost var head := if v.kind == k then [v] else [];
      assert OfKind(files, k) == head + OfKind(rest, k) by {
        EvictionDropsAHead(files, k);
      }
      ConsFacts(v, r'.dropped, k);
      Associative(head, OfKind(r'.dropped, k), OfKind(r'.kept, k));
    }
  }

  lemma {:induction false} WriteMembers(files: seq<File>, f: File, g: File)
    ensures g in Write(files, f) ==> g == f || g in files
  {
    if files != [] && !NameLess(f, files[0]) && !SameName(f, files[0]) {
      WriteMembers(files[1..], f, g);
    }
  }

  lemma InOrderCons(f: File, rest: seq<File>)
    requires InOrder(rest)
    requires forall g | g in rest :: NameLess(f, g) && (g.kind == f.kind ==> f.mtime <= g.mtime)
    ensures InOrder([f] + rest)
  {
  }

  /** b has the files of a, and f. */
  ghost predicate OneMore(a: seq<File>, b: seq<File>, f: File) {
    multiset(b) == multiset(a) + multiset{f} && Sum(b) == Sum(a) + f.size
  }

  lemma OneMoreBehind(g: File, a: seq<File>, b: seq<File>, f: File)
    requires OneMore(a, b, f)
    ensures OneMore([g] + a, [g] + b, f)
  {
    ConsFacts(g, a, Logs);
    ConsFacts(g, b, Logs);
  }

  lemma {:induction false} WriteAdds(files: seq<File>, f: File)
    requires forall g | g in files :: !SameName(f, g)
    ensures OneMore(files, Write(files, f), f)
  {
    if files == [] || NameLess(f, files[0]) {
      ConsFacts(f, files, Logs);
    } else {
      var tail := files[1..];
      ghost var w := Write(tail, f);
      assert !SameName(f, files[0]);
      assert Write(files, f) == [files[0]] + w;
      WriteAdds(tail, f);
      OneMoreBehind(files[0], tail, w, f);
      assert files == [files[0]] + tail;
    }
  }

  /** The newest file joins the end of its queue; the other queue is untouched. */
  lemma {:induction false} WriteAppends(files: seq<File>, f: File, k: Kind)
    requires InOrder(files) && Newest(files, f)
    ensures InOrder(Write(files, f))
    ensures OfKind(Write(files, f), k) == OfKind(files, k) + (if f.kind == k then [f] else [])
    decreases |files|, 1
  {
    if files == [] {
    } else if NameLess(f, files[0]) {
      forall g | g in files ensures g.kind == Metrics {
        var i :| 0 <= i < |files| && files[i] == g;
        assert i > 0 ==> NameLess(files[0], files[i]);
      }
      InOrderCons(f, files);
      ConsFacts(f, files, k);
      OfKindNone(files, Logs);
    } else {
      WriteAppendsToTail(files, f, k);
    }
  }

  lemma {:induction false} WriteAppendsToTail(files: seq<File>, f: File, k: Kind)
    requires InOrder(files) && Newest(files, f) && files != [] && NameLess(files[0], f)
    ensures InOrder(Write(files, f))
    ensures OfKind(Write(files, f), k) == OfKind(files, k) + (if f.kind == k then [f] else [])
    decreases |files|, 0
  {
    var tail := files[1..];
    ghost var w := Write(tail, f);
    ghost var head := if files[0].kind == k then [files[0]] else [];
    ghost var last := if f.kind == k then [f] else [];
    assert Write(files, f) == [files[0]] + w;
    assert OfKind(files, k) == head + OfKind(tail, k);
    WriteAppends(tail, f, k);
    forall g | g in w ensures NameLess(files[0], g) && (g.kind == files[0].kind ==> files[0].mtime <= g.mtime) {
      WriteMembers(tail, f, g);
    }
    InOrderCons(files[0], w);
    ConsFacts(files[0], w, k);
    Associative(head, OfKind(tail, k), last);
  }

  function Prefix(s: seq<File>, n: int): seq<File> {
    if n <= 0 then [] else if n >= |s| then s else s[..n]
  }

  /** Pop takes the oldest entries of its own kind, up to max. */
  lemma {:induction false} TakePopsTheHead(files: seq<File>, k: Kind, max: int)
    ensures Take(files, k, max).0 == Prefix(OfKind(files, k), max)
  {
    if files != [] && max > 0 {
      TakePopsTheHead(files[1..], k, if files[0].kind == k then max - 1 else max);
    }
  }

  lemma {:induction false} TakeLeavesTheRest(files: seq<File>, k: Kind, max: int)
    ensures OfKind(files, k) == Take(files, k, max).0 + OfKind(Take(files, k, max).1, k)
  {
    if files != [] && max > 0 {
      var mine := files[0].kind == k;
      var m := if mine then max - 1 else max;
      var (out, rest) := Take(files[1..], k, m);
      TakeLeavesTheRest(files[1..], k, m);
      if mine {
        Associative([files[0]], out, OfKind(rest, k));
      } else {
        ConsFacts(files[0], rest, k);
      }
    }
  }

  lemma {:induction false} TakeSparesTheOther(files: seq<File>, k: Kind, max: int, other: Kind)
    requires other != k
    ensures OfKind(Take(files, k, max).1, other) == OfKind(files, other)
  {
    if files != [] && max > 0 {
      var m := if files[0].kind == k then max - 1 else max;
      TakeSparesTheOther(files[1..], k, m, other);
      var (out, rest) := Take(files[1..], k, m);
      ConsFacts(files[0], rest, other);
    }
  }

  lemma SplitBehind(f: File, files: seq<File>, out: seq<File>, rest: seq<File>, k: Kind)
    requires SplitInTwo(files, out, rest)
    ensures f.kind == k ==> SplitInTwo([f] + files, [f] + out, rest)
    ensures f.kind != k ==> SplitInTwo([f] + files, out, [f] + rest)
  {
    ConsFacts(f, files, k);
    if f.kind == k {
      ConsFacts(f, out, k);
    } else {
      ConsFacts(f, rest, k);
    }
  }

  lemma {:induction false} TakePartitions(files: seq<File>, k: Kind, max: int)
    ensures SplitInTwo(files, Take(files, k, max).0, Take(files, k, max).1)
  {
    if files != [] && max > 0 {
      var m := if files[0].kind == k then max - 1 else max;
      var (out, rest) := Take(files[1..], k, m);
      TakePartitions(files[1..], k, m);
      assert files == [files[0]] + files[1..];
      SplitBehind(files[0], files[1..], out, rest, k);
    }
  }

  lemma {:induction false} TakeKeepsOrder(files: seq<File>, k: Kind, max: int)
    requires InOrder(files)
    ensures InOrder(Take(files, k, max).1)
  {
    if files != [] && max > 0 {
      var m := if files[0].kind == k then max - 1 else max;
      var rest := Take(files[1..], k, m).1;
      TakeKeepsOrder(files[1..], k, m);
      forall g | g in rest ensures g in files[1..] {
        TakePartitions(files[1..], k, m);
        assert g in multiset(files[1..]);
      }
      InOrderCons(files[0], rest);
    }
  }
}
